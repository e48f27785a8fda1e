/** The message-exchange store (src/stores/messageExchange.ts): the ingestion engine that
    deduplicates, classifies and records incoming assistance objects and resolves their
    assistance type and type schema.

    The store is an immutable record and every action a pure transition. The two HTTP
    lookups are replaced by an outbound request log (`requests`, the requests issued since
    the last `clearItems`) and by two response transitions, `OnTypeResponse` and
    `OnSchemaResponse`, which the environment may fire at any time. The display store's
    `dialogOpen`, read during ingestion, is an argument. */
module MessageExchange {
  import opened AssistanceObjects
  import opened AssistanceObjectHelper

  /** An outbound lookup: the type of an assistance instance, or the schema of a type key. */
  datatype Request = TypeRequest(aId: string) | SchemaRequest(typeKey: string)

  datatype State = State(
    items: seq<Message>,
    itemMessageIds: seq<string>,
    newItems: nat,
    groups: seq<Message>,
    assistanceIdToCurrentPhaseMatching: map<string, int>,
    assistanceIdToTypeMatching: map<string, string>,
    idsRequested: seq<string>,
    typeToDataMatching: map<string, Value>,
    typesRequested: seq<string>,
    messageToSend: string,
    requests: seq<Request>)

  /** The store's initial state: nothing ingested, recorded, cached or requested, so the
      first message of every instance passes the phase gate and needs a type lookup. */
  function Init(): (r: State)
    ensures r.items == [] && r.itemMessageIds == [] && r.groups == [] && r.newItems == 0
    ensures r.requests == [] && r.messageToSend == ""
    ensures forall aId :: !PhaseRecorded(r, aId) && !TypeResolved(r, aId) && aId !in r.idsRequested
    ensures forall typeKey :: !SchemaCached(r, typeKey) && typeKey !in r.typesRequested
  {
    State(
      items := [],
      itemMessageIds := [],
      newItems := 0,
      groups := [],
      assistanceIdToCurrentPhaseMatching := map[],
      assistanceIdToTypeMatching := map[],
      idsRequested := [],
      typeToDataMatching := map[],
      typesRequested := [],
      messageToSend := "",
      requests := [])
  }

  /** `clearItems`: every field is reset, field by field, and the result is exactly the
      initial state, so no collection or cache survives a logout. */
  function ClearItems(s: State): (r: State)
    ensures r == Init()
  {
    s.(items := [],
       itemMessageIds := [],
       newItems := 0,
       groups := [],
       assistanceIdToCurrentPhaseMatching := map[],
       assistanceIdToTypeMatching := map[],
       idsRequested := [],
       typeToDataMatching := map[],
       typesRequested := [],
       messageToSend := "",
       requests := [])
  }

  // ---------------------------------------------------------------------------------
  // Classification

  /** Parameter keys that make a message a control message which is not displayed. */
  const KeysToNotIterate: set<string> :=
    {"operation", "peer_solution", "solution_response", "solution_template", "state_update_response"}

  /** A message is displayable when none of its parameter keys is a control key. */
  ghost predicate Displayable(m: Message)
  {
    forall i :: 0 <= i < |ParametersOf(m)| ==> ParametersOf(m)[i].key !in KeysToNotIterate
  }

  function KeysOf(ps: seq<Parameter>): (ks: seq<string>)
    ensures |ks| == |ps| && forall i :: 0 <= i < |ps| ==> ks[i] == ps[i].key
  {
    seq(|ps|, i requires 0 <= i < |ps| => ps[i].key)
  }

  /** The two accumulators of the `forEach` over the parameters. */
  datatype Scan = Scan(itemToIterate: bool, paramList: seq<string>)

  /** The `forEach` over the parameters: a control key clears `itemToIterate`, every other
      key is pushed onto `paramList`. */
  function ScanParameters(ps: seq<Parameter>): (r: Scan)
    ensures r.itemToIterate <==> forall i :: 0 <= i < |ps| ==> ps[i].key !in KeysToNotIterate
    ensures r.itemToIterate ==> r.paramList == KeysOf(ps)
    ensures forall k :: k in r.paramList ==> k !in KeysToNotIterate
    decreases |ps|
  {
    if ps == [] then Scan(true, [])
    else
      var r0 := ScanParameters(ps[..|ps| - 1]);
      var p := ps[|ps| - 1];
      if p.key in KeysToNotIterate then Scan(false, r0.paramList)
      else Scan(r0.itemToIterate, r0.paramList + [p.key])
  }

  /** The collected keys with every `"message"` key dropped; order and multiplicity of the
      others are kept (see `WithoutMessagesDistributes`). */
  function WithoutMessages(ks: seq<string>): (r: seq<string>)
    ensures forall k :: k in r <==> k in ks && k != "message"
    ensures |r| <= |ks|
    decreases |ks|
  {
    if ks == [] then []
    else
      var r0 := WithoutMessages(ks[..|ks| - 1]);
      assert ks == ks[..|ks| - 1] + [ks[|ks| - 1]];
      if ks[|ks| - 1] == "message" then r0 else r0 + [ks[|ks| - 1]]
  }

  /** The last key other than `"message"`, defaulting to `"message"`. */
  function TypeFromKeys(ks: seq<string>): (t: string)
    ensures t == "message" || (t in ks && t != "message")
    ensures (exists k :: k in ks && k != "message") ==> t != "message"
  {
    var filtered := WithoutMessages(ks);
    if |filtered| > 0 then
      assert filtered[|filtered| - 1] in filtered;
      filtered[|filtered| - 1]
    else
      assert forall k :: k in ks && k != "message" ==> k in filtered;
      "message"
  }

  /** The message as it leaves classification: a displayable message has its `type` set,
      a control message is left as it came. */
  function Classify(m: Message): (c: Message)
    ensures c == m.(itemType := c.itemType)
    ensures !Displayable(m) ==> c == m
    ensures Displayable(m) ==> c.itemType.Some? && c.itemType.value !in KeysToNotIterate
  {
    var scan := ScanParameters(ParametersOf(m));
    if scan.itemToIterate then
      var t := TypeFromKeys(scan.paramList);
      assert t == "message" || t in WithoutMessages(scan.paramList);
      m.(itemType := Some(t))
    else m
  }

  // ---------------------------------------------------------------------------------
  // Insertion into `items`

  /** The phase a `state_update` value reports; a value without a phase reports 0. */
  function PhaseNumber(v: Value): int
  {
    match v
    case StateInfo(Some(p), _) => p
    case _ => 0
  }

  /** The value is a state report whose status is `"completed"`; a string, nullish or
      opaque value never is. */
  predicate IsCompleted(v: Value)
  {
    v.StateInfo? && v.status == Some("completed")
  }

  /** Whether a phase is recorded for `aId`, in JavaScript terms: a recorded `0` is falsy
      and counts as none. */
  predicate PhaseRecorded(s: State, aId: string)
  {
    aId in s.assistanceIdToCurrentPhaseMatching && s.assistanceIdToCurrentPhaseMatching[aId] != 0
  }

  /** The gate a `state_update` message passes to be displayed: it needs an instance id,
      and then either no phase is recorded for the instance or its phase is strictly higher. */
  predicate AcceptsStateUpdate(s: State, m: Message)
  {
    && Present(m.aId)
    && (|| !PhaseRecorded(s, m.aId.value)
        || PhaseNumber(ParameterValue(m, "state_update")) > s.assistanceIdToCurrentPhaseMatching[m.aId.value])
  }

  /** The insertion step of `addItem`: the displayed item list, the per-instance phase and
      the unseen counter. A control message changes none of them; a `state_update` passes
      the phase gate or is dropped; any other displayable message is appended and counted
      unless the dialog is open. */
  function InsertItem(s: State, m: Message, dialogOpen: bool): (r: State)
    ensures r == s.(items := r.items,
                    assistanceIdToCurrentPhaseMatching := r.assistanceIdToCurrentPhaseMatching,
                    newItems := r.newItems)
    ensures !Displayable(m) ==> r == s
    ensures Displayable(m) && Classify(m).itemType == Some("state_update") ==>
              if AcceptsStateUpdate(s, m) then
                && r.items == s.items + [Classify(m)]
                && r.assistanceIdToCurrentPhaseMatching ==
                   s.assistanceIdToCurrentPhaseMatching[m.aId.value := PhaseNumber(ParameterValue(m, "state_update"))]
                && r.newItems == s.newItems
              else r == s
    ensures Displayable(m) && Classify(m).itemType != Some("state_update") ==>
              && r.items == s.items + [Classify(m)]
              && r.assistanceIdToCurrentPhaseMatching == s.assistanceIdToCurrentPhaseMatching
              && r.newItems == s.newItems + (if dialogOpen then 0 else 1)
  {
    var c := Classify(m);
    if !ScanParameters(ParametersOf(m)).itemToIterate then s
    else if c.itemType == Some("state_update") then
      if AcceptsStateUpdate(s, m) then
        var aId := m.aId.value;
        s.(assistanceIdToCurrentPhaseMatching :=
             s.assistanceIdToCurrentPhaseMatching[aId := PhaseNumber(ParameterValue(m, "state_update"))],
           items := s.items + [c])
      else s
    else
      s.(items := s.items + [c],
         newItems := if !dialogOpen then s.newItems + 1 else s.newItems)
  }

  // ---------------------------------------------------------------------------------
  // Type and type-schema resolution

  /** A non-empty type key is cached for the instance; an empty one is falsy and counts
      as none. */
  predicate TypeResolved(s: State, aId: string)
  {
    aId in s.assistanceIdToTypeMatching && s.assistanceIdToTypeMatching[aId] != ""
  }

  /** A truthy schema is cached for the type key; a cached `""`, `null` or other falsy
      body counts as none, so the schema is requested again. */
  predicate SchemaCached(s: State, typeKey: string)
  {
    typeKey in s.typeToDataMatching && Truthy(s.typeToDataMatching[typeKey])
  }

  /** `checkTypeKeyData`: a schema request for `typeKey` is issued, and the key marked as
      requested, only when it was neither requested nor cached. */
  function CheckTypeKeyData(s: State, typeKey: string): (r: State)
    ensures r == s.(typesRequested := r.typesRequested, requests := r.requests)
    ensures typeKey in s.typesRequested || SchemaCached(s, typeKey) ==> r == s
    ensures typeKey !in s.typesRequested && !SchemaCached(s, typeKey) ==>
              && r.typesRequested == s.typesRequested + [typeKey]
              && r.requests == s.requests + [SchemaRequest(typeKey)]
  {
    if typeKey !in s.typesRequested && !SchemaCached(s, typeKey) then
      s.(typesRequested := s.typesRequested + [typeKey],
         requests := s.requests + [SchemaRequest(typeKey)])
    else s
  }

  /** Whether `checkForTypeMatching` acts on `m` in state `s`. */
  predicate NeedsTypeLookup(s: State, m: Message)
  {
    Present(m.aId) && m.aId.value !in s.idsRequested && !TypeResolved(s, m.aId.value)
  }

  /** `checkForTypeMatching`: an instance id is marked requested at most once, before any
      response; an embedded `assistanceType` is cached at once and issues no type request. */
  function CheckForTypeMatching(s: State, m: Message): (r: State)
    ensures r == s.(idsRequested := r.idsRequested,
                    assistanceIdToTypeMatching := r.assistanceIdToTypeMatching,
                    typesRequested := r.typesRequested,
                    requests := r.requests)
    ensures !NeedsTypeLookup(s, m) ==> r == s
    ensures NeedsTypeLookup(s, m) ==> r.idsRequested == s.idsRequested + [m.aId.value]
    ensures NeedsTypeLookup(s, m) && Present(m.assistanceType) ==>
              && r.assistanceIdToTypeMatching == s.assistanceIdToTypeMatching[m.aId.value := m.assistanceType.value]
              && r == CheckTypeKeyData(s.(idsRequested := r.idsRequested,
                                          assistanceIdToTypeMatching := r.assistanceIdToTypeMatching),
                                       m.assistanceType.value)
    ensures NeedsTypeLookup(s, m) && !Present(m.assistanceType) ==>
              && r.requests == s.requests + [TypeRequest(m.aId.value)]
              && r.assistanceIdToTypeMatching == s.assistanceIdToTypeMatching
              && r.typesRequested == s.typesRequested
  {
    if NeedsTypeLookup(s, m) then
      var aId := m.aId.value;
      if Present(m.assistanceType) then
        var typeKey := m.assistanceType.value;
        var s1 := s.(idsRequested := s.idsRequested + [aId],
                     assistanceIdToTypeMatching := s.assistanceIdToTypeMatching[aId := typeKey]);
        CheckTypeKeyData(s1, typeKey)
      else
        s.(idsRequested := s.idsRequested + [aId],
           requests := s.requests + [TypeRequest(aId)])
    else s
  }

  /** The `then` callback of the type lookup for `aId`: the returned type key is cached and
      its schema resolved. */
  function OnTypeResponse(s: State, aId: string, typeKey: string): (r: State)
    ensures r.assistanceIdToTypeMatching == s.assistanceIdToTypeMatching[aId := typeKey]
    ensures r.idsRequested == s.idsRequested
    ensures r.requests == s.requests || r.requests == s.requests + [SchemaRequest(typeKey)]
    ensures typeKey in s.typesRequested || SchemaCached(s, typeKey) ==>
              r.typesRequested == s.typesRequested && r.requests == s.requests
    ensures typeKey !in s.typesRequested && !SchemaCached(s, typeKey) ==>
              && r.typesRequested == s.typesRequested + [typeKey]
              && r.requests == s.requests + [SchemaRequest(typeKey)]
    ensures r == s.(assistanceIdToTypeMatching := r.assistanceIdToTypeMatching,
                    typesRequested := r.typesRequested,
                    requests := r.requests)
  {
    CheckTypeKeyData(s.(assistanceIdToTypeMatching := s.assistanceIdToTypeMatching[aId := typeKey]), typeKey)
  }

  /** The `then` callback of the schema lookup for `typeKey`: the body is cached verbatim. */
  function OnSchemaResponse(s: State, typeKey: string, data: Value): (r: State)
    ensures r.typeToDataMatching == s.typeToDataMatching[typeKey := data]
    ensures r == s.(typeToDataMatching := r.typeToDataMatching)
  {
    s.(typeToDataMatching := s.typeToDataMatching[typeKey := data])
  }

  // ---------------------------------------------------------------------------------
  // Groups

  /** Both messages belong to the same assistance object of the same instance; nothing
      else about them, their type or parameters included, matters. */
  predicate SamePair(g: Message, m: Message)
  {
    g.aId == m.aId && g.aoId == m.aoId
  }

  /** The groups that do not belong to `m`'s (aId, aoId) pair, in their original order. */
  function WithoutPair(gs: seq<Message>, m: Message): (r: seq<Message>)
    ensures forall g :: g in r <==> g in gs && !SamePair(g, m)
    ensures |r| <= |gs|
  {
    if gs == [] then []
    else if SamePair(gs[0], m) then WithoutPair(gs[1..], m)
    else [gs[0]] + WithoutPair(gs[1..], m)
  }

  /** The message reports a completed state update or state-update response; a message
      with neither parameter never completes a group. */
  function CompletesGroup(m: Message): (b: bool)
    ensures b ==> CheckForKeyPresence(m, "state_update") || CheckForKeyPresence(m, "state_update_response")
  {
    IsCompleted(ParameterValue(m, "state_update")) || IsCompleted(ParameterValue(m, "state_update_response"))
  }

  /** `addOrRemoveGroup`: a `related_users` message joins the group list; otherwise a
      completed state update removes every group of the same (aId, aoId) pair. */
  function AddOrRemoveGroup(s: State, m: Message): (r: State)
    ensures r == s.(groups := r.groups)
    ensures CheckForKeyPresence(m, "related_users") ==> r.groups == s.groups + [m]
    ensures !CheckForKeyPresence(m, "related_users") && CompletesGroup(m) ==>
              forall g :: g in r.groups <==> g in s.groups && !SamePair(g, m)
    ensures !CheckForKeyPresence(m, "related_users") && !CompletesGroup(m) ==> r == s
  {
    if CheckForKeyPresence(m, "related_users") then s.(groups := s.groups + [m])
    else if CompletesGroup(m) then s.(groups := WithoutPair(s.groups, m))
    else s
  }

  // ---------------------------------------------------------------------------------
  // Ingestion

  /** The message carries a non-empty `messageId` that was already ingested; a message
      without one, or with an empty one, is never a duplicate. */
  predicate IsDuplicate(s: State, m: Message)
  {
    Present(m.messageId) && m.messageId.value in s.itemMessageIds
  }

  /** `addItem`: deduplicate on `messageId`, classify and insert, then always run type
      lookup and group bookkeeping on the classified message. */
  function AddItem(s: State, m: Message, dialogOpen: bool): (r: State)
    ensures IsDuplicate(s, m) ==> r == s
    ensures !IsDuplicate(s, m) ==>
              r.itemMessageIds == s.itemMessageIds + (if Present(m.messageId) then [m.messageId.value] else [])
    ensures r.items == s.items || r.items == s.items + [Classify(m)]
    ensures r.newItems == s.newItems || r.newItems == s.newItems + 1
    ensures r.typeToDataMatching == s.typeToDataMatching
    ensures r.messageToSend == s.messageToSend
  {
    if IsDuplicate(s, m) then s
    else
      var s1 := if Present(m.messageId) then s.(itemMessageIds := s.itemMessageIds + [m.messageId.value]) else s;
      var s2 := InsertItem(s1, m, dialogOpen);
      var c := Classify(m);
      var s3 := CheckForTypeMatching(s2, c);
      AddOrRemoveGroup(s3, c)
  }
}
