/** Properties of the message-exchange store: classification, the effect of one ingestion,
    group bookkeeping, and the single-flight discipline of the type and schema lookups over
    any interleaving of ingestions, responses and clears. */
module MessageExchangeProperties {
  import opened AssistanceObjects
  import opened AssistanceObjectHelper
  import opened MessageExchange

  // ---------------------------------------------------------------------------------
  // Classification

  /** `i` is the position of the last key other than `"message"`. */
  ghost predicate LastNonMessage(ks: seq<string>, i: int)
  {
    && 0 <= i < |ks|
    && ks[i] != "message"
    && forall j :: i < j < |ks| ==> ks[j] == "message"
  }

  /** The last non-`"message"` key wins; with no such key the type is `"message"`. */
  lemma {:induction false} TypeIsLastNonMessageKey(ks: seq<string>)
    ensures (forall i :: 0 <= i < |ks| ==> ks[i] == "message") ==> TypeFromKeys(ks) == "message"
    ensures forall i :: LastNonMessage(ks, i) ==> TypeFromKeys(ks) == ks[i]
    decreases |ks|
  {
    if ks != [] {
      var init := ks[..|ks| - 1];
      TypeIsLastNonMessageKey(init);
      if ks[|ks| - 1] == "message" {
        TrailingMessageIgnored(ks);
        forall i | LastNonMessage(ks, i) ensures LastNonMessage(init, i) {
        }
        if forall i :: 0 <= i < |ks| ==> ks[i] == "message" {
          assert forall i :: 0 <= i < |init| ==> init[i] == ks[i];
        }
      } else {
        LastKeyIsType(ks);
        assert forall i :: LastNonMessage(ks, i) ==> i == |ks| - 1;
      }
    }
  }

  /** A trailing `"message"` key does not change the type. */
  lemma TrailingMessageIgnored(ks: seq<string>)
    requires ks != [] && ks[|ks| - 1] == "message"
    ensures TypeFromKeys(ks) == TypeFromKeys(ks[..|ks| - 1])
  {
    assert WithoutMessages(ks) == WithoutMessages(ks[..|ks| - 1]);
  }

  /** A last key other than `"message"` is the type. */
  lemma LastKeyIsType(ks: seq<string>)
    requires ks != [] && ks[|ks| - 1] != "message"
    ensures TypeFromKeys(ks) == ks[|ks| - 1]
  {
    assert WithoutMessages(ks) == WithoutMessages(ks[..|ks| - 1]) + [ks[|ks| - 1]];
  }

  /** Dropping the `"message"` keys distributes over concatenation: the other keys survive
      in their order and with their multiplicity. */
  lemma {:induction false} WithoutMessagesDistributes(a: seq<string>, b: seq<string>)
    ensures WithoutMessages(a + b) == WithoutMessages(a) + WithoutMessages(b)
    decreases |b|
  {
    if b == [] {
      assert a + b == a;
    } else {
      var b0 := b[..|b| - 1];
      WithoutMessagesDistributes(a, b0);
      assert (a + b)[..|a + b| - 1] == a + b0;
    }
  }

  /** A single key survives exactly when it is not `"message"`. */
  lemma WithoutMessagesSingleton(k: string)
    ensures WithoutMessages([k]) == (if k == "message" then [] else [k])
  {
    assert [k][..0] == [];
  }

  /** A message whose only parameter is a displayable key other than `"message"` is
      displayed and typed by that key. */
  lemma OneParameterClassified(m: Message, p: Parameter)
    requires ParametersOf(m) == [p] && p.key !in KeysToNotIterate && p.key != "message"
    ensures Displayable(m) && Classify(m).itemType == Some(p.key)
  {
    assert ScanParameters([p]) == Scan(true, [p.key]) by {
      assert [p][..0] == [];
    }
    WithoutMessagesSingleton(p.key);
  }

  /** Looking up the key of a message's only parameter yields that parameter's value. */
  lemma OneParameterValue(m: Message, p: Parameter)
    requires ParametersOf(m) == [p]
    ensures CheckForKeyPresence(m, p.key)
    ensures ParameterValue(m, p.key) == (if p.value == Nullish then Str("") else p.value)
  {
    assert FirstMatch([p], p.key, 0);
  }

  /** A displayable message is typed by its last parameter key other than `"message"`, and
      as `"message"` when it has no such key (including no parameters at all). */
  lemma ClassifiedTypeIsLastNonMessageKey(m: Message)
    requires Displayable(m)
    ensures (forall i :: 0 <= i < |ParametersOf(m)| ==> ParametersOf(m)[i].key == "message") ==>
              Classify(m).itemType == Some("message")
    ensures forall i :: LastNonMessage(KeysOf(ParametersOf(m)), i) ==>
              Classify(m).itemType == Some(ParametersOf(m)[i].key)
  {
    TypeIsLastNonMessageKey(KeysOf(ParametersOf(m)));
  }

  // ---------------------------------------------------------------------------------
  // One ingestion

  /** A message whose non-empty `messageId` was seen leaves the whole state unchanged, so
      ingesting the same message twice is the same as ingesting it once. */
  lemma RepeatedIngestIsNoOp(s: State, m: Message, d1: bool, d2: bool)
    requires Present(m.messageId)
    ensures AddItem(AddItem(s, m, d1), m, d2) == AddItem(s, m, d1)
  {
  }

  /** A message without a (non-empty) `messageId` is never treated as a duplicate and
      records no id. */
  lemma MissingMessageIdAlwaysProcessed(s: State, m: Message, d: bool)
    requires !Present(m.messageId)
    ensures !IsDuplicate(s, m)
    ensures AddItem(s, m, d).itemMessageIds == s.itemMessageIds
  {
  }

  /** A displayable message that is not a state update becomes the last item, earlier items
      unchanged; `newItems` grows by one exactly when the dialog is closed. */
  lemma DisplayableMessageAppended(s: State, m: Message, dialogOpen: bool)
    requires !IsDuplicate(s, m) && Displayable(m)
    requires Classify(m).itemType != Some("state_update")
    ensures var r := AddItem(s, m, dialogOpen);
            && r.items == s.items + [Classify(m)]
            && r.items[|s.items|] == Classify(m)
            && r.items[..|s.items|] == s.items
            && (r.newItems == s.newItems + 1 <==> !dialogOpen)
            && (dialogOpen ==> r.newItems == s.newItems)
  {
    var r := AddItem(s, m, dialogOpen);
    assert r.items == s.items + [Classify(m)];
  }

  /** A message carrying a control key is not displayed, gets no type and touches neither the
      phase map nor the counter; it still goes through group bookkeeping. */
  lemma SuppressedMessageNotAppended(s: State, m: Message, dialogOpen: bool)
    requires !IsDuplicate(s, m)
    requires exists i :: 0 <= i < |ParametersOf(m)| && ParametersOf(m)[i].key in KeysToNotIterate
    ensures Classify(m) == m
    ensures var r := AddItem(s, m, dialogOpen);
            && r.items == s.items
            && r.newItems == s.newItems
            && r.assistanceIdToCurrentPhaseMatching == s.assistanceIdToCurrentPhaseMatching
            && (CheckForKeyPresence(m, "related_users") ==> r.groups == s.groups + [m])
  {
  }

  /** A displayable `state_update` is appended exactly when the instance id is present and
      either no truthy phase is recorded for it or the new phase is strictly greater; then the
      new phase is recorded. It never counts as unseen. */
  lemma StateUpdateGate(s: State, m: Message, dialogOpen: bool)
    requires !IsDuplicate(s, m) && Displayable(m)
    requires Classify(m).itemType == Some("state_update")
    ensures var r := AddItem(s, m, dialogOpen);
            var phase := PhaseNumber(ParameterValue(m, "state_update"));
            && r.newItems == s.newItems
            && (r.items == s.items + [Classify(m)] <==>
                  && Present(m.aId)
                  && (|| m.aId.value !in s.assistanceIdToCurrentPhaseMatching
                      || s.assistanceIdToCurrentPhaseMatching[m.aId.value] == 0
                      || phase > s.assistanceIdToCurrentPhaseMatching[m.aId.value]))
            && (r.items == s.items + [Classify(m)] ==>
                  r.assistanceIdToCurrentPhaseMatching == s.assistanceIdToCurrentPhaseMatching[m.aId.value := phase])
            && (r.items != s.items + [Classify(m)] ==>
                  r.items == s.items && r.assistanceIdToCurrentPhaseMatching == s.assistanceIdToCurrentPhaseMatching)
  {
    var r := AddItem(s, m, dialogOpen);
    assert |s.items + [Classify(m)]| != |s.items|;
  }

  /** A state update that passes the gate is shown, records its phase and is not counted. */
  lemma AcceptedStateUpdate(s: State, m: Message, dialogOpen: bool)
    requires !IsDuplicate(s, m) && Displayable(m) && Classify(m).itemType == Some("state_update")
    requires AcceptsStateUpdate(s, m)
    ensures var r := AddItem(s, m, dialogOpen);
            && r.items == s.items + [Classify(m)]
            && r.assistanceIdToCurrentPhaseMatching ==
               s.assistanceIdToCurrentPhaseMatching[m.aId.value := PhaseNumber(ParameterValue(m, "state_update"))]
            && r.newItems == s.newItems
  {
  }

  /** A state update that fails the gate is neither shown nor recorded in the phase map, but
      the ingestion still happened: its `messageId` is recorded and group bookkeeping runs on
      it, so a completed one still removes its pair's groups. */
  lemma RejectedStateUpdateStillIngested(s: State, m: Message, dialogOpen: bool)
    requires !IsDuplicate(s, m) && Displayable(m) && Classify(m).itemType == Some("state_update")
    requires !AcceptsStateUpdate(s, m)
    ensures var r := AddItem(s, m, dialogOpen);
            && r.items == s.items
            && r.assistanceIdToCurrentPhaseMatching == s.assistanceIdToCurrentPhaseMatching
            && r.newItems == s.newItems
            && r.itemMessageIds == s.itemMessageIds + (if Present(m.messageId) then [m.messageId.value] else [])
            && r.groups == AddOrRemoveGroup(s, Classify(m)).groups
  {
    AddItemGroups(s, m, dialogOpen);
  }

  /** A recorded truthy phase never decreases. */
  lemma PhaseNeverDecreases(s: State, m: Message, dialogOpen: bool, aId: string)
    requires PhaseRecorded(s, aId)
    ensures var r := AddItem(s, m, dialogOpen);
            && aId in r.assistanceIdToCurrentPhaseMatching
            && r.assistanceIdToCurrentPhaseMatching[aId] >= s.assistanceIdToCurrentPhaseMatching[aId]
  {
    if !IsDuplicate(s, m) {
      var s1 := if Present(m.messageId) then s.(itemMessageIds := s.itemMessageIds + [m.messageId.value]) else s;
      var s2 := InsertItem(s1, m, dialogOpen);
      var c := Classify(m);
      var s3 := CheckForTypeMatching(s2, c);
      assert AddItem(s, m, dialogOpen) == AddOrRemoveGroup(s3, c);
      InsertItemKeepsRecordedPhase(s1, m, dialogOpen, aId);
    }
  }

  lemma InsertItemKeepsRecordedPhase(s: State, m: Message, dialogOpen: bool, aId: string)
    requires PhaseRecorded(s, aId)
    ensures var r := InsertItem(s, m, dialogOpen);
            && aId in r.assistanceIdToCurrentPhaseMatching
            && r.assistanceIdToCurrentPhaseMatching[aId] >= s.assistanceIdToCurrentPhaseMatching[aId]
  {
    var r := InsertItem(s, m, dialogOpen);
    if r.assistanceIdToCurrentPhaseMatching != s.assistanceIdToCurrentPhaseMatching && m.aId == Some(aId) {
      assert AcceptsStateUpdate(s, m);
    }
  }

  // ---------------------------------------------------------------------------------
  // Groups

  /** Removal by pair keeps the order of the remaining groups: it distributes over
      concatenation. */
  lemma {:induction false} WithoutPairDistributes(a: seq<Message>, b: seq<Message>, m: Message)
    ensures WithoutPair(a + b, m) == WithoutPair(a, m) + WithoutPair(b, m)
  {
    if a == [] {
      assert a + b == b;
    } else {
      assert (a + b)[0] == a[0];
      assert (a + b)[1..] == a[1..] + b;
      WithoutPairDistributes(a[1..], b, m);
    }
  }

  /** Groups of other pairs are kept exactly, in order. */
  lemma {:induction false} WithoutPairKeepsOthers(gs: seq<Message>, m: Message)
    requires forall i :: 0 <= i < |gs| ==> !SamePair(gs[i], m)
    ensures WithoutPair(gs, m) == gs
  {
    if gs != [] {
      WithoutPairKeepsOthers(gs[1..], m);
    }
  }

  /** Group bookkeeping of an ingestion: a `related_users` message is appended (even when it
      also reports completion); otherwise a completed state update removes its pair. */
  lemma GroupBookkeeping(s: State, m: Message, dialogOpen: bool)
    requires !IsDuplicate(s, m)
    ensures var r := AddItem(s, m, dialogOpen);
            && (CheckForKeyPresence(m, "related_users") ==> r.groups == s.groups + [Classify(m)])
            && (!CheckForKeyPresence(m, "related_users") && CompletesGroup(m) ==> r.groups == WithoutPair(s.groups, m))
            && (!CheckForKeyPresence(m, "related_users") && !CompletesGroup(m) ==> r.groups == s.groups)
  {
    var c := Classify(m);
    assert AddItem(s, m, dialogOpen).groups == AddOrRemoveGroup(s, c).groups by {
      AddItemGroups(s, m, dialogOpen);
    }
    assert CheckForKeyPresence(c, "related_users") == CheckForKeyPresence(m, "related_users") by {
      ClassifyKeepsLookups(m, "related_users");
    }
    assert CompletesGroup(c) == CompletesGroup(m) by {
      ClassifyKeepsLookups(m, "state_update");
      ClassifyKeepsLookups(m, "state_update_response");
    }
    assert WithoutPair(s.groups, c) == WithoutPair(s.groups, m) by {
      SamePairIgnoresType(s.groups, m, c);
    }
  }

  /** Classification touches only `type`, so every parameter lookup on the classified
      message answers as on the message itself. */
  lemma ClassifyKeepsLookups(m: Message, key: string)
    ensures CheckForKeyPresence(Classify(m), key) == CheckForKeyPresence(m, key)
    ensures ParameterValue(Classify(m), key) == ParameterValue(m, key)
  {
    assert ParametersOf(Classify(m)) == ParametersOf(m);
  }

  /** The groups after an ingestion are those group bookkeeping of the classified message
      makes of the groups before it: the earlier stages leave the groups alone. */
  lemma AddItemGroups(s: State, m: Message, dialogOpen: bool)
    requires !IsDuplicate(s, m)
    ensures AddItem(s, m, dialogOpen).groups == AddOrRemoveGroup(s, Classify(m)).groups
  {
    var c := Classify(m);
    var s1 := if Present(m.messageId) then s.(itemMessageIds := s.itemMessageIds + [m.messageId.value]) else s;
    var s2 := InsertItem(s1, m, dialogOpen);
    var s3 := CheckForTypeMatching(s2, c);
    assert AddItem(s, m, dialogOpen) == AddOrRemoveGroup(s3, c);
    assert s3.groups == s.groups by {
      assert s2.groups == s.groups;
    }
    GroupBookkeepingReadsOnlyGroups(s3, s, c);
  }

  /** Group bookkeeping reads no field of the store but the groups. */
  lemma GroupBookkeepingReadsOnlyGroups(s: State, t: State, m: Message)
    requires s.groups == t.groups
    ensures AddOrRemoveGroup(s, m).groups == AddOrRemoveGroup(t, m).groups
  {
  }

  lemma {:induction false} SamePairIgnoresType(gs: seq<Message>, m: Message, c: Message)
    requires c.aId == m.aId && c.aoId == m.aoId
    ensures WithoutPair(gs, c) == WithoutPair(gs, m)
  {
    if gs != [] {
      SamePairIgnoresType(gs[1..], m, c);
    }
  }

  // ---------------------------------------------------------------------------------
  // Type resolution on one ingestion

  /** An embedded `assistanceType` is cached synchronously and no type request is issued. */
  lemma EmbeddedTypeIssuesNoTypeRequest(s: State, m: Message, dialogOpen: bool)
    requires !IsDuplicate(s, m) && Present(m.aId) && Present(m.assistanceType)
    requires m.aId.value !in s.idsRequested && !TypeResolved(s, m.aId.value)
    ensures var r := AddItem(s, m, dialogOpen);
            && r.assistanceIdToTypeMatching == s.assistanceIdToTypeMatching[m.aId.value := m.assistanceType.value]
            && r.idsRequested == s.idsRequested + [m.aId.value]
            && (r.requests == s.requests || r.requests == s.requests + [SchemaRequest(m.assistanceType.value)])
  {
  }

  /** An instance id that was already requested issues no further lookup of any kind. */
  lemma RequestedInstanceIssuesNothing(s: State, m: Message, dialogOpen: bool)
    requires Present(m.aId) && m.aId.value in s.idsRequested
    ensures var r := AddItem(s, m, dialogOpen);
            && r.requests == s.requests
            && r.idsRequested == s.idsRequested
            && r.typesRequested == s.typesRequested
            && r.assistanceIdToTypeMatching == s.assistanceIdToTypeMatching
  {
  }

  /** An instance whose type is already cached issues no further lookup of any kind, and
      is not marked as requested either. */
  lemma ResolvedInstanceIssuesNothing(s: State, m: Message, dialogOpen: bool)
    requires Present(m.aId) && TypeResolved(s, m.aId.value)
    ensures var r := AddItem(s, m, dialogOpen);
            && r.requests == s.requests
            && r.idsRequested == s.idsRequested
            && r.typesRequested == s.typesRequested
            && r.assistanceIdToTypeMatching == s.assistanceIdToTypeMatching
  {
  }

  /** A type lookup issued before `clearItems` can still answer after it: the cleared store
      then caches the type, and the next message for that instance issues no type request,
      although the instance is not marked as requested. */
  lemma LateTypeResponseAfterClear(s: State, aId: string, typeKey: string, m: Message, dialogOpen: bool)
    requires typeKey != "" && m.aId == Some(aId) && Present(m.aId)
    ensures var t := OnTypeResponse(ClearItems(s), aId, typeKey);
            var r := AddItem(t, m, dialogOpen);
            && TypeResolved(t, aId)
            && r.requests == t.requests
            && TypeRequest(aId) !in r.requests
            && aId !in r.idsRequested
  {
    var t := OnTypeResponse(ClearItems(s), aId, typeKey);
    assert TypeResolved(t, aId);
    ResolvedInstanceIssuesNothing(t, m, dialogOpen);
  }

  /** A late type response with an empty type key caches a falsy key: the instance stays
      unresolved, and the next message for it without an embedded type requests again. */
  lemma EmptyLateTypeResponseRequestsAgain(s: State, aId: string, m: Message, dialogOpen: bool)
    requires m.aId == Some(aId) && Present(m.aId) && !Present(m.assistanceType)
    ensures var t := OnTypeResponse(ClearItems(s), aId, "");
            && !TypeResolved(t, aId)
            && AddItem(t, m, dialogOpen).requests == t.requests + [TypeRequest(aId)]
  {
    var t := OnTypeResponse(ClearItems(s), aId, "");
    assert !IsDuplicate(t, m) && aId !in t.idsRequested;
    SameInstanceTwiceBeforeResponse(t, m, m, dialogOpen, dialogOpen);
  }

  /** Two messages for the same fresh instance id, before any response: exactly one type
      request goes out, with the first message. */
  lemma SameInstanceTwiceBeforeResponse(s: State, m1: Message, m2: Message, d1: bool, d2: bool)
    requires !IsDuplicate(s, m1) && Present(m1.aId) && !Present(m1.assistanceType)
    requires m1.aId.value !in s.idsRequested && !TypeResolved(s, m1.aId.value)
    requires m2.aId == m1.aId
    ensures AddItem(s, m1, d1).requests == s.requests + [TypeRequest(m1.aId.value)]
    ensures AddItem(AddItem(s, m1, d1), m2, d2).requests == s.requests + [TypeRequest(m1.aId.value)]
  {
  }

  // ---------------------------------------------------------------------------------
  // Single flight over any interleaving

  ghost predicate NoDuplicates<T>(xs: seq<T>)
  {
    forall i, j :: 0 <= i < j < |xs| ==> xs[i] != xs[j]
  }

  /** The bookkeeping invariant: every id list is duplicate-free, every type request is for a
      requested id, and schema requests and requested type keys correspond one to one. */
  ghost predicate Wf(s: State)
  {
    && NoDuplicates(s.itemMessageIds)
    && NoDuplicates(s.idsRequested)
    && NoDuplicates(s.typesRequested)
    && NoDuplicates(s.requests)
    && (forall i :: 0 <= i < |s.requests| && s.requests[i].TypeRequest? ==> s.requests[i].aId in s.idsRequested)
    && (forall i :: 0 <= i < |s.requests| && s.requests[i].SchemaRequest? ==> s.requests[i].typeKey in s.typesRequested)
    && (forall k :: k in s.typesRequested ==> SchemaRequest(k) in s.requests)
  }

  lemma AppendFresh<T>(xs: seq<T>, x: T)
    requires NoDuplicates(xs) && x !in xs
    ensures NoDuplicates(xs + [x])
  {
  }

  lemma CheckTypeKeyDataPreservesWf(s: State, typeKey: string)
    requires Wf(s)
    ensures Wf(CheckTypeKeyData(s, typeKey))
  {
    if typeKey !in s.typesRequested && !SchemaCached(s, typeKey) {
      AppendFresh(s.typesRequested, typeKey);
      assert SchemaRequest(typeKey) !in s.requests;
      AppendFresh(s.requests, SchemaRequest(typeKey));
    }
  }

  lemma CheckForTypeMatchingPreservesWf(s: State, m: Message)
    requires Wf(s)
    ensures Wf(CheckForTypeMatching(s, m))
  {
    if NeedsTypeLookup(s, m) {
      var aId := m.aId.value;
      AppendFresh(s.idsRequested, aId);
      if Present(m.assistanceType) {
        var s1 := s.(idsRequested := s.idsRequested + [aId],
                     assistanceIdToTypeMatching := s.assistanceIdToTypeMatching[aId := m.assistanceType.value]);
        CheckTypeKeyDataPreservesWf(s1, m.assistanceType.value);
      } else {
        assert TypeRequest(aId) !in s.requests;
        AppendFresh(s.requests, TypeRequest(aId));
      }
    }
  }

  lemma AddItemPreservesWf(s: State, m: Message, dialogOpen: bool)
    requires Wf(s)
    ensures Wf(AddItem(s, m, dialogOpen))
  {
    if !IsDuplicate(s, m) {
      var s1 := if Present(m.messageId) then s.(itemMessageIds := s.itemMessageIds + [m.messageId.value]) else s;
      if Present(m.messageId) {
        AppendFresh(s.itemMessageIds, m.messageId.value);
      }
      var s2 := InsertItem(s1, m, dialogOpen);
      CheckForTypeMatchingPreservesWf(s2, Classify(m));
    }
  }

  /** Everything that can happen to the store: an ingestion (with the dialog state read at
      that moment), a lookup response, or a reset. */
  datatype Event =
    | Ingest(m: Message, dialogOpen: bool)
    | TypeResponse(aId: string, typeKey: string)
    | SchemaResponse(typeKey: string, data: Value)
    | Clear

  function Step(s: State, e: Event): State
  {
    match e
    case Ingest(m, d) => AddItem(s, m, d)
    case TypeResponse(aId, k) => OnTypeResponse(s, aId, k)
    case SchemaResponse(k, data) => OnSchemaResponse(s, k, data)
    case Clear => ClearItems(s)
  }

  /** The state after the events `es`, in order. Written out rather than through
      `Runs.Run`, so that the single-flight statement stays first-order. */
  function Run(s: State, es: seq<Event>): State
    decreases |es|
  {
    if es == [] then s else Run(Step(s, es[0]), es[1..])
  }

  lemma StepPreservesWf(s: State, e: Event)
    requires Wf(s)
    ensures Wf(Step(s, e))
  {
    match e
    case Ingest(m, d) => AddItemPreservesWf(s, m, d);
    case TypeResponse(aId, k) =>
      CheckTypeKeyDataPreservesWf(s.(assistanceIdToTypeMatching := s.assistanceIdToTypeMatching[aId := k]), k);
    case SchemaResponse(k, data) =>
    case Clear =>
  }

  lemma {:induction false} RunPreservesWf(s: State, es: seq<Event>)
    requires Wf(s)
    ensures Wf(Run(s, es))
    decreases |es|
  {
    if es != [] {
      StepPreservesWf(s, es[0]);
      RunPreservesWf(Step(s, es[0]), es[1..]);
    }
  }

  /** Single flight: whatever the order of ingestions, responses and clears, no lookup is
      issued twice since the last clear (at most one type request per instance id and one
      schema request per type key), and every type request is for a requested id. */
  lemma SingleFlight(es: seq<Event>)
    ensures var r := Run(Init(), es);
            && (forall i, j :: 0 <= i < j < |r.requests| ==> r.requests[i] != r.requests[j])
            && (forall i :: 0 <= i < |r.requests| && r.requests[i].TypeRequest? ==> r.requests[i].aId in r.idsRequested)
            && (forall i, j :: 0 <= i < j < |r.idsRequested| ==> r.idsRequested[i] != r.idsRequested[j])
  {
    RunPreservesWf(Init(), es);
  }
}

/** Concrete ingestion scenarios, computed on the model. */
module MessageExchangeScenarios {
  import opened AssistanceObjects
  import opened AssistanceObjectHelper
  import opened MessageExchange
  import opened MessageExchangeProperties

  /** Two singletons concatenated are the two-element sequence. */
  lemma TwoElements<T>(a: T, b: T)
    ensures [a] + [b] == [a, b]
  {
  }

  /** Removing a group's own pair from the one-group list leaves no group. */
  lemma WithoutOwnPair(g: Message, m: Message)
    requires SamePair(g, m)
    ensures WithoutPair([g], m) == []
  {
    assert [g][1..] == [];
  }

  /** A `state_update` message for instance `aId` reporting `phase`. */
  function StateUpdate(messageId: string, aId: string, phase: int): Message
  {
    Message(Some(aId), None, Some(messageId), None, None,
            Some([Parameter("state_update", StateInfo(Some(phase), None))]))
  }

  lemma StateUpdateFacts(messageId: string, aId: string, phase: int)
    ensures var m := StateUpdate(messageId, aId, phase);
            && Displayable(m)
            && Classify(m).itemType == Some("state_update")
            && PhaseNumber(ParameterValue(m, "state_update")) == phase
  {
    var m := StateUpdate(messageId, aId, phase);
    var p := Parameter("state_update", StateInfo(Some(phase), None));
    assert ParametersOf(m) == [p];
    OneParameterClassified(m, p);
    OneParameterValue(m, p);
  }

  /** The first state update for an instance is always shown and records its phase. */
  lemma FirstStateUpdate(id1: string, aId: string, p1: int)
    requires id1 != "" && aId != ""
    ensures var m1 := StateUpdate(id1, aId, p1);
            var s1 := AddItem(Init(), m1, false);
            && s1.items == [Classify(m1)]
            && s1.assistanceIdToCurrentPhaseMatching == map[aId := p1]
            && s1.itemMessageIds == [id1]
            && s1.newItems == 0
  {
    var m1 := StateUpdate(id1, aId, p1);
    StateUpdateFacts(id1, aId, p1);
    StateUpdateGate(Init(), m1, false);
  }

  /** A state update for an instance whose recorded phase is `p1`. */
  lemma NextStateUpdate(s: State, id2: string, aId: string, p1: int, p2: int)
    requires id2 != "" && id2 !in s.itemMessageIds && aId != ""
    requires s.assistanceIdToCurrentPhaseMatching == map[aId := p1]
    ensures var m2 := StateUpdate(id2, aId, p2);
            var r := AddItem(s, m2, false);
            && r.newItems == s.newItems
            && r.items == (if p1 == 0 || p2 > p1 then s.items + [Classify(m2)] else s.items)
            && r.assistanceIdToCurrentPhaseMatching == map[aId := if p1 == 0 || p2 > p1 then p2 else p1]
  {
    StateUpdateFacts(id2, aId, p2);
    GateOutcome(s, StateUpdate(id2, aId, p2), aId, p1, p2);
  }

  /** The gate on an instance with the one recorded phase `p1`, for any state update of
      that instance reporting `p2`. */
  lemma GateOutcome(s: State, m: Message, aId: string, p1: int, p2: int)
    requires !IsDuplicate(s, m) && Displayable(m) && Classify(m).itemType == Some("state_update")
    requires m.aId == Some(aId) && aId != "" && PhaseNumber(ParameterValue(m, "state_update")) == p2
    requires s.assistanceIdToCurrentPhaseMatching == map[aId := p1]
    ensures var r := AddItem(s, m, false);
            && r.newItems == s.newItems
            && r.items == (if p1 == 0 || p2 > p1 then s.items + [Classify(m)] else s.items)
            && r.assistanceIdToCurrentPhaseMatching == map[aId := if p1 == 0 || p2 > p1 then p2 else p1]
  {
    if p1 == 0 || p2 > p1 {
      GateAccepts(s, m, aId, p1, p2);
    } else {
      GateRejects(s, m, aId, p1, p2);
    }
  }

  lemma GateAccepts(s: State, m: Message, aId: string, p1: int, p2: int)
    requires !IsDuplicate(s, m) && Displayable(m) && Classify(m).itemType == Some("state_update")
    requires m.aId == Some(aId) && aId != "" && PhaseNumber(ParameterValue(m, "state_update")) == p2
    requires s.assistanceIdToCurrentPhaseMatching == map[aId := p1] && (p1 == 0 || p2 > p1)
    ensures var r := AddItem(s, m, false);
            && r.newItems == s.newItems
            && r.items == s.items + [Classify(m)]
            && r.assistanceIdToCurrentPhaseMatching == map[aId := p2]
  {
    assert AcceptsStateUpdate(s, m);
    AcceptedStateUpdate(s, m, false);
    Overwrite(aId, p1, p2);
  }

  /** Recording a second phase for the one recorded instance replaces the first. */
  lemma Overwrite(aId: string, p1: int, p2: int)
    ensures map[aId := p1][aId := p2] == map[aId := p2]
  {
  }

  lemma GateRejects(s: State, m: Message, aId: string, p1: int, p2: int)
    requires !IsDuplicate(s, m) && Displayable(m) && Classify(m).itemType == Some("state_update")
    requires m.aId == Some(aId) && aId != "" && PhaseNumber(ParameterValue(m, "state_update")) == p2
    requires s.assistanceIdToCurrentPhaseMatching == map[aId := p1] && p1 != 0 && p2 <= p1
    ensures var r := AddItem(s, m, false);
            && r.newItems == s.newItems
            && r.items == s.items
            && r.assistanceIdToCurrentPhaseMatching == map[aId := p1]
  {
    var r := AddItem(s, m, false);
    assert r.items != s.items + [Classify(m)] by {
      StateUpdateGate(s, m, false);
    }
    StateUpdateGate(s, m, false);
  }

  /** Two state updates for the same instance, ingested into the empty store with the dialog
      closed: the second is shown exactly when the first reported phase 0 (a falsy recorded
      phase) or the second reports a strictly higher phase, and the recorded phase follows the
      shown one. Neither counts as unseen. So phases 1 then 1 show one item, 1 then 2 show
      two and record 2, 2 then 1 show one, and 0 then 0 show both. */
  lemma TwoStateUpdates(id1: string, id2: string, aId: string, p1: int, p2: int)
    requires id1 != "" && id2 != "" && id1 != id2 && aId != ""
    ensures var m1 := StateUpdate(id1, aId, p1);
            var m2 := StateUpdate(id2, aId, p2);
            var r := AddItem(AddItem(Init(), m1, false), m2, false);
            && r.newItems == 0
            && r.items == (if p1 == 0 || p2 > p1 then [Classify(m1), Classify(m2)] else [Classify(m1)])
            && r.assistanceIdToCurrentPhaseMatching == map[aId := if p1 == 0 || p2 > p1 then p2 else p1]
  {
    FirstStateUpdate(id1, aId, p1);
    NextStateUpdate(AddItem(Init(), StateUpdate(id1, aId, p1), false), id2, aId, p1, p2);
  }

  /** A message that puts the user into the group of assistance object `aoId`. */
  function GroupJoin(messageId: string, aId: string, aoId: string): Message
  {
    Message(Some(aId), Some(aoId), Some(messageId), None, None,
            Some([Parameter("related_users", Opaque(true))]))
  }

  /** A response reporting that assistance object `aoId` is completed. */
  function Completion(messageId: string, aId: string, aoId: string): Message
  {
    Message(Some(aId), Some(aoId), Some(messageId), None, None,
            Some([Parameter("state_update_response", StateInfo(None, Some("completed")))]))
  }

  lemma GroupJoinFacts(messageId: string, aId: string, aoId: string)
    ensures var m := GroupJoin(messageId, aId, aoId);
            && Displayable(m)
            && Classify(m).itemType == Some("related_users")
            && CheckForKeyPresence(m, "related_users")
  {
    var m := GroupJoin(messageId, aId, aoId);
    var p := Parameter("related_users", Opaque(true));
    assert ParametersOf(m) == [p];
    OneParameterClassified(m, p);
    OneParameterValue(m, p);
  }

  lemma CompletionFacts(messageId: string, aId: string, aoId: string)
    ensures var m := Completion(messageId, aId, aoId);
            && ParametersOf(m)[0].key in KeysToNotIterate
            && !CheckForKeyPresence(m, "related_users")
            && CompletesGroup(m)
  {
    var m := Completion(messageId, aId, aoId);
    assert FirstMatch(ParametersOf(m), "state_update_response", 0);
  }

  lemma SessionStart(id1: string, aId: string)
    requires id1 != "" && aId != ""
    ensures var m1 := StateUpdate(id1, aId, 1);
            var s1 := AddItem(Init(), m1, false);
            && s1.items == [Classify(m1)]
            && s1.groups == []
            && s1.newItems == 0
            && s1.itemMessageIds == [id1]
            && s1.idsRequested == [aId]
            && s1.requests == [TypeRequest(aId)]
  {
    var m1 := StateUpdate(id1, aId, 1);
    FirstStateUpdate(id1, aId, 1);
    StateUpdateFacts(id1, aId, 1);
    assert ParameterValue(m1, "state_update_response") == Str("");
    GroupBookkeeping(Init(), m1, false);
  }

  lemma JoinStep(s: State, id2: string, aId: string, aoId: string)
    requires id2 != "" && id2 !in s.itemMessageIds && aId != "" && aId in s.idsRequested
    ensures var m2 := GroupJoin(id2, aId, aoId);
            var r := AddItem(s, m2, false);
            && r.items == s.items + [Classify(m2)]
            && r.groups == s.groups + [Classify(m2)]
            && r.newItems == s.newItems + 1
            && r.itemMessageIds == s.itemMessageIds + [id2]
            && r.idsRequested == s.idsRequested
            && r.requests == s.requests
  {
    var m2 := GroupJoin(id2, aId, aoId);
    var r := AddItem(s, m2, false);
    GroupJoinFacts(id2, aId, aoId);
    assert !IsDuplicate(s, m2);
    assert r.items == s.items + [Classify(m2)] && r.newItems == s.newItems + 1 by {
      DisplayableMessageAppended(s, m2, false);
    }
    assert r.groups == s.groups + [Classify(m2)] by {
      GroupBookkeeping(s, m2, false);
    }
    assert r.requests == s.requests && r.idsRequested == s.idsRequested by {
      RequestedInstanceIssuesNothing(s, m2, false);
    }
  }

  lemma CompletionStep(s: State, id3: string, aId: string, aoId: string)
    requires id3 != "" && id3 !in s.itemMessageIds && aId != "" && aId in s.idsRequested
    ensures var m3 := Completion(id3, aId, aoId);
            var r := AddItem(s, m3, false);
            && r.items == s.items
            && r.groups == WithoutPair(s.groups, m3)
            && r.newItems == s.newItems
            && r.requests == s.requests
  {
    var m3 := Completion(id3, aId, aoId);
    CompletionFacts(id3, aId, aoId);
    SuppressedMessageNotAppended(s, m3, false);
    GroupBookkeeping(s, m3, false);
    RequestedInstanceIssuesNothing(s, m3, false);
  }

  /** The store after the session's first two messages, the state update `id1` and the
      group join `id2` for the pair (aId, aoId): both are shown, the join is counted as
      unseen and is the one group, and the one type request for the instance is out. */
  ghost predicate Joined(s: State, id1: string, id2: string, aId: string, aoId: string)
  {
    && s.items == [Classify(StateUpdate(id1, aId, 1)), Classify(GroupJoin(id2, aId, aoId))]
    && s.groups == [Classify(GroupJoin(id2, aId, aoId))]
    && s.newItems == 1
    && s.itemMessageIds == [id1, id2]
    && aId in s.idsRequested
    && s.requests == [TypeRequest(aId)]
  }

  /** The first two messages of the session below lead to the `Joined` store. */
  lemma JoinedSession(id1: string, id2: string, aId: string, aoId: string)
    requires id1 != "" && id2 != "" && aId != "" && id1 != id2
    ensures Joined(AddItem(AddItem(Init(), StateUpdate(id1, aId, 1), false), GroupJoin(id2, aId, aoId), false),
                   id1, id2, aId, aoId)
  {
    var m1 := StateUpdate(id1, aId, 1);
    var m2 := GroupJoin(id2, aId, aoId);
    var s1 := AddItem(Init(), m1, false);
    assert s1.items == [Classify(m1)] && s1.groups == [] && s1.newItems == 0
        && s1.itemMessageIds == [id1] && s1.idsRequested == [aId]
        && s1.requests == [TypeRequest(aId)] by {
      SessionStart(id1, aId);
    }
    var s2 := AddItem(s1, m2, false);
    assert s2.items == s1.items + [Classify(m2)] && s2.groups == s1.groups + [Classify(m2)]
        && s2.newItems == s1.newItems + 1 && s2.itemMessageIds == s1.itemMessageIds + [id2]
        && s2.idsRequested == s1.idsRequested && s2.requests == s1.requests by {
      JoinStep(s1, id2, aId, aoId);
    }
    TwoElements(Classify(m1), Classify(m2));
    TwoElements(id1, id2);
  }

  /** The three-message session: a state update (shown, not counted as unseen, and the
      instance's type requested), a group join (shown and counted, since `related_users` is
      not a control key, and added to the groups) and a completion response for the same
      pair (not shown, and it empties the groups). Exactly one type request goes out. */
  lemma GroupLifecycleScenario(id1: string, id2: string, id3: string, aId: string, aoId: string)
    requires id1 != "" && id2 != "" && id3 != "" && aId != ""
    requires id1 != id2 && id2 != id3 && id1 != id3
    ensures var m1 := StateUpdate(id1, aId, 1);
            var m2 := GroupJoin(id2, aId, aoId);
            var m3 := Completion(id3, aId, aoId);
            var r := AddItem(AddItem(AddItem(Init(), m1, false), m2, false), m3, false);
            && r.items == [Classify(m1), Classify(m2)]
            && r.groups == []
            && r.newItems == 1
            && r.requests == [TypeRequest(aId)]
  {
    JoinedSession(id1, id2, aId, aoId);
    CompletionAfterJoin(AddItem(AddItem(Init(), StateUpdate(id1, aId, 1), false), GroupJoin(id2, aId, aoId), false),
                        id1, id2, id3, aId, aoId);
  }

  /** The session's third message, a completion response for the joined pair, ingested
      into the `Joined` store. */
  lemma CompletionAfterJoin(s: State, id1: string, id2: string, id3: string, aId: string, aoId: string)
    requires Joined(s, id1, id2, aId, aoId)
    requires id3 != "" && id3 != id1 && id3 != id2 && aId != ""
    ensures var r := AddItem(s, Completion(id3, aId, aoId), false);
            && r.items == [Classify(StateUpdate(id1, aId, 1)), Classify(GroupJoin(id2, aId, aoId))]
            && r.groups == []
            && r.newItems == 1
            && r.requests == [TypeRequest(aId)]
  {
    var g := Classify(GroupJoin(id2, aId, aoId));
    assert SamePair(g, Completion(id3, aId, aoId));
    assert id3 !in s.itemMessageIds;
    CompletionEmptiesGroup(s, id3, aId, aoId, g);
  }

  /** A completion response for the pair of the one joined group empties the group list
      and changes neither the items, the unseen counter nor the requests. */
  lemma CompletionEmptiesGroup(s: State, id3: string, aId: string, aoId: string, g: Message)
    requires id3 != "" && id3 !in s.itemMessageIds && aId != "" && aId in s.idsRequested
    requires s.groups == [g] && SamePair(g, Completion(id3, aId, aoId))
    ensures var r := AddItem(s, Completion(id3, aId, aoId), false);
            && r.items == s.items
            && r.groups == []
            && r.newItems == s.newItems
            && r.requests == s.requests
  {
    var m3 := Completion(id3, aId, aoId);
    CompletionStep(s, id3, aId, aoId);
    WithoutOwnPair(g, m3);
  }
}
