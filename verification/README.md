# Chat widget stores, modelled in Dafny

This project models the client-side state of the VerDatAs chatbot widget. The assistance
system pushes *assistance objects* (messages made of key/value parameters) to the widget.
Several Pinia stores keep what the widget shows:

- **message exchange**: the ingestion engine. It works in this order:
  1. deduplicates by `messageId`;
  2. classifies each message as displayable or control;
  3. gates `state_update` messages by phase, and appends the displayable messages that
     pass to `items`;
  4. counts unseen items;
  5. resolves each assistance instance's type and each type's schema, with at most one
     lookup per instance and per type between two clears. `clearItems` forgets what was
     requested, so the next message for an instance requests again. The exception is a
     response to a request issued before the clear that arrives between the clear and
     that message and carries a non-empty type key. It then caches the type, and the
     instance is not looked up again until the next clear
     (`MessageExchangeProperties.LateTypeResponseAfterClear`,
     `EmptyLateTypeResponseRequestsAgain`);
  6. tracks the groups the learner has joined.
- **assistance-object helper**: parameter lookup by key.
- **display**: the dialog and notes views, and eight feature flags switched by `operation`
  messages.
- **notes** and **notes and peer solution**: the learner's notes, a peer solution and the
  template the notes are reset to.
- **group information**: at most one group.
- **message history**: an append-only log.

Every store is an immutable record, and every action is a pure function from state to state.
The message-exchange engine makes two HTTP lookups. Each becomes an entry in an outbound
request log (`requests`), plus a response transition (`OnTypeResponse`, `OnSchemaResponse`)
that may fire at any time. `MessageExchangeProperties.Event` and `Run` interleave ingestions,
responses and clears in any order. The single-flight property is proved over all such runs.

JavaScript semantics are reproduced where the code depends on them:

- An empty `messageId`, `aId` or `assistanceType` is falsy, so it counts as absent.
- A recorded phase of `0` is falsy. A later `state_update` for that instance is therefore
  always shown.
- A cached schema is looked at by its truthiness.
- A parameter lookup reads a null or undefined value as the empty string.

Parameter values are the sum type `AssistanceObjects.Value`: a string, a state-info object
(optional `phase` and `status`), null/undefined, or any other value known only by its
truthiness.

Some consequences of the code, which the model makes explicit:

- The display store keeps no record of past operations. Its feature flags change only
  through `processOperation`, one message at a time, or all at once through `resetValues`.
- Only a message that carries a `related_users` parameter joins `groups`.
- The message-exchange store has no action that loads a list of messages into `items`.
  The group-information store's `setItems` replaces its one list.
- A `state_update` that loses the phase comparison is not shown, and the phase map keeps
  the recorded phase. The ingestion still happens, though: its `messageId` is recorded
  (src/stores/messageExchange.ts:68-69), and type lookup and group bookkeeping run on it
  (src/stores/messageExchange.ts:116-117). So a completed one still removes its pair's
  groups (`MessageExchangeProperties.RejectedStateUpdateStillIngested`).
- Take the three-message session of a state update, a `related_users` join and a completion
  response. The join message is displayed and counted as unseen, because `related_users` is
  not a control key. So `items` ends with the state update and the join
  (`MessageExchangeScenarios.GroupLifecycleScenario`).

## Model

| member | source | states |
|---|---|---|
| AssistanceObjectHelper.Find | src/util/assistanceObjectHelper.ts:27-40 | `find` by key: nothing is found iff no parameter has the key; otherwise the result is the first parameter with it |
| AssistanceObjectHelper.CheckForKeyPresence | src/util/assistanceObjectHelper.ts:27-29 | true iff the parameter list exists and some parameter carries the key; false when the list is missing |
| AssistanceObjectHelper.ParameterValue | src/util/assistanceObjectHelper.ts:37-40 | never null/undefined. It is `''` when the key is absent, and otherwise the first matching parameter's value, with null/undefined turned into `''` |
| AssistanceObjectHelper.AbsentKeyHasEmptyValue | src/util/assistanceObjectHelper.ts:27-40 | if the key is not present, the value is `''` |
| AssistanceObjectHelper.LaterDuplicatesIgnored | src/util/assistanceObjectHelper.ts:37-40 | once a parameter with the key occurs, anything appended after it leaves the lookup unchanged |
| AssistanceObjectHelper.AppendOtherKey | src/util/assistanceObjectHelper.ts:27-40 | appending a parameter with another key changes neither the presence test nor the value |
| MessageExchange.Init | src/stores/messageExchange.ts:32-43 | the store starts with no item, id, group or request, a zero counter and an empty draft. No instance has a recorded phase, a resolved type or a pending lookup, and no type key has a cached schema or a pending lookup |
| MessageExchange.ClearItems | src/stores/messageExchange.ts:32-59 | `clearItems` yields exactly the initial state: empty lists and maps, zero counter, empty draft, empty request log |
| MessageExchange.ScanParameters | src/stores/messageExchange.ts:71-86 | `itemToIterate` holds iff no key is a control key. The keys collected contain no control key, and are all keys in order when none was a control key |
| MessageExchange.WithoutMessages | src/stores/messageExchange.ts:90 | contains exactly the keys that are not `"message"`, and is no longer than its input |
| MessageExchangeProperties.WithoutMessagesDistributes | src/stores/messageExchange.ts:90 | dropping `"message"` keys distributes over concatenation, so the other keys keep their order and multiplicity |
| MessageExchangeProperties.WithoutMessagesSingleton | src/stores/messageExchange.ts:90 | a single key survives iff it is not `"message"` |
| MessageExchange.TypeFromKeys | src/stores/messageExchange.ts:90-94 | the type is `"message"` or one of the keys other than `"message"`, and it is not `"message"` whenever such a key exists |
| MessageExchange.Classify | src/stores/messageExchange.ts:71-94 | only `type` changes. A message with a control key keeps no new type. A displayable one gets a type that is not a control key |
| MessageExchange.InsertItem | src/stores/messageExchange.ts:87-115 | touches only `items`, the phase map and `newItems`. A state update is appended (and records its phase) iff it passes the phase gate; other displayable messages are appended and counted iff the dialog is closed |
| MessageExchange.CheckTypeKeyData | src/stores/messageExchange.ts:162-175 | a schema request is issued and the key marked requested iff the key was neither requested nor cached; otherwise nothing changes |
| MessageExchange.CheckForTypeMatching | src/stores/messageExchange.ts:124-157 | acts only for a present, unrequested, unresolved instance id, which it marks requested. An embedded type is cached with no type request; otherwise exactly one type request is issued |
| MessageExchange.OnTypeResponse | src/stores/messageExchange.ts:148-153 | caches the returned type key for the instance. The schema request is issued, and the key marked requested, iff the key was neither requested nor cached; otherwise the requests are unchanged. Nothing else changes |
| MessageExchange.OnSchemaResponse | src/stores/messageExchange.ts:171-173 | caches the response body for the type key, and nothing else changes |
| MessageExchange.CompletesGroup | src/stores/messageExchange.ts:183-185 | a message that completes a group carries a `state_update` or a `state_update_response` parameter |
| MessageExchange.WithoutPair | src/stores/messageExchange.ts:187-189 | keeps exactly the groups of other (aId, aoId) pairs |
| MessageExchange.AddOrRemoveGroup | src/stores/messageExchange.ts:180-191 | a `related_users` message is appended to the groups. Otherwise a completed status removes exactly its pair's groups. Anything else leaves the state unchanged |
| MessageExchange.AddItem | src/stores/messageExchange.ts:64-119 | a duplicate `messageId` changes nothing. Otherwise the id is recorded iff present, items only grow by the classified message, the unseen counter grows by at most one, and the schema cache and draft are untouched |
| MessageExchangeProperties.TypeIsLastNonMessageKey | src/stores/messageExchange.ts:88-94 | the type is the last key other than `"message"`, or `"message"` when there is none |
| MessageExchangeProperties.OneParameterClassified | src/stores/messageExchange.ts:71-94 | a message whose only parameter is a displayable key other than `"message"` is displayed and typed by that key |
| MessageExchangeProperties.OneParameterValue | src/util/assistanceObjectHelper.ts:27-40 | the key of a message's only parameter is present, and looking it up gives that parameter's value |
| MessageExchangeProperties.TrailingMessageIgnored | src/stores/messageExchange.ts:90-94 | a trailing `"message"` key leaves the type as it was without it |
| MessageExchangeProperties.LastKeyIsType | src/stores/messageExchange.ts:90-94 | a last key other than `"message"` is the type |
| MessageExchangeProperties.ClassifiedTypeIsLastNonMessageKey | src/stores/messageExchange.ts:71-94 | a displayable message's type is its last non-`"message"` parameter key, or `"message"` (also with no parameters) |
| MessageExchangeProperties.RepeatedIngestIsNoOp | src/stores/messageExchange.ts:64-70 | ingesting a message with a `messageId` twice equals ingesting it once |
| MessageExchangeProperties.MissingMessageIdAlwaysProcessed | src/stores/messageExchange.ts:65-70 | a message without a non-empty `messageId` is never a duplicate and records no id |
| MessageExchangeProperties.DisplayableMessageAppended | src/stores/messageExchange.ts:108-114 | a displayable non-state-update message becomes the last item, earlier items unchanged. `newItems` grows by one iff the dialog is closed |
| MessageExchangeProperties.SuppressedMessageNotAppended | src/stores/messageExchange.ts:71-117 | a message with a control key gets no type, is not appended, and leaves the counter and phase map alone. It still joins the groups when it carries `related_users` |
| MessageExchangeProperties.StateUpdateGate | src/stores/messageExchange.ts:96-107 | a state update is appended iff `aId` is present and the recorded phase is absent or 0, or is exceeded. On append the new phase is recorded; otherwise items and phases are unchanged. It never counts as unseen |
| MessageExchangeProperties.AcceptedStateUpdate | src/stores/messageExchange.ts:96-107 | a state update that passes the gate is appended, records its phase and is not counted |
| MessageExchangeProperties.RejectedStateUpdateStillIngested | src/stores/messageExchange.ts:64-119 | a state update that fails the gate is not appended or counted and leaves the phase map alone, but its `messageId` is recorded and group bookkeeping still runs on it |
| MessageExchangeProperties.PhaseNeverDecreases | src/stores/messageExchange.ts:100-105 | a recorded non-zero phase never decreases on ingestion |
| MessageExchangeProperties.InsertItemKeepsRecordedPhase | src/stores/messageExchange.ts:100-105 | the same for the insertion step alone |
| MessageExchangeProperties.WithoutPairDistributes | src/stores/messageExchange.ts:187-189 | removal by pair distributes over concatenation, so it keeps the order of the remaining groups |
| MessageExchangeProperties.WithoutPairKeepsOthers | src/stores/messageExchange.ts:187-189 | a list with no group of the pair is returned unchanged |
| MessageExchangeProperties.GroupBookkeeping | src/stores/messageExchange.ts:180-191 | on ingestion, a `related_users` message is appended to the groups even if it also reports completion. Otherwise a completed status removes its pair, and anything else keeps the groups |
| MessageExchangeProperties.AddItemGroups | src/stores/messageExchange.ts:64-119 | after an ingestion the groups are what group bookkeeping of the classified message makes of the groups before it |
| MessageExchangeProperties.GroupBookkeepingReadsOnlyGroups | src/stores/messageExchange.ts:180-191 | group bookkeeping depends on no field of the store but the groups |
| MessageExchangeProperties.ClassifyKeepsLookups | src/stores/messageExchange.ts:91-94 | setting the type changes neither the presence of any parameter key nor its value |
| MessageExchangeProperties.SamePairIgnoresType | src/stores/messageExchange.ts:187-189 | removal depends only on the (aId, aoId) pair, not on the type the engine assigned |
| MessageExchangeProperties.EmbeddedTypeIssuesNoTypeRequest | src/stores/messageExchange.ts:130-137 | an embedded `assistanceType` is cached at once and the id marked requested. At most its schema request goes out, never a type request |
| MessageExchangeProperties.RequestedInstanceIssuesNothing | src/stores/messageExchange.ts:125-129 | a message for an already requested instance issues no request and changes no lookup bookkeeping |
| MessageExchangeProperties.ResolvedInstanceIssuesNothing | src/stores/messageExchange.ts:125-129 | a message for an instance whose type is cached issues no request, marks nothing requested and leaves the type map alone |
| MessageExchangeProperties.LateTypeResponseAfterClear | src/stores/messageExchange.ts:148-153 | a type response arriving after `clearItems` still caches the type, so the next message for that instance issues no type request although the instance is not marked requested |
| MessageExchangeProperties.EmptyLateTypeResponseRequestsAgain | src/stores/messageExchange.ts:148-153 | a late type response with an empty key leaves the instance unresolved, so the next message for it without an embedded type issues a type request |
| MessageExchangeProperties.SameInstanceTwiceBeforeResponse | src/stores/messageExchange.ts:140-147 | two messages for the same fresh instance before any response issue exactly one type request |
| MessageExchangeProperties.CheckTypeKeyDataPreservesWf | src/stores/messageExchange.ts:162-175 | the schema lookup preserves the bookkeeping invariant: no list has a duplicate, and requests match requested ids and keys |
| MessageExchangeProperties.CheckForTypeMatchingPreservesWf | src/stores/messageExchange.ts:124-157 | the type lookup preserves that invariant |
| MessageExchangeProperties.AddItemPreservesWf | src/stores/messageExchange.ts:64-119 | ingestion preserves that invariant |
| MessageExchangeProperties.StepPreservesWf | src/stores/messageExchange.ts:44-191 | every event preserves it: an ingestion, a type or schema response, or a clear |
| MessageExchangeProperties.RunPreservesWf | src/stores/messageExchange.ts:44-191 | every interleaving of events preserves it |
| MessageExchangeProperties.SingleFlight | src/stores/messageExchange.ts:124-175 | from the initial state, over any interleaving, no request is issued twice since the last clear. Every type request is for a requested id, and no id is requested twice |
| MessageExchangeScenarios.WithoutOwnPair | src/stores/messageExchange.ts:187-189 | removing a group's own pair from a one-group list leaves no group |
| MessageExchangeScenarios.StateUpdateFacts | src/stores/messageExchange.ts:87-98 | a one-parameter `state_update` message is displayable, typed `state_update`, and reports its phase |
| MessageExchangeScenarios.FirstStateUpdate | src/stores/messageExchange.ts:96-107 | the first state update into the empty store is shown, records its phase, and is not counted as unseen |
| MessageExchangeScenarios.NextStateUpdate | src/stores/messageExchange.ts:96-107 | a later state update for the same instance is shown, and its phase recorded, iff the recorded phase is 0 or lower |
| MessageExchangeScenarios.GateOutcome | src/stores/messageExchange.ts:96-107 | for an instance whose one recorded phase is p1, a state update reporting p2 is shown, and p2 recorded, iff p1 is 0 or p2 > p1; otherwise items and phases stay |
| MessageExchangeScenarios.GateAccepts | src/stores/messageExchange.ts:100-106 | when p1 is 0 or p2 > p1 the update is appended and p2 replaces p1 |
| MessageExchangeScenarios.GateRejects | src/stores/messageExchange.ts:100-107 | when p1 is non-zero and p2 <= p1 neither the items nor the recorded phase change |
| MessageExchangeScenarios.TwoStateUpdates | src/stores/messageExchange.ts:96-107 | two state updates for one instance show both iff the first phase is 0 or the second is higher. So 1 then 1 shows one, 0 then 0 shows both, and 2 then 1 shows one |
| MessageExchangeScenarios.GroupJoinFacts | src/stores/messageExchange.ts:180-182 | a `related_users` message is displayable, typed `related_users`, and carries the group key |
| MessageExchangeScenarios.CompletionFacts | src/stores/messageExchange.ts:183-185 | a completed `state_update_response` is a control message without the group key that completes its pair |
| MessageExchangeScenarios.SessionStart | src/stores/messageExchange.ts:64-119 | the first state update of a session is shown but not counted, and issues the instance's type request |
| MessageExchangeScenarios.JoinStep | src/stores/messageExchange.ts:64-119 | a group join for an already requested instance is shown, counted and added to the groups, with no new request |
| MessageExchangeScenarios.CompletionStep | src/stores/messageExchange.ts:64-119 | a completion response is not shown or counted, removes its pair's groups, and issues no request |
| MessageExchangeScenarios.JoinedSession | src/stores/messageExchange.ts:64-119 | after a state update and a join there are two items and one group; one item is unseen and one type request is out |
| MessageExchangeScenarios.CompletionEmptiesGroup | src/stores/messageExchange.ts:183-189 | a completion for the pair of the one joined group empties the groups and changes neither items, counter nor requests |
| MessageExchangeScenarios.CompletionAfterJoin | src/stores/messageExchange.ts:64-119 | the completion after the join leaves both items, no group, one unseen item and the one type request |
| MessageExchangeScenarios.GroupLifecycleScenario | src/stores/messageExchange.ts:64-119 | after state update, join and completion: two items, no group, one unseen item, one type request |
| Display.WithFeature | src/stores/display.ts:74-123 | setting a feature's flag makes it read the given value and keeps both view flags |
| Display.WithFeatureKeepsFlag | src/stores/display.ts:74-123 | the flag of any other feature is unchanged |
| Display.WithFeatureKeepsOthers | src/stores/display.ts:74-123 | the flags of all other features are unchanged |
| Display.WithFeatureIdempotent | src/stores/display.ts:74-123 | setting the same flag to the same value twice is setting it once |
| Display.Init | src/stores/display.ts:28-39 | both views start closed and every feature starts disabled |
| Display.ResetValues | src/stores/display.ts:44-55 | all ten booleans become false, which is the initial state |
| Display.ChangeDialogOpen | src/stores/display.ts:60-62 | sets `dialogOpen` and nothing else |
| Display.ChangeNotesAndPeerSolutionOpen | src/stores/display.ts:67-69 | sets `notesAndPeerSolutionOpen` and nothing else |
| Display.FeatureNamed | src/stores/display.ts:76-123 | a recognised feature-name suffix names that feature |
| Display.ProcessOperation | src/stores/display.ts:74-127 | the view flags never change, an unrecognised value changes nothing, and a recognised value sets its feature's flag to its direction |
| Display.FeatureNameRoundTrip | src/stores/display.ts:76-123 | every feature is found again from its name |
| Display.DecodeOperation | src/stores/display.ts:75-126 | a recognised value is exactly the operation name of the toggle it decodes to; a value that is not a string is never recognised |
| Display.DecodeOperationIsNaming | src/stores/display.ts:75-126 | the switch recognises exactly the sixteen `enable_X`/`disable_X` strings, each for its own feature and direction |
| Display.ProcessOperationChangesAtMostOneFlag | src/stores/display.ts:74-127 | whatever the message, at most one feature flag changes |
| Display.OperationSetsExactlyItsFeature | src/stores/display.ts:74-123 | `enable_X` sets exactly X's flag to true, and `disable_X` sets it to false. Every other flag is unchanged |
| Display.UnrecognisedOperationIsNoOp | src/stores/display.ts:124-126 | a missing value or any other value leaves the state unchanged |
| Display.ProcessOperationIdempotent | src/stores/display.ts:74-127 | processing the same message twice equals processing it once |
| NotesAndPeerSolution.Init | src/stores/notesAndPeerSolution.ts:21-33 | notes, peer solution and template all start as the default template, so the notes count as unmodified |
| NotesAndPeerSolution.ResetNotes | src/stores/notesAndPeerSolution.ts:38-40 | the notes become the template and then count as unmodified; nothing else changes |
| NotesAndPeerSolution.SetNotes | src/stores/notesAndPeerSolution.ts:45-47 | overwrites the notes only |
| NotesAndPeerSolution.SetPeerSolution | src/stores/notesAndPeerSolution.ts:52-54 | overwrites the peer solution only |
| NotesAndPeerSolution.SetSolutionResponse | src/stores/notesAndPeerSolution.ts:59-64 | the notes become the response iff they equal the current or default template; otherwise the state is unchanged. The template and peer solution never change |
| NotesAndPeerSolution.SetTemplate | src/stores/notesAndPeerSolution.ts:69-76 | the template is always replaced. The notes follow it iff they held the default template. The peer solution is unchanged |
| NotesAndPeerSolution.EditedNotesSurviveSolutionResponse | src/stores/notesAndPeerSolution.ts:59-64 | notes the learner wrote (neither template) survive any solution response |
| NotesAndPeerSolution.FirstSolutionResponseWins | src/stores/notesAndPeerSolution.ts:59-64 | a response that differs from both templates cannot be overwritten by a second response |
| NotesAndPeerSolution.ResetNotesAdmitsSolutionResponse | src/stores/notesAndPeerSolution.ts:38-64 | after a reset, a solution response is always taken over |
| NotesAndPeerSolution.ResetNotesDiscardsEdits | src/stores/notesAndPeerSolution.ts:38-47 | a reset does not depend on what the notes held |
| NotesAndPeerSolution.SetTemplateLoadsIntoDefaultNotes | src/stores/notesAndPeerSolution.ts:69-76 | default-template notes switch to the new template and then count as unmodified |
| NotesAndPeerSolution.SetTemplateKeepsEditedNotes | src/stores/notesAndPeerSolution.ts:59-76 | edited notes keep their text under a new template, and a later solution response cannot replace them |
| NotesAndPeerSolution.PeerSolutionIndependentOfNotes | src/stores/notesAndPeerSolution.ts:52-76 | setting the peer solution commutes with a solution response and with a new template |
| NotesAndPeerSolution.TemplateThenSolutionResponse | src/stores/notesAndPeerSolution.ts:21-76 | from the initial state, template then response leaves the response in the notes and keeps the template |
| Notes.Init | src/stores/notes.ts:3-10 | text and template both start as the default template |
| Notes.ResetNotes | src/stores/notes.ts:12-14 | the text becomes the template, which stays |
| Notes.SetNotes | src/stores/notes.ts:15-17 | overwrites the text only |
| Notes.SetTemplate | src/stores/notes.ts:18-24 | template and text both become the new template, whatever the text held |
| Notes.ResetAfterSetTemplateIsNoOp | src/stores/notes.ts:12-24 | right after a new template, resetting the notes changes nothing |
| Notes.SetTemplateDiscardsEdits | src/stores/notes.ts:15-24 | a new template's result does not depend on earlier edits |
| Notes.ResetNotesIdempotent | src/stores/notes.ts:12-14 | resetting twice is resetting once |
| GroupInformation.Init | src/stores/groupInformation.ts:6-8 | no group at first |
| GroupInformation.SetItems | src/stores/groupInformation.ts:10-12 | the list becomes exactly the given one |
| GroupInformation.AddItem | src/stores/groupInformation.ts:13-18 | the list becomes the single given group, whatever it held |
| GroupInformation.ClearItems | src/stores/groupInformation.ts:19-22 | no group is left |
| GroupInformation.AtMostOneGroup | src/stores/groupInformation.ts:13-22 | starting from at most one group, any run of `addItem` and `clearItems` keeps at most one |
| GroupInformation.AtMostOneGroupFromInit | src/stores/groupInformation.ts:6-22 | from the initial state, any run of `addItem` and `clearItems` keeps at most one group |
| GroupInformation.LastActionDecides | src/stores/groupInformation.ts:10-22 | every action overwrites the whole list, so the state after a run depends only on its last action |
| MessageHistory.Init | src/stores/messageHistory.ts:6-8 | the log starts empty |
| MessageHistory.AddItem | src/stores/messageHistory.ts:10-12 | the log grows by one, the message is last, and every earlier entry is kept |
| MessageHistory.ClearItems | src/stores/messageHistory.ts:13-16 | the log is emptied |
| MessageHistory.HistoryIsAddedSinceLastClear | src/stores/messageHistory.ts:6-16 | from the initial state, the log is exactly the messages added since the last clear, in order |

## Left out

- The HTTP lookups: URLs, headers, the bearer token and failed or never-answered requests.
  They are modelled only as entries in the request log plus the two response transitions.
- A type response without a `typeKey` (an undefined key in the JavaScript) is not modelled:
  `OnTypeResponse` takes a string.
- A `phase` that is present but not a number is not modelled. The model's `phase` is an
  integer. A value with no phase member (a string, null or an opaque value) reads as phase 0,
  as the code's default of 0 does for values without a phase.
- `messageToSend` has no action that sets it in this store. It is kept as a field and reset
  by `clearItems`.
- `formatDate` depends on the platform's date parser and locale formatting.
- Pinia plumbing is not modelled: `defineStore`, `persist: true` (local-storage persistence)
  and hot-module reload.
- The display store's `dialogOpen`, read by the message-exchange store during ingestion, is
  an argument of `AddItem`.
- The `console.log` calls in the `clearItems` actions are not modelled.
- The chatbot-data store (the backend URL and token holder), the application bootstrap, the
  build tooling and the plain type classes have no behaviour of their own in this model.
- Inherited object keys: the phase map, the type map and the schema cache are plain JavaScript objects in the code
  and Dafny maps here. A key that names an inherited `Object.prototype` member
  (`constructor`, `toString`, `__proto__` and the like) therefore reads as absent in the
  model. In the code such an entry is a truthy function: a `state_update` for aId
  `"constructor"` is never shown (the phase comparison is against `NaN`), no type lookup is
  made for that aId, and no schema is requested for type key `"toString"`. An assignment under
  `__proto__` is lost in the code but stored in the model.
- `null` and `undefined` ids: a missing and a `null` `aId` or `aoId` are both `None` here,
  while the code's `!==` tells `null` from `undefined`. So a completion without an `aoId`
  removes a group whose `aoId` is `null` in the model but not in the code.
- Object identity: `addItem` assigns `type` on the caller's object in place
  (src/stores/messageExchange.ts:91), so `items`, `groups` and the caller share one object.
  `Classify` returns a copy instead. Nothing in these stores reads the difference.
- MessageExchange.AddItem: does not repeat every case of its steps in its own contract. The
  per-case effects are stated by `MessageExchangeProperties.DisplayableMessageAppended`,
  `StateUpdateGate`, `SuppressedMessageNotAppended`, `GroupBookkeeping` and the type-lookup
  lemmas.
