/** The message-history store (src/stores/messageHistory.ts): an append-only log of the
    messages exchanged, emptied only by `clearItems`. */
module MessageHistory {
  import opened AssistanceObjects
  import Runs

  datatype State = State(items: seq<Message>)

  /** The initial state: an empty log. */
  function Init(): (r: State)
    ensures r.items == []
  {
    State([])
  }

  /** `addItem`: the message becomes the last entry; every earlier entry stays where it
      was. */
  function AddItem(s: State, message: Message): (r: State)
    ensures |r.items| == |s.items| + 1
    ensures r.items[|s.items|] == message
    ensures r.items[..|s.items|] == s.items
  {
    s.(items := s.items + [message])
  }

  /** `clearItems`: the log is emptied. */
  function ClearItems(s: State): (r: State)
    ensures r.items == []
  {
    s.(items := [])
  }

  /** A call of one of the store's actions. */
  datatype Op = AddItemOp(message: Message) | ClearItemsOp

  function Step(s: State, op: Op): State
  {
    match op
    case AddItemOp(m) => AddItem(s, m)
    case ClearItemsOp => ClearItems(s)
  }

  /** The state after performing `ops` in order. */
  function Run(s: State, ops: seq<Op>): State
  {
    Runs.Run(Step, s, ops)
  }

  /** The messages added after the last `clearItems` of `ops` (after the start, if there
      is none), in the order they were added. */
  function AddedSinceLastClear(ops: seq<Op>): seq<Message>
    decreases |ops|
  {
    if ops == [] then []
    else
      match ops[|ops| - 1]
      case ClearItemsOp => []
      case AddItemOp(m) => AddedSinceLastClear(ops[..|ops| - 1]) + [m]
  }

  // ---------------------------------------------------------------------------------
  // Properties

  /** From the initial state, the log holds exactly the messages added since the last
      clear, in order. */
  lemma {:induction false} HistoryIsAddedSinceLastClear(ops: seq<Op>)
    ensures Run(Init(), ops).items == AddedSinceLastClear(ops)
    decreases |ops|
  {
    if ops != [] {
      var prefix := ops[..|ops| - 1];
      var last := ops[|ops| - 1];
      assert ops == prefix + [last];
      Runs.RunAppend(Step, Init(), prefix, last);
      HistoryIsAddedSinceLastClear(prefix);
    }
  }
}
