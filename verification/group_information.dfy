/** The group-information store (src/stores/groupInformation.ts): the groups the learner
    takes part in, of which there is at most one, since adding a group replaces the list. */
module GroupInformation {
  import opened AssistanceObjects
  import Runs

  datatype State = State(items: seq<Message>)

  /** The initial state: no group. */
  function Init(): (r: State)
    ensures r.items == []
  {
    State([])
  }

  /** `setItems`: the list is replaced by the given one, whatever its length. */
  function SetItems(s: State, items: seq<Message>): (r: State)
    ensures r.items == items
  {
    s.(items := items)
  }

  /** `addItem`: the list becomes the one group given; earlier groups are dropped. */
  function AddItem(s: State, item: Message): (r: State)
    ensures r.items == [item]
  {
    s.(items := [item])
  }

  /** `clearItems`: no group is left. */
  function ClearItems(s: State): (r: State)
    ensures r.items == []
  {
    s.(items := [])
  }

  /** A call of one of the store's actions. */
  datatype Op = SetItemsOp(items: seq<Message>) | AddItemOp(item: Message) | ClearItemsOp

  function Step(s: State, op: Op): State
  {
    match op
    case SetItemsOp(xs) => SetItems(s, xs)
    case AddItemOp(g) => AddItem(s, g)
    case ClearItemsOp => ClearItems(s)
  }

  /** The state after performing `ops` in order. */
  function Run(s: State, ops: seq<Op>): State
  {
    Runs.Run(Step, s, ops)
  }

  /** Only `addItem` and `clearItems` are used. */
  predicate AddsAndClears(ops: seq<Op>)
  {
    forall i :: 0 <= i < |ops| ==> !ops[i].SetItemsOp?
  }

  // ---------------------------------------------------------------------------------
  // Properties

  /** Starting from at most one group, any sequence of `addItem` and `clearItems` keeps at
      most one group. */
  lemma {:induction false} AtMostOneGroup(s: State, ops: seq<Op>)
    requires |s.items| <= 1
    requires AddsAndClears(ops)
    ensures |Run(s, ops).items| <= 1
    decreases |ops|
  {
    if ops != [] {
      assert !ops[0].SetItemsOp?;
      assert AddsAndClears(ops[1..]) by {
        forall i | 0 <= i < |ops[1..]| ensures !ops[1..][i].SetItemsOp? {
          assert ops[1..][i] == ops[i + 1];
        }
      }
      AtMostOneGroup(Step(s, ops[0]), ops[1..]);
    }
  }

  /** In particular from the initial state. */
  lemma AtMostOneGroupFromInit(ops: seq<Op>)
    requires AddsAndClears(ops)
    ensures |Run(Init(), ops).items| <= 1
  {
    AtMostOneGroup(Init(), ops);
  }

  /** Every action overwrites the whole list: the state after a sequence depends only on
      its last action, never on what came before. */
  lemma LastActionDecides(s: State, t: State, ops: seq<Op>, op: Op)
    ensures Run(s, ops + [op]) == Step(t, op)
  {
    Runs.RunAppend(Step, s, ops, op);
  }
}
