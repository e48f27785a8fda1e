/** Sequences of store actions. A store's actions are applied one after another through
    the store's step function; nothing else happens between two of them. */
module Runs {

  /** The state after applying `ops` to `s` in order. */
  function Run<S, O>(step: (S, O) -> S, s: S, ops: seq<O>): S
    decreases |ops|
  {
    if ops == [] then s else Run(step, step(s, ops[0]), ops[1..])
  }

  /** Running a sequence and then one more action is the same as running the longer
      sequence. */
  lemma {:induction false} RunAppend<S, O>(step: (S, O) -> S, s: S, ops: seq<O>, op: O)
    ensures Run(step, s, ops + [op]) == step(Run(step, s, ops), op)
    decreases |ops|
  {
    if ops == [] {
      assert ops + [op] == [op];
    } else {
      assert (ops + [op])[1..] == ops[1..] + [op];
      RunAppend(step, step(s, ops[0]), ops[1..], op);
    }
  }
}
