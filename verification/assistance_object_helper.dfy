/** Pure lookups over the parameter list of an assistance object
    (src/util/assistanceObjectHelper.ts). Both are total: a missing parameter list
    or a missing key degrades to `false` / `''`. */
module AssistanceObjectHelper {
  import opened AssistanceObjects

  /** `i` is the position of the first parameter with key `key`. */
  ghost predicate FirstMatch(ps: seq<Parameter>, key: string, i: int)
  {
    && 0 <= i < |ps|
    && ps[i].key == key
    && forall j :: 0 <= j < i ==> ps[j].key != key
  }

  /** The first parameter whose key is exactly `key`, if any. */
  function Find(ps: seq<Parameter>, key: string): (r: Option<Parameter>)
    ensures r.None? <==> forall j :: 0 <= j < |ps| ==> ps[j].key != key
    ensures forall i :: FirstMatch(ps, key, i) ==> r == Some(ps[i])
  {
    if ps == [] then None
    else if ps[0].key == key then Some(ps[0])
    else
      var r := Find(ps[1..], key);
      assert forall i :: FirstMatch(ps, key, i) ==> FirstMatch(ps[1..], key, i - 1);
      r
  }

  /** `checkForKeyPresence`: whether some parameter carries `key`. */
  function CheckForKeyPresence(m: Message, key: string): (r: bool)
    ensures r <==> m.parameters.Some? && exists i :: 0 <= i < |m.parameters.value| && m.parameters.value[i].key == key
    ensures m.parameters.None? ==> !r
  {
    Find(ParametersOf(m), key).Some?
  }

  /** `parameterValue`: the value of the first parameter carrying `key`; a missing
      parameter, a missing list and a null or undefined value all read as the empty string. */
  function ParameterValue(m: Message, key: string): (r: Value)
    ensures r != Nullish
    ensures !CheckForKeyPresence(m, key) ==> r == Str("")
    ensures forall i :: FirstMatch(ParametersOf(m), key, i) ==>
              r == (if ParametersOf(m)[i].value == Nullish then Str("") else ParametersOf(m)[i].value)
  {
    match Find(ParametersOf(m), key)
    case None => Str("")
    case Some(p) => if p.value == Nullish then Str("") else p.value
  }

  /** A key that is never present has the `''` value. */
  lemma AbsentKeyHasEmptyValue(m: Message, key: string)
    requires !CheckForKeyPresence(m, key)
    ensures ParameterValue(m, key) == Str("")
  {
  }

  /** Once a parameter with `key` occurs, whatever follows it cannot change the lookup:
      later duplicates of the key are ignored. */
  lemma {:induction false} LaterDuplicatesIgnored(ps: seq<Parameter>, qs: seq<Parameter>, key: string)
    requires Find(ps, key).Some?
    ensures Find(ps + qs, key) == Find(ps, key)
  {
    if ps[0].key != key {
      assert (ps + qs)[1..] == ps[1..] + qs;
      LaterDuplicatesIgnored(ps[1..], qs, key);
    }
  }

  /** Appending a parameter whose key differs from `key` changes neither lookup. */
  lemma AppendOtherKey(m: Message, p: Parameter, key: string)
    requires p.key != key
    ensures var m' := m.(parameters := Some(ParametersOf(m) + [p]));
            && CheckForKeyPresence(m', key) == CheckForKeyPresence(m, key)
            && ParameterValue(m', key) == ParameterValue(m, key)
  {
    var ps := ParametersOf(m);
    if Find(ps, key).Some? {
      LaterDuplicatesIgnored(ps, [p], key);
    } else {
      assert forall j :: 0 <= j < |ps + [p]| ==> (ps + [p])[j].key != key by {
        forall j | 0 <= j < |ps + [p]| ensures (ps + [p])[j].key != key {
          if j < |ps| { assert (ps + [p])[j] == ps[j]; }
        }
      }
    }
  }
}
