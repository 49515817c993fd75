/** Small helpers shared by the model: an option type and the maximum of a sequence of naturals. */
module Util {

  datatype Option<T> = None | Some(value: T)

  function Max(a: nat, b: nat): nat
  {
    if a < b then b else a
  }

  /** The largest element of `s`, or 0 for the empty sequence. */
  function MaxOf(s: seq<nat>): (m: nat)
    ensures forall i :: 0 <= i < |s| ==> s[i] <= m
    ensures s != [] ==> exists i :: 0 <= i < |s| && s[i] == m
  {
    if s == [] then 0
    else
      var rest := MaxOf(s[1..]);
      assert forall i :: 1 <= i < |s| ==> s[i] == s[1..][i - 1];
      Max(s[0], rest)
  }
}
