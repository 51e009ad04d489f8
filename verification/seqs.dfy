/** Sequence facts shared by the stack models. */
module Seqs {

  /** The elements of `s` in the opposite order: the order in which a stack
      hands back values that were added in the order of `s`. */
  function Reverse<T>(s: seq<T>): (r: seq<T>)
    ensures |r| == |s|
    ensures forall i :: 0 <= i < |s| ==> r[i] == s[|s| - 1 - i]
  {
    if s == [] then [] else Reverse(s[1..]) + [s[0]]
  }
}
