/** What several modules say about sequences. */
module Sequences {
  predicate Distinct<T(==)>(s: seq<T>) {
    forall i, j :: 0 <= i < j < |s| ==> s[i] != s[j]
  }

  function Without<T>(s: seq<T>, k: nat): seq<T>
    requires k < |s|
  {
    s[..k] + s[k + 1..]
  }

  /** s with t in the place of what is at off. */
  function Patch<T>(s: seq<T>, off: nat, t: seq<T>): (r: seq<T>)
    requires off + |t| <= |s|
    ensures |r| == |s| && forall i :: 0 <= i < |s| ==> r[i] == if off <= i < off + |t| then t[i - off] else s[i]
  {
    s[..off] + t + s[off + |t|..]
  }
}
