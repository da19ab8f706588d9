/** The circular doubly linked list of kernel/bio.c. A buffer is named by its
    index in `bcache.buf`; the sentinel `bcache.head` is index `n`. `order` is the
    sequence of buffers met when following `next` from the sentinel. */
module BufferList {
  import opened Sequences

  /** Following next (or prev, backwards) from the sentinel visits exactly `order`. */
  ghost predicate Linked(next: seq<nat>, prev: seq<nat>, order: seq<nat>, n: nat) {
    && |next| == |prev| == n + 1
    && Distinct(order)
    && (forall k :: 0 <= k < |order| ==> order[k] < n)
    && (forall k {:trigger next[order[k]]} :: 0 <= k < |order| ==>
          next[order[k]] == if k + 1 < |order| then order[k+1] else n)
    && (forall k {:trigger prev[order[k]]} :: 0 <= k < |order| ==>
          prev[order[k]] == if k > 0 then order[k-1] else n)
    && next[n] == (if order == [] then n else order[0])
    && prev[n] == (if order == [] then n else order[|order|-1])
  }

  /** Taking a buffer out of the list: its two neighbours are linked to each other. */
  lemma Unlink(next: seq<nat>, prev: seq<nat>, order: seq<nat>, n: nat, k: nat)
    requires Linked(next, prev, order, n) && k < |order|
    ensures next[order[k]] <= n && prev[order[k]] <= n
    ensures order[k] !in Without(order, k)
    ensures Linked(next[prev[order[k]] := next[order[k]]], prev[next[order[k]] := prev[order[k]]], Without(order, k), n)
  {
    var b, o := order[k], Without(order, k);
    var next', prev' := next[prev[b] := next[b]], prev[next[b] := prev[b]];
    forall i | 0 <= i < |o|
      ensures next'[o[i]] == if i + 1 < |o| then o[i+1] else n
      ensures prev'[o[i]] == if i > 0 then o[i-1] else n
    {
      var j := if i < k then i else i + 1;
      assert o[i] == order[j];
      assert next[order[j]] == (if j + 1 < |order| then order[j+1] else n);
      assert prev[order[j]] == (if j > 0 then order[j-1] else n);
    }
  }

  /** Linking a buffer in between the sentinel and what was first. */
  lemma PushFront(next: seq<nat>, prev: seq<nat>, order: seq<nat>, n: nat, b: nat)
    requires Linked(next, prev, order, n) && b < n && b !in order
    ensures next[n] <= n
    ensures Linked(next[b := next[n]][n := b], prev[b := n][next[n] := b], [b] + order, n)
  {
    var o := [b] + order;
    var next', prev' := next[b := next[n]][n := b], prev[b := n][next[n] := b];
    forall i | 0 <= i < |o|
      ensures next'[o[i]] == if i + 1 < |o| then o[i+1] else n
      ensures prev'[o[i]] == if i > 0 then o[i-1] else n
    {
      if i > 0 {
        assert o[i] == order[i-1];
        assert next[order[i-1]] == (if i < |order| then order[i] else n);
        assert prev[order[i-1]] == (if i > 1 then order[i-2] else n);
      }
    }
  }

  /** The list as the cache keeps it: every buffer once, most recently moved to the head
      first. `stamp` is when each buffer was last moved there, `clock` the last such move. */
  datatype Lru = Lru(next: seq<nat>, prev: seq<nat>, order: seq<nat>, stamp: seq<nat>, clock: nat)

  ghost predicate Sorted(l: Lru, n: nat) {
    && Linked(l.next, l.prev, l.order, n)
    && |l.stamp| == n
    && (forall i :: 0 <= i < |l.order| ==> l.stamp[l.order[i]] <= l.clock)
    && (forall i, j :: 0 <= i < j < |l.order| ==> l.stamp[l.order[i]] > l.stamp[l.order[j]])
  }

  /** The list is sorted by recency and holds buffers 0 .. m. */
  ghost predicate Holds(l: Lru, n: nat, m: nat) {
    if m == 0 then Sorted(l, n) else m - 1 in l.order && Holds(l, n, m - 1)
  }

  lemma {:induction false} HoldsIff(l: Lru, n: nat, m: nat)
    ensures Holds(l, n, m) <==> Sorted(l, n) && forall i :: 0 <= i < m ==> i in l.order
  {
    if m > 0 {
      HoldsIff(l, n, m - 1);
    }
  }

  lemma Position(l: Lru, n: nat, b: nat) returns (k: nat)
    requires Holds(l, n, n) && b < n
    ensures k < |l.order| && l.order[k] == b
  {
    HoldsIff(l, n, n);
    assert b in l.order;
    k :| 0 <= k < |l.order| && l.order[k] == b;
  }

  /** With nothing eligible behind position i, the buffer there has waited longest. */
  lemma LeastStamp(l: Lru, n: nat, eligible: set<nat>, i: nat)
    requires Holds(l, n, n) && i < |l.order|
    requires forall j :: i < j < |l.order| ==> l.order[j] !in eligible
    ensures Sorted(l, n)
    ensures forall j :: 0 <= j < n && j in eligible ==> l.stamp[l.order[i]] <= l.stamp[j]
  {
    HoldsIff(l, n, n);
    forall j | 0 <= j < n && j in eligible
      ensures l.stamp[l.order[i]] <= l.stamp[j]
    {
      assert j in l.order;
      var k :| 0 <= k < |l.order| && l.order[k] == j;
    }
  }

  /** The six assignments with which brelse moves b to the list head. */
  function Moved(l: Lru, n: nat, b: nat, k: nat): Lru
    requires |l.next| == |l.prev| == n + 1 && |l.stamp| == n && b < n && k < |l.order|
    requires l.next[b] <= n && l.prev[b] <= n && l.next[l.prev[b] := l.next[b]][n] <= n
  {
    var n1, p1 := l.next[l.prev[b] := l.next[b]], l.prev[l.next[b] := l.prev[b]];
    Lru(n1[b := n1[n]][n := b], p1[b := n][n1[n] := b], [b] + Without(l.order, k), l.stamp[b := l.clock + 1],
      l.clock + 1)
  }

  /** Moving a buffer to the head keeps the list sorted by recency and loses no buffer. */
  lemma MovedHolds(l: Lru, n: nat, k: nat)
    requires Holds(l, n, n) && k < |l.order|
    ensures |l.next| == |l.prev| == n + 1 && |l.stamp| == n && l.order[k] < n
    ensures l.next[l.order[k]] <= n && l.prev[l.order[k]] <= n &&
            l.next[l.prev[l.order[k]] := l.next[l.order[k]]][n] <= n
    ensures Holds(Moved(l, n, l.order[k], k), n, n)
  {
    HoldsIff(l, n, n);
    MovedSorted(l, n, k);
    var m := Moved(l, n, l.order[k], k);
    forall i | 0 <= i < n ensures i in m.order {
      StillListed(l.order, k, i);
    }
    HoldsIff(m, n, n);
  }

  lemma MovedSorted(l: Lru, n: nat, k: nat)
    requires Sorted(l, n) && k < |l.order|
    ensures l.order[k] < n
    ensures l.next[l.order[k]] <= n && l.prev[l.order[k]] <= n &&
            l.next[l.prev[l.order[k]] := l.next[l.order[k]]][n] <= n
    ensures Sorted(Moved(l, n, l.order[k], k), n)
  {
    var b, rest := l.order[k], Without(l.order, k);
    Unlink(l.next, l.prev, l.order, n, k);
    PushFront(l.next[l.prev[b] := l.next[b]], l.prev[l.next[b] := l.prev[b]], rest, n, b);
    Recency(l.order, l.stamp, n, l.clock, k);
  }

  lemma Recency(order: seq<nat>, stamp: seq<nat>, n: nat, clock: nat, k: nat)
    requires |stamp| == n && k < |order|
    requires forall i :: 0 <= i < |order| ==> order[i] < n && stamp[order[i]] <= clock
    requires forall i, j :: 0 <= i < j < |order| ==> stamp[order[i]] > stamp[order[j]]
    ensures var o, s := [order[k]] + Without(order, k), stamp[order[k] := clock + 1];
            && (forall i :: 0 <= i < |o| ==> o[i] < n && s[o[i]] <= clock + 1)
            && (forall i, j :: 0 <= i < j < |o| ==> s[o[i]] > s[o[j]])
  {
    var b := order[k];
    var o, s := [b] + Without(order, k), stamp[b := clock + 1];
    forall i, j | 0 <= i < j < |o| ensures s[o[i]] > s[o[j]] {
      var i', j' := if i - 1 < k then i - 1 else i, if j - 1 < k then j - 1 else j;
      assert o[j] == order[j'];
      assert i > 0 ==> o[i] == order[i'];
    }
    forall i | 0 <= i < |o| ensures o[i] < n && s[o[i]] <= clock + 1 {
      assert i > 0 ==> o[i] == order[if i - 1 < k then i - 1 else i];
    }
  }

  lemma StillListed(order: seq<nat>, k: nat, i: nat)
    requires k < |order| && i in order
    ensures i in [order[k]] + Without(order, k)
  {
    var o := [order[k]] + Without(order, k);
    var l :| 0 <= l < |order| && order[l] == i;
    assert o[if l < k then l + 1 else if l == k then 0 else l] == i;
  }
}
