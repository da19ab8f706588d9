/** The circular free list of user/umalloc.c, as the pointers that link its headers. */
module FreeList {
  import opened HeapBlocks

  /** The pointers lead through the headers l one after the other and from the last one to y. */
  predicate Path(next: map<nat, nat>, l: seq<nat>, y: nat) {
    l != [] ==> l[0] in next && next[l[0]] == (if |l| == 1 then y else l[1]) && Path(next, l[1..], y)
  }

  function First(l: seq<nat>, y: nat): nat {
    if l == [] then y else l[0]
  }

  lemma {:induction false} PathConcat(next: map<nat, nat>, a: seq<nat>, b: seq<nat>, y: nat)
    ensures Path(next, a + b, y) <==> Path(next, a, First(b, y)) && Path(next, b, y)
  {
    if a == [] {
      assert a + b == b;
    } else {
      assert (a + b)[1..] == a[1..] + b;
      PathConcat(next, a[1..], b, y);
    }
  }

  lemma {:induction false} PathKept(next: map<nat, nat>, l: seq<nat>, y: nat, k: nat, v: nat)
    requires Path(next, l, y) && k !in l
    ensures Path(next[k := v], l, y)
  {
    if l != [] {
      PathKept(next, l[1..], y, k, v);
    }
  }

  lemma {:induction false} PathAt(next: map<nat, nat>, l: seq<nat>, y: nat, i: nat)
    requires Path(next, l, y) && i < |l|
    ensures l[i] in next && next[l[i]] == if i + 1 < |l| then l[i+1] else y
  {
    if i > 0 {
      PathAt(next, l[1..], y, i - 1);
    }
  }

  /** The list q + [p] + post, with p pointing on to bp and bp to z. */
  lemma Relink(next: map<nat, nat>, q: seq<nat>, p: nat, post: seq<nat>, y: nat, bp: nat, z: nat, w: nat, l: seq<nat>)
    requires Path(next, q, p) && Path(next, post, y) && p !in q && p !in post && bp !in q && bp !in post && bp != p
    requires (l == [bp] && w == bp && z == First(post, y)) || (l == [] && w == First(post, y))
    ensures Path(next[bp := z][p := w], q + [p] + (l + post), y)
  {
    var n := next[bp := z][p := w];
    PathKept(next, q, p, bp, z);
    PathKept(next[bp := z], q, p, p, w);
    PathKept(next, post, y, bp, z);
    PathKept(next[bp := z], post, y, p, w);
    PathConcat(n, l, post, y);
    PathConcat(n, [p], l + post, y);
    PathConcat(n, q, [p] + (l + post), y);
    assert q + ([p] + (l + post)) == q + [p] + (l + post);
    assert l == [bp] ==> Path(n, l, First(post, y));
    assert Path(n, [p], First(l + post, y));
  }

  /** The list without the header after p. */
  lemma Unlink(next: map<nat, nat>, q: seq<nat>, p: nat, x: nat, post: seq<nat>, y: nat)
    requires Path(next, q + [p] + ([x] + post), y) && p !in q && p !in post && x != p
    ensures x in next && Path(next[p := next[x]], q + [p] + post, y)
  {
    assert q + [p] + ([x] + post) == q + ([p] + ([x] + post));
    PathConcat(next, q, [p] + ([x] + post), y);
    PathConcat(next, [p], [x] + post, y);
    PathConcat(next, [x], post, y);
    var n := next[p := next[x]];
    PathKept(next, q, p, p, next[x]);
    PathKept(next, post, y, p, next[x]);
    PathConcat(n, [p], post, y);
    PathConcat(n, q, [p] + post, y);
    assert q + ([p] + post) == q + [p] + post;
  }

  // ---------- the free list and the blocks ----------

  /** The addresses of free blocks lie between the bounds of the blocks, in ascending order. */
  predicate Ascending(l: seq<nat>) {
    forall i, j :: 0 <= i < j < |l| ==> l[i] < l[j]
  }

  lemma {:induction false} AddrsWithin(lo: nat, bs: seq<Block>, hi: nat)
    requires Tiles(lo, bs, hi)
    ensures forall x :: x in FreeAddrs(bs) ==> lo <= x < hi
    ensures Ascending(FreeAddrs(bs))
    decreases |bs|
  {
    if bs != [] {
      AddrsWithin(bs[0].End(), bs[1..], hi);
      TilesBound(bs[0].End(), bs[1..], hi);
      AscendCons(FreeOf(bs[0]), FreeAddrs(bs[1..]), bs[0].addr);
    }
  }

  lemma AscendCons(a: seq<nat>, b: seq<nat>, x: nat)
    requires |a| <= 1 && (forall y :: y in a ==> y == x) && Ascending(b) && forall y :: y in b ==> x < y
    ensures Ascending(a + b) && forall y :: y in a + b ==> y == x || y in b
  {
    forall i, j | 0 <= i < j < |a + b| ensures (a + b)[i] < (a + b)[j] {
      assert i >= |a| ==> (a + b)[i] == b[i - |a|];
      assert j >= |a| ==> (a + b)[j] == b[j - |a|];
      assert i < |a| ==> (a + b)[i] in a;
      assert j >= |a| ==> (a + b)[j] in b;
    }
  }

  /** The i-th free block: the one with i free blocks before it. */
  lemma {:induction false} FreeIndex(bs: seq<Block>, i: nat) returns (j: nat)
    requires i < |FreeAddrs(bs)|
    ensures j < |bs| && bs[j].free && |FreeAddrs(bs[..j])| == i
  {
    if bs[0].free && i == 0 {
      j := 0;
      assert bs[..0] == [];
    } else {
      j := FreeIndex(bs[1..], if bs[0].free then i - 1 else i);
      j := j + 1;
      assert bs[..j] == [bs[0]] + bs[1..][..j-1];
      FreeConcat([bs[0]], bs[1..][..j-1]);
      OneBlock(bs[0]);
    }
  }

  /** The i-th free block lies between the free addresses before and after it. */
  lemma FreeAround(bs: seq<Block>, j: nat, i: nat)
    requires j < |bs| && bs[j].free && i == |FreeAddrs(bs[..j])|
    ensures bs == bs[..j] + [bs[j]] + bs[j+1..]
    ensures FreeAddrs(bs) == FreeAddrs(bs[..j]) + [bs[j].addr] + FreeAddrs(bs[j+1..])
    ensures i < |FreeAddrs(bs)| && FreeAddrs(bs)[i] == bs[j].addr
  {
    assert bs == bs[..j] + [bs[j]] + bs[j+1..];
    SplitFree(bs[..j], bs[j], bs[j+1..]);
  }
}
