/** user/umalloc.c: the allocator of Kernighan and Ritchie. Addresses and sizes count headers. */
module Umalloc {
  import opened HeapBlocks
  import opened FreeList

  /** The size words of the blocks. */
  predicate Sizes(size: map<nat, nat>, bs: seq<Block>) {
    bs != [] ==> bs[0].addr in size && size[bs[0].addr] == bs[0].size && Sizes(size, bs[1..])
  }

  lemma {:induction false} SizesConcat(size: map<nat, nat>, a: seq<Block>, b: seq<Block>)
    ensures Sizes(size, a + b) <==> Sizes(size, a) && Sizes(size, b)
  {
    if a == [] {
      assert a + b == b;
    } else {
      assert (a + b)[1..] == a[1..] + b;
      SizesConcat(size, a[1..], b);
    }
  }

  lemma SplitSizes(size: map<nat, nat>, a: seq<Block>, b: Block, c: seq<Block>)
    ensures Sizes(size, a + [b] + c) <==> Sizes(size, a) && b.addr in size && size[b.addr] == b.size && Sizes(size, c)
  {
    SizesConcat(size, a + [b], c);
    SizesConcat(size, a, [b]);
  }

  lemma {:induction false} SizesKept(size: map<nat, nat>, lo: nat, bs: seq<Block>, hi: nat, k: nat, v: nat)
    requires Sizes(size, bs) && Tiles(lo, bs, hi) && (k < lo || k >= hi)
    ensures Sizes(size[k := v], bs)
    decreases |bs|
  {
    if bs != [] {
      TilesBound(bs[0].End(), bs[1..], hi);
      SizesKept(size, bs[0].End(), bs[1..], hi, k, v);
    }
  }

  /** The state of the allocator: the blocks tile the memory that sbrk gave, no two free ones are
      neighbours, the size words are right, and the pointers run through base and the free blocks
      in ascending order and back to base. */
  ghost predicate Listed(base: nat, next: map<nat, nat>, size: map<nat, nat>, bs: seq<Block>, brk: nat) {
    && Tiles(base + 1, bs, brk) && Coalesced(bs) && Sizes(size, bs) && base in size && size[base] == 0
    && Path(next, [base] + FreeAddrs(bs), base)
  }

  // ---------- free ----------

  /** The free header before b: the last one before it, or base. */
  ghost function Pred(base: nat, a: seq<Block>): nat {
    ([base] + FreeAddrs(a))[|FreeAddrs(a)|]
  }

  ghost function Front(base: nat, a: seq<Block>): seq<nat> {
    ([base] + FreeAddrs(a))[..|FreeAddrs(a)|]
  }

  lemma ListIs(base: nat, a: seq<Block>, b: Block, c: seq<Block>)
    requires !b.free
    ensures [base] + FreeAddrs(a + [b] + c) == Front(base, a) + [Pred(base, a)] + FreeAddrs(c)
  {
    SplitFree(a, b, c);
    assert FreeAddrs(a) + [] == FreeAddrs(a);
    assert [base] + FreeAddrs(a) == Front(base, a) + [Pred(base, a)];
  }

  /** Where the free headers lie with respect to b. */
  lemma Around(base: nat, a: seq<Block>, b: Block, c: seq<Block>, brk: nat)
    requires Tiles(base + 1, a + [b] + c, brk)
    ensures Ascending([base] + FreeAddrs(a)) && Ascending(FreeAddrs(c)) && base < b.addr
    ensures forall x :: x in [base] + FreeAddrs(a) ==> base <= x < b.addr
    ensures forall x :: x in FreeAddrs(c) ==> b.End() <= x
    ensures Pred(base, a) < b.addr && Pred(base, a) !in Front(base, a)
  {
    SplitTiles(base + 1, a, b, c, brk);
    AddrsWithin(base + 1, a, Top(base + 1, a));
    AddrsWithin(b.End(), c, brk);
    TilesBound(base + 1, a, Top(base + 1, a));
    AscendCons([base], FreeAddrs(a), base);
    assert Pred(base, a) in [base] + FreeAddrs(a);
  }

  /** free merges with the block behind exactly when that is a free neighbour. */
  lemma NextJoins(base: nat, a: seq<Block>, b: Block, c: seq<Block>, brk: nat)
    requires Tiles(base + 1, a + [b] + c, brk)
    ensures b.End() == First(FreeAddrs(c), base) <==> JoinsNext(b, c)
  {
    SplitTiles(base + 1, a, b, c, brk);
    TilesBound(base + 1, a, Top(base + 1, a));
    if c != [] {
      if !c[0].free {
        AddrsWithin(c[0].End(), c[1..], brk);
        if FreeAddrs(c) != [] {
          assert FreeAddrs(c)[0] in FreeAddrs(c[1..]);
        }
      }
    }
  }

  lemma {:induction false} PrevJoins(size: map<nat, nat>, base: nat, a: seq<Block>, b: Block)
    requires Tiles(base + 1, a, Top(base + 1, a)) && Top(base + 1, a) <= b.addr && Sizes(size, a) && base in size &&
             size[base] == 0
    ensures Pred(base, a) in size && (Pred(base, a) + size[Pred(base, a)] == b.addr <==> JoinsPrev(a, b))
    ensures JoinsPrev(a, b) ==> Pred(base, a) == a[|a|-1].addr && size[Pred(base, a)] == a[|a|-1].size
  {
    TilesBound(base + 1, a, Top(base + 1, a));
    if a != [] {
      var a', p := a[..|a|-1], a[|a|-1];
      assert a == a' + [p] + [];
      SplitTiles(base + 1, a', p, [], Top(base + 1, a));
      SplitSizes(size, a', p, []);
      if p.free {
        LastFree(a);
      } else {
        SplitFree(a', p, []);
        assert FreeAddrs(a) == FreeAddrs(a');
        PrevJoins(size, base, a', p);
        PredEnd(size, base, a', p.addr);
      }
    }
  }

  /** The free block before an address ends before it. */
  lemma {:induction false} PredEnd(size: map<nat, nat>, base: nat, a: seq<Block>, x: nat)
    requires Tiles(base + 1, a, Top(base + 1, a)) && Top(base + 1, a) <= x && Sizes(size, a) && base in size &&
             size[base] == 0
    ensures Pred(base, a) in size && Pred(base, a) + size[Pred(base, a)] <= x
  {
    TilesBound(base + 1, a, Top(base + 1, a));
    if a != [] {
      var a', p := a[..|a|-1], a[|a|-1];
      assert a == a' + [p] + [];
      SplitTiles(base + 1, a', p, [], Top(base + 1, a));
      SplitSizes(size, a', p, []);
      if p.free {
        LastFree(a);
      } else {
        SplitFree(a', p, []);
        assert FreeAddrs(a) == FreeAddrs(a');
        PredEnd(size, base, a', p.addr);
      }
    }
  }

  /** The pointers after free: bp points behind the block that it swallowed, if any, and the header
      before bp points to bp or, if it swallowed bp, where bp points. */
  lemma FreedLinks(base: nat, next: map<nat, nat>, a: seq<Block>, b: Block, c: seq<Block>, brk: nat, p: nat, z: nat,
          w: nat)
    requires Tiles(base + 1, a + [b] + c, brk) && Path(next, [base] + FreeAddrs(a + [b] + c), base) && !b.free &&
             p == Pred(base, a)
    requires z == First(FreeAddrs(Rest(b, c)), base) && w == if JoinsPrev(a, b) then z else b.addr
    ensures Path(next[b.addr := z][p := w], [base] + FreeAddrs(FreeBlock(a, b, c)), base)
  {
    Outside(base, a, b, c, brk);
    ListIs(base, a, b, c);
    var q, post, l := Front(base, a), FreeAddrs(Rest(b, c)), if JoinsPrev(a, b) then [] else [b.addr];
    RestPath(next, q, p, b, c, base);
    Relink(next, q, p, post, base, b.addr, z, w, l);
    FreedListIs(base, a, b, c, q, p, l, post);
  }

  lemma FreedListIs(base: nat, a: seq<Block>, b: Block, c: seq<Block>, q: seq<nat>, p: nat, l: seq<nat>, post: seq<nat>)
    requires q == Front(base, a) && p == Pred(base, a) && l == (if JoinsPrev(a, b) then [] else [b.addr]) &&
             post == FreeAddrs(Rest(b, c))
    ensures [base] + FreeAddrs(FreeBlock(a, b, c)) == q + [p] + (l + post)
  {
    FreeBlockList(a, b, c);
    assert [base] + FreeAddrs(a) == q + [p];
    Assoc([base], FreeAddrs(a) + l, post);
    Assoc([base], FreeAddrs(a), l);
    Assoc(q + [p], l, post);
  }

  lemma Outside(base: nat, a: seq<Block>, b: Block, c: seq<Block>, brk: nat)
    requires Tiles(base + 1, a + [b] + c, brk)
    ensures Pred(base, a) !in Front(base, a) && Pred(base, a) !in FreeAddrs(Rest(b, c))
    ensures b.addr !in Front(base, a) && b.addr !in FreeAddrs(Rest(b, c)) && b.addr != Pred(base, a)
  {
    Around(base, a, b, c, brk);
    SplitTiles(base + 1, a, b, c, brk);
    RestList(b, c);
    assert forall x :: x in FreeAddrs(Rest(b, c)) ==> x in FreeAddrs(c);
    assert forall x :: x in Front(base, a) ==> x in [base] + FreeAddrs(a);
  }

  lemma RestPath(next: map<nat, nat>, q: seq<nat>, p: nat, b: Block, c: seq<Block>, y: nat)
    requires Path(next, q + [p] + FreeAddrs(c), y)
    ensures Path(next, q, p) && Path(next, FreeAddrs(Rest(b, c)), y) && p in next && next[p] == First(FreeAddrs(c), y)
    ensures JoinsNext(b, c) ==> c[0].addr in next && next[c[0].addr] == First(FreeAddrs(Rest(b, c)), y)
  {
    PathConcat(next, q + [p], FreeAddrs(c), y);
    PathConcat(next, q, [p], First(FreeAddrs(c), y));
    RestList(b, c);
    if JoinsNext(b, c) {
      PathConcat(next, [c[0].addr], FreeAddrs(Rest(b, c)), y);
    }
  }

  lemma FreedSizes(base: nat, size: map<nat, nat>, a: seq<Block>, b: Block, c: seq<Block>, brk: nat)
    requires Tiles(base + 1, a + [b] + c, brk) && Sizes(size, a + [b] + c) && base in size && size[base] == 0
    ensures var s := size[b.addr := Merged(b, c).size];
            && (JoinsPrev(a, b) ==> Sizes(s[a[|a|-1].addr := a[|a|-1].size + Merged(b, c).size], FreeBlock(a, b, c)))
            && (!JoinsPrev(a, b) ==> Sizes(s, FreeBlock(a, b, c)))
  {
    var n := Merged(b, c);
    var s := size[b.addr := n.size];
    SplitTiles(base + 1, a, b, c, brk);
    SplitSizes(size, a, b, c);
    SizesKept(size, base + 1, a, Top(base + 1, a), b.addr, n.size);
    SizesKept(size, b.End(), c, brk, b.addr, n.size);
    RestSizes(s, b, c);
    if JoinsPrev(a, b) {
      var a', p := a[..|a|-1], a[|a|-1];
      assert a == a' + [p] + [];
      SplitTiles(base + 1, a', p, [], Top(base + 1, a));
      SplitSizes(s, a', p, []);
      SizesKept(s, base + 1, a', Top(base + 1, a'), p.addr, p.size + n.size);
      TilesRest(b, c, brk);
      SizesKept(s, n.End(), Rest(b, c), brk, p.addr, p.size + n.size);
      SplitSizes(s[p.addr := p.size + n.size], a', Block(p.addr, p.size + n.size, true), Rest(b, c));
    } else {
      SplitSizes(s, a, n, Rest(b, c));
    }
  }

  lemma RestSizes(s: map<nat, nat>, b: Block, c: seq<Block>)
    requires Sizes(s, c)
    ensures Sizes(s, Rest(b, c))
  {
  }

  lemma TilesRest(b: Block, c: seq<Block>, hi: nat)
    requires Tiles(b.End(), c, hi)
    ensures Tiles(Merged(b, c).End(), Rest(b, c), hi)
  {
  }

  /** free keeps the state in order. */
  lemma FreedListed(base: nat, next: map<nat, nat>, size: map<nat, nat>, a: seq<Block>, b: Block, c: seq<Block>,
          brk: nat, p: nat, z: nat, w: nat, s: map<nat, nat>)
    requires Listed(base, next, size, a + [b] + c, brk) && !b.free && p == Pred(base, a)
    requires z == First(FreeAddrs(Rest(b, c)), base) && w == if JoinsPrev(a, b) then z else b.addr
    requires s == if JoinsPrev(a, b)
                  then size[b.addr := Merged(b, c).size][a[|a|-1].addr := a[|a|-1].size + Merged(b, c).size]
                  else size[b.addr := Merged(b, c).size]
    ensures Listed(base, next[b.addr := z][p := w], s, FreeBlock(a, b, c), brk)
    ensures p in [base] + FreeAddrs(FreeBlock(a, b, c))
  {
    FreedLinks(base, next, a, b, c, brk, p, z, w);
    FreedSizes(base, size, a, b, c, brk);
    FreeBlockTiles(base + 1, a, b, c, brk);
    FreeBlockCoalesced(base + 1, a, b, c, brk);
    BaseKept(base, a, b, c, brk);
    FreeBlockList(a, b, c);
    assert p in [base] + FreeAddrs(a);
  }

  lemma BaseKept(base: nat, a: seq<Block>, b: Block, c: seq<Block>, brk: nat)
    requires Tiles(base + 1, a + [b] + c, brk)
    ensures base < b.addr && (a != [] ==> base < a[|a|-1].addr)
  {
    SplitTiles(base + 1, a, b, c, brk);
    TilesBound(base + 1, a, Top(base + 1, a));
    if a != [] {
      TilesAt(base + 1, a, Top(base + 1, a), |a| - 1);
    }
  }

  // ---------- malloc ----------

  lemma TakenListed(base: nat, next: map<nat, nat>, size: map<nat, nat>, a: seq<Block>, b: Block, c: seq<Block>,
          brk: nat, n: nat)
    requires Listed(base, next, size, a + [b] + c, brk) && b.free && b.size == n > 0
    ensures b.addr in next && Listed(base, next[Pred(base, a) := next[b.addr]], size, AllocBlock(a, b, c, n), brk)
  {
    AllocBlockOk(base + 1, a, b, c, brk, n);
    AllocBlockList(a, b, c, n);
    SplitSizes(size, a, b, c);
    SplitSizes(size, a, Block(b.addr, n, false), c);
    Outside(base, a, b, c, brk);
    Around(base, a, b, c, brk);
    FreeListIs(base, a, b, c);
    Unlink(next, Front(base, a), Pred(base, a), b.addr, FreeAddrs(c), base);
    assert [base] + FreeAddrs(AllocBlock(a, b, c, n)) == Front(base, a) + [Pred(base, a)] + FreeAddrs(c) by {
      assert FreeAddrs(a) + [] == FreeAddrs(a);
      assert [base] + FreeAddrs(a) == Front(base, a) + [Pred(base, a)];
      Assoc([base], FreeAddrs(a), FreeAddrs(c));
    }
  }

  lemma FreeListIs(base: nat, a: seq<Block>, b: Block, c: seq<Block>)
    requires b.free
    ensures [base] + FreeAddrs(a + [b] + c) == Front(base, a) + [Pred(base, a)] + ([b.addr] + FreeAddrs(c))
  {
    SplitFree(a, b, c);
    assert [base] + FreeAddrs(a) == Front(base, a) + [Pred(base, a)];
    Assoc([base], FreeAddrs(a), [b.addr] + FreeAddrs(c));
    Assoc(FreeAddrs(a), [b.addr], FreeAddrs(c));
  }

  lemma CutListed(base: nat, next: map<nat, nat>, size: map<nat, nat>, a: seq<Block>, b: Block, c: seq<Block>,
          brk: nat, n: nat)
    requires Listed(base, next, size, a + [b] + c, brk) && b.free && 0 < n < b.size
    ensures Listed(base, next, size[b.addr := b.size - n][b.End() - n := n], AllocBlock(a, b, c, n), brk)
  {
    AllocBlockOk(base + 1, a, b, c, brk, n);
    AllocBlockList(a, b, c, n);
    SplitFree(a, b, c);
    BaseKept(base, a, b, c, brk);
    SplitTiles(base + 1, a, b, c, brk);
    SplitSizes(size, a, b, c);
    var s := size[b.addr := b.size - n];
    SizesKept(size, base + 1, a, Top(base + 1, a), b.addr, b.size - n);
    SizesKept(s, base + 1, a, Top(base + 1, a), b.End() - n, n);
    SizesKept(size, b.End(), c, brk, b.addr, b.size - n);
    SizesKept(s, b.End(), c, brk, b.End() - n, n);
    var l := Block(b.End() - n, n, false);
    assert ([l] + c)[1..] == c;
    SplitSizes(s[b.End() - n := n], a, Block(b.addr, b.size - n, true), [l] + c);
  }

  // ---------- searching ----------

  /** The header at index i is the last one before bp. */
  predicate LastBefore(fl: seq<nat>, i: nat, bp: nat) {
    && i < |fl| && Ascending(fl)
    && (forall j :: 0 <= j <= i ==> fl[j] < bp)
    && (forall j :: i < j < |fl| ==> bp < fl[j])
  }

  function After(fl: seq<nat>, k: nat): nat
    requires k < |fl|
  {
    if k + 1 < |fl| then fl[k+1] else fl[0]
  }

  /** free stops its search at p. */
  predicate Stops(p: nat, q: nat, bp: nat) {
    (bp > p && bp < q) || (p >= q && (bp > p || bp < q))
  }

  lemma StopsIff(fl: seq<nat>, i: nat, k: nat, bp: nat)
    requires LastBefore(fl, i, bp) && k < |fl|
    ensures Stops(fl[k], After(fl, k), bp) <==> k == i
  {
  }

  lemma Place(base: nat, a: seq<Block>, b: Block, c: seq<Block>, brk: nat)
    requires Tiles(base + 1, a + [b] + c, brk) && !b.free
    ensures var fl, i := [base] + FreeAddrs(a + [b] + c), |FreeAddrs(a)|;
            LastBefore(fl, i, b.addr) && fl[i] == Pred(base, a)
  {
    Around(base, a, b, c, brk);
    SplitTiles(base + 1, a, b, c, brk);
    SplitFree(a, b, c);
    assert FreeAddrs(a) + [] == FreeAddrs(a);
    Assoc([base], FreeAddrs(a), FreeAddrs(c));
    TwoRuns([base] + FreeAddrs(a), FreeAddrs(c), b.addr);
  }

  lemma TwoRuns(pre: seq<nat>, post: seq<nat>, x: nat)
    requires pre != [] && Ascending(pre) && Ascending(post) && (forall y :: y in pre ==> y < x) &&
             (forall y :: y in post ==> x < y)
    ensures LastBefore(pre + post, |pre| - 1, x)
  {
    var fl := pre + post;
    forall j | 0 <= j < |fl| ensures if j < |pre| then fl[j] == pre[j] < x else fl[j] == post[j - |pre|] > x {
      assert j < |pre| ==> pre[j] in pre;
      assert j >= |pre| ==> post[j - |pre|] in post;
    }
    forall j, k | 0 <= j < k < |fl| ensures fl[j] < fl[k] {
      assert j >= |pre| ==> post[j - |pre|] < post[k - |pre|];
    }
  }
}
