/** malloc, free and morecore of user/umalloc.c as they change the headers in memory. */
module Malloc {
  import opened HeapBlocks
  import opened FreeList
  import opened Umalloc
  import opened NextFit

  const HEADER := 16                // sizeof(Header)

  /** The units that malloc takes for nbytes bytes and a header. */
  function Units(nbytes: nat): (n: nat)
    ensures n > 0 && (n - 1) * 16 >= nbytes && (nbytes > 0 ==> (n - 2) * 16 < nbytes)
  {
    (nbytes + 16 - 1) / 16 + 1
  }

  class Allocator {
    const base: nat                 // the address of the static header base
    const limit: nat                // where sbrk starts to fail
    var freep: nat                  // 0 before the first malloc
    var next: map<nat, nat>         // s.ptr of the headers
    var size: map<nat, nat>         // s.size of the headers
    var brk: nat                    // the end of the process's memory
    ghost var blocks: seq<Block>
    ghost var obtained: nat         // the units that sbrk gave to morecore

    ghost function List(): seq<nat>
      reads this
    {
      [base] + FreeAddrs(blocks)
    }

    ghost predicate Valid()
      reads this
    {
      && 0 < base < brk && Sum(blocks) == obtained
      && if freep == 0 then blocks == [] else Listed(base, next, size, blocks, brk) && freep in List()
    }

    constructor (b: nat, end: nat, lim: nat)
      requires 0 < b < end
      ensures Valid() && blocks == [] && freep == 0
    {
      base, limit, brk := b, lim, end;
      freep, next, size := 0, map[], map[];
      blocks, obtained := [], 0;
    }

    /** free of the live block b, with the blocks a before it and c behind it */
    method Free(bp: nat, ghost a: seq<Block>, ghost b: Block, ghost c: seq<Block>)
      requires Valid() && freep != 0 && blocks == a + [b] + c && !b.free && b.addr == bp
      modifies `freep, `next, `size, `blocks
      ensures Valid() && blocks == FreeBlock(a, b, c) && freep == Pred(base, a)
    {
      Place(base, a, b, c, brk);
      var p := FindPlace(next, base, freep, bp, List(), |FreeAddrs(a)|);
      Facts(base, next, size, a, b, c, brk);
      ghost var n0, s0 := next, size;
      next, size := Splice(next, size, p, bp, base, a, b, c);
      FreedListed(base, n0, s0, a, b, c, brk, p, Onward(base, b, c),
                  if JoinsPrev(a, b) then Onward(base, b, c) else bp, size);
      FreeBlockSum(a, b, c);
      blocks := FreeBlock(a, b, c);
      freep := p;
    }

    /** Another part of the program calls sbrk. */
    method OtherSbrk(n: nat)
      requires Valid()
      modifies `brk
      ensures Valid() && brk == old(brk) + n
    {
      ListedHigher(base, next, size, blocks, brk, brk + n);
      brk := brk + n;
    }

    /** sbrk, in units */
    method Sbrk(n: nat) returns (ok: bool, p: nat)
      modifies `brk
      ensures ok <==> old(brk) + n <= limit
      ensures p == old(brk) && brk == if ok then p + n else p
    {
      p := brk;
      ok := brk + n <= limit;
      if ok {
        brk := brk + n;
      }
    }

    /** morecore: 0 when sbrk fails, else the header behind which the new memory can be found. */
    method MoreCore(nu: nat) returns (p: nat)
      requires Valid() && freep != 0
      modifies this
      ensures Valid() && freep != 0
      ensures p == 0 ==>
                blocks == old(blocks) && obtained == old(obtained) && freep == old(freep) && next == old(next) &&
                size == old(size)
      ensures (p == 0 <==> old(brk) + Core(nu) > limit) && brk == old(brk) + if p == 0 then 0 else Core(nu)
      ensures p != 0 ==>
                p == freep && blocks == FreeBlock(old(blocks), Block(old(brk), Core(nu), false), []) &&
                obtained == old(obtained) + Core(nu)
      ensures p != 0 ==> freep in next && (Holds(freep, nu) || Holds(next[freep], nu))
      ensures Live(blocks) == Live(old(blocks))
    {
      var n := if nu < 4096 then 4096 else nu;
      var ok, hp := Sbrk(n);
      if !ok {
        ListedHigher(base, next, size, blocks, hp, brk);
        return 0;
      }
      ghost var a, b := blocks, Block(hp, n, false);
      NewBlock(base, next, size, a, b, brk);
      size := size[hp := n];
      blocks := a + [b] + [];
      obtained := obtained + n;
      Free(hp, a, b, []);
      FreeBlockLive(a, b, []);
      assert Live(a) + [] == Live(a);
      NewFits(base, next, size, a, b, brk, freep);
      return freep;
    }

    /** Take n units from the free block b, which the list reaches through prevp. */
    method Take(prevp: nat, p: nat, n: nat, ghost a: seq<Block>, ghost b: Block, ghost c: seq<Block>) returns (h: nat)
      requires Valid() && freep != 0 && blocks == a + [b] + c && b.free && p == b.addr && prevp == Pred(base, a) &&
               0 < n <= b.size
      requires p in size && size[p] == b.size
      modifies `freep, `next, `size, `blocks
      ensures Valid() && freep != 0 && h == b.End() - n && blocks == AllocBlock(a, b, c, n)
    {
      AllocBlockSum(a, b, c, n);
      TakePred(base, a, b, c, brk, n);
      if size[p] == n {
        TakenListed(base, next, size, a, b, c, brk, n);
        next := next[prevp := next[p]];
        h := p;
      } else {
        CutListed(base, next, size, a, b, c, brk, n);
        size := size[p := size[p] - n];
        h := p + size[p];
        size := size[h := n];
      }
      freep := prevp;
      blocks := AllocBlock(a, b, c, n);
    }

    /** malloc has looked at the headers behind the free pointer, up to index i, and none of them fits; or it has
        found out that no block of bs fits, and has more memory. */
    ghost predicate Looking(n: nat, i: nat, f: nat, bs: seq<Block>, top: nat, got: nat, grown: bool)
      reads this
    {
      && Valid() && freep != 0 && i < |List()| && f < |List()| && freep == List()[f]
      && if grown then
           && !HasFit(bs, n) && Live(blocks) == Live(bs) && OnlyLast(blocks, n, brk)
           && brk == top + Core(n) <= limit && obtained == got + Core(n)
         else
           && blocks == bs && brk == top && obtained == got
           && Unfit(size, List(), f, Distance(Step(i, |List()|), f, |List()|) + 1, n)
    }

    /** malloc: the header of a new live block, or 0. The block is cut from the next free one that fits, behind
        the free pointer, or from new memory when none fits; at is its place among the live ones. */
    method Malloc(nbytes: nat) returns (h: nat, ghost at: nat, ghost taken: Block)
      requires Valid() && Core(Units(nbytes)) * HEADER < 0x8000_0000
      modifies this
      ensures Valid()
      ensures var n := Units(nbytes);
              && (h == 0 <==> !HasFit(old(blocks), n) && old(brk) + Core(n) > limit)
              && (HasFit(old(blocks), n) ==> IsNextFit(old(blocks), old(freep), n, taken) && h == taken.End() - n)
              && (h != 0 && !HasFit(old(blocks), n) ==> h == brk - n)
              && (if h == 0 || HasFit(old(blocks), n) then brk == old(brk) && obtained == old(obtained)
                  else brk == old(brk) + Core(n) && obtained == old(obtained) + Core(n))
      ensures h == 0 ==> blocks == old(blocks)
      ensures h != 0 ==> freep != 0 && at <= |Live(old(blocks))|
      ensures h != 0 ==>
              Live(blocks) == Live(old(blocks))[..at] + [Block(h, Units(nbytes), false)] + Live(old(blocks))[at..]
    {
      if freep == 0 {
        Init();
      }
      h, at, taken := Search(Units(nbytes));
    }

    /** The loop of malloc. */
    method Search(n: nat) returns (h: nat, ghost at: nat, ghost taken: Block)
      requires Valid() && freep != 0 && 0 < n
      modifies this
      ensures Valid() && freep != 0 && (h == 0 <==> !HasFit(old(blocks), n) && old(brk) + Core(n) > limit)
      ensures h == 0 ==> blocks == old(blocks) && brk == old(brk) && obtained == old(obtained)
      ensures h != 0 ==>
                && at <= |Live(old(blocks))|
                && Live(blocks) == Live(old(blocks))[..at] + [Block(h, n, false)] + Live(old(blocks))[at..]
                && if HasFit(old(blocks), n) then
                     && brk == old(brk) && obtained == old(obtained)
                     && IsNextFit(old(blocks), old(freep), n, taken) && h == taken.End() - n
                   else brk == old(brk) + Core(n) && obtained == old(obtained) + Core(n) && h == brk - n
    {
      at, taken := 0, Block(0, 0, false);
      var prevp := freep;
      ghost var f: nat :| 0 <= f < |List()| && List()[f] == freep;
      ghost var i: nat, grown := f, false;
      DistanceStep(f, f, |List()|);
      Header(base, next, size, blocks, brk, i);
      var p := next[prevp];
      while true
        invariant Looking(n, i, f, old(blocks), old(brk), old(obtained), grown) && (!grown ==> freep == old(freep))
        invariant prevp == List()[i] && p == After(List(), i) && (grown ==> Holds(freep, n) || Holds(p, n))
        decreases if grown then 0 else 1, Distance(Step(i, |List()|), f, |List()|)
      {
        ghost var k := Step(i, |List()|);
        LookAt(n, i, f, k, p, old(blocks), old(brk), old(obtained), grown);
        if size[p] >= n {
          h, at, taken := TakeFit(prevp, p, n, i, f, k, old(blocks), old(brk), old(obtained), grown);
          return;
        }
        if p == freep {
          p, k := Grow(n, i, f, k, old(blocks), old(brk), old(obtained));
          if p == 0 {
            return 0, 0, taken;
          }
          grown, f := true, k;
        }
        prevp := p;
        i := k;
        p := next[p];
      }
    }

    /** The header at index k does not fit either. */
    lemma PassOver(n: nat, i: nat, f: nat, k: nat, bs: seq<Block>, top: nat, got: nat, grown: bool)
      requires Looking(n, i, f, bs, top, got, grown) && k == Step(i, |List()|)
      requires List()[k] in size && size[List()[k]] < n
      ensures k != f ==> Looking(n, k, f, bs, top, got, grown)
      ensures k == f && !grown ==> !HasFit(bs, n)
    {
      if !grown {
        UnfitMore(size, List(), f, k, n);
        DistanceStep(k, f, |List()|);
        if k == f {
          NoneFits(base, size, blocks, f, n);
        }
      }
    }

    /** What the next header says, at index k. */
    lemma LookAt(n: nat, i: nat, f: nat, k: nat, p: nat, bs: seq<Block>, top: nat, got: nat, grown: bool)
      requires Looking(n, i, f, bs, top, got, grown) && k == Step(i, |List()|) && p == After(List(), i) && 0 < n
      ensures k < |List()| && p == List()[k] && p in size && p in next && next[p] == After(List(), k)
      ensures (p == freep <==> k == f) && (size[p] >= n ==> 0 < k)
      ensures size[p] < n && k != f ==>
              Looking(n, k, f, bs, top, got, grown) &&
                Distance(Step(k, |List()|), f, |List()|) < Distance(k, f, |List()|)
      ensures size[p] < n && k == f && !grown ==> !HasFit(bs, n)
    {
      Header(base, next, size, blocks, brk, k);
      DistanceStep(k, f, |List()|);
      HeadersDiffer(base, blocks, brk, k, f);
      if size[p] < n {
        PassOver(n, i, f, k, bs, top, got, grown);
      }
    }

    /** The header p fits, and its block is used. */
    method TakeFit(prevp: nat, p: nat, n: nat, ghost i: nat, ghost f: nat, ghost k: nat, ghost bs: seq<Block>,
            ghost top: nat, ghost got: nat, ghost grown: bool)
      returns (h: nat, ghost at: nat, ghost taken: Block)
      requires Looking(n, i, f, bs, top, got, grown) && k == Step(i, |List()|) && prevp == List()[i] && p == List()[k]
      requires 0 < k && 0 < n && p in size && size[p] >= n
      modifies `freep, `next, `size, `blocks
      ensures Valid() && freep != 0 && h != 0 && at <= |Live(bs)|
      ensures Live(blocks) == Live(bs)[..at] + [Block(h, n, false)] + Live(bs)[at..]
      ensures if HasFit(bs, n) then
                && !grown && brk == top && obtained == got
                && IsNextFit(bs, old(freep), n, taken) && h == taken.End() - n
              else grown && brk == top + Core(n) <= limit && obtained == got + Core(n) && h == brk - n
    {
      ghost var o, z := blocks, size;
      h, at, taken := TakeAt(prevp, p, n, k);
      if !grown {
        FirstFit(base, z, o, brk, f, k, n, taken);
      }
    }

    /** morecore, when no block fits, and the place k in the list where the search goes on */
    method Grow(n: nat, ghost i: nat, ghost f: nat, ghost j: nat, ghost bs: seq<Block>, ghost top: nat,
            ghost got: nat)
      returns (p: nat, ghost k: nat)
      requires Looking(n, i, f, bs, top, got, false) && !HasFit(bs, n)
      modifies this
      ensures p == 0 <==> top + Core(n) > limit
      ensures p == 0 ==> Valid() && freep != 0 && blocks == bs && brk == top && obtained == got
      ensures p != 0 ==> Looking(n, k, k, bs, top, got, true) && p == freep && p in next && next[p] == After(List(), k)
      ensures p != 0 ==> Holds(freep, n) || Holds(next[p], n)
    {
      k := 0;
      p := MoreCore(n);
      if p != 0 {
        k :| 0 <= k < |List()| && List()[k] == freep;
        Header(base, next, size, blocks, brk, k);
        GrownLast(bs, Block(top, Core(n), false), n);
      }
    }

    /** The first call of malloc makes the list of base alone. */
    method Init()
      requires Valid() && freep == 0
      modifies `freep, `next, `size
      ensures Valid() && freep != 0
    {
      freep := base;
      next := next[base := base];
      size := size[base := 0];
      FirstList(base, next, size, brk);
    }

    /** The block at p, found to be big enough, is used. */
    method TakeAt(prevp: nat, p: nat, n: nat, ghost k: nat) returns (h: nat, ghost at: nat, ghost taken: Block)
      requires Valid() && freep != 0 && 0 < k < |List()| && List()[k] == p && List()[k-1] == prevp && 0 < n &&
               p in size && size[p] >= n
      modifies `freep, `next, `size, `blocks
      ensures Valid() && freep != 0 && h != 0 && at <= |Live(old(blocks))|
      ensures Live(blocks) == Live(old(blocks))[..at] + [Block(h, n, false)] + Live(old(blocks))[at..]
      ensures taken in old(blocks) && Fitting(taken, n) && taken.addr == p && h == taken.End() - n
    {
      ghost var a, b, c := Locate(base, size, blocks, k);
      BaseKept(base, a, b, c, brk);
      h := Take(prevp, p, n, a, b, c);
      at, taken := |Live(a)|, b;
      AllocBlockLive(a, b, c, n);
      SplitLive(a, b, c);
      assert Live(a) + [] == Live(a);
    }

    /** The header p belongs to the list and its block has at least n units. */
    ghost predicate Holds(p: nat, n: nat)
      reads this
    {
      p in next && p in size && size[p] >= n && p in List()
    }
  }

  lemma HeadersDiffer(base: nat, bs: seq<Block>, brk: nat, k: nat, f: nat)
    requires Tiles(base + 1, bs, brk) && k < |[base] + FreeAddrs(bs)| && f < |[base] + FreeAddrs(bs)|
    ensures ([base] + FreeAddrs(bs))[k] == ([base] + FreeAddrs(bs))[f] <==> k == f
  {
    ListAscends(base, bs, brk);
  }

  lemma FirstList(base: nat, next: map<nat, nat>, size: map<nat, nat>, brk: nat)
    requires base < brk && base in next && next[base] == base && base in size && size[base] == 0
    ensures Listed(base, next, size, [], brk) && base in [base] + FreeAddrs([])
  {
    assert [base] + FreeAddrs([]) == [base];
  }

  /** The k-th header of the list: base is too small for any block. */
  lemma Header(base: nat, next: map<nat, nat>, size: map<nat, nat>, bs: seq<Block>, brk: nat, k: nat)
    requires Listed(base, next, size, bs, brk) && k < |[base] + FreeAddrs(bs)|
    ensures var fl := [base] + FreeAddrs(bs);
            fl[k] in next && next[fl[k]] == After(fl, k) && fl[k] in size && (k == 0 ==> size[fl[k]] == 0) &&
              fl[k] >= base
  {
    var fl := [base] + FreeAddrs(bs);
    PathAt(next, fl, base, k);
    if k > 0 {
      SizeListed(base, size, bs, k);
      AddrsWithin(base + 1, bs, brk);
      assert fl[k] in FreeAddrs(bs);
    }
  }

  function Core(nu: nat): nat {
    if nu < 4096 then 4096 else nu
  }

  lemma {:induction false} TilesHigher(lo: nat, bs: seq<Block>, hi: nat, top: nat)
    requires Tiles(lo, bs, hi) && hi <= top
    ensures Tiles(lo, bs, top)
    decreases |bs|
  {
    if bs != [] {
      TilesHigher(bs[0].End(), bs[1..], hi, top);
    }
  }

  lemma ListedHigher(base: nat, next: map<nat, nat>, size: map<nat, nat>, bs: seq<Block>, hi: nat, top: nat)
    requires hi <= top
    ensures Listed(base, next, size, bs, hi) ==> Listed(base, next, size, bs, top)
  {
    if Listed(base, next, size, bs, hi) {
      TilesHigher(base + 1, bs, hi, top);
    }
  }

  /** The block that sbrk gave, before it is freed. */
  lemma NewBlock(base: nat, next: map<nat, nat>, size: map<nat, nat>, a: seq<Block>, b: Block, brk: nat)
    requires Listed(base, next, size, a, b.addr) && base < b.addr && b.End() == brk && b.size > 0 && !b.free
    ensures Listed(base, next, size[b.addr := b.size], a + [b] + [], brk) && Sum(a + [b] + []) == Sum(a) + b.size
    ensures FreeAddrs(a + [b] + []) == FreeAddrs(a)
  {
    TilesTop(base + 1, a, b.addr);
    SplitTiles(base + 1, a, b, [], brk);
    SplitCoalesced(a, b, []);
    SizesKept(size, base + 1, a, b.addr, b.addr, b.size);
    SplitSizes(size[b.addr := b.size], a, b, []);
    SplitSum(a, b, []);
    SplitFree(a, b, []);
    assert FreeAddrs(a) + [] + [] == FreeAddrs(a);
  }

  lemma TilesTop(lo: nat, bs: seq<Block>, hi: nat)
    requires Tiles(lo, bs, hi)
    ensures Tiles(lo, bs, Top(lo, bs)) && Top(lo, bs) <= hi
  {
    TilesConcat(lo, bs, [], hi);
    assert bs + [] == bs;
  }

  /** After the new block was freed, the header before it or the one it merged into is big enough. */
  lemma NewFits(base: nat, next: map<nat, nat>, size: map<nat, nat>, a: seq<Block>, b: Block, brk: nat, p: nat)
    requires Listed(base, next, size, FreeBlock(a, b, []), brk) && p == Pred(base, a)
    ensures var fl := [base] + FreeAddrs(FreeBlock(a, b, []));
            && p in fl && p in next && p in size
            && (if JoinsPrev(a, b) then size[p] >= b.size
                else next[p] == b.addr && b.addr in fl && b.addr in next && b.addr in size && size[b.addr] >= b.size)
  {
    FreeBlockList(a, b, []);
    var fl := [base] + FreeAddrs(FreeBlock(a, b, []));
    var i := |FreeAddrs(a)|;
    assert fl[i] == p;
    PathAt(next, fl, base, i);
    if JoinsPrev(a, b) {
      LastFree(a);
      SplitSizes(size, a[..|a|-1], Block(a[|a|-1].addr, a[|a|-1].size + b.size, true), []);
    } else {
      assert fl[i+1] == b.addr;
      PathAt(next, fl, base, i + 1);
      SplitSizes(size, a, Block(b.addr, b.size, true), []);
      if i > 0 {
        SizeListed(base, size, a, i);
      }
    }
  }

  lemma TakePred(base: nat, a: seq<Block>, b: Block, c: seq<Block>, brk: nat, n: nat)
    requires Tiles(base + 1, a + [b] + c, brk) && n <= b.size
    ensures Pred(base, a) >= base && Pred(base, a) in [base] + FreeAddrs(AllocBlock(a, b, c, n))
  {
    Around(base, a, b, c, brk);
    AllocBlockList(a, b, c, n);
    assert Pred(base, a) in [base] + FreeAddrs(a);
  }

  /** The free block whose header is the k-th of the list. */
  lemma Locate(base: nat, size: map<nat, nat>, bs: seq<Block>, k: nat) returns (a: seq<Block>, b: Block, c: seq<Block>)
    requires Sizes(size, bs) && 0 < k <= |FreeAddrs(bs)|
    ensures bs == a + [b] + c && b.free && b.addr in size && size[b.addr] == b.size
    ensures ([base] + FreeAddrs(bs))[k] == b.addr && ([base] + FreeAddrs(bs))[k-1] == Pred(base, a)
  {
    var j := FreeIndex(bs, k - 1);
    FreeAround(bs, j, k - 1);
    a, b, c := bs[..j], bs[j], bs[j+1..];
    PrevOf(base, a, b, c, k);
    SplitSizes(size, a, b, c);
  }

  lemma PrevOf(base: nat, a: seq<Block>, b: Block, c: seq<Block>, k: nat)
    requires b.free && k == |FreeAddrs(a)| + 1
    ensures var fl := [base] + FreeAddrs(a + [b] + c); k < |fl| && fl[k] == b.addr && fl[k-1] == Pred(base, a)
  {
    SplitFree(a, b, c);
  }

  /** Every header of the list has a size word. */
  lemma SizeListed(base: nat, size: map<nat, nat>, a: seq<Block>, i: nat)
    requires Sizes(size, a) && 0 < i <= |FreeAddrs(a)|
    ensures ([base] + FreeAddrs(a))[i] in size
  {
    var j := FreeIndex(a, i - 1);
    FreeAround(a, j, i - 1);
    SplitSizes(size, a[..j], a[j], a[j+1..]);
  }

  /** Where the merged block points. */
  ghost function Onward(base: nat, b: Block, c: seq<Block>): nat {
    First(FreeAddrs(Rest(b, c)), base)
  }

  /** The search of free for the header p after which bp belongs. */
  method FindPlace(next: map<nat, nat>, base: nat, freep: nat, bp: nat, ghost fl: seq<nat>, ghost i: nat)
    returns (p: nat)
    requires LastBefore(fl, i, bp) && fl[0] == base && Path(next, fl, base) && freep in fl
    ensures p == fl[i] >= base
  {
    p := freep;
    ghost var k :| 0 <= k < |fl| && fl[k] == freep;
    PathAt(next, fl, base, k);
    while !(bp > p && bp < next[p])
      invariant 0 <= k < |fl| && p == fl[k] && p in next && next[p] == After(fl, k)
      decreases if k <= i then i - k else |fl| - k + i
    {
      StopsIff(fl, i, k, bp);
      if p >= next[p] && (bp > p || bp < next[p]) {
        break;
      }
      p := next[p];
      k := if k + 1 < |fl| then k + 1 else 0;
      PathAt(next, fl, base, k);
    }
    StopsIff(fl, i, k, bp);
  }

  /** Put bp behind p, merging it with its neighbours. */
  method Splice(next: map<nat, nat>, size: map<nat, nat>, p: nat, bp: nat, ghost base: nat, ghost a: seq<Block>,
          ghost b: Block, ghost c: seq<Block>)
    returns (n: map<nat, nat>, s: map<nat, nat>)
    requires bp == b.addr && p == Pred(base, a) && Known(base, next, size, a, b, c)
    ensures var m, z := Merged(b, c).size, Onward(base, b, c);
            && n == next[bp := z][p := if JoinsPrev(a, b) then z else bp]
            && s == if JoinsPrev(a, b) then size[bp := m][a[|a|-1].addr := a[|a|-1].size + m] else size[bp := m]
  {
    n, s := next, size;
    if bp + s[bp] == n[p] {
      s := s[bp := s[bp] + s[n[p]]];
      n := n[bp := n[n[p]]];
    } else {
      assert s == s[bp := b.size];
      n := n[bp := n[p]];
    }
    if p + s[p] == bp {
      s := s[p := s[p] + s[bp]];
      n := n[p := n[bp]];
    } else {
      n := n[p := bp];
    }
  }

  /** What free reads from memory. */
  ghost predicate Known(base: nat, next: map<nat, nat>, size: map<nat, nat>, a: seq<Block>, b: Block, c: seq<Block>) {
    var p := Pred(base, a);
    && b.addr in size && size[b.addr] == b.size && p in size && p in next && p != b.addr
    && (b.End() == next[p] <==> JoinsNext(b, c)) && (p + size[p] == b.addr <==> JoinsPrev(a, b))
    && (JoinsNext(b, c) ==>
           next[p] == c[0].addr && c[0].addr in size && size[c[0].addr] == c[0].size && c[0].addr in next &&
           c[0].addr != p && next[c[0].addr] == Onward(base, b, c))
    && (!JoinsNext(b, c) ==> next[p] == Onward(base, b, c))
    && (JoinsPrev(a, b) ==> p == a[|a|-1].addr && size[p] == a[|a|-1].size)
  }

  lemma Facts(base: nat, next: map<nat, nat>, size: map<nat, nat>, a: seq<Block>, b: Block, c: seq<Block>, brk: nat)
    requires Listed(base, next, size, a + [b] + c, brk) && !b.free
    ensures Known(base, next, size, a, b, c)
  {
    NextJoins(base, a, b, c, brk);
    SplitTiles(base + 1, a, b, c, brk);
    SplitSizes(size, a, b, c);
    PrevJoins(size, base, a, b);
    Around(base, a, b, c, brk);
    ListIs(base, a, b, c);
    RestPath(next, Front(base, a), Pred(base, a), b, c, base);
  }
}
