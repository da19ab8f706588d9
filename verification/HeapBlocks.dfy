/** The blocks that user/umalloc.c divides its memory into, in units of one header. */
module HeapBlocks {

  datatype Block = Block(addr: nat, size: nat, free: bool) {
    function End(): nat { addr + size }
  }

  function Sum(bs: seq<Block>): nat {
    if bs == [] then 0 else bs[0].size + Sum(bs[1..])
  }

  /** The addresses of the free blocks: the free list without its base. */
  function FreeAddrs(bs: seq<Block>): seq<nat> {
    if bs == [] then [] else FreeOf(bs[0]) + FreeAddrs(bs[1..])
  }

  function FreeOf(b: Block): seq<nat> {
    if b.free then [b.addr] else []
  }

  /** The blocks that malloc has handed out. */
  function Live(bs: seq<Block>): seq<Block> {
    if bs == [] then [] else LiveOf(bs[0]) + Live(bs[1..])
  }

  function LiveOf(b: Block): seq<Block> {
    if b.free then [] else [b]
  }

  /** The blocks lie one after the other, without overlap, between lo and hi. */
  predicate Tiles(lo: nat, bs: seq<Block>, hi: nat)
    decreases |bs|
  {
    if bs == [] then lo <= hi else lo <= bs[0].addr && 0 < bs[0].size && Tiles(bs[0].End(), bs[1..], hi)
  }

  /** No free block ends where another one begins. */
  predicate Apart(a: Block, b: Block) {
    a.free && b.free ==> a.End() != b.addr
  }

  predicate Coalesced(bs: seq<Block>) {
    |bs| > 1 ==> Apart(bs[0], bs[1]) && Coalesced(bs[1..])
  }

  function Top(lo: nat, bs: seq<Block>): nat {
    if bs == [] then lo else bs[|bs|-1].End()
  }

  // ---------- concatenation ----------

  lemma {:induction false} SumConcat(a: seq<Block>, b: seq<Block>)
    ensures Sum(a + b) == Sum(a) + Sum(b)
  {
    if a == [] { assert a + b == b; } else { assert (a + b)[1..] == a[1..] + b; SumConcat(a[1..], b); }
  }

  lemma Assoc<T>(x: seq<T>, y: seq<T>, z: seq<T>)
    ensures x + (y + z) == (x + y) + z
  {
  }

  lemma {:induction false} FreeConcat(a: seq<Block>, b: seq<Block>)
    ensures FreeAddrs(a + b) == FreeAddrs(a) + FreeAddrs(b)
  {
    if a == [] {
      assert a + b == b;
    } else {
      assert (a + b)[1..] == a[1..] + b;
      FreeConcat(a[1..], b);
      Assoc(FreeOf(a[0]), FreeAddrs(a[1..]), FreeAddrs(b));
    }
  }

  lemma {:induction false} LiveConcat(a: seq<Block>, b: seq<Block>)
    ensures Live(a + b) == Live(a) + Live(b)
  {
    if a == [] {
      assert a + b == b;
    } else {
      assert (a + b)[1..] == a[1..] + b;
      LiveConcat(a[1..], b);
      Assoc(LiveOf(a[0]), Live(a[1..]), Live(b));
    }
  }

  lemma {:induction false} TilesConcat(lo: nat, a: seq<Block>, b: seq<Block>, hi: nat)
    ensures Tiles(lo, a + b, hi) <==> Tiles(lo, a, Top(lo, a)) && Tiles(Top(lo, a), b, hi)
    decreases |a|
  {
    if a == [] {
      assert a + b == b;
    } else {
      assert (a + b)[1..] == a[1..] + b;
      TilesConcat(a[0].End(), a[1..], b, hi);
      assert Top(a[0].End(), a[1..]) == Top(lo, a);
    }
  }

  lemma {:induction false} CoalescedConcat(a: seq<Block>, b: seq<Block>)
    ensures Coalesced(a + b) <==> Coalesced(a) && Coalesced(b) && (a != [] && b != [] ==> Apart(a[|a|-1], b[0]))
  {
    if a == [] {
      assert a + b == b;
    } else if |a| == 1 {
      assert (a + b)[1..] == b;
    } else {
      assert (a + b)[1..] == a[1..] + b;
      CoalescedConcat(a[1..], b);
    }
  }

  // ---------- tiles, block by block ----------

  lemma {:induction false} TilesBound(lo: nat, bs: seq<Block>, hi: nat)
    requires Tiles(lo, bs, hi)
    ensures lo <= hi
    decreases |bs|
  {
    if bs != [] {
      TilesBound(bs[0].End(), bs[1..], hi);
    }
  }

  lemma {:induction false} TilesAt(lo: nat, bs: seq<Block>, hi: nat, i: nat)
    requires Tiles(lo, bs, hi) && i < |bs|
    ensures lo <= bs[i].addr && bs[i].End() <= hi && 0 < bs[i].size
    decreases |bs|
  {
    if i > 0 {
      TilesAt(bs[0].End(), bs[1..], hi, i - 1);
    } else {
      TilesBound(bs[0].End(), bs[1..], hi);
    }
  }

  /** Blocks do not overlap. */
  lemma {:induction false} TilesOrder(lo: nat, bs: seq<Block>, hi: nat, i: nat, j: nat)
    requires Tiles(lo, bs, hi) && i < j < |bs|
    ensures bs[i].End() <= bs[j].addr
    decreases |bs|
  {
    if i > 0 {
      TilesOrder(bs[0].End(), bs[1..], hi, i - 1, j - 1);
    } else {
      TilesAt(bs[0].End(), bs[1..], hi, j - 1);
    }
  }

  // ---------- free ----------

  predicate JoinsNext(b: Block, c: seq<Block>) {
    c != [] && c[0].free && b.End() == c[0].addr
  }

  predicate JoinsPrev(a: seq<Block>, b: Block) {
    a != [] && a[|a|-1].free && a[|a|-1].End() == b.addr
  }

  /** b, together with the free block that begins where it ends */
  function Merged(b: Block, c: seq<Block>): Block {
    Block(b.addr, b.size + (if JoinsNext(b, c) then c[0].size else 0), true)
  }

  function Rest(b: Block, c: seq<Block>): seq<Block> {
    if JoinsNext(b, c) then c[1..] else c
  }

  /** The blocks after free(b), where a are the blocks before b and c the blocks behind it. */
  function FreeBlock(a: seq<Block>, b: Block, c: seq<Block>): seq<Block> {
    var n := Merged(b, c);
    if JoinsPrev(a, b) then a[..|a|-1] + [Block(a[|a|-1].addr, a[|a|-1].size + n.size, true)] + Rest(b, c)
    else a + [n] + Rest(b, c)
  }

  lemma OneBlock(b: Block)
    ensures FreeAddrs([b]) == FreeOf(b) && Live([b]) == LiveOf(b)
  {
    assert [b][1..] == [];
  }

  lemma SplitTiles(lo: nat, a: seq<Block>, b: Block, c: seq<Block>, hi: nat)
    ensures Tiles(lo, a + [b] + c, hi) <==>
            Tiles(lo, a, Top(lo, a)) && Top(lo, a) <= b.addr && 0 < b.size && Tiles(b.End(), c, hi)
  {
    TilesConcat(lo, a + [b], c, hi);
    TilesConcat(lo, a, [b], b.End());
  }

  lemma SplitCoalesced(a: seq<Block>, b: Block, c: seq<Block>)
    ensures Coalesced(a + [b] + c) <==>
            && Coalesced(a) && Coalesced(c) && (a != [] ==> Apart(a[|a|-1], b)) && (c != [] ==> Apart(b, c[0]))
  {
    CoalescedConcat(a + [b], c);
    CoalescedConcat(a, [b]);
  }

  lemma SplitSum(a: seq<Block>, b: Block, c: seq<Block>)
    ensures Sum(a + [b] + c) == Sum(a) + b.size + Sum(c)
  {
    SumConcat(a + [b], c);
    SumConcat(a, [b]);
  }

  lemma SplitLive(a: seq<Block>, b: Block, c: seq<Block>)
    ensures Live(a + [b] + c) == Live(a) + LiveOf(b) + Live(c)
  {
    LiveConcat(a + [b], c);
    LiveConcat(a, [b]);
    OneBlock(b);
  }

  lemma SplitFree(a: seq<Block>, b: Block, c: seq<Block>)
    ensures FreeAddrs(a + [b] + c) == FreeAddrs(a) + FreeOf(b) + FreeAddrs(c)
  {
    FreeConcat(a + [b], c);
    FreeConcat(a, [b]);
    OneBlock(b);
  }

  /** Freeing keeps the blocks disjoint, ... */
  lemma FreeBlockTiles(lo: nat, a: seq<Block>, b: Block, c: seq<Block>, hi: nat)
    requires Tiles(lo, a + [b] + c, hi)
    ensures Tiles(lo, FreeBlock(a, b, c), hi)
  {
    SplitTiles(lo, a, b, c, hi);
    var n := Merged(b, c);
    assert Tiles(n.End(), Rest(b, c), hi);
    if JoinsPrev(a, b) {
      var a', p := a[..|a|-1], a[|a|-1];
      assert a == a' + [p] + [];
      SplitTiles(lo, a', p, [], Top(lo, a));
      SplitTiles(lo, a', Block(p.addr, p.size + n.size, true), Rest(b, c), hi);
    } else {
      SplitTiles(lo, a, n, Rest(b, c), hi);
    }
  }

  /** ... leaves no two free blocks side by side, ... */
  lemma FreeBlockCoalesced(lo: nat, a: seq<Block>, b: Block, c: seq<Block>, hi: nat)
    requires Tiles(lo, a + [b] + c, hi) && Coalesced(a + [b] + c)
    ensures Coalesced(FreeBlock(a, b, c))
  {
    SplitTiles(lo, a, b, c, hi);
    SplitCoalesced(a, b, c);
    var n := Merged(b, c);
    if JoinsPrev(a, b) {
      var a', p := a[..|a|-1], a[|a|-1];
      assert a == a' + [p] + [];
      SplitCoalesced(a', p, []);
      SplitCoalesced(a', Block(p.addr, p.size + n.size, true), Rest(b, c));
    } else {
      SplitCoalesced(a, n, Rest(b, c));
    }
  }

  /** ... keeps the total size, ... */
  lemma FreeBlockSum(a: seq<Block>, b: Block, c: seq<Block>)
    ensures Sum(FreeBlock(a, b, c)) == Sum(a + [b] + c)
  {
    SplitSum(a, b, c);
    var n := Merged(b, c);
    if JoinsPrev(a, b) {
      var a', p := a[..|a|-1], a[|a|-1];
      assert a == a' + [p] + [];
      SplitSum(a', p, []);
      SplitSum(a', Block(p.addr, p.size + n.size, true), Rest(b, c));
    } else {
      SplitSum(a, n, Rest(b, c));
    }
  }

  lemma LastFree(a: seq<Block>)
    requires a != [] && a[|a|-1].free
    ensures FreeAddrs(a) == FreeAddrs(a[..|a|-1]) + [a[|a|-1].addr] && Live(a) == Live(a[..|a|-1])
  {
    var a', p := a[..|a|-1], a[|a|-1];
    assert a == a' + [p];
    FreeConcat(a', [p]);
    LiveConcat(a', [p]);
    OneBlock(p);
  }

  lemma RestLive(b: Block, c: seq<Block>)
    ensures Live(Rest(b, c)) == Live(c)
  {
    assert c != [] ==> Live(c) == LiveOf(c[0]) + Live(c[1..]);
  }

  lemma FreeInMiddle(a: seq<Block>, n: Block, c: seq<Block>)
    requires n.free
    ensures Live(a + [n] + c) == Live(a) + Live(c)
  {
    SplitLive(a, n, c);
    assert Live(a) + [] == Live(a);
  }

  /** ... and takes just b from the live blocks. */
  lemma FreeBlockLive(a: seq<Block>, b: Block, c: seq<Block>)
    ensures Live(FreeBlock(a, b, c)) == Live(a) + Live(c)
  {
    RestLive(b, c);
    if JoinsPrev(a, b) {
      LastFree(a);
      FreeInMiddle(a[..|a|-1], Block(a[|a|-1].addr, a[|a|-1].size + Merged(b, c).size, true), Rest(b, c));
    } else {
      FreeInMiddle(a, Merged(b, c), Rest(b, c));
    }
  }

  /** What becomes of the free list. */
  lemma FreeBlockList(a: seq<Block>, b: Block, c: seq<Block>)
    ensures FreeAddrs(FreeBlock(a, b, c)) ==
            FreeAddrs(a) + (if JoinsPrev(a, b) then [] else [b.addr]) + FreeAddrs(Rest(b, c))
  {
    if JoinsPrev(a, b) {
      LastFree(a);
      SplitFree(a[..|a|-1], Block(a[|a|-1].addr, a[|a|-1].size + Merged(b, c).size, true), Rest(b, c));
      assert FreeAddrs(a) + [] == FreeAddrs(a);
    } else {
      SplitFree(a, Merged(b, c), Rest(b, c));
    }
  }

  lemma RestList(b: Block, c: seq<Block>)
    ensures FreeAddrs(c) == (if JoinsNext(b, c) then [c[0].addr] else []) + FreeAddrs(Rest(b, c))
  {
  }

  // ---------- malloc ----------

  /** The blocks after malloc took n units from the tail of the free block b. */
  function AllocBlock(a: seq<Block>, b: Block, c: seq<Block>, n: nat): seq<Block>
    requires n <= b.size
  {
    if b.size == n then a + [Block(b.addr, n, false)] + c
    else a + [Block(b.addr, b.size - n, true)] + ([Block(b.End() - n, n, false)] + c)
  }

  lemma AllocBlockOk(lo: nat, a: seq<Block>, b: Block, c: seq<Block>, hi: nat, n: nat)
    requires Tiles(lo, a + [b] + c, hi) && Coalesced(a + [b] + c) && b.free && 0 < n <= b.size
    ensures Tiles(lo, AllocBlock(a, b, c, n), hi) && Coalesced(AllocBlock(a, b, c, n))
  {
    SplitTiles(lo, a, b, c, hi);
    SplitCoalesced(a, b, c);
    var l := Block(b.End() - n, n, false);
    if b.size == n {
      SplitTiles(lo, a, l, c, hi);
      SplitCoalesced(a, l, c);
    } else {
      assert ([l] + c)[1..] == c;
      SplitTiles(lo, a, Block(b.addr, b.size - n, true), [l] + c, hi);
      SplitCoalesced(a, Block(b.addr, b.size - n, true), [l] + c);
    }
  }

  lemma AllocBlockSum(a: seq<Block>, b: Block, c: seq<Block>, n: nat)
    requires n <= b.size
    ensures Sum(AllocBlock(a, b, c, n)) == Sum(a + [b] + c)
  {
    SplitSum(a, b, c);
    var l := Block(b.End() - n, n, false);
    if b.size == n {
      SplitSum(a, l, c);
    } else {
      assert ([l] + c)[1..] == c;
      SplitSum(a, Block(b.addr, b.size - n, true), [l] + c);
    }
  }

  lemma AllocBlockLive(a: seq<Block>, b: Block, c: seq<Block>, n: nat)
    requires n <= b.size
    ensures Live(AllocBlock(a, b, c, n)) == Live(a) + [Block(b.End() - n, n, false)] + Live(c)
  {
    var l := Block(b.End() - n, n, false);
    if b.size == n {
      SplitLive(a, l, c);
    } else {
      assert ([l] + c)[1..] == c;
      SplitLive(a, Block(b.addr, b.size - n, true), [l] + c);
    }
  }

  lemma AllocBlockList(a: seq<Block>, b: Block, c: seq<Block>, n: nat)
    requires n <= b.size
    ensures FreeAddrs(AllocBlock(a, b, c, n)) == FreeAddrs(a) + (if b.size == n then [] else [b.addr]) + FreeAddrs(c)
  {
    var l := Block(b.End() - n, n, false);
    if b.size == n {
      SplitFree(a, l, c);
    } else {
      assert ([l] + c)[1..] == c;
      SplitFree(a, Block(b.addr, b.size - n, true), [l] + c);
    }
  }
}
