/** The search of malloc (user/umalloc.c) through the circular free list: which block it takes, and when none. */
module NextFit {
  import opened HeapBlocks
  import opened FreeList
  import opened Umalloc

  predicate Fitting(b: Block, n: nat) {
    b.free && b.size >= n
  }

  predicate HasFit(bs: seq<Block>, n: nat) {
    exists b :: b in bs && Fitting(b, n)
  }

  /** From the address start on, and round from the end to the beginning, x comes before y. */
  predicate Before(start: nat, x: nat, y: nat) {
    if x > start then y <= start || x < y else x < y <= start
  }

  /** b is the first block behind start that fits. */
  predicate IsNextFit(bs: seq<Block>, start: nat, n: nat, b: Block) {
    b in bs && Fitting(b, n) && forall x :: x in bs && Fitting(x, n) ==> !Before(start, x.addr, b.addr)
  }

  // ---------- the circular list ----------

  /** The index after i of a circular list of n elements, the number of steps from k to f, and the index t steps
      before f. */
  function Step(i: nat, n: nat): nat {
    if i + 1 < n then i + 1 else 0
  }

  function Distance(k: nat, f: nat, n: nat): nat {
    if k <= f then f - k else if k < n then f + n - k else 0
  }

  function Back(f: nat, t: nat, n: nat): (k: nat)
    requires t < n && f < n
    ensures k < n && Distance(k, f, n) == t
  {
    if t <= f then f - t else f + n - t
  }

  lemma DistanceStep(k: nat, f: nat, n: nat)
    requires k < n && f < n
    ensures Distance(k, f, n) < n && Back(f, Distance(k, f, n), n) == k && (Distance(k, f, n) == 0 <==> k == f)
    ensures k != f ==> Distance(Step(k, n), f, n) + 1 == Distance(k, f, n)
    ensures Distance(Step(f, n), f, n) + 1 == n
  {
  }

  /** The headers at least t steps before index f do not fit. */
  predicate Unfit(size: map<nat, nat>, fl: seq<nat>, f: nat, t: nat, n: nat)
    requires f < |fl|
    decreases |fl| - t
  {
    t >= |fl| || (
      var x := fl[Back(f, t, |fl|)];
      x in size && size[x] < n && Unfit(size, fl, f, t + 1, n))
  }

  lemma {:induction false} UnfitAt(size: map<nat, nat>, fl: seq<nat>, f: nat, t: nat, n: nat, k: nat)
    requires f < |fl| && k < |fl| && Unfit(size, fl, f, t, n) && Distance(k, f, |fl|) >= t
    ensures fl[k] in size && size[fl[k]] < n
    decreases |fl| - t
  {
    DistanceStep(k, f, |fl|);
    if Distance(k, f, |fl|) > t {
      UnfitAt(size, fl, f, t + 1, n, k);
    }
  }

  /** One more header that does not fit. */
  lemma UnfitMore(size: map<nat, nat>, fl: seq<nat>, f: nat, k: nat, n: nat)
    requires f < |fl| && k < |fl| && Unfit(size, fl, f, Distance(k, f, |fl|) + 1, n)
    requires fl[k] in size && size[fl[k]] < n
    ensures Unfit(size, fl, f, Distance(k, f, |fl|), n)
    ensures k != f ==> Unfit(size, fl, f, Distance(Step(k, |fl|), f, |fl|) + 1, n)
  {
    DistanceStep(k, f, |fl|);
  }

  /** The header of a free block is in the list. */
  lemma BlockListed(base: nat, size: map<nat, nat>, bs: seq<Block>, b: Block) returns (m: nat)
    requires Sizes(size, bs) && b in bs && b.free
    ensures 0 < m < |[base] + FreeAddrs(bs)| && ([base] + FreeAddrs(bs))[m] == b.addr
    ensures b.addr in size && size[b.addr] == b.size
  {
    var j :| 0 <= j < |bs| && bs[j] == b;
    m := |FreeAddrs(bs[..j])| + 1;
    FreeAround(bs, j, m - 1);
    SplitSizes(size, bs[..j], bs[j], bs[j+1..]);
  }

  lemma ListAscends(base: nat, bs: seq<Block>, brk: nat)
    requires Tiles(base + 1, bs, brk)
    ensures Ascending([base] + FreeAddrs(bs))
  {
    AddrsWithin(base + 1, bs, brk);
    AscendCons([base], FreeAddrs(bs), base);
  }

  lemma RingOrder(fl: seq<nat>, f: nat, m: nat, k: nat)
    requires Ascending(fl) && f < |fl| && m < |fl| && k < |fl|
    ensures Before(fl[f], fl[m], fl[k]) <==> Distance(m, f, |fl|) > Distance(k, f, |fl|)
  {
    assert forall i, j :: 0 <= i < |fl| && 0 <= j < |fl| ==> (fl[i] < fl[j] <==> i < j);
  }

  /** When all headers after f, up to k, do not fit, the block of k is the next fit. */
  lemma FirstFit(base: nat, size: map<nat, nat>, bs: seq<Block>, brk: nat, f: nat, k: nat, n: nat, b: Block)
    requires Tiles(base + 1, bs, brk) && Sizes(size, bs) && f < |[base] + FreeAddrs(bs)|
    requires k < |[base] + FreeAddrs(bs)| && b in bs && Fitting(b, n) && ([base] + FreeAddrs(bs))[k] == b.addr
    requires Unfit(size, [base] + FreeAddrs(bs), f, Distance(k, f, |[base] + FreeAddrs(bs)|) + 1, n)
    ensures IsNextFit(bs, ([base] + FreeAddrs(bs))[f], n, b)
  {
    var fl := [base] + FreeAddrs(bs);
    ListAscends(base, bs, brk);
    forall x | x in bs && Fitting(x, n) ensures !Before(fl[f], x.addr, b.addr) {
      var m := BlockListed(base, size, bs, x);
      RingOrder(fl, f, m, k);
      if Distance(m, f, |fl|) > Distance(k, f, |fl|) {
        UnfitAt(size, fl, f, Distance(k, f, |fl|) + 1, n, m);
      }
    }
  }

  /** When no header fits there is no block that does. */
  lemma NoneFits(base: nat, size: map<nat, nat>, bs: seq<Block>, f: nat, n: nat)
    requires Sizes(size, bs) && f < |[base] + FreeAddrs(bs)| && Unfit(size, [base] + FreeAddrs(bs), f, 0, n)
    ensures !HasFit(bs, n)
  {
    if HasFit(bs, n) {
      var b :| b in bs && Fitting(b, n);
      var m := BlockListed(base, size, bs, b);
      UnfitAt(size, [base] + FreeAddrs(bs), f, 0, n, m);
    }
  }

  // ---------- new memory ----------

  /** At most the block that ends at top fits. */
  predicate OnlyLast(bs: seq<Block>, n: nat, top: nat) {
    forall x :: x in bs && Fitting(x, n) ==> x.End() == top
  }

  lemma GrownLast(a: seq<Block>, b: Block, n: nat)
    requires !HasFit(a, n)
    ensures OnlyLast(FreeBlock(a, b, []), n, b.End())
  {
  }
}
