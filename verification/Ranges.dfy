/** Runs of consecutive virtual pages in the maps that page tables denote. */
module Ranges {
  import opened Blocks
  import opened Sv39
  import opened PageTable

  /** Page i of the run that starts at `first`. */
  function Nth(root: nat, first: nat, i: nat): Page {
    Page(root, first + i * 4096)
  }

  lemma NthDiffer(root: nat, first: nat, i: nat, j: nat)
    ensures Nth(root, first, i) == Nth(root, first, j) <==> i == j
  {
  }

  /** d with the leaves es at consecutive pages */
  ghost function AddLeaves(d: Maps, root: nat, first: nat, es: seq<Leaf>): Maps {
    if es == [] then d
    else AddLeaves(d, root, first, es[..|es|-1])[Nth(root, first, |es| - 1) := es[|es|-1]]
  }

  /** d without n consecutive pages */
  ghost function DropLeaves(d: Maps, root: nat, first: nat, n: nat): Maps {
    if n == 0 then d else DropLeaves(d, root, first, n - 1) - {Nth(root, first, n - 1)}
  }

  ghost predicate NoneMapped(d: Maps, root: nat, first: nat, n: nat) {
    n > 0 ==> NoneMapped(d, root, first, n - 1) && Nth(root, first, n - 1) !in d
  }

  ghost predicate AllMapped(d: Maps, root: nat, first: nat, n: nat) {
    n > 0 ==> AllMapped(d, root, first, n - 1) && Nth(root, first, n - 1) in d
  }

  /** The tree owns every page that the run maps. */
  ghost predicate AllOwned(d: Maps, root: nat, first: nat, n: nat) {
    n > 0 ==> AllOwned(d, root, first, n - 1) && (Nth(root, first, n - 1) in d ==> d[Nth(root, first, n - 1)].own)
  }

  /** The physical pages that the run maps and the tree owns. */
  ghost function OwnedPages(d: Maps, root: nat, first: nat, n: nat): set<nat> {
    if n == 0 then {}
    else
      var k := Nth(root, first, n - 1);
      OwnedPages(d, root, first, n - 1) + (if k in d && d[k].own then {Pte2Pa(d[k].pte)} else {})
  }

  lemma AddOne(d: Maps, root: nat, first: nat, es: seq<Leaf>, l: Leaf)
    ensures AddLeaves(d, root, first, es + [l]) == AddLeaves(d, root, first, es)[Nth(root, first, |es|) := l]
  {
    assert (es + [l])[..|es|] == es;
  }

  /** AddLeaves and DropLeaves, page by page. */
  lemma {:induction false} AddedAt(d: Maps, root: nat, first: nat, es: seq<Leaf>, i: nat)
    ensures Nth(root, first, i) in AddLeaves(d, root, first, es) <==> i < |es| || Nth(root, first, i) in d
    ensures Nth(root, first, i) in AddLeaves(d, root, first, es) ==>
              AddLeaves(d, root, first, es)[Nth(root, first, i)] == if i < |es| then es[i] else d[Nth(root, first, i)]
  {
    if es != [] {
      AddedAt(d, root, first, es[..|es|-1], i);
      NthDiffer(root, first, i, |es| - 1);
    }
  }

  lemma {:induction false} DroppedAt(d: Maps, root: nat, first: nat, n: nat, i: nat)
    ensures Nth(root, first, i) in DropLeaves(d, root, first, n) <==> i >= n && Nth(root, first, i) in d
    ensures Nth(root, first, i) in DropLeaves(d, root, first, n) ==>
            DropLeaves(d, root, first, n)[Nth(root, first, i)] == d[Nth(root, first, i)]
  {
    if n > 0 {
      DroppedAt(d, root, first, n - 1, i);
      NthDiffer(root, first, i, n - 1);
    }
  }

  /** Every other page is untouched. */
  lemma {:induction false} AddedElsewhere(d: Maps, root: nat, first: nat, es: seq<Leaf>, k: Page)
    requires forall i :: 0 <= i < |es| ==> k != Nth(root, first, i)
    ensures k in AddLeaves(d, root, first, es) <==> k in d
    ensures k in d ==> AddLeaves(d, root, first, es)[k] == d[k]
  {
    if es != [] {
      AddedElsewhere(d, root, first, es[..|es|-1], k);
    }
  }

  /** Dropping what was added gives back the old map. */
  lemma {:induction false} AddThenDrop(d: Maps, root: nat, first: nat, es: seq<Leaf>)
    requires NoneMapped(d, root, first, |es|)
    ensures DropLeaves(AddLeaves(d, root, first, es), root, first, |es|) == d
  {
    if es != [] {
      var n := |es| - 1;
      var a := AddLeaves(d, root, first, es[..n]);
      AddThenDrop(d, root, first, es[..n]);
      DropOther(a, root, first, n, Nth(root, first, n), es[n]);
      AddedAt(d, root, first, es[..n], n);
      DroppedAt(a, root, first, n, n);
    }
  }

  lemma {:induction false} DropOther(d: Maps, root: nat, first: nat, n: nat, k: Page, l: Leaf)
    requires forall i :: 0 <= i < n ==> k != Nth(root, first, i)
    ensures DropLeaves(d[k := l], root, first, n) == DropLeaves(d, root, first, n)[k := l]
  {
    if n > 0 {
      DropOther(d, root, first, n - 1, k, l);
      assert k != Nth(root, first, n - 1);
    }
  }

  /** After AddLeaves the run maps exactly the physical pages of the new leaves. */
  lemma {:induction false} AddedOwned(d: Maps, root: nat, first: nat, es: seq<Leaf>, n: nat)
    requires n <= |es| && forall i :: 0 <= i < |es| ==> es[i].own
    ensures AllMapped(AddLeaves(d, root, first, es), root, first, n) &&
            AllOwned(AddLeaves(d, root, first, es), root, first, n)
    ensures OwnedPages(AddLeaves(d, root, first, es), root, first, n) == set i | 0 <= i < n :: Pte2Pa(es[i].pte)
  {
    if n > 0 {
      AddedOwned(d, root, first, es, n - 1);
      AddedAt(d, root, first, es, n - 1);
    }
  }

  lemma {:induction false} NoneMappedAt(d: Maps, root: nat, first: nat, n: nat, i: nat)
    requires NoneMapped(d, root, first, n) && i < n
    ensures Nth(root, first, i) !in d
  {
    if i < n - 1 {
      NoneMappedAt(d, root, first, n - 1, i);
    }
  }

  lemma {:induction false} AllMappedAt(d: Maps, root: nat, first: nat, n: nat, i: nat)
    requires AllMapped(d, root, first, n) && i < n
    ensures Nth(root, first, i) in d
  {
    if i < n - 1 {
      AllMappedAt(d, root, first, n - 1, i);
    }
  }

  lemma {:induction false} AllOwnedAt(d: Maps, root: nat, first: nat, n: nat, i: nat)
    requires AllOwned(d, root, first, n) && i < n
    ensures Nth(root, first, i) in d ==> d[Nth(root, first, i)].own
  {
    if i < n - 1 {
      AllOwnedAt(d, root, first, n - 1, i);
    }
  }

  /** n consecutive physical pages with the same flags */
  ghost function Run(pa: nat, n: nat, perm: nat, own: bool): (es: seq<Leaf>)
    requires perm < 1024
    ensures |es| == n
  {
    if n == 0 then [] else Run(pa, n - 1, perm, own) + [Leaf(MakePte(pa + (n - 1) * 4096, WithV(perm)), own)]
  }

  lemma {:induction false} RunAt(pa: nat, n: nat, perm: nat, own: bool, i: nat)
    requires perm < 1024 && i < n
    ensures Flags(Run(pa, n, perm, own)[i].pte) == WithV(perm)
  {
    if i < n - 1 {
      RunAt(pa, n - 1, perm, own, i);
    } else {
      PteParts((pa + i * 4096) / 4096, WithV(perm), MakePte(pa + i * 4096, WithV(perm)));
    }
  }

  /** d arises from d0 by mapping n consecutive pages, none of which was mapped, to n consecutive
      physical pages. */
  ghost predicate Extended(d0: Maps, d: Maps, root: nat, first: nat, pa: nat, n: nat, perm: nat, own: bool)
    requires perm < 1024
  {
    if n == 0 then d == d0
    else
      var k := Nth(root, first, n - 1);
      k in d && d[k] == Leaf(MakePte(pa + (n - 1) * 4096, WithV(perm)), own) &&
        Extended(d0, d - {k}, root, first, pa, n - 1, perm, own)
  }

  /** One more page of a run, as mappages adds it. */
  lemma RunGrows(d0: Maps, d: Maps, e: Maps, root: nat, first: nat, pa: nat, n: nat, perm: nat, own: bool, a: nat,
          p: nat, l: Leaf)
    requires perm < 1024 && Extended(d0, d, root, first, pa, n, perm, own) && Page(root, a) !in d &&
             e == d[Page(root, a) := l]
    requires a == first + n * 4096 && p == pa + n * 4096 && l == Leaf(MakePte(p, WithV(perm)), own)
    ensures Extended(d0, e, root, first, pa, n + 1, perm, own)
  {
    assert e - {Page(root, a)} == d;
  }

  /** The next page of the run is mapped or not, as it was. */
  lemma ExtendedAt(d0: Maps, d: Maps, root: nat, first: nat, pa: nat, n: nat, perm: nat, own: bool)
    requires perm < 1024 && Extended(d0, d, root, first, pa, n, perm, own)
    ensures Nth(root, first, n) in d <==> Nth(root, first, n) in d0
  {
    ExtendedIs(d0, d, root, first, pa, n, perm, own);
    AddedAt(d0, root, first, Run(pa, n, perm, own), n);
  }

  /** What mappages adds, all at once. */
  lemma {:induction false} ExtendedIs(d0: Maps, d: Maps, root: nat, first: nat, pa: nat, n: nat, perm: nat, own: bool)
    requires perm < 1024 && Extended(d0, d, root, first, pa, n, perm, own)
    ensures d == AddLeaves(d0, root, first, Run(pa, n, perm, own)) && NoneMapped(d0, root, first, n)
  {
    if n > 0 {
      var k := Nth(root, first, n - 1);
      var e := d - {k};
      assert d == e[k := d[k]];
      ExtendedIs(d0, e, root, first, pa, n - 1, perm, own);
      AddedAt(d0, root, first, Run(pa, n - 1, perm, own), n - 1);
      AddOne(d0, root, first, Run(pa, n - 1, perm, own), Leaf(MakePte(pa + (n - 1) * 4096, WithV(perm)), own));
    }
  }

  /** The pages of S change hands. */
  ghost function Retag(owner: map<nat, Owner>, S: set<nat>, o: Owner): map<nat, Owner> {
    map p | p in owner :: if p in S then o else owner[p]
  }

  // ---------- page contents ----------

  type Data = map<nat, seq<byte>>

  function Fill(b: byte): (s: seq<byte>)
    ensures |s| == 4096
  {
    seq(4096, _ => b)
  }

  /** The contents of page p. */
  function Bytes(data: Data, p: nat): (s: seq<byte>)
    ensures |s| == 4096
  {
    if p in data && |data[p]| == 4096 then data[p] else Fill(0)
  }

  /** Only pages that were free have been overwritten. */
  ghost predicate DataKept(owner: map<nat, Owner>, a: Data, b: Data) {
    forall p :: p in owner && owner[p] != Free ==> Bytes(b, p) == Bytes(a, p)
  }

  /** kfree fills the pages that it takes. */
  ghost function Wiped(x: Data, d: Maps, root: nat, first: nat, n: nat): Data {
    if n == 0 then x
    else
      var k := Nth(root, first, n - 1);
      if k in d && d[k].own then Wiped(x, d, root, first, n - 1)[Pte2Pa(d[k].pte) := Fill(1)]
        else Wiped(x, d, root, first, n - 1)
  }

  lemma {:induction false} WipedAt(x: Data, d: Maps, root: nat, first: nat, n: nat, p: nat)
    ensures p !in OwnedPages(d, root, first, n) ==> Bytes(Wiped(x, d, root, first, n), p) == Bytes(x, p)
  {
    if n > 0 {
      WipedAt(x, d, root, first, n - 1, p);
    }
  }

  /** n pages of a run have been unmapped and the pages that the tree owned given to o: on the
      free list, filled with junk, or to the kernel. */
  ghost predicate Unmapped(d0: Maps, d: Maps, a0: map<nat, Owner>, a: map<nat, Owner>, x: Data, y: Data, root: nat,
          first: nat, n: nat, o: Owner)
  {
    && AllMapped(d0, root, first, n)
    && d == DropLeaves(d0, root, first, n)
    && a == Retag(a0, OwnedPages(d0, root, first, n), o)
    && y == if o == Free then Wiped(x, d0, root, first, n) else x
  }

  /** The page k is no longer mapped, and the physical page that its leaf owned went to o. */
  ghost predicate Left(d: Maps, e: Maps, a: map<nat, Owner>, b: map<nat, Owner>, x: Data, y: Data, k: Page, o: Owner) {
    && k in d && e == d - {k}
    && b == (if d[k].own then a[Pte2Pa(d[k].pte) := o] else a)
    && y == (if d[k].own && o == Free then x[Pte2Pa(d[k].pte) := Fill(1)] else x)
    && (d[k].own ==> Pte2Pa(d[k].pte) in a && a[Pte2Pa(d[k].pte)].User?)
  }

  /** One more page, as uvmunmap removes it. */
  lemma DropGrows(d0: Maps, d: Maps, e: Maps, a0: map<nat, Owner>, a: map<nat, Owner>, b: map<nat, Owner>,
                  x: Data, y: Data, z: Data, root: nat, first: nat, n: nat, o: Owner, k: Page)
    requires Unmapped(d0, d, a0, a, x, y, root, first, n, o) && k == Nth(root, first, n) && Left(d, e, a, b, y, z, k, o)
    ensures Unmapped(d0, e, a0, b, x, z, root, first, n + 1, o)
    ensures forall p :: p in a && a[p] == Root ==> p in b && b[p] == Root
  {
    DroppedAt(d0, root, first, n, n);
  }
}
