/** Every step on the page tables, as a change of the partial maps that the trees denote. */
module Translation {
  import opened Sv39
  import opened PageTable

  /** The same pages are roots, and the same leaves own the same pages. */
  ghost predicate SameLeaves(m: Mem, n: Mem) {
    && n.owner.Keys == m.owner.Keys
    && (forall p :: p in m.owner && (m.owner[p].User? || n.owner[p].User? || m.owner[p].Root? || n.owner[p].Root?) ==>
         n.owner[p] == m.owner[p])
  }

  ghost predicate SameAt(d: Maps, e: Maps, k: Page) {
    (k in e <==> k in d) && (k in d ==> e[k] == d[k])
  }

  lemma SameMap(d: Maps, e: Maps)
    requires forall k :: SameAt(d, e, k)
    ensures e == d
  {
    assert forall k :: SameAt(d, e, k) ==> ((k in e <==> k in d) && (k in d ==> e[k] == d[k]));
  }

  lemma SetMap(d: Maps, e: Maps, a: Page, l: Leaf)
    requires (forall k :: k != a ==> SameAt(d, e, k)) && a in e && e[a] == l
    ensures e == d[a := l]
  {
    assert forall k :: k != a && SameAt(d, e, k) ==> ((k in e <==> k in d) && (k in d ==> e[k] == d[k]));
  }

  lemma ClearMap(d: Maps, e: Maps, a: Page)
    requires (forall k :: k != a ==> SameAt(d, e, k)) && a !in e
    ensures e == d - {a}
  {
    assert forall k :: k != a && SameAt(d, e, k) ==> ((k in e <==> k in d) && (k in d ==> e[k] == d[k]));
  }

  lemma DenotesAt(m: Mem, k: Page)
    ensures k in Denotes(m) <==> Mapped(m, k)
    ensures k in Denotes(m) ==> Denotes(m)[k] == LeafAt(m, k)
  {
  }

  lemma SameLeaf(m: Mem, n: Mem, k: Page)
    requires SameMaps(m, n) && SameLeaves(m, n)
    ensures SameAt(Denotes(m), Denotes(n), k)
  {
    if IsRoot(m, k.root) {
      assert Lookup(n.pt, k.root, k.va) == Lookup(m.pt, k.root, k.va);
      assert LeafTable(m.pt, k.root, k.va) != 0 ==> LeafTable(n.pt, k.root, k.va) == LeafTable(m.pt, k.root, k.va);
    }
  }

  lemma SameDenotes(m: Mem, n: Mem)
    requires SameMaps(m, n) && SameLeaves(m, n)
    ensures Denotes(n) == Denotes(m)
  {
    forall k: Page ensures SameAt(Denotes(m), Denotes(n), k) {
      SameLeaf(m, n, k);
    }
    SameMap(Denotes(m), Denotes(n));
  }

  lemma AllocOk(m: Mem, d: Maps)
    requires Ok(m, d) && m.free != []
    ensures m.free[0] in m.owner && m.owner[m.free[0]] == Free && m.free[0] != 0
    ensures Ok(Alloc(m), d) && Alloc(m).owner.Keys == m.owner.Keys
  {
    OkIff(m, d);
    AllocInv(m);
    assert m.free[0] in m.free && PageOk(m, m.free[0]);
    SameDenotes(m, Alloc(m));
    OkIff(Alloc(m), d);
  }

  lemma ReleaseOk(m: Mem, d: Maps, p: nat)
    requires Ok(m, d) && p in m.owner && m.owner[p] == Kernel
    ensures Ok(Release(m, p), d) && Release(m, p).owner.Keys == m.owner.Keys
  {
    OkIff(m, d);
    ReleaseInv(m, p);
    SameDenotes(m, Release(m, p));
    OkIff(Release(m, p), d);
  }

  lemma AttachOk(m: Mem, d: Maps, q: nat, x: nat, p: nat, level: nat)
    requires Ok(m, d) && TableAt(m, q, level + 1) && level < 2 && x < NPTE && (level == 1 ==> x < NTOP) &&
             Entry(m.pt, q, x) == 0
    requires p in m.owner && m.owner[p] == Kernel
    ensures p != q
    ensures var n := Attach(m, q, x, p, level);
            && Ok(n, d) && n.owner.Keys == m.owner.Keys && TableAt(n, p, level)
            && Valid(Entry(n.pt, q, x)) && Pte2Pa(Entry(n.pt, q, x)) == p
  {
    OkIff(m, d);
    AttachInv(m, q, x, p, level);
    SameDenotes(m, Attach(m, q, x, p, level));
    OkIff(Attach(m, q, x, p, level), d);
  }

  lemma ChildOk(m: Mem, d: Maps, p: nat, level: nat, va: nat)
    requires Ok(m, d) && 0 < level <= 2 && TableAt(m, p, level)
    ensures var c := Child(m.pt, p, level, va);
            && (Valid(Entry(m.pt, p, PX(level, va))) <==> c != 0)
            && (c != 0 ==> c in m.owner && m.owner[c] == Table(p, PX(level, va), level - 1) && TableAt(m, c, level - 1))
  {
    OkIff(m, d);
    ChildOwner(m, p, level, va);
  }

  lemma RootTable(m: Mem, d: Maps, r: nat)
    requires Ok(m, d) && IsRoot(m, r)
    ensures TableAt(m, r, 2) && r != 0
  {
    OkIff(m, d);
    assert PageOk(m, r);
  }

  // ---------- leaves ----------

  /** Entry x of page q is the one that walk looks at for va on the given level. */
  ghost predicate Slot(pt: Tables, root: nat, va: nat, q: nat, x: nat, level: nat)
    decreases 2 - level
  {
    q != 0 && level <= 2 && x == PX(level, va) &&
    if level == 2 then q == root else exists p, y ::
        Slot(pt, root, va, p, y, level + 1) && Valid(Entry(pt, p, y)) && q == Pte2Pa(Entry(pt, p, y))
  }

  const LEAF := 0

  lemma SlotIs(pt: Tables, root: nat, va: nat, q: nat, x: nat)
    requires root != 0
    ensures Slot(pt, root, va, q, x, LEAF) <==> q != 0 && q == LeafTable(pt, root, va) && x == PX(0, va)
  {
    var mid := Child(pt, root, 2, va);
    assert Slot(pt, root, va, root, PX(2, va), 2);
    assert mid != 0 ==> Slot(pt, root, va, mid, PX(1, va), 1);
  }

  lemma LeafIs(m: Mem, d: Maps, root: nat, va: nat)
    requires Ok(m, d) && IsRoot(m, root)
    ensures LeafTable(m.pt, root, va) != 0 ==>
              && TableAt(m, LeafTable(m.pt, root, va), 0)
              && Lookup(m.pt, root, va) == Entry(m.pt, LeafTable(m.pt, root, va), PX(0, va))
    ensures Page(root, va) in d <==> IsPage(va) && Lookup(m.pt, root, va) != 0
    ensures Page(root, va) in d ==>
              d[Page(root, va)] == Leaf(Lookup(m.pt, root, va), OwnsLeaf(m, root, va)) &&
                LeafBits(Flags(d[Page(root, va)].pte))
  {
    OkIff(m, d);
    if LeafTable(m.pt, root, va) != 0 {
      LeafOwner(m, root, va);
      var low := LeafTable(m.pt, root, va);
      assert PageOk(m, low) && EntryOk(m, low, PX(0, va), 0);
    }
  }

  /** What walk's callers read through the slot that it returns. */
  lemma SlotHolds(m: Mem, d: Maps, root: nat, va: nat, q: nat, x: nat)
    requires Ok(m, d) && IsRoot(m, root) && q == LeafTable(m.pt, root, va) && x == PX(0, va)
    ensures q != 0 ==> Slot(m.pt, root, va, q, x, LEAF) && TableAt(m, q, 0)
    ensures q != 0 ==> (Page(root, va) in d <==> IsPage(va) && Valid(m.pt[q][x]))
    ensures q != 0 && Page(root, va) in d ==> d[Page(root, va)].pte == m.pt[q][x] && LeafBits(Flags(m.pt[q][x]))
    ensures q == 0 ==> Page(root, va) !in d
  {
    LeafIs(m, d, root, va);
    RootTable(m, d, root);
    SlotIs(m.pt, root, va, q, x);
  }

  /** How the owners change with the leaf for va: it stops owning `was` and starts owning `now`. */
  ghost predicate Handover(m: Mem, n: Mem, q: nat, x: nat) {
    && n.owner.Keys == m.owner.Keys
    && (forall p :: p in m.owner ==> n.owner[p] == m.owner[p] || (m.owner[p] == Kernel && n.owner[p] == User(q, x))
                                     || (m.owner[p] == User(q, x) && n.owner[p] == Kernel))
  }

  /** The other leaves do not notice. */
  lemma OtherOwner(m: Mem, n: Mem, q: nat, x: nat, r: nat, w: nat)
    requires Handover(m, n, q, x) && Lookup(n.pt, r, w) == Lookup(m.pt, r, w)
    requires LeafTable(n.pt, r, w) == LeafTable(m.pt, r, w) && (LeafTable(m.pt, r, w) == q ==> PX(0, w) != x)
    ensures OwnsLeaf(n, r, w) <==> OwnsLeaf(m, r, w)
  {
  }

  lemma OtherLeaf(m: Mem, n: Mem, root: nat, va: nat, e: nat, q: nat, k: Page)
    requires q == LeafTable(m.pt, root, va) != 0 && k != Page(root, va)
    requires OneChange(m, n, root, va, e) && Handover(m, n, q, PX(0, va))
    requires IsRoot(m, k.root) && IsPage(k.va) && LeafTable(m.pt, k.root, k.va) == q ==> PX(0, k.va) != PX(0, va)
    ensures Mapped(n, k) <==> Mapped(m, k)
    ensures Mapped(m, k) ==> LeafAt(n, k) == LeafAt(m, k)
  {
    if IsRoot(m, k.root) && IsPage(k.va) {
      assert Lookup(n.pt, k.root, k.va) == Lookup(m.pt, k.root, k.va);
      if LeafTable(m.pt, k.root, k.va) != 0 {
        assert LeafTable(n.pt, k.root, k.va) == LeafTable(m.pt, k.root, k.va);
        OtherOwner(m, n, q, PX(0, va), k.root, k.va);
      }
    }
  }

  lemma OtherSlot(m: Mem, root: nat, va: nat, k: Page)
    requires Inv(m) && IsRoot(m, root) && IsPage(va) && LeafTable(m.pt, root, va) != 0 && k != Page(root, va)
    ensures IsRoot(m, k.root) && IsPage(k.va) && LeafTable(m.pt, k.root, k.va) == LeafTable(m.pt, root, va) ==>
            PX(0, k.va) != PX(0, va)
  {
    if IsRoot(m, k.root) && IsPage(k.va) && LeafTable(m.pt, k.root, k.va) == LeafTable(m.pt, root, va) &&
      PX(0, k.va) == PX(0, va) {
      LeafSlotsDistinct(m, k.root, k.va, root, va);
      assert false;
    }
  }

  lemma ThisLeaf(m: Mem, n: Mem, root: nat, va: nat, e: nat)
    requires IsRoot(m, root) && IsPage(va) && OneChange(m, n, root, va, e)
    ensures Page(root, va) in Denotes(n) <==> e != 0
    ensures e != 0 ==> Denotes(n)[Page(root, va)] == Leaf(e, OwnsLeaf(n, root, va))
  {
    assert Lookup(n.pt, root, va) == e;
  }

  lemma OneDenotes(m: Mem, n: Mem, root: nat, va: nat, e: nat, own: bool)
    requires Inv(m) && IsRoot(m, root) && IsPage(va) && LeafTable(m.pt, root, va) != 0
    requires OneChange(m, n, root, va, e) && Handover(m, n, LeafTable(m.pt, root, va), PX(0, va))
    requires e != 0 ==> own == OwnsLeaf(n, root, va)
    ensures e != 0 ==> Denotes(n) == Denotes(m)[Page(root, va) := Leaf(e, own)]
    ensures e == 0 ==> Denotes(n) == Denotes(m) - {Page(root, va)}
  {
    forall k: Page | k != Page(root, va) ensures SameAt(Denotes(m), Denotes(n), k) {
      DenotesAt(m, k);
      DenotesAt(n, k);
      OtherSlot(m, root, va, k);
      OtherLeaf(m, n, root, va, e, LeafTable(m.pt, root, va), k);
    }
    ThisLeaf(m, n, root, va, e);
    if e != 0 {
      SetMap(Denotes(m), Denotes(n), Page(root, va), Leaf(e, own));
    } else {
      ClearMap(Denotes(m), Denotes(n), Page(root, va));
    }
  }

  /** What the callers of mappages pass: a page kalloc'ed for the tree, or one that it does not
      own and that user code may not use. */
  ghost predicate Mappable(m: Mem, pa: nat, perm: nat, own: bool) {
    && perm < 1024 && LeafBits(WithV(perm))
    && if own then pa in m.owner && m.owner[pa] == Kernel else PageAligned(pa) && !UserBit(WithV(perm))
  }

  /** A leaf entry is filled in. */
  function MapLeaf(m: Mem, q: nat, x: nat, pa: nat, perm: nat, own: bool): Mem
    requires q in m.pt && x < |m.pt[q]| && perm < 1024
  {
    if own then MapOwned(m, q, x, pa, WithV(perm)) else SetEntry(m, q, x, MakePte(pa, WithV(perm)))
  }

  lemma MapOwnedDenotes(m: Mem, root: nat, va: nat, pa: nat, perm: nat)
    requires Inv(m) && IsRoot(m, root) && IsPage(va) && LeafTable(m.pt, root, va) != 0 &&
             Lookup(m.pt, root, va) == 0 && Mappable(m, pa, perm, true)
    ensures TableAt(m, LeafTable(m.pt, root, va), 0)
    ensures var n := MapOwned(m, LeafTable(m.pt, root, va), PX(0, va), pa, WithV(perm));
            Inv(n) && Denotes(n) == Denotes(m)[Page(root, va) := Leaf(MakePte(pa, WithV(perm)), true)]
  {
    assert PageOk(m, pa);
    PteRoundTrip(pa, WithV(perm));
    MapOwnedInv(m, root, va, pa, WithV(perm));
    var n := MapOwned(m, LeafTable(m.pt, root, va), PX(0, va), pa, WithV(perm));
    NewLeaf(m, n, root, va, MakePte(pa, WithV(perm)));
    OneDenotes(m, n, root, va, MakePte(pa, WithV(perm)), true);
  }

  lemma NewLeaf(m: Mem, n: Mem, root: nat, va: nat, e: nat)
    requires IsRoot(m, root) && IsPage(va) && LeafTable(m.pt, root, va) != 0 && OneChange(m, n, root, va, e)
    ensures OwnsLeaf(n, root, va) <==>
              Pte2Pa(e) in n.owner && n.owner[Pte2Pa(e)] == User(LeafTable(m.pt, root, va), PX(0, va))
  {
    assert Lookup(n.pt, root, va) == e && LeafTable(n.pt, root, va) == LeafTable(m.pt, root, va);
  }

  lemma SharedLeaf(m: Mem, n: Mem, root: nat, va: nat, pa: nat, e: nat)
    requires Inv(m) && IsRoot(m, root) && IsPage(va) && LeafTable(m.pt, root, va) != 0 && Lookup(m.pt, root, va) == 0
    requires Pte2Pa(e) == pa && OneChange(m, n, root, va, e) && n.owner == m.owner
    ensures !OwnsLeaf(n, root, va)
  {
    EmptyOwnsNothing(m, root, va, pa);
    NewLeaf(m, n, root, va, e);
  }

  lemma MapSharedDenotes(m: Mem, n: Mem, root: nat, va: nat, pa: nat, e: nat)
    requires Inv(m) && IsRoot(m, root) && IsPage(va) && LeafTable(m.pt, root, va) != 0 && Lookup(m.pt, root, va) == 0
    requires Pte2Pa(e) == pa && OneChange(m, n, root, va, e) && n.owner == m.owner && e != 0
    ensures Denotes(n) == Denotes(m)[Page(root, va) := Leaf(e, false)]
  {
    SharedLeaf(m, n, root, va, pa, e);
    OneDenotes(m, n, root, va, e, false);
  }

  lemma EmptyOwnsNothing(m: Mem, root: nat, va: nat, pa: nat)
    requires Inv(m) && IsRoot(m, root) && LeafTable(m.pt, root, va) != 0 && Lookup(m.pt, root, va) == 0
    ensures pa in m.owner ==> m.owner[pa] != User(LeafTable(m.pt, root, va), PX(0, va))
  {
    if pa in m.owner {
      assert PageOk(m, pa);
    }
  }

  lemma MapLeafOk(m: Mem, d: Maps, root: nat, va: nat, q: nat, x: nat, pa: nat, perm: nat, own: bool, l: Leaf)
    requires Ok(m, d) && IsRoot(m, root) && IsPage(va) && Slot(m.pt, root, va, q, x, LEAF) && TableAt(m, q, 0) &&
             x < NPTE
    requires Page(root, va) !in d && Mappable(m, pa, perm, own) && l == Leaf(MakePte(pa, WithV(perm)), own)
    ensures Ok(MapLeaf(m, q, x, pa, perm, own), d[Page(root, va) := l])
  {
    LeafIs(m, d, root, va);
    RootTable(m, d, root);
    SlotIs(m.pt, root, va, q, x);
    OkIff(m, d);
    if own {
      MapOwnedDenotes(m, root, va, pa, perm);
    } else {
      var n := MapLeaf(m, LeafTable(m.pt, root, va), PX(0, va), pa, perm, own);
      MapSharedInv(m, n, root, va, pa, WithV(perm), l.pte);
      MapSharedDenotes(m, n, root, va, pa, l.pte);
    }
    OkIff(MapLeaf(m, LeafTable(m.pt, root, va), PX(0, va), pa, perm, own), d[Page(root, va) := l]);
  }

  lemma UnmapDenotes(m: Mem, root: nat, va: nat)
    requires Inv(m) && IsRoot(m, root) && IsPage(va) && LeafTable(m.pt, root, va) != 0
    ensures TableAt(m, LeafTable(m.pt, root, va), 0)
    ensures var n := Unmap(m, LeafTable(m.pt, root, va), PX(0, va));
            Inv(n) && Denotes(n) == Denotes(m) - {Page(root, va)}
  {
    UnmapInv(m, root, va);
    OneDenotes(m, Unmap(m, LeafTable(m.pt, root, va), PX(0, va)), root, va, 0, false);
  }

  lemma UnmapOwner(m: Mem, root: nat, va: nat)
    requires Inv(m) && IsRoot(m, root) && LeafTable(m.pt, root, va) != 0 && TableAt(m, LeafTable(m.pt, root, va), 0)
    ensures Unmap(m, LeafTable(m.pt, root, va), PX(0, va)).owner ==
            if OwnsLeaf(m, root, va) then m.owner[Pte2Pa(Lookup(m.pt, root, va)) := Kernel] else m.owner
  {
  }

  /** A leaf entry is cleared. */
  lemma UnmapOk(m: Mem, d: Maps, root: nat, va: nat)
    requires Ok(m, d) && IsRoot(m, root) && Page(root, va) in d
    ensures var q, pa := LeafTable(m.pt, root, va), Pte2Pa(d[Page(root, va)].pte);
            && TableAt(m, q, 0) && Ok(Unmap(m, q, PX(0, va)), d - {Page(root, va)})
            && Unmap(m, q, PX(0, va)).owner == (if d[Page(root, va)].own then m.owner[pa := Kernel] else m.owner)
            && (d[Page(root, va)].own ==> pa in m.owner && m.owner[pa].User?)
  {
    LeafIs(m, d, root, va);
    UnmapOwner(m, root, va) by { OkIff(m, d); }
    UnmapSound(m, d, root, va);
  }

  lemma UnmapSound(m: Mem, d: Maps, root: nat, va: nat)
    requires Ok(m, d) && IsRoot(m, root) && IsPage(va) && LeafTable(m.pt, root, va) != 0
    ensures TableAt(m, LeafTable(m.pt, root, va), 0)
    ensures Ok(Unmap(m, LeafTable(m.pt, root, va), PX(0, va)), d - {Page(root, va)})
  {
    OkIff(m, d);
    UnmapDenotes(m, root, va);
    OkIff(Unmap(m, LeafTable(m.pt, root, va), PX(0, va)), d - {Page(root, va)});
  }

  /** No two leaves own the same physical page. */
  lemma OwnedOnce(m: Mem, d: Maps, j: Page, k: Page)
    requires Ok(m, d) && j in d && k in d && d[j].own && d[k].own && Pte2Pa(d[j].pte) == Pte2Pa(d[k].pte)
    ensures j == k
    ensures Pte2Pa(d[k].pte) in m.owner && m.owner[Pte2Pa(d[k].pte)].User?
  {
    OkIff(m, d);
    assert Mapped(m, j) && Mapped(m, k);
    LeafSlotsDistinct(m, j.root, j.va, k.root, k.va);
  }

  /** Clearing a leaf, with or without kfree of the page that it maps. */
  lemma ClearedOk(m: Mem, n: Mem, d: Maps, root: nat, va: nat, q: nat, x: nat, pa: nat, doFree: bool)
    requires Ok(m, d) && IsRoot(m, root) && Page(root, va) in d && Slot(m.pt, root, va, q, x, LEAF) &&
             TableAt(m, q, 0) && x < NPTE
    requires pa == Pte2Pa(d[Page(root, va)].pte) && (doFree ==> d[Page(root, va)].own)
    requires n == if doFree then Release(Unmap(m, q, x), pa) else Unmap(m, q, x)
    ensures Ok(n, d - {Page(root, va)})
    ensures n.owner == if d[Page(root, va)].own then m.owner[pa := if doFree then Free else Kernel] else m.owner
    ensures d[Page(root, va)].own ==> pa in m.owner && m.owner[pa].User?
  {
    RootTable(m, d, root);
    SlotIs(m.pt, root, va, q, x);
    UnmapOk(m, d, root, va);
    if doFree {
      ReleaseOk(Unmap(m, q, x), d - {Page(root, va)}, pa);
    }
  }

  // ---------- conservation ----------

  ghost function FreePages(m: Mem): set<nat> { set p | p in m.owner && m.owner[p].Free? }

  ghost function TablePages(m: Mem): set<nat> { set p | p in m.owner && IsTable(m.owner[p]) }

  ghost function UserPages(m: Mem): set<nat> { set p | p in m.owner && m.owner[p].User? }

  ghost function KernelPages(m: Mem): set<nat> { set p | p in m.owner && m.owner[p].Kernel? }

  lemma {:induction false} ListIsSet(l: seq<nat>, s: set<nat>)
    requires (forall i, j :: 0 <= i < j < |l| ==> l[i] != l[j]) && (forall p :: p in l <==> p in s)
    ensures |l| == |s|
  {
    if l != [] {
      var p := l[0];
      assert forall q :: q in l[1..] ==> q != p;
      ListIsSet(l[1..], s - {p});
    } else {
      assert s == {};
    }
  }

  lemma FreeCount(m: Mem)
    requires FreeListOk(m)
    ensures |m.free| == |FreePages(m)| && forall p :: p in m.free <==> p in FreePages(m)
  {
    ListIsSet(m.free, FreePages(m));
  }

  lemma Partition(m: Mem)
    ensures |FreePages(m)| + |TablePages(m)| + |UserPages(m)| + |KernelPages(m)| == |m.owner.Keys|
  {
    var f, t, u, k := FreePages(m), TablePages(m), UserPages(m), KernelPages(m);
    assert m.owner.Keys == f + t + u + k;
    assert f !! t && (f + t) !! u && (f + t + u) !! k;
  }

  /** The free list, the page tables, the user pages and the pages that the kernel holds are
      disjoint and make up all the pages that freerange handed out. */
  lemma Conservation(m: Mem, d: Maps)
    requires Ok(m, d)
    ensures |m.free| + |TablePages(m)| + |UserPages(m)| + |KernelPages(m)| == |m.owner.Keys|
    ensures forall p :: p in m.free <==> p in FreePages(m)
  {
    assert FreeListOk(m) by { OkIff(m, d); }
    FreeCount(m);
    Partition(m);
  }
}
