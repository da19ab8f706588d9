/** uvmcreate, freewalk and uvmfree of kernel/vm.c. */
module FreeWalk {
  import opened Sv39
  import opened PageTable
  import opened Translation
  import opened Ranges
  import opened Teardown
  import opened Vm

  /** uvmcreate: an empty address space, or 0. */
  method UvmCreate(v: Memory) returns (root: nat)
    requires v.Inv()
    modifies v
    ensures v.Inv() && v.maps == old(v.maps)
    ensures root == 0 <==> old(v.freelist) == []
    ensures root == 0 ==> v.View() == old(v.View())
    ensures root != 0 ==> root in old(v.owner) && old(v.owner)[root] == Free && v.owner == old(v.owner)[root := Root]
    ensures root != 0 ==> forall k :: k in v.maps ==> k.root != root
  {
    root := v.Kalloc();
    if root != 0 {
      NewRootOk(v.View(), v.maps, root);
      NoPages(v.View(), v.maps, root);
      v.pt := v.pt[root := ZeroTable()];
      v.owner := v.owner[root := Root];
    }
  }

  lemma NoPages(m: Mem, d: Maps, p: nat)
    requires Ok(m, d) && !IsRoot(m, p)
    ensures forall k :: k in d ==> k.root != p
  {
    OkIff(m, d);
  }

  /** One round of freewalk's loop. The entry is cleared before the child below it is freed. */
  method FreeEntry(v: Memory, p: nat, level: nat, i: nat, ghost m0: Mem) returns (r: Outcome)
    requires v.Inv() && level <= 2 && i < NPTE && Progress(m0, v.View(), p, level, i)
    modifies v
    ensures v.Inv() && v.maps == old(v.maps) && r != NoMem
    ensures r == Done ==> Progress(m0, v.View(), p, level, i + 1)
    ensures r == Panic ==> !Leafless(m0, p)
    decreases level, 0
  {
    LooseEntry(v.View(), v.maps, p, level, i);
    var pte := v.pt[p][i];
    if Valid(pte) && !LeafBits(Flags(pte)) {
      var c := Pte2Pa(pte);
      ghost var m := v.View();
      ghost var m1 := Detach(m, p, i, c, level - 1);
      DetachOk(m, v.maps, p, i, c, level - 1);
      v.pt := v.pt[p := Put(v.pt[p], i, 0)];
      v.owner := v.owner[c := Loose(level - 1)];
      r := FreeWalk(v, c, level - 1);
      if r == Done {
        ProgressChild(m0, m, m1, v.View(), p, level, i, c);
      } else if Leafless(m0, p) {
        LeafBelow(m0, m, m1, p, level, i, c);
        assert false;
      }
    } else if Valid(pte) {
      LeafFound(m0, v.View(), p, i);
      return Panic;
    } else {
      ProgressSkip(m0, v.View(), p, level, i);
      return Done;
    }
  }

  lemma LooseEntry(m: Mem, d: Maps, p: nat, level: nat, i: nat)
    requires Ok(m, d) && p in m.owner && m.owner[p] == Loose(level) && i < NPTE
    ensures level <= 2 && TableAt(m, p, level)
    ensures var e := m.pt[p][i];
            && Entry(m.pt, p, i) == (if Valid(e) then e else 0)
            && (Valid(e) && level == 0 ==> LeafBits(Flags(e)))
            && (Valid(e) && level > 0 ==>
                   !LeafBits(Flags(e)) && Pte2Pa(e) in m.owner && m.owner[Pte2Pa(e)] == Table(p, i, level - 1))
  {
    OkPage(m, d, p);
    assert EntryOk(m, p, i, level);
  }

  lemma LeafFound(m0: Mem, m: Mem, p: nat, i: nat)
    requires Progress(m0, m, p, 0, i) && Entry(m.pt, p, i) != 0
    ensures !Leafless(m0, p)
  {
    assert Entry(m0.pt, p, i) != 0;
    assert Under(m0.owner, p, p);
  }

  /** freewalk of the page p. It panics exactly when a leaf is left; otherwise it frees p and all
      page-table pages below it, and nothing else. */
  method FreeWalk(v: Memory, p: nat, level: nat) returns (r: Outcome)
    requires v.Inv() && p in v.owner && v.owner[p] == Loose(level) && level <= 2
    modifies v
    ensures v.Inv() && v.maps == old(v.maps) && r != NoMem
    ensures r == Done <==> Leafless(old(v.View()), p)
    ensures r == Done ==> ChildGone(old(v.View()), v.View(), p)
    decreases level, 1
  {
    ghost var m0 := v.View();
    ProgressNone(m0, p, level);
    LooseEntry(m0, v.maps, p, level, 0);
    var i := 0;
    while i < 512
      invariant 0 <= i <= 512 && v.Inv() && v.maps == old(v.maps) && Progress(m0, v.View(), p, level, i)
    {
      r := FreeEntry(v, p, level, i, m0);
      if r == Panic {
        return;
      }
      i := i + 1;
    }
    FreeTop(v, p, level, m0);
    r := Done;
  }

  /** kfree of an emptied page-table page */
  method FreeTop(v: Memory, p: nat, ghost level: nat, ghost m0: Mem)
    requires v.Inv() && Progress(m0, v.View(), p, level, NPTE) && TableAt(m0, p, level)
    modifies v
    ensures v.Inv() && v.maps == old(v.maps) && ChildGone(m0, v.View(), p)
  {
    ghost var m := v.View();
    OkIff(m, v.maps);
    AllGone(m0, m, Release(m, p), p, level);
    FreeLooseOk(m, v.maps, p);
    v.Push(p);
    v.owner := v.owner[p := Free];
  }

  // ---------- the whole address space ----------

  ghost predicate MapsNothing(d: Maps, root: nat) {
    forall k :: k in d ==> k.root != root
  }

  /** A page that the tree maps has its leaf on a level-0 page below the root. */
  lemma MappedIsLeaf(m: Mem, root: nat, k: Page)
    requires Inv(m) && IsRoot(m, root) && Mapped(m, k) && k.root == root
    ensures !Leafless(Retire(m, root), root)
  {
    var n := Retire(m, root);
    LeafOwner(m, root, k.va);
    var mid, low := Child(m.pt, root, 2, k.va), LeafTable(m.pt, root, k.va);
    assert Under(n.owner, root, root) && Under(n.owner, mid, root) && Under(n.owner, low, root);
    assert Entry(n.pt, low, PX(0, k.va)) != 0;
  }

  /** The two pages above a level-0 page of the tree. */
  lemma PathTo(m: Mem, root: nat, q: nat)
    requires Inv(m) && root in m.owner && m.owner[root] == Loose(2) && Under(m.owner, q, root) &&
             IsTable(m.owner[q]) && Level(m.owner[q]) == 0
    ensures m.owner[q].Table? && m.owner[q].idx < NPTE && m.owner[q].parent in m.owner
    ensures var mid := m.owner[q].parent;
            && Entry(m.pt, mid, m.owner[q].idx) == MakePte(q, PTE_V) && q != 0 && mid != 0
            && m.owner[mid].Table? && m.owner[mid].parent == root && m.owner[mid].idx < NTOP
            && Entry(m.pt, root, m.owner[mid].idx) == MakePte(mid, PTE_V)
  {
    assert PageOk(m, q) && PageOk(m, root);
    var mid := m.owner[q].parent;
    assert PageOk(m, mid) && Under(m.owner, mid, root);
    assert PageOk(m, m.owner[mid].parent) && Under(m.owner, m.owner[mid].parent, root);
    PteRoundTrip(mid, PTE_V);
    assert EntryOk(m, root, m.owner[mid].idx, 2);
  }

  lemma LeafIsMapped(m: Mem, root: nat, q: nat, x: nat)
    requires Inv(m) && IsRoot(m, root) && Under(Retire(m, root).owner, q, root) && q in m.owner
    requires IsTable(m.owner[q]) && Level(m.owner[q]) == 0 && Entry(m.pt, q, x) != 0
    ensures exists k :: Mapped(m, k) && k.root == root
  {
    var n := Retire(m, root);
    RetireInv(m, root);
    PathTo(n, root, q);
    var mid := n.owner[q].parent;
    assert PageOk(m, q);
    var va := Compose(n.owner[mid].idx, n.owner[q].idx, x);
    ComposeIs(n.owner[mid].idx, n.owner[q].idx, x, va);
    assert PageOk(m, mid);
    PteRoundTrip(mid, PTE_V);
    PteRoundTrip(q, PTE_V);
    assert Mapped(m, Page(root, va));
  }

  lemma LeaflessIff(m: Mem, d: Maps, root: nat)
    requires Ok(m, d) && IsRoot(m, root)
    ensures Leafless(Retire(m, root), root) <==> MapsNothing(d, root)
  {
    OkIff(m, d);
    var n := Retire(m, root);
    if Leafless(n, root) {
      forall k | k in d ensures k.root != root {
        if k.root == root {
          MappedIsLeaf(m, root, k);
        }
      }
    } else {
      var q :| Under(n.owner, q, root) && IsTable(n.owner[q]) && Level(n.owner[q]) == 0 && !Empty(n.pt, q);
      var x: nat :| Entry(n.pt, q, x) != 0;
      LeafIsMapped(m, root, q, x);
      var k :| Mapped(m, k) && k.root == root;
      assert k in d;
    }
  }

  /** freewalk of a root page */
  method FreeTree(v: Memory, root: nat) returns (r: Outcome)
    requires v.Inv() && IsRoot(v.View(), root)
    modifies v
    ensures v.Inv() && v.maps == Without(old(v.maps), root) && r != NoMem
    ensures r == Done <==> MapsNothing(old(v.maps), root)
    ensures r == Done ==> Taken(old(v.owner), v.owner, root)
  {
    ghost var m := v.View();
    RetireOk(m, v.maps, root);
    LeaflessIff(m, v.maps, root);
    v.owner := v.owner[root := Loose(2)];
    v.maps := Without(v.maps, root);
    r := FreeWalk(v, root, 2);
    if r == Done {
      TakenRetired(m.owner, Retire(m, root).owner, v.owner, root);
    }
  }

  lemma TakenRetired(o: map<nat, Owner>, o1: map<nat, Owner>, o2: map<nat, Owner>, root: nat)
    requires root in o && o[root] == Root && o1 == o[root := Loose(2)] && Taken(o1, o2, root)
    ensures Taken(o, o2, root)
  {
    forall q ensures Under(o1, q, root) <==> Under(o, q, root) {
      UnderRetired(o, o1, q, root);
    }
  }

  lemma {:induction false} UnderRetired(o: map<nat, Owner>, o1: map<nat, Owner>, q: nat, root: nat)
    requires root in o && o[root] == Root && o1 == o[root := Loose(2)]
    ensures Under(o1, q, root) <==> Under(o, q, root)
    decreases Depth(o, q)
  {
    if q in o && q != root && o[q].Table? && Depth(o, o[q].parent) < Depth(o, q) {
      UnderRetired(o, o1, o[q].parent, root);
    }
  }

  /** Every page that the tree maps lies below the address top. */
  ghost predicate AllBelow(d: Maps, root: nat, top: nat) {
    forall k :: k in d && k.root == root ==> k.va < top
  }

  /** The pages of the tree and the pages that it owned are free; all others are as they were. */
  ghost predicate Returned(o0: map<nat, Owner>, o: map<nat, Owner>, d0: Maps, root: nat, n: nat) {
    && o.Keys == o0.Keys
    && (forall p {:trigger Under(o0, p, root)} :: p in o0 ==> o[p] == if Under(o0, p, root) ||
         p in OwnedPages(d0, root, 0, n) then Free else o0[p])
  }

  lemma {:induction false} DroppedIff(d: Maps, root: nat, n: nat, k: Page)
    ensures k in DropLeaves(d, root, 0, n) <==> k in d && !(k.root == root && k.va % 4096 == 0 && k.va / 4096 < n)
    ensures k in DropLeaves(d, root, 0, n) ==> DropLeaves(d, root, 0, n)[k] == d[k]
  {
    if n > 0 {
      DroppedIff(d, root, n - 1, k);
      assert k == Nth(root, 0, n - 1) <==> k.root == root && k.va % 4096 == 0 && k.va / 4096 == n - 1;
    }
  }

  lemma BelowIff(m: Mem, d: Maps, root: nat, n: nat)
    requires Ok(m, d)
    ensures MapsNothing(DropLeaves(d, root, 0, n), root) <==> AllBelow(d, root, n * 4096)
  {
    OkIff(m, d);
    forall k: Page | k in d && k.root == root ensures k in DropLeaves(d, root, 0, n) <==> k.va >= n * 4096 {
      DroppedIff(d, root, n, k);
      AlignedIff(k.va);
      assert Mapped(m, k);
    }
    forall k: Page | k in DropLeaves(d, root, 0, n) ensures k in d {
      DroppedIff(d, root, n, k);
    }
  }

  lemma WithoutDropped(d: Maps, root: nat, n: nat)
    ensures Without(DropLeaves(d, root, 0, n), root) == Without(d, root)
  {
    forall k: Page ensures SameAt(Without(d, root), Without(DropLeaves(d, root, 0, n), root), k) {
      DroppedIff(d, root, n, k);
    }
    SameMap(Without(d, root), Without(DropLeaves(d, root, 0, n), root));
  }

  /** The pages that uvmunmap freed were no page-table pages. */
  lemma {:induction false} OwnedAreUser(m: Mem, d: Maps, root: nat, n: nat, p: nat)
    requires Ok(m, d) && p in OwnedPages(d, root, 0, n)
    ensures p in m.owner && m.owner[p].User?
  {
    var k := Nth(root, 0, n - 1);
    if k in d && d[k].own && p == Pte2Pa(d[k].pte) {
      OwnedOnce(m, d, k, k);
    } else {
      OwnedAreUser(m, d, root, n - 1, p);
    }
  }

  lemma {:induction false} UnderRetag(o: map<nat, Owner>, S: set<nat>, q: nat, root: nat)
    requires forall p :: p in S && p in o ==> o[p].User?
    ensures Under(Retag(o, S, Free), q, root) <==> Under(o, q, root)
    decreases Depth(o, q)
  {
    if q in o && q != root && o[q].Table? && Depth(o, o[q].parent) < Depth(o, q) {
      UnderRetag(o, S, o[q].parent, root);
    }
  }

  lemma AllReturned(m: Mem, d: Maps, o1: map<nat, Owner>, o2: map<nat, Owner>, root: nat, n: nat)
    requires Ok(m, d) && o1 == Retag(m.owner, OwnedPages(d, root, 0, n), Free) && Taken(o1, o2, root)
    ensures Returned(m.owner, o2, d, root, n)
  {
    forall p | p in OwnedPages(d, root, 0, n) ensures p in m.owner && m.owner[p].User? {
      OwnedAreUser(m, d, root, n, p);
    }
    forall p | p in m.owner
      ensures o2[p] == if Under(m.owner, p, root) || p in OwnedPages(d, root, 0, n) then Free else m.owner[p]
    {
      UnderRetag(m.owner, OwnedPages(d, root, 0, n), p, root);
      assert o2[p] == if Under(o1, p, root) then Free else o1[p];
    }
  }

  /** uvmfree of a process of sz bytes; n is its number of pages. */
  method UvmFree(v: Memory, root: nat, sz: nat, ghost n: nat) returns (r: Outcome)
    requires v.Inv() && IsRoot(v.View(), root) && sz <= MAXVA && n == PgRoundUp(sz) / 4096 &&
             AllOwned(v.maps, root, 0, n)
    modifies v
    ensures v.Inv() && r != NoMem
    ensures r == Done <==> AllMapped(old(v.maps), root, 0, n) && AllBelow(old(v.maps), root, n * 4096)
    ensures r == Done ==> v.maps == Without(old(v.maps), root) && Returned(old(v.owner), v.owner, old(v.maps), root, n)
  {
    ghost var m, d, x := v.View(), v.maps, v.data;
    var npages := PgRoundUp(sz) / 4096;
    r := Done;
    UnmappedNone(d, m.owner, x, root, 0);
    if sz > 0 {
      r := UnmapUser(v, root, npages, 0);
    }
    if r == Done {
      r := FreeRest(v, root, n, m, d, x);
    }
  }

  /** uvmunmap(pagetable, 0, npages, 1) */
  method UnmapUser(v: Memory, root: nat, npages: nat, ghost first: nat) returns (r: Outcome)
    requires v.Inv() && IsRoot(v.View(), root) && npages * 4096 < TWO64 && first == 0 &&
             AllOwned(v.maps, root, first, npages)
    modifies v
    ensures v.Inv() && r != NoMem && (r == Done <==> AllMapped(old(v.maps), root, first, npages))
    ensures r == Done ==>
            Unmapped(old(v.maps), v.maps, old(v.owner), v.owner, old(v.data), v.data, root, first, npages, Free)
  {
    RoundsAll(npages);
    r := v.UvmUnmap(root, 0, npages, true, npages);
  }

  /** freewalk, after the pages of the process have been unmapped */
  method FreeRest(v: Memory, root: nat, ghost n: nat, ghost m: Mem, ghost d: Maps, ghost x: Data) returns (r: Outcome)
    requires v.Inv() && Ok(m, d) && IsRoot(m, root) &&
             Unmapped(d, v.maps, m.owner, v.owner, x, v.data, root, 0, n, Free)
    modifies v
    ensures v.Inv() && r != NoMem && (r == Done <==> AllBelow(d, root, n * 4096))
    ensures r == Done ==> v.maps == Without(d, root) && Returned(m.owner, v.owner, d, root, n)
  {
    BelowIff(m, d, root, n);
    WithoutDropped(d, root, n);
    StillRoot(m, d, root, n);
    ghost var o1 := v.owner;
    r := FreeTree(v, root);
    if r == Done {
      AllReturned(m, d, o1, v.owner, root, n);
    }
  }

  lemma StillRoot(m: Mem, d: Maps, root: nat, n: nat)
    requires Ok(m, d) && IsRoot(m, root)
    ensures root !in OwnedPages(d, root, 0, n)
  {
    if root in OwnedPages(d, root, 0, n) {
      OwnedAreUser(m, d, root, n, root);
    }
  }
}
