/** kernel/kalloc.c and kernel/vm.c: the page allocator and the page-table routines. */
module Vm {
  import opened Blocks
  import opened Sv39
  import opened PageTable
  import opened Translation
  import opened Paths
  import opened Ranges
  import opened Growth

  /** How a routine ends: normally, for lack of a free page, or in a panic. */
  datatype Outcome = Done | NoMem | Panic

  /** The memory of the machine. */
  class Memory {
    const end: nat
    var pt: Tables
    var freelist: seq<nat>
    var data: Data
    ghost var owner: map<nat, Owner>
    ghost var maps: Maps

    ghost function View(): Mem
      reads this
    {
      Mem(pt, owner, freelist, end)
    }

    ghost predicate Inv()
      reads this
    {
      Ok(View(), maps)
    }

    /** The page-table pages that are missing on the path of a. */
    ghost function Lacks(root: nat, a: nat): nat
      reads this
    {
      |Lack(Present(pt, root), PlacesOf(a))|
    }

    /** To map n pages from first on, memory that is there, or new pages. */
    ghost function MapPlan(root: nat, first: nat, n: nat): Plan
      reads this
    {
      Plan(Present(pt, root), |freelist|, first, n, Vacant(maps, root, first), false, iset{})
    }

    ghost function GrowPlan(root: nat, first: nat, n: nat): Plan
      reads this
    {
      Plan(Present(pt, root), |freelist|, first, n, Vacant(maps, root, first), true, iset{})
    }

    /** A page that is mapped lacks nothing. */
    lemma MappedLacks(root: nat, a: nat)
      requires Inv() && IsRoot(View(), root)
      ensures Page(root, a) in maps ==> Lacks(root, a) == 0
    {
      if Page(root, a) in maps {
        MappedPresent(View(), maps, root, a);
      }
    }

    /** kinit: every whole page between the kernel and PHYSTOP goes to the free list. */
    constructor (kernelEnd: nat)
      requires 0 < kernelEnd <= PHYSTOP
      ensures Inv() && end == kernelEnd && maps == imap[]
      ensures owner.Keys == Given(kernelEnd) && forall p :: p in owner ==> owner[p] == Free
    {
      end := kernelEnd;
      pt, freelist, data := map[], [], map[];
      owner := map p | p in Given(kernelEnd) :: Kernel;
      maps := imap[];
      new;
      NothingYet(View());
      FreeRange();
    }

    /** freerange(end, PHYSTOP) */
    method FreeRange()
      requires Inv() && owner.Keys == Given(end) && forall p :: p in owner ==> owner[p] == Kernel
      modifies `freelist, `owner, `data
      ensures Inv() && owner.Keys == Given(end) && forall p :: p in owner ==> owner[p] == Free
    {
      Rounding(end);
      FirstPage(end);
      var p := PgRoundUp(end);
      while p + 4096 <= PHYSTOP
        invariant Inv() && PageAligned(p) && end <= p && owner.Keys == Given(end)
        invariant forall q :: q in owner ==> owner[q] == (if q < p then Free else Kernel)
      {
        NextPages(p);
        FreePage(p);
        p := p + 4096;
      }
      LastPage(p);
    }

    /** kalloc: a page, or 0. */
    method Kalloc() returns (p: nat)
      requires Inv()
      modifies `freelist, `owner, `data
      ensures Inv() && (p == 0 <==> old(freelist) == [])
      ensures p == 0 ==> freelist == [] && owner == old(owner) && data == old(data)
      ensures p != 0 ==> p in old(owner) && old(owner)[p] == Free && owner == old(owner)[p := Kernel]
      ensures p != 0 ==> owner.Keys == old(owner).Keys && data == old(data)[p := Fill(5)] &&
                         freelist == old(freelist)[1..]
    {
      if freelist == [] {
        return 0;
      }
      AllocOk(View(), maps);
      p := freelist[0];
      freelist := freelist[1..];
      data := data[p := Fill(5)];
      owner := owner[p := Kernel];
    }

    /** kfree, without the range check */
    method Push(p: nat)
      modifies `freelist, `data
      ensures freelist == [p] + old(freelist) && data == old(data)[p := Fill(1)]
    {
      data := data[p := Fill(1)];
      freelist := [p] + freelist;
    }

    /** kfree: a panic, or a page that the caller had got from kalloc is free. */
    method Kfree(p: nat) returns (panic: bool)
      requires Inv() && (InPool(p, end) ==> p in owner && owner[p] == Kernel)
      modifies `freelist, `owner, `data
      ensures Inv() && owner.Keys == old(owner).Keys && (panic <==> !InPool(p, end))
      ensures panic ==> View() == old(View()) && data == old(data)
      ensures !panic ==> owner == old(owner)[p := Free] && data == old(data)[p := Fill(1)]
    {
      if p % 4096 != 0 || p < end || p >= PHYSTOP {
        return true;
      }
      ReleaseOk(View(), maps, p);
      Push(p);
      owner := owner[p := Free];
      return false;
    }

    /** kfree of a page of the kernel does not panic. */
    method FreePage(p: nat)
      requires Inv() && p in owner && owner[p] == Kernel
      modifies `freelist, `owner, `data
      ensures Inv() && owner == old(owner)[p := Free] && owner.Keys == old(owner).Keys &&
              data == old(data)[p := Fill(1)]
    {
      InRange(View(), maps, p);
      AlignedIff(p);
      var panic := Kfree(p);
      assert !panic;
    }

    /** A page below the empty entry PX(level, va) of page p, or 0. */
    method NewTable(p: nat, level: nat, va: nat, ghost root: nat) returns (q: nat)
      requires Inv() && 0 < level <= 2 && TableAt(View(), p, level) && va < MAXVA && Child(pt, p, level, va) == 0
      requires IsRoot(View(), root) && p == PathPage(pt, root, va, level) != 0
      modifies `pt, `freelist, `owner, `data
      ensures Inv() && Took(old(owner), owner, {}) && DataKept(old(owner), old(data), data)
      ensures q == Child(pt, p, level, va)
      ensures q != 0 ==> TableAt(View(), q, level - 1) && |freelist| + 1 == |old(freelist)|
      ensures q == 0 ==> View() == old(View()) && freelist == []
      ensures q != 0 ==> Present(pt, root) == Plus(old(Present(pt, root)), PlacesAbove(va, level - 1))
    {
      var x := PX(level, va);
      ChildOk(View(), maps, p, level, va);
      q := Kalloc();
      if q != 0 {
        AttachOk(View(), maps, p, x, q, level - 1);
        ghost var m := View();
        Attach(p, x, q, level - 1);
        AttachPresent(m, maps, root, va, level, p, q, View());
      }
    }

    /** One level of walk: the page below entry PX(level, va) of page p, made if alloc asks for it. */
    method Descend(p: nat, level: nat, va: nat, alloc: bool, ghost root: nat) returns (q: nat)
      requires Inv() && 0 < level <= 2 && TableAt(View(), p, level) && va < MAXVA
      requires IsRoot(View(), root) && p == PathPage(pt, root, va, level) != 0
      modifies `pt, `freelist, `owner, `data
      ensures Inv() && Took(old(owner), owner, {}) && DataKept(old(owner), old(data), data)
      ensures q == Child(pt, p, level, va)
      ensures q != 0 ==> TableAt(View(), q, level - 1)
      ensures q == 0 ==> View() == old(View()) && (!alloc || freelist == [])
      ensures !alloc ==> View() == old(View()) && data == old(data)
      ensures q == 0 ==> NextOf(va, level) !in Present(pt, root)
      ensures q != 0 ==>
                && Present(pt, root) == Plus(old(Present(pt, root)), PlacesAbove(va, level - 1))
                && |freelist| + (if NextOf(va, level) in old(Present(pt, root)) then 0 else 1) == |old(freelist)|
    {
      var x := PX(level, va);
      ChildOk(View(), maps, p, level, va);
      PathPresent(View(), maps, root, va);
      if Valid(pt[p][x]) {
        return Pte2Pa(pt[p][x]);
      }
      if !alloc {
        return 0;
      }
      q := NewTable(p, level, va, root);
    }

    /** Clear page q and point entry x of page p at it. */
    method Attach(p: nat, x: nat, q: nat, ghost level: nat)
      requires p in pt && x < |pt[p]| && p != q
      modifies `pt, `owner
      ensures View() == PageTable.Attach(old(View()), p, x, q, level)
    {
      pt := pt[q := ZeroTable()];
      pt := pt[p := Put(pt[p], x, MakePte(q, PTE_V))];
      owner := owner[q := Table(p, x, level)];
    }

    /** walk: the leaf slot for va, as page and index; 0 stands for no page. */
    method Walk(root: nat, va: nat, alloc: bool) returns (r: Outcome, q: nat, x: nat)
      requires Inv() && IsRoot(View(), root)
      modifies `pt, `freelist, `owner, `data
      ensures Inv() && Took(old(owner), owner, {}) && DataKept(old(owner), old(data), data)
      ensures r == Panic <==> va >= MAXVA
      ensures r == Panic ==> Page(root, va) !in maps
      ensures r == Done ==> Slot(pt, root, va, q, x, LEAF) && TableAt(View(), q, 0) && x < NPTE
      ensures r == Done ==> (Page(root, va) in maps <==> IsPage(va) && Valid(pt[q][x]))
      ensures r == Done && Page(root, va) in maps ==> maps[Page(root, va)].pte == pt[q][x] && LeafBits(Flags(pt[q][x]))
      ensures r == NoMem ==> Page(root, va) !in maps && (!alloc || freelist == [])
      ensures !alloc || r == Panic ==> View() == old(View()) && data == old(data)
      ensures r == NoMem && alloc ==> |old(freelist)| < old(Lacks(root, va))
      ensures r == Done ==> |freelist| + old(Lacks(root, va)) == |old(freelist)|
      ensures r == Done ==> Present(pt, root) == Plus(old(Present(pt, root)), PlacesOf(va))
    {
      q, x := 0, 0;
      if va >= MAXVA {
        LeafIs(View(), maps, root, va);
        return Panic, 0, 0;
      }
      RootTable(View(), maps, root);
      q := root;
      var level := 2;
      while level > 0
        invariant 0 <= level <= 2 && Inv() && IsRoot(View(), root)
        invariant Took(old(owner), owner, {}) && DataKept(old(owner), old(data), data)
        invariant q == PathPage(pt, root, va, level) != 0 && TableAt(View(), q, level)
        invariant !alloc ==> View() == old(View()) && data == old(data)
        invariant Present(pt, root) == Plus(old(Present(pt, root)), PlacesAbove(va, level))
        invariant |freelist| + |Lack(old(Present(pt, root)), PlacesAbove(va, level))| == |old(freelist)|
      {
        ghost var m, d := View(), data;
        NextPlace(old(Present(pt, root)), va, level, Present(pt, root));
        var next := Descend(q, level, va, alloc, root);
        PathKept(m, View(), maps, root, va, level);
        KeptTrans(old(owner), m.owner, old(data), d, data);
        q := next;
        if q == 0 {
          NoPath(View(), maps, root, va, level);
          LackShort(old(Present(pt, root)), va, level);
          return NoMem, 0, 0;
        }
        level := level - 1;
      }
      SlotHolds(View(), maps, root, va, q, PX(0, va));
      return Done, q, PX(0, va);
    }

    /** One round of mappages: map page address a to pa. When `own`, pa was kalloc'ed for this
        tree, which owns it from then on. */
    method MapOne(root: nat, a: nat, pa: nat, perm: nat, ghost own: bool, ghost l: Leaf) returns (r: Outcome)
      requires Inv() && IsRoot(View(), root) && PageAligned(a) && Mappable(View(), pa, perm, own) &&
               l == Leaf(MakePte(pa, WithV(perm)), own)
      modifies `pt, `freelist, `owner, `data, `maps
      ensures Inv() && DataKept(old(owner), old(data), data)
      ensures Took(old(owner), owner, if own && r == Done then {pa} else {})
      ensures r == Done && own ==> owner[pa].User?
      ensures r == Done ==> IsPage(a) && Page(root, a) !in old(maps) && maps == old(maps)[Page(root, a) := l]
      ensures r == NoMem ==> maps == old(maps) && freelist == []
      ensures r == Panic <==> a >= MAXVA || Page(root, a) in old(maps)
      ensures r == NoMem ==> |old(freelist)| < old(Lacks(root, a))
      ensures r == Done ==> |freelist| + old(Lacks(root, a)) == |old(freelist)|
      ensures r == Done ==> Present(pt, root) == Plus(old(Present(pt, root)), PlacesOf(a))
    {
      var q, x;
      r, q, x := Walk(root, a, true);
      if r == Done {
        if Valid(pt[q][x]) {
          return Panic;
        }
        ghost var b := owner;
        LeafPresent(View(), maps, root, q, x, MakePte(pa, WithV(perm)),
          pt[q := Put(pt[q], x, MakePte(pa, WithV(perm)))]);
        SetLeaf(root, a, q, x, pa, perm, own, l);
        TookOne(old(owner), b, owner, pa, User(q, x), own);
      }
    }

    /** A leaf entry is filled in. */
    method SetLeaf(root: nat, a: nat, q: nat, x: nat, pa: nat, perm: nat, ghost own: bool, ghost l: Leaf)
      requires Inv() && IsRoot(View(), root) && IsPage(a) && Slot(pt, root, a, q, x, LEAF) && TableAt(View(), q, 0) &&
               x < NPTE
      requires Page(root, a) !in maps && Mappable(View(), pa, perm, own) && l == Leaf(MakePte(pa, WithV(perm)), own)
      modifies `pt, `owner, `maps
      ensures Inv() && maps == old(maps)[Page(root, a) := l]
      ensures owner == if own then old(owner)[pa := User(q, x)] else old(owner)
      ensures q in old(pt) && x < |old(pt)[q]| && pt == old(pt)[q := Put(old(pt)[q], x, MakePte(pa, WithV(perm)))]
    {
      MapLeafOk(View(), maps, root, a, q, x, pa, perm, own, l);
      pt := pt[q := Put(pt[q], x, MakePte(pa, WithV(perm)))];
      owner := if own then owner[pa := User(q, x)] else owner;
      maps := maps[Page(root, a) := l];
    }

    /** mappages of memory that the tree does not own: maps n pages from PGROUNDDOWN(va) on and
        stops early when a page-table page cannot be had. The end of the range is computed modulo
        2^64, as in C. */
    method MapPages(root: nat, va: nat, size: nat, pa: nat, perm: nat) returns (r: Outcome, ghost n: nat)
      requires Inv() && IsRoot(View(), root) && va < TWO64 && size < TWO64 && Mappable(View(), pa, perm, false)
      modifies `pt, `freelist, `owner, `data, `maps
      ensures Inv() && DataKept(old(owner), old(data), data) && Took(old(owner), owner, {})
      ensures r != Panic ==> Extended(old(maps), maps, root, PgRoundDown(va), pa, n, perm, false)
      ensures r == Done ==>
                size > 0 && n > 0 &&
                PgRoundDown(va) + (n - 1) * 4096 == PgRoundDown((va + size - 1) % 0x1_0000_0000_0000_0000) < MAXVA
      ensures r == NoMem ==> freelist == []
      ensures size == 0 ==> r == Panic
      ensures size > 0 ==>
                var first, last := PgRoundDown(va), PgRoundDown((va + size - 1) % 0x1_0000_0000_0000_0000);
                EndsAs(r, old(MapPlan(root, first, MapRounds(first, last))))
    {
      if size == 0 {
        return Panic, 0;
      }
      Rounding(va);
      Rounding((va + size - 1) % 0x1_0000_0000_0000_0000);
      r, n := MapRange(root, PgRoundDown(va), PgRoundDown((va + size - 1) % 0x1_0000_0000_0000_0000), pa, perm);
    }

    /** The loop of mappages. */
    method MapRange(root: nat, first: nat, last: nat, pa: nat, perm: nat) returns (r: Outcome, ghost n: nat)
      requires Inv() && IsRoot(View(), root) && PageAligned(first) && PageAligned(last) &&
               Mappable(View(), pa, perm, false)
      modifies `pt, `freelist, `owner, `data, `maps
      ensures Inv() && DataKept(old(owner), old(data), data) && Took(old(owner), owner, {})
      ensures r != Panic ==> Extended(old(maps), maps, root, first, pa, n, perm, false)
      ensures r == Done ==> n > 0 && first + (n - 1) * 4096 == last < MAXVA
      ensures r == NoMem ==> freelist == []
      ensures EndsAs(r, old(MapPlan(root, first, MapRounds(first, last))))
    {
      n := 0;
      var a, p := first, pa;
      ghost var b := MapPlan(root, first, MapRounds(first, last));
      Begins(b);
      while true
        invariant Inv() && IsRoot(View(), root) && Took(old(owner), owner, {}) && DataKept(old(owner), old(data), data)
        invariant PageAligned(a) && a == first + n * 4096 && PageAligned(p) && p == pa + n * 4096
        invariant Extended(old(maps), maps, root, first, pa, n, perm, false)
        invariant (first <= last ==> a <= last) && (n > 0 ==> a <= MAXVA) && GoesOn(b, Present(pt, root), |freelist|, n)
        decreases MAXVA + 4096 - a
      {
        MapRoundsAt(first, last, n, a);
        r := MapRound(root, a, p, perm, old(owner), old(data), old(maps), first, pa, n,
          Leaf(MakePte(p, WithV(perm)), false), b);
        if r != Done {
          return;
        }
        n := n + 1;
        if a == last {
          AllRounds(b, Present(pt, root), |freelist|);
          return;
        }
        PageBelow(a);
        a := a + 4096;
        p := p + 4096;
      }
    }

    /** One round of the loop of mappages. */
    method MapRound(root: nat, a: nat, p: nat, perm: nat, ghost o: map<nat, Owner>, ghost x: Data, ghost d: Maps,
                    ghost first: nat, ghost pa: nat, ghost n: nat, ghost l: Leaf, ghost plan: Plan)
      returns (r: Outcome)
      requires GoesOn(plan, Present(pt, root), |freelist|, n) && n < plan.n && first == plan.first && !plan.own
      requires plan.good == Vacant(d, root, first)
      requires Inv() && IsRoot(View(), root) && PageAligned(a) && Mappable(View(), p, perm, false)
      requires Took(o, owner, {}) && DataKept(o, x, data) && a == first + n * 4096 && p == pa + n * 4096
      requires Extended(d, maps, root, first, pa, n, perm, false) && l == Leaf(MakePte(p, WithV(perm)), false)
      modifies `pt, `freelist, `owner, `data, `maps
      ensures Inv() && DataKept(o, x, data) && Took(o, owner, {}) && IsRoot(View(), root)
      ensures r == Done ==> Extended(d, maps, root, first, pa, n + 1, perm, false) && a < MAXVA
      ensures r == NoMem ==> Extended(d, maps, root, first, pa, n, perm, false) && freelist == []
      ensures r == Panic <==> a >= MAXVA || Page(root, a) in old(maps)
      ensures if r == Done then GoesOn(plan, Present(pt, root), |freelist|, n + 1) else EndsAs(r, plan)
    {
      ghost var b, y, e := owner, data, maps;
      ghost var now, free := Present(pt, root), |freelist|;
      r := MapOne(root, a, p, perm, false, l);
      KeptTrans(o, b, x, y, data);
      ExtendedAt(d, e, root, first, pa, n, perm, false);
      RoundEnds(r, plan, now, free, n, a, Present(pt, root), |freelist|);
      if r == Done {
        RunGrows(d, e, maps, root, first, pa, n, perm, false, a, p, l);
      }
    }

    /** One round of uvmunmap. Its "not a leaf" panic cannot happen. */
    method UnmapOne(root: nat, a: nat, doFree: bool) returns (r: Outcome)
      requires Inv() && IsRoot(View(), root) && PageAligned(a)
      requires doFree && Page(root, a) in maps ==> maps[Page(root, a)].own
      modifies `pt, `freelist, `owner, `data, `maps
      ensures Inv() && (r == Done <==> Page(root, a) in old(maps)) && r != NoMem
      ensures r == Done ==>
              Left(old(maps), maps, old(owner), owner, old(data), data, Page(root, a), if doFree then Free else Kernel)
    {
      var q, x;
      r, q, x := Walk(root, a, false);
      if r != Done || !Valid(pt[q][x]) {
        return Panic;
      }
      if Flags(pt[q][x]) == PTE_V {
        assert false;
      }
      ClearLeaf(root, a, q, x, doFree);
    }

    /** Free the page behind the leaf, if asked to, and clear the leaf. */
    method ClearLeaf(root: nat, a: nat, q: nat, x: nat, doFree: bool)
      requires Inv() && IsRoot(View(), root) && Page(root, a) in maps && Slot(pt, root, a, q, x, LEAF)
      requires TableAt(View(), q, 0) && x < NPTE && pt[q][x] == maps[Page(root, a)].pte &&
               (doFree ==> maps[Page(root, a)].own)
      modifies `pt, `freelist, `owner, `data, `maps
      ensures Inv() &&
              Left(old(maps), maps, old(owner), owner, old(data), data, Page(root, a), if doFree then Free else Kernel)
    {
      ghost var m, pa := View(), Pte2Pa(maps[Page(root, a)].pte);
      ghost var n := if doFree then Release(Unmap(m, q, x), pa) else Unmap(m, q, x);
      ClearedOk(m, n, maps, root, a, q, x, pa, doFree);
      if doFree {
        Push(Pte2Pa(pt[q][x]));
      }
      pt := pt[q := Put(pt[q], x, 0)];
      owner := n.owner;
      maps := maps - {Page(root, a)};
    }

    /** uvmunmap; n is the number of pages that its loop visits. */
    method UvmUnmap(root: nat, va: nat, npages: nat, doFree: bool, ghost n: nat) returns (r: Outcome)
      requires Inv() && IsRoot(View(), root) && n == Rounds(va, npages) && (doFree ==> AllOwned(maps, root, va, n))
      modifies `pt, `freelist, `owner, `data, `maps
      ensures Inv() && r != NoMem && (r == Done <==> PageAligned(va) && AllMapped(old(maps), root, va, n))
      ensures r == Done ==>
              Unmapped(old(maps), maps, old(owner), owner, old(data), data, root, va, n,
                       if doFree then Free else Kernel)
    {
      AlignedIff(va);
      if va % 4096 != 0 {
        return Panic;
      }
      r := UnmapRange(root, va, (va + npages * 4096) % 0x1_0000_0000_0000_0000, doFree, n);
    }

    /** The loop of uvmunmap. */
    method UnmapRange(root: nat, va: nat, stop: nat, doFree: bool, ghost n: nat) returns (r: Outcome)
      requires Inv() && IsRoot(View(), root) && (doFree ==> AllOwned(maps, root, va, n)) && PageAligned(va)
      requires n == Steps(va, stop)
      modifies `pt, `freelist, `owner, `data, `maps
      ensures Inv() && r != NoMem && (r == Done <==> AllMapped(old(maps), root, va, n))
      ensures r == Done ==>
              Unmapped(old(maps), maps, old(owner), owner, old(data), data, root, va, n,
                       if doFree then Free else Kernel)
    {
      var a := va;
      ghost var i := 0;
      StepsAt(va, stop, 0);
      while a < stop
        invariant 0 <= i <= n && a == va + i * 4096 && Inv() && IsRoot(View(), root) && (a < stop <==> i < n)
        invariant Unmapped(old(maps), maps, old(owner), owner, old(data), data, root, va, i, if doFree then Free
                  else Kernel)
      {
        ghost var d, o, y := maps, owner, data;
        NextPage(va, 0, i);
        NextRound(old(maps), d, root, va, i, n, doFree, Page(root, a));
        r := UnmapOne(root, a, doFree);
        if r != Done {
          return;
        }
        DropGrows(old(maps), d, maps, old(owner), o, owner, old(data), y, data, root, va, i, if doFree then Free
          else Kernel, Page(root, a));
        a := a + 4096;
        i := i + 1;
        StepsAt(va, stop, i);
      }
      return Done;
    }

    /** The body of the loops in uvmalloc and uvmcopy: kalloc a page, set its contents, and map it
        at a (mappages of PGSIZE bytes goes round once); the page goes back when it cannot be mapped. */
    method AddPage(root: nat, a: nat, contents: seq<byte>, perm: nat) returns (r: Outcome, ghost l: Leaf)
      requires Inv() && IsRoot(View(), root) && PageAligned(a) && a < TWO64 && perm < 1024 && LeafBits(WithV(perm)) &&
               |contents| == 4096
      modifies `pt, `freelist, `owner, `data, `maps
      ensures Inv() && DataKept(old(owner), old(data), data)
      ensures r == Panic <==> old(freelist) != [] && (a >= MAXVA || Page(root, a) in old(maps))
      ensures r == NoMem ==> old(freelist) == [] || (a < MAXVA && |old(freelist)| < 1 + old(Lacks(root, a)))
      ensures r == Done ==> |freelist| + 1 + old(Lacks(root, a)) == |old(freelist)|
      ensures r == Done ==> Present(pt, root) == Plus(old(Present(pt, root)), PlacesOf(a))
      ensures r == NoMem ==> maps == old(maps) && Took(old(owner), owner, {})
      ensures r == Done ==>
                a < MAXVA && Page(root, a) !in old(maps) && maps == old(maps)[Page(root, a) := l] &&
                Flags(l.pte) == WithV(perm)
      ensures r == Done ==> Took(old(owner), owner, {Pte2Pa(l.pte)}) && NewPage(old(owner), owner, data, l, contents)
    {
      l := Leaf(0, false);
      var mem := NewFrame(contents);
      if mem == 0 {
        return NoMem, l;
      }
      ghost var b, y := owner, data;
      l := Leaf(MakePte(mem, WithV(perm)), true);
      assert Pte2Pa(l.pte) == mem && Flags(l.pte) == WithV(perm) by { PteRoundTrip(mem, WithV(perm)); }
      r := MapOne(root, a, mem, perm, true, l);
      if r == Done {
        TakenIn(old(owner), b, owner, old(data), y, data, mem, l, contents);
      }
      if r == NoMem {
        ghost var c, z := owner, data;
        FreePage(mem);
        PutBack(old(owner), b, c, old(data), y, z, mem, data);
      }
    }

    /** The same, as round k of a plan. */
    method PayPage(root: nat, a: nat, contents: seq<byte>, perm: nat, ghost plan: Plan, ghost k: nat)
      returns (r: Outcome, ghost l: Leaf)
      requires Inv() && IsRoot(View(), root) && PageAligned(a) && a < TWO64 && perm < 1024 && LeafBits(WithV(perm)) &&
               |contents| == 4096
      requires GoesOn(plan, Present(pt, root), |freelist|, k) && a == plan.first + k * 4096 && k < plan.n
      requires plan.own && k !in plan.early && (k in plan.good <==> a < MAXVA && Page(root, a) !in maps)
      modifies `pt, `freelist, `owner, `data, `maps
      ensures Inv() && DataKept(old(owner), old(data), data)
      ensures if r == Done then GoesOn(plan, Present(pt, root), |freelist|, k + 1) else EndsAs(r, plan)
      ensures r == NoMem ==> maps == old(maps) && Took(old(owner), owner, {})
      ensures r == Panic ==> a >= MAXVA || Page(root, a) in old(maps)
      ensures r == Done ==>
                a < MAXVA && Page(root, a) !in old(maps) && maps == old(maps)[Page(root, a) := l] &&
                Flags(l.pte) == WithV(perm)
      ensures r == Done ==> Took(old(owner), owner, {Pte2Pa(l.pte)}) && NewPage(old(owner), owner, data, l, contents)
    {
      MappedLacks(root, a);
      r, l := AddPage(root, a, contents, perm);
      RoundEnds(r, plan, old(Present(pt, root)), |old(freelist)|, k, a, Present(pt, root), |freelist|);
    }

    /** kalloc and fill the page; 0 when there is none. */
    method NewFrame(contents: seq<byte>) returns (p: nat)
      requires Inv() && |contents| == 4096
      modifies `freelist, `owner, `data
      ensures Inv() && DataKept(old(owner), old(data), data)
      ensures (p == 0 <==> old(freelist) == []) && (p == 0 ==> owner == old(owner))
      ensures p != 0 ==>
                freelist == old(freelist)[1..] && p in old(owner) && old(owner)[p] == Free &&
                owner == old(owner)[p := Kernel] && Bytes(data, p) == contents && PageAligned(p)
    {
      p := Kalloc();
      if p != 0 {
        InRange(View(), maps, p);
        data := data[p := contents];
      }
    }

    /** uvmdealloc; n is the number of pages between the two sizes. */
    method UvmDealloc(root: nat, oldsz: nat, newsz: nat, ghost first: nat, ghost n: nat) returns (r: Outcome, sz: nat)
      requires Inv() && IsRoot(View(), root) && oldsz <= MAXVA && first == PgRoundUp(newsz) && n == Excess(oldsz, newsz)
      requires AllOwned(maps, root, first, n)
      modifies `pt, `freelist, `owner, `data, `maps
      ensures Inv() && r != NoMem && (r == Done <==> AllMapped(old(maps), root, first, n))
      ensures sz == if newsz < oldsz then newsz else oldsz
      ensures r == Done ==> Unmapped(old(maps), maps, old(owner), owner, old(data), data, root, first, n, Free)
    {
      r := Done;
      UnmappedNone(maps, owner, data, root, first);
      if newsz >= oldsz {
        return Done, oldsz;
      }
      if PgRoundUp(newsz) < PgRoundUp(oldsz) {
        var npages := (PgRoundUp(oldsz) - PgRoundUp(newsz)) / 4096;
        ExcessIs(oldsz, newsz);
        r := UvmUnmap(root, PgRoundUp(newsz), npages, true, n);
      }
      return r, newsz;
    }

    /** uvmalloc: sz is the result that the C function returns, 0 for an error. */
    method UvmAlloc(root: nat, oldsz: nat, newsz: nat, xperm: nat) returns (r: Outcome, sz: nat, ghost es: seq<Leaf>)
      requires Inv() && IsRoot(View(), root) && oldsz <= MAXVA && newsz < TWO64 &&
               xperm in {0, PTE_W, PTE_X, PTE_W + PTE_X}
      modifies `pt, `freelist, `owner, `data, `maps
      ensures Inv()
      ensures newsz < oldsz ==>
                r == Done && sz == oldsz && View() == old(View()) && maps == old(maps) && data == old(data)
      ensures newsz >= oldsz && r == Done ==> sz == newsz && |es| == Steps(PgRoundUp(oldsz), newsz)
      ensures newsz >= oldsz && r == Done ==>
                Grown(old(owner), owner, old(data), data, old(maps), maps, root, PgRoundUp(oldsz), es,
                  Zeros(PTE_V + PTE_R + PTE_U + xperm))
      ensures r == NoMem ==>
                sz == 0 && maps == old(maps) && Took(old(owner), owner, {}) && DataKept(old(owner), old(data), data)
      ensures newsz >= oldsz ==>
                EndsAs(r, old(GrowPlan(root, PgRoundUp(oldsz), Steps(PgRoundUp(oldsz), newsz))))
    {
      es := [];
      if newsz < oldsz {
        return Done, oldsz, [];
      }
      Rounding(oldsz);
      r, es := GrowRange(root, PgRoundUp(oldsz), newsz, PTE_R + PTE_U + xperm);
      sz := if r == Done then newsz else 0;
    }

    /** The loop of uvmalloc. */
    method GrowRange(root: nat, first: nat, newsz: nat, perm: nat) returns (r: Outcome, ghost es: seq<Leaf>)
      requires Inv() && IsRoot(View(), root) && PageAligned(first) && first <= MAXVA && newsz < TWO64 && perm < 1024 &&
               LeafBits(WithV(perm))
      modifies `pt, `freelist, `owner, `data, `maps
      ensures Inv()
      ensures r == Done ==> |es| == Steps(first, newsz)
      ensures r == Done ==>
              Grown(old(owner), owner, old(data), data, old(maps), maps, root, first, es, Zeros(WithV(perm)))
      ensures r == NoMem ==> maps == old(maps) && Took(old(owner), owner, {}) && DataKept(old(owner), old(data), data)
      ensures EndsAs(r, old(GrowPlan(root, first, Steps(first, newsz))))
    {
      es := [];
      var a := first;
      ghost var b := GrowPlan(root, first, Steps(first, newsz));
      Begins(b);
      GrowStarts(first, newsz);
      GrownNone(owner, data, maps, root, first, Zeros(WithV(perm)));
      while a < newsz
        invariant Inv() && GrowAt(first, newsz, a, |es|)
        invariant Grown(old(owner), owner, old(data), data, old(maps), maps, root, first, es, Zeros(WithV(perm)))
        invariant GoesOn(b, Present(pt, root), |freelist|, |es|)
      {
        GrownRoot(old(owner), owner, old(data), data, old(maps), maps, root, first, es, Zeros(WithV(perm)), root);
        r, es := GrowOne(root, a, first, perm, old(owner), old(data), old(maps), es, Steps(first, newsz),
          Zeros(WithV(perm)), b);
        if r != Done {
          return;
        }
        GrowNext(first, newsz, a, |es| - 1);
        a := a + 4096;
      }
      AllRounds(b, Present(pt, root), |freelist|);
      return Done, es;
    }

    /** One round of uvmalloc's loop, with its error path. */
    method GrowOne(root: nat, a: nat, first: nat, perm: nat, ghost a0: map<nat, Owner>, ghost x: Data, ghost d0: Maps,
            ghost es: seq<Leaf>, ghost n: nat, ghost w: Want, ghost b: Plan)
      returns (r: Outcome, ghost es': seq<Leaf>)
      requires GoesOn(b, Present(pt, root), |freelist|, |es|) && n == b.n && first == b.first && b.own
      requires b.good == Vacant(d0, root, first) && b.early == iset{}
      requires Inv() && IsRoot(View(), root) && PageAligned(first) && PageAligned(a) &&
               a == first + |es| * 4096 <= MAXVA && perm < 1024 && LeafBits(WithV(perm))
      requires Grown(a0, owner, x, data, d0, maps, root, first, es, w) && |es| < n && w == Zeros(WithV(perm))
      modifies `pt, `freelist, `owner, `data, `maps
      ensures Inv()
      ensures r == Done ==> |es'| == |es| + 1 && a < MAXVA
      ensures r == Done ==> Grown(a0, owner, x, data, d0, maps, root, first, es', w)
      ensures r == NoMem ==> maps == d0 && Took(a0, owner, {}) && DataKept(a0, x, data)
      ensures if r == Done then GoesOn(b, Present(pt, root), |freelist|, |es'|) else EndsAs(r, b)
    {
      ghost var o, y, d, l := owner, data, maps, Leaf(0, false);
      VacantAt(d0, d, root, first, es, a);
      r, l := PayPage(root, a, Fill(0), perm, b, |es|);
      es' := es + [l];
      match r {
        case Panic =>
        case NoMem =>
          GrownSame(a0, o, owner, x, y, data, d0, d, root, first, es, w);
          UndoGrowth(root, a, first, a0, x, d0, es, w);
        case Done =>
          GrownMore(a0, o, owner, x, y, data, d0, d, maps, root, first, es, w, l, Page(root, a));
      }
    }

    /** The error path of uvmalloc: uvmdealloc of what has been added. */
    method UndoGrowth(root: nat, a: nat, first: nat, ghost a0: map<nat, Owner>, ghost x: Data, ghost d0: Maps,
            ghost es: seq<Leaf>, ghost w: Want)
      requires Inv() && IsRoot(View(), root) && PageAligned(first) && a == first + |es| * 4096 <= MAXVA
      requires Grown(a0, owner, x, data, d0, maps, root, first, es, w)
      modifies `pt, `freelist, `owner, `data, `maps
      ensures Inv() && maps == d0 && Took(a0, owner, {}) && DataKept(a0, x, data)
    {
      RunOwned(a0, owner, x, data, d0, maps, root, first, es, w);
      ghost var o, y, d := owner, data, maps;
      Shrink(root, a, first, |es|);
      Undone(a0, o, owner, x, y, data, d0, d, maps, root, first, es, w);
    }

    /** The error path of uvmcopy: uvmunmap of what has been added. */
    method UndoRun(root: nat, n: nat, ghost a0: map<nat, Owner>, ghost x: Data, ghost d0: Maps, ghost es: seq<Leaf>,
            ghost w: Want, ghost first: nat)
      requires Inv() && IsRoot(View(), root) && n == |es| && n * 4096 < TWO64 && first == 0
      requires Grown(a0, owner, x, data, d0, maps, root, first, es, w)
      modifies `pt, `freelist, `owner, `data, `maps
      ensures Inv() && maps == d0 && Took(a0, owner, {}) && DataKept(a0, x, data)
    {
      RunOwned(a0, owner, x, data, d0, maps, root, first, es, w);
      ghost var o, y, d := owner, data, maps;
      RemoveRun(root, n, first);
      Undone(a0, o, owner, x, y, data, d0, d, maps, root, first, es, w);
    }

    /** uvmunmap of pages that are mapped and owned, from address 0 on */
    method RemoveRun(root: nat, n: nat, ghost first: nat)
      requires Inv() && IsRoot(View(), root) && first == 0 && n * 4096 < TWO64
      requires AllMapped(maps, root, first, n) && AllOwned(maps, root, first, n)
      modifies `pt, `freelist, `owner, `data, `maps
      ensures Inv() && Unmapped(old(maps), maps, old(owner), owner, old(data), data, root, first, n, Free)
    {
      RoundsAll(n);
      var r := UvmUnmap(root, 0, n, true, n);
    }

    /** uvmdealloc between page addresses */
    method Shrink(root: nat, a: nat, first: nat, ghost n: nat)
      requires Inv() && IsRoot(View(), root) && PageAligned(first) && a == first + n * 4096 <= MAXVA
      requires AllMapped(maps, root, first, n) && AllOwned(maps, root, first, n)
      modifies `pt, `freelist, `owner, `data, `maps
      ensures Inv() && Unmapped(old(maps), maps, old(owner), owner, old(data), data, root, first, n, Free)
    {
      ExcessRun(first, n);
      var r, sz := UvmDealloc(root, a, first, first, n);
    }
  }

  // ---------- how a run of pages ends ----------

  /** uvmalloc is at a, after k pages. */
  predicate GrowAt(first: nat, newsz: nat, a: nat, k: nat) {
    && PageAligned(a) && a == first + k * 4096 <= MAXVA
    && (a < newsz <==> k < Steps(first, newsz)) && k <= Steps(first, newsz)
  }

  lemma GrowStarts(first: nat, newsz: nat)
    requires PageAligned(first) && first <= MAXVA
    ensures GrowAt(first, newsz, first, 0)
  {
    StepsAt(first, newsz, 0);
  }

  lemma GrowNext(first: nat, newsz: nat, a: nat, k: nat)
    requires GrowAt(first, newsz, a, k) && a < newsz && a < MAXVA
    ensures GrowAt(first, newsz, a + 4096, k + 1)
  {
    PageBelow(a);
    StepsAt(first, newsz, k + 1);
  }

  /** The indices of pages from first on that are below MAXVA and not mapped. */
  ghost function Vacant(d: Maps, root: nat, first: nat): iset<nat> {
    iset i: nat | first + i * 4096 < MAXVA && Nth(root, first, i) !in d
  }

  lemma VacantAt(d0: Maps, d: Maps, root: nat, first: nat, es: seq<Leaf>, a: nat)
    requires d == AddLeaves(d0, root, first, es) && a == first + |es| * 4096
    ensures |es| in Vacant(d0, root, first) <==> a < MAXVA && Page(root, a) !in d
  {
    AddedAt(d0, root, first, es, |es|);
  }

  /** Exactly when a routine runs out of memory, panics, or ends well. */
  ghost predicate EndsAs(r: Outcome, b: Plan) {
    match r
    case NoMem => b.free < Demand(b)
    case Done => Length(b) == b.n && Demand(b) <= b.free
    case Panic => Length(b) < b.n && Demand(b) <= b.free
  }

  /** One round more, for a page that is good, that is not, or for which there is no memory. */
  lemma RoundEnds(r: Outcome, b: Plan, now: iset<Place>, free: nat, k: nat, a: nat, now': iset<Place>, free': nat)
    requires GoesOn(b, now, free, k) && a == b.first + k * 4096 && k < b.n
    requires r == Done ==> k in b.good && now' == Plus(now, PlacesOf(a)) && free' + Cost(b, now, a) == free
    requires r == NoMem ==> if k in b.good then free < Cost(b, now, a) else b.own && k !in b.early && free == 0
    requires r == Panic ==> k !in b.good && (b.own && k !in b.early ==> free > 0)
    ensures if r == Done then GoesOn(b, now', free', k + 1) else EndsAs(r, b)
  {
    match r
    case Done =>
      RoundDone(b, now, free, k, a, now', free');
    case NoMem =>
      RoundShort(b, now, free, k, a);
    case Panic =>
      RoundMeets(b, now, free, k);
  }

  lemma AllRounds(b: Plan, now: iset<Place>, free: nat)
    requires GoesOn(b, now, free, b.n)
    ensures EndsAs(Done, b)
  {
    GoesOnIff(b, now, free, b.n);
  }

  /** The rounds of mappages up to the last page, or up to a panic at MAXVA when the range wraps. */
  function MapRounds(first: nat, last: nat): nat {
    if first <= last then (last - first) / 4096 + 1 else Steps(first, MAXVA) + 1
  }

  lemma MapRoundsAt(first: nat, last: nat, n: nat, a: nat)
    requires PageAligned(first) && PageAligned(last) && a == first + n * 4096
    requires if first <= last then a <= last else n > 0 ==> a <= MAXVA
    ensures n < MapRounds(first, last) && (a == last ==> n + 1 == MapRounds(first, last))
    ensures first <= last && a != last ==> a + 4096 <= last
  {
    AlignedIff(first);
    AlignedIff(last);
    if first <= last {
      assert last - first == (last - first) / 4096 * 4096;
    }
  }

  /** The pages between the two sizes, as uvmdealloc counts them. */
  function Excess(oldsz: nat, newsz: nat): nat {
    if newsz < oldsz && PgRoundUp(newsz) < PgRoundUp(oldsz) then (PgRoundUp(oldsz) - PgRoundUp(newsz)) / 4096 else 0
  }

  lemma ExcessIs(oldsz: nat, newsz: nat)
    requires newsz < oldsz <= MAXVA && PgRoundUp(newsz) < PgRoundUp(oldsz)
    ensures Rounds(PgRoundUp(newsz), (PgRoundUp(oldsz) - PgRoundUp(newsz)) / 4096) == Excess(oldsz, newsz)
    ensures PageAligned(PgRoundUp(newsz))
  {
    Rounding(newsz);
  }

  lemma ExcessRun(first: nat, n: nat)
    requires PageAligned(first)
    ensures PgRoundUp(first) == first && Excess(first + n * 4096, first) == n
  {
    assert PgRoundUp(first + n * 4096) == first + n * 4096;
  }

  lemma UnmappedNone(d: Maps, a: map<nat, Owner>, x: Data, root: nat, first: nat)
    ensures Unmapped(d, d, a, a, x, x, root, first, 0, Free)
  {
  }

  const TWO64 := 0x1_0000_0000_0000_0000

  /** How often the loop of uvmunmap goes round, the end of its range being computed modulo 2^64. */
  function Rounds(va: nat, npages: nat): nat {
    Steps(va, (va + npages * 4096) % 0x1_0000_0000_0000_0000)
  }

  function Steps(va: nat, stop: nat): nat {
    if va < stop then (stop - va + 4096 - 1) / 4096 else 0
  }

  lemma RoundsAll(n: nat)
    requires n * 4096 < TWO64
    ensures Rounds(0, n) == n && PageAligned(0)
  {
    assert (n * 4096 + 4095) / 4096 == n;
  }

  lemma StepsAt(va: nat, stop: nat, i: nat)
    ensures va + i * 4096 < stop <==> i < Steps(va, stop)
  {
  }

  lemma NextPage(a: nat, p: nat, n: nat)
    ensures PageAligned(a) ==> PageAligned(a + n * 4096)
    ensures PageAligned(p) ==> PageAligned(p + n * 4096)
  {
    AlignedIff(a);
    AlignedIff(p);
    AlignedIff(a + n * 4096);
    AlignedIff(p + n * 4096);
  }

  lemma NextRound(d0: Maps, d: Maps, root: nat, first: nat, i: nat, n: nat, doFree: bool, k: Page)
    requires i < n && k == Nth(root, first, i) && d == DropLeaves(d0, root, first, i)
    ensures k in d <==> k in d0
    ensures k in d0 ==> d[k] == d0[k]
    ensures AllMapped(d0, root, first, n) ==> k in d0
    ensures AllOwned(d0, root, first, n) && k in d0 ==> d0[k].own
  {
    DroppedAt(d0, root, first, i, i);
    if AllMapped(d0, root, first, n) { AllMappedAt(d0, root, first, n, i); }
    if AllOwned(d0, root, first, n) { AllOwnedAt(d0, root, first, n, i); }
  }

  lemma PageBelow(a: nat)
    requires PageAligned(a) && a < MAXVA
    ensures PageAligned(a + 4096) && a + 4096 <= MAXVA
  {
    AlignedIff(a);
  }

  lemma NothingYet(m: Mem)
    requires m.pt == map[] && m.free == [] && 0 < m.end
    requires forall p :: p in m.owner ==> m.owner[p] == Kernel && PageAligned(p) && m.end <= p < PHYSTOP
    ensures Ok(m, imap[])
  {
    assert Denotes(m) == imap[];
    OkIff(m, imap[]);
  }

  /** The pages that freerange frees. */
  ghost function Given(end: nat): set<nat> {
    set p: nat | p < PHYSTOP && PageAligned(p) && end <= p
  }

  lemma FirstPage(end: nat)
    ensures end <= PgRoundUp(end) && forall q :: q in Given(end) ==> PgRoundUp(end) <= q
  {
    forall q | q in Given(end) ensures PgRoundUp(end) <= q {
      AlignedIff(q);
    }
  }

  /** There is no page between two neighbours, and none after the last. */
  lemma NextPages(p: nat)
    requires PageAligned(p)
    ensures forall end, q :: q in Given(end) && p <= q < p + 4096 ==> q == p
  {
    forall end, q | q in Given(end) && p <= q < p + 4096 ensures q == p {
      AlignedIff(p);
      AlignedIff(q);
    }
  }

  lemma LastPage(p: nat)
    requires PageAligned(p) && p + 4096 > PHYSTOP
    ensures p >= PHYSTOP
  {
    AlignedIff(p);
  }

  /** The range test of kfree. */
  predicate InPool(p: nat, end: nat) {
    p % 4096 == 0 && end <= p < PHYSTOP
  }

  lemma InRange(m: Mem, d: Maps, p: nat)
    requires Ok(m, d) && p in m.owner
    ensures PageAligned(p) && m.end <= p < PHYSTOP
  {
    OkPage(m, d, p);
  }

  lemma LackShort(have: iset<Place>, va: nat, level: nat)
    requires 0 < level <= 2 && NextOf(va, level) !in Plus(have, PlacesAbove(va, level))
    ensures |Lack(have, PlacesAbove(va, level))| < |Lack(have, PlacesOf(va))|
  {
    NextPlace(have, va, level, Plus(have, PlacesAbove(va, level)));
    if level == 2 {
      NextPlace(have, va, 1, Plus(have, PlacesAbove(va, 1)));
    }
  }

  lemma PathKept(m: Mem, n: Mem, d: Maps, root: nat, va: nat, level: nat)
    requires Ok(m, d) && Ok(n, d) && Took(m.owner, n.owner, {}) && IsRoot(m, root) && IsRoot(n, root) && 0 < level <= 2
    requires PathPage(m.pt, root, va, level) != 0
    ensures PathPage(n.pt, root, va, level) == PathPage(m.pt, root, va, level)
    ensures PathPage(n.pt, root, va, level - 1) == Child(n.pt, PathPage(n.pt, root, va, level), level, va)
  {
    if level == 1 {
      MidKept(m, n, d, root, Child(m.pt, root, 2, va), va);
    }
  }

  lemma NoPath(m: Mem, d: Maps, root: nat, va: nat, level: nat)
    requires Ok(m, d) && IsRoot(m, root) && 0 < level <= 2 && PathPage(m.pt, root, va, level - 1) == 0
    ensures Page(root, va) !in d
  {
    SlotHolds(m, d, root, va, LeafTable(m.pt, root, va), PX(0, va));
  }

  lemma MidKept(m: Mem, n: Mem, d: Maps, root: nat, mid: nat, va: nat)
    requires Ok(m, d) && Ok(n, d) && Took(m.owner, n.owner, {}) && IsRoot(m, root) && IsRoot(n, root)
    requires mid == Child(m.pt, root, 2, va) != 0
    ensures Child(n.pt, root, 2, va) == mid
  {
    RootTable(m, d, root);
    ChildOk(m, d, root, 2, va);
    OkPage(n, d, mid);
    PteRoundTrip(mid, PTE_V);
  }
}
