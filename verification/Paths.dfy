/** The page-table pages on the paths of a tree, and how many of them a range of addresses lacks. */
module Paths {
  import opened Sv39
  import opened PageTable
  import opened Translation

  /** A place for a page-table page below the root: entry x of the root, or entry y of the page there. */
  datatype Place = Mid(x: nat) | Low(x: nat, y: nat)

  ghost predicate Has(pt: Tables, root: nat, k: Place) {
    match k
    case Mid(x) => Entry(pt, root, x) != 0
    case Low(x, y) => Entry(pt, root, x) != 0 && Entry(pt, Pte2Pa(Entry(pt, root, x)), y) != 0
  }

  /** The places that have a page. */
  ghost function Present(pt: Tables, root: nat): iset<Place> {
    iset k: Place | Has(pt, root, k)
  }

  /** The places on the path to va above the given level, and all of them. */
  function PlacesAbove(va: nat, level: nat): set<Place> {
    if level >= 2 then {} else if level == 1 then {Mid(PX(2, va))} else PlacesOf(va)
  }

  function PlacesOf(va: nat): set<Place> {
    {Mid(PX(2, va)), Low(PX(2, va), PX(1, va))}
  }

  /** Those of n pages from first on. */
  function RunPlaces(first: nat, n: nat): set<Place> {
    if n == 0 then {} else RunPlaces(first, n - 1) + PlacesOf(first + (n - 1) * 4096)
  }

  ghost function Plus(have: iset<Place>, more: set<Place>): iset<Place> {
    iset k: Place | k in have || k in more
  }

  /** The page-table pages that are missing. */
  ghost function Lack(have: iset<Place>, want: set<Place>): set<Place> {
    set k | k in want && k !in have
  }

  lemma LackMore(have: iset<Place>, want: set<Place>, more: set<Place>)
    ensures |Lack(have, want + more)| == |Lack(have, want)| + |Lack(Plus(have, want), more)|
    ensures Plus(Plus(have, want), more) == Plus(have, want + more)
  {
    assert Lack(have, want + more) == Lack(have, want) + Lack(Plus(have, want), more);
  }

  /** The places that have a page once n pages from first on are mapped, one by one. */
  ghost function Reach(have: iset<Place>, first: nat, n: nat): iset<Place> {
    if n == 0 then have else Plus(Reach(have, first, n - 1), PlacesOf(first + (n - 1) * 4096))
  }

  /** The free pages that this takes: those for page tables and, when they are to be new pages, for themselves. */
  ghost function Need(have: iset<Place>, first: nat, n: nat, own: bool): nat {
    if n == 0 then 0
    else
      Need(have, first, n - 1, own) + (if own then 1 else 0) +
      |Lack(Reach(have, first, n - 1), PlacesOf(first + (n - 1) * 4096))|
  }

  /** That is as many as there are places on the paths of the n pages without a page-table page, and n more for
      new pages. */
  lemma {:induction false} NeedIs(have: iset<Place>, first: nat, n: nat, own: bool)
    ensures Need(have, first, n, own) == |Lack(have, RunPlaces(first, n))| + if own then n else 0
    ensures Reach(have, first, n) == Plus(have, RunPlaces(first, n))
  {
    if n > 0 {
      NeedIs(have, first, n - 1, own);
      LackMore(have, RunPlaces(first, n - 1), PlacesOf(first + (n - 1) * 4096));
    } else {
      assert Lack(have, RunPlaces(first, 0)) == {};
    }
  }

  lemma {:induction false} NeedGrows(have: iset<Place>, first: nat, m: nat, n: nat, own: bool)
    requires m <= n
    ensures Need(have, first, m, own) <= Need(have, first, n, own)
  {
    if m < n {
      NeedGrows(have, first, m, n - 1, own);
    }
  }

  // ---------- the paths of a tree ----------

  /** The page of the given level on the path from the root to va, or 0. */
  function PathPage(pt: Tables, root: nat, va: nat, level: nat): nat
    requires level <= 2
  {
    if level == 2 then root else if level == 1 then Child(pt, root, 2, va) else LeafTable(pt, root, va)
  }

  lemma PathPresent(m: Mem, d: Maps, root: nat, va: nat)
    requires Ok(m, d) && IsRoot(m, root)
    ensures Mid(PX(2, va)) in Present(m.pt, root) <==> PathPage(m.pt, root, va, 1) != 0
    ensures Low(PX(2, va), PX(1, va)) in Present(m.pt, root) <==> PathPage(m.pt, root, va, 0) != 0
  {
    RootTable(m, d, root);
    ChildOk(m, d, root, 2, va);
    var mid := Child(m.pt, root, 2, va);
    if mid != 0 {
      ChildOk(m, d, mid, 1, va);
    }
  }

  /** A mapped page lacks nothing. */
  lemma MappedPresent(m: Mem, d: Maps, root: nat, va: nat)
    requires Ok(m, d) && IsRoot(m, root) && Page(root, va) in d
    ensures Lack(Present(m.pt, root), PlacesOf(va)) == {}
  {
    PathPresent(m, d, root, va);
    SlotHolds(m, d, root, va, LeafTable(m.pt, root, va), PX(0, va));
  }

  /** A page-table page hung under the root is at its place, and no other page comes to be at one. */
  lemma AttachMid(m: Mem, d: Maps, root: nat, x: nat, p: nat, n: Mem)
    requires Ok(m, d) && IsRoot(m, root) && TableAt(m, root, 2) && x < NTOP && Entry(m.pt, root, x) == 0
    requires p in m.owner && m.owner[p] == Kernel && p != root && n == Attach(m, root, x, p, 1)
    ensures Present(n.pt, root) == Plus(Present(m.pt, root), {Mid(x)})
  {
    OkIff(m, d);
    assert PageOk(m, p);
    PteRoundTrip(p, PTE_V);
    forall k: Place ensures k in Present(n.pt, root) <==> k in Plus(Present(m.pt, root), {Mid(x)}) {
      AttachEntry(m, root, x, p, 1, root, k.x);
      if k.Low? && k.x != x && Entry(m.pt, root, k.x) != 0 {
        OtherChild(m, root, k.x);
        AttachEntry(m, root, x, p, 1, Pte2Pa(Entry(m.pt, root, k.x)), k.y);
      }
    }
  }

  /** What a valid entry of the root points to. */
  lemma OtherChild(m: Mem, root: nat, x: nat)
    requires Inv(m) && IsRoot(m, root) && Entry(m.pt, root, x) != 0
    ensures Pte2Pa(Entry(m.pt, root, x)) in m.owner && m.owner[Pte2Pa(Entry(m.pt, root, x))] == Table(root, x, 1)
  {
    assert PageOk(m, root) && EntryOk(m, root, x, 2);
  }

  lemma AttachLow(m: Mem, d: Maps, root: nat, x: nat, mid: nat, y: nat, p: nat, n: Mem)
    requires Ok(m, d) && IsRoot(m, root) && Entry(m.pt, root, x) != 0 && mid == Pte2Pa(Entry(m.pt, root, x))
    requires TableAt(m, mid, 1) && y < NPTE && Entry(m.pt, mid, y) == 0
    requires p in m.owner && m.owner[p] == Kernel && p != mid && n == Attach(m, mid, y, p, 0)
    ensures Present(n.pt, root) == Plus(Present(m.pt, root), {Low(x, y)})
  {
    OkIff(m, d);
    assert PageOk(m, p);
    PteRoundTrip(p, PTE_V);
    OtherChild(m, root, x);
    forall k: Place ensures k in Present(n.pt, root) <==> k in Plus(Present(m.pt, root), {Low(x, y)}) {
      AttachEntry(m, mid, y, p, 0, root, k.x);
      if k.Low? && Entry(m.pt, root, k.x) != 0 {
        OtherChild(m, root, k.x);
        AttachEntry(m, mid, y, p, 0, Pte2Pa(Entry(m.pt, root, k.x)), k.y);
      }
    }
  }

  /** walk adds the page of the next level to the path. */
  lemma AttachPresent(m: Mem, d: Maps, root: nat, va: nat, level: nat, p: nat, q: nat, n: Mem)
    requires Ok(m, d) && IsRoot(m, root) && va < MAXVA && 0 < level <= 2
    requires p == PathPage(m.pt, root, va, level) != 0 && TableAt(m, p, level) && Entry(m.pt, p, PX(level, va)) == 0
    requires q in m.owner && m.owner[q] == Kernel && p != q && n == Attach(m, p, PX(level, va), q, level - 1)
    ensures Present(n.pt, root) == Plus(Present(m.pt, root), PlacesAbove(va, level - 1))
  {
    PathPresent(m, d, root, va);
    if level == 2 {
      AttachMid(m, d, root, PX(2, va), q, n);
    } else {
      AttachLow(m, d, root, PX(2, va), p, PX(1, va), q, n);
      assert Plus(Present(m.pt, root), {Low(PX(2, va), PX(1, va))}) == Plus(Present(m.pt, root), PlacesOf(va));
    }
  }

  /** A leaf entry is no page-table page. */
  lemma LeafPresent(m: Mem, d: Maps, root: nat, q: nat, x: nat, e: nat, n: Tables)
    requires Ok(m, d) && IsRoot(m, root) && TableAt(m, q, 0) && x < NPTE && n == m.pt[q := Put(m.pt[q], x, e)]
    ensures Present(n, root) == Present(m.pt, root)
  {
    OkIff(m, d);
    forall k: Place ensures k in Present(n, root) <==> k in Present(m.pt, root) {
      if Entry(m.pt, root, k.x) != 0 {
        OtherChild(m, root, k.x);
      }
    }
  }

  /** The path of va is complete down to a level, and below it the next page is there or not. */
  lemma NextPlace(have: iset<Place>, va: nat, level: nat, present: iset<Place>)
    requires 0 < level <= 2 && present == Plus(have, PlacesAbove(va, level))
    ensures Plus(present, PlacesAbove(va, level - 1)) == Plus(have, PlacesAbove(va, level - 1))
    ensures |Lack(have, PlacesAbove(va, level - 1))| ==
            |Lack(have, PlacesAbove(va, level))| +
            if NextOf(va, level) in present then 0 else 1
  {
    LackMore(have, PlacesAbove(va, level), {NextOf(va, level)});
    assert PlacesAbove(va, level - 1) == PlacesAbove(va, level) + {NextOf(va, level)};
    assert Lack(present, {NextOf(va, level)}) == if NextOf(va, level) in present then {} else {NextOf(va, level)};
  }

  function NextOf(va: nat, level: nat): Place
    requires 0 < level <= 2
  {
    if level == 2 then Mid(PX(2, va)) else Low(PX(2, va), PX(1, va))
  }

  // ---------- how a run of pages ends ----------

  /** The first n indices that are good, up to one that is not. */
  ghost function Room(good: iset<nat>, n: nat): (m: nat)
    ensures m <= n
  {
    if n == 0 then 0 else if Room(good, n - 1) == n - 1 && n - 1 in good then n else Room(good, n - 1)
  }

  lemma {:induction false} RoomEnds(good: iset<nat>, i: nat, n: nat)
    requires i <= n && Room(good, i) == i
    ensures i <= Room(good, n) && (i < n && i !in good ==> Room(good, n) == i)
    ensures i < n && i in good ==> Room(good, n) > i
  {
    if i < n {
      RoomEnds(good, i, n - 1);
    }
  }

  /** What a routine that maps n pages from first on begins with: page-table pages at the places `have`, and `free`
      free pages; own says that the pages are to be new ones. It ends at the first page that is not good, which is
      found out before a new page is allocated when it is among the early ones. */
  datatype Plan = Plan(have: iset<Place>, free: nat, first: nat, n: nat, good: iset<nat>, own: bool, early: iset<nat>)

  /** How far it can go, and the free pages that this takes. */
  ghost function Length(b: Plan): nat {
    Room(b.good, b.n)
  }

  ghost function Demand(b: Plan): nat {
    var m := Length(b);
    Need(b.have, b.first, m, b.own) + if m < b.n && b.own && m !in b.early then 1 else 0
  }

  /** When all pages are good that is what they lack, and for new pages themselves. */
  lemma DemandIs(b: Plan)
    requires forall i :: 0 <= i < b.n ==> i in b.good
    ensures Length(b) == b.n && Demand(b) == |Lack(b.have, RunPlaces(b.first, b.n))| + if b.own then b.n else 0
  {
    AllGood(b.good, b.n);
    NeedIs(b.have, b.first, b.n, b.own);
  }

  lemma {:induction false} AllGood(good: iset<nat>, n: nat)
    requires forall i :: 0 <= i < n ==> i in good
    ensures Room(good, n) == n
  {
    if n > 0 {
      AllGood(good, n - 1);
    }
  }

  /** k rounds are over and paid for; the first j of them, if there were so many, had good pages. */
  ghost predicate GoneBy(b: Plan, now: iset<Place>, free: nat, k: nat, j: nat) {
    if j == 0 then now == Reach(b.have, b.first, k) && free + Need(b.have, b.first, k, b.own) == b.free
    else (j <= k ==> j - 1 in b.good) && GoneBy(b, now, free, k, j - 1)
  }

  ghost predicate GoesOn(b: Plan, now: iset<Place>, free: nat, k: nat) {
    GoneBy(b, now, free, k, k + 1)
  }

  lemma {:induction false} GoneByIff(b: Plan, now: iset<Place>, free: nat, k: nat, j: nat)
    requires j <= k
    ensures GoneBy(b, now, free, k, j) <==> GoneBy(b, now, free, k, 0) && Room(b.good, j) == j
  {
    if j > 0 {
      GoneByIff(b, now, free, k, j - 1);
    }
  }

  lemma GoesOnIff(b: Plan, now: iset<Place>, free: nat, k: nat)
    ensures GoesOn(b, now, free, k) <==>
            && now == Reach(b.have, b.first, k) && free + Need(b.have, b.first, k, b.own) == b.free
            && Room(b.good, k) == k
  {
    GoneByIff(b, now, free, k, k);
  }

  lemma Begins(b: Plan)
    ensures GoesOn(b, b.have, b.free, 0)
  {
    GoesOnIff(b, b.have, b.free, 0);
  }

  /** The cost of page a. */
  ghost function Cost(b: Plan, now: iset<Place>, a: nat): nat {
    |Lack(now, PlacesOf(a))| + if b.own then 1 else 0
  }

  /** A round for a good page, */
  lemma RoundDone(b: Plan, now: iset<Place>, free: nat, k: nat, a: nat, now': iset<Place>, free': nat)
    requires GoesOn(b, now, free, k) && a == b.first + k * 4096 && k in b.good
    requires now' == Plus(now, PlacesOf(a)) && free' + Cost(b, now, a) == free
    ensures GoesOn(b, now', free', k + 1)
  {
    GoesOnIff(b, now, free, k);
    GoesOnIff(b, now', free', k + 1);
  }

  /** one that cannot be paid for, */
  lemma RoundShort(b: Plan, now: iset<Place>, free: nat, k: nat, a: nat)
    requires GoesOn(b, now, free, k) && a == b.first + k * 4096 && k < b.n
    requires if k in b.good then free < Cost(b, now, a) else b.own && k !in b.early && free == 0
    ensures b.free < Demand(b)
  {
    GoesOnIff(b, now, free, k);
    RoomEnds(b.good, k, b.n);
    if k in b.good {
      NeedGrows(b.have, b.first, k + 1, Length(b), b.own);
    }
  }

  /** and one that meets a page that is not good. */
  lemma RoundMeets(b: Plan, now: iset<Place>, free: nat, k: nat)
    requires GoesOn(b, now, free, k) && k < b.n && k !in b.good && (b.own && k !in b.early ==> free > 0)
    ensures Length(b) < b.n && Demand(b) <= b.free
  {
    GoesOnIff(b, now, free, k);
    RoomEnds(b.good, k, b.n);
  }
}
