/** The pages that freerange handed to kernel/kalloc.c and the Sv39 trees that kernel/vm.c builds
    from them. Every page has one owner, so ownership is disjoint by construction; the
    invariant says that the owners tell the truth about the trees. */
module PageTable {
  import opened Sv39

  /** What a page is used for. Kernel: handed out by kalloc and not (yet) part of a tree.
      Table: the page-table page that entry idx of the page `parent` points to. User: the page
      that leaf entry idx of the level-0 table `parent` maps. Loose: the top of a tree that
      freewalk is taking down. */
  datatype Owner =
    | Free
    | Kernel
    | Root
    | Loose(level: nat)
    | Table(parent: nat, idx: nat, level: nat)
    | User(parent: nat, idx: nat)

  /** Page-table pages with their 512 entries; below, the owner of every page, the free list, and
      the first address after the kernel. */
  type Tables = map<nat, seq<nat>>

  datatype Mem = Mem(pt: Tables, owner: map<nat, Owner>, free: seq<nat>, end: nat)

  predicate IsTable(o: Owner) { o.Root? || o.Loose? || o.Table? }

  function Level(o: Owner): nat
    requires IsTable(o)
  {
    if o.Root? then 2 else o.level
  }

  /** pagetable[x], as far as it is valid */
  function Entry(pt: Tables, p: nat, x: nat): nat {
    if p in pt && x < |pt[p]| && Valid(pt[p][x]) then pt[p][x] else 0
  }

  /** A valid entry of a higher-level page points to a table that it owns; a leaf that user code
      may use maps a page that it owns. */
  ghost predicate EntryOk(m: Mem, p: nat, x: nat, level: nat) {
    var e := Entry(m.pt, p, x);
    Valid(e) ==>
      if level > 0 then Flags(e) == PTE_V && (level == 2 ==> x < NTOP) && Pte2Pa(e) in m.owner &&
        m.owner[Pte2Pa(e)] == Table(p, x, level - 1)
      else && LeafBits(Flags(e))
           && (UserBit(e) ==> Pte2Pa(e) in m.owner && m.owner[Pte2Pa(e)] == User(p, x))
  }

  ghost predicate TableOk(m: Mem, p: nat, level: nat) {
    && p in m.pt && |m.pt[p]| == NPTE
    && forall x :: 0 <= x < NPTE ==> EntryOk(m, p, x, level)
  }

  ghost predicate PageOk(m: Mem, p: nat)
    requires p in m.owner
  {
    && PageAligned(p) && 0 < m.end <= p < PHYSTOP
    && match m.owner[p]
       case Free => true
       case Kernel => true
       case Root => TableOk(m, p, 2)
       case Loose(l) => l <= 2 && TableOk(m, p, l)
       case Table(q, x, l) =>
         && l < 2 && x < NPTE && q in m.owner && IsTable(m.owner[q]) && Level(m.owner[q]) == l + 1
         && Entry(m.pt, q, x) == MakePte(p, PTE_V) && TableOk(m, p, l)
       case User(q, x) =>
         && x < NPTE && q in m.owner && IsTable(m.owner[q]) && Level(m.owner[q]) == 0
         && Valid(Entry(m.pt, q, x)) && Pte2Pa(Entry(m.pt, q, x)) == p
  }

  ghost predicate FreeListOk(m: Mem) {
    && (forall i, j :: 0 <= i < j < |m.free| ==> m.free[i] != m.free[j])
    && (forall p :: p in m.free <==> p in m.owner && m.owner[p] == Free)
  }

  ghost predicate Inv(m: Mem) {
    0 < m.end && FreeListOk(m) && forall p :: p in m.owner ==> PageOk(m, p)
  }

  // ---------- what a tree denotes ----------

  /** The page-table page one level below p for virtual address va, or 0. */
  function Child(pt: Tables, p: nat, level: nat, va: nat): nat
    requires level <= 2
  {
    var e := Entry(pt, p, PX(level, va));
    if Valid(e) then Pte2Pa(e) else 0
  }

  /** The level-0 page whose entry PX(0, va) maps va, or 0. */
  function LeafTable(pt: Tables, root: nat, va: nat): nat {
    var mid := Child(pt, root, 2, va);
    if mid == 0 then 0 else Child(pt, mid, 1, va)
  }

  /** The valid leaf entry for va, or 0: the partial map that the tree denotes. */
  function Lookup(pt: Tables, root: nat, va: nat): nat {
    var low := LeafTable(pt, root, va);
    if low == 0 then 0 else Entry(pt, low, PX(0, va))
  }

  ghost predicate IsRoot(m: Mem, r: nat) {
    r in m.owner && m.owner[r] == Root
  }

  ghost predicate IsPage(va: nat) {
    va < MAXVA && PageAligned(va)
  }

  /** A virtual page of a tree, and the leaf that maps it; `own` says that the tree owns the
      mapped page. */
  datatype Page = Page(root: nat, va: nat)
  datatype Leaf = Leaf(pte: nat, own: bool)
  type Maps = imap<Page, Leaf>

  ghost predicate OwnsLeaf(m: Mem, root: nat, va: nat) {
    var pa := Pte2Pa(Lookup(m.pt, root, va));
    pa in m.owner && m.owner[pa] == User(LeafTable(m.pt, root, va), PX(0, va))
  }

  ghost predicate Mapped(m: Mem, k: Page) {
    IsRoot(m, k.root) && IsPage(k.va) && Lookup(m.pt, k.root, k.va) != 0
  }

  ghost function LeafAt(m: Mem, k: Page): Leaf {
    Leaf(Lookup(m.pt, k.root, k.va), OwnsLeaf(m, k.root, k.va))
  }

  /** The partial maps that the trees denote. */
  ghost function Denotes(m: Mem): Maps {
    imap k | Mapped(m, k) :: LeafAt(m, k)
  }

  /** Every page is what its owner says, every free page is on the list, d is what the trees denote and the
      kernel is not empty; and the first k pages of the free list, if it has so many, are free and distinct. */
  ghost predicate Sound(m: Mem, d: Maps, k: nat) {
    if k == 0 then
      && (forall p :: p in m.owner ==> PageOk(m, p))
      && (forall p :: p in m.owner && m.owner[p] == Free ==> p in m.free)
      && d == Denotes(m) && 0 < m.end
    else
      && (k <= |m.free| ==> m.free[k-1] in m.owner && m.owner[m.free[k-1]] == Free && m.free[k-1] !in m.free[..k-1])
      && Sound(m, d, k - 1)
  }

  ghost predicate Ok(m: Mem, d: Maps) {
    Sound(m, d, |m.free| + 1)
  }

  lemma {:induction false} SoundIff(m: Mem, d: Maps, k: nat)
    requires k <= |m.free|
    ensures Sound(m, d, k) <==>
            && Sound(m, d, 0) && (forall i :: 0 <= i < k ==> m.free[i] in m.owner && m.owner[m.free[i]] == Free)
            && forall i, j :: 0 <= i < j < k ==> m.free[i] != m.free[j]
  {
    if k > 0 {
      SoundIff(m, d, k - 1);
    }
  }

  lemma OkIff(m: Mem, d: Maps)
    ensures Ok(m, d) <==> Inv(m) && d == Denotes(m)
  {
    SoundIff(m, d, |m.free|);
  }

  lemma OkPage(m: Mem, d: Maps, p: nat)
    requires Ok(m, d) && p in m.owner
    ensures PageOk(m, p)
  {
    OkIff(m, d);
  }

  ghost predicate TableAt(m: Mem, p: nat, level: nat) {
    p in m.owner && IsTable(m.owner[p]) && Level(m.owner[p]) == level && p in m.pt && |m.pt[p]| == NPTE
  }

  lemma ChildOwner(m: Mem, p: nat, level: nat, va: nat)
    requires Inv(m) && 0 < level <= 2 && p in m.owner && IsTable(m.owner[p]) && Level(m.owner[p]) == level
    ensures var c := Child(m.pt, p, level, va);
            && (Valid(Entry(m.pt, p, PX(level, va))) <==> c != 0)
            && (c != 0 ==> c in m.owner && m.owner[c] == Table(p, PX(level, va), level - 1) && TableAt(m, c, level - 1))
  {
    assert PageOk(m, p);
    assert EntryOk(m, p, PX(level, va), level);
    var c := Child(m.pt, p, level, va);
    if Valid(Entry(m.pt, p, PX(level, va))) {
      assert PageOk(m, c);
    }
  }

  lemma LeafOwner(m: Mem, root: nat, va: nat)
    requires Inv(m) && IsRoot(m, root) && LeafTable(m.pt, root, va) != 0
    ensures var low, mid := LeafTable(m.pt, root, va), Child(m.pt, root, 2, va);
            && mid in m.owner && m.owner[mid] == Table(root, PX(2, va), 1)
            && low in m.owner && m.owner[low] == Table(mid, PX(1, va), 0)
  {
    ChildOwner(m, root, 2, va);
    ChildOwner(m, Child(m.pt, root, 2, va), 1, va);
  }

  /** Distinct pages below MAXVA, or pages of distinct trees, never share a leaf slot. */
  lemma LeafSlotsDistinct(m: Mem, r: nat, va: nat, s: nat, wa: nat)
    requires Inv(m) && IsRoot(m, r) && IsRoot(m, s)
    requires va < MAXVA && wa < MAXVA && PageAligned(va) && PageAligned(wa)
    requires LeafTable(m.pt, r, va) == LeafTable(m.pt, s, wa) != 0 && PX(0, va) == PX(0, wa)
    ensures r == s && va == wa
  {
    LeafOwner(m, r, va);
    LeafOwner(m, s, wa);
    IndicesDetermine(va, wa);
  }

  // ---------- the steps ----------

  /** kalloc, when the free list is not empty */
  function Alloc(m: Mem): Mem
    requires m.free != []
  {
    Mem(m.pt, m.owner[m.free[0] := Kernel], m.free[1..], m.end)
  }

  /** kfree */
  function Release(m: Mem, p: nat): Mem {
    Mem(m.pt, m.owner[p := Free], [p] + m.free, m.end)
  }

  function ZeroTable(): seq<nat> { seq(NPTE, _ => 0) }

  function Put(row: seq<nat>, x: nat, e: nat): seq<nat>
    requires x < |row|
  {
    row[x := e]
  }

  function SetEntry(m: Mem, p: nat, x: nat, e: nat): Mem
    requires p in m.pt && x < |m.pt[p]|
  {
    Mem(m.pt[p := Put(m.pt[p], x, e)], m.owner, m.free, m.end)
  }

  /** walk: clear page p and hang it under entry x of page q. */
  function Attach(m: Mem, q: nat, x: nat, p: nat, level: nat): Mem
    requires q in m.pt && x < |m.pt[q]| && p != q
  {
    Mem(m.pt[p := ZeroTable()][q := Put(m.pt[q], x, MakePte(p, PTE_V))], m.owner[p := Table(q, x, level)], m.free,
      m.end)
  }

  /** mappages of a page that the tree then owns */
  function MapOwned(m: Mem, q: nat, x: nat, p: nat, flags: nat): Mem
    requires q in m.pt && x < |m.pt[q]| && flags < 1024
  {
    Mem(SetEntry(m, q, x, MakePte(p, flags)).pt, m.owner[p := User(q, x)], m.free, m.end)
  }

  function Disowned(owner: map<nat, Owner>, p: nat, o: Owner): map<nat, Owner> {
    if p in owner && owner[p] == o then owner[p := Kernel] else owner
  }

  /** uvmunmap of one leaf: the page it owned, if any, goes back to the kernel. */
  function Unmap(m: Mem, q: nat, x: nat): Mem
    requires q in m.pt && x < |m.pt[q]|
  {
    Mem(SetEntry(m, q, x, 0).pt, Disowned(m.owner, Pte2Pa(Entry(m.pt, q, x)), User(q, x)), m.free, m.end)
  }

  /** No tree has lost a page-table page. */
  ghost predicate Kept(m: Mem, n: Mem) {
    && (forall r :: IsRoot(m, r) ==> IsRoot(n, r))
    && (forall r, va {:trigger LeafTable(n.pt, r, va)} :: IsRoot(m, r) && LeafTable(m.pt, r, va) != 0 ==>
          LeafTable(n.pt, r, va) == LeafTable(m.pt, r, va))
  }

  /** m and n denote the same map for every tree. */
  ghost predicate SameMaps(m: Mem, n: Mem) {
    && Kept(m, n)
    && (forall r, va {:trigger Lookup(n.pt, r, va)} :: IsRoot(m, r) ==> Lookup(n.pt, r, va) == Lookup(m.pt, r, va))
  }

  /** Handing a page between the free list and the kernel does not touch the trees. */
  lemma SwapOwner(m: Mem, p: nat, o: Owner, free: seq<nat>)
    requires forall q :: q in m.owner ==> PageOk(m, q)
    requires p in m.owner && !IsTable(m.owner[p]) && !m.owner[p].User? && (o == Free || o == Kernel)
    ensures var n := Mem(m.pt, m.owner[p := o], free, m.end);
            (forall q :: q in n.owner ==> PageOk(n, q)) && SameMaps(m, n)
  {
    var n := Mem(m.pt, m.owner[p := o], free, m.end);
    forall q | q in n.owner ensures PageOk(n, q) {
      assert PageOk(m, q);
      if q != p && IsTable(m.owner[q]) {
        SwapOwnerTable(m, n, p, q, Level(m.owner[q]));
      }
    }
  }

  lemma SwapOwnerTable(m: Mem, n: Mem, p: nat, q: nat, level: nat)
    requires p in m.owner && !IsTable(m.owner[p]) && !m.owner[p].User? && TableOk(m, q, level)
    requires n.pt == m.pt && forall r :: r in m.owner && r != p ==> r in n.owner && n.owner[r] == m.owner[r]
    ensures TableOk(n, q, level)
  {
    forall x | 0 <= x < NPTE ensures EntryOk(n, q, x, level) {
      assert EntryOk(m, q, x, level);
    }
  }

  lemma AllocInv(m: Mem)
    requires Inv(m) && m.free != []
    ensures m.free[0] in m.owner && Inv(Alloc(m)) && Alloc(m).owner.Keys == m.owner.Keys && SameMaps(m, Alloc(m))
  {
    var p := m.free[0];
    assert p in m.free;
    assert forall q :: q in m.free[1..] <==> q in m.free && q != p;
    SwapOwner(m, p, Kernel, m.free[1..]);
  }

  lemma ReleaseInv(m: Mem, p: nat)
    requires Inv(m) && p in m.owner && m.owner[p] == Kernel
    ensures Inv(Release(m, p)) && Release(m, p).owner.Keys == m.owner.Keys && SameMaps(m, Release(m, p))
  {
    assert p !in m.free;
    SwapOwner(m, p, Free, [p] + m.free);
  }

  // ---------- a new page-table page ----------

  lemma NewTable(m: Mem, q: nat, x: nat, p: nat, level: nat)
    requires q in m.pt && x < |m.pt[q]| && p != q
    ensures TableOk(Attach(m, q, x, p, level), p, level)
  {
    var n := Attach(m, q, x, p, level);
    forall y | 0 <= y < NPTE ensures EntryOk(n, p, y, level) {
      assert Entry(n.pt, p, y) == 0;
    }
  }

  lemma AttachTable(m: Mem, q: nat, x: nat, p: nat, level: nat, r: nat, l: nat)
    requires Inv(m) && TableAt(m, q, level + 1) && level < 2 && x < NPTE && (level == 1 ==> x < NTOP) &&
             Entry(m.pt, q, x) == 0
    requires p in m.owner && m.owner[p] == Kernel && r in m.owner && IsTable(m.owner[r]) && l == Level(m.owner[r])
    ensures TableOk(Attach(m, q, x, p, level), r, l)
  {
    var n := Attach(m, q, x, p, level);
    assert PageOk(m, r) && PageOk(m, p);
    PteRoundTrip(p, PTE_V);
    forall y | 0 <= y < NPTE ensures EntryOk(n, r, y, l) {
      assert EntryOk(m, r, y, l);
    }
  }

  lemma AttachEntry(m: Mem, q: nat, x: nat, p: nat, level: nat, r: nat, y: nat)
    requires q in m.pt && x < |m.pt[q]| && p != q && Entry(m.pt, q, x) == 0 && r != p && Valid(MakePte(p, PTE_V))
    ensures Entry(Attach(m, q, x, p, level).pt, r, y) == if r == q && y == x then MakePte(p, PTE_V)
            else Entry(m.pt, r, y)
  {
  }

  lemma AttachPage(m: Mem, q: nat, x: nat, p: nat, level: nat, r: nat)
    requires Inv(m) && TableAt(m, q, level + 1) && level < 2 && x < NPTE && (level == 1 ==> x < NTOP) &&
             Entry(m.pt, q, x) == 0
    requires p in m.owner && m.owner[p] == Kernel && r in m.owner
    ensures PageOk(Attach(m, q, x, p, level), r)
  {
    assert PageOk(m, r) && PageOk(m, p);
    PteRoundTrip(p, PTE_V);
    if r == p {
      NewTable(m, q, x, p, level);
      AttachEntry(m, q, x, p, level, q, x);
    } else {
      if IsTable(m.owner[r]) {
        AttachTable(m, q, x, p, level, r, Level(m.owner[r]));
      }
      if m.owner[r].Table? || m.owner[r].User? {
        AttachEntry(m, q, x, p, level, m.owner[r].parent, m.owner[r].idx);
      }
    }
  }

  /** walk's new table is empty, so it adds no mapping to any tree. */
  lemma AttachMaps(m: Mem, q: nat, x: nat, p: nat, level: nat, r: nat, va: nat)
    requires Inv(m) && TableAt(m, q, level + 1) && level < 2 && x < NPTE && (level == 1 ==> x < NTOP) &&
             Entry(m.pt, q, x) == 0
    requires p in m.owner && m.owner[p] == Kernel && IsRoot(m, r)
    ensures Lookup(Attach(m, q, x, p, level).pt, r, va) == Lookup(m.pt, r, va)
    ensures LeafTable(m.pt, r, va) != 0 ==> LeafTable(Attach(m, q, x, p, level).pt, r, va) == LeafTable(m.pt, r, va)
  {
    var n := Attach(m, q, x, p, level);
    assert PageOk(m, p) && PageOk(m, r);
    PteRoundTrip(p, PTE_V);
    ChildOwner(m, r, 2, va);
    var mid := Child(m.pt, r, 2, va);
    if mid != 0 {
      ChildOwner(m, mid, 1, va);
    }
  }

  lemma AttachInv(m: Mem, q: nat, x: nat, p: nat, level: nat)
    requires Inv(m) && TableAt(m, q, level + 1) && level < 2 && x < NPTE && (level == 1 ==> x < NTOP) &&
             Entry(m.pt, q, x) == 0
    requires p in m.owner && m.owner[p] == Kernel
    ensures var n := Attach(m, q, x, p, level);
            && Inv(n) && n.owner.Keys == m.owner.Keys && SameMaps(m, n) && TableAt(n, p, level)
            && Valid(Entry(n.pt, q, x)) && Pte2Pa(Entry(n.pt, q, x)) == p
  {
    var n := Attach(m, q, x, p, level);
    assert PageOk(m, p);
    PteRoundTrip(p, PTE_V);
    forall r | r in n.owner ensures PageOk(n, r) {
      AttachPage(m, q, x, p, level, r);
    }
    forall r, va | IsRoot(m, r)
      ensures Lookup(n.pt, r, va) == Lookup(m.pt, r, va)
      ensures LeafTable(m.pt, r, va) != 0 ==> LeafTable(n.pt, r, va) == LeafTable(m.pt, r, va)
    {
      AttachMaps(m, q, x, p, level, r, va);
    }
  }

  // ---------- leaf entries ----------

  /** Only the mapping of va in the tree `root` differs, and it is now e. */
  ghost predicate OneChange(m: Mem, n: Mem, root: nat, va: nat, e: nat) {
    && Kept(m, n)
    && (forall r, w {:trigger Lookup(n.pt, r, w)} :: IsRoot(m, r) && IsPage(w) ==>
          Lookup(n.pt, r, w) == if r == root && w == va then e else Lookup(m.pt, r, w))
  }

  /** A level-0 entry is only ever looked at for the one page that it maps. */
  lemma LeafEffect(m: Mem, q: nat, x: nat, e: nat, r: nat, w: nat)
    requires Inv(m) && TableAt(m, q, 0) && x < NPTE && IsRoot(m, r)
    ensures LeafTable(SetEntry(m, q, x, e).pt, r, w) == LeafTable(m.pt, r, w)
    ensures Lookup(SetEntry(m, q, x, e).pt, r, w) ==
            if LeafTable(m.pt, r, w) == q && q != 0 && PX(0, w) == x then (if Valid(e) then e else 0)
              else Lookup(m.pt, r, w)
  {
    ChildOwner(m, r, 2, w);
    var mid := Child(m.pt, r, 2, w);
    if mid != 0 {
      ChildOwner(m, mid, 1, w);
    }
  }

  lemma LeafChange(m: Mem, n: Mem, root: nat, va: nat, e: nat)
    requires Inv(m) && IsRoot(m, root) && IsPage(va) && LeafTable(m.pt, root, va) != 0
    requires TableAt(m, LeafTable(m.pt, root, va), 0) && (Valid(e) || e == 0)
    requires n.pt == SetEntry(m, LeafTable(m.pt, root, va), PX(0, va), e).pt
    requires forall r :: IsRoot(m, r) ==> IsRoot(n, r)
    ensures OneChange(m, n, root, va, e)
  {
    var q := LeafTable(m.pt, root, va);
    forall r, w | IsRoot(m, r) && LeafTable(m.pt, r, w) != 0 ensures LeafTable(n.pt, r, w) == LeafTable(m.pt, r, w) {
      LeafEffect(m, q, PX(0, va), e, r, w);
    }
    forall r, w | IsRoot(m, r) && IsPage(w)
      ensures Lookup(n.pt, r, w) == if r == root && w == va then e else Lookup(m.pt, r, w)
    {
      LeafEffect(m, q, PX(0, va), e, r, w);
      if LeafTable(m.pt, r, w) == q && PX(0, w) == PX(0, va) {
        LeafSlotsDistinct(m, r, w, root, va);
      }
    }
  }

  lemma MapOwnedTable(m: Mem, q: nat, x: nat, p: nat, flags: nat, r: nat, l: nat)
    requires Inv(m) && TableAt(m, q, 0) && x < NPTE && Entry(m.pt, q, x) == 0
    requires p in m.owner && m.owner[p] == Kernel && flags < 1024 && flags % 2 == 1 && LeafBits(flags)
    requires r in m.owner && IsTable(m.owner[r]) && l == Level(m.owner[r])
    ensures TableOk(MapOwned(m, q, x, p, flags), r, l)
  {
    var n := MapOwned(m, q, x, p, flags);
    assert PageOk(m, r) && PageOk(m, p);
    PteRoundTrip(p, flags);
    forall y | 0 <= y < NPTE ensures EntryOk(n, r, y, l) {
      assert EntryOk(m, r, y, l);
    }
  }

  lemma MapOwnedPage(m: Mem, q: nat, x: nat, p: nat, flags: nat, r: nat)
    requires Inv(m) && TableAt(m, q, 0) && x < NPTE && Entry(m.pt, q, x) == 0
    requires p in m.owner && m.owner[p] == Kernel && flags < 1024 && flags % 2 == 1 && LeafBits(flags) && r in m.owner
    ensures PageOk(MapOwned(m, q, x, p, flags), r)
  {
    var n := MapOwned(m, q, x, p, flags);
    assert PageOk(m, r) && PageOk(m, p);
    PteRoundTrip(p, flags);
    if IsTable(m.owner[r]) {
      MapOwnedTable(m, q, x, p, flags, r, Level(m.owner[r]));
    }
  }

  /** mappages of one page, kalloc'ed for this tree. */
  lemma MapOwnedInv(m: Mem, root: nat, va: nat, p: nat, flags: nat)
    requires Inv(m) && IsRoot(m, root) && IsPage(va) && LeafTable(m.pt, root, va) != 0 && Lookup(m.pt, root, va) == 0
    requires p in m.owner && m.owner[p] == Kernel && flags < 1024 && flags % 2 == 1 && LeafBits(flags)
    ensures TableAt(m, LeafTable(m.pt, root, va), 0)
    ensures var n := MapOwned(m, LeafTable(m.pt, root, va), PX(0, va), p, flags);
            Inv(n) && n.owner.Keys == m.owner.Keys && n.free == m.free && OneChange(m, n, root, va, MakePte(p, flags))
  {
    LeafOwner(m, root, va);
    var q := LeafTable(m.pt, root, va);
    assert PageOk(m, q) && PageOk(m, p);
    var n := MapOwned(m, q, PX(0, va), p, flags);
    PteRoundTrip(p, flags);
    forall r | r in n.owner ensures PageOk(n, r) {
      MapOwnedPage(m, q, PX(0, va), p, flags, r);
    }
    LeafChange(m, n, root, va, MakePte(p, flags));
  }

  lemma MapSharedTable(m: Mem, q: nat, x: nat, pa: nat, flags: nat, r: nat, l: nat)
    requires Inv(m) && TableAt(m, q, 0) && x < NPTE && Entry(m.pt, q, x) == 0 && PageAligned(pa)
    requires flags < 1024 && flags % 2 == 1 && LeafBits(flags) && !UserBit(flags)
    requires r in m.owner && IsTable(m.owner[r]) && l == Level(m.owner[r])
    ensures TableOk(SetEntry(m, q, x, MakePte(pa, flags)), r, l)
  {
    var n := SetEntry(m, q, x, MakePte(pa, flags));
    assert PageOk(m, r);
    PteRoundTrip(pa, flags);
    forall y | 0 <= y < NPTE ensures EntryOk(n, r, y, l) {
      assert EntryOk(m, r, y, l);
    }
  }

  /** mappages of a page that the tree does not own and user code cannot use: the trampoline, a
      trapframe, or kernel memory. */
  lemma MapSharedInv(m: Mem, n: Mem, root: nat, va: nat, pa: nat, flags: nat, e: nat)
    requires Inv(m) && IsRoot(m, root) && IsPage(va) && LeafTable(m.pt, root, va) != 0 && Lookup(m.pt, root, va) == 0
    requires PageAligned(pa) && flags < 1024 && flags % 2 == 1 && LeafBits(flags) && !UserBit(flags) &&
             e == MakePte(pa, flags)
    requires TableAt(m, LeafTable(m.pt, root, va), 0) && n == SetEntry(m, LeafTable(m.pt, root, va), PX(0, va), e)
    ensures Inv(n) && OneChange(m, n, root, va, e) && e != 0 && Pte2Pa(e) == pa
  {
    var q := LeafTable(m.pt, root, va);
    PteRoundTrip(pa, flags);
    forall r | r in n.owner ensures PageOk(n, r) {
      assert PageOk(m, r);
      if IsTable(m.owner[r]) {
        MapSharedTable(m, q, PX(0, va), pa, flags, r, Level(m.owner[r]));
      }
    }
    LeafChange(m, n, root, va, e);
  }

  lemma UnmapTable(m: Mem, q: nat, x: nat, r: nat, l: nat)
    requires Inv(m) && TableAt(m, q, 0) && x < NPTE && r in m.owner && IsTable(m.owner[r]) && l == Level(m.owner[r])
    ensures TableOk(Unmap(m, q, x), r, l)
  {
    var n := Unmap(m, q, x);
    assert PageOk(m, r);
    forall y | 0 <= y < NPTE ensures EntryOk(n, r, y, l) {
      assert EntryOk(m, r, y, l);
    }
  }

  lemma UnmapPage(m: Mem, q: nat, x: nat, r: nat)
    requires Inv(m) && TableAt(m, q, 0) && x < NPTE && r in m.owner
    ensures PageOk(Unmap(m, q, x), r)
  {
    var n := Unmap(m, q, x);
    assert PageOk(m, r);
    if IsTable(m.owner[r]) {
      UnmapTable(m, q, x, r, Level(m.owner[r]));
    }
  }

  /** uvmunmap of one page, up to the kfree. */
  lemma UnmapInv(m: Mem, root: nat, va: nat)
    requires Inv(m) && IsRoot(m, root) && IsPage(va) && LeafTable(m.pt, root, va) != 0
    ensures TableAt(m, LeafTable(m.pt, root, va), 0)
    ensures var n := Unmap(m, LeafTable(m.pt, root, va), PX(0, va));
            Inv(n) && n.owner.Keys == m.owner.Keys && n.free == m.free && OneChange(m, n, root, va, 0)
  {
    LeafOwner(m, root, va);
    var q := LeafTable(m.pt, root, va);
    assert PageOk(m, q);
    var n := Unmap(m, q, PX(0, va));
    forall r | r in n.owner ensures PageOk(n, r) {
      UnmapPage(m, q, PX(0, va), r);
    }
    LeafChange(m, n, root, va, 0);
  }
}
