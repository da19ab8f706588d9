/** Making an empty tree and taking one down again: uvmcreate, freewalk and uvmfree of
    kernel/vm.c, on the level of the invariant. */
module Teardown {
  import opened Sv39
  import opened PageTable
  import opened Translation

  /** A page that no leaf owns changes hands. */
  lemma SameOwner(m: Mem, n: Mem, c: nat, o: Owner, r: nat, va: nat)
    requires c in m.owner && !m.owner[c].User? && !o.User? && n.owner == m.owner[c := o]
    requires LeafTable(n.pt, r, va) == LeafTable(m.pt, r, va) && Lookup(n.pt, r, va) == Lookup(m.pt, r, va)
    ensures OwnsLeaf(n, r, va) <==> OwnsLeaf(m, r, va)
  {
  }

  // ---------- a new root ----------

  function NewRoot(m: Mem, p: nat): Mem {
    Mem(m.pt[p := ZeroTable()], m.owner[p := Root], m.free, m.end)
  }

  lemma NewRootTable(m: Mem, p: nat, q: nat, level: nat)
    requires p in m.owner && m.owner[p] == Kernel && TableOk(m, q, level) && q != p
    ensures TableOk(NewRoot(m, p), q, level)
  {
    forall x | 0 <= x < NPTE ensures EntryOk(NewRoot(m, p), q, x, level) {
      assert EntryOk(m, q, x, level);
    }
  }

  lemma NewRootInv(m: Mem, p: nat)
    requires Inv(m) && p in m.owner && m.owner[p] == Kernel
    ensures Inv(NewRoot(m, p))
  {
    var n := NewRoot(m, p);
    assert PageOk(m, p);
    forall x | 0 <= x < NPTE ensures EntryOk(n, p, x, 2) {
      assert Entry(n.pt, p, x) == 0;
    }
    forall q | q in n.owner ensures PageOk(n, q) {
      assert PageOk(m, q);
      if q != p && IsTable(m.owner[q]) {
        NewRootTable(m, p, q, Level(m.owner[q]));
      }
    }
  }

  /** The new tree maps nothing, and the others do not notice. */
  lemma NewRootLookup(m: Mem, p: nat, r: nat, va: nat)
    requires Inv(m) && p in m.owner && m.owner[p] == Kernel && IsRoot(m, r)
    ensures LeafTable(NewRoot(m, p).pt, r, va) == LeafTable(m.pt, r, va)
    ensures Lookup(NewRoot(m, p).pt, r, va) == Lookup(m.pt, r, va)
  {
    ChildOwner(m, r, 2, va);
    var mid := Child(m.pt, r, 2, va);
    if mid != 0 {
      ChildOwner(m, mid, 1, va);
    }
  }

  lemma NewRootLeaf(m: Mem, p: nat, k: Page)
    requires Inv(m) && p in m.owner && m.owner[p] == Kernel
    ensures SameAt(Denotes(m), Denotes(NewRoot(m, p)), k)
  {
    var n := NewRoot(m, p);
    DenotesAt(m, k);
    DenotesAt(n, k);
    if k.root == p {
      assert Child(n.pt, p, 2, k.va) == 0;
    } else if IsRoot(m, k.root) {
      NewRootLookup(m, p, k.root, k.va);
      SameOwner(m, n, p, Root, k.root, k.va);
    }
  }

  lemma NewRootOk(m: Mem, d: Maps, p: nat)
    requires Ok(m, d) && p in m.owner && m.owner[p] == Kernel
    ensures Ok(NewRoot(m, p), d)
  {
    OkIff(m, d);
    NewRootInv(m, p);
    forall k: Page ensures SameAt(Denotes(m), Denotes(NewRoot(m, p)), k) {
      NewRootLeaf(m, p, k);
    }
    SameMap(Denotes(m), Denotes(NewRoot(m, p)));
    OkIff(NewRoot(m, p), d);
  }

  // ---------- a tree to be taken down ----------

  /** From now on the tree is no address space any more. */
  function Retire(m: Mem, r: nat): Mem {
    Mem(m.pt, m.owner[r := Loose(2)], m.free, m.end)
  }

  ghost function Without(d: Maps, r: nat): Maps {
    imap k | k in d && k.root != r :: d[k]
  }

  lemma RetireTable(m: Mem, r: nat, q: nat, l: nat)
    requires IsRoot(m, r) && TableOk(m, q, l)
    ensures TableOk(Retire(m, r), q, l)
  {
    forall x | 0 <= x < NPTE ensures EntryOk(Retire(m, r), q, x, l) {
      assert EntryOk(m, q, x, l);
    }
  }

  lemma RetireInv(m: Mem, r: nat)
    requires Inv(m) && IsRoot(m, r)
    ensures Inv(Retire(m, r))
  {
    var n := Retire(m, r);
    forall q | q in n.owner ensures PageOk(n, q) {
      assert PageOk(m, q);
      if IsTable(m.owner[q]) {
        RetireTable(m, r, q, Level(m.owner[q]));
      }
    }
  }

  lemma RetireLeaf(m: Mem, d: Maps, r: nat, k: Page)
    requires d == Denotes(m) && IsRoot(m, r)
    ensures SameAt(Without(d, r), Denotes(Retire(m, r)), k)
  {
    var n := Retire(m, r);
    DenotesAt(m, k);
    DenotesAt(n, k);
    assert IsRoot(n, k.root) <==> IsRoot(m, k.root) && k.root != r;
    SameOwner(m, n, r, Loose(2), k.root, k.va);
  }

  lemma RetireOk(m: Mem, d: Maps, r: nat)
    requires Ok(m, d) && IsRoot(m, r)
    ensures Ok(Retire(m, r), Without(d, r))
  {
    OkIff(m, d);
    RetireInv(m, r);
    forall k: Page ensures SameAt(Without(d, r), Denotes(Retire(m, r)), k) {
      RetireLeaf(m, d, r, k);
    }
    SameMap(Without(d, r), Denotes(Retire(m, r)));
    OkIff(Retire(m, r), Without(d, r));
  }

  /** Cut page c, to which entry x of the loose page q points, off from q. */
  function Detach(m: Mem, q: nat, x: nat, c: nat, level: nat): Mem
    requires q in m.pt && x < |m.pt[q]|
  {
    Mem(SetEntry(m, q, x, 0).pt, m.owner[c := Loose(level)], m.free, m.end)
  }

  lemma DetachTable(m: Mem, q: nat, x: nat, c: nat, level: nat, r: nat, l: nat)
    requires Inv(m) && TableAt(m, q, level + 1) && x < NPTE && c in m.owner && m.owner[c] == Table(q, x, level)
    requires r in m.owner && TableOk(m, r, l)
    ensures TableOk(Detach(m, q, x, c, level), r, l)
  {
    var n := Detach(m, q, x, c, level);
    forall y | 0 <= y < NPTE ensures EntryOk(n, r, y, l) {
      assert EntryOk(m, r, y, l);
    }
  }

  lemma DetachPage(m: Mem, q: nat, x: nat, c: nat, level: nat, r: nat)
    requires Inv(m) && TableAt(m, q, level + 1) && x < NPTE && c in m.owner && m.owner[c] == Table(q, x, level) &&
             r in m.owner
    ensures PageOk(Detach(m, q, x, c, level), r)
  {
    assert PageOk(m, c) && PageOk(m, r);
    if IsTable(m.owner[r]) {
      DetachTable(m, q, x, c, level, r, Level(m.owner[r]));
    }
    PteRoundTrip(r, PTE_V);
    PteRoundTrip(c, PTE_V);
  }

  lemma DetachInv(m: Mem, q: nat, x: nat, c: nat, level: nat)
    requires Inv(m) && TableAt(m, q, level + 1) && x < NPTE && c in m.owner && m.owner[c] == Table(q, x, level)
    ensures Inv(Detach(m, q, x, c, level))
  {
    forall r | r in m.owner ensures PageOk(Detach(m, q, x, c, level), r) {
      DetachPage(m, q, x, c, level, r);
    }
  }

  lemma DetachLookup(m: Mem, q: nat, x: nat, c: nat, level: nat, r: nat, va: nat)
    requires Inv(m) && TableAt(m, q, level + 1) && m.owner[q].Loose? && x < NPTE && IsRoot(m, r)
    ensures LeafTable(Detach(m, q, x, c, level).pt, r, va) == LeafTable(m.pt, r, va)
    ensures Lookup(Detach(m, q, x, c, level).pt, r, va) == Lookup(m.pt, r, va)
  {
    ChildOwner(m, r, 2, va);
    var mid := Child(m.pt, r, 2, va);
    if mid != 0 {
      ChildOwner(m, mid, 1, va);
    }
  }

  lemma DetachLeaf(m: Mem, q: nat, x: nat, c: nat, level: nat, k: Page)
    requires Inv(m) && TableAt(m, q, level + 1) && m.owner[q].Loose? && x < NPTE && c in m.owner &&
             m.owner[c] == Table(q, x, level)
    ensures SameAt(Denotes(m), Denotes(Detach(m, q, x, c, level)), k)
  {
    var n := Detach(m, q, x, c, level);
    DenotesAt(m, k);
    DenotesAt(n, k);
    if IsRoot(m, k.root) {
      DetachLookup(m, q, x, c, level, k.root, k.va);
      SameOwner(m, n, c, Loose(level), k.root, k.va);
    }
  }

  lemma DetachOk(m: Mem, d: Maps, q: nat, x: nat, c: nat, level: nat)
    requires Ok(m, d) && TableAt(m, q, level + 1) && m.owner[q].Loose? && x < NPTE && c in m.owner &&
             m.owner[c] == Table(q, x, level)
    ensures Ok(Detach(m, q, x, c, level), d)
  {
    OkIff(m, d);
    DetachInv(m, q, x, c, level);
    forall k: Page ensures SameAt(Denotes(m), Denotes(Detach(m, q, x, c, level)), k) {
      DetachLeaf(m, q, x, c, level, k);
    }
    SameMap(Denotes(m), Denotes(Detach(m, q, x, c, level)));
    OkIff(Detach(m, q, x, c, level), d);
  }

  /** No entry of page p is valid. */
  ghost predicate Empty(pt: Tables, p: nat) {
    forall x :: Entry(pt, p, x) == 0
  }

  lemma FreeLooseTable(m: Mem, p: nat, r: nat, l: nat)
    requires p in m.owner && m.owner[p].Loose? && TableOk(m, r, l)
    ensures TableOk(Release(m, p), r, l)
  {
    forall y | 0 <= y < NPTE ensures EntryOk(Release(m, p), r, y, l) {
      assert EntryOk(m, r, y, l);
    }
  }

  lemma FreeLooseInv(m: Mem, p: nat)
    requires Inv(m) && p in m.owner && m.owner[p].Loose? && Empty(m.pt, p)
    ensures Inv(Release(m, p))
  {
    var n := Release(m, p);
    assert p !in m.free;
    forall r | r in n.owner ensures PageOk(n, r) {
      assert PageOk(m, r);
      if r != p && IsTable(m.owner[r]) {
        FreeLooseTable(m, p, r, Level(m.owner[r]));
      }
    }
  }

  lemma FreeLooseOk(m: Mem, d: Maps, p: nat)
    requires Ok(m, d) && p in m.owner && m.owner[p].Loose? && Empty(m.pt, p)
    ensures Ok(Release(m, p), d)
  {
    OkIff(m, d);
    FreeLooseInv(m, p);
    var n := Release(m, p);
    forall k: Page ensures SameAt(d, Denotes(n), k) {
      DenotesAt(m, k);
      DenotesAt(n, k);
      SameOwner(m, n, p, Free, k.root, k.va);
    }
    SameMap(d, Denotes(n));
    OkIff(n, d);
  }

  // ---------- the pages of a tree ----------

  function Depth(o: map<nat, Owner>, p: nat): nat {
    if p in o && IsTable(o[p]) && Level(o[p]) <= 2 then 2 - Level(o[p]) else 3
  }

  /** Page p is r or hangs below r. */
  ghost predicate Under(o: map<nat, Owner>, p: nat, r: nat)
    decreases Depth(o, p)
  {
    && p in o
    && (p == r || (o[p].Table? && Depth(o, o[p].parent) < Depth(o, p) && Under(o, o[p].parent, r)))
  }

  lemma {:induction false} UnderTrans(o: map<nat, Owner>, q: nat, c: nat, p: nat)
    requires Under(o, q, c) && Under(o, c, p)
    ensures Under(o, q, p)
    decreases Depth(o, q)
  {
    if q != c {
      UnderTrans(o, o[q].parent, c, p);
    }
  }

  /** o arises from o0 by freeing some pages below p, whole subtrees at a time. */
  ghost predicate Cleared(o0: map<nat, Owner>, o: map<nat, Owner>, p: nat) {
    && o.Keys == o0.Keys
    && (forall q {:trigger Under(o0, q, p)} :: Under(o0, q, p) ==> o[q] == Free || (o[q] == o0[q] && Under(o, q, p)))
    && (forall q {:trigger Under(o0, q, p)} :: q in o0 && !Under(o0, q, p) ==> o[q] == o0[q])
  }

  /** o arises from o0 by freeing p and all that hangs below it. */
  ghost predicate Taken(o0: map<nat, Owner>, o: map<nat, Owner>, p: nat) {
    && o.Keys == o0.Keys
    && (forall q {:trigger Under(o0, q, p)} :: q in o0 ==> o[q] == if Under(o0, q, p) then Free else o0[q])
  }

  lemma {:induction false} UnderBack(o0: map<nat, Owner>, o: map<nat, Owner>, q: nat, p: nat)
    requires Cleared(o0, o, p) && Under(o, q, p)
    ensures Under(o0, q, p)
    decreases Depth(o, q)
  {
    if q != p {
      UnderBack(o0, o, o[q].parent, p);
    }
  }

  lemma {:induction false} UnderLoose(o: map<nat, Owner>, o1: map<nat, Owner>, q: nat, c: nat)
    requires c in o && o[c].Table? && o1 == o[c := Loose(o[c].level)]
    ensures Under(o1, q, c) <==> Under(o, q, c)
    decreases Depth(o, q)
  {
    if q in o && q != c && o[q].Table? && Depth(o, o[q].parent) < Depth(o, q) {
      UnderLoose(o, o1, o[q].parent, c);
    }
  }

  lemma {:induction false} StillUnder(o: map<nat, Owner>, o1: map<nat, Owner>, o2: map<nat, Owner>, q: nat, c: nat,
          p: nat)
    requires c in o && o[c].Table? && o1 == o[c := Loose(o[c].level)] && Taken(o1, o2, c) && Under(o, q, p) &&
             !Under(o, q, c)
    ensures Under(o2, q, p)
    decreases Depth(o, q)
  {
    UnderLoose(o, o1, q, c);
    if q != p {
      StillUnder(o, o1, o2, o[q].parent, c, p);
      UnderLoose(o, o1, o[q].parent, c);
    }
  }

  /** Freeing one more child with all that hangs below it. */
  lemma ClearChild(o0: map<nat, Owner>, o: map<nat, Owner>, o1: map<nat, Owner>, o2: map<nat, Owner>, c: nat, p: nat)
    requires Cleared(o0, o, p) && c in o && o[c].Table? && o1 == o[c := Loose(o[c].level)] && Taken(o1, o2, c) &&
             Under(o, c, p)
    ensures Cleared(o0, o2, p)
  {
    forall q | q in o0
      ensures Under(o0, q, p) ==> o2[q] == Free || (o2[q] == o0[q] && Under(o2, q, p))
      ensures !Under(o0, q, p) ==> o2[q] == o0[q]
    {
      UnderLoose(o, o1, q, c);
      if Under(o, q, c) {
        UnderTrans(o, q, c, p);
        UnderBack(o0, o, q, p);
      } else if Under(o, q, p) {
        StillUnder(o, o1, o2, q, c, p);
      }
    }
  }

  /** Below a page without entries there is nothing. */
  lemma {:induction false} EmptyAlone(m: Mem, q: nat, p: nat)
    requires Inv(m) && Empty(m.pt, p) && Under(m.owner, q, p)
    ensures q == p
    decreases Depth(m.owner, q)
  {
    if q != p {
      assert PageOk(m, q);
      PteRoundTrip(q, PTE_V);
      EmptyAlone(m, m.owner[q].parent, p);
      assert false;
    }
  }

  // ---------- what freewalk does ----------

  /** No level-0 page of the tree below p has a valid entry. */
  ghost predicate Leafless(m: Mem, p: nat) {
    forall q {:trigger Under(m.owner, q, p)} ::
      Under(m.owner, q, p) && IsTable(m.owner[q]) && Level(m.owner[q]) == 0 ==> Empty(m.pt, q)
  }

  ghost predicate OthersKept(m: Mem, n: Mem, p: nat) {
    forall q, y {:trigger Entry(n.pt, q, y)} :: q in m.owner && !Under(m.owner, q, p) ==>
      Entry(n.pt, q, y) == Entry(m.pt, q, y)
  }

  /** freewalk(p), begun in m0, has dealt with the first i entries of p. */
  ghost predicate Progress(m0: Mem, m: Mem, p: nat, level: nat, i: nat) {
    && Cleared(m0.owner, m.owner, p) && p in m.owner && m.owner[p] == m0.owner[p] == Loose(level)
    && (forall y: nat {:trigger Entry(m.pt, p, y)} :: Entry(m.pt, p, y) == if y < i then 0 else Entry(m0.pt, p, y))
    && (forall q, y {:trigger Entry(m.pt, q, y)} :: q in m0.owner && q != p && m.owner[q] == m0.owner[q] ==>
         Entry(m.pt, q, y) == Entry(m0.pt, q, y))
    && (forall q {:trigger Under(m0.owner, q, p)} ::
          Under(m0.owner, q, p) && m.owner[q] == Free && IsTable(m0.owner[q]) && Level(m0.owner[q]) == 0 ==>
            Empty(m0.pt, q))
    && (level == 0 ==> forall y :: 0 <= y < i ==> Entry(m0.pt, p, y) == 0)
  }

  lemma ProgressNone(m: Mem, p: nat, level: nat)
    requires p in m.owner && m.owner[p] == Loose(level)
    ensures Progress(m, m, p, level, 0)
  {
  }

  /** An entry that is not valid. */
  lemma ProgressSkip(m0: Mem, m: Mem, p: nat, level: nat, i: nat)
    requires Progress(m0, m, p, level, i) && Entry(m.pt, p, i) == 0
    ensures Progress(m0, m, p, level, i + 1)
  {
  }

  /** The state after cutting off the child that entry i of p points to. */
  ghost predicate CutOff(m: Mem, m1: Mem, p: nat, level: nat, i: nat, c: nat) {
    && 0 < level <= 2 && TableAt(m, p, level) && m.owner[p].Loose? && i < NPTE
    && c in m.owner && m.owner[c] == Table(p, i, level - 1) && m1 == Detach(m, p, i, c, level - 1)
  }

  lemma ChildUnder(m: Mem, m1: Mem, p: nat, level: nat, i: nat, c: nat)
    requires CutOff(m, m1, p, level, i, c)
    ensures Under(m.owner, c, p) && !Under(m1.owner, p, c)
  {
    assert Depth(m.owner, p) == 2 - level && Depth(m.owner, c) == 3 - level;
  }

  /** A page below a child that is still in place is as it was. */
  lemma BelowChild(m0: Mem, m: Mem, m1: Mem, p: nat, level: nat, i: nat, c: nat, q: nat)
    requires Progress(m0, m, p, level, i) && CutOff(m, m1, p, level, i, c) && Under(m1.owner, q, c)
    ensures q != p && Under(m0.owner, q, p) && m.owner[q] == m0.owner[q]
    ensures IsTable(m.owner[q]) && Level(m.owner[q]) == Level(m1.owner[q])
  {
    UnderLoose(m.owner, m1.owner, q, c);
    ChildUnder(m, m1, p, level, i, c);
    UnderTrans(m.owner, q, c, p);
    UnderBack(m0.owner, m.owner, q, p);
  }

  lemma SameRow(m0: Mem, m: Mem, m1: Mem, p: nat, level: nat, i: nat, c: nat, q: nat)
    requires Progress(m0, m, p, level, i) && CutOff(m, m1, p, level, i, c) && q in m0.owner && q != p &&
             m.owner[q] == m0.owner[q]
    ensures Empty(m1.pt, q) <==> Empty(m0.pt, q)
  {
    forall y: nat ensures Entry(m1.pt, q, y) == Entry(m0.pt, q, y) {
      assert Entry(m1.pt, q, y) == Entry(m.pt, q, y);
    }
  }

  /** A leaf below the child is a leaf below p. */
  lemma LeafBelow(m0: Mem, m: Mem, m1: Mem, p: nat, level: nat, i: nat, c: nat)
    requires Progress(m0, m, p, level, i) && CutOff(m, m1, p, level, i, c) && Leafless(m0, p)
    ensures Leafless(m1, c)
  {
    forall q | Under(m1.owner, q, c) && IsTable(m1.owner[q]) && Level(m1.owner[q]) == 0 ensures Empty(m1.pt, q) {
      BelowChild(m0, m, m1, p, level, i, c, q);
      SameRow(m0, m, m1, p, level, i, c, q);
    }
  }

  /** The state after freewalk of the child. */
  ghost predicate ChildGone(m1: Mem, m2: Mem, c: nat) {
    Taken(m1.owner, m2.owner, c) && Leafless(m1, c) && OthersKept(m1, m2, c)
  }

  lemma GoneRow(m0: Mem, m: Mem, m1: Mem, m2: Mem, p: nat, level: nat, i: nat, c: nat, q: nat, y: nat)
    requires Progress(m0, m, p, level, i) && CutOff(m, m1, p, level, i, c) && ChildGone(m1, m2, c)
    ensures Entry(m2.pt, p, y) == if y < i + 1 then 0 else Entry(m0.pt, p, y)
    ensures q in m0.owner && q != p && m2.owner[q] == m0.owner[q] ==> Entry(m2.pt, q, y) == Entry(m0.pt, q, y)
  {
    ChildUnder(m, m1, p, level, i, c);
    assert Entry(m2.pt, p, y) == Entry(m1.pt, p, y);
    assert Entry(m.pt, p, y) == if y < i then 0 else Entry(m0.pt, p, y);
    if q in m0.owner && q != p && m2.owner[q] == m0.owner[q] {
      if Under(m1.owner, q, c) {
        BelowChild(m0, m, m1, p, level, i, c, q);
        assert false;
      }
      assert Entry(m2.pt, q, y) == Entry(m1.pt, q, y) == Entry(m.pt, q, y);
    }
  }

  lemma GoneLeaf(m0: Mem, m: Mem, m1: Mem, m2: Mem, p: nat, level: nat, i: nat, c: nat, q: nat)
    requires Progress(m0, m, p, level, i) && CutOff(m, m1, p, level, i, c) && ChildGone(m1, m2, c)
    requires Under(m0.owner, q, p) && m2.owner[q] == Free && IsTable(m0.owner[q]) && Level(m0.owner[q]) == 0
    ensures Empty(m0.pt, q)
  {
    if Under(m1.owner, q, c) {
      BelowChild(m0, m, m1, p, level, i, c, q);
      SameRow(m0, m, m1, p, level, i, c, q);
    }
  }

  lemma ProgressChild(m0: Mem, m: Mem, m1: Mem, m2: Mem, p: nat, level: nat, i: nat, c: nat)
    requires Progress(m0, m, p, level, i) && CutOff(m, m1, p, level, i, c) && ChildGone(m1, m2, c)
    ensures Progress(m0, m2, p, level, i + 1)
  {
    ChildUnder(m, m1, p, level, i, c);
    ClearChild(m0.owner, m.owner, m1.owner, m2.owner, c, p);
    forall q, y: nat
      ensures Entry(m2.pt, p, y) == if y < i + 1 then 0 else Entry(m0.pt, p, y)
      ensures q in m0.owner && q != p && m2.owner[q] == m0.owner[q] ==> Entry(m2.pt, q, y) == Entry(m0.pt, q, y)
    {
      GoneRow(m0, m, m1, m2, p, level, i, c, q, y);
    }
    forall q | Under(m0.owner, q, p) && m2.owner[q] == Free && IsTable(m0.owner[q]) && Level(m0.owner[q]) == 0
      ensures Empty(m0.pt, q)
    {
      GoneLeaf(m0, m, m1, m2, p, level, i, c, q);
    }
  }

  /** After the last entry, kfree of p itself finishes the tree. */
  lemma AllGone(m0: Mem, m: Mem, n: Mem, p: nat, level: nat)
    requires Inv(m) && Progress(m0, m, p, level, NPTE) && TableAt(m0, p, level) && n == Release(m, p)
    ensures Empty(m.pt, p) && ChildGone(m0, n, p)
  {
    forall x: nat ensures Entry(m.pt, p, x) == 0 {
      assert x >= NPTE ==> Entry(m0.pt, p, x) == 0;
    }
    forall q | q in m0.owner ensures n.owner[q] == if Under(m0.owner, q, p) then Free else m0.owner[q] {
      if Under(m0.owner, q, p) && m.owner[q] != Free {
        EmptyAlone(m, q, p);
      }
    }
    forall q | Under(m0.owner, q, p) && IsTable(m0.owner[q]) && Level(m0.owner[q]) == 0 ensures Empty(m0.pt, q) {
      if q == p {
        forall x: nat ensures Entry(m0.pt, p, x) == 0 {
        }
      } else if m.owner[q] != Free {
        EmptyAlone(m, q, p);
        assert false;
      }
    }
  }
}
