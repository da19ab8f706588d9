/** How the growth of a process moves pages: from the free list into page tables, and to the
    leaves that map them. */
module Growth {
  import opened Blocks
  import opened Sv39
  import opened PageTable
  import opened Ranges

  /** Pages outside `extra` have only moved from the free list into the trees. */
  ghost predicate Took(a: map<nat, Owner>, b: map<nat, Owner>, extra: set<nat>) {
    && b.Keys == a.Keys
    && (forall p :: p in a && p !in extra ==> b[p] == a[p] || (a[p] == Free && b[p].Table?))
  }

  lemma KeptTrans(a: map<nat, Owner>, b: map<nat, Owner>, x: Data, y: Data, z: Data)
    requires Took(a, b, {}) && DataKept(a, x, y) && DataKept(b, y, z)
    ensures DataKept(a, x, z)
  {
    forall p | p in a && a[p] != Free ensures Bytes(z, p) == Bytes(x, p) {
      assert Bytes(y, p) == Bytes(x, p);
    }
  }

  lemma TookOne(a: map<nat, Owner>, b: map<nat, Owner>, c: map<nat, Owner>, p: nat, o: Owner, own: bool)
    requires Took(a, b, {}) && c == (if own then b[p := o] else b) && (own ==> p in b)
    ensures Took(a, c, if own then {p} else {})
  {
  }

  /** The leaf l owns a page that was free before and holds the given bytes. */
  ghost predicate NewPage(a0: map<nat, Owner>, a: map<nat, Owner>, y: Data, l: Leaf, contents: seq<byte>) {
    var p := Pte2Pa(l.pte);
    l.own && p in a0 && a0[p] == Free && p in a && a[p].User? && Bytes(y, p) == contents
  }

  /** kalloc, filling the page, and mappages, taken together */
  lemma TakenIn(a: map<nat, Owner>, b: map<nat, Owner>, c: map<nat, Owner>, x: Data, y: Data, z: Data, p: nat, l: Leaf,
          contents: seq<byte>)
    requires p in a && a[p] == Free && b == a[p := Kernel] && Took(b, c, {p}) && c[p].User? && |contents| == 4096
    requires DataKept(a, x, y) && Bytes(y, p) == contents && DataKept(b, y, z) && l.own && Pte2Pa(l.pte) == p
    ensures Took(a, c, {Pte2Pa(l.pte)}) && NewPage(a, c, z, l, contents) && DataKept(a, x, z)
  {
    forall q | q in a && a[q] != Free ensures Bytes(z, q) == Bytes(x, q) {
      assert Bytes(y, q) == Bytes(x, q);
      assert q in b && b[q] != Free;
    }
    assert p in b && b[p] != Free;
  }

  /** kalloc, filling the page, a mappages that fails, and kfree, taken together */
  lemma PutBack(a: map<nat, Owner>, b: map<nat, Owner>, c: map<nat, Owner>, x: Data, y: Data, z: Data, p: nat, w: Data)
    requires p in a && a[p] == Free && b == a[p := Kernel] && Took(b, c, {})
    requires DataKept(a, x, y) && DataKept(b, y, z) && w == z[p := Fill(1)]
    ensures Took(a, c[p := Free], {}) && DataKept(a, x, w)
  {
    forall q | q in a && a[q] != Free ensures Bytes(w, q) == Bytes(x, q) {
      assert Bytes(y, q) == Bytes(x, q);
      assert q in b && b[q] != Free;
      assert Bytes(z, q) == Bytes(y, q);
    }
  }

  /** What a run of new pages shall hold: zeros under one set of flags (uvmalloc), or the contents
      and flags of the pages of another tree (uvmcopy). */
  datatype Want = Zeros(flags: nat) | CopyOf(d: Maps, x: Data, root: nat)

  ghost function Source(w: Want, i: nat): Leaf
    requires w.CopyOf?
  {
    if Nth(w.root, 0, i) in w.d then w.d[Nth(w.root, 0, i)] else Leaf(0, false)
  }

  ghost function WantBytes(w: Want, i: nat): (s: seq<byte>)
    ensures |s| == 4096
  {
    if w.Zeros? then Fill(0) else Bytes(w.x, Pte2Pa(Source(w, i).pte))
  }

  ghost function WantFlags(w: Want, i: nat): nat {
    if w.Zeros? then w.flags else Flags(Source(w, i).pte)
  }

  /** The leaves es own pages that were free and hold what w asks for. */
  ghost predicate Backed(a0: map<nat, Owner>, a: map<nat, Owner>, y: Data, es: seq<Leaf>, w: Want) {
    es != [] ==>
      var i := |es| - 1;
      Backed(a0, a, y, es[..i], w) && NewPage(a0, a, y, es[i], WantBytes(w, i)) && Flags(es[i].pte) == WantFlags(w, i)
  }

  ghost function PagesOf(es: seq<Leaf>): set<nat> {
    set i | 0 <= i < |es| :: Pte2Pa(es[i].pte)
  }

  /** The tree maps the run es of new pages; otherwise only page tables have been added. */
  ghost predicate Grown(a0: map<nat, Owner>, a: map<nat, Owner>, x: Data, y: Data, d0: Maps, d: Maps, root: nat,
          first: nat, es: seq<Leaf>, w: Want)
  {
    && Backed(a0, a, y, es, w) && Took(a0, a, PagesOf(es)) && DataKept(a0, x, y)
    && d == AddLeaves(d0, root, first, es) && NoneMapped(d0, root, first, |es|)
  }

  lemma {:induction false} BackedAt(a0: map<nat, Owner>, a: map<nat, Owner>, y: Data, es: seq<Leaf>, w: Want, i: nat)
    requires Backed(a0, a, y, es, w) && i < |es|
    ensures NewPage(a0, a, y, es[i], WantBytes(w, i)) && Flags(es[i].pte) == WantFlags(w, i)
  {
    if i < |es| - 1 {
      BackedAt(a0, a, y, es[..|es|-1], w, i);
    }
  }

  lemma {:induction false} BackedKept(a0: map<nat, Owner>, a: map<nat, Owner>, b: map<nat, Owner>, y: Data, z: Data,
          es: seq<Leaf>, w: Want, S: set<nat>)
    requires Backed(a0, a, y, es, w) && Took(a, b, S) && DataKept(a, y, z) &&
             (forall p :: p in S && p in a ==> !a[p].User?)
    ensures Backed(a0, b, z, es, w)
  {
    if es != [] {
      BackedKept(a0, a, b, y, z, es[..|es|-1], w, S);
    }
  }

  lemma DataTrans(a0: map<nat, Owner>, a: map<nat, Owner>, x: Data, y: Data, z: Data, es: seq<Leaf>, w: Want)
    requires Backed(a0, a, y, es, w) && Took(a0, a, PagesOf(es)) && DataKept(a0, x, y) && DataKept(a, y, z)
    ensures DataKept(a0, x, z)
  {
    forall p | p in a0 && a0[p] != Free ensures Bytes(z, p) == Bytes(x, p) {
      assert Bytes(y, p) == Bytes(x, p);
      if p in PagesOf(es) {
        var i :| 0 <= i < |es| && p == Pte2Pa(es[i].pte);
        BackedAt(a0, a, y, es, w, i);
        assert false;
      }
    }
  }

  /** A page that is free now was free before the run was added. */
  lemma StillFree(a0: map<nat, Owner>, a: map<nat, Owner>, y: Data, es: seq<Leaf>, w: Want, p: nat)
    requires Backed(a0, a, y, es, w) && Took(a0, a, PagesOf(es)) && p in a && a[p] == Free
    ensures p in a0 && a0[p] == Free && p !in PagesOf(es)
  {
    if p in PagesOf(es) {
      var i :| 0 <= i < |es| && p == Pte2Pa(es[i].pte);
      BackedAt(a0, a, y, es, w, i);
      assert false;
    }
  }

  /** Nothing but page tables were added since. */
  lemma GrownSame(a0: map<nat, Owner>, a: map<nat, Owner>, b: map<nat, Owner>, x: Data, y: Data, z: Data, d0: Maps,
          d: Maps, root: nat, first: nat, es: seq<Leaf>, w: Want)
    requires Grown(a0, a, x, y, d0, d, root, first, es, w) && Took(a, b, {}) && DataKept(a, y, z)
    ensures Grown(a0, b, x, z, d0, d, root, first, es, w)
  {
    BackedKept(a0, a, b, y, z, es, w, {});
    DataTrans(a0, a, x, y, z, es, w);
  }

  /** One more page, as AddPage adds it. */
  lemma GrownMore(a0: map<nat, Owner>, a: map<nat, Owner>, b: map<nat, Owner>, x: Data, y: Data, z: Data, d0: Maps,
          d: Maps, e: Maps, root: nat, first: nat, es: seq<Leaf>, w: Want, l: Leaf, k: Page)
    requires Grown(a0, a, x, y, d0, d, root, first, es, w) && k == Nth(root, first, |es|) && k !in d && e == d[k := l]
    requires Took(a, b, {Pte2Pa(l.pte)}) && DataKept(a, y, z) && NewPage(a, b, z, l, WantBytes(w, |es|)) &&
             Flags(l.pte) == WantFlags(w, |es|)
    ensures Grown(a0, b, x, z, d0, e, root, first, es + [l], w)
  {
    BackedKept(a0, a, b, y, z, es, w, {Pte2Pa(l.pte)});
    DataTrans(a0, a, x, y, z, es, w);
    StillFree(a0, a, y, es, w, Pte2Pa(l.pte));
    AddedAt(d0, root, first, es, |es|);
    AddOne(d0, root, first, es, l);
    assert (es + [l])[..|es|] == es;
    PagesGrow(es, l);
  }

  lemma PagesGrow(es: seq<Leaf>, l: Leaf)
    ensures PagesOf(es + [l]) == PagesOf(es) + {Pte2Pa(l.pte)}
  {
    assert forall i :: 0 <= i < |es| ==> (es + [l])[i] == es[i];
    assert (es + [l])[|es|] == l;
    forall p | p in PagesOf(es) + {Pte2Pa(l.pte)} ensures p in PagesOf(es + [l]) {
      if p in PagesOf(es) {
        var i :| 0 <= i < |es| && p == Pte2Pa(es[i].pte);
        assert p == Pte2Pa((es + [l])[i].pte);
      } else {
        assert p == Pte2Pa((es + [l])[|es|].pte);
      }
    }
  }

  /** uvmunmap of the run gives back every page that was taken for it. */
  lemma Undone(a0: map<nat, Owner>, a: map<nat, Owner>, b: map<nat, Owner>, x: Data, y: Data, z: Data, d0: Maps,
          d: Maps, e: Maps, root: nat, first: nat, es: seq<Leaf>, w: Want)
    requires Grown(a0, a, x, y, d0, d, root, first, es, w) && Unmapped(d, e, a, b, y, z, root, first, |es|, Free)
    ensures e == d0 && Took(a0, b, {}) && DataKept(a0, x, z)
  {
    AddThenDrop(d0, root, first, es);
    forall i | 0 <= i < |es| ensures es[i].own {
      BackedAt(a0, a, y, es, w, i);
    }
    AddedOwned(d0, root, first, es, |es|);
    assert OwnedPages(d, root, first, |es|) == PagesOf(es);
    forall p | p in PagesOf(es) ensures p in a0 && a0[p] == Free {
      var i :| 0 <= i < |es| && p == Pte2Pa(es[i].pte);
      BackedAt(a0, a, y, es, w, i);
    }
    forall p | p in a0 && a0[p] != Free ensures Bytes(z, p) == Bytes(x, p) {
      WipedAt(y, d, root, first, |es|, p);
    }
  }

  lemma RunOwned(a0: map<nat, Owner>, a: map<nat, Owner>, x: Data, y: Data, d0: Maps, d: Maps, root: nat, first: nat,
          es: seq<Leaf>, w: Want)
    requires Grown(a0, a, x, y, d0, d, root, first, es, w)
    ensures AllMapped(d, root, first, |es|) && AllOwned(d, root, first, |es|)
  {
    forall i | 0 <= i < |es| ensures es[i].own {
      BackedAt(a0, a, y, es, w, i);
    }
    AddedOwned(d0, root, first, es, |es|);
  }

  lemma GrownNone(a: map<nat, Owner>, x: Data, d: Maps, root: nat, first: nat, w: Want)
    ensures Grown(a, a, x, x, d, d, root, first, [], w)
  {
  }

  lemma GrownRoot(a0: map<nat, Owner>, a: map<nat, Owner>, x: Data, y: Data, d0: Maps, d: Maps, root: nat, first: nat,
          es: seq<Leaf>, w: Want, r: nat)
    requires Grown(a0, a, x, y, d0, d, root, first, es, w) && r in a0 && a0[r] == Root
    ensures r in a && a[r] == Root
  {
    if r in PagesOf(es) {
      var i :| 0 <= i < |es| && r == Pte2Pa(es[i].pte);
      BackedAt(a0, a, y, es, w, i);
      assert false;
    }
  }
}
