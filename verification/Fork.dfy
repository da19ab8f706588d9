/** uvmcopy of kernel/vm.c: a child gets copies of its parent's pages. */
module Fork {
  import opened Sv39
  import opened PageTable
  import opened Translation
  import opened Paths
  import opened Ranges
  import opened Growth
  import opened Vm

  /** One round of uvmcopy's loop, up to its error path. */
  method CopyOne(v: Memory, src: nat, dst: nat, a: nat, ghost b: Plan, ghost k: nat)
    returns (r: Outcome, ghost l: Leaf)
    requires GoesOn(b, Present(v.pt, dst), |v.freelist|, k) && a == b.first + k * 4096 < MAXVA && k < b.n && b.own
    requires (k in b.early <==> Page(src, a) !in v.maps) && (k in b.good <==> k !in b.early && Page(dst, a) !in v.maps)
    requires v.Inv() && IsRoot(v.View(), src) && IsRoot(v.View(), dst) && PageAligned(a) && a < TWO64
    modifies v
    ensures v.Inv() && DataKept(old(v.owner), old(v.data), v.data)
    ensures if r == Done then GoesOn(b, Present(v.pt, dst), |v.freelist|, k + 1) else EndsAs(r, b)
    ensures r == NoMem ==> v.maps == old(v.maps) && Took(old(v.owner), v.owner, {})
    ensures r == Done ==>
              Page(src, a) in old(v.maps) && Page(dst, a) !in old(v.maps) &&
              v.maps == old(v.maps)[Page(dst, a) := l] && a < MAXVA
    ensures r == Done ==>
              Took(old(v.owner), v.owner, {Pte2Pa(l.pte)}) && Flags(l.pte) == Flags(old(v.maps)[Page(src, a)].pte)
    ensures r == Done ==>
            NewPage(old(v.owner), v.owner, v.data, l, Bytes(old(v.data), Pte2Pa(old(v.maps)[Page(src, a)].pte)))
  {
    l := Leaf(0, false);
    var q, x;
    r, q, x := v.Walk(src, a, false);
    if r != Done || !Valid(v.pt[q][x]) {
      RoundMeets(b, Present(v.pt, dst), |v.freelist|, k);
      return Panic, l;
    }
    var pa, flags := Pte2Pa(v.pt[q][x]), Flags(v.pt[q][x]);
    assert WithV(flags) == flags;
    r, l := v.PayPage(dst, a, Bytes(v.data, pa), flags, b, k);
  }

  /** uvmcopy */
  method UvmCopy(v: Memory, src: nat, dst: nat, sz: nat) returns (r: Outcome, ghost es: seq<Leaf>)
    requires v.Inv() && IsRoot(v.View(), src) && IsRoot(v.View(), dst) && src != dst && sz <= MAXVA
    requires AllOwned(v.maps, src, 0, Steps(0, sz))
    modifies v
    ensures v.Inv()
    ensures r == Done ==> |es| == Steps(0, sz) && AllMapped(old(v.maps), src, 0, |es|)
    ensures r == Done ==>
              Grown(old(v.owner), v.owner, old(v.data), v.data, old(v.maps), v.maps, dst, 0, es,
                CopyOf(old(v.maps), old(v.data), src))
    ensures r == NoMem ==>
              v.maps == old(v.maps) && Took(old(v.owner), v.owner, {}) && DataKept(old(v.owner), old(v.data), v.data)
    ensures EndsAs(r, old(CopyPlan(v, src, dst, Steps(0, sz))))
  {
    es := [];
    ghost var b := CopyPlan(v, src, dst, Steps(0, sz));
    Begins(b);
    var i := 0;
    ghost var w, a0, x, d0 := CopyOf(v.maps, v.data, src), v.owner, v.data, v.maps;
    StepsAt(0, sz, 0);
    GrownNone(v.owner, v.data, v.maps, dst, 0, w);
    while i < sz
      invariant v.Inv() && i == |es| * 4096 && (i < sz <==> |es| < Steps(0, sz)) && |es| <= Steps(0, sz)
      invariant Grown(a0, v.owner, x, v.data, d0, v.maps, dst, 0, es, w) && AllMapped(d0, src, 0, |es|)
      invariant GoesOn(b, Present(v.pt, dst), |v.freelist|, |es|)
    {
      r, es := CopyRound(v, src, dst, i, a0, x, d0, es, Steps(0, sz), b);
      if r != Done {
        return;
      }
      i := i + 4096;
      StepsAt(0, sz, |es|);
    }
    AllRounds(b, Present(v.pt, dst), |v.freelist|);
    return Done, es;
  }

  /** To copy n pages: those are good that the parent has and the child has not; a page that the parent has not
      is found out early. */
  ghost function CopyPlan(v: Memory, src: nat, dst: nat, n: nat): Plan
    reads v
  {
    Plan(Present(v.pt, dst), |v.freelist|, 0, n, Copied(v.maps, src, dst), true, Absent(v.maps, src))
  }

  ghost function Copied(d: Maps, src: nat, dst: nat): iset<nat> {
    iset i: nat | Nth(src, 0, i) in d && Nth(dst, 0, i) !in d
  }

  ghost function Absent(d: Maps, src: nat): iset<nat> {
    iset i: nat | Nth(src, 0, i) !in d
  }

  /** One round of uvmcopy's loop, with its error path. */
  method CopyRound(v: Memory, src: nat, dst: nat, i: nat, ghost a0: map<nat, Owner>, ghost x: Data, ghost d0: Maps,
          ghost es: seq<Leaf>, ghost n: nat, ghost b: Plan)
    returns (r: Outcome, ghost es': seq<Leaf>)
    requires GoesOn(b, Present(v.pt, dst), |v.freelist|, |es|) && n == b.n && b.first == 0 && b.own && i < MAXVA
    requires b.good == Copied(d0, src, dst) && b.early == Absent(d0, src)
    requires v.Inv() && src in a0 && a0[src] == Root && dst in a0 && a0[dst] == Root && src != dst &&
             i == |es| * 4096 < TWO64 && |es| < n
    requires Grown(a0, v.owner, x, v.data, d0, v.maps, dst, 0, es, CopyOf(d0, x, src)) &&
             AllMapped(d0, src, 0, |es|) && AllOwned(d0, src, 0, n)
    modifies v
    ensures v.Inv()
    ensures r == Done ==> |es'| == |es| + 1 && AllMapped(d0, src, 0, |es'|)
    ensures r == Done ==> Grown(a0, v.owner, x, v.data, d0, v.maps, dst, 0, es', CopyOf(d0, x, src))
    ensures r == NoMem ==> v.maps == d0 && Took(a0, v.owner, {}) && DataKept(a0, x, v.data)
    ensures if r == Done then GoesOn(b, Present(v.pt, dst), |v.freelist|, |es'|) else EndsAs(r, b)
  {
    ghost var m, y, d, w, l := v.View(), v.data, v.maps, CopyOf(d0, x, src), Leaf(0, false);
    GrownRoot(a0, v.owner, x, v.data, d0, v.maps, dst, 0, es, w, src);
    GrownRoot(a0, v.owner, x, v.data, d0, v.maps, dst, 0, es, w, dst);
    RunsApart(d0, d, src, dst, es);
    AlignedIff(i);
    r, l := CopyOne(v, src, dst, i, b, |es|);
    es' := es + [l];
    match r {
      case Panic =>
      case NoMem =>
        GrownSame(a0, m.owner, v.owner, x, y, v.data, d0, d, dst, 0, es, w);
        v.UndoRun(dst, i / 4096, a0, x, d0, es, w, 0);
      case Done =>
        AllOwnedAt(d0, src, 0, n, |es|);
        SourceKept(m, a0, x, y, d0, d, src, dst, es, w, Page(src, i));
        GrownMore(a0, m.owner, v.owner, x, y, v.data, d0, d, v.maps, dst, 0, es, w, l, Page(dst, i));
    }
  }

  /** The pages of the two trees are still mapped, or not, as they were. */
  lemma RunsApart(d0: Maps, d: Maps, src: nat, dst: nat, es: seq<Leaf>)
    requires d == AddLeaves(d0, dst, 0, es) && src != dst
    ensures Nth(src, 0, |es|) in d <==> Nth(src, 0, |es|) in d0
    ensures Nth(src, 0, |es|) in d ==> d[Nth(src, 0, |es|)] == d0[Nth(src, 0, |es|)]
    ensures Nth(dst, 0, |es|) in d <==> Nth(dst, 0, |es|) in d0
  {
    AddedElsewhere(d0, dst, 0, es, Nth(src, 0, |es|));
    AddedAt(d0, dst, 0, es, |es|);
  }

  /** The parent's page still holds what it held. */
  lemma SourceKept(m: Mem, a0: map<nat, Owner>, x: Data, y: Data, d0: Maps, d: Maps, src: nat, dst: nat, es: seq<Leaf>,
          w: Want, k: Page)
    requires Ok(m, d) && Grown(a0, m.owner, x, y, d0, d, dst, 0, es, w) && src != dst && k == Nth(src, 0, |es|) &&
             k in d && d[k].own
    ensures Bytes(y, Pte2Pa(d[k].pte)) == Bytes(x, Pte2Pa(d[k].pte))
  {
    var p := Pte2Pa(d[k].pte);
    OwnedOnce(m, d, k, k);
    if p in PagesOf(es) {
      var i :| 0 <= i < |es| && p == Pte2Pa(es[i].pte);
      BackedAt(a0, m.owner, y, es, w, i);
      AddedAt(d0, dst, 0, es, i);
      OwnedOnce(m, d, k, Nth(dst, 0, i));
      assert false;
    }
  }
}
