/** Address translation as the machine does it (section 4.3.2 of the RISC-V Privileged Architecture, version 1.12, for
    Sv39), on the page tables that kernel/vm.c builds. */
module Mmu {
  import opened Wrappers
  import opened Sv39
  import opened PageTable
  import opened Translation
  import opened Ranges
  import opened Growth
  import opened UserCopy

  datatype Access = Fetch | Load | Store

  predicate V(e: nat) { e % 2 == 1 }

  predicate R(e: nat) { e / 2 % 2 == 1 }

  predicate W(e: nat) { e / 4 % 2 == 1 }

  predicate X(e: nat) { e / 8 % 2 == 1 }

  predicate U(e: nat) { e / 16 % 2 == 1 }

  /** The physical page number of an entry whose reserved bits are clear. */
  function Ppn(e: nat): nat { e / 1024 }

  /** The i-th part of the virtual page number. */
  function Vpn(va: nat, i: nat): nat {
    if i == 0 then va / 4096 % 512 else Vpn(va / 512, i - 1)
  }

  function Word(pt: Tables, a: nat, x: nat): nat {
    if a in pt && x < |pt[a]| then pt[a][x] else 0
  }

  /** Steps 2 to 4: the leaf, and the level on which it is. */
  function Walk(pt: Tables, a: nat, i: nat, va: nat): Option<(nat, nat)>
    decreases i
  {
    var e := Word(pt, a, Vpn(va, i));
    if !V(e) || (!R(e) && W(e)) then None
    else if R(e) || X(e) then Some((e, i))
    else if i == 0 then None
    else Walk(pt, Ppn(e) * 4096, i - 1, va)
  }

  /** Step 5: from user mode only user pages may be used, and from supervisor mode (with SUM clear) only others. */
  predicate Permits(e: nat, access: Access, user: bool) {
    && U(e) == user
    && match access
       case Fetch => X(e)
       case Load => R(e)
       case Store => W(e)
  }

  /** The number of bytes that a leaf of level l maps. */
  function Size(l: nat): (n: nat)
    ensures n > 0
  {
    if l == 0 then 4096 else 512 * Size(l - 1)
  }

  /** The physical address, or a page fault. Bits 63 to 39 of the address have to equal bit 38; addresses with all of
      these set are above what the source uses. */
  function Translate(pt: Tables, root: nat, va: nat, access: Access, user: bool): Option<nat> {
    if va >= 0x40_0000_0000 then None
    else
      match Walk(pt, root, 2, va)
      case None => None
      case Some((e, l)) =>
        if !Permits(e, access, user) || Ppn(e) * 4096 % Size(l) != 0 then None
        else Some(Ppn(e) * 4096 + va % Size(l))
  }

  // ---------- the indices ----------

  lemma VpnIs(va: nat, l: nat)
    requires l <= 2
    ensures Vpn(va, l) == PX(l, va)
  {
    assert Vpn(va, 0) == va / 4096 % 512;
    if l == 1 {
      assert Vpn(va, 1) == Vpn(va / 512, 0);
      assert va / 512 / 4096 == va / 0x20_0000;
    } else if l == 2 {
      assert Vpn(va, 2) == Vpn(va / 512, 1) == Vpn(va / 512 / 512, 0);
      assert va / 512 / 512 / 4096 == va / 0x4000_0000;
    }
  }

  /** All addresses of a page have its indices. */
  lemma SameIndices(va: nat, l: nat)
    requires l <= 2
    ensures PX(l, PgRoundDown(va)) == PX(l, va)
  {
    PageNumber(va / 4096);
    Shift(va);
    Shift(PgRoundDown(va));
  }

  // ---------- entries ----------

  /** An entry that points to a page-table page sends the machine on to it. */
  lemma Pointer(m: Mem, d: Maps, p: nat, l: nat, va: nat)
    requires Ok(m, d) && 0 < l <= 2 && TableAt(m, p, l)
    ensures Walk(m.pt, p, l, va) ==
            if Child(m.pt, p, l, va) == 0 then None else Walk(m.pt, Child(m.pt, p, l, va), l - 1, va)
  {
    VpnIs(va, l);
    ChildOk(m, d, p, l, va);
    OkIff(m, d);
    assert PageOk(m, p) && EntryOk(m, p, PX(l, va), l);
    var e := Word(m.pt, p, PX(l, va));
    if V(e) {
      OnlyValid(e);
    }
  }

  lemma OnlyValid(e: nat)
    requires Flags(e) == PTE_V
    ensures !R(e) && !W(e) && !X(e)
  {
    Bits(e);
  }

  /** The low bits of an entry are those of its flags. */
  lemma Bits(e: nat)
    ensures V(e) == V(Flags(e)) && R(e) == R(Flags(e)) && W(e) == W(Flags(e)) && X(e) == X(Flags(e)) &&
            U(e) == U(Flags(e))
  {
    var n, f := e / 1024, Flags(e);
    assert e == n * 1024 + f;
    Bit(n * 512, f, 2, e);
    Bit(n * 256, f, 4, e);
    Bit(n * 128, f, 8, e);
    Bit(n * 64, f, 16, e);
    assert e % 2 == f % 2;
  }

  lemma Bit(n: nat, f: nat, b: nat, e: nat)
    requires b in {2, 4, 8, 16} && n % 2 == 0 && e == n * b + f
    ensures e / b % 2 == f / b % 2
  {
    assert e / b == n + f / b;
  }

  /** At level 0 the machine finds the leaf that the tree denotes. */
  lemma Last(m: Mem, d: Maps, root: nat, va: nat)
    requires Ok(m, d) && IsRoot(m, root) && LeafTable(m.pt, root, va) != 0
    ensures var e := Lookup(m.pt, root, va);
            Walk(m.pt, LeafTable(m.pt, root, va), 0, va) == if e == 0 || (!R(e) && W(e)) then None else Some((e, 0))
  {
    VpnIs(va, 0);
    OkIff(m, d);
    LeafOwner(m, root, va);
    var low := LeafTable(m.pt, root, va);
    assert PageOk(m, low) && EntryOk(m, low, PX(0, va), 0);
    var e := Lookup(m.pt, root, va);
    if Valid(e) {
      SomeBit(e);
    }
  }

  lemma SomeBit(e: nat)
    requires LeafBits(Flags(e))
    ensures R(e) || W(e) || X(e)
  {
    Bits(e);
    var h := Flags(e) / 2;
    ThreeBits(h / 8, h % 8, h);
    assert Flags(e) / 4 == h / 2 && Flags(e) / 8 == h / 4;
  }

  lemma ThreeBits(q: nat, g: nat, h: nat)
    requires 0 < g < 8 && h == q * 8 + g
    ensures h % 2 == 1 || h / 2 % 2 == 1 || h / 4 % 2 == 1
  {
    Half(q * 4 + g / 2, g % 2, h);
    Half(q * 2 + g / 4, g / 2 % 2, h / 2);
    Half(q, g / 4, h / 2 / 2);
    assert h / 2 / 2 == h / 4;
  }

  lemma Half(n: nat, b: nat, h: nat)
    requires b < 2 && h == 2 * n + b
    ensures h / 2 == n && h % 2 == b
  {
  }

  /** What the machine finds is what the tree denotes. */
  lemma WalkIs(m: Mem, d: Maps, root: nat, va: nat)
    requires Ok(m, d) && IsRoot(m, root)
    ensures var e := Lookup(m.pt, root, va);
            Walk(m.pt, root, 2, va) == if e == 0 || (!R(e) && W(e)) then None else Some((e, 0))
  {
    RootTable(m, d, root);
    Pointer(m, d, root, 2, va);
    var mid := Child(m.pt, root, 2, va);
    if mid != 0 {
      ChildOk(m, d, root, 2, va);
      Pointer(m, d, mid, 1, va);
      if LeafTable(m.pt, root, va) != 0 {
        Last(m, d, root, va);
      }
    }
  }

  lemma LookupDown(pt: Tables, root: nat, va: nat)
    ensures Lookup(pt, root, PgRoundDown(va)) == Lookup(pt, root, va)
  {
    SameIndices(va, 0);
    SameIndices(va, 1);
    SameIndices(va, 2);
  }

  /** The machine gives exactly the addresses that the map of the tree gives, for the accesses that the leaf allows;
      no leaf with PTE_W alone allows any. */
  lemma TranslateIs(m: Mem, d: Maps, root: nat, va: nat, access: Access, user: bool)
    requires Ok(m, d) && IsRoot(m, root)
    ensures var k := PageAt(root, va);
            Translate(m.pt, root, va, access, user) ==
            if k in d && Permits(d[k].pte, access, user) && (R(d[k].pte) || !W(d[k].pte))
            then Some(Pte2Pa(d[k].pte) + va % 4096) else None
  {
    WalkIs(m, d, root, va);
    LookupDown(m.pt, root, va);
    Rounding(va);
    LeafIs(m, d, root, PgRoundDown(va));
    Given(m.pt, root, va, access, user, Lookup(m.pt, root, va));
    assert va < MAXVA <==> PgRoundDown(va) < MAXVA;
  }

  lemma Given(pt: Tables, root: nat, va: nat, access: Access, user: bool, e: nat)
    requires Walk(pt, root, 2, va) == if e == 0 || (!R(e) && W(e)) then None else Some((e, 0))
    ensures Translate(pt, root, va, access, user) ==
            if va < MAXVA && e != 0 && Permits(e, access, user) && (R(e) || !W(e))
            then Some(Pte2Pa(e) + va % 4096) else None
  {
    PageNumber(Ppn(e));
    assert Size(0) == 4096;
  }

  // ---------- what user code may do ----------

  lemma FlagsAre(e: nat, r: bool, w: bool, x: bool, u: bool)
    requires Flags(e) == FlagsOf(r, w, x, u)
    ensures R(e) == r && W(e) == w && X(e) == x && U(e) == u
  {
    Bits(e);
  }

  /** copyin and copyout use the byte that a load from user mode reads and a store changes; they do not ask for PTE_R
      and PTE_W. */
  lemma UserAccess(m: Mem, d: Maps, data: Data, root: nat, va: nat, access: Access)
    requires Ok(m, d) && IsRoot(m, root) && !access.Fetch?
    ensures var k, pa := PageAt(root, va), Translate(m.pt, root, va, access, true);
            && (pa.Some? <==> UserPage(d, k) && R(d[k].pte) && (access.Store? ==> W(d[k].pte)))
            && (pa.Some? ==> ByteAt(d, data, root, va) == Bytes(data, PgRoundDown(pa.value))[pa.value % 4096])
            && (pa.Some? ==> PgRoundDown(pa.value) == Pte2Pa(d[k].pte) && pa.value % 4096 == va % 4096)
  {
    var k := PageAt(root, va);
    TranslateIs(m, d, root, va, access, true);
    if k in d {
      OnPage(Ppn(d[k].pte), va % 4096);
    }
  }

  lemma OnPage(n: nat, off: nat)
    requires off < 4096
    ensures PgRoundDown(n * 4096 + off) == n * 4096 && (n * 4096 + off) % 4096 == off
  {
  }

  /** Memory that uvmalloc has added can be read from user mode, written and executed exactly as xperm says, and not
      used from supervisor mode. */
  lemma NewMemoryUsable(a0: map<nat, Owner>, a: map<nat, Owner>, x: Data, y: Data, d0: Maps, m: Mem, d: Maps, root: nat,
          first: nat, es: seq<Leaf>, write: bool, exec: bool, va: nat)
    requires Ok(m, d) && IsRoot(m, root) && PageAligned(first) && first <= va < first + |es| * 4096
    requires Grown(a0, a, x, y, d0, d, root, first, es, Zeros(FlagsOf(true, write, exec, true)))
    ensures Translate(m.pt, root, va, Load, true).Some?
    ensures Translate(m.pt, root, va, Store, true).Some? <==> write
    ensures Translate(m.pt, root, va, Fetch, true).Some? <==> exec
    ensures forall access :: Translate(m.pt, root, va, access, false).None?
  {
    var i := (va - first) / 4096;
    PageInRun(root, first, va, |es|, i);
    BackedAt(a0, a, y, es, Zeros(FlagsOf(true, write, exec, true)), i);
    AddedAt(d0, root, first, es, i);
    FlagsAre(es[i].pte, true, write, exec, true);
    forall access, user ensures Translate(m.pt, root, va, access, user).Some? <==> Permits(es[i].pte, access, user) {
      TranslateIs(m, d, root, va, access, user);
    }
  }
}
