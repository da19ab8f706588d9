/** copyout, copyin and copyinstr of kernel/vm.c: copying between the kernel and a user address
    space, page by page. */
module UserCopy {
  import opened Sequences
  import opened Wrappers
  import opened Blocks
  import opened Sv39
  import opened PageTable
  import opened Translation
  import opened Ranges
  import opened Growth
  import opened Vm

  /** The page of the address space that user code sees at va. */
  ghost function PageAt(root: nat, va: nat): Page {
    Page(root, PgRoundDown(va))
  }

  /** User code may use the page k. */
  ghost predicate UserPage(d: Maps, k: Page) {
    k in d && UserBit(d[k].pte)
  }

  /** The byte that user code sees at va. */
  ghost function ByteAt(d: Maps, data: Data, root: nat, va: nat): byte
    requires UserPage(d, PageAt(root, va))
  {
    Bytes(data, Pte2Pa(d[PageAt(root, va)].pte))[va % 4096]
  }

  /** Every address of the range lies on a page that user code may use. */
  ghost predicate Accessible(d: Maps, root: nat, va: nat, len: nat) {
    forall a {:trigger PageAt(root, a)} :: va <= a < va + len ==> UserPage(d, PageAt(root, a))
  }

  lemma AccessibleAt(d: Maps, root: nat, va: nat, len: nat, a: nat)
    requires Accessible(d, root, va, len) && va <= a < va + len
    ensures UserPage(d, PageAt(root, a))
  {
  }

  /** The page address of va, what walkaddr finds there, and the offset of va in its page. */
  method Translate(v: Memory, root: nat, va: nat) returns (va0: nat, pa0: nat, off: nat)
    requires v.Inv() && IsRoot(v.View(), root)
    modifies v
    ensures v.Inv() && v.View() == old(v.View()) && v.data == old(v.data) && v.maps == old(v.maps)
    ensures PageAligned(va0) && va0 + off == va && off < 4096 && PageAt(root, va) == Page(root, va0)
    ensures pa0 != 0 <==> UserPage(v.maps, Page(root, va0))
    ensures pa0 != 0 ==> pa0 == Pte2Pa(v.maps[Page(root, va0)].pte)
  {
    va0 := PgRoundDown(va);
    Rounding(va);
    off := va - va0;
    pa0 := WalkAddr(v, root, va0);
  }

  /** walkaddr of a page address */
  method WalkAddr(v: Memory, root: nat, va: nat) returns (pa: nat)
    requires v.Inv() && IsRoot(v.View(), root) && PageAligned(va)
    modifies v
    ensures v.Inv() && v.View() == old(v.View()) && v.data == old(v.data) && v.maps == old(v.maps)
    ensures pa != 0 <==> UserPage(v.maps, Page(root, va))
    ensures pa != 0 ==> pa == Pte2Pa(v.maps[Page(root, va)].pte)
  {
    if va >= MAXVA {
      LeafIs(v.View(), v.maps, root, va);
      return 0;
    }
    var r, q, x := v.Walk(root, va, false);
    if r != Done || !Valid(v.pt[q][x]) || !UserBit(v.pt[q][x]) {
      return 0;
    }
    UserOwned(v.View(), v.maps, Page(root, va));
    pa := Pte2Pa(v.pt[q][x]);
  }

  /** A page that user code may use belongs to the address space. */
  lemma UserOwned(m: Mem, d: Maps, k: Page)
    requires Ok(m, d) && UserPage(d, k)
    ensures d[k].own && Pte2Pa(d[k].pte) != 0
  {
    OkIff(m, d);
    assert Mapped(m, k);
    LeafOwner(m, k.root, k.va);
    var low := LeafTable(m.pt, k.root, k.va);
    assert PageOk(m, low) && EntryOk(m, low, PX(0, k.va), 0);
    assert PageOk(m, Pte2Pa(d[k].pte));
  }

  /** Two user pages never share memory. */
  lemma UserApart(m: Mem, d: Maps, j: Page, k: Page)
    requires Ok(m, d) && UserPage(d, j) && UserPage(d, k) && Pte2Pa(d[j].pte) == Pte2Pa(d[k].pte)
    ensures j == k
  {
    UserOwned(m, d, j);
    UserOwned(m, d, k);
    OwnedOnce(m, d, j, k);
  }

  // ---------- copyin ----------

  /** The bytes that user code sees from va on. */
  ghost predicate Reads(d: Maps, data: Data, root: nat, va: nat, s: seq<byte>) {
    Accessible(d, root, va, |s|) && forall a {:trigger PageAt(root, a)} :: va <= a < va + |s| ==>
      s[a - va] == ByteAt(d, data, root, a)
  }

  lemma SamePage(root: nat, page: nat, a: nat)
    requires PageAligned(page) && page <= a < page + 4096
    ensures PageAt(root, a) == Page(root, page) && a % 4096 == a - page
  {
    AlignedIff(page);
  }

  /** The n bytes at offset off of a user page. */
  lemma OnePage(d: Maps, data: Data, root: nat, page: nat, off: nat, n: nat)
    requires PageAligned(page) && off + n <= 4096 && UserPage(d, Page(root, page))
    ensures Reads(d, data, root, page + off, Bytes(data, Pte2Pa(d[Page(root, page)].pte))[off..off + n])
  {
    var s := Bytes(data, Pte2Pa(d[Page(root, page)].pte))[off..off + n];
    forall a | page + off <= a < page + off + n
      ensures UserPage(d, PageAt(root, a)) && s[a - (page + off)] == ByteAt(d, data, root, a)
    {
      SamePage(root, page, a);
    }
  }

  lemma ReadsMore(d: Maps, data: Data, root: nat, va: nat, s: seq<byte>, t: seq<byte>)
    requires Reads(d, data, root, va, s) && Reads(d, data, root, va + |s|, t)
    ensures Reads(d, data, root, va, s + t)
  {
    forall a | va <= a < va + |s + t| ensures UserPage(d, PageAt(root, a)) &&
      (s + t)[a - va] == ByteAt(d, data, root, a)
    {
    }
  }

  /** copyin: the bytes, or nothing when a page of the range cannot be used. */
  method CopyIn(v: Memory, root: nat, srcva: nat, len: nat) returns (r: Option<seq<byte>>)
    requires v.Inv() && IsRoot(v.View(), root)
    modifies v
    ensures v.Inv() && v.View() == old(v.View()) && v.data == old(v.data) && v.maps == old(v.maps)
    ensures r.Some? <==> Accessible(v.maps, root, srcva, len)
    ensures r.Some? ==> |r.value| == len && Reads(v.maps, v.data, root, srcva, r.value)
  {
    var dst, left, va := [], len, srcva;
    while left > 0
      invariant v.Inv() && v.View() == old(v.View()) && v.data == old(v.data) && v.maps == old(v.maps)
      invariant left >= 0 && |dst| + left == len && (left > 0 ==> va == srcva + |dst|) &&
                Reads(v.maps, v.data, root, srcva, dst)
    {
      var va0, pa0, off := Translate(v, root, va);
      if pa0 == 0 {
        assert !UserPage(v.maps, PageAt(root, va));
        return None;
      }
      var n := 4096 - off;
      if n > left {
        n := left;
      }
      var piece := Bytes(v.data, pa0)[off..off + n];
      OnePage(v.maps, v.data, root, va0, off, n);
      ReadsMore(v.maps, v.data, root, srcva, dst, piece);
      dst := dst + piece;
      left := left - n;
      va := va0 + 4096;
    }
    return Some(dst);
  }

  // ---------- what user code may use ----------

  /** The page of an address in a run of pages. */
  lemma PageInRun(root: nat, first: nat, a: nat, n: nat, i: nat)
    requires PageAligned(first) && first <= a < first + n * 4096 && i == (a - first) / 4096
    ensures i < n && PageAt(root, a) == Nth(root, first, i)
  {
    AlignedIff(first);
    NextPage(first, 0, i);
    SamePage(root, first + i * 4096, a);
  }

  /** What uvmalloc has added user code may use, whatever xperm says, and finds zeros there. */
  lemma NewMemory(a0: map<nat, Owner>, a: map<nat, Owner>, x: Data, y: Data, d0: Maps, d: Maps, root: nat, first: nat,
          es: seq<Leaf>, write: bool, exec: bool, s: seq<byte>)
    requires Grown(a0, a, x, y, d0, d, root, first, es, Zeros(FlagsOf(true, write, exec, true)))
    requires PageAligned(first) && |s| <= |es| * 4096 && forall i :: 0 <= i < |s| ==> s[i] == 0
    ensures Accessible(d, root, first, |s|) && Reads(d, y, root, first, s)
  {
    forall va | first <= va < first + |s|
      ensures UserPage(d, PageAt(root, va)) && s[va - first] == ByteAt(d, y, root, va)
    {
      var i := (va - first) / 4096;
      PageInRun(root, first, va, |es|, i);
      BackedAt(a0, a, y, es, Zeros(FlagsOf(true, write, exec, true)), i);
      AddedAt(d0, root, first, es, i);
      FlagsTested(es[i].pte, true, write, exec, true);
    }
  }

  /** A child of uvmcopy may use exactly what its parent could, and reads what its parent read. */
  lemma ChildReads(a0: map<nat, Owner>, a: map<nat, Owner>, x: Data, y: Data, d0: Maps, d: Maps, src: nat, dst: nat,
          es: seq<Leaf>, va: nat)
    requires Grown(a0, a, x, y, d0, d, dst, 0, es, CopyOf(d0, x, src)) && AllMapped(d0, src, 0, |es|)
    requires va < |es| * 4096
    ensures UserPage(d, PageAt(dst, va)) <==> UserPage(d0, PageAt(src, va))
    ensures UserPage(d0, PageAt(src, va)) ==> ByteAt(d, y, dst, va) == ByteAt(d0, x, src, va)
  {
    var i := va / 4096;
    PageInRun(dst, 0, va, |es|, i);
    PageInRun(src, 0, va, |es|, i);
    BackedAt(a0, a, y, es, CopyOf(d0, x, src), i);
    AddedAt(d0, dst, 0, es, i);
    AllMappedAt(d0, src, 0, |es|, i);
    SameUser(es[i].pte, d0[Nth(src, 0, i)].pte);
  }

  lemma SameUser(e: nat, f: nat)
    requires Flags(e) == Flags(f)
    ensures UserBit(e) == UserBit(f)
  {
    PteBits(e / 1024, Flags(e), e);
    PteBits(f / 1024, Flags(f), f);
  }

  lemma MappedFlags(d0: Maps, d: Maps, root: nat, first: nat, pa: nat, n: nat, flags: nat, own: bool, i: nat)
    requires flags < 1024 && Extended(d0, d, root, first, pa, n, flags, own) && i < n
    ensures Nth(root, first, i) in d && Flags(d[Nth(root, first, i)].pte) == WithV(flags)
  {
    ExtendedIs(d0, d, root, first, pa, n, flags, own);
    AddedAt(d0, root, first, Run(pa, n, flags, own), i);
    RunAt(pa, n, flags, own, i);
  }

  /** What mappages has mapped user code may use exactly when it was mapped with PTE_U. */
  lemma MappedForUser(d0: Maps, d: Maps, root: nat, first: nat, pa: nat, n: nat, r: bool, w: bool, x: bool, u: bool,
          own: bool, i: nat)
    requires Extended(d0, d, root, first, pa, n, FlagsOf(r, w, x, u), own) && i < n
    ensures UserPage(d, Nth(root, first, i)) <==> u
  {
    MappedFlags(d0, d, root, first, pa, n, FlagsOf(r, w, x, u), own, i);
    FlagsTested(d[Nth(root, first, i)].pte, r, w, x, u);
  }

  // ---------- copyout ----------

  /** One byte stored through the translation. */
  ghost function PokeByte(d: Maps, x: Data, root: nat, va: nat, b: byte): Data {
    if UserPage(d, PageAt(root, va)) then
      var pa := Pte2Pa(d[PageAt(root, va)].pte);
      x[pa := Bytes(x, pa)[va % 4096 := b]]
    else x
  }

  /** What copyout stands for: the bytes of s stored one by one at va, va + 1, ... */
  ghost function Stored(d: Maps, x: Data, root: nat, va: nat, s: seq<byte>): Data {
    if s == [] then x else PokeByte(d, Stored(d, x, root, va, s[..|s|-1]), root, va + |s| - 1, s[|s|-1])
  }

  lemma {:induction false} StoredMore(d: Maps, x: Data, root: nat, va: nat, s: seq<byte>, t: seq<byte>)
    ensures Stored(d, Stored(d, x, root, va, s), root, va + |s|, t) == Stored(d, x, root, va, s + t)
  {
    if t == [] {
      assert s + t == s;
    } else {
      StoredMore(d, x, root, va, s, t[..|t|-1]);
      assert (s + t)[..|s + t| - 1] == s + t[..|t|-1];
    }
  }

  /** Within a page, memmove does the same. */
  lemma {:induction false} StoredInPage(d: Maps, x: Data, root: nat, page: nat, off: nat, s: seq<byte>, pa: nat)
    requires PageAligned(page) && off + |s| <= 4096 && |s| > 0 && UserPage(d, Page(root, page)) &&
             pa == Pte2Pa(d[Page(root, page)].pte)
    ensures Stored(d, x, root, page + off, s) == x[pa := Patch(Bytes(x, pa), off, s)]
  {
    var i := |s| - 1;
    SamePage(root, page, page + off + i);
    var t := s[..i];
    if i > 0 {
      StoredInPage(d, x, root, page, off, t, pa);
      assert Patch(Bytes(x, pa), off, t)[off + i := s[i]] == Patch(Bytes(x, pa), off, s);
    } else {
      assert Stored(d, x, root, page + off, t) == x;
      assert Bytes(x, pa)[off := s[0]] == Patch(Bytes(x, pa), off, s);
    }
  }

  lemma PokeAt(m: Mem, d: Maps, x: Data, root: nat, va: nat, b: byte, r: nat, a: nat)
    requires Ok(m, d) && UserPage(d, PageAt(root, va)) && UserPage(d, PageAt(r, a))
    ensures ByteAt(d, PokeByte(d, x, root, va, b), r, a) == if r == root && a == va then b else ByteAt(d, x, r, a)
  {
    if PageAt(r, a) == PageAt(root, va) {
      SameOffset(a, va);
    } else if Pte2Pa(d[PageAt(r, a)].pte) == Pte2Pa(d[PageAt(root, va)].pte) {
      UserApart(m, d, PageAt(r, a), PageAt(root, va));
      assert false;
    }
  }

  lemma SameOffset(a: nat, b: nat)
    requires PgRoundDown(a) == PgRoundDown(b)
    ensures a == b <==> a % 4096 == b % 4096
  {
  }

  /** Every address space sees the bytes of s at va, va + 1, ... of this one, and no other change. */
  lemma {:induction false} StoredAt(m: Mem, d: Maps, x: Data, root: nat, va: nat, s: seq<byte>, r: nat, a: nat)
    requires Ok(m, d) && Accessible(d, root, va, |s|) && UserPage(d, PageAt(r, a))
    ensures ByteAt(d, Stored(d, x, root, va, s), r, a) ==
            if r == root && va <= a < va + |s| then s[a - va] else ByteAt(d, x, r, a)
  {
    if s != [] {
      var i := |s| - 1;
      var y := Stored(d, x, root, va, s[..i]);
      StoredAt(m, d, x, root, va, s[..i], r, a);
      AccessibleAt(d, root, va, |s|, va + i);
      PokeAt(m, d, y, root, va + i, s[i], r, a);
      LastStored(d, x, y, root, va, s, r, a);
    }
  }

  lemma LastStored(d: Maps, x: Data, y: Data, root: nat, va: nat, s: seq<byte>, r: nat, a: nat)
    requires s != [] && y == Stored(d, x, root, va, s[..|s| - 1]) && UserPage(d, PageAt(r, a))
    requires ByteAt(d, PokeByte(d, y, root, va + |s| - 1, s[|s| - 1]), r, a) ==
             if r == root && a == va + |s| - 1 then s[|s| - 1] else ByteAt(d, y, r, a)
    requires ByteAt(d, y, r, a) == if r == root && va <= a < va + |s| - 1 then s[a - va] else ByteAt(d, x, r, a)
    ensures ByteAt(d, Stored(d, x, root, va, s), r, a) ==
            if r == root && va <= a < va + |s| then s[a - va] else ByteAt(d, x, r, a)
  {
  }

  /** Memory outside the pages of the range is not touched. */
  lemma {:induction false} StoredElsewhere(d: Maps, x: Data, root: nat, va: nat, s: seq<byte>, p: nat)
    requires forall a {:trigger PageAt(root, a)} :: va <= a < va + |s| && UserPage(d, PageAt(root, a)) ==>
             p != Pte2Pa(d[PageAt(root, a)].pte)
    ensures Bytes(Stored(d, x, root, va, s), p) == Bytes(x, p)
  {
    if s != [] {
      StoredElsewhere(d, x, root, va, s[..|s|-1], p);
      assert UserPage(d, PageAt(root, va + |s| - 1)) ==> p != Pte2Pa(d[PageAt(root, va + |s| - 1)].pte);
    }
  }

  lemma AccessibleMore(d: Maps, root: nat, va: nat, n: nat, page: nat, k: nat)
    requires Accessible(d, root, va, n) && PageAligned(page) && UserPage(d, Page(root, page)) && page <= va + n &&
             va + n + k <= page + 4096
    ensures Accessible(d, root, va, n + k)
  {
    forall a | va <= a < va + (n + k) ensures UserPage(d, PageAt(root, a)) {
      if a >= va + n {
        SamePage(root, page, a);
      }
    }
  }

  /** memmove of one piece into a user page */
  method WritePiece(v: Memory, ghost root: nat, ghost page: nat, off: nat, pa: nat, piece: seq<byte>, ghost x: Data,
          ghost dstva: nat, ghost s: seq<byte>)
    requires PageAligned(page) && UserPage(v.maps, Page(root, page)) && pa == Pte2Pa(v.maps[Page(root, page)].pte)
    requires off + |piece| <= 4096 && |piece| > 0 && page + off == dstva + |s| &&
             v.data == Stored(v.maps, x, root, dstva, s)
    modifies v`data
    ensures v.data == Stored(v.maps, x, root, dstva, s + piece)
  {
    StoredInPage(v.maps, v.data, root, page, off, piece, pa);
    StoredMore(v.maps, x, root, dstva, s, piece);
    v.data := v.data[pa := Patch(Bytes(v.data, pa), off, piece)];
  }

  /** The piece of src from pos on that goes to one page. */
  method PutPiece(v: Memory, ghost root: nat, ghost page: nat, off: nat, pa: nat, src: seq<byte>, pos: nat, n: nat,
          ghost x: Data, ghost dstva: nat)
    requires PageAligned(page) && UserPage(v.maps, Page(root, page)) && pa == Pte2Pa(v.maps[Page(root, page)].pte)
    requires off + n <= 4096 && n > 0 && pos + n <= |src| && page + off == dstva + pos
    requires v.data == Stored(v.maps, x, root, dstva, src[..pos]) && Accessible(v.maps, root, dstva, pos)
    modifies v`data
    ensures v.data == Stored(v.maps, x, root, dstva, src[..pos + n]) && Accessible(v.maps, root, dstva, pos + n)
  {
    assert src[..pos] + src[pos..pos + n] == src[..pos + n];
    AccessibleMore(v.maps, root, dstva, pos, page, n);
    WritePiece(v, root, page, off, pa, src[pos..pos + n], x, dstva, src[..pos]);
  }

  /** copyout; done counts the bytes that were copied before an unusable page was met. */
  method CopyOut(v: Memory, root: nat, dstva: nat, src: seq<byte>) returns (ok: bool, ghost done: nat)
    requires v.Inv() && IsRoot(v.View(), root)
    modifies v
    ensures v.Inv() && v.View() == old(v.View()) && v.maps == old(v.maps)
    ensures ok <==> Accessible(v.maps, root, dstva, |src|)
    ensures done <= |src| && v.data == Stored(v.maps, old(v.data), root, dstva, src[..done])
    ensures if ok then done == |src|
            else !UserPage(v.maps, PageAt(root, dstva + done)) && Accessible(v.maps, root, dstva, done)
  {
    var left, va, pos := |src|, dstva, 0;
    done := 0;
    while left > 0
      invariant v.Inv() && v.View() == old(v.View()) && v.maps == old(v.maps)
      invariant done == pos && 0 <= pos && 0 <= left && pos + left == |src| && (left > 0 ==> va == dstva + pos)
      invariant v.data == Stored(v.maps, old(v.data), root, dstva, src[..pos]) && Accessible(v.maps, root, dstva, pos)
    {
      var va0, pa0, off := Translate(v, root, va);
      if pa0 == 0 {
        assert !UserPage(v.maps, PageAt(root, va));
        return false, pos;
      }
      var n := 4096 - off;
      if n > left {
        n := left;
      }
      PutPiece(v, root, va0, off, pa0, src, pos, n, old(v.data), dstva);
      left := left - n;
      pos := pos + n;
      done := pos;
      va := va0 + 4096;
    }
    ok := true;
  }

  // ---------- copyinstr ----------

  ghost predicate NoNul(s: seq<byte>) {
    forall i :: 0 <= i < |s| ==> s[i] != 0
  }

  /** The inner loop of copyinstr: the bytes from offset off on, up to n of them or the first NUL. */
  method CopyChars(page: seq<byte>, off: nat, n: nat) returns (out: seq<byte>, gotNull: bool)
    requires off + n <= |page|
    ensures |out| <= n && out == page[off..off + |out|]
    ensures if gotNull then |out| > 0 && out[|out|-1] == 0 && NoNul(out[..|out|-1]) else |out| == n && NoNul(out)
  {
    out, gotNull := [], false;
    var left, p := n, off;
    while left > 0
      invariant 0 <= left <= n && p == off + (n - left) && out == page[off..p] && NoNul(out)
    {
      out := out + [page[p]];
      if page[p] == 0 {
        assert out[..|out|-1] == page[off..p];
        return out, true;
      }
      left := left - 1;
      p := p + 1;
    }
  }

  /** There is a NUL within max bytes from va on, before any byte that cannot be read. */
  ghost predicate HasString(d: Maps, data: Data, root: nat, va: nat, max: nat) {
    exists j {:trigger PageAt(root, va + j)} :: 0 <= j < max && Accessible(d, root, va, j + 1) &&
      ByteAt(d, data, root, va + j) == 0
  }

  lemma NoStringIn(d: Maps, data: Data, root: nat, va: nat, max: nat, s: seq<byte>)
    requires Reads(d, data, root, va, s) && NoNul(s) && (|s| == max || !UserPage(d, PageAt(root, va + |s|)))
    ensures !HasString(d, data, root, va, max)
  {
    if HasString(d, data, root, va, max) {
      var j :| 0 <= j < max && Accessible(d, root, va, j + 1) && ByteAt(d, data, root, va + j) == 0;
      NotNulAt(d, data, root, va, max, s, j);
      assert false;
    }
  }

  /** A range without gaps ends before a page that is not accessible. */
  lemma EndsBefore(d: Maps, root: nat, va: nat, len: nat, n: nat)
    requires Accessible(d, root, va, len) && !UserPage(d, PageAt(root, va + n))
    ensures len <= n
  {
  }

  lemma NotNulAt(d: Maps, data: Data, root: nat, va: nat, max: nat, s: seq<byte>, j: nat)
    requires Reads(d, data, root, va, s) && NoNul(s) && (|s| == max || !UserPage(d, PageAt(root, va + |s|)))
    requires j < max && Accessible(d, root, va, j + 1)
    ensures ByteAt(d, data, root, va + j) != 0
  {
    if |s| != max {
      EndsBefore(d, root, va, j + 1, |s|);
    }
    assert s[va + j - va] == ByteAt(d, data, root, va + j);
  }

  lemma StringIn(d: Maps, data: Data, root: nat, va: nat, max: nat, s: seq<byte>)
    requires Reads(d, data, root, va, s) && 0 < |s| <= max && s[|s|-1] == 0
    ensures HasString(d, data, root, va, max)
  {
    var j := |s| - 1;
    assert UserPage(d, PageAt(root, va + j));
  }

  /** One round of copyinstr's loop: the part of the string on the page of va. */
  method StringPiece(v: Memory, root: nat, va: nat, left: nat) returns (ok: bool, piece: seq<byte>, gotNull: bool)
    requires v.Inv() && IsRoot(v.View(), root) && left > 0
    modifies v
    ensures v.Inv() && v.View() == old(v.View()) && v.data == old(v.data) && v.maps == old(v.maps)
    ensures ok <==> UserPage(v.maps, PageAt(root, va))
    ensures ok ==> 0 < |piece| <= left && Reads(v.maps, v.data, root, va, piece)
    ensures ok ==> if gotNull then piece[|piece|-1] == 0 && NoNul(piece[..|piece|-1])
                   else NoNul(piece) && (|piece| == left || va + |piece| == PgRoundDown(va) + 4096)
  {
    var va0, pa0, off := Translate(v, root, va);
    if pa0 == 0 {
      return false, [], false;
    }
    var n := 4096 - off;
    if n > left {
      n := left;
    }
    piece, gotNull := CopyChars(Bytes(v.data, pa0), off, n);
    OnePage(v.maps, v.data, root, va0, off, |piece|);
    ok := true;
  }

  /** copyinstr: the string with its NUL, or nothing. */
  method CopyInStr(v: Memory, root: nat, srcva: nat, max: nat) returns (r: Option<seq<byte>>)
    requires v.Inv() && IsRoot(v.View(), root)
    modifies v
    ensures v.Inv() && v.View() == old(v.View()) && v.data == old(v.data) && v.maps == old(v.maps)
    ensures r.Some? <==> HasString(v.maps, v.data, root, srcva, max)
    ensures r.Some? ==> var s := r.value;
                        0 < |s| <= max && s[|s|-1] == 0 && NoNul(s[..|s|-1]) && Reads(v.maps, v.data, root, srcva, s)
  {
    var dst, left, va := [], max, srcva;
    while left > 0
      invariant v.Inv() && v.View() == old(v.View()) && v.data == old(v.data) && v.maps == old(v.maps)
      invariant left >= 0 && |dst| + left == max && (left > 0 ==> va == srcva + |dst|) &&
                Reads(v.maps, v.data, root, srcva, dst) && NoNul(dst)
    {
      var ok, piece, gotNull := StringPiece(v, root, va, left);
      if !ok {
        NoStringIn(v.maps, v.data, root, srcva, max, dst);
        return None;
      }
      ReadsMore(v.maps, v.data, root, srcva, dst, piece);
      if gotNull {
        assert (dst + piece)[..|dst + piece| - 1] == dst + piece[..|piece|-1];
        assert (dst + piece)[|dst + piece| - 1] == piece[|piece|-1];
        StringIn(v.maps, v.data, root, srcva, max, dst + piece);
        return Some(dst + piece);
      }
      dst := dst + piece;
      left := left - |piece|;
      va := PgRoundDown(va) + 4096;
    }
    NoStringIn(v.maps, v.data, root, srcva, max, dst);
    return None;
  }
}
