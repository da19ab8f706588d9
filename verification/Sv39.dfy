/** The address and page-table-entry arithmetic of kernel/riscv.h: shifts and masks written
    as division and remainder by powers of two. */
module Sv39 {
  const MAXVA := 0x40_0000_0000     // 1L << (9 + 9 + 9 + 12 - 1)
  const NPTE := 512                 // entries of a page-table page
  const NTOP := 256                 // entries of a root that addresses below MAXVA use
  const PHYSTOP := 0x8800_0000       // end of the machine's memory

  const PTE_V := 1
  const PTE_R := 2
  const PTE_W := 4
  const PTE_X := 8
  const PTE_U := 16

  function PgRoundDown(a: nat): nat { a / 4096 * 4096 }

  function PgRoundUp(a: nat): nat { (a + 4096 - 1) / 4096 * 4096 }

  /** PX(level, va): the 9-bit index of va at each level of the tree. */
  function PX(level: nat, va: nat): (i: nat)
    requires level <= 2
    ensures i < NPTE && (level == 2 && va < MAXVA ==> i < NTOP)
  {
    if level == 2 then va / 0x4000_0000 % 512 else if level == 1 then va / 0x20_0000 % 512 else va / 4096 % 512
  }

  /** PA2PTE(pa) | flags */
  function MakePte(pa: nat, flags: nat): nat
    requires flags < 1024
  {
    pa / 4096 * 1024 + flags
  }

  function Pte2Pa(pte: nat): nat { pte / 1024 * 4096 }

  function Flags(pte: nat): (f: nat)
    ensures f < 1024
  {
    pte % 1024
  }

  predicate Valid(pte: nat) { pte % 2 == 1 }

  predicate UserBit(pte: nat) { pte / 16 % 2 == 1 }

  /** A leaf has at least one of R, W and X set. */
  predicate LeafBits(flags: nat) { flags / 2 % 8 != 0 }

  /** The flags of a valid entry with the given permissions. */
  function FlagsOf(r: bool, w: bool, x: bool, u: bool): (f: nat)
    ensures f < 1024 && f % 2 == 1
  {
    PTE_V + (if r then PTE_R else 0) + (if w then PTE_W else 0) + (if x then PTE_X else 0) + (if u then PTE_U else 0)
  }

  /** What the tests of the source read from them. */
  lemma FlagsTested(pte: nat, r: bool, w: bool, x: bool, u: bool)
    requires Flags(pte) == FlagsOf(r, w, x, u)
    ensures Valid(pte) && (UserBit(pte) <==> u) && (LeafBits(Flags(pte)) <==> r || w || x)
  {
    PteBits(pte / 1024, Flags(pte), pte);
  }

  /** perm | PTE_V */
  function WithV(perm: nat): (f: nat)
    requires perm < 1024
    ensures f < 1024 && f % 2 == 1 && f / 2 == perm / 2
  {
    if perm % 2 == 1 then perm else perm + 1
  }

  /** a is a multiple of 4096, counted up page by page. */
  predicate PageAligned(a: nat) {
    a == 0 || (a >= 4096 && PageAligned(a - 4096))
  }

  lemma {:induction false} AlignedIff(a: nat)
    ensures PageAligned(a) <==> a % 4096 == 0
  {
    if a >= 4096 {
      AlignedIff(a - 4096);
    }
  }

  /** An entry gives back the address and the flags it was made of. */
  lemma PteRoundTrip(pa: nat, flags: nat)
    requires PageAligned(pa) && flags < 1024
    ensures Pte2Pa(MakePte(pa, flags)) == pa && Flags(MakePte(pa, flags)) == flags
    ensures Valid(MakePte(pa, flags)) == (flags % 2 == 1)
    ensures UserBit(MakePte(pa, flags)) == UserBit(flags)
  {
    AlignedIff(pa);
    PteParts(pa / 4096, flags, MakePte(pa, flags));
    PteBits(pa / 4096, flags, MakePte(pa, flags));
  }

  lemma PteParts(n: nat, flags: nat, e: nat)
    requires flags < 1024 && e == n * 1024 + flags
    ensures e / 1024 == n && e % 1024 == flags
  {
  }

  lemma PteBits(n: nat, flags: nat, e: nat)
    requires e == n * 1024 + flags
    ensures e % 2 == flags % 2 && e / 16 % 2 == flags / 16 % 2
  {
    Parity(n * 512, flags);
    Sixteenth(n * 64, flags);
    Parity(n * 32, flags / 16);
  }

  lemma Parity(k: nat, f: nat)
    ensures (2 * k + f) % 2 == f % 2
  {
  }

  lemma Sixteenth(k: nat, f: nat)
    ensures (16 * k + f) / 16 == k + f / 16
  {
  }

  /** Rounding gives page addresses and leaves page addresses alone. */
  lemma Rounding(a: nat)
    ensures PageAligned(PgRoundDown(a)) && PageAligned(PgRoundUp(a))
    ensures PageAligned(a) ==> PgRoundDown(a) == a == PgRoundUp(a) == PgRoundDown(a + 4096 - 1)
  {
    AlignedIff(a);
    AlignedIff(PgRoundDown(a));
    AlignedIff(PgRoundUp(a));
  }

  /** Two page addresses below MAXVA that agree on all three indices are the same page. */
  lemma IndicesDetermine(va: nat, wa: nat)
    requires va < MAXVA && wa < MAXVA && PageAligned(va) && PageAligned(wa)
    requires forall l :: 0 <= l <= 2 ==> PX(l, va) == PX(l, wa)
    ensures va == wa
  {
    AlignedIff(va);
    AlignedIff(wa);
    assert PX(2, va) == PX(2, wa) && PX(1, va) == PX(1, wa) && PX(0, va) == PX(0, wa);
    PageNumbers(va, wa);
  }

  lemma PageNumbers(va: nat, wa: nat)
    requires va < MAXVA && wa < MAXVA && PX(2, va) == PX(2, wa) && PX(1, va) == PX(1, wa) && PX(0, va) == PX(0, wa)
    ensures va / 4096 == wa / 4096
  {
    Split(va / 4096);
    Split(wa / 4096);
    Shift(va);
    Shift(wa);
  }

  lemma Split(n: nat)
    ensures n == n / 0x4_0000 * 0x4_0000 + n / 512 % 512 * 512 + n % 512
  {
    assert n / 0x4_0000 == n / 512 / 512;
  }

  lemma Shift(va: nat)
    ensures va / 4096 / 0x4_0000 == va / 0x4000_0000 && va / 4096 / 512 == va / 0x20_0000
  {
  }

  /** The address whose three indices are given. */
  function Compose(x2: nat, x1: nat, x0: nat): nat {
    x2 * 0x4000_0000 + x1 * 0x20_0000 + x0 * 4096
  }

  lemma ComposeIs(x2: nat, x1: nat, x0: nat, va: nat)
    requires x2 < NTOP && x1 < NPTE && x0 < NPTE && va == Compose(x2, x1, x0)
    ensures va < MAXVA && PageAligned(va) && PX(2, va) == x2 && PX(1, va) == x1 && PX(0, va) == x0
  {
    var n := x2 * 0x4_0000 + x1 * 512 + x0;
    assert va == n * 4096;
    PageNumber(n);
    AlignedIff(va);
    Shift(va);
    Digits(x2 * 512 + x1, x0);
    Digits(x2, x1);
    Split(n);
    assert n / 0x4_0000 == n / 512 / 512;
  }

  lemma PageNumber(n: nat)
    ensures n * 4096 / 4096 == n && n * 4096 % 4096 == 0
  {
  }

  lemma Digits(hi: nat, lo: nat)
    requires lo < 512
    ensures (hi * 512 + lo) / 512 == hi && (hi * 512 + lo) % 512 == lo
  {
  }
}
