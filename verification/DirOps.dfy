/** dirlookup and dirlink of kernel/fs.c, and the entry that sys_unlink of kernel/sysfile.c clears. */
module DirOps {
  import opened Blocks
  import opened Names
  import opened Directory
  import opened Inodes
  import opened Files
  import opened Space
  import opened Changes
  import opened FileOps
  import opened Writes
  import opened FileSystem

  /** What dirlookup finds: an inode number and where it is; nothing; or an incomplete last entry, on which
      it panics. */
  datatype Lookup = Found(inum: nat, off: nat) | Absent | Panic

  function LookupIn(c: seq<byte>, key: seq<byte>): Lookup {
    var ds := Entries(c);
    var k := FindFrom(ds, key, 0);
    if k < |ds| then Found(ds[k].inum, 16 * k) else if |c| % 16 != 0 then Panic else Absent
  }

  /** A directory: complete entries, and no name twice. */
  ghost predicate IsDir(c: seq<byte>) {
    |c| % 16 == 0 && Unique(Entries(c))
  }

  ghost function DirMap(c: seq<byte>): map<seq<byte>, nat> {
    Bindings(Entries(c))
  }

  /** In a directory, dirlookup finds exactly what the map binds, and does not panic. */
  lemma LookupIsMap(c: seq<byte>, key: seq<byte>)
    requires IsDir(c)
    ensures match LookupIn(c, key)
            case Found(inum, off) => key in DirMap(c) && inum == DirMap(c)[key] != 0
            case Absent => key !in DirMap(c)
            case Panic => false
  {
    FindIsMap(Entries(c), key);
  }

  lemma ReadableEntry(c: seq<byte>, j: nat, r: seq<byte>)
    requires 16 * j < |c| <= MAXBYTES && r == Readable(c, 16 * j, 16)
    ensures |r| <= 16 && (|r| == 16 <==> j < |c| / 16) && r[..Min(16, |r|)] == r
    ensures |r| == 16 ==> Decode(r) == Entries(c)[j]
  {
    assert (16 * j + 16) % TWO32 == 16 * j + 16;
  }

  /** readi of entry j. */
  method ReadEntry(v: Volume, i: nat, j: nat) returns (n: int, e: seq<byte>)
    requires v.Valid() && i < |v.inodes| && 16 * j < v.inodes[i].size
    modifies v`disk, v`inodes, v`owner, v`jnl
    ensures v.Snap() == old(v.Snap()) && |v.img| == |v.inodes|
    ensures var ds := Entries(v.FileContents(i));
            (n == 16 <==> j < |ds|) && (n == 16 ==> |e| == 16 && Decode(e) == ds[j])
  {
    SizeIs(v.View(), v.img, i);
    ReadableEntry(v.FileContents(i), j, Readable(v.FileContents(i), 16 * j, 16));
    n, e := v.Readi(i, 16 * j, 16, 16);
  }

  /** The test of dirlookup on one entry. */
  method IsEntry(e: seq<byte>, name: seq<byte>) returns (same: bool, inum: nat)
    requires |e| == 16 && Terminated(name, DIRSIZ)
    ensures inum == Decode(e).inum && same == Matches(Decode(e), Key(name, DIRSIZ))
  {
    inum := e[0] as int + 256 * e[1] as int;
    if inum == 0 {
      return false, inum;
    }
    var cmp := Strncmp(name, e[2..], DIRSIZ);
    same := cmp == 0;
  }

  /** The loop of dirlookup, on entries 0, 1, ... */
  method DirLookup(v: Volume, i: nat, name: seq<byte>) returns (r: Lookup)
    requires v.Valid() && i < |v.inodes| && Terminated(name, DIRSIZ)
    modifies v`disk, v`inodes, v`owner, v`jnl
    ensures v.Snap() == old(v.Snap()) && |v.img| == |v.inodes|
    ensures r == LookupIn(v.FileContents(i), Key(name, DIRSIZ))
  {
    SizeIs(v.View(), v.img, i);
    ghost var ds := Entries(v.FileContents(i));
    var j := 0;
    while 16 * j < v.inodes[i].size
      invariant 0 <= j <= |ds| && v.Snap() == old(v.Snap())
      invariant FindFrom(ds, Key(name, DIRSIZ), j) == FindFrom(ds, Key(name, DIRSIZ), 0)
    {
      var n, de := ReadEntry(v, i, j);
      if n != 16 {
        return Panic;
      }
      var same, inum := IsEntry(de, name);
      if same {
        return Found(inum, 16 * j);
      }
      j := j + 1;
    }
    return Absent;
  }

  // ---------- writing an entry ----------

  /** The contents of a file after the entry e was written at entry j. */
  function WithEntry(c: seq<byte>, j: nat, e: seq<byte>): seq<byte>
    requires 16 * j <= |c|
  {
    c[..16 * j] + e + c[Min(16 * j + 16, |c|)..]
  }

  lemma WholeEntry(j: nat, r: nat)
    requires Whole(16 * j, r, 16) && r < 16
    ensures r == 0
  {
    assert 16 * j % 1024 + 16 <= 1024;
  }

  /** writei of an entry writes all of it or nothing, since an entry does not cross a block. */
  lemma EntryWritten(f: Fs, s: seq<seq<byte>>, g: Fs, t: seq<seq<byte>>, i: nat, j: nat, e: seq<byte>, r: nat,
          moved: nat)
    requires Ok(f, s) && Contained(f, s, g, t, i, 16 * j, 16, e, r, moved) && |e| == 16 && 16 * j <= f.inodes[i].size
    ensures |t| == |s| && forall k :: 0 <= k < |s| && k != i ==> t[k] == s[k] && g.inodes[k] == f.inodes[k]
    ensures var c := Contents(s[i], f.inodes[i].size); var d := Contents(t[i], g.inodes[i].size);
            16 * j <= |c| && d == if r == 16 then WithEntry(c, j, e) else c
  {
    SizeIs(f, s, i);
    if r == 16 {
      assert e[..16] == e;
      WrittenContents(s[i], f.inodes[i].size, 16 * j, e);
    } else {
      WholeEntry(j, r);
      PatchNone(s[i], 16 * j, e);
    }
  }

  /** There is room for entry j: within the largest file, and with the blocks that its place needs. */
  predicate Room(f: Fs, i: nat, j: nat) {
    && Shape(f) && i < |f.inodes| && 16 * j + 16 <= MAXBYTES && 16 * j / 1024 < MAXFILE
    && Fits(f, i, 16 * j / 1024, 16 * j / 1024 + 1)
  }

  lemma EntryFits(f: Fs, i: nat, j: nat, size: nat, r: nat, moved: nat)
    requires Shape(f) && i < |f.inodes| && 16 * j <= size <= MAXBYTES
    ensures Refused(size, 16 * j, 16) ==> !Room(f, i, j)
    ensures Outcome(f, i, 16 * j, 16, 16, r, moved) ==> (r == 16 <==> Room(f, i, j))
  {
    if Outcome(f, i, 16 * j, 16, 16, r, moved) {
      CompleteIff(f, i, 16 * j, 16, 16, r, moved);
      assert Reached(16 * j, 16) == 16 * j / 1024 + 1;
    }
  }

  /** writei of entry j; true when it is written. */
  method WriteEntry(v: Volume, i: nat, j: nat, e: seq<byte>) returns (ok: bool)
    requires v.Valid() && i < |v.inodes| && |e| == 16 && 16 * j <= v.inodes[i].size
    modifies v
    ensures v.Valid() && |v.img| == |v.inodes| == |old(v.inodes)| == |old(v.img)|
    ensures forall k :: 0 <= k < |v.inodes| && k != i ==> v.img[k] == old(v.img)[k] && v.inodes[k] == old(v.inodes)[k]
    ensures var c := old(v.FileContents(i)); 16 * j <= |c| && v.FileContents(i) == if ok then WithEntry(c, j, e) else c
    ensures (ok <==> Room(old(v.View()), i, j)) && (16 * j + 16 <= old(v.inodes[i].size) ==> ok)
  {
    ghost var f, s := v.View(), v.img;
    SizeIs(f, s, i);
    ShapeOk(f, s);
    var r;
    ghost var moved, tx;
    r, moved, tx := v.Writei(i, 16 * j, 16, e);
    ok := r == 16;
    EntryFits(f, i, j, f.inodes[i].size, if r == -1 then 0 else r, moved);
    if r != -1 {
      EntryWritten(f, s, v.View(), v.img, i, j, e, r, moved);
      if 16 * j + 16 <= f.inodes[i].size {
        NeverStuck(f, s, v.View(), v.img, i, 16 * j, 16, e, r, moved);
      }
    }
  }

  /** The loop of dirlink: the first free entry, or the end. */
  method FindEmpty(v: Volume, i: nat) returns (panic: bool, j: nat)
    requires v.Valid() && i < |v.inodes|
    modifies v`disk, v`inodes, v`owner, v`jnl
    ensures v.Snap() == old(v.Snap()) && |v.img| == |v.inodes|
    ensures var c := v.FileContents(i);
            && j == FreeFrom(Entries(c), 0) && 16 * j <= |c| == v.inodes[i].size
            && (panic <==> j == |Entries(c)| && |c| % 16 != 0)
  {
    SizeIs(v.View(), v.img, i);
    ghost var ds := Entries(v.FileContents(i));
    j := 0;
    while 16 * j < v.inodes[i].size
      invariant 0 <= j <= |ds| && v.Snap() == old(v.Snap())
      invariant FreeFrom(ds, j) == FreeFrom(ds, 0)
    {
      var n, de := ReadEntry(v, i, j);
      if n != 16 {
        return true, j;
      }
      if de[0] == 0 && de[1] == 0 {
        return false, j;
      }
      j := j + 1;
    }
    return false, j;
  }

  /** What dirlink does to the contents of a directory: nothing, or an entry in the first free place. */
  predicate LinkedIn(c: seq<byte>, d: seq<byte>, key: seq<byte>, inum: nat) {
    |c| % 16 == 0 && |d| % 16 == 0 &&
      Entries(d) == PutDirent(Entries(c), FreeFrom(Entries(c), 0), Dirent(inum % 65536, key))
  }

  /** The entry that dirlink fills in. */
  method FillEntry(name: seq<byte>, inum: uint) returns (e: seq<byte>)
    requires Terminated(name, DIRSIZ)
    ensures |e| == 16 && Decode(e) == Dirent(inum % 65536, Key(name, DIRSIZ))
  {
    var s := Strncpy(name, DIRSIZ);
    CopyKeepsName(name, DIRSIZ, s);
    e := Encode(inum, s);
  }

  lemma WithEntryIn(c: seq<byte>, e: seq<byte>, key: seq<byte>, inum: nat)
    requires |c| % 16 == 0 && |e| == 16 && Decode(e) == Dirent(inum % 65536, key) && 16 * FreeFrom(Entries(c), 0) <= |c|
    ensures LinkedIn(c, WithEntry(c, FreeFrom(Entries(c), 0), e), key, inum)
  {
    PutBytes(c, FreeFrom(Entries(c), 0), e, WithEntry(c, FreeFrom(Entries(c), 0), e));
  }

  /** The second half of dirlink, for a name that is not bound. */
  method AddEntry(v: Volume, i: nat, name: seq<byte>, inum: uint) returns (ok: bool, ghost e: seq<byte>)
    requires v.Valid() && i < |v.inodes| && i < |v.img| && Terminated(name, DIRSIZ) && |v.FileContents(i)| % 16 == 0
    modifies v
    ensures v.Valid() && |v.img| == |v.inodes| == |old(v.inodes)| == |old(v.img)|
    ensures forall k :: 0 <= k < |v.inodes| && k != i ==> v.img[k] == old(v.img)[k] && v.inodes[k] == old(v.inodes)[k]
    ensures |e| == 16 && Decode(e) == Dirent(inum % 65536, Key(name, DIRSIZ))
    ensures var c := old(v.FileContents(i)); var j := FreeFrom(Entries(c), 0);
            16 * j <= |c| && (ok <==> Room(old(v.View()), i, j)) &&
            v.FileContents(i) == if ok then WithEntry(c, j, e) else c
  {
    var panic, j := FindEmpty(v, i);
    assert !panic;
    var de := FillEntry(name, inum);
    e := de;
    ok := WriteEntry(v, i, j, de);
  }

  /** dirlink: 0 when the entry is written, -1 when the name is bound or there is no room for the entry; -2
      stands for the panic. Unless it returns 0 the directory is as it was. */
  method DirLink(v: Volume, i: nat, name: seq<byte>, inum: uint) returns (r: int, ghost e: seq<byte>)
    requires v.Valid() && i < |v.inodes| && Terminated(name, DIRSIZ)
    modifies v
    ensures v.Valid() && |v.img| == |v.inodes| == |old(v.inodes)| == |old(v.img)|
    ensures forall k :: 0 <= k < |v.inodes| && k != i ==> v.img[k] == old(v.img)[k] && v.inodes[k] == old(v.inodes)[k]
    ensures match LookupIn(old(v.FileContents(i)), Key(name, DIRSIZ))
            case Found(_, _) => r == -1
            case Panic => r == -2
            case Absent => r == if Room(old(v.View()), i, FreeFrom(Entries(old(v.FileContents(i))), 0)) then 0 else -1
    ensures |e| == 16 && Decode(e) == Dirent(inum % 65536, Key(name, DIRSIZ))
    ensures v.FileContents(i) == AfterChange(old(v.FileContents(i)), Link(e, r == 0))
    ensures r == 0 ==> LinkedIn(old(v.FileContents(i)), v.FileContents(i), Key(name, DIRSIZ), inum)
    ensures r != 0 ==> v.FileContents(i) == old(v.FileContents(i))
  {
    ghost var c := v.FileContents(i);
    var l := DirLookup(v, i, name);
    if !l.Absent? {
      r := if l.Found? then -1 else -2;
      var de := FillEntry(name, inum);
      e := de;
    } else {
      var ok;
      ok, e := AddEntry(v, i, name, inum);
      r := if ok then 0 else -1;
      WithEntryIn(c, e, Key(name, DIRSIZ), inum);
    }
  }

  /** The map that a successful dirlink leaves: exactly one binding more, for the number as an unsigned
      short, which has to be other than 0. */
  lemma LinkIsMap(c: seq<byte>, d: seq<byte>, key: seq<byte>, inum: nat)
    requires IsDir(c) && LookupIn(c, key).Absent? && LinkedIn(c, d, key, inum)
    ensures IsDir(d) && key !in DirMap(c)
    ensures DirMap(d) == if inum % 65536 == 0 then DirMap(c) else DirMap(c)[key := inum % 65536]
  {
    Linked(Entries(c), Dirent(inum % 65536, key));
  }

  lemma LinkedIsBound(c: seq<byte>, d: seq<byte>, key: seq<byte>, inum: nat, l: Lookup)
    requires IsDir(c) && LookupIn(c, key).Absent? && LinkedIn(c, d, key, inum) && l == LookupIn(d, key)
    ensures if inum % 65536 == 0 then l.Absent? else l.Found? && l.inum == inum % 65536
  {
    LinkIsMap(c, d, key, inum);
    LookupIsMap(d, key);
  }

  lemma Short(inum: nat)
    ensures inum % 65536 == inum <==> inum < 65536
  {
  }

  /** A dirlookup after a dirlink finds the number, by any name with the same first DIRSIZ bytes, exactly
      when the number is one that an unsigned short can hold, and not 0. */
  lemma LinkThenLookup(c: seq<byte>, d: seq<byte>, name: seq<byte>, other: seq<byte>, inum: nat, l: Lookup)
    requires IsDir(c) && LookupIn(c, Key(name, DIRSIZ)).Absent? && LinkedIn(c, d, Key(name, DIRSIZ), inum)
    requires Key(other, DIRSIZ) == Key(name, DIRSIZ) && l == LookupIn(d, Key(other, DIRSIZ))
    ensures (l.Found? && l.inum == inum) <==> 0 < inum < 65536
  {
    LinkedIsBound(c, d, Key(name, DIRSIZ), inum, l);
    Short(inum);
  }

  /** Any other name is found as before. */
  lemma LinkKeepsOthers(c: seq<byte>, d: seq<byte>, key: seq<byte>, other: seq<byte>, inum: nat)
    requires IsDir(c) && LookupIn(c, key).Absent? && LinkedIn(c, d, key, inum) && other != key
    ensures IsDir(d) && (other in DirMap(d) <==> other in DirMap(c))
    ensures other in DirMap(c) ==> LookupIn(d, other).Found? && LookupIn(d, other).inum == LookupIn(c, other).inum
  {
    LinkIsMap(c, d, key, inum);
    LookupIsMap(c, other);
    LookupIsMap(d, other);
  }

  // ---------- unlink ----------

  /** What sys_unlink does to the directory that has the name: dirlookup, and a free entry in the place of
      the one it found. The write always succeeds, so "unlink: writei" is not reached. */
  method Unlink(v: Volume, i: nat, name: seq<byte>) returns (l: Lookup)
    requires v.Valid() && i < |v.inodes| && Terminated(name, DIRSIZ)
    modifies v
    ensures v.Valid() && |v.img| == |v.inodes| == |old(v.inodes)| == |old(v.img)|
    ensures forall k :: 0 <= k < |v.inodes| && k != i ==> v.img[k] == old(v.img)[k] && v.inodes[k] == old(v.inodes)[k]
    ensures l == LookupIn(old(v.FileContents(i)), Key(name, DIRSIZ))
    ensures v.FileContents(i) == AfterChange(old(v.FileContents(i)), Clear(Key(name, DIRSIZ)))
  {
    ghost var c := v.FileContents(i);
    l := DirLookup(v, i, name);
    if l.Found? {
      SizeIs(v.View(), v.img, i);
      FoundAt(c, Key(name, DIRSIZ), l, l.off / 16);
      var ok := WriteEntry(v, i, l.off / 16, Zeros(16));
      assert ok;
    }
  }

  lemma FoundAt(c: seq<byte>, key: seq<byte>, l: Lookup, j: nat)
    requires l == LookupIn(c, key) && l.Found? && j == l.off / 16
    ensures j == FindFrom(Entries(c), key, 0) < |Entries(c)| && 16 * j == l.off && 16 * j + 16 <= |c|
    ensures AfterChange(c, Clear(key)) == WithEntry(c, j, Zeros(16))
  {
  }

  /** Unlinking takes exactly the binding of the name away. */
  lemma UnlinkIsMap(c: seq<byte>, key: seq<byte>, j: nat)
    requires IsDir(c) && LookupIn(c, key).Found? && 16 * j == LookupIn(c, key).off
    ensures 16 * j <= |c| && IsDir(WithEntry(c, j, Zeros(16))) &&
            DirMap(WithEntry(c, j, Zeros(16))) == DirMap(c) - {key}
  {
    PutBytes(c, j, Zeros(16), WithEntry(c, j, Zeros(16)));
    Unlinked(Entries(c), j, Decode(Zeros(16)));
  }

  /** So unlinking what was linked gives back the old map. */
  lemma LinkThenUnlink(c: seq<byte>, d: seq<byte>, key: seq<byte>, inum: nat, j: nat)
    requires IsDir(c) && LookupIn(c, key).Absent? && LinkedIn(c, d, key, inum) && inum % 65536 != 0
    requires LookupIn(d, key).Found? && 16 * j == LookupIn(d, key).off
    ensures 16 * j <= |d| && DirMap(WithEntry(d, j, Zeros(16))) == DirMap(c)
  {
    LinkIsMap(c, d, key, inum);
    UnlinkIsMap(d, key, j);
  }

  // ---------- runs ----------

  /** A dirlink with the entry e, for which there may be no room, or the unlinking of a name. */
  datatype Change = Link(e: seq<byte>, room: bool) | Clear(key: seq<byte>)

  predicate LegalChange(ch: Change) {
    ch.Link? ==> |ch.e| == 16
  }

  function AfterChange(c: seq<byte>, ch: Change): seq<byte>
    requires LegalChange(ch)
  {
    match ch
    case Link(e, room) =>
      var j := FreeFrom(Entries(c), 0);
      if room && LookupIn(c, Decode(e).name).Absent? && 16 * j <= |c| then WithEntry(c, j, e) else c
    case Clear(key) =>
      var j := FindFrom(Entries(c), key, 0);
      if j < |Entries(c)| then WithEntry(c, j, Zeros(16)) else c
  }

  /** The same on a map. */
  function OnMap(m: map<seq<byte>, nat>, ch: Change): map<seq<byte>, nat>
    requires LegalChange(ch)
  {
    match ch
    case Link(e, room) => if room && Decode(e).name !in m &&
      Decode(e).inum != 0 then m[Decode(e).name := Decode(e).inum] else m
    case Clear(key) => m - {key}
  }

  lemma LinkOnMap(c: seq<byte>, e: seq<byte>, room: bool, d: Dirent)
    requires IsDir(c) && |e| == 16 && d == Decode(e)
    ensures IsDir(AfterChange(c, Link(e, room))) &&
            DirMap(AfterChange(c, Link(e, room))) == OnMap(DirMap(c), Link(e, room))
  {
    LookupIsMap(c, d.name);
    if room && LookupIn(c, d.name).Absent? {
      Short(d.inum);
      WithEntryIn(c, e, d.name, d.inum);
      LinkIsMap(c, AfterChange(c, Link(e, room)), d.name, d.inum);
    }
  }

  lemma UnlinkOnMap(c: seq<byte>, key: seq<byte>, j: nat)
    requires IsDir(c) && j == FindFrom(Entries(c), key, 0)
    ensures IsDir(AfterChange(c, Clear(key))) && DirMap(AfterChange(c, Clear(key))) == DirMap(c) - {key}
  {
    if j < |Entries(c)| {
      UnlinkIsMap(c, key, j);
    } else {
      LookupIsMap(c, key);
      assert DirMap(c) - {key} == DirMap(c);
    }
  }

  lemma ChangeOnMap(c: seq<byte>, ch: Change)
    requires IsDir(c) && LegalChange(ch)
    ensures IsDir(AfterChange(c, ch)) && DirMap(AfterChange(c, ch)) == OnMap(DirMap(c), ch)
  {
    match ch
    case Link(e, room) => LinkOnMap(c, e, room, Decode(e));
    case Clear(key) => UnlinkOnMap(c, key, FindFrom(Entries(c), key, 0));
  }

  function RunDir(c: seq<byte>, run: seq<Change>): seq<byte>
    requires forall k :: 0 <= k < |run| ==> LegalChange(run[k])
  {
    if run == [] then c else AfterChange(RunDir(c, run[..|run| - 1]), run[|run| - 1])
  }

  function RunMap(m: map<seq<byte>, nat>, run: seq<Change>): map<seq<byte>, nat>
    requires forall k :: 0 <= k < |run| ==> LegalChange(run[k])
  {
    if run == [] then m else OnMap(RunMap(m, run[..|run| - 1]), run[|run| - 1])
  }

  /** Over any sequence of changes a directory stays one, without two live entries that agree on DIRSIZ
      bytes, and means what the same changes make of the map. */
  lemma {:induction false} DirectoryIsMap(c: seq<byte>, run: seq<Change>)
    requires IsDir(c) && forall k :: 0 <= k < |run| ==> LegalChange(run[k])
    ensures IsDir(RunDir(c, run)) && DirMap(RunDir(c, run)) == RunMap(DirMap(c), run)
  {
    if run != [] {
      DirectoryIsMap(c, run[..|run| - 1]);
      ChangeOnMap(RunDir(c, run[..|run| - 1]), run[|run| - 1]);
    }
  }
}
