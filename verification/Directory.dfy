/** A directory of kernel/fs.c as a map from names to inode numbers: entries of 16 bytes, an inode number
    and a name of up to DIRSIZ bytes, where inode number 0 marks a free entry. */
module Directory {
  import opened Blocks
  import opened Names

  // ---------- lists of entries ----------

  /** An entry with the name that it holds, cut at a NUL. */
  datatype Dirent = Dirent(inum: nat, name: seq<byte>)

  predicate Matches(d: Dirent, key: seq<byte>) {
    d.inum != 0 && d.name == key
  }

  /** What the entries bind. */
  function Bindings(ds: seq<Dirent>): map<seq<byte>, nat> {
    if ds == [] then map[]
    else
      var d, m := ds[|ds| - 1], Bindings(ds[..|ds| - 1]);
      if d.inum == 0 then m else m[d.name := d.inum]
  }

  /** No two live entries have the same name. */
  ghost predicate Unique(ds: seq<Dirent>) {
    forall j, k :: 0 <= j < k < |ds| && ds[j].inum != 0 && ds[k].inum != 0 ==> ds[j].name != ds[k].name
  }

  /** The first live entry from j on with the name, or the number of entries. */
  function FindFrom(ds: seq<Dirent>, key: seq<byte>, j: nat): (k: nat)
    requires j <= |ds|
    ensures j <= k <= |ds| && (k < |ds| ==> Matches(ds[k], key)) && forall l :: j <= l < k ==> !Matches(ds[l], key)
    decreases |ds| - j
  {
    if j == |ds| || Matches(ds[j], key) then j else FindFrom(ds, key, j + 1)
  }

  /** The first free entry from j on, or the number of entries. */
  function FreeFrom(ds: seq<Dirent>, j: nat): (k: nat)
    requires j <= |ds|
    ensures j <= k <= |ds| && (k < |ds| ==> ds[k].inum == 0) && forall l :: j <= l < k ==> ds[l].inum != 0
    decreases |ds| - j
  {
    if j == |ds| || ds[j].inum == 0 then j else FreeFrom(ds, j + 1)
  }

  /** A name is bound exactly when a live entry has it. */
  lemma {:induction false} BoundIff(ds: seq<Dirent>, key: seq<byte>)
    ensures key in Bindings(ds) <==> exists j :: 0 <= j < |ds| && Matches(ds[j], key)
  {
    if ds != [] {
      var init := ds[..|ds| - 1];
      BoundIff(init, key);
      assert forall j :: 0 <= j < |init| ==> init[j] == ds[j];
      assert Matches(ds[|ds| - 1], key) ==> key in Bindings(ds);
    }
  }

  lemma {:induction false} BoundTo(ds: seq<Dirent>, key: seq<byte>, j: nat)
    requires j < |ds| && Matches(ds[j], key) && Unique(ds)
    ensures key in Bindings(ds) && Bindings(ds)[key] == ds[j].inum
  {
    if j < |ds| - 1 {
      BoundTo(ds[..|ds| - 1], key, j);
      assert !Matches(ds[|ds| - 1], key);
    }
  }

  /** The search finds exactly what is bound. */
  lemma FindIsMap(ds: seq<Dirent>, key: seq<byte>)
    requires Unique(ds)
    ensures var k := FindFrom(ds, key, 0);
            if k < |ds| then key in Bindings(ds) && Bindings(ds)[key] == ds[k].inum != 0 else key !in Bindings(ds)
  {
    BoundIff(ds, key);
    var k := FindFrom(ds, key, 0);
    if k < |ds| {
      BoundTo(ds, key, k);
    }
  }

  /** Entry j is replaced by d, or d is appended. */
  function PutDirent(ds: seq<Dirent>, j: nat, d: Dirent): seq<Dirent>
    requires j <= |ds|
  {
    if j < |ds| then ds[j := d] else ds + [d]
  }

  /** A live entry with a new name in the place of a free one adds one binding. */
  lemma {:induction false} LinkedMap(ds: seq<Dirent>, j: nat, d: Dirent)
    requires j <= |ds| && (j < |ds| ==> ds[j].inum == 0) && forall k :: 0 <= k < |ds| ==> !Matches(ds[k], d.name)
    ensures Bindings(PutDirent(ds, j, d)) == if d.inum == 0 then Bindings(ds) else Bindings(ds)[d.name := d.inum]
  {
    var init := if |ds| == 0 then [] else ds[..|ds| - 1];
    if j == |ds| {
      assert (ds + [d])[..|ds|] == ds;
    } else if j == |ds| - 1 {
      assert ds[j := d][..j] == ds[..j];
    } else {
      assert ds[j := d][..|ds| - 1] == init[j := d];
      assert !Matches(ds[|ds| - 1], d.name);
      LinkedMap(init, j, d);
    }
  }

  /** A free entry in the place of a live one takes its binding away. */
  lemma {:induction false} UnlinkedMap(ds: seq<Dirent>, j: nat, d: Dirent)
    requires Unique(ds) && j < |ds| && ds[j].inum != 0 && d.inum == 0
    ensures Bindings(ds[j := d]) == Bindings(ds) - {ds[j].name}
  {
    var init := ds[..|ds| - 1];
    if j == |ds| - 1 {
      assert ds[j := d][..j] == init;
      BoundIff(init, ds[j].name);
    } else {
      assert ds[j := d][..|ds| - 1] == init[j := d];
      UnlinkedMap(init, j, d);
    }
  }

  lemma LinkedUnique(ds: seq<Dirent>, j: nat, d: Dirent)
    requires Unique(ds) && j <= |ds| && (d.inum != 0 ==> forall k :: 0 <= k < |ds| ==> !Matches(ds[k], d.name))
    ensures Unique(PutDirent(ds, j, d))
  {
    var r := PutDirent(ds, j, d);
    forall a, b | 0 <= a < b < |r| && r[a].inum != 0 && r[b].inum != 0 ensures r[a].name != r[b].name {
      assert a != j ==> r[a] == ds[a];
      assert b != j ==> r[b] == ds[b];
    }
  }

  /** A new name in the first free entry: still a directory, and exactly this binding more. An inode number
      of 0 binds nothing. */
  lemma Linked(ds: seq<Dirent>, d: Dirent)
    requires Unique(ds) && FindFrom(ds, d.name, 0) == |ds|
    ensures var r := PutDirent(ds, FreeFrom(ds, 0), d);
            && Unique(r) && d.name !in Bindings(ds)
            && Bindings(r) == if d.inum == 0 then Bindings(ds) else Bindings(ds)[d.name := d.inum]
  {
    var j, n := FreeFrom(ds, 0), FindFrom(ds, d.name, 0);
    assert forall k :: 0 <= k < |ds| ==> !Matches(ds[k], d.name);
    LinkedUnique(ds, j, d);
    BoundIff(ds, d.name);
    LinkedMap(ds, j, d);
  }

  lemma Unlinked(ds: seq<Dirent>, j: nat, d: Dirent)
    requires Unique(ds) && j < |ds| && ds[j].inum != 0 && d.inum == 0
    ensures Unique(ds[j := d]) && Bindings(ds[j := d]) == Bindings(ds) - {ds[j].name}
  {
    UnlinkedMap(ds, j, d);
  }

  // ---------- the bytes ----------

  function Decode(e: seq<byte>): Dirent
    requires |e| == 16
  {
    Dirent(e[0] as int + 256 * e[1] as int, Key(e[2..], DIRSIZ))
  }

  /** struct dirent; the number is stored as an unsigned short. */
  function Encode(inum: nat, name: seq<byte>): (e: seq<byte>)
    requires |name| == DIRSIZ
    ensures |e| == 16 && Decode(e) == Dirent(inum % 65536, Key(name, DIRSIZ))
  {
    var e: seq<byte> := [inum % 256, inum / 256 % 256] + name;
    assert e[2..] == name;
    e
  }

  /** The complete entries of a directory with contents c. */
  function Entries(c: seq<byte>): (ds: seq<Dirent>)
    ensures |ds| == |c| / 16 && forall j :: 0 <= j < |ds| ==> ds[j] == Decode(c[16 * j..16 * j + 16])
  {
    seq(|c| / 16, j requires 0 <= j < |c| / 16 => Decode(c[16 * j..16 * j + 16]))
  }

  /** Writing an entry at a multiple of its size replaces or appends one. */
  lemma PutBytes(c: seq<byte>, j: nat, e: seq<byte>, d: seq<byte>)
    requires |c| % 16 == 0 && 16 * j <= |c| && |e| == 16
    requires d == c[..16 * j] + e + c[if 16 * j + 16 < |c| then 16 * j + 16 else |c|..]
    ensures Entries(d) == PutDirent(Entries(c), j, Decode(e))
  {
    var want := PutDirent(Entries(c), j, Decode(e));
    forall k | 0 <= k < |want| ensures Decode(d[16 * k..16 * k + 16]) == want[k] {
      if k == j {
        assert d[16 * j..16 * j + 16] == e;
      } else {
        assert d[16 * k..16 * k + 16] == c[16 * k..16 * k + 16];
      }
    }
  }
}
