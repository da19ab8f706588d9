/** strncmp and strncpy of kernel/string.c, and skipelem of kernel/fs.c: the names of directory entries. */
module Names {
  import opened Blocks
  import opened Wrappers

  const DIRSIZ := 14
  const SLASH: byte := 47

  /** A buffer of which a string function may look at n bytes: that long, or with a NUL in it. */
  predicate Terminated(s: seq<byte>, n: nat) {
    |s| >= n || 0 in s
  }

  /** The name that a buffer holds: its first n bytes, up to a NUL. */
  function Key(s: seq<byte>, n: nat): seq<byte>
    decreases n
  {
    if n == 0 || s == [] || s[0] == 0 then [] else [s[0]] + Key(s[1..], n - 1)
  }

  /** The first k bytes are part of the name. */
  lemma {:induction false} KeySplit(s: seq<byte>, n: nat, k: nat)
    requires k <= n && k <= |s| && 0 !in s[..k]
    ensures Key(s, n) == s[..k] + Key(s[k..], n - k)
    decreases k
  {
    if k == 0 {
      assert s[0..] == s && s[..0] == [];
    } else {
      assert s[0] in s[..k] && s[1..][..k - 1] == s[..k][1..] && s[1..][k - 1..] == s[k..];
      KeySplit(s[1..], n - 1, k - 1);
    }
  }

  /** strncmp, as far as namecmp uses it: 0 exactly for buffers that hold the same name. */
  method Strncmp(p: seq<byte>, q: seq<byte>, n: nat) returns (r: int)
    requires Terminated(p, n) && Terminated(q, n)
    ensures r == 0 <==> Key(p, n) == Key(q, n)
  {
    var k := 0;
    while k < n && p[k] != 0 && p[k] == q[k]
      invariant 0 <= k <= n && k <= |p| && k <= |q| && p[..k] == q[..k] && 0 !in p[..k]
      invariant k < n ==> k < |p| && k < |q|
    {
      assert p[..k + 1] == p[..k] + [p[k]] && q[..k + 1] == q[..k] + [q[k]];
      k := k + 1;
      More(p, n, k);
      More(q, n, k);
    }
    KeySplit(p, n, k);
    KeySplit(q, n, k);
    if k == n {
      return 0;
    }
    r := p[k] as int - q[k] as int;
    Heads(p[k..], q[k..], n - k);
    Differ(p[..k], Key(p[k..], n - k), Key(q[k..], n - k));
  }

  lemma Heads(x: seq<byte>, y: seq<byte>, n: nat)
    requires x != [] && y != [] && n > 0 && (x[0] == 0 || x[0] != y[0])
    ensures Key(x, n) == Key(y, n) <==> x[0] == y[0]
  {
    if y[0] != 0 {
      assert Key(y, n)[0] == y[0];
    }
    if x[0] != 0 {
      assert Key(x, n)[0] == x[0];
    }
  }

  lemma Differ(a: seq<byte>, x: seq<byte>, y: seq<byte>)
    ensures a + x == a + y <==> x == y
  {
    assert (a + x)[|a|..] == x && (a + y)[|a|..] == y;
  }

  /** Behind bytes that are not NUL there is another one. */
  lemma More(s: seq<byte>, n: nat, k: nat)
    requires Terminated(s, n) && k <= |s| && 0 !in s[..k]
    ensures k < n ==> k < |s|
  {
    assert s[..|s|] == s;
  }

  function Zeros(n: nat): (z: seq<byte>)
    ensures |z| == n && forall i :: 0 <= i < n ==> z[i] == 0
  {
    seq(n, _ => 0)
  }

  /** strncpy into a buffer of n bytes: the name, and NULs up to the end. */
  method Strncpy(t: seq<byte>, n: nat) returns (s: seq<byte>)
    requires Terminated(t, n)
    ensures |s| == n && |Key(t, n)| <= n && s == Key(t, n) + Zeros(n - |Key(t, n)|)
  {
    s := [];
    var k := 0;
    var nul := false;
    while k < n && !nul
      invariant 0 <= k <= n && k <= |t| && (k < n && !nul ==> k < |t|)
      invariant |s| == k && if nul then k > 0 && s == t[..k - 1] + [0] && 0 !in t[..k - 1] && t[k - 1] == 0
                else s == t[..k] && 0 !in t[..k]
      decreases !nul, n - k
    {
      s := s + [t[k]];
      nul := t[k] == 0;
      assert t[..k + 1] == t[..k] + [t[k]];
      k := k + 1;
      if !nul {
        More(t, n, k);
      }
    }
    ghost var l := if nul then k - 1 else k;
    KeySplit(t, n, l);
    assert Key(t[l..], n - l) == [];
    assert t[..l] + [] == t[..l];
    assert s == t[..l] + Zeros(k - l);
    while k < n
      invariant l <= k <= n && s == t[..l] + Zeros(k - l)
    {
      s := s + [0];
      k := k + 1;
    }
  }

  /** The copy holds the name that was copied. */
  lemma {:induction false} PaddedKey(a: seq<byte>, n: nat, z: nat)
    requires |a| <= n && 0 !in a && |a| + z >= n
    ensures Key(a + Zeros(z), n) == a
    decreases n
  {
    if a == [] {
      assert Zeros(z) == [] || Zeros(z)[0] == 0;
    } else {
      assert (a + Zeros(z))[1..] == a[1..] + Zeros(z) && a[0] in a;
      PaddedKey(a[1..], n - 1, z);
    }
  }

  lemma {:induction false} KeyClean(s: seq<byte>, n: nat)
    ensures |Key(s, n)| <= n && 0 !in Key(s, n)
    decreases n
  {
    if !(n == 0 || s == [] || s[0] == 0) {
      KeyClean(s[1..], n - 1);
    }
  }

  /** strncpy keeps the name: a later comparison of DIRSIZ bytes sees the same. */
  lemma CopyKeepsName(t: seq<byte>, n: nat, s: seq<byte>)
    requires |Key(t, n)| <= n && s == Key(t, n) + Zeros(n - |Key(t, n)|)
    ensures Key(s, n) == Key(t, n)
  {
    KeyClean(t, n);
    PaddedKey(Key(t, n), n, n - |Key(t, n)|);
  }

  // ---------- path elements ----------

  /** The elements of a path: what lies between slashes. */
  function Elements(s: seq<byte>): seq<seq<byte>>
    decreases |s|
  {
    if s == [] then []
    else if s[0] == SLASH then Elements(s[1..])
    else var n := Run(s); [s[..n]] + Elements(s[n..])
  }

  /** How many bytes come before the first slash. */
  function Run(s: seq<byte>): (n: nat)
    ensures n <= |s| && (n < |s| ==> s[n] == SLASH) && SLASH !in s[..n]
    ensures s != [] && s[0] != SLASH ==> n > 0
  {
    if s == [] || s[0] == SLASH then 0
    else
      assert s[..1 + Run(s[1..])] == [s[0]] + s[1..][..Run(s[1..])];
      1 + Run(s[1..])
  }

  lemma {:induction false} RunIs(s: seq<byte>, n: nat)
    requires n <= |s| && (n < |s| ==> s[n] == SLASH) && SLASH !in s[..n]
    ensures Run(s) == n
    decreases n
  {
    if n > 0 {
      assert s[0] in s[..n] && s[1..][..n - 1] == s[..n][1..];
      RunIs(s[1..], n - 1);
    }
  }

  lemma {:induction false} SkipSlashes(s: seq<byte>, k: nat)
    requires k <= |s| && forall i :: 0 <= i < k ==> s[i] == SLASH
    ensures Elements(s) == Elements(s[k..])
    decreases k
  {
    if k > 0 {
      assert s[1..][k - 1..] == s[k..];
      SkipSlashes(s[1..], k - 1);
    } else {
      assert s[0..] == s;
    }
  }

  /** The end of the element at i. */
  method ElementEnd(path: seq<byte>, i: nat) returns (j: nat)
    requires i < |path| && path[i] != SLASH
    ensures i < j <= |path| && (j < |path| ==> path[j] == SLASH)
    ensures Elements(path[i..]) == [path[i..j]] + Elements(path[j..])
  {
    j := i;
    while j < |path| && path[j] != SLASH
      invariant i <= j <= |path| && SLASH !in path[i..j]
    {
      assert path[i..j + 1] == path[i..j] + [path[j]];
      j := j + 1;
    }
    ghost var rest := path[i..];
    assert rest[..j - i] == path[i..j] && rest[j - i..] == path[j..];
    RunIs(rest, j - i);
  }

  /** The element e in the name buffer, cut to its size or with a NUL behind it. */
  method CopyElement(e: seq<byte>, buf: seq<byte>) returns (name: seq<byte>)
    requires |buf| == DIRSIZ && 0 !in e
    ensures |name| == DIRSIZ && Key(name, DIRSIZ) == Key(e, DIRSIZ)
  {
    if |e| >= DIRSIZ {
      name := e[..DIRSIZ];
      CutKey(e, DIRSIZ);
    } else {
      name := (e + buf[|e|..])[|e| := 0];
      ShortKey(e, name, DIRSIZ);
    }
  }

  /** skipelem on a path without NULs, into a name buffer: None for a path without elements; otherwise the
      rest of the path, and a buffer with the first element cut to DIRSIZ bytes. */
  method SkipElem(path: seq<byte>, buf: seq<byte>) returns (r: Option<seq<byte>>, name: seq<byte>)
    requires |buf| == DIRSIZ && 0 !in path
    ensures |name| == DIRSIZ && (r.None? <==> Elements(path) == [])
    ensures r.Some? ==> Elements(r.value) == Elements(path)[1..] && Key(name, DIRSIZ) == Key(Elements(path)[0], DIRSIZ)
    ensures r.Some? ==> r.value == [] || r.value[0] != SLASH
  {
    var i := Slashes(path, 0);
    if i == |path| {
      NoElement(path);
      return None, buf;
    }
    var j := ElementEnd(path, i);
    var e := path[i..j];
    name := CopyElement(e, buf);
    var k := Slashes(path, j);
    FirstElement(path, i, j, k, e);
    r := Some(path[k..]);
  }

  lemma NoElement(path: seq<byte>)
    requires forall k :: 0 <= k < |path| ==> path[k] == SLASH
    ensures Elements(path) == []
  {
    SkipSlashes(path, |path|);
  }

  lemma SkipFrom(path: seq<byte>, j: nat, k: nat)
    requires j <= k <= |path| && forall l :: j <= l < k ==> path[l] == SLASH
    ensures Elements(path[j..]) == Elements(path[k..])
  {
    var t := path[j..];
    assert t[k - j..] == path[k..];
    SkipSlashes(t, k - j);
  }

  lemma FirstOf(es: seq<seq<byte>>, e: seq<byte>, rest: seq<seq<byte>>)
    requires es == [e] + rest
    ensures es[0] == e && es[1..] == rest
  {
  }

  lemma FirstElement(path: seq<byte>, i: nat, j: nat, k: nat, e: seq<byte>)
    requires i <= j <= k <= |path| && Elements(path[i..]) == [e] + Elements(path[j..])
    requires (forall l :: 0 <= l < i ==> path[l] == SLASH) && (forall l :: j <= l < k ==> path[l] == SLASH)
    ensures Elements(path) != [] && Elements(path)[0] == e && Elements(path)[1..] == Elements(path[k..])
  {
    SkipSlashes(path, i);
    SkipFrom(path, j, k);
    FirstOf(Elements(path), e, Elements(path[k..]));
  }

  method Slashes(path: seq<byte>, i: nat) returns (j: nat)
    requires i <= |path|
    ensures i <= j <= |path| && (j < |path| ==> path[j] != SLASH) && forall k :: i <= k < j ==> path[k] == SLASH
  {
    j := i;
    while j < |path| && path[j] == SLASH
      invariant i <= j <= |path| && forall k :: i <= k < j ==> path[k] == SLASH
    {
      j := j + 1;
    }
  }

  lemma {:induction false} CutKey(e: seq<byte>, n: nat)
    requires n <= |e|
    ensures Key(e[..n], n) == Key(e, n)
    decreases n
  {
    if n > 0 {
      assert e[..n][1..] == e[1..][..n - 1];
      CutKey(e[1..], n - 1);
    }
  }

  lemma ShortKey(e: seq<byte>, name: seq<byte>, n: nat)
    requires |e| < n == |name| && 0 !in e && name[..|e|] == e && name[|e|] == 0
    ensures Key(name, n) == Key(e, n)
  {
    KeySplit(name, n, |e|);
    assert e[..|e|] == e;
    KeySplit(e, n, |e|);
  }
}
