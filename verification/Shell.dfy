/** The parser of user/sh.c, on the characters of a line, and nulterminate. */
module Shell {
  import opened Wrappers
  import opened ShellGrammar
  import opened ShellLexer
  import opened ShellTree

  /** A result, or the panic that ends the shell's child. */
  datatype Result<T> = Good(value: T) | Bad(error: Error)

  /** A parsing method that began at s and ended at e does what the grammar's parser does on the tokens. */
  predicate Agrees<T(==)>(p: Parsed<T>, line: string, s: nat, r: Result<T>, e: nat) {
    match p
    case Ok(v, rest) => r == Good(v) && s <= e <= |line| && Lex(line, e) == rest
    case Err(x) => r == Bad(x)
  }

  /** The loop over white space. */
  method SkipWhite(line: string, s: nat) returns (e: nat)
    requires s <= |line|
    ensures e == Skip(line, s)
  {
    e := s;
    while e < |line| && White(line[e])
      invariant s <= e <= |line| && forall k :: s <= k < e ==> White(line[k])
    {
      e := e + 1;
    }
    SkipIs(line, s, e);
  }

  /** gettoken: the next token, and the cursor behind it and the white space that follows. */
  method GetToken(line: string, s: nat) returns (tok: Option<Tok>, e: nat)
    requires s <= |line|
    ensures s <= e <= |line| && e == Skip(line, e)
    ensures tok.None? ==> Lex(line, s) == [] && e == |line|
    ensures tok.Some? ==> s < e && Lex(line, s) == [tok.value] + Lex(line, e)
  {
    var q := SkipWhite(line, s);
    if q == |line| {
      return None, q;
    }
    var eq := q;
    if line[q] == '>' {
      eq := q + 1;
      tok := Some(Sym('>'));
      if eq < |line| && line[eq] == '>' {
        tok := Some(Append);
        eq := eq + 1;
      }
    } else if Symbol(line[q]) {
      tok := Some(Sym(line[q]));
      eq := q + 1;
    } else {
      while eq < |line| && Plain(line[eq])
        invariant q <= eq <= |line| && forall k :: q <= k < eq ==> Plain(line[k])
      {
        eq := eq + 1;
      }
      WordEndIs(line, q, eq);
      tok := Some(Word(Span(q, eq)));
    }
    e := SkipWhite(line, eq);
    LexSkip(line, eq, e);
  }

  /** The first character of a token. */
  function Head(t: Tok): Option<char> {
    match t
    case Sym(c) => Some(c)
    case Append => Some('>')
    case Word(_) => None
  }

  /** The next token begins with one of the characters. */
  predicate Begins(toks: seq<Tok>, s: string) {
    toks != [] && Head(toks[0]).Some? && Head(toks[0]).value in s
  }

  lemma BeginsRedir(toks: seq<Tok>, s: string)
    requires s == "<>"
    ensures Begins(toks, s) <==> toks != [] && OpOf(toks[0]).Some?
  {
    assert forall c: char :: c in s <==> c == s[0] || c == s[1];
  }

  lemma BeginsStop(toks: seq<Tok>, s: string)
    requires s == "|)&;"
    ensures Begins(toks, s) <==> toks != [] && Stops(toks[0])
  {
    assert forall c: char :: c in s <==> c == s[0] || c == s[1] || c == s[2] || c == s[3];
  }

  lemma BeginsOne(toks: seq<Tok>, s: string, c: char)
    requires s == [c] && c != '>'
    ensures Begins(toks, s) <==> toks != [] && toks[0] == Sym(c)
  {
  }

  /** peek, for a string of symbols: whether the next token begins with one of them. */
  method Peek(line: string, s: nat, toks: string) returns (b: bool, e: nat)
    requires s <= |line| && forall k :: 0 <= k < |toks| ==> Symbol(toks[k])
    ensures s <= e <= |line| && e == Skip(line, e) && Lex(line, e) == Lex(line, s)
    ensures b == Begins(Lex(line, e), toks)
  {
    e := SkipWhite(line, s);
    LexSkip(line, s, e);
    b := e < |line| && line[e] in toks;
  }

  method PeekRedir(line: string, s: nat) returns (b: bool, e: nat)
    requires s <= |line|
    ensures s <= e <= |line| && Lex(line, e) == Lex(line, s)
    ensures b == (Lex(line, e) != [] && OpOf(Lex(line, e)[0]).Some?)
  {
    b, e := Peek(line, s, "<>");
    BeginsRedir(Lex(line, e), "<>");
  }

  method PeekStop(line: string, s: nat) returns (b: bool, e: nat)
    requires s <= |line|
    ensures s <= e <= |line| && Lex(line, e) == Lex(line, s)
    ensures b == (Lex(line, e) != [] && Stops(Lex(line, e)[0]))
  {
    b, e := Peek(line, s, "|)&;");
    BeginsStop(Lex(line, e), "|)&;");
  }

  method PeekSym(line: string, s: nat, c: char) returns (b: bool, e: nat)
    requires s <= |line| && Symbol(c) && c != '>'
    ensures s <= e <= |line| && Lex(line, e) == Lex(line, s)
    ensures b == (Lex(line, e) != [] && Lex(line, e)[0] == Sym(c))
  {
    b, e := Peek(line, s, [c]);
    BeginsOne(Lex(line, e), [c], c);
  }

  /** One round of parseredirs: an operator, which is there, and its file. */
  method OneRedirection(line: string, s: nat, ghost acc: seq<Redirection>) returns (r: Option<Redirection>, e: nat)
    requires s <= |line| && Lex(line, s) != [] && OpOf(Lex(line, s)[0]).Some?
    ensures r.None? ==> ParseRedirs(Lex(line, s), acc) == Err(MissingFile)
    ensures r.Some? ==> s < e <= |line| && ParseRedirs(Lex(line, s), acc) == ParseRedirs(Lex(line, e), acc + [r.value])
  {
    var op, file;
    op, e := GetToken(line, s);
    ghost var more := Lex(line, e);
    file, e := GetToken(line, e);
    if file.None? || !file.value.Word? {
      RedirFails(Lex(line, s), op.value, more, acc);
      return None, e;
    }
    RedirStep(Lex(line, s), op.value, more, file.value.w, Lex(line, e), acc);
    r := Some(Redirection(OpOf(op.value).value, file.value.w));
  }

  /** parseredirs: the redirections, which its caller wraps around a command. */
  method Redirections(line: string, s: nat) returns (r: Result<seq<Redirection>>, e: nat)
    requires s <= |line|
    ensures Agrees(ParseRedirs(Lex(line, s), []), line, s, r, e)
  {
    var rs := [];
    var more;
    more, e := PeekRedir(line, s);
    while more
      invariant s <= e <= |line| && ParseRedirs(Lex(line, s), []) == ParseRedirs(Lex(line, e), rs)
      invariant more == (Lex(line, e) != [] && OpOf(Lex(line, e)[0]).Some?)
      decreases |line| - e
    {
      var x;
      x, e := OneRedirection(line, e, rs);
      if x.None? {
        return Bad(MissingFile), e;
      }
      rs := rs + [x.value];
      more, e := PeekRedir(line, e);
    }
    r := Good(rs);
  }

  /** The token that a peek has seen. */
  method Take(line: string, s: nat, ghost t: Tok) returns (e: nat)
    requires s <= |line| && Lex(line, s) != [] && Lex(line, s)[0] == t
    ensures s < e <= |line| && Lex(line, s) == [t] + Lex(line, e) && Lex(line, s)[1..] == Lex(line, e)
  {
    var tok;
    tok, e := GetToken(line, s);
  }

  // ---------- words and redirections ----------

  /** What parseexec has collected: the argument vector, and the redirections around it. */
  ghost predicate Collected(items: seq<Item>, argv: seq<Span>, rs: seq<Redirection>) {
    Args(items) == argv && Redirs(items) == rs
  }

  lemma CollectRedir(items: seq<Item>, argv: seq<Span>, rs: seq<Redirection>, x: Redirection)
    requires Collected(items, argv, rs)
    ensures Collected(items + [To(x)], argv, rs + [x])
  {
    assert (items + [To(x)])[..|items|] == items;
  }

  lemma {:induction false} CollectRedirs(items: seq<Item>, argv: seq<Span>, rs: seq<Redirection>,
          more: seq<Redirection>)
    requires Collected(items, argv, rs)
    ensures Collected(items + Tos(more), argv, rs + more)
  {
    if more == [] {
      assert items + Tos(more) == items && rs + more == rs;
    } else {
      var init, x := more[..|more| - 1], more[|more| - 1];
      CollectRedirs(items, argv, rs, init);
      CollectRedir(items + Tos(init), argv, rs + init, x);
      assert items + Tos(more) == items + Tos(init) + [To(x)];
      assert rs + more == rs + init + [x];
    }
  }

  lemma CollectArg(items: seq<Item>, argv: seq<Span>, rs: seq<Redirection>, w: Span)
    requires Collected(items, argv, rs)
    ensures Collected(items + [Arg(w)], argv + [w], rs)
  {
    ArgTokens(items, w);
  }

  /** One round of the loop of parseexec; done at the end of the words. */
  method OneArg(line: string, s: nat, argc: nat, ghost a: seq<Item>) returns (r: Result<Option<Span>>, e: nat)
    requires s <= |line| && |Args(a)| == argc
    ensures r.Bad? ==> ParseArg(Lex(line, s), a) == Err(r.error)
    ensures r.Good? && r.value.None? ==> s <= e <= |line| && ParseArg(Lex(line, s), a) == Ok(a, Lex(line, e))
    ensures r.Good? && r.value.Some? ==> s < e <= |line| && argc + 1 < MAXARGS
    ensures r.Good? && r.value.Some? ==>
              ParseArg(Lex(line, s), a) == ParseItems(Lex(line, e), a + [Arg(r.value.value)])
  {
    var stop;
    stop, e := PeekStop(line, s);
    if stop {
      return Good(None), e;
    }
    var tok;
    ghost var toks := Lex(line, e);
    tok, e := GetToken(line, e);
    if tok.None? {
      return Good(None), e;
    }
    if !tok.value.Word? {
      return Bad(Syntax), e;
    }
    ArgTokens(a, tok.value.w);
    if argc + 1 >= MAXARGS {
      return Bad(TooManyArgs), e;
    }
    assert toks[1..] == Lex(line, e);
    r := Good(Some(tok.value.w));
  }

  /** parseexec of words and redirections. The argument vector has room for all of them and a null pointer. */
  method ParseSimple(line: string, s: nat) returns (r: Result<Cmd>, e: nat, ghost items: seq<Item>)
    requires s <= |line|
    ensures match ParseItems(Lex(line, s), [])
            case Ok(v, rest) =>
              && items == v && s <= e <= |line| && Lex(line, e) == rest
              && r == Good(BuildCommand(Simple(v)))
            case Err(x) => r == Bad(x)
  {
    var argv, rs := [], [];
    items := [];
    var done := false;
    e := s;
    ghost var p := ParseItems(Lex(line, s), []);
    while !done
      invariant s <= e <= |line| && Collected(items, argv, rs) && |argv| < MAXARGS
      invariant p == if done then Ok(items, Lex(line, e)) else ParseItems(Lex(line, e), items)
      decreases !done, |line| - e
    {
      var more;
      ghost var e0 := e;
      more, e := Redirections(line, e);
      if more.Bad? {
        return Bad(more.error), e, items;
      }
      CollectRedirs(items, argv, rs, more.value);
      items := items + Tos(more.value);
      rs := rs + more.value;
      var arg;
      arg, e := OneArg(line, e, |argv|, items);
      if arg.Bad? {
        return Bad(arg.error), e, items;
      }
      if arg.value.None? {
        done := true;
      } else {
        CollectArg(items, argv, rs, arg.value.value);
        items := items + [Arg(arg.value.value)];
        argv := argv + [arg.value.value];
      }
    }
    r := Good(Wrap(Exec(argv), rs));
  }

  // ---------- the grammar ----------

  /** parseexec */
  method ParseExec(line: string, s: nat) returns (r: Result<Cmd>, e: nat)
    requires s <= |line|
    ensures match ParseCommand(Lex(line, s))
            case Ok(c, rest) => r == Good(BuildCommand(c)) && s <= e <= |line| && Lex(line, e) == rest
            case Err(x) => r == Bad(x)
    decreases |line| - s, 1
  {
    var open;
    open, e := PeekSym(line, s, '(');
    if open {
      r, e := ParseBlock(line, e);
    } else {
      ghost var items;
      r, e, items := ParseSimple(line, e);
    }
  }

  /** parseblock, after a peek that has seen the parenthesis; so its own panic is not reached. */
  method ParseBlock(line: string, s: nat) returns (r: Result<Cmd>, e: nat)
    requires s <= |line| && Lex(line, s) != [] && Lex(line, s)[0] == Sym('(')
    ensures match ParseCommand(Lex(line, s))
            case Ok(c, rest) => r == Good(BuildCommand(c)) && s <= e <= |line| && Lex(line, e) == rest
            case Err(x) => r == Bad(x)
    decreases |line| - s, 0
  {
    e := Take(line, s, Sym('('));
    var body;
    body, e := ParseOne(line, e);
    if body.Bad? {
      return body, e;
    }
    var close;
    close, e := PeekSym(line, e, ')');
    if !close {
      return Bad(MissingParen), e;
    }
    e := Take(line, e, Sym(')'));
    var rs;
    rs, e := Redirections(line, e);
    if rs.Bad? {
      return Bad(rs.error), e;
    }
    r := Good(Wrap(body.value, rs.value));
  }

  /** parsepipe */
  method ParseBars(line: string, s: nat) returns (r: Result<Cmd>, e: nat)
    requires s <= |line|
    ensures match ParsePipe(Lex(line, s))
            case Ok(p, rest) => r == Good(BuildPipe(p)) && s <= e <= |line| && Lex(line, e) == rest
            case Err(x) => r == Bad(x)
    decreases |line| - s, 2
  {
    r, e := ParseExec(line, s);
    if r.Bad? {
      return;
    }
    var bar;
    bar, e := PeekSym(line, e, '|');
    if bar {
      e := Take(line, e, Sym('|'));
      var left := r.value;
      r, e := ParseBars(line, e);
      if r.Good? {
        r := Good(PipeTo(left, r.value));
      }
    }
  }

  lemma {:induction false} BacksInner(d: Cmd, n: nat)
    ensures Backs(Back(d), n) == Backs(d, n + 1)
  {
    if n > 0 {
      BacksInner(d, n - 1);
    }
  }

  /** One ampersand less before the rest, and one command in the background more. */
  lemma AmpStep(d: Cmd, rest: seq<Tok>, next: seq<Tok>)
    requires rest == [Sym('&')] + next
    ensures Backs(Back(d), Amps(next)) == Backs(d, Amps(rest)) && next[Amps(next)..] == rest[Amps(rest)..]
  {
    assert rest[1..] == next;
    BacksInner(d, Amps(next));
  }

  /** The loop of parseline over ampersands. */
  method Background(line: string, s: nat, c: Cmd, ghost toks: seq<Tok>) returns (d: Cmd, e: nat)
    requires s <= |line| && toks == Lex(line, s)
    ensures d == Backs(c, Amps(toks)) && s <= e <= |line| && Lex(line, e) == toks[Amps(toks)..]
  {
    var amp;
    d := c;
    amp, e := PeekSym(line, s, '&');
    ghost var rest := toks;
    while amp
      invariant s <= e <= |line| && Lex(line, e) == rest && amp == (rest != [] && rest[0] == Sym('&'))
      invariant Backs(d, Amps(rest)) == Backs(c, Amps(toks)) && rest[Amps(rest)..] == toks[Amps(toks)..]
      decreases |line| - e
    {
      ghost var was := rest;
      e := Take(line, e, Sym('&'));
      rest := Lex(line, e);
      AmpStep(d, was, rest);
      d := Back(d);
      amp, e := PeekSym(line, e, '&');
    }
  }

  /** parseline */
  method ParseOne(line: string, s: nat) returns (r: Result<Cmd>, e: nat)
    requires s <= |line|
    ensures match ParseLine(Lex(line, s))
            case Ok(l, rest) => r == Good(BuildLine(l)) && s <= e <= |line| && Lex(line, e) == rest
            case Err(x) => r == Bad(x)
    decreases |line| - s, 3
  {
    r, e := ParseBars(line, s);
    if r.Bad? {
      return;
    }
    var c;
    c, e := Background(line, e, r.value, Lex(line, e));
    r := Good(c);
    var semi;
    semi, e := PeekSym(line, e, ';');
    if semi {
      e := Take(line, e, Sym(';'));
      var right;
      right, e := ParseOne(line, e);
      r := if right.Good? then Good(List(c, right.value)) else right;
    }
  }

  /** parsecmd, up to nulterminate: a tree for exactly the lines of the grammar whose argument vectors fit. */
  method ParseCmd(line: string) returns (r: Result<Cmd>, ghost l: Option<Line>)
    ensures r.Good? ==> l.Some? && Accepts(Lex(line, 0), l.value) && r == Good(BuildLine(l.value))
    ensures r.Bad? ==> forall k :: LineFits(k) ==> LineTokens(k) != Lex(line, 0)
  {
    ghost var p := ParseLine(Lex(line, 0));
    var e;
    r, e := ParseOne(line, 0);
    l := None;
    if r.Good? {
      var s := SkipWhite(line, e);
      LexSkip(line, e, s);
      if s != |line| {
        r := Bad(Leftovers);
      } else {
        l := Some(p.value);
      }
    }
    if r.Bad? {
      forall k | LineFits(k) ensures LineTokens(k) != Lex(line, 0) {
        AcceptsIff(Lex(line, 0), k);
      }
    }
  }

  // ---------- nulterminate ----------

  /** A word of the tree ends at i. */
  predicate EndsAt(c: Cmd, i: nat) {
    match c
    case Exec(argv) => exists k :: 0 <= k < |argv| && argv[k].eq == i
    case Redir(d, file, _) => EndsAt(d, i) || file.eq == i
    case PipeTo(l, r) => EndsAt(l, i) || EndsAt(r, i)
    case List(l, r) => EndsAt(l, i) || EndsAt(r, i)
    case Back(d) => EndsAt(d, i)
  }

  /** All words of the tree end within a buffer of n characters. */
  predicate Within(c: Cmd, n: nat) {
    match c
    case Exec(argv) => forall k :: 0 <= k < |argv| ==> argv[k].eq < n
    case Redir(d, file, _) => Within(d, n) && file.eq < n
    case PipeTo(l, r) => Within(l, n) && Within(r, n)
    case List(l, r) => Within(l, n) && Within(r, n)
    case Back(d) => Within(d, n)
  }

  /** nulterminate: a NUL behind every word of the tree, and nothing else changes. */
  method NulTerminate(c: Cmd, buf: array<char>)
    requires Within(c, buf.Length)
    modifies buf
    ensures forall i :: 0 <= i < buf.Length ==> buf[i] == if EndsAt(c, i) then '\0' else old(buf[i])
    decreases c
  {
    match c
    case Exec(argv) =>
      var k := 0;
      while k < |argv|
        invariant 0 <= k <= |argv|
        invariant forall i :: 0 <= i < buf.Length ==>
                    buf[i] == if exists j :: 0 <= j < k && argv[j].eq == i then '\0' else old(buf[i])
      {
        buf[argv[k].eq] := '\0';
        k := k + 1;
      }
    case Redir(d, file, _) =>
      NulTerminate(d, buf);
      buf[file.eq] := '\0';
    case PipeTo(l, r) =>
      NulTerminate(l, buf);
      NulTerminate(r, buf);
    case List(l, r) =>
      NulTerminate(l, buf);
      NulTerminate(r, buf);
    case Back(d) =>
      NulTerminate(d, buf);
  }

  // ---------- the strings of the tree ----------

  /** Each word of an accepted line is in its tree exactly once, and nothing else is. */
  lemma WordsOnce(line: string, l: Line, w: Span)
    requires Accepts(Lex(line, 0), l)
    ensures Occurs(BuildLine(l), w) == One(IsWord(line, w))
  {
    AcceptsIff(Lex(line, 0), l);
    LineOccurs(l, w);
    WordsLexed(line, 0, w);
  }

  lemma {:induction false} EndIsWord(c: Cmd, i: nat) returns (w: Span)
    requires EndsAt(c, i)
    ensures Occurs(c, w) > 0 && w.eq == i
    decreases c
  {
    match c
    case Exec(argv) =>
      var k :| 0 <= k < |argv| && argv[k].eq == i;
      ArgOccurs(argv, k);
      w := argv[k];
    case Redir(d, file, _) =>
      if EndsAt(d, i) { w := EndIsWord(d, i); } else { w := file; }
    case PipeTo(l, r) =>
      if EndsAt(l, i) { w := EndIsWord(l, i); } else { w := EndIsWord(r, i); }
    case List(l, r) =>
      if EndsAt(l, i) { w := EndIsWord(l, i); } else { w := EndIsWord(r, i); }
    case Back(d) =>
      w := EndIsWord(d, i);
  }

  lemma {:induction false} WordIsEnd(c: Cmd, w: Span)
    requires Occurs(c, w) > 0
    ensures EndsAt(c, w.eq)
    decreases c
  {
    match c
    case Exec(argv) => ArgIsEnd(argv, w);
    case Redir(d, file, _) => if Occurs(d, w) > 0 { WordIsEnd(d, w); }
    case PipeTo(l, r) => if Occurs(l, w) > 0 { WordIsEnd(l, w); } else { WordIsEnd(r, w); }
    case List(l, r) => if Occurs(l, w) > 0 { WordIsEnd(l, w); } else { WordIsEnd(r, w); }
    case Back(d) => WordIsEnd(d, w);
  }

  lemma {:induction false} ArgIsEnd(argv: seq<Span>, w: Span)
    requires InArgs(argv, w) > 0
    ensures exists k :: 0 <= k < |argv| && argv[k].eq == w.eq
  {
    var n := |argv| - 1;
    if argv[n] != w {
      ArgIsEnd(argv[..n], w);
      var k :| 0 <= k < n && argv[..n][k].eq == w.eq;
      assert argv[k].eq == w.eq;
    }
  }

  lemma {:induction false} WithinIs(c: Cmd, n: nat)
    requires forall i :: i >= n ==> !EndsAt(c, i)
    ensures Within(c, n)
    decreases c
  {
    match c
    case Exec(argv) =>
      forall k | 0 <= k < |argv| ensures argv[k].eq < n {
        assert EndsAt(c, argv[k].eq);
      }
    case Redir(d, file, _) =>
      assert EndsAt(c, file.eq);
      assert forall i :: EndsAt(d, i) ==> EndsAt(c, i);
      WithinIs(d, n);
    case PipeTo(l, r) =>
      assert forall i :: EndsAt(l, i) ==> EndsAt(c, i);
      assert forall i :: EndsAt(r, i) ==> EndsAt(c, i);
      WithinIs(l, n);
      WithinIs(r, n);
    case List(l, r) =>
      assert forall i :: EndsAt(l, i) ==> EndsAt(c, i);
      assert forall i :: EndsAt(r, i) ==> EndsAt(c, i);
      WithinIs(l, n);
      WithinIs(r, n);
    case Back(d) =>
      assert forall i :: EndsAt(d, i) ==> EndsAt(c, i);
      WithinIs(d, n);
  }

  /** The end of a word of an accepted line is in no word. */
  lemma EndsOutside(line: string, l: Line, i: nat)
    requires Accepts(Lex(line, 0), l) && EndsAt(BuildLine(l), i)
    ensures i <= |line| && (i < |line| ==> !Plain(line[i]))
  {
    var w := EndIsWord(BuildLine(l), i);
    WordsOnce(line, l, w);
  }

  /** The string that a pointer to q points to. */
  function CString(b: seq<char>, q: nat): seq<char>
    decreases |b| - q
  {
    if q >= |b| || b[q] == '\0' then [] else [b[q]] + CString(b, q + 1)
  }

  lemma {:induction false} CStringIs(b: seq<char>, line: string, q: nat, eq: nat)
    requires q <= eq <= |line| && eq < |b| && b[eq] == '\0'
    requires forall i :: q <= i < eq ==> b[i] == line[i] && line[i] != '\0'
    ensures CString(b, q) == line[q..eq]
    decreases eq - q
  {
    if q < eq {
      CStringIs(b, line, q + 1, eq);
      assert line[q..eq] == [line[q]] + line[q + 1..eq];
    }
  }

  /** What nulterminate leaves in the buffer b of a line: every word is a string of its own. */
  lemma WordIsString(line: string, l: Line, b: seq<char>, w: Span)
    requires Accepts(Lex(line, 0), l) && IsWord(line, w) && |line| < |b| && '\0' !in line
    requires forall i :: 0 <= i <= |line| ==> b[i] == if EndsAt(BuildLine(l), i) || i == |line| then '\0' else line[i]
    ensures CString(b, w.q) == line[w.q..w.eq]
  {
    WordsOnce(line, l, w);
    WordIsEnd(BuildLine(l), w);
    forall i | w.q <= i < w.eq ensures b[i] == line[i] && line[i] != '\0' {
      assert Plain(line[i]);
      if EndsAt(BuildLine(l), i) {
        EndsOutside(line, l, i);
      }
      assert line[i] in line;
    }
    CStringIs(b, line, w.q, w.eq);
  }

  /** parsecmd on a buffer with a line of n characters. In the tree of an accepted line every word occurs
      exactly once and where the line has it, and afterwards every word is a string: no NUL was written into
      another one. */
  method ParseBuffer(buf: array<char>, n: nat) returns (r: Result<Cmd>, ghost l: Option<Line>)
    requires n < buf.Length && buf[n] == '\0' && '\0' !in buf[..n]
    modifies buf
    ensures r.Good? ==> l.Some? && Accepts(Lex(old(buf[..n]), 0), l.value) && r == Good(BuildLine(l.value))
    ensures r.Good? ==> forall w :: Occurs(r.value, w) == One(IsWord(old(buf[..n]), w))
    ensures r.Good? ==> Tells(r.value, Lex(old(buf[..n]), 0), true) && InOrder(r.value)
    ensures r.Good? ==> InBack(r.value) == Ampersands(old(buf[..n]), 0)
    ensures r.Good? ==> forall w :: IsWord(old(buf[..n]), w) ==> CString(buf[..], w.q) == old(buf[..n])[w.q..w.eq]
    ensures r.Bad? ==> buf[..] == old(buf[..]) && forall k :: LineFits(k) ==> LineTokens(k) != Lex(old(buf[..n]), 0)
  {
    var line := buf[..n];
    r, l := ParseCmd(line);
    if r.Good? {
      forall i: nat | EndsAt(r.value, i) ensures i < buf.Length {
        EndsOutside(line, l.value, i);
      }
      WithinIs(r.value, buf.Length);
      AcceptedTells(line, l.value);
      NulTerminate(r.value, buf);
      forall w ensures Occurs(r.value, w) == One(IsWord(line, w)) {
        WordsOnce(line, l.value, w);
      }
      forall w | IsWord(line, w) ensures CString(buf[..], w.q) == line[w.q..w.eq] {
        WordIsString(line, l.value, buf[..], w);
      }
    }
  }
}
