/** What the tree that user/sh.c builds says about the line it stands for; and that every tree is the tree of a
    line. */
module ShellTree {
  import opened Wrappers
  import opened ShellGrammar
  import opened ShellLexer

  // ---------- places of words and symbols ----------

  predicate At(toks: seq<Tok>, i: nat, t: Tok) {
    i < |toks| && toks[i] == t
  }

  /** The word u comes before the word v. */
  ghost predicate Before(toks: seq<Tok>, u: Span, v: Span) {
    exists i: nat, j: nat :: i < j && At(toks, i, Word(u)) && At(toks, j, Word(v))
  }

  /** The symbol t comes between them. */
  ghost predicate Between(toks: seq<Tok>, u: Span, t: Tok, v: Span) {
    exists i: nat, k: nat, j: nat :: i < k < j && At(toks, i, Word(u)) && At(toks, k, t) && At(toks, j, Word(v))
  }

  /** The word stands behind the symbol of the redirection op. */
  ghost predicate IsFile(toks: seq<Tok>, op: Op, file: Span) {
    exists k: nat :: At(toks, k, TokOf(op)) && At(toks, k + 1, Word(file))
  }

  /** The tokens hold the words of c, each as often as c does. */
  ghost predicate Spelled(toks: seq<Tok>, c: Cmd) {
    forall w :: InTokens(toks, w) == Occurs(c, w)
  }

  /** A line may begin at i: behind a parenthesis, behind a semicolon, or in front if the tokens begin a line. */
  predicate Begins(toks: seq<Tok>, i: nat, first: bool)
    requires i <= |toks|
  {
    if i == 0 then first else toks[i - 1] == Sym('(') || toks[i - 1] == Sym(';')
  }

  /** c is what an ampersand sends to the background: the whole pipeline in front of it. */
  ghost predicate SentBack(toks: seq<Tok>, c: Cmd, first: bool) {
    exists i: nat, k: nat, p: Pipeline, n: nat ::
      && i <= k && At(toks, k, Sym('&')) && Begins(toks, i, first)
      && toks[i..k] == PipeTokens(p) + AmpTokens(n) && Spelled(toks[i..k], c)
  }

  ghost predicate Parted(toks: seq<Tok>, l: Cmd, t: Tok, r: Cmd) {
    forall u, v :: Occurs(l, u) > 0 && Occurs(r, v) > 0 ==> Between(toks, u, t, v)
  }

  /** The tree c tells how the tokens are to be read: argument vectors are in the order of the line, the symbol of a
      redirection stands in front of its file, outer redirections come behind inner ones, the left side of a pipe
      comes before a bar and the right side behind it, so it is with lists and semicolons, and what runs in the
      background is the pipeline in front of an ampersand. */
  ghost predicate Tells(c: Cmd, toks: seq<Tok>, first: bool) {
    match c
    case Exec(argv) => forall i, j :: 0 <= i < j < |argv| ==> Before(toks, argv[i], argv[j])
    case Redir(d, file, op) =>
      Tells(d, toks, first) && IsFile(toks, op, file) && (d.Redir? ==> Before(toks, d.file, file))
    case PipeTo(l, r) => Tells(l, toks, first) && Tells(r, toks, first) && Parted(toks, l, Sym('|'), r)
    case List(l, r) => Tells(l, toks, first) && Tells(r, toks, first) && Parted(toks, l, Sym(';'), r)
    case Back(d) => Tells(d, toks, first) && SentBack(toks, d, first)
  }

  // ---------- what holds of a part of the tokens ----------

  lemma AtShift(a: seq<Tok>, toks: seq<Tok>, b: seq<Tok>, i: nat, t: Tok)
    requires At(toks, i, t)
    ensures At(a + toks + b, |a| + i, t)
  {
  }

  lemma BeforeShift(a: seq<Tok>, toks: seq<Tok>, b: seq<Tok>, u: Span, v: Span)
    requires Before(toks, u, v)
    ensures Before(a + toks + b, u, v)
  {
    var i: nat, j: nat :| i < j && At(toks, i, Word(u)) && At(toks, j, Word(v));
    AtShift(a, toks, b, i, Word(u));
    AtShift(a, toks, b, j, Word(v));
  }

  lemma BetweenShift(a: seq<Tok>, toks: seq<Tok>, b: seq<Tok>, u: Span, t: Tok, v: Span)
    requires Between(toks, u, t, v)
    ensures Between(a + toks + b, u, t, v)
  {
    var i: nat, k: nat, j: nat :| i < k < j && At(toks, i, Word(u)) && At(toks, k, t) && At(toks, j, Word(v));
    AtShift(a, toks, b, i, Word(u));
    AtShift(a, toks, b, k, t);
    AtShift(a, toks, b, j, Word(v));
  }

  lemma FileShift(a: seq<Tok>, toks: seq<Tok>, b: seq<Tok>, op: Op, file: Span)
    requires IsFile(toks, op, file)
    ensures IsFile(a + toks + b, op, file)
  {
    var k: nat :| At(toks, k, TokOf(op)) && At(toks, k + 1, Word(file));
    AtShift(a, toks, b, k, TokOf(op));
    AtShift(a, toks, b, k + 1, Word(file));
    assert |a| + (k + 1) == |a| + k + 1;
  }

  lemma PartedShift(a: seq<Tok>, toks: seq<Tok>, b: seq<Tok>, l: Cmd, t: Tok, r: Cmd)
    requires Parted(toks, l, t, r)
    ensures Parted(a + toks + b, l, t, r)
  {
    forall u, v | Occurs(l, u) > 0 && Occurs(r, v) > 0 ensures Between(a + toks + b, u, t, v) {
      BetweenShift(a, toks, b, u, t, v);
    }
  }

  /** Behind a a line may begin, if one may begin behind a part of it. */
  predicate Allows(a: seq<Tok>, inner: bool, outer: bool) {
    inner ==> Begins(a, |a|, outer)
  }

  lemma SentShift(a: seq<Tok>, toks: seq<Tok>, b: seq<Tok>, c: Cmd, inner: bool, outer: bool)
    requires SentBack(toks, c, inner) && Allows(a, inner, outer)
    ensures SentBack(a + toks + b, c, outer)
  {
    var i: nat, k: nat, p: Pipeline, n: nat :|
      && i <= k && At(toks, k, Sym('&')) && Begins(toks, i, inner)
      && toks[i..k] == PipeTokens(p) + AmpTokens(n) && Spelled(toks[i..k], c);
    var all := a + toks + b;
    AtShift(a, toks, b, k, Sym('&'));
    assert all[|a| + i..|a| + k] == toks[i..k];
    assert Begins(all, |a| + i, outer) by {
      if i == 0 {
        assert |a| > 0 ==> all[|a| - 1] == a[|a| - 1];
      } else {
        assert all[|a| + i - 1] == toks[i - 1];
      }
    }
  }

  /** What a tree tells of a part it tells of the whole. */
  lemma {:induction false} TellsMore(c: Cmd, a: seq<Tok>, toks: seq<Tok>, b: seq<Tok>, inner: bool, outer: bool)
    requires Tells(c, toks, inner) && Allows(a, inner, outer)
    ensures Tells(c, a + toks + b, outer)
    decreases c
  {
    match c
    case Exec(argv) =>
      forall i, j | 0 <= i < j < |argv| ensures Before(a + toks + b, argv[i], argv[j]) {
        BeforeShift(a, toks, b, argv[i], argv[j]);
      }
    case Redir(d, file, op) =>
      TellsMore(d, a, toks, b, inner, outer);
      FileShift(a, toks, b, op, file);
      if d.Redir? {
        BeforeShift(a, toks, b, d.file, file);
      }
    case PipeTo(l, r) =>
      TellsMore(l, a, toks, b, inner, outer);
      TellsMore(r, a, toks, b, inner, outer);
      PartedShift(a, toks, b, l, Sym('|'), r);
    case List(l, r) =>
      TellsMore(l, a, toks, b, inner, outer);
      TellsMore(r, a, toks, b, inner, outer);
      PartedShift(a, toks, b, l, Sym(';'), r);
    case Back(d) =>
      TellsMore(d, a, toks, b, inner, outer);
      SentShift(a, toks, b, d, inner, outer);
  }

  lemma TellsFirst(c: Cmd, toks: seq<Tok>, b: seq<Tok>, first: bool)
    requires Tells(c, toks, first)
    ensures Tells(c, toks + b, first)
  {
    TellsMore(c, [], toks, b, first, first);
    assert [] + toks + b == toks + b;
  }

  lemma TellsLast(c: Cmd, a: seq<Tok>, toks: seq<Tok>, inner: bool, outer: bool)
    requires Tells(c, toks, inner) && Allows(a, inner, outer)
    ensures Tells(c, a + toks, outer)
  {
    TellsMore(c, a, toks, [], inner, outer);
    assert a + toks + [] == a + toks;
  }

  lemma {:induction false} WordPlace(toks: seq<Tok>, w: Span) returns (i: nat)
    requires InTokens(toks, w) > 0
    ensures At(toks, i, Word(w))
  {
    if toks[0] == Word(w) {
      i := 0;
    } else {
      i := WordPlace(toks[1..], w);
      i := i + 1;
    }
  }

  /** A symbol between the tokens of two trees parts them. */
  lemma Joined(l: Cmd, a: seq<Tok>, t: Tok, r: Cmd, b: seq<Tok>)
    requires Spelled(a, l) && Spelled(b, r)
    ensures Parted(a + ([t] + b), l, t, r)
  {
    var toks := a + ([t] + b);
    forall u, v | Occurs(l, u) > 0 && Occurs(r, v) > 0 ensures Between(toks, u, t, v) {
      var i := WordPlace(a, u);
      var j := WordPlace(b, v);
      assert At(toks, i, Word(u)) && At(toks, |a|, t) && At(toks, |a| + 1 + j, Word(v));
    }
  }

  // ---------- redirections ----------

  /** The redirections are among the tokens, in this order. */
  ghost predicate Follow(rs: seq<Redirection>, toks: seq<Tok>) {
    && (forall k :: 0 <= k < |rs| ==> IsFile(toks, rs[k].op, rs[k].file))
    && (forall k :: 0 < k < |rs| ==> Before(toks, rs[k - 1].file, rs[k].file))
  }

  lemma FollowMore(rs: seq<Redirection>, a: seq<Tok>, toks: seq<Tok>, b: seq<Tok>)
    requires Follow(rs, toks)
    ensures Follow(rs, a + toks + b)
  {
    forall k | 0 <= k < |rs| ensures IsFile(a + toks + b, rs[k].op, rs[k].file) {
      FileShift(a, toks, b, rs[k].op, rs[k].file);
    }
    forall k | 0 < k < |rs| ensures Before(a + toks + b, rs[k - 1].file, rs[k].file) {
      BeforeShift(a, toks, b, rs[k - 1].file, rs[k].file);
    }
  }

  /** One more redirection behind the tokens. */
  lemma FollowNext(rs: seq<Redirection>, toks: seq<Tok>, r: Redirection)
    requires Follow(rs, toks)
    ensures Follow(rs + [r], toks + [TokOf(r.op), Word(r.file)])
  {
    var two := [TokOf(r.op), Word(r.file)];
    var n := |toks|;
    FollowMore(rs, [], toks, two);
    assert [] + toks + two == toks + two;
    assert At(toks + two, n, TokOf(r.op)) && At(toks + two, n + 1, Word(r.file));
    if rs != [] {
      var last := rs[|rs| - 1];
      var k: nat :| At(toks, k, TokOf(last.op)) && At(toks, k + 1, Word(last.file));
      assert At(toks + two, k + 1, Word(last.file));
    }
  }

  lemma {:induction false} RedirsFollow(rs: seq<Redirection>)
    ensures Follow(rs, RedirTokens(rs))
  {
    if rs != [] {
      var init := rs[..|rs| - 1];
      RedirsFollow(init);
      FollowNext(init, RedirTokens(init), rs[|rs| - 1]);
      assert init + [rs[|rs| - 1]] == rs;
    }
  }

  lemma {:induction false} WrapTells(c: Cmd, rs: seq<Redirection>, toks: seq<Tok>, first: bool)
    requires Tells(c, toks, first) && Follow(rs, toks)
    requires c.Redir? && rs != [] ==> Before(toks, c.file, rs[0].file)
    ensures Tells(Wrap(c, rs), toks, first)
  {
    if rs != [] {
      WrapTells(c, rs[..|rs| - 1], toks, first);
    }
  }

  // ---------- commands ----------

  lemma ArgPlace(items: seq<Item>, k: nat) returns (i: nat)
    requires k < |Args(items)|
    ensures At(ItemTokens(items), i, Word(Args(items)[k]))
  {
    ArgOccurs(Args(items), k);
    ItemOccurs(items, Args(items)[k]);
    i := WordPlace(ItemTokens(items), Args(items)[k]);
  }

  lemma ArgTells(items: seq<Item>, w: Span, first: bool)
    requires Tells(Exec(Args(items)), ItemTokens(items), first)
    ensures Tells(Exec(Args(items) + [w]), ItemTokens(items) + [Word(w)], first)
  {
    var toks := ItemTokens(items) + [Word(w)];
    var argv := Args(items) + [w];
    TellsFirst(Exec(Args(items)), ItemTokens(items), [Word(w)], first);
    forall i, j | 0 <= i < j < |argv| ensures Before(toks, argv[i], argv[j]) {
      if j < |argv| - 1 {
        assert Before(toks, Args(items)[i], Args(items)[j]);
      } else {
        var k := ArgPlace(items, i);
        assert At(toks, k, Word(argv[i])) && At(toks, |toks| - 1, Word(w));
      }
    }
  }

  lemma {:induction false} ItemsTell(items: seq<Item>, first: bool)
    ensures Tells(Exec(Args(items)), ItemTokens(items), first) && Follow(Redirs(items), ItemTokens(items))
  {
    if items != [] {
      var init := items[..|items| - 1];
      ItemsTell(init, first);
      match items[|items| - 1] {
        case Arg(w) =>
          ArgTells(init, w, first);
          FollowMore(Redirs(init), [], ItemTokens(init), [Word(w)]);
          assert [] + ItemTokens(init) + [Word(w)] == ItemTokens(items);
        case To(r) =>
          TellsFirst(Exec(Args(init)), ItemTokens(init), [TokOf(r.op), Word(r.file)], first);
          FollowNext(Redirs(init), ItemTokens(init), r);
      }
    }
  }

  /** A word in parentheses comes before the files behind them. */
  lemma FileBehind(a: seq<Tok>, b: seq<Tok>, w: Span, r: Redirection)
    requires InTokens(a, w) > 0 && IsFile(b, r.op, r.file)
    ensures Before(a + b, w, r.file)
  {
    var i := WordPlace(a, w);
    var k: nat :| At(b, k, TokOf(r.op)) && At(b, k + 1, Word(r.file));
    assert At(a + b, i, Word(w)) && At(a + b, |a| + k + 1, Word(r.file));
  }

  lemma WordInside(body: Line, w: Span)
    ensures InTokens([Sym('(')] + LineTokens(body) + [Sym(')')], w) == Occurs(BuildLine(body), w)
  {
    LineOccurs(body, w);
    TokensJoin([Sym('(')] + LineTokens(body), [Sym(')')], w);
    TokensJoin([Sym('(')], LineTokens(body), w);
    OneToken(Sym('('), w);
    OneToken(Sym(')'), w);
  }

  lemma BlockTells(body: Line, redirs: seq<Redirection>)
    requires Tells(BuildLine(body), LineTokens(body), true)
    ensures Tells(BuildCommand(Block(body, redirs)), CommandTokens(Block(body, redirs)), false)
  {
    var c, inner, outer := BuildLine(body), LineTokens(body), RedirTokens(redirs);
    var toks := CommandTokens(Block(body, redirs));
    TellsMore(c, [Sym('(')], inner, [Sym(')')] + outer, true, false);
    assert [Sym('(')] + inner + ([Sym(')')] + outer) == toks;
    var front := [Sym('(')] + inner + [Sym(')')];
    RedirsFollow(redirs);
    FollowMore(redirs, front, outer, []);
    assert front + outer + [] == toks;
    if c.Redir? && redirs != [] {
      WordInside(body, c.file);
      FileBehind(front, outer, c.file, redirs[0]);
      assert front + outer == toks;
    }
    WrapTells(c, redirs, toks, false);
  }

  lemma {:induction false} CommandTells(c: Command)
    ensures Tells(BuildCommand(c), CommandTokens(c), false)
    decreases c
  {
    match c
    case Simple(items) =>
      ItemsTell(items, false);
      WrapTells(Exec(Args(items)), Redirs(items), ItemTokens(items), false);
    case Block(body, redirs) =>
      LineTells(body);
      BlockTells(body, redirs);
  }

  lemma {:induction false} PipeTells(p: Pipeline)
    ensures Tells(BuildPipe(p), PipeTokens(p), false)
    decreases p
  {
    CommandTells(p.first);
    if p.rest.Some? {
      var l, r := BuildCommand(p.first), BuildPipe(p.rest.value);
      var a, b := CommandTokens(p.first), PipeTokens(p.rest.value);
      PipeTells(p.rest.value);
      TellsFirst(l, a, [Sym('|')] + b, false);
      TellsLast(r, a + [Sym('|')], b, false, false);
      Assoc(a, [Sym('|')], b);
      forall w ensures InTokens(a, w) == Occurs(l, w) && InTokens(b, w) == Occurs(r, w) {
        CommandOccurs(p.first, w);
        PipeOccurs(p.rest.value, w);
      }
      Joined(l, a, Sym('|'), r, b);
    }
  }

  lemma {:induction false} AmpsLast(n: nat)
    requires n > 0
    ensures AmpTokens(n) == AmpTokens(n - 1) + [Sym('&')]
  {
    if n > 1 {
      AmpsLast(n - 1);
    }
  }

  lemma BacksSpelled(p: Pipeline, n: nat)
    ensures Spelled(PipeTokens(p) + AmpTokens(n), Backs(BuildPipe(p), n))
  {
    forall w ensures InTokens(PipeTokens(p) + AmpTokens(n), w) == Occurs(Backs(BuildPipe(p), n), w) {
      PipeOccurs(p, w);
      BacksOccurs(BuildPipe(p), n, w);
      TokensJoin(PipeTokens(p), AmpTokens(n), w);
    }
  }

  lemma {:induction false} BacksTell(p: Pipeline, n: nat)
    requires Tells(BuildPipe(p), PipeTokens(p), false)
    ensures Tells(Backs(BuildPipe(p), n), PipeTokens(p) + AmpTokens(n), true)
  {
    var a := PipeTokens(p);
    if n == 0 {
      TellsMore(BuildPipe(p), [], a, [], false, true);
      assert [] + a + [] == a + AmpTokens(0);
    } else {
      var d, part := Backs(BuildPipe(p), n - 1), a + AmpTokens(n - 1);
      BacksTell(p, n - 1);
      TellsFirst(d, part, [Sym('&')], true);
      AmpsLast(n);
      Assoc(a, AmpTokens(n - 1), [Sym('&')]);
      var toks := a + AmpTokens(n);
      BacksSpelled(p, n - 1);
      assert At(toks, |part|, Sym('&')) && Begins(toks, 0, true) && toks[0..|part|] == part;
    }
  }

  /** The tree of a line tells how it is to be read. */
  lemma {:induction false} LineTells(l: Line)
    ensures Tells(BuildLine(l), LineTokens(l), true)
    decreases l
  {
    var c, a := Backs(BuildPipe(l.first), l.amps), PipeTokens(l.first) + AmpTokens(l.amps);
    PipeTells(l.first);
    BacksTell(l.first, l.amps);
    if l.rest.None? {
      assert a == LineTokens(l);
    } else {
      var r, b := BuildLine(l.rest.value), LineTokens(l.rest.value);
      LineTells(l.rest.value);
      Assoc(PipeTokens(l.first), AmpTokens(l.amps), [Sym(';')] + b);
      TellsFirst(c, a, [Sym(';')] + b, true);
      TellsLast(r, a + [Sym(';')], b, true, true);
      Assoc(a, [Sym(';')], b);
      BacksSpelled(l.first, l.amps);
      forall w ensures InTokens(b, w) == Occurs(r, w) {
        LineOccurs(l.rest.value, w);
      }
      Joined(c, a, Sym(';'), r, b);
    }
  }

  // ---------- ampersands ----------

  /** How many commands of the tree run in the background. */
  function InBack(c: Cmd): nat {
    match c
    case Exec(_) => 0
    case Redir(d, _, _) => InBack(d)
    case PipeTo(l, r) => InBack(l) + InBack(r)
    case List(l, r) => InBack(l) + InBack(r)
    case Back(d) => InBack(d) + 1
  }

  lemma {:induction false} CountJoin(a: seq<Tok>, b: seq<Tok>, t: Tok)
    ensures Count(a + b, t) == Count(a, t) + Count(b, t)
  {
    if a == [] {
      assert a + b == b;
    } else {
      CountJoin(a[1..], b, t);
      assert (a + b)[1..] == a[1..] + b;
    }
  }

  lemma CountOne(x: Tok, t: Tok)
    ensures Count([x], t) == One(x == t)
  {
    assert [x][1..] == [];
  }

  lemma {:induction false} RedirsCount(rs: seq<Redirection>, c: Cmd)
    ensures Count(RedirTokens(rs), Sym('&')) == 0 && InBack(Wrap(c, rs)) == InBack(c)
  {
    if rs != [] {
      var r := rs[|rs| - 1];
      RedirsCount(rs[..|rs| - 1], c);
      CountJoin(RedirTokens(rs[..|rs| - 1]), [TokOf(r.op), Word(r.file)], Sym('&'));
      RedirCount(r);
    }
  }

  lemma RedirCount(r: Redirection)
    ensures Count([TokOf(r.op), Word(r.file)], Sym('&')) == 0
  {
    assert [TokOf(r.op), Word(r.file)] == [TokOf(r.op)] + [Word(r.file)];
    CountJoin([TokOf(r.op)], [Word(r.file)], Sym('&'));
    CountOne(TokOf(r.op), Sym('&'));
    CountOne(Word(r.file), Sym('&'));
  }

  lemma {:induction false} ItemsCount(items: seq<Item>)
    ensures Count(ItemTokens(items), Sym('&')) == 0
  {
    if items != [] {
      var init := items[..|items| - 1];
      ItemsCount(init);
      match items[|items| - 1] {
        case Arg(w) =>
          CountJoin(ItemTokens(init), [Word(w)], Sym('&'));
          CountOne(Word(w), Sym('&'));
        case To(r) =>
          CountJoin(ItemTokens(init), [TokOf(r.op), Word(r.file)], Sym('&'));
          RedirCount(r);
      }
    }
  }

  lemma {:induction false} CommandCount(c: Command)
    ensures InBack(BuildCommand(c)) == Count(CommandTokens(c), Sym('&'))
    decreases c
  {
    match c
    case Simple(items) =>
      RedirsCount(Redirs(items), Exec(Args(items)));
      ItemsCount(items);
    case Block(body, redirs) =>
      LineCount(body);
      RedirsCount(redirs, BuildLine(body));
      var close := [Sym(')')] + RedirTokens(redirs);
      CountJoin([Sym('(')], LineTokens(body) + close, Sym('&'));
      CountJoin(LineTokens(body), close, Sym('&'));
      CountJoin([Sym(')')], RedirTokens(redirs), Sym('&'));
      CountOne(Sym('('), Sym('&'));
      CountOne(Sym(')'), Sym('&'));
  }

  lemma {:induction false} PipeCount(p: Pipeline)
    ensures InBack(BuildPipe(p)) == Count(PipeTokens(p), Sym('&'))
    decreases p
  {
    CommandCount(p.first);
    if p.rest.Some? {
      PipeCount(p.rest.value);
      CountJoin(CommandTokens(p.first), [Sym('|')] + PipeTokens(p.rest.value), Sym('&'));
      CountJoin([Sym('|')], PipeTokens(p.rest.value), Sym('&'));
      CountOne(Sym('|'), Sym('&'));
    }
  }

  lemma {:induction false} BacksCount(c: Cmd, n: nat)
    ensures InBack(Backs(c, n)) == InBack(c) + n && Count(AmpTokens(n), Sym('&')) == n
  {
    if n > 0 {
      BacksCount(c, n - 1);
      CountJoin([Sym('&')], AmpTokens(n - 1), Sym('&'));
      CountOne(Sym('&'), Sym('&'));
    }
  }

  /** There is a command in the background for each ampersand of the line. */
  lemma {:induction false} LineCount(l: Line)
    ensures InBack(BuildLine(l)) == Count(LineTokens(l), Sym('&'))
    decreases l
  {
    var more := if l.rest.None? then [] else [Sym(';')] + LineTokens(l.rest.value);
    PipeCount(l.first);
    BacksCount(BuildPipe(l.first), l.amps);
    CountJoin(PipeTokens(l.first), AmpTokens(l.amps) + more, Sym('&'));
    CountJoin(AmpTokens(l.amps), more, Sym('&'));
    if l.rest.Some? {
      LineCount(l.rest.value);
      CountJoin([Sym(';')], LineTokens(l.rest.value), Sym('&'));
      CountOne(Sym(';'), Sym('&'));
    }
  }

  // ---------- every tree is the tree of a line ----------

  /** The tree inside the commands that run in the background, and how many there are. */
  function Inner(c: Cmd): (r: (Cmd, nat))
    ensures Backs(r.0, r.1) == c && !r.0.Back? && (r.0 == c || r.0 < c)
  {
    match c
    case Back(d) => var (e, n) := Inner(d); (e, n + 1)
    case _ => (c, 0)
  }

  function Words(argv: seq<Span>): (items: seq<Item>)
    ensures Args(items) == argv && Redirs(items) == []
  {
    if argv == [] then []
    else
      var init := Words(argv[..|argv| - 1]);
      ArgTokens(init, argv[|argv| - 1]);
      init + [Arg(argv[|argv| - 1])]
  }

  function Behind(c: Command, r: Redirection): Command {
    match c
    case Simple(items) => Simple(items + [To(r)])
    case Block(body, redirs) => Block(body, redirs + [r])
  }

  /** A command that stands for c: in parentheses, unless it is simple. */
  function AsCommand(c: Cmd): Command
    decreases c, if c.Exec? || c.Redir? then 0 else 2
  {
    match c
    case Exec(argv) => Simple(Words(argv))
    case Redir(d, file, op) => Behind(AsCommand(d), Redirection(op, file))
    case _ => Block(AsLine(c), [])
  }

  function AsPipe(c: Cmd): Pipeline
    decreases c, if c.PipeTo? then 0 else if c.Exec? || c.Redir? then 1 else 3
  {
    match c
    case PipeTo(l, r) => Pipeline(AsCommand(l), Some(AsPipe(r)))
    case _ => Pipeline(AsCommand(c), None)
  }

  function AsLine(c: Cmd): Line
    decreases c, if c.Exec? || c.Redir? then 2 else 1
  {
    match c
    case List(l, r) => var (d, n) := Inner(l); Line(AsPipe(d), n, Some(AsLine(r)))
    case _ => var (d, n) := Inner(c); Line(AsPipe(d), n, None)
  }

  lemma BehindBuilds(c: Command, r: Redirection)
    ensures BuildCommand(Behind(c, r)) == Redir(BuildCommand(c), r.file, r.op)
    ensures CommandFits(c) ==> CommandFits(Behind(c, r))
  {
    match c
    case Simple(items) =>
      assert (items + [To(r)])[..|items|] == items;
      assert Args(items + [To(r)]) == Args(items);
      assert (Redirs(items) + [r])[..|Redirs(items)|] == Redirs(items);
    case Block(body, redirs) =>
      assert (redirs + [r])[..|redirs|] == redirs;
  }

  /** The argument vectors of the tree are no longer than the shell allows. */
  predicate TreeFits(c: Cmd) {
    match c
    case Exec(argv) => |argv| < MAXARGS
    case Redir(d, _, _) => TreeFits(d)
    case PipeTo(l, r) => TreeFits(l) && TreeFits(r)
    case List(l, r) => TreeFits(l) && TreeFits(r)
    case Back(d) => TreeFits(d)
  }

  lemma {:induction false} InnerFits(c: Cmd)
    ensures TreeFits(Inner(c).0) == TreeFits(c)
  {
    if c.Back? {
      InnerFits(c.cmd);
    }
  }

  lemma {:induction false} CommandBuilds(c: Cmd)
    ensures BuildCommand(AsCommand(c)) == c && (TreeFits(c) ==> CommandFits(AsCommand(c)))
    decreases c, if c.Exec? || c.Redir? then 0 else 2
  {
    match c
    case Exec(argv) =>
    case Redir(d, file, op) =>
      CommandBuilds(d);
      BehindBuilds(AsCommand(d), Redirection(op, file));
    case _ =>
      LineBuilds(c);
  }

  lemma {:induction false} PipeBuilds(c: Cmd)
    ensures BuildPipe(AsPipe(c)) == c && (TreeFits(c) ==> PipeFits(AsPipe(c)))
    decreases c, if c.PipeTo? then 0 else if c.Exec? || c.Redir? then 1 else 3
  {
    match c
    case PipeTo(l, r) =>
      CommandBuilds(l);
      PipeBuilds(r);
    case _ =>
      CommandBuilds(c);
  }

  lemma {:induction false} LineBuilds(c: Cmd)
    ensures BuildLine(AsLine(c)) == c && (TreeFits(c) ==> LineFits(AsLine(c)))
    decreases c, if c.Exec? || c.Redir? then 2 else 1
  {
    match c
    case List(l, r) =>
      InnerFits(l);
      PipeBuilds(Inner(l).0);
      LineBuilds(r);
    case _ =>
      InnerFits(c);
      PipeBuilds(Inner(c).0);
  }

  /** Every tree whose argument vectors fit is what the parser makes of the line written for it. */
  lemma TreeRoundTrip(c: Cmd)
    requires TreeFits(c)
    ensures Accepts(LineTokens(AsLine(c)), AsLine(c)) && BuildLine(AsLine(c)) == c
  {
    LineBuilds(c);
    AcceptsIff(LineTokens(AsLine(c)), AsLine(c));
  }

  // ---------- accepted lines ----------

  /** Every word of l ends before any word of r begins. */
  ghost predicate LeftOf(l: Cmd, r: Cmd) {
    forall u, v :: Occurs(l, u) > 0 && Occurs(r, v) > 0 ==> u.eq < v.q
  }

  /** The words of the tree are in the order of the line. */
  ghost predicate InOrder(c: Cmd) {
    match c
    case Exec(argv) => forall i, j :: 0 <= i < j < |argv| ==> argv[i].eq < argv[j].q
    case Redir(d, file, _) => InOrder(d) && (d.Redir? ==> d.file.eq < file.q)
    case PipeTo(l, r) => InOrder(l) && InOrder(r) && LeftOf(l, r)
    case List(l, r) => InOrder(l) && InOrder(r) && LeftOf(l, r)
    case Back(d) => InOrder(d)
  }

  lemma BeforeIs(line: string, u: Span, v: Span)
    requires Before(Lex(line, 0), u, v)
    ensures u.eq < v.q
  {
    var i: nat, j: nat :| i < j && At(Lex(line, 0), i, Word(u)) && At(Lex(line, 0), j, Word(v));
    WordsAscend(line, i, j);
  }

  lemma PartedIs(line: string, l: Cmd, t: Tok, r: Cmd)
    requires Parted(Lex(line, 0), l, t, r)
    ensures LeftOf(l, r)
  {
    forall u, v | Occurs(l, u) > 0 && Occurs(r, v) > 0 ensures u.eq < v.q {
      assert Between(Lex(line, 0), u, t, v);
      BeforeIs(line, u, v);
    }
  }

  lemma {:induction false} TellsOrder(line: string, c: Cmd)
    requires Tells(c, Lex(line, 0), true)
    ensures InOrder(c)
    decreases c
  {
    match c
    case Exec(argv) =>
      forall i, j | 0 <= i < j < |argv| ensures argv[i].eq < argv[j].q {
        BeforeIs(line, argv[i], argv[j]);
      }
    case Redir(d, file, _) =>
      TellsOrder(line, d);
      if d.Redir? {
        BeforeIs(line, d.file, file);
      }
    case PipeTo(l, r) =>
      TellsOrder(line, l);
      TellsOrder(line, r);
      PartedIs(line, l, Sym('|'), r);
    case List(l, r) =>
      TellsOrder(line, l);
      TellsOrder(line, r);
      PartedIs(line, l, Sym(';'), r);
    case Back(d) =>
      TellsOrder(line, d);
  }

  /** The tree of an accepted line tells how its tokens are to be read, has its words in the order of the line, and
      has a command in the background for each ampersand. */
  lemma AcceptedTells(line: string, l: Line)
    requires Accepts(Lex(line, 0), l)
    ensures Tells(BuildLine(l), Lex(line, 0), true) && InOrder(BuildLine(l))
    ensures InBack(BuildLine(l)) == Ampersands(line, 0)
  {
    AcceptsIff(Lex(line, 0), l);
    LineTells(l);
    TellsOrder(line, BuildLine(l));
    LineCount(l);
    AmpersandsLexed(line, 0);
  }
}
