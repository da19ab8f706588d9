/** The language of user/sh.c: the recursive-descent parser as a function on tokens, the grammar it reads,
    and the proof that the two agree. */
module ShellGrammar {
  import opened Wrappers

  const MAXARGS := 10

  /** A word of the line: where it begins, and where it ends. */
  datatype Span = Span(q: nat, eq: nat)

  /** What gettoken returns, other than the end of the line. */
  datatype Tok = Sym(c: char) | Append | Word(w: Span)

  // ---------- the tree that the shell runs ----------

  datatype Op = In | Out | App

  datatype Cmd =
    | Exec(argv: seq<Span>)
    | Redir(cmd: Cmd, file: Span, op: Op)
    | PipeTo(left: Cmd, right: Cmd)
    | List(left: Cmd, right: Cmd)
    | Back(cmd: Cmd)

  // ---------- the grammar ----------

  datatype Redirection = Redirection(op: Op, file: Span)

  datatype Item = Arg(w: Span) | To(r: Redirection)

  /** A command: words and redirections in any order, or a line in parentheses with redirections. */
  datatype Command = Simple(items: seq<Item>) | Block(body: Line, redirs: seq<Redirection>)

  /** Commands separated by bars. */
  datatype Pipeline = Pipeline(first: Command, rest: Option<Pipeline>)

  /** A pipeline, ampersands, and a semicolon with another line. */
  datatype Line = Line(first: Pipeline, amps: nat, rest: Option<Line>)

  function TokOf(op: Op): Tok {
    match op
    case In => Sym('<')
    case Out => Sym('>')
    case App => Append
  }

  function OpOf(t: Tok): Option<Op> {
    match t
    case Sym(c) => if c == '<' then Some(In) else if c == '>' then Some(Out) else None
    case Append => Some(App)
    case Word(_) => None
  }

  function RedirTokens(rs: seq<Redirection>): seq<Tok> {
    if rs == [] then [] else RedirTokens(rs[..|rs| - 1]) + [TokOf(rs[|rs| - 1].op), Word(rs[|rs| - 1].file)]
  }

  function ItemTokens(items: seq<Item>): seq<Tok> {
    if items == [] then []
    else
      ItemTokens(items[..|items| - 1]) +
      match items[|items| - 1]
      case Arg(w) => [Word(w)]
      case To(r) => [TokOf(r.op), Word(r.file)]
  }

  function AmpTokens(n: nat): seq<Tok> {
    if n == 0 then [] else [Sym('&')] + AmpTokens(n - 1)
  }

  function CommandTokens(c: Command): seq<Tok> {
    match c
    case Simple(items) => ItemTokens(items)
    case Block(body, redirs) => [Sym('(')] + (LineTokens(body) + ([Sym(')')] + RedirTokens(redirs)))
  }

  function PipeTokens(p: Pipeline): seq<Tok> {
    match p.rest
    case None => CommandTokens(p.first)
    case Some(r) => CommandTokens(p.first) + ([Sym('|')] + PipeTokens(r))
  }

  function LineTokens(l: Line): seq<Tok> {
    PipeTokens(l.first) + (AmpTokens(l.amps) + if l.rest.None? then [] else [Sym(';')] + LineTokens(l.rest.value))
  }

  function Args(items: seq<Item>): seq<Span> {
    if items == [] then []
    else Args(items[..|items| - 1]) + match items[|items| - 1] case Arg(w) => [w] case To(_) => []
  }

  function Redirs(items: seq<Item>): seq<Redirection> {
    if items == [] then []
    else Redirs(items[..|items| - 1]) + match items[|items| - 1] case Arg(_) => [] case To(r) => [r]
  }

  /** The one restriction beyond the grammar: an argument vector has to fit, with its null pointer. */
  predicate CommandFits(c: Command) {
    match c
    case Simple(items) => |Args(items)| < MAXARGS
    case Block(body, _) => LineFits(body)
  }

  predicate PipeFits(p: Pipeline) {
    CommandFits(p.first) && (p.rest.Some? ==> PipeFits(p.rest.value))
  }

  predicate LineFits(l: Line) {
    PipeFits(l.first) && (l.rest.Some? ==> LineFits(l.rest.value))
  }

  // ---------- the tree that a line stands for ----------

  /** Redirections are wrapped around a command from the first to the last. */
  function Wrap(c: Cmd, rs: seq<Redirection>): Cmd {
    if rs == [] then c else Redir(Wrap(c, rs[..|rs| - 1]), rs[|rs| - 1].file, rs[|rs| - 1].op)
  }

  function Backs(c: Cmd, n: nat): Cmd {
    if n == 0 then c else Back(Backs(c, n - 1))
  }

  function BuildCommand(c: Command): Cmd {
    match c
    case Simple(items) => Wrap(Exec(Args(items)), Redirs(items))
    case Block(body, redirs) => Wrap(BuildLine(body), redirs)
  }

  function BuildPipe(p: Pipeline): Cmd {
    match p.rest
    case None => BuildCommand(p.first)
    case Some(r) => PipeTo(BuildCommand(p.first), BuildPipe(r))
  }

  function BuildLine(l: Line): Cmd {
    var c := Backs(BuildPipe(l.first), l.amps);
    if l.rest.None? then c else List(c, BuildLine(l.rest.value))
  }

  // ---------- the parser ----------

  datatype Error = MissingFile | MissingParen | Syntax | TooManyArgs | Leftovers

  datatype Parsed<T> = Ok(value: T, rest: seq<Tok>) | Err(error: Error)

  /** parseredirs, after the redirections in acc. */
  function ParseRedirs(toks: seq<Tok>, acc: seq<Redirection>): (r: Parsed<seq<Redirection>>)
    ensures r.Ok? ==> |r.rest| <= |toks|
    decreases |toks|
  {
    if toks == [] || OpOf(toks[0]).None? then Ok(acc, toks)
    else if |toks| < 2 || !toks[1].Word? then Err(MissingFile)
    else ParseRedirs(toks[2..], acc + [Redirection(OpOf(toks[0]).value, toks[1].w)])
  }

  lemma RedirStep(toks: seq<Tok>, op: Tok, more: seq<Tok>, file: Span, rest: seq<Tok>, acc: seq<Redirection>)
    requires OpOf(op).Some? && toks == [op] + more && more == [Word(file)] + rest
    ensures ParseRedirs(toks, acc) == ParseRedirs(rest, acc + [Redirection(OpOf(op).value, file)])
  {
    assert toks[1] == Word(file) && toks[2..] == rest;
  }

  lemma RedirFails(toks: seq<Tok>, op: Tok, more: seq<Tok>, acc: seq<Redirection>)
    requires OpOf(op).Some? && toks == [op] + more && (more == [] || !more[0].Word?)
    ensures ParseRedirs(toks, acc) == Err(MissingFile)
  {
    assert more != [] ==> toks[1] == more[0];
  }

  function Tos(rs: seq<Redirection>): seq<Item> {
    if rs == [] then [] else Tos(rs[..|rs| - 1]) + [To(rs[|rs| - 1])]
  }

  predicate Stops(t: Tok) {
    t == Sym('|') || t == Sym(')') || t == Sym('&') || t == Sym(';')
  }

  /** The loop of parseexec, after the words and redirections in acc. */
  function ParseItems(toks: seq<Tok>, acc: seq<Item>): (r: Parsed<seq<Item>>)
    ensures r.Ok? ==> |r.rest| <= |toks|
    decreases |toks|, 1
  {
    match ParseRedirs(toks, [])
    case Err(e) => Err(e)
    case Ok(rs, t) => ParseArg(t, acc + Tos(rs))
  }

  /** Its body, which comes after redirections. */
  function ParseArg(t: seq<Tok>, a: seq<Item>): (r: Parsed<seq<Item>>)
    ensures r.Ok? ==> |r.rest| <= |t|
    decreases |t|, 0
  {
    if t == [] || Stops(t[0]) then Ok(a, t)
    else if !t[0].Word? then Err(Syntax)
    else if |Args(a + [Arg(t[0].w)])| >= MAXARGS then Err(TooManyArgs)
    else ParseItems(t[1..], a + [Arg(t[0].w)])
  }

  /** parseexec and parseblock */
  function ParseCommand(toks: seq<Tok>): (r: Parsed<Command>)
    ensures r.Ok? ==> |r.rest| <= |toks|
    decreases |toks|, 1
  {
    if toks != [] && toks[0] == Sym('(') then
      match ParseLine(toks[1..])
      case Err(e) => Err(e)
      case Ok(l, t) =>
        if t == [] || t[0] != Sym(')') then Err(MissingParen)
        else
          match ParseRedirs(t[1..], [])
          case Err(e) => Err(e)
          case Ok(rs, u) => Ok(Block(l, rs), u)
    else
      match ParseItems(toks, [])
      case Err(e) => Err(e)
      case Ok(items, t) => Ok(Simple(items), t)
  }

  function ParsePipe(toks: seq<Tok>): (r: Parsed<Pipeline>)
    ensures r.Ok? ==> |r.rest| <= |toks|
    decreases |toks|, 2
  {
    match ParseCommand(toks)
    case Err(e) => Err(e)
    case Ok(c, t) =>
      if t == [] || t[0] != Sym('|') then Ok(Pipeline(c, None), t)
      else
        match ParsePipe(t[1..])
        case Err(e) => Err(e)
        case Ok(p, u) => Ok(Pipeline(c, Some(p)), u)
  }

  /** How many ampersands come first. */
  function Amps(toks: seq<Tok>): (n: nat)
    ensures n <= |toks|
  {
    if toks == [] || toks[0] != Sym('&') then 0 else 1 + Amps(toks[1..])
  }

  function ParseLine(toks: seq<Tok>): (r: Parsed<Line>)
    ensures r.Ok? ==> |r.rest| <= |toks|
    decreases |toks|, 3
  {
    match ParsePipe(toks)
    case Err(e) => Err(e)
    case Ok(p, t) =>
      var n := Amps(t);
      var u := t[n..];
      if u == [] || u[0] != Sym(';') then Ok(Line(p, n, None), u)
      else
        match ParseLine(u[1..])
        case Err(e) => Err(e)
        case Ok(l, v) => Ok(Line(p, n, Some(l)), v)
  }

  // ---------- what the parser accepts is in the grammar ----------

  lemma Assoc(a: seq<Tok>, b: seq<Tok>, c: seq<Tok>)
    ensures (a + b) + c == a + (b + c)
  {
  }

  lemma Rejoin(t: seq<Tok>, x: Tok)
    requires t != [] && t[0] == x
    ensures [x] + t[1..] == t
  {
  }

  lemma {:induction false} RedirsSound(toks: seq<Tok>, acc: seq<Redirection>)
    requires ParseRedirs(toks, acc).Ok?
    ensures var r := ParseRedirs(toks, acc); RedirTokens(acc) + toks == RedirTokens(r.value) + r.rest
    ensures var r := ParseRedirs(toks, acc); r.rest == [] || OpOf(r.rest[0]).None?
    decreases |toks|
  {
    if toks != [] && OpOf(toks[0]).Some? {
      var r := Redirection(OpOf(toks[0]).value, toks[1].w);
      RedirsSound(toks[2..], acc + [r]);
      assert (acc + [r])[..|acc|] == acc;
      assert [TokOf(r.op), Word(r.file)] + toks[2..] == toks;
    }
  }

  lemma RedirsOnly(toks: seq<Tok>)
    requires ParseRedirs(toks, []).Ok?
    ensures var r := ParseRedirs(toks, []); RedirTokens(r.value) + r.rest == toks
  {
    RedirsSound(toks, []);
    assert [] + toks == toks;
  }

  lemma {:induction false} TosTokens(a: seq<Item>, rs: seq<Redirection>)
    ensures ItemTokens(a + Tos(rs)) == ItemTokens(a) + RedirTokens(rs) && |Args(a + Tos(rs))| == |Args(a)|
  {
    if rs == [] {
      assert a + Tos(rs) == a;
    } else {
      var init := a + Tos(rs[..|rs| - 1]);
      TosTokens(a, rs[..|rs| - 1]);
      assert a + Tos(rs) == init + [To(rs[|rs| - 1])];
      assert (init + [To(rs[|rs| - 1])])[..|init|] == init;
    }
  }

  lemma ArgTokens(a: seq<Item>, w: Span)
    ensures ItemTokens(a + [Arg(w)]) == ItemTokens(a) + [Word(w)] && Args(a + [Arg(w)]) == Args(a) + [w]
    ensures Redirs(a + [Arg(w)]) == Redirs(a)
  {
    assert (a + [Arg(w)])[..|a|] == a;
  }

  lemma {:induction false} ItemsSound(toks: seq<Tok>, acc: seq<Item>)
    requires ParseItems(toks, acc).Ok? && |Args(acc)| < MAXARGS
    ensures var r := ParseItems(toks, acc);
            && ItemTokens(acc) + toks == ItemTokens(r.value) + r.rest && |Args(r.value)| < MAXARGS
            && (r.rest == [] || Stops(r.rest[0]))
    decreases |toks|
  {
    RedirsOnly(toks);
    var rs, t := ParseRedirs(toks, []).value, ParseRedirs(toks, []).rest;
    TosTokens(acc, rs);
    var a := acc + Tos(rs);
    Assoc(ItemTokens(acc), RedirTokens(rs), t);
    if t != [] && !Stops(t[0]) {
      ArgTokens(a, t[0].w);
      ItemsSound(t[1..], a + [Arg(t[0].w)]);
      Rejoin(t, Word(t[0].w));
      Assoc(ItemTokens(a), [Word(t[0].w)], t[1..]);
    }
  }

  lemma BlockTokens(l: Line, rs: seq<Redirection>, toks: seq<Tok>, t: seq<Tok>, u: seq<Tok>)
    requires toks != [] && toks[0] == Sym('(') && LineTokens(l) + t == toks[1..]
    requires t != [] && t[0] == Sym(')') && RedirTokens(rs) + u == t[1..]
    ensures CommandTokens(Block(l, rs)) + u == toks
  {
    var close := [Sym(')')] + RedirTokens(rs);
    Rejoin(toks, Sym('('));
    Rejoin(t, Sym(')'));
    Assoc([Sym('(')], LineTokens(l) + close, u);
    Assoc(LineTokens(l), close, u);
    Assoc([Sym(')')], RedirTokens(rs), u);
  }

  lemma {:induction false} CommandSound(toks: seq<Tok>)
    requires ParseCommand(toks).Ok?
    ensures var r := ParseCommand(toks); CommandTokens(r.value) + r.rest == toks && CommandFits(r.value)
    decreases |toks|, 1
  {
    if toks != [] && toks[0] == Sym('(') {
      LineSound(toks[1..]);
      var l, t := ParseLine(toks[1..]).value, ParseLine(toks[1..]).rest;
      RedirsOnly(t[1..]);
      BlockTokens(l, ParseRedirs(t[1..], []).value, toks, t, ParseRedirs(t[1..], []).rest);
    } else {
      ItemsSound(toks, []);
      assert [] + toks == toks;
    }
  }

  lemma {:induction false} PipeSound(toks: seq<Tok>)
    requires ParsePipe(toks).Ok?
    ensures var r := ParsePipe(toks); PipeTokens(r.value) + r.rest == toks && PipeFits(r.value)
    decreases |toks|, 2
  {
    CommandSound(toks);
    var c, t := ParseCommand(toks).value, ParseCommand(toks).rest;
    if t != [] && t[0] == Sym('|') {
      PipeSound(t[1..]);
      var p, u := ParsePipe(t[1..]).value, ParsePipe(t[1..]).rest;
      Regroup(CommandTokens(c), [Sym('|')], PipeTokens(p), u);
      Rejoin(t, Sym('|'));
    }
  }

  lemma {:induction false} AmpsSound(t: seq<Tok>)
    ensures AmpTokens(Amps(t)) + t[Amps(t)..] == t
    ensures t[Amps(t)..] == [] || t[Amps(t)..][0] != Sym('&')
  {
    if t != [] && t[0] == Sym('&') {
      AmpsSound(t[1..]);
      assert t[1..][Amps(t[1..])..] == t[Amps(t)..];
    }
  }

  /** A line that the parser accepts is, token by token, the line of the grammar that it returns. */
  lemma {:induction false} LineSound(toks: seq<Tok>)
    requires ParseLine(toks).Ok?
    ensures var r := ParseLine(toks); LineTokens(r.value) + r.rest == toks && LineFits(r.value)
    decreases |toks|, 3
  {
    PipeSound(toks);
    var p, t := ParsePipe(toks).value, ParsePipe(toks).rest;
    AmpsSound(t);
    var u := t[Amps(t)..];
    if u != [] && u[0] == Sym(';') {
      LineSound(u[1..]);
      var l, v := ParseLine(u[1..]).value, ParseLine(u[1..]).rest;
      Rejoin(u, Sym(';'));
      Assoc([Sym(';')], LineTokens(l), v);
      Regroup(PipeTokens(p), AmpTokens(Amps(t)), [Sym(';')] + LineTokens(l), v);
    } else {
      Regroup(PipeTokens(p), AmpTokens(Amps(t)), [], u);
      assert [] + u == u;
    }
  }

  lemma Regroup(a: seq<Tok>, b: seq<Tok>, c: seq<Tok>, d: seq<Tok>)
    ensures a + (b + c) + d == a + (b + (c + d))
  {
    Assoc(a, b + c, d);
    Assoc(b, c, d);
  }

  // ---------- what is in the grammar the parser accepts ----------

  function OneItem(x: Item): seq<Tok> {
    match x
    case Arg(w) => [Word(w)]
    case To(r) => [TokOf(r.op), Word(r.file)]
  }

  /** The tokens of the items from i on. */
  function ItemsFrom(items: seq<Item>, i: nat): seq<Tok>
    requires i <= |items|
    decreases |items| - i
  {
    if i == |items| then [] else OneItem(items[i]) + ItemsFrom(items, i + 1)
  }

  lemma {:induction false} ItemsSplit(items: seq<Item>, i: nat)
    requires i <= |items|
    ensures ItemTokens(items) == ItemTokens(items[..i]) + ItemsFrom(items, i)
    decreases |items| - i
  {
    if i == |items| {
      assert items[..i] == items;
    } else {
      ItemsSplit(items, i + 1);
      assert items[..i + 1][..i] == items[..i];
      Assoc(ItemTokens(items[..i]), OneItem(items[i]), ItemsFrom(items, i + 1));
    }
  }

  lemma {:induction false} ArgsGrow(items: seq<Item>, i: nat)
    requires i <= |items|
    ensures |Args(items[..i])| <= |Args(items)|
    decreases |items| - i
  {
    if i == |items| {
      assert items[..i] == items;
    } else {
      ArgsGrow(items, i + 1);
      assert items[..i + 1][..i] == items[..i];
    }
  }

  /** What was parsed before stays in front. */
  lemma {:induction false} RedirsAfter(toks: seq<Tok>, acc: seq<Redirection>)
    ensures var r := ParseRedirs(toks, []);
            ParseRedirs(toks, acc) == if r.Err? then r else Ok(acc + r.value, r.rest)
    decreases |toks|
  {
    if toks == [] || OpOf(toks[0]).None? {
      assert acc + [] == acc;
    } else if |toks| >= 2 && toks[1].Word? {
      var x := Redirection(OpOf(toks[0]).value, toks[1].w);
      RedirsAfter(toks[2..], acc + [x]);
      RedirsAfter(toks[2..], [x]);
      assert [] + [x] == [x];
      var r := ParseRedirs(toks[2..], []);
      if r.Ok? {
        assert acc + [x] + r.value == acc + ([x] + r.value);
      }
    }
  }

  lemma {:induction false} TosJoin(x: Redirection, rs: seq<Redirection>)
    ensures Tos([x] + rs) == [To(x)] + Tos(rs)
  {
    if rs == [] {
      assert [x] + rs == [x] && [x][..0] == [];
    } else {
      TosJoin(x, rs[..|rs| - 1]);
      assert ([x] + rs)[..|rs|] == [x] + rs[..|rs| - 1];
    }
  }

  /** A redirection in front is the next item. */
  lemma RedirFirst(x: Redirection, more: seq<Tok>, acc: seq<Item>)
    ensures ParseItems([TokOf(x.op), Word(x.file)] + more, acc) == ParseItems(more, acc + [To(x)])
  {
    var toks := [TokOf(x.op), Word(x.file)] + more;
    assert toks[2..] == more && OpOf(toks[0]) == Some(x.op);
    assert [] + [x] == [x];
    RedirsAfter(more, [x]);
    var r := ParseRedirs(more, []);
    if r.Ok? {
      TosJoin(x, r.value);
      assert acc + ([To(x)] + Tos(r.value)) == acc + [To(x)] + Tos(r.value);
    }
  }

  /** So is a word. */
  lemma ArgFirst(w: Span, more: seq<Tok>, acc: seq<Item>)
    requires |Args(acc + [Arg(w)])| < MAXARGS
    ensures ParseItems([Word(w)] + more, acc) == ParseItems(more, acc + [Arg(w)])
  {
    var toks := [Word(w)] + more;
    assert toks[1..] == more && acc + Tos([]) == acc;
  }

  lemma {:induction false} ItemsComplete(items: seq<Item>, i: nat, rest: seq<Tok>)
    requires i <= |items| && |Args(items)| < MAXARGS && (rest == [] || Stops(rest[0]))
    ensures ParseItems(ItemsFrom(items, i) + rest, items[..i]) == Ok(items, rest)
    decreases |items| - i
  {
    if i == |items| {
      assert [] + rest == rest && items[..i] == items && items + Tos([]) == items;
    } else {
      ItemsComplete(items, i + 1, rest);
      assert items[..i + 1] == items[..i] + [items[i]];
      Assoc(OneItem(items[i]), ItemsFrom(items, i + 1), rest);
      match items[i] {
        case Arg(w) =>
          ArgsGrow(items, i + 1);
          ArgFirst(w, ItemsFrom(items, i + 1) + rest, items[..i]);
        case To(r) =>
          RedirFirst(r, ItemsFrom(items, i + 1) + rest, items[..i]);
      }
    }
  }

  /** A list of redirections is read back. */
  lemma {:induction false} RedirsComplete(rs: seq<Redirection>, rest: seq<Tok>, acc: seq<Redirection>)
    requires rest == [] || OpOf(rest[0]).None?
    ensures ParseRedirs(RedirTokens(rs) + rest, acc) == Ok(acc + rs, rest)
  {
    RedirsEnd(rs, rest, acc);
    assert ParseRedirs(rest, acc + rs) == Ok(acc + rs, rest);
  }

  lemma {:induction false} RedirsEnd(rs: seq<Redirection>, rest: seq<Tok>, acc: seq<Redirection>)
    ensures ParseRedirs(RedirTokens(rs) + rest, acc) == ParseRedirs(rest, acc + rs)
  {
    if rs == [] {
      assert [] + rest == rest && acc + rs == acc;
    } else {
      var init, x := rs[..|rs| - 1], rs[|rs| - 1];
      var two := [TokOf(x.op), Word(x.file)] + rest;
      RedirsEnd(init, two, acc);
      Assoc(RedirTokens(init), [TokOf(x.op), Word(x.file)], rest);
      assert two[2..] == rest && OpOf(two[0]) == Some(x.op);
      assert acc + init + [x] == acc + rs;
    }
  }

  predicate AfterCommand(rest: seq<Tok>) {
    rest == [] || Stops(rest[0])
  }

  predicate AfterPipe(rest: seq<Tok>) {
    AfterCommand(rest) && (rest != [] ==> rest[0] != Sym('|'))
  }

  predicate AfterLine(rest: seq<Tok>) {
    rest == [] || rest[0] == Sym(')')
  }

  lemma SimpleHead(items: seq<Item>, rest: seq<Tok>)
    requires AfterCommand(rest)
    ensures var t := ItemTokens(items) + rest; t == [] || t[0] != Sym('(')
  {
    ItemsSplit(items, 0);
    assert ItemTokens(items[..0]) == [];
    assert [] + ItemsFrom(items, 0) == ItemsFrom(items, 0);
  }

  lemma SimpleComplete(items: seq<Item>, rest: seq<Tok>)
    requires |Args(items)| < MAXARGS && AfterCommand(rest)
    ensures ParseCommand(ItemTokens(items) + rest) == Ok(Simple(items), rest)
  {
    SimpleHead(items, rest);
    ItemsSplit(items, 0);
    assert items[..0] == [];
    assert [] + ItemsFrom(items, 0) == ItemsFrom(items, 0);
    ItemsComplete(items, 0, rest);
  }

  lemma BlockForm(body: Line, redirs: seq<Redirection>, rest: seq<Tok>)
    ensures CommandTokens(Block(body, redirs)) + rest
            == [Sym('(')] + (LineTokens(body) + ([Sym(')')] + (RedirTokens(redirs) + rest)))
  {
    var tail := [Sym(')')] + RedirTokens(redirs);
    Assoc([Sym('(')], LineTokens(body) + tail, rest);
    Assoc(LineTokens(body), tail, rest);
    Assoc([Sym(')')], RedirTokens(redirs), rest);
  }

  lemma ParseBlock(toks: seq<Tok>, inner: seq<Tok>, body: Line, close: seq<Tok>, more: seq<Tok>,
          redirs: seq<Redirection>, rest: seq<Tok>)
    requires toks == [Sym('(')] + inner && ParseLine(inner) == Ok(body, close)
    requires close == [Sym(')')] + more && ParseRedirs(more, []) == Ok(redirs, rest)
    ensures ParseCommand(toks) == Ok(Block(body, redirs), rest)
  {
    assert toks[1..] == inner && close[1..] == more;
  }

  lemma {:induction false} CommandComplete(c: Command, rest: seq<Tok>)
    requires CommandFits(c) && AfterCommand(rest)
    ensures ParseCommand(CommandTokens(c) + rest) == Ok(c, rest)
    decreases c
  {
    match c
    case Simple(items) => SimpleComplete(items, rest);
    case Block(body, redirs) =>
      var close := [Sym(')')] + (RedirTokens(redirs) + rest);
      LineComplete(body, close);
      RedirsComplete(redirs, rest, []);
      assert [] + redirs == redirs;
      BlockForm(body, redirs, rest);
      ParseBlock(CommandTokens(c) + rest, LineTokens(body) + close, body, close, RedirTokens(redirs) + rest, redirs,
        rest);
  }

  lemma {:induction false} PipeComplete(p: Pipeline, rest: seq<Tok>)
    requires PipeFits(p) && AfterPipe(rest)
    ensures ParsePipe(PipeTokens(p) + rest) == Ok(p, rest)
    decreases p
  {
    match p.rest
    case None => CommandComplete(p.first, rest);
    case Some(r) =>
      var more := [Sym('|')] + (PipeTokens(r) + rest);
      CommandComplete(p.first, more);
      PipeComplete(r, rest);
      Regroup(CommandTokens(p.first), [Sym('|')], PipeTokens(r), rest);
      assert more[1..] == PipeTokens(r) + rest;
  }

  lemma {:induction false} AmpsComplete(n: nat, u: seq<Tok>)
    requires u == [] || u[0] != Sym('&')
    ensures Amps(AmpTokens(n) + u) == n && (AmpTokens(n) + u)[n..] == u
  {
    if n == 0 {
      assert [] + u == u;
    } else {
      AmpsComplete(n - 1, u);
      Assoc([Sym('&')], AmpTokens(n - 1), u);
      assert (AmpTokens(n) + u)[1..] == AmpTokens(n - 1) + u;
    }
  }

  lemma AmpsStart(n: nat, u: seq<Tok>)
    requires AfterPipe(u)
    ensures AfterPipe(AmpTokens(n) + u)
  {
    if n == 0 {
      assert [] + u == u;
    }
  }

  /** The parser reads every line of the grammar whose argument vectors fit. */
  lemma {:induction false} LineComplete(l: Line, rest: seq<Tok>)
    requires LineFits(l) && AfterLine(rest)
    ensures ParseLine(LineTokens(l) + rest) == Ok(l, rest)
    decreases l
  {
    var more := if l.rest.None? then [] else [Sym(';')] + LineTokens(l.rest.value);
    var u := more + rest;
    AmpsStart(l.amps, u);
    Regroup(PipeTokens(l.first), AmpTokens(l.amps), more, rest);
    PipeComplete(l.first, AmpTokens(l.amps) + u);
    AmpsComplete(l.amps, u);
    if l.rest.None? {
      assert u == rest;
    } else {
      LineComplete(l.rest.value, rest);
      Assoc([Sym(';')], LineTokens(l.rest.value), rest);
      assert u[1..] == LineTokens(l.rest.value) + rest;
    }
  }

  // ---------- accepted lines ----------

  /** A whole line is accepted as l. */
  predicate Accepts(toks: seq<Tok>, l: Line) {
    ParseLine(toks) == Ok(l, [])
  }

  /** The parser accepts exactly the lines of the grammar whose argument vectors fit, as what they are. */
  lemma AcceptsIff(toks: seq<Tok>, l: Line)
    ensures Accepts(toks, l) <==> LineTokens(l) == toks && LineFits(l)
  {
    assert LineTokens(l) + [] == LineTokens(l);
    if Accepts(toks, l) {
      LineSound(toks);
    }
    if LineTokens(l) == toks && LineFits(l) {
      LineComplete(l, []);
    }
  }

  /** So the grammar is unambiguous. */
  lemma Unambiguous(k: Line, l: Line)
    requires LineFits(k) && LineFits(l) && LineTokens(k) == LineTokens(l)
    ensures k == l
  {
    AcceptsIff(LineTokens(k), k);
    AcceptsIff(LineTokens(k), l);
  }

  // ---------- words ----------

  function One(b: bool): nat {
    if b then 1 else 0
  }

  /** How often w is in an argument vector. */
  function InArgs(argv: seq<Span>, w: Span): nat {
    if argv == [] then 0 else InArgs(argv[..|argv| - 1], w) + One(argv[|argv| - 1] == w)
  }

  lemma {:induction false} ArgOccurs(argv: seq<Span>, k: nat)
    requires k < |argv|
    ensures InArgs(argv, argv[k]) > 0
  {
    if k < |argv| - 1 {
      ArgOccurs(argv[..|argv| - 1], k);
    }
  }

  /** How often w is in a tree, as an argument or as a file. */
  function Occurs(c: Cmd, w: Span): nat {
    match c
    case Exec(argv) => InArgs(argv, w)
    case Redir(d, file, _) => Occurs(d, w) + One(file == w)
    case PipeTo(l, r) => Occurs(l, w) + Occurs(r, w)
    case List(l, r) => Occurs(l, w) + Occurs(r, w)
    case Back(d) => Occurs(d, w)
  }

  /** How often w is among the tokens. */
  function InTokens(toks: seq<Tok>, w: Span): nat {
    if toks == [] then 0 else One(toks[0] == Word(w)) + InTokens(toks[1..], w)
  }

  lemma {:induction false} TokensJoin(a: seq<Tok>, b: seq<Tok>, w: Span)
    ensures InTokens(a + b, w) == InTokens(a, w) + InTokens(b, w)
  {
    if a == [] {
      assert a + b == b;
    } else {
      TokensJoin(a[1..], b, w);
      assert (a + b)[1..] == a[1..] + b;
    }
  }

  lemma OneToken(t: Tok, w: Span)
    ensures InTokens([t], w) == One(t == Word(w))
  {
    assert [t][1..] == [];
  }

  lemma RedirToken(r: Redirection, w: Span)
    ensures InTokens([TokOf(r.op), Word(r.file)], w) == One(r.file == w)
  {
    OneToken(Word(r.file), w);
    assert [TokOf(r.op), Word(r.file)][1..] == [Word(r.file)];
  }

  lemma {:induction false} WrapOccurs(c: Cmd, rs: seq<Redirection>, w: Span)
    ensures Occurs(Wrap(c, rs), w) == Occurs(c, w) + InTokens(RedirTokens(rs), w)
  {
    if rs != [] {
      var init, x := rs[..|rs| - 1], rs[|rs| - 1];
      WrapOccurs(c, init, w);
      TokensJoin(RedirTokens(init), [TokOf(x.op), Word(x.file)], w);
      RedirToken(x, w);
    }
  }

  lemma RedirsMore(rs: seq<Redirection>, r: Redirection, w: Span)
    ensures InTokens(RedirTokens(rs + [r]), w) == InTokens(RedirTokens(rs), w) + One(r.file == w)
  {
    assert (rs + [r])[..|rs|] == rs;
    TokensJoin(RedirTokens(rs), [TokOf(r.op), Word(r.file)], w);
    RedirToken(r, w);
  }

  lemma ArgsMore(argv: seq<Span>, x: Span, w: Span)
    ensures InArgs(argv + [x], w) == InArgs(argv, w) + One(x == w)
  {
    assert (argv + [x])[..|argv|] == argv;
  }

  lemma {:induction false} ItemOccurs(items: seq<Item>, w: Span)
    ensures InArgs(Args(items), w) + InTokens(RedirTokens(Redirs(items)), w) == InTokens(ItemTokens(items), w)
  {
    if items != [] {
      var init := items[..|items| - 1];
      ItemOccurs(init, w);
      match items[|items| - 1] {
        case Arg(x) =>
          TokensJoin(ItemTokens(init), [Word(x)], w);
          OneToken(Word(x), w);
          ArgsMore(Args(init), x, w);
          assert Redirs(items) == Redirs(init);
        case To(r) =>
          TokensJoin(ItemTokens(init), [TokOf(r.op), Word(r.file)], w);
          RedirToken(r, w);
          RedirsMore(Redirs(init), r, w);
          assert Args(items) == Args(init);
      }
    }
  }

  lemma {:induction false} CommandOccurs(c: Command, w: Span)
    ensures Occurs(BuildCommand(c), w) == InTokens(CommandTokens(c), w)
    decreases c
  {
    match c
    case Simple(items) =>
      WrapOccurs(Exec(Args(items)), Redirs(items), w);
      ItemOccurs(items, w);
    case Block(body, redirs) =>
      LineOccurs(body, w);
      WrapOccurs(BuildLine(body), redirs, w);
      var close := [Sym(')')] + RedirTokens(redirs);
      TokensJoin([Sym('(')], LineTokens(body) + close, w);
      TokensJoin(LineTokens(body), close, w);
      TokensJoin([Sym(')')], RedirTokens(redirs), w);
      OneToken(Sym('('), w);
      OneToken(Sym(')'), w);
  }

  lemma {:induction false} PipeOccurs(p: Pipeline, w: Span)
    ensures Occurs(BuildPipe(p), w) == InTokens(PipeTokens(p), w)
    decreases p
  {
    CommandOccurs(p.first, w);
    if p.rest.Some? {
      PipeOccurs(p.rest.value, w);
      TokensJoin(CommandTokens(p.first), [Sym('|')] + PipeTokens(p.rest.value), w);
      TokensJoin([Sym('|')], PipeTokens(p.rest.value), w);
      OneToken(Sym('|'), w);
    }
  }

  lemma {:induction false} BacksOccurs(c: Cmd, n: nat, w: Span)
    ensures Occurs(Backs(c, n), w) == Occurs(c, w) && InTokens(AmpTokens(n), w) == 0
  {
    if n > 0 {
      BacksOccurs(c, n - 1, w);
      TokensJoin([Sym('&')], AmpTokens(n - 1), w);
      OneToken(Sym('&'), w);
    }
  }

  /** A word is in the tree of a line as often as it is in the line. */
  lemma {:induction false} LineOccurs(l: Line, w: Span)
    ensures Occurs(BuildLine(l), w) == InTokens(LineTokens(l), w)
    decreases l
  {
    var more := if l.rest.None? then [] else [Sym(';')] + LineTokens(l.rest.value);
    PipeOccurs(l.first, w);
    BacksOccurs(BuildPipe(l.first), l.amps, w);
    TokensJoin(PipeTokens(l.first), AmpTokens(l.amps) + more, w);
    TokensJoin(AmpTokens(l.amps), more, w);
    if l.rest.Some? {
      LineOccurs(l.rest.value, w);
      TokensJoin([Sym(';')], LineTokens(l.rest.value), w);
      OneToken(Sym(';'), w);
    }
  }
}
