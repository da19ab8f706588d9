/** The tokens of a command line, as gettoken of user/sh.c finds them. */
module ShellLexer {
  import opened ShellGrammar

  predicate White(c: char) {
    c == ' ' || c == '\t' || c == '\r' || c == '\n' || c == '\U{B}'
  }

  predicate Symbol(c: char) {
    c == '<' || c == '|' || c == '>' || c == '&' || c == ';' || c == '(' || c == ')'
  }

  /** A character of a word. */
  predicate Plain(c: char) {
    !White(c) && !Symbol(c)
  }

  /** The first place from i on that is not white space. */
  function Skip(line: string, i: nat): (j: nat)
    requires i <= |line|
    ensures i <= j <= |line| && (j < |line| ==> !White(line[j])) && forall k :: i <= k < j ==> White(line[k])
    decreases |line| - i
  {
    if i == |line| || !White(line[i]) then i else Skip(line, i + 1)
  }

  function WordEnd(line: string, i: nat): (j: nat)
    requires i <= |line|
    ensures i <= j <= |line| && (j < |line| ==> !Plain(line[j])) && forall k :: i <= k < j ==> Plain(line[k])
    decreases |line| - i
  {
    if i == |line| || !Plain(line[i]) then i else WordEnd(line, i + 1)
  }

  /** The token at i, where the line goes on, and where the token ends. */
  function TokenAt(line: string, i: nat): (r: (Tok, nat))
    requires i < |line| && !White(line[i])
    ensures i < r.1 <= |line|
  {
    if line[i] == '>' && i + 1 < |line| && line[i + 1] == '>' then (Append, i + 2)
    else if Symbol(line[i]) then (Sym(line[i]), i + 1)
    else (Word(Span(i, WordEnd(line, i))), WordEnd(line, i))
  }

  /** The tokens from i on. */
  function Lex(line: string, i: nat): seq<Tok>
    requires i <= |line|
    decreases |line| - i
  {
    var s := Skip(line, i);
    if s == |line| then [] else [TokenAt(line, s).0] + Lex(line, TokenAt(line, s).1)
  }

  lemma LexSkip(line: string, i: nat, s: nat)
    requires i <= s <= |line| && s == Skip(line, i)
    ensures Lex(line, s) == Lex(line, i) && Skip(line, s) == s
  {
  }

  /** A place that is where the search for white space would end is where it ends. */
  lemma {:induction false} SkipIs(line: string, i: nat, j: nat)
    requires i <= j <= |line| && (j < |line| ==> !White(line[j])) && forall k :: i <= k < j ==> White(line[k])
    ensures Skip(line, i) == j
    decreases j - i
  {
    if i < j {
      SkipIs(line, i + 1, j);
    }
  }

  lemma {:induction false} WordEndIs(line: string, i: nat, j: nat)
    requires i <= j <= |line| && (j < |line| ==> !Plain(line[j])) && forall k :: i <= k < j ==> Plain(line[k])
    ensures WordEnd(line, i) == j
    decreases j - i
  {
    if i < j {
      WordEndIs(line, i + 1, j);
    }
  }

  // ---------- words ----------

  /** w is a longest run of characters of words. */
  predicate IsWord(line: string, w: Span) {
    && w.q < w.eq <= |line| && (forall k :: w.q <= k < w.eq ==> Plain(line[k]))
    && (w.q == 0 || !Plain(line[w.q - 1])) && (w.eq == |line| || !Plain(line[w.eq]))
  }

  /** No word lies across i. */
  predicate Boundary(line: string, i: nat) {
    i <= |line| && (i == 0 || i == |line| || !Plain(line[i - 1]) || !Plain(line[i]))
  }

  lemma TokenBoundary(line: string, i: nat)
    requires i < |line| && !White(line[i])
    ensures Boundary(line, TokenAt(line, i).1)
  {
  }

  /** The words that begin behind a token are those that begin behind its place, but for the token. */
  lemma WordsBehind(line: string, i: nat, w: Span)
    requires i < |line| && !White(line[i]) && Boundary(line, i)
    ensures var (t, j) := TokenAt(line, i);
            One(IsWord(line, w) && i <= w.q) == One(t == Word(w)) + One(IsWord(line, w) && j <= w.q)
  {
    var (t, j) := TokenAt(line, i);
    assert IsWord(line, w) ==> Plain(line[w.q]);
    assert t.Word? && i < w.q < j ==> Plain(line[w.q - 1]);
    assert t.Word? && w.q == i && i <= w.eq < j ==> Plain(line[w.eq]);
    assert IsWord(line, w) && w.q <= j < w.eq ==> Plain(line[j]);
  }

  lemma WordsSkipped(line: string, i: nat, w: Span)
    requires i <= |line|
    ensures IsWord(line, w) && i <= w.q <==> IsWord(line, w) && Skip(line, i) <= w.q
  {
    assert IsWord(line, w) ==> Plain(line[w.q]);
  }

  /** The words among the tokens are exactly the longest runs of characters of words, each once. */
  lemma {:induction false} WordsLexed(line: string, i: nat, w: Span)
    requires Boundary(line, i)
    ensures InTokens(Lex(line, i), w) == One(IsWord(line, w) && i <= w.q)
    decreases |line| - i
  {
    var s := Skip(line, i);
    WordsSkipped(line, i, w);
    if s < |line| {
      var (t, j) := TokenAt(line, s);
      TokenBoundary(line, s);
      WordsBehind(line, s, w);
      WordsLexed(line, j, w);
      TokensJoin([t], Lex(line, j), w);
      OneToken(t, w);
    }
  }

  // ---------- the line as its tokens and white space ----------

  /** The token stands at p: a word is a longest run, and an angle bracket is not the first of two. */
  predicate Stands(line: string, p: nat, t: Tok) {
    match t
    case Sym(c) => p < |line| && line[p] == c && Symbol(c) && !(c == '>' && p + 1 < |line| && line[p + 1] == '>')
    case Append => p + 1 < |line| && line[p] == '>' && line[p + 1] == '>'
    case Word(w) => w.q == p && IsWord(line, w)
  }

  function End(t: Tok, p: nat): nat {
    match t
    case Sym(_) => p + 1
    case Append => p + 2
    case Word(w) => w.eq
  }

  predicate Blank(line: string, i: nat, j: nat) {
    i <= j <= |line| && forall k :: i <= k < j ==> White(line[k])
  }

  /** From i on the line is the tokens at the given places, with white space between them. */
  predicate Laid(line: string, i: nat, toks: seq<Tok>, ps: seq<nat>)
    requires |toks| == |ps|
    decreases |toks|
  {
    if toks == [] then Blank(line, i, |line|)
    else Blank(line, i, ps[0]) && Stands(line, ps[0], toks[0]) && Laid(line, End(toks[0], ps[0]), toks[1..], ps[1..])
  }

  /** Where the tokens are. */
  function Places(line: string, i: nat): (ps: seq<nat>)
    requires i <= |line|
    ensures |ps| == |Lex(line, i)|
    decreases |line| - i
  {
    var s := Skip(line, i);
    if s == |line| then [] else [s] + Places(line, TokenAt(line, s).1)
  }

  lemma TokenStands(line: string, i: nat)
    requires i < |line| && !White(line[i]) && Boundary(line, i)
    ensures Stands(line, i, TokenAt(line, i).0) && End(TokenAt(line, i).0, i) == TokenAt(line, i).1
  {
  }

  lemma {:induction false} LexLaid(line: string, i: nat)
    requires Boundary(line, i)
    ensures Laid(line, i, Lex(line, i), Places(line, i))
    decreases |line| - i
  {
    var s := Skip(line, i);
    if s < |line| {
      var (t, j) := TokenAt(line, s);
      assert Boundary(line, s);
      TokenStands(line, s);
      TokenBoundary(line, s);
      LexLaid(line, j);
      assert Lex(line, i)[1..] == Lex(line, j) && Places(line, i)[1..] == Places(line, j);
    }
  }

  lemma StandsIs(line: string, p: nat, t: Tok)
    requires Stands(line, p, t)
    ensures p < |line| && !White(line[p]) && TokenAt(line, p) == (t, End(t, p))
  {
    if t.Word? {
      assert Plain(line[p]);
      WordEndIs(line, p, t.w.eq);
    }
  }

  lemma {:induction false} LaidIsLex(line: string, i: nat, toks: seq<Tok>, ps: seq<nat>)
    requires |toks| == |ps| && Laid(line, i, toks, ps)
    ensures i <= |line| && toks == Lex(line, i) && ps == Places(line, i)
    decreases |toks|
  {
    if toks == [] {
      SkipIs(line, i, |line|);
    } else {
      StandsIs(line, ps[0], toks[0]);
      SkipIs(line, i, ps[0]);
      LaidIsLex(line, End(toks[0], ps[0]), toks[1..], ps[1..]);
      assert toks == [toks[0]] + toks[1..] && ps == [ps[0]] + ps[1..];
    }
  }

  /** A line is white space and tokens in one way only, and that is how the shell reads it. */
  lemma LexIff(line: string, toks: seq<Tok>, ps: seq<nat>)
    requires |toks| == |ps|
    ensures Laid(line, 0, toks, ps) <==> toks == Lex(line, 0) && ps == Places(line, 0)
  {
    LexLaid(line, 0);
    if Laid(line, 0, toks, ps) {
      LaidIsLex(line, 0, toks, ps);
    }
  }

  /** The tokens are behind i. */
  lemma {:induction false} LaidBehind(line: string, i: nat, toks: seq<Tok>, ps: seq<nat>, k: nat)
    requires |toks| == |ps| && Laid(line, i, toks, ps) && k < |toks|
    ensures i <= ps[k] && Stands(line, ps[k], toks[k])
    decreases |toks|
  {
    if k > 0 {
      StandsIs(line, ps[0], toks[0]);
      LaidBehind(line, End(toks[0], ps[0]), toks[1..], ps[1..], k - 1);
    }
  }

  /** A token ends before a later one begins. */
  lemma {:induction false} LaidAscends(line: string, i: nat, toks: seq<Tok>, ps: seq<nat>, j: nat, k: nat)
    requires |toks| == |ps| && Laid(line, i, toks, ps) && j < k < |toks|
    ensures End(toks[j], ps[j]) <= ps[k] && Stands(line, ps[j], toks[j]) && Stands(line, ps[k], toks[k])
    decreases |toks|
  {
    if j == 0 {
      LaidBehind(line, End(toks[0], ps[0]), toks[1..], ps[1..], k - 1);
    } else {
      LaidAscends(line, End(toks[0], ps[0]), toks[1..], ps[1..], j - 1, k - 1);
    }
  }

  /** Words that come one after the other do not touch. */
  lemma WordsAscend(line: string, j: nat, k: nat)
    requires j < k < |Lex(line, 0)| && Lex(line, 0)[j].Word? && Lex(line, 0)[k].Word?
    ensures Lex(line, 0)[j].w.eq < Lex(line, 0)[k].w.q
  {
    LexLaid(line, 0);
    LaidAscends(line, 0, Lex(line, 0), Places(line, 0), j, k);
    var v := Lex(line, 0)[k].w;
    assert Plain(line[v.q]);
  }

  // ---------- ampersands ----------

  /** How many ampersands are from i on. */
  function Ampersands(line: string, i: nat): nat
    decreases |line| - i
  {
    if i >= |line| then 0 else One(line[i] == '&') + Ampersands(line, i + 1)
  }

  lemma {:induction false} AmpersandsPast(line: string, i: nat, j: nat)
    requires i <= j <= |line| && forall k :: i <= k < j ==> line[k] != '&'
    ensures Ampersands(line, i) == Ampersands(line, j)
    decreases j - i
  {
    if i < j {
      AmpersandsPast(line, i + 1, j);
    }
  }

  function Count(toks: seq<Tok>, t: Tok): nat {
    if toks == [] then 0 else One(toks[0] == t) + Count(toks[1..], t)
  }

  lemma AmpersandToken(line: string, i: nat)
    requires i < |line| && !White(line[i])
    ensures Ampersands(line, i) == One(TokenAt(line, i).0 == Sym('&')) + Ampersands(line, TokenAt(line, i).1)
  {
    if line[i] != '&' {
      AmpersandsPast(line, i, TokenAt(line, i).1);
    }
  }

  /** Every ampersand of the line is a token. */
  lemma {:induction false} AmpersandsLexed(line: string, i: nat)
    requires i <= |line|
    ensures Count(Lex(line, i), Sym('&')) == Ampersands(line, i)
    decreases |line| - i
  {
    var s := Skip(line, i);
    AmpersandsPast(line, i, s);
    if s < |line| {
      var j := TokenAt(line, s).1;
      AmpersandToken(line, s);
      AmpersandsLexed(line, j);
      assert Lex(line, i)[1..] == Lex(line, j);
    }
  }
}
