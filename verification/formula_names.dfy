/**
  Writing channel names into formulas: when a quoted name reads back as itself,
  and what renaming a channel does to the tokens of a formula.
 */
module FormulaNames {
  import opened FormulaLexer

  // ---- Quoting ---------------------------------------------------------------

  /** A name the bare-identifier rule can express. */
  ghost predicate Plain(cs: Chars, name: string) {
    && name != "" && (cs.letter(name[0]) || name[0] == '_')
    && forall i | 0 <= i < |name| :: cs.Name(name[i])
  }

  /** A name some spelling of which the tokeniser reads as that name. */
  ghost predicate Referenceable(cs: Chars, name: string) {
    Plain(cs, name) || (name != "" && IsTrimmed(cs, name) && Balanced(name))
  }

  ghost function Quoted(cs: Chars, name: string): (text: string)
    ensures text != ""
  {
    if Plain(cs, name) then name else "[" + name + "]"
  }

  method QuoteName(cs: Chars, name: string) returns (text: string)
    ensures text == Quoted(cs, name)
  {
    if name == "" { return "[]"; }
    var plain := cs.letter(name[0]) || name[0] == '_';
    for i := 0 to |name|
      invariant plain == ((cs.letter(name[0]) || name[0] == '_') && forall k | 0 <= k < i :: cs.Name(name[k]))
    {
      if !cs.Name(name[i]) { plain := false; break; }
    }
    return if plain then name else "[" + name + "]";
  }

  /** Whether text v may follow a bare name without extending it. */
  ghost predicate Ends(cs: Chars, v: string) { v != "" ==> !cs.Name(v[0]) }

  lemma NameRunIs(cs: Chars, s: string, n: nat)
    requires n <= |s| && (forall i | 0 <= i < n :: cs.Name(s[i])) && Ends(cs, s[n..])
    ensures NameRun(cs, s) == n
  {
    assert n < |s| ==> s[n..][0] == s[n];
  }

  lemma PlainReadsBack(cs: Chars, name: string, v: string)
    requires cs.Sound() && Plain(cs, name) && Ends(cs, v)
    ensures First(cs, name + v) == (Ident(name, false), |name|)
  {
    var s := name + v;
    assert s[0] == name[0] && s[|name|..] == v;
    NameRunIs(cs, s, |name|);
  }

  lemma CloseOfBracketed(name: string, v: string)
    requires Balanced(name)
    ensures Close(name + "]" + v, 1) == |name|
  {
    var s := name + "]" + v;
    forall j | 0 <= j <= |name|
      ensures 1 + Net(s[..j]) >= 1
    {
      assert s[..j] == name[..j];
    }
    assert s[..|name|] == name;
    MatchIsClose(s, 1, |name|);
  }

  lemma BracketedReadsBack(cs: Chars, name: string, v: string)
    requires name != "" && IsTrimmed(cs, name) && Balanced(name)
    ensures First(cs, "[" + name + "]" + v) == (Ident(name, true), |name| + 2)
  {
    var s := "[" + name + "]" + v;
    CloseOfBracketed(name, v);
    assert s[1..] == name + "]" + v;
    assert s[1..][..|name|] == name;
  }

  /** A quoted name followed by anything that does not extend a name. */
  lemma QuotedReadsBack(cs: Chars, name: string, v: string)
    requires cs.Sound() && Referenceable(cs, name) && Ends(cs, v)
    ensures First(cs, Quoted(cs, name) + v) == (Ident(name, !Plain(cs, name)), |Quoted(cs, name)|)
  {
    if Plain(cs, name) {
      PlainReadsBack(cs, name, v);
    } else {
      BracketedReadsBack(cs, name, v);
    }
  }

  /** Quoting and tokenising is the identity exactly on the referenceable names. */
  lemma QuoteRoundTripExactly(cs: Chars, name: string)
    requires cs.Sound()
    ensures Tokens(cs, Quoted(cs, name)) == [Ident(name, !Plain(cs, name))] <==> Referenceable(cs, name)
  {
    var s := Quoted(cs, name);
    assert name[..|name|] == name;
    assert Lex(cs, s).start == 0 && s[0..] == s;
    if Referenceable(cs, name) {
      QuotedReadsBack(cs, name, "");
      assert s + "" == s;
      assert s[|s|..] == "" && Tokens(cs, "") == [];
    } else if Tokens(cs, s)[0] == Ident(name, true) {
      var k := Close(s[1..], 1);
      assert Trim(cs, s[1..][..k]) == name && k <= |name|;
      assert s[1..][..k] == name[..k];
      CloseFindsMatch(s[1..], 1);
      forall j | 0 <= j <= |name|
        ensures Net(name[..j]) >= 0
      {
        assert s[1..][..j] == name[..j];
        assert 1 + Net(s[1..][..j]) >= 1;
      }
    }
  }

  /** Every name the tokeniser ever reads is referenceable. */
  lemma ReadNamesAreReferenceable(cs: Chars, s: string)
    requires cs.Sound() && s != "" && First(cs, s).0.Ident?
    ensures Referenceable(cs, First(cs, s).0.name)
  {
    var name := First(cs, s).0.name;
    if s[0] == '[' {
      var k := Close(s[1..], 1);
      var inner := s[1..][..k];
      CloseFindsMatch(s[1..], 1);
      forall j | 0 <= j <= |inner|
        ensures Net(inner[..j]) >= 0
      {
        assert inner[..j] == s[1..][..j];
        assert 1 + Net(s[1..][..j]) >= 1;
      }
      assert inner[..|inner|] == inner;
      TrimKeepsBalance(cs, inner);
    } else {
      assert name[0] == s[0];
    }
  }

  // ---- What follows a token does not change it ---------------------------------

  /** w starts with the character v starts with, or with a bracket, or is at its end. */
  ghost predicate SameHead(v: string, w: string) {
    w == "" || w[0] == '[' || (v != "" && w != "" && v[0] == w[0])
  }

  lemma NumberEndIs(cs: Chars, s: string, i: nat, n: nat)
    requires i <= n <= |s| && (forall j | i <= j < n :: InNumber(cs, s, j))
    requires n < |s| ==> !InNumber(cs, s, n)
    ensures NumberEnd(cs, s, i) == n
  {
  }

  lemma NumberIsLocal(cs: Chars, u: string, v: string, w: string)
    requires cs.Sound() && u != "" && NumberEnd(cs, u + v, 0) == |u| && SameHead(v, w)
    ensures NumberEnd(cs, u + w, 0) == |u|
  {
    var s, t := u + v, u + w;
    forall j | 0 <= j < |u|
      ensures InNumber(cs, t, j)
    {
      assert InNumber(cs, s, j) && t[j] == s[j] && (j > 0 ==> t[j - 1] == s[j - 1]);
    }
    if |u| < |t| && w[0] != '[' {
      assert !InNumber(cs, s, |u|) && t[|u|] == s[|u|] && t[|u| - 1] == s[|u| - 1];
    }
    NumberEndIs(cs, t, 0, |u|);
  }

  lemma CloseIsLocal(u: string, v: string, w: string)
    requires Close(u + v, 1) < |u|
    ensures Close(u + w, 1) == Close(u + v, 1)
  {
    var s, t, k := u + v, u + w, Close(u + v, 1);
    CloseFindsMatch(s, 1);
    forall j | 0 <= j <= k
      ensures 1 + Net(t[..j]) >= 1
    {
      assert t[..j] == s[..j];
      assert 1 + Net(s[..j]) >= 1;
    }
    assert t[..k] == s[..k];
    MatchIsClose(t, 1, k);
  }

  /** A token that ends at u is the same token whatever follows, up to one character. */
  lemma FirstIsLocal(cs: Chars, u: string, v: string, w: string)
    requires cs.Sound() && u != "" && First(cs, u + v).1 == |u| && !First(cs, u + v).0.Bad?
    requires IsOperand(First(cs, u + v).0) ==> SameHead(v, w)
    ensures First(cs, u + w) == First(cs, u + v)
  {
    var s, t := u + v, u + w;
    assert s[0] == u[0] == t[0];
    if u[0] == '[' {
      assert s[1..] == u[1..] + v && t[1..] == u[1..] + w;
      var k := Close(s[1..], 1);
      CloseIsLocal(u[1..], v, w);
      assert s[1..][..k] == t[1..][..k];
    } else if cs.letter(u[0]) || u[0] == '_' {
      assert NameRun(cs, s) == |u|;
      assert s[|u|..] == v && t[|u|..] == w;
      forall i | 0 <= i < |u|
        ensures cs.Name(t[i])
      {
        assert cs.Name(s[i]);
      }
      if w != "" && w[0] != '[' { assert s[|u|] == v[0]; }
      NameRunIs(cs, t, |u|);
      assert s[..|u|] == t[..|u|];
    } else if cs.digit(u[0]) || u[0] == '.' {
      NumberIsLocal(cs, u, v, w);
      assert s[..|u|] == t[..|u|];
    }
  }

  /** A token's last character is never blank, so it ends before a trailing one. */
  lemma TokenEndsEarly(cs: Chars, s: string)
    requires cs.Sound() && s != "" && !cs.space(s[0]) && !First(cs, s).0.Bad?
    ensures !cs.space(s[First(cs, s).1 - 1])
  {
    if s[0] == '[' {
      CloseFindsMatch(s[1..], 1);
    } else if cs.letter(s[0]) || s[0] == '_' {
      assert cs.Name(s[NameRun(cs, s) - 1]);
    } else if cs.digit(s[0]) || s[0] == '.' {
      assert InNumber(cs, s, NumberEnd(cs, s, 0) - 1);
    }
  }

  /** Without its trailing blank, a text starts with the same token, or with none. */
  lemma FirstBeforeBlank(cs: Chars, s: string)
    requires cs.Sound() && s != "" && cs.space(s[|s| - 1]) && !Lex(cs, s).token.Bad?
    ensures Lex(cs, s[..|s| - 1]).token == Lex(cs, s).token
    ensures Lex(cs, s).token != End ==>
              Lex(cs, s).stop < |s| && Lex(cs, s[..|s| - 1]).stop == Lex(cs, s).stop
  {
    hide First;
    var t := s[..|s| - 1];
    var x := Lex(cs, s);
    if x.token != End {
      LexSplits(cs, s);
      hide Lex;
      var u, tail := s[x.start..x.stop], s[x.stop..];
      assert u + tail == s[x.start..];
      TokenEndsEarly(cs, u + tail);
      var tail' := tail[..|tail| - 1];
      FirstIsLocal(cs, u, tail, tail');
      assert t == s[..x.start] + (u + tail');
      LexIs(cs, s[..x.start], u + tail');
    }
  }

  /** A trailing blank adds no token. */
  lemma {:induction false} TrailingBlank(cs: Chars, s: string)
    requires cs.Sound() && s != "" && cs.space(s[|s| - 1]) && Glueless(Tokens(cs, s))
    ensures Tokens(cs, s[..|s| - 1]) == Tokens(cs, s)
    decreases |s|
  {
    hide Lex, Tokens;
    var t := s[..|s| - 1];
    var x := Lex(cs, s);
    if x.token == End {
      FirstBeforeBlank(cs, s);
      TokensOfBlank(cs, s);
      TokensOfBlank(cs, t);
    } else {
      TokensUnfold(cs, s);
      FirstBeforeBlank(cs, s);
      TrailingBlank(cs, s[x.stop..]);
      assert t[x.stop..] == s[x.stop..][..|s[x.stop..]| - 1];
      TokensUnfold(cs, t);
    }
  }

  lemma LeadingBlank(cs: Chars, s: string)
    requires cs.Sound() && s != "" && cs.space(s[0])
    ensures Tokens(cs, s) == Tokens(cs, s[1..])
  {
    hide First, Tokens;
    var tail := s[1..];
    var x, y := Lex(cs, s), Lex(cs, tail);
    assert x.start == y.start + 1;
    if x.token == End {
      TokensOfBlank(cs, s);
      TokensOfBlank(cs, tail);
    } else {
      assert s[x.start..] == tail[y.start..];
      assert s[x.stop..] == tail[y.stop..];
      TokensUnfold(cs, s);
      TokensUnfold(cs, tail);
    }
  }

  /** Trimming a formula keeps its tokens. */
  lemma {:induction false} TrimKeepsTokens(cs: Chars, s: string)
    requires cs.Sound() && Glueless(Tokens(cs, s))
    ensures Tokens(cs, Trim(cs, s)) == Tokens(cs, s)
  {
    if s != "" && cs.space(s[0]) {
      LeadingBlank(cs, s);
      TrimKeepsTokens(cs, s[1..]);
    } else if s != "" && cs.space(s[|s| - 1]) {
      TrailingBlank(cs, s);
      TrimKeepsTokens(cs, s[..|s| - 1]);
    }
  }

  // ---- Renaming in a formula ---------------------------------------------------

  /** The text with every reference to `from` respelt as `to`. */
  ghost function Rewritten(cs: Chars, s: string, from: string, to: string): string
    requires cs.Sound()
    decreases |s|
  {
    var x := Lex(cs, s);
    if x.token == End then s
    else s[..x.start] + Respelt(cs, s, from, to) + Rewritten(cs, s[x.stop..], from, to)
  }

  /** The spelling of the first token after renaming. */
  ghost function Respelt(cs: Chars, s: string, from: string, to: string): (text: string)
    requires cs.Sound() && Lex(cs, s).token != End
    ensures text != ""
  {
    var x := Lex(cs, s);
    if x.token.Ident? && x.token.name == from then Quoted(cs, to) else s[x.start..x.stop]
  }

  /** Rewriting from position p on, one token at a time. */
  lemma RewrittenFrom(cs: Chars, expr: string, p: nat, from: string, to: string)
    requires cs.Sound() && p <= |expr|
    ensures Lex(cs, expr[p..]).token != End ==> (
              var x := Lex(cs, expr[p..]);
              && Rewritten(cs, expr[p..], from, to)
              == expr[p..p + x.start] + Respelt(cs, expr[p..], from, to) + Rewritten(cs, expr[p + x.stop..], from, to)
              && Respelt(cs, expr[p..], from, to)
              == if x.token.Ident? && x.token.name == from then Quoted(cs, to) else expr[p + x.start..p + x.stop])
    ensures Lex(cs, expr[p..]).token == End ==> Rewritten(cs, expr[p..], from, to) == expr[p..]
  {
    hide Lex, Quoted;
    var rest, x := expr[p..], Lex(cs, expr[p..]);
    assert rest[..x.start] == expr[p..p + x.start];
    assert rest[x.start..x.stop] == expr[p + x.start..p + x.stop];
    assert rest[x.stop..] == expr[p + x.stop..];
  }

  lemma Regroup(out: string, kept: string, blanks: string, text: string, tail: string)
    ensures out + kept + (blanks + text + tail) == (out + (kept + blanks) + text) + "" + tail
    ensures out + kept + (blanks + text + tail) == out + (kept + blanks + text) + tail
  {
  }

  lemma Slices(s: string, a: nat, b: nat, c: nat)
    requires a <= b <= c <= |s|
    ensures s[a..b] + s[b..c] == s[a..c] && (c == |s| ==> s[b..c] == s[b..] && s[a..c] == s[a..])
  {
  }

  method RewriteReferences(cs: Chars, expr: string, from: string, to: string) returns (out: string)
    requires cs.Sound()
    ensures out == Rewritten(cs, expr, from, to)
  {
    hide Lex, Quoted, Rewritten, Respelt;
    var lx := new Lexer(cs, expr);
    out := "";
    var copied: nat := 0;
    assert expr[0..] == expr;
    while true
      invariant lx.Valid() && lx.cs == cs && lx.src == expr && copied <= lx.p
      invariant Rewritten(cs, expr, from, to) == out + expr[copied..lx.p] + Rewritten(cs, expr[lx.p..], from, to)
      decreases |expr| - lx.p
    {
      ghost var p := lx.p;
      var token, pos := lx.Next();
      RewrittenFrom(cs, expr, p, from, to);
      if token == End {
        Slices(expr, copied, p, |expr|);
        break;
      }
      ghost var text, tail := Respelt(cs, expr[p..], from, to), Rewritten(cs, expr[lx.p..], from, to);
      Slices(expr, copied, p, pos);
      Slices(expr, copied, pos, lx.p);
      Regroup(out, expr[copied..p], expr[p..pos], text, tail);
      if token.Ident? && token.name == from {
        var name := QuoteName(cs, to);
        out := out + expr[copied..pos];
        out := out + name;
        copied := lx.p;
        assert expr[copied..lx.p] == "";
      }
    }
    out := out + expr[copied..];
  }

  lemma TokensOfBlank(cs: Chars, s: string)
    requires cs.Sound() && Lex(cs, s).token == End
    ensures Tokens(cs, s) == []
  {
  }

  /** No error tokens, and between two operands there is always something else. */
  ghost predicate Glueless(ts: seq<Token>) {
    && (forall i | 0 <= i < |ts| :: !ts[i].Bad?)
    && (forall i | 0 <= i < |ts| - 1 :: !(IsOperand(ts[i]) && IsOperand(ts[i + 1])))
  }

  predicate IsOperand(t: Token) { t.Ident? || t.Number? }

  ghost function RenamedToken(cs: Chars, t: Token, from: string, to: string): Token {
    if t.Ident? && t.name == from then Ident(to, !Plain(cs, to)) else t
  }

  ghost function Renamed(cs: Chars, ts: seq<Token>, from: string, to: string): (r: seq<Token>)
    ensures |r| == |ts| && forall i | 0 <= i < |ts| :: r[i] == RenamedToken(cs, ts[i], from, to)
  {
    if ts == [] then [] else [RenamedToken(cs, ts[0], from, to)] + Renamed(cs, ts[1..], from, to)
  }

  lemma LexIs(cs: Chars, blanks: string, rest: string)
    requires (forall i | 0 <= i < |blanks| :: cs.space(blanks[i])) && rest != "" && !cs.space(rest[0])
    ensures Lex(cs, blanks + rest)
         == Lexeme(First(cs, rest).0, |blanks|, |blanks| + First(cs, rest).1)
  {
    var s := blanks + rest;
    assert forall i | 0 <= i < |blanks| :: s[i] == blanks[i];
    assert s[|blanks|] == rest[0];
    assert s[|blanks|..] == rest;
  }

  /** The next character stays, unless a renamed name starts right there. */
  lemma RewrittenHead(cs: Chars, s: string, from: string, to: string)
    requires cs.Sound()
    requires var x := Lex(cs, s); x.start == 0 ==> !(x.token.Ident? && x.token.name == from)
    ensures SameHead(s, Rewritten(cs, s, from, to))
  {
    hide Lex, Quoted;
    var x := Lex(cs, s);
    if x.token != End && x.start == 0 {
      assert Respelt(cs, s, from, to) == s[..x.stop];
    }
  }

  /** A bare name is never followed by a name character, unless an operand starts there. */
  lemma HeadOfNonOperand(cs: Chars, s: string)
    requires cs.Sound()
    requires var x := Lex(cs, s); !IsOperand(x.token) && !x.token.Bad?
    ensures Ends(cs, s)
  {
    hide Close, NameRun, NumberEnd, Trim;
    var x := Lex(cs, s);
    if x.token != End && x.start == 0 {
      assert s[0..] == s;
    }
  }

  lemma TokensUnfold(cs: Chars, s: string)
    requires cs.Sound() && Lex(cs, s).token != End
    ensures var x := Lex(cs, s); Tokens(cs, s) == [x.token] + Tokens(cs, s[x.stop..])
    ensures Glueless(Tokens(cs, s)) ==> var x := Lex(cs, s); var y := Lex(cs, s[x.stop..]);
            && !x.token.Bad? && !y.token.Bad? && !(IsOperand(x.token) && IsOperand(y.token))
            && Glueless(Tokens(cs, s[x.stop..]))
  {
    hide Lex;
    var x := Lex(cs, s);
    var ts, us := Tokens(cs, s), Tokens(cs, s[x.stop..]);
    var y := Lex(cs, s[x.stop..]);
    assert forall i | 0 <= i < |us| :: us[i] == ts[i + 1];
    if Glueless(ts) && y.token != End {
      assert us[0] == y.token == ts[1] && ts[0] == x.token;
    }
  }

  /** Behind an operand comes no other operand, so nothing that could extend it. */
  lemma TailHead(cs: Chars, s: string, from: string, to: string)
    requires cs.Sound() && Glueless(Tokens(cs, s)) && Lex(cs, s).token != End
    ensures var x := Lex(cs, s); IsOperand(x.token) ==>
            && SameHead(s[x.stop..], Rewritten(cs, s[x.stop..], from, to))
            && Ends(cs, Rewritten(cs, s[x.stop..], from, to))
  {
    hide Lex, Tokens, Rewritten;
    var x := Lex(cs, s);
    TokensUnfold(cs, s);
    if IsOperand(x.token) {
      RewrittenHead(cs, s[x.stop..], from, to);
      HeadOfNonOperand(cs, s[x.stop..]);
    }
  }

  /** A text splits into blanks, its first token and the rest. */
  lemma LexSplits(cs: Chars, s: string)
    requires Lex(cs, s).token != End
    ensures var x := Lex(cs, s);
            && (forall i | 0 <= i < x.start :: cs.space(s[i])) && x.start < |s| && !cs.space(s[x.start])
            && First(cs, s[x.start..x.stop] + s[x.stop..]) == (x.token, x.stop - x.start)
  {
    hide First;
    var x := Lex(cs, s);
    assert s[x.start..x.stop] + s[x.stop..] == s[x.start..];
  }

  /** The respelt first token, in front of the rewritten rest, reads as the renamed token. */
  lemma RespeltReadsBack(cs: Chars, s: string, from: string, to: string)
    requires cs.Sound() && Referenceable(cs, to) && Glueless(Tokens(cs, s)) && Lex(cs, s).token != End
    ensures var x := Lex(cs, s); var text := Respelt(cs, s, from, to);
            First(cs, text + Rewritten(cs, s[x.stop..], from, to)) == (RenamedToken(cs, x.token, from, to), |text|)
  {
    hide First, Lex, Tokens, Rewritten;
    var x := Lex(cs, s);
    LexSplits(cs, s);
    TailHead(cs, s, from, to);
    TokensUnfold(cs, s);
    var tail := s[x.stop..];
    var out := Rewritten(cs, tail, from, to);
    if x.token.Ident? && x.token.name == from {
      QuotedReadsBack(cs, to, out);
    } else {
      FirstIsLocal(cs, s[x.start..x.stop], tail, out);
    }
  }

  lemma FirstSurvives(cs: Chars, s: string, from: string, to: string)
    requires cs.Sound() && Referenceable(cs, to) && Glueless(Tokens(cs, s)) && Lex(cs, s).token != End
    ensures var x := Lex(cs, s); var y := Lex(cs, Rewritten(cs, s, from, to));
            && y.token == RenamedToken(cs, x.token, from, to)
            && y.stop == x.start + |Respelt(cs, s, from, to)|
  {
    hide First, Lex, Tokens;
    var x := Lex(cs, s);
    var blanks, text := s[..x.start], Respelt(cs, s, from, to);
    var out := Rewritten(cs, s[x.stop..], from, to);
    assert Rewritten(cs, s, from, to) == blanks + (text + out);
    RespeltReadsBack(cs, s, from, to);
    LexSplits(cs, s);
    hide Rewritten;
    assert (text + out)[0] == text[0];
    LexIs(cs, blanks, text + out);
  }

  /**
    Renaming changes exactly the references: the rewritten text has the same
    tokens, with `from` read as `to`.
   */
  lemma {:induction false} RewritingRenamesTokens(cs: Chars, s: string, from: string, to: string)
    requires cs.Sound() && Referenceable(cs, to) && Glueless(Tokens(cs, s))
    ensures Tokens(cs, Rewritten(cs, s, from, to)) == Renamed(cs, Tokens(cs, s), from, to)
    decreases |s|
  {
    hide Lex;
    var x := Lex(cs, s);
    if x.token != End {
      var tail := s[x.stop..];
      TokensUnfold(cs, s);
      FirstSurvives(cs, s, from, to);
      RewritingRenamesTokens(cs, tail, from, to);
      var out := Rewritten(cs, tail, from, to);
      var text := s[..x.start] + Respelt(cs, s, from, to);
      assert Rewritten(cs, s, from, to) == text + out;
      assert (text + out)[|text|..] == out;
      TokensUnfold(cs, text + out);
      assert Tokens(cs, s)[1..] == Tokens(cs, tail);
    }
  }
}
