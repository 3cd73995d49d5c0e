/**
  Renaming to a name that cannot be quoted: its brackets close early or never,
  so the rewritten text holds an error token, or more names than before.
 */
module FormulaBrackets {
  import opened FormulaLexer
  import opened FormulaNames

  /** No error tokens. */
  ghost predicate Clean(ts: seq<Token>) { forall i | 0 <= i < |ts| :: !ts[i].Bad? }

  /** The names among the tokens, in order. */
  function NamesIn(ts: seq<Token>): (names: seq<string>) {
    if ts == [] then [] else (if ts[0].Ident? then [ts[0].name] else []) + NamesIn(ts[1..])
  }

  // ---- Clean texts are balanced ------------------------------------------------

  lemma {:induction false} NetAppend(a: string, b: string)
    ensures Net(a + b) == Net(a) + Net(b)
  {
    if b == "" {
      assert a + b == a;
    } else {
      var n := |b| - 1;
      assert (a + b)[..|a + b| - 1] == a + b[..n];
      NetAppend(a, b[..n]);
    }
  }

  lemma {:induction false} NoBrackets(u: string)
    requires forall i | 0 <= i < |u| :: u[i] != '[' && u[i] != ']'
    ensures Net(u) == 0 && Balanced(u)
  {
    if u != "" {
      var n := |u| - 1;
      NoBrackets(u[..n]);
      forall k | 0 <= k <= |u|
        ensures Net(u[..k]) >= 0
      {
        if k <= n { assert u[..n][..k] == u[..k]; } else { assert u[..k] == u; }
      }
    }
  }

  lemma BracketBalance(cs: Chars, s: string)
    requires s != "" && s[0] == '[' && !First(cs, s).0.Bad?
    ensures var u := s[..First(cs, s).1];
            Balanced(u) && forall k | 0 < k < |u| :: Net(u[..k]) >= 1
  {
    ClosedBracket(cs, s);
    var inner, k := s[1..], Close(s[1..], 1);
    CloseFindsMatch(inner, 1);
    hide First, Close;
    var u := s[..k + 2];
    forall j | 0 < j < |u|
      ensures Net(u[..j]) == 1 + Net(inner[..j - 1])
    {
      assert u[..j] == "[" + inner[..j - 1];
      OneBracket(inner[..j - 1]);
    }
    assert u[..|u| - 1] == u[..k + 1] && u[..|u|] == u && u[..0] == "" && u[k + 1] == ']';
    assert forall j | 0 <= j <= k :: 1 + Net(inner[..j]) >= 1;
  }

  lemma OneBracket(s: string)
    ensures Net("[" + s) == 1 + Net(s)
  {
    NetAppend("[", s);
    assert "["[..0] == "";
  }

  /** Outside a bracketed name there are no brackets in a token. */
  lemma OtherHasNone(cs: Chars, s: string)
    requires cs.Sound() && s != "" && s[0] != '[' && !First(cs, s).0.Bad?
    ensures forall i | 0 <= i < First(cs, s).1 :: s[i] != '[' && s[i] != ']'
  {
    if cs.letter(s[0]) || s[0] == '_' {
      assert forall i | 0 <= i < NameRun(cs, s) :: cs.Name(s[i]);
    } else if cs.digit(s[0]) || s[0] == '.' {
      forall i | 0 <= i < NumberEnd(cs, s, 0)
        ensures s[i] != '[' && s[i] != ']'
      {
        assert InNumber(cs, s, i) && (cs.digit(s[i]) ==> cs.alnum(s[i]));
      }
    }
  }

  lemma FirstIsBalanced(cs: Chars, s: string)
    requires cs.Sound() && s != "" && !First(cs, s).0.Bad?
    ensures Balanced(s[..First(cs, s).1])
  {
    if s[0] == '[' {
      BracketBalance(cs, s);
    } else {
      OtherHasNone(cs, s);
      NoBrackets(s[..First(cs, s).1]);
    }
  }

  lemma BalancedAppend(a: string, b: string)
    requires Balanced(a) && Balanced(b)
    ensures Balanced(a + b)
  {
    NetAppend(a, b);
    forall k | 0 <= k <= |a + b|
      ensures Net((a + b)[..k]) >= 0
    {
      if k <= |a| {
        assert (a + b)[..k] == a[..k];
      } else {
        assert (a + b)[..k] == a + b[..k - |a|];
        NetAppend(a, b[..k - |a|]);
        assert Net(b[..k - |a|]) >= 0;
      }
    }
  }

  lemma BlanksBalance(cs: Chars, s: string)
    requires cs.Sound() && forall i | 0 <= i < |s| :: cs.space(s[i])
    ensures Balanced(s)
  {
    NoBrackets(s);
  }

  /** The blanks and the first token of a text that starts well. */
  lemma HeadIsBalanced(cs: Chars, s: string)
    requires cs.Sound() && Lex(cs, s).token != End && !Lex(cs, s).token.Bad?
    ensures Balanced(s[..Lex(cs, s).stop]) && Net(s[..Lex(cs, s).stop]) == 0
  {
    hide First;
    var x := Lex(cs, s);
    BlanksBalance(cs, s[..x.start]);
    FirstIsBalanced(cs, s[x.start..]);
    assert s[x.start..][..x.stop - x.start] == s[x.start..x.stop];
    BalancedAppend(s[..x.start], s[x.start..x.stop]);
    assert s[..x.start] + s[x.start..x.stop] == s[..x.stop];
  }

  lemma CleanUnfold(cs: Chars, s: string)
    requires cs.Sound() && Lex(cs, s).token != End
    ensures var x := Lex(cs, s); var us := Tokens(cs, s[x.stop..]);
            && (Clean(Tokens(cs, s)) <==> !x.token.Bad? && Clean(us))
            && NamesIn(Tokens(cs, s)) == (if x.token.Ident? then [x.token.name] else []) + NamesIn(us)
  {
    hide Lex;
    var x := Lex(cs, s);
    CleanFirst(x.token, Tokens(cs, s[x.stop..]));
  }

  lemma CleanFirst(t: Token, us: seq<Token>)
    ensures Clean([t] + us) <==> !t.Bad? && Clean(us)
    ensures NamesIn([t] + us) == (if t.Ident? then [t.name] else []) + NamesIn(us)
  {
    var ts := [t] + us;
    assert ts[1..] == us && ts[0] == t;
    assert forall i | 0 <= i < |us| :: us[i] == ts[i + 1];
  }

  lemma {:induction false} CleanIsBalanced(cs: Chars, s: string)
    requires cs.Sound() && Clean(Tokens(cs, s))
    ensures Balanced(s)
    decreases |s|
  {
    hide Tokens;
    var x := Lex(cs, s);
    if x.token == End {
      BlanksBalance(cs, s);
    } else {
      hide Lex, Balanced;
      CleanUnfold(cs, s);
      CleanIsBalanced(cs, s[x.stop..]);
      HeadIsBalanced(cs, s);
      BalancedAppend(s[..x.stop], s[x.stop..]);
      assert s[..x.stop] + s[x.stop..] == s;
    }
  }

  // ---- Where a bracketed name ends -----------------------------------------------

  /** A clean text cut behind a closing bracket at depth zero: a bracketed name ends right there. */
  lemma {:induction false} NameEndsHere(cs: Chars, v: string, w: string)
    requires cs.Sound() && Clean(Tokens(cs, v + w)) && v != "" && v[|v| - 1] == ']' && Net(v) == 0
    ensures Clean(Tokens(cs, w)) && |NamesIn(Tokens(cs, v + w))| >= 1 + |NamesIn(Tokens(cs, w))|
    decreases |v|
  {
    hide Tokens, Lex, Balanced, Clean, NamesIn;
    var s := v + w;
    var stop := Lex(cs, s).stop;
    TokenBefore(cs, s, |v| - 1);
    CleanUnfold(cs, s);
    HeadIsBalanced(cs, s);
    if stop < |v| {
      RestIsLevel(v, w, stop);
      NameEndsHere(cs, v[stop..], w);
    } else {
      TokenAtBracket(cs, s, |v| - 1);
      assert s[..|v|] == v && s[|v|..] == w;
      if stop > |v| { DepthInside(cs, s, |v|); }
    }
  }

  lemma RestIsLevel(v: string, w: string, at: nat)
    requires at < |v| && v[|v| - 1] == ']' && Net(v) == 0 && Net((v + w)[..at]) == 0
    ensures (v + w)[at..] == v[at..] + w && Net(v[at..]) == 0 && v[at..][|v| - at - 1] == ']'
  {
    hide Net;
    CutInFront(v, w, at);
    NetAppend(v[..at], v[at..]);
  }

  lemma CutInFront(v: string, w: string, at: nat)
    requires at <= |v|
    ensures (v + w)[..at] == v[..at] && v[..at] + v[at..] == v && (v + w)[at..] == v[at..] + w
  {
  }

  lemma TokenBefore(cs: Chars, s: string, at: nat)
    requires cs.Sound() && at < |s| && s[at] == ']'
    ensures Lex(cs, s).token != End && Lex(cs, s).start <= at
  {
    assert !cs.space(']');
  }

  /** Only a bracketed name holds a closing bracket. */
  lemma TokenAtBracket(cs: Chars, s: string, at: nat)
    requires cs.Sound() && at < |s| && s[at] == ']'
    requires var x := Lex(cs, s); x.token != End && !x.token.Bad? && x.start <= at < x.stop
    ensures Lex(cs, s).token.Ident? && s[Lex(cs, s).start] == '['
  {
    var x := Lex(cs, s);
    var rest := s[x.start..];
    assert rest[at - x.start] == ']';
    if rest[0] != '[' { OtherHasNone(cs, rest); }
  }

  /** Inside a bracketed name the depth is not zero. */
  lemma DepthInside(cs: Chars, s: string, at: nat)
    requires cs.Sound() && Lex(cs, s).token.Ident? && s[Lex(cs, s).start] == '['
    requires Lex(cs, s).start < at < Lex(cs, s).stop
    ensures Net(s[..at]) >= 1
  {
    hide First, Net;
    var x := Lex(cs, s);
    BlanksAreFlat(cs, s);
    DepthOfFirst(cs, s[x.start..], at - x.start);
    CutBehind(s, x.start, at);
    NetAppend(s[..x.start], s[x.start..][..at - x.start]);
  }

  lemma DepthOfFirst(cs: Chars, rest: string, at: nat)
    requires rest != "" && rest[0] == '[' && !First(cs, rest).0.Bad? && 0 < at < First(cs, rest).1
    ensures Net(rest[..at]) >= 1
  {
    BracketBalance(cs, rest);
    hide First, Net, Balanced;
    assert rest[..First(cs, rest).1][..at] == rest[..at];
  }

  lemma CutBehind(s: string, start: nat, at: nat)
    requires start <= at <= |s|
    ensures s[..at] == s[..start] + s[start..][..at - start]
  {
  }

  // ---- Rewriting to an unquotable name ---------------------------------------------

  /** Rewriting keeps the next character, or puts a bracket in its place. */
  lemma BracketedHead(cs: Chars, s: string, from: string, to: string)
    requires cs.Sound() && !Plain(cs, to)
    ensures SameHead(s, Rewritten(cs, s, from, to))
  {
    hide Lex;
    var x := Lex(cs, s);
    if x.token != End && x.start == 0 {
      assert Respelt(cs, s, from, to)[0] == '[' || Respelt(cs, s, from, to) == s[..x.stop];
    }
  }

  /** A token that is not renamed is still there, in front of the rewritten rest. */
  lemma UntouchedFirst(cs: Chars, s: string, from: string, to: string)
    requires cs.Sound() && !Plain(cs, to)
    requires var x := Lex(cs, s); x.token != End && !x.token.Bad? && !(x.token.Ident? && x.token.name == from)
    ensures var x, r := Lex(cs, s), Rewritten(cs, s, from, to);
            Lex(cs, r) == x && r[x.stop..] == Rewritten(cs, s[x.stop..], from, to)
  {
    hide First, Lex, Tokens, Quoted;
    var x := Lex(cs, s);
    var blanks, u, tail := s[..x.start], s[x.start..x.stop], s[x.stop..];
    var out := Rewritten(cs, tail, from, to);
    LexSplits(cs, s);
    BracketedHead(cs, tail, from, to);
    FirstIsLocal(cs, u, tail, out);
    assert Rewritten(cs, s, from, to) == blanks + u + out;
    hide Rewritten;
    InFront(blanks, u, out);
    assert (u + out)[0] == u[0] == s[x.start];
    LexIs(cs, blanks, u + out);
  }

  lemma InFront(blanks: string, u: string, out: string)
    ensures blanks + u + out == blanks + (u + out) && (blanks + (u + out))[|blanks| + |u|..] == out
  {
  }

  /** Where a name is renamed, the quoted new one stands in front of the rewritten rest. */
  lemma RespeltFirst(cs: Chars, s: string, from: string, to: string)
    requires cs.Sound()
    requires var x := Lex(cs, s); x.token.Ident? && x.token.name == from
    ensures var x := Lex(cs, s); var rest := Quoted(cs, to) + Rewritten(cs, s[x.stop..], from, to);
            && Rewritten(cs, s, from, to) == s[..x.start] + rest
            && Tokens(cs, Rewritten(cs, s, from, to)) == Tokens(cs, rest)
  {
    hide First, Lex, Tokens, Quoted;
    var x := Lex(cs, s);
    LexSplits(cs, s);
    var out, text := Rewritten(cs, s[x.stop..], from, to), Quoted(cs, to);
    assert Rewritten(cs, s, from, to) == s[..x.start] + text + out == s[..x.start] + (text + out);
    BlanksInFront(cs, s[..x.start], text + out);
  }

  lemma {:induction false} BlanksInFront(cs: Chars, blanks: string, rest: string)
    requires cs.Sound() && forall i | 0 <= i < |blanks| :: cs.space(blanks[i])
    ensures Tokens(cs, blanks + rest) == Tokens(cs, rest)
  {
    if blanks == "" {
      assert blanks + rest == rest;
    } else {
      assert (blanks + rest)[1..] == blanks[1..] + rest;
      LeadingBlank(cs, blanks + rest);
      BlanksInFront(cs, blanks[1..], rest);
    }
  }

  /** Renaming to a name with too many opening brackets leaves too many of them. */
  lemma {:induction false} RewrittenNet(cs: Chars, s: string, from: string, to: string)
    requires cs.Sound() && !Plain(cs, to) && Net(to) >= 0 && Clean(Tokens(cs, s))
    ensures Net(Rewritten(cs, s, from, to)) >= 0
    decreases |s|
  {
    hide Lex, Tokens, Balanced;
    var x := Lex(cs, s);
    if x.token == End {
      CleanIsBalanced(cs, s);
      assert Net(s) == 0 by { BalancedNet(s); }
      assert Rewritten(cs, s, from, to) == s;
    } else {
      CleanUnfold(cs, s);
      RewrittenNet(cs, s[x.stop..], from, to);
      HeadIsBalanced(cs, s);
      RespeltNet(cs, s, from, to);
      var front, out := s[..x.start] + Respelt(cs, s, from, to), Rewritten(cs, s[x.stop..], from, to);
      assert Rewritten(cs, s, from, to) == front + out;
      hide Rewritten, Net;
      NetAppend(front, out);
    }
  }

  /** Respelling a token leaves its brackets level, or opens as many more as the new name does. */
  lemma RespeltNet(cs: Chars, s: string, from: string, to: string)
    requires cs.Sound() && !Plain(cs, to) && Net(to) >= 0
    requires var x := Lex(cs, s); x.token != End && !x.token.Bad?
    ensures Net(s[..Lex(cs, s).start] + Respelt(cs, s, from, to)) >= 0
  {
    var x := Lex(cs, s);
    HeadIsBalanced(cs, s);
    hide Lex, Net, Balanced;
    if x.token.Ident? && x.token.name == from {
      BlanksAreFlat(cs, s);
      BracketedNet(to);
      NetAppend(s[..x.start], "[" + to + "]");
    } else {
      assert s[..x.start] + s[x.start..x.stop] == s[..x.stop];
    }
  }

  lemma BalancedNet(s: string)
    requires Balanced(s)
    ensures Net(s) == 0
  {
  }

  lemma BlanksAreFlat(cs: Chars, s: string)
    requires cs.Sound()
    ensures Net(s[..Lex(cs, s).start]) == 0
  {
    var n := Lex(cs, s).start;
    BlanksBalance(cs, s[..n]);
  }

  lemma BracketedNet(name: string)
    ensures Net("[" + name + "]") == Net(name)
  {
    NetAppend("[" + name, "]");
    NetAppend("[", name);
    assert "["[..0] == "" && "]"[..0] == "";
    assert Net("[") == 1 && Net("]") == -1;
  }

  /** A trimmed name that cannot be quoted leaves an error token, or a second name. */
  lemma UnquotableGivesMore(cs: Chars, to: string, out: string)
    requires cs.Sound() && !Referenceable(cs, to) && IsTrimmed(cs, to)
    requires Clean(Tokens(cs, "[" + to + "]" + out)) && (Net(to) >= 0 ==> Net(out) >= 0)
    ensures Clean(Tokens(cs, out)) && |NamesIn(Tokens(cs, "[" + to + "]" + out))| >= 2 + |NamesIn(Tokens(cs, out))|
  {
    var v := "[" + to + "]";
    var s := v + out;
    hide Tokens, Lex, First, NamesIn, Clean, Referenceable, IsTrimmed;
    CleanIsBalanced(cs, s);
    LevelAtEnd(to, out);
    hide Balanced;
    OpensWithBracket(cs, s);
    CleanUnfold(cs, s);
    var stop := Lex(cs, s).stop;
    assert s[1..] == to + ("]" + out);
    FirstCloses(cs, s, to, "]" + out);
    assert v[..stop] == s[..stop] && v[stop..] + out == s[stop..] && v[..stop] + v[stop..] == v;
    HeadIsBalanced(cs, s);
    NetAppend(v[..stop], v[stop..]);
    NameEndsHere(cs, v[stop..], out);
  }

  lemma LevelAtEnd(to: string, out: string)
    requires Balanced("[" + to + "]" + out) && (Net(to) >= 0 ==> Net(out) >= 0)
    ensures Net(to) == 0 && Net("[" + to + "]") == 0
  {
    var v := "[" + to + "]";
    BracketedNet(to);
    NetAppend(v, out);
    assert (v + out)[..|v|] == v;
  }

  lemma OpensWithBracket(cs: Chars, s: string)
    requires cs.Sound() && s != "" && s[0] == '['
    ensures Lex(cs, s) == Lexeme(First(cs, s).0, 0, First(cs, s).1)
    ensures First(cs, s).0.Bad? || First(cs, s).0.Ident?
  {
    hide First;
    assert "" + s == s;
    LexIs(cs, "", s);
    BracketToken(cs, s);
  }

  lemma BracketToken(cs: Chars, s: string)
    requires s != "" && s[0] == '['
    ensures First(cs, s).0.Bad? || First(cs, s).0.Ident?
  {
  }

  /** The opening bracket closes inside the name. */
  lemma FirstCloses(cs: Chars, s: string, to: string, rest: string)
    requires !Referenceable(cs, to) && IsTrimmed(cs, to) && Net(to) == 0
    requires s != "" && s[0] == '[' && s[1..] == to + rest && rest != "" && rest[0] == ']'
    requires !First(cs, s).0.Bad?
    ensures First(cs, s).1 < |to| + 2
  {
    NotPlain(cs, to);
    hide First, Close, IsTrimmed, Plain, Referenceable, Net;
    ClosedBracket(cs, s);
    var k := Close(s[1..], 1);
    CloseFindsMatch(s[1..], 1);
    if k >= |to| {
      LateIsBalanced(to, rest, k);
      assert s[1..] == rest;
      EmptyCloses(rest);
    }
  }

  lemma ClosedBracket(cs: Chars, s: string)
    requires s != "" && s[0] == '[' && !First(cs, s).0.Bad?
    ensures 0 < Close(s[1..], 1) < |s| - 1 && First(cs, s).1 == Close(s[1..], 1) + 2
  {
    hide Close;
    var inner := s[1..];
    assert inner[..0] == "";
    assert Trim(cs, "") == "";
  }

  lemma EmptyCloses(rest: string)
    requires rest != "" && rest[0] == ']'
    ensures Close(rest, 1) == 0
  {
  }

  /** A bracket that stays open throughout a level name finds the name balanced. */
  lemma LateIsBalanced(name: string, rest: string, k: nat)
    requires Net(name) == 0 && |name| <= k && Closes(name + rest, 1, k)
    ensures Balanced(name)
  {
    var inner := name + rest;
    forall j | 0 <= j <= |name|
      ensures Net(name[..j]) >= 0
    {
      assert inner[..j] == name[..j];
      assert 1 + Net(inner[..j]) >= 1;
    }
  }

  /** So a rewritten text with no error token holds more names, if any was renamed. */
  lemma {:induction false} UnquotableAddsNames(cs: Chars, s: string, from: string, to: string)
    requires cs.Sound() && !Referenceable(cs, to) && IsTrimmed(cs, to)
    requires Clean(Tokens(cs, s)) && Clean(Tokens(cs, Rewritten(cs, s, from, to)))
    ensures var old_, new_ := NamesIn(Tokens(cs, s)), NamesIn(Tokens(cs, Rewritten(cs, s, from, to)));
            |new_| >= |old_| + if from in old_ then 1 else 0
    decreases |s|
  {
    hide Lex, Tokens, NamesIn, Referenceable, Clean;
    NotPlain(cs, to);
    var x := Lex(cs, s);
    var r := Rewritten(cs, s, from, to);
    if x.token == End {
      assert r == s;
      TokensOfBlank(cs, s);
      NoNames();
    } else {
      CleanUnfold(cs, s);
      var tail := s[x.stop..];
      var out := Rewritten(cs, tail, from, to);
      if x.token.Ident? && x.token.name == from {
        RespeltFirst(cs, s, from, to);
        if Net(to) >= 0 { RewrittenNet(cs, tail, from, to); }
        UnquotableGivesMore(cs, to, out);
      } else {
        UntouchedFirst(cs, s, from, to);
        CleanUnfold(cs, r);
      }
      UnquotableAddsNames(cs, tail, from, to);
    }
  }

  lemma NoNames()
    ensures NamesIn([]) == []
  {
  }

  lemma NotPlain(cs: Chars, name: string)
    requires !Referenceable(cs, name)
    ensures !Plain(cs, name) && Quoted(cs, name) == "[" + name + "]"
    ensures IsTrimmed(cs, name) && Balanced(name) ==> name == ""
  {
  }
}
