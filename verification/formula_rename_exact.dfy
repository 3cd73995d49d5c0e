/**
  Exactly when the rewritten formula is the renamed one: the names a parse reads
  are the names of its tree, in order, so a call keeps its name only if it is
  still in the text.
 */
module FormulaRenameExact {
  import opened Options
  import opened FormulaLexer
  import opened FormulaNames
  import opened FormulaBrackets
  import opened FormulaParser
  import opened FormulaRename

  // ---- The names of a tree -----------------------------------------------------

  /** Channels, functions and filters of a tree, in the order they are written. */
  function NamesOf(tree: Tree): seq<string>
    decreases tree, 0
  {
    match tree
    case Num(_) => []
    case Chan(name) => [name]
    case Bin(_, left, right) => NamesOf(left) + NamesOf(right)
    case Neg(inner) => NamesOf(inner)
    case Call(callee, args) => [callee] + NamesOfAll(args)
    case ZeroPhase(filter, args) => ["filtfilt", filter] + NamesOfAll(args)
  }

  function NamesOfAll(trees: seq<Tree>): seq<string>
    decreases trees, 1
  {
    if trees == [] then [] else NamesOf(trees[0]) + NamesOfAll(trees[1..])
  }

  /** A name occurs in a tree as a channel, or as a function or filter. */
  lemma {:induction false} NamesAreUses(tree: Tree, name: string)
    ensures name in NamesOf(tree) <==> Refers(tree, name) || Calls(tree, name)
    decreases tree, 0
  {
    match tree
    case Num(_) =>
    case Chan(_) =>
    case Bin(_, left, right) =>
      NamesAreUses(left, name);
      NamesAreUses(right, name);
    case Neg(inner) => NamesAreUses(inner, name);
    case Call(_, args) => AllNamesAreUses(args, name);
    case ZeroPhase(_, args) => AllNamesAreUses(args, name);
  }

  lemma {:induction false} AllNamesAreUses(trees: seq<Tree>, name: string)
    ensures name in NamesOfAll(trees) <==> exists i :: 0 <= i < |trees| && (Refers(trees[i], name) || Calls(trees[i], name))
    decreases trees, 1
  {
    if trees != [] {
      NamesAreUses(trees[0], name);
      AllNamesAreUses(trees[1..], name);
      var more := trees[1..];
      assert forall i | 0 < i < |trees| :: trees[i] == more[i - 1];
      assert forall i | 0 <= i < |more| :: more[i] == trees[i + 1];
    }
  }

  /** A renamed tree still makes the calls it made, and has as many names. */
  lemma {:induction false} RenamedKeepsCalls(tree: Tree, from: string, to: string)
    ensures Calls(tree, from) ==> Calls(RenamedTree(tree, from, to), from)
    ensures |NamesOf(RenamedTree(tree, from, to))| == |NamesOf(tree)|
    ensures Refers(tree, from) ==> to in NamesOf(RenamedTree(tree, from, to))
    ensures !Refers(tree, from) ==> RenamedTree(tree, from, to) == tree
    decreases tree, 0
  {
    match tree
    case Num(_) =>
    case Chan(_) =>
    case Bin(_, left, right) =>
      RenamedKeepsCalls(left, from, to);
      RenamedKeepsCalls(right, from, to);
    case Neg(inner) => RenamedKeepsCalls(inner, from, to);
    case Call(_, args) => AllKeepCalls(args, from, to);
    case ZeroPhase(_, args) => AllKeepCalls(args, from, to);
  }

  lemma {:induction false} AllKeepCalls(trees: seq<Tree>, from: string, to: string)
    ensures var r := RenamedTrees(trees, from, to);
            && (forall i | 0 <= i < |trees| :: Calls(trees[i], from) ==> Calls(r[i], from))
            && |NamesOfAll(r)| == |NamesOfAll(trees)|
            && ((exists i :: 0 <= i < |trees| && Refers(trees[i], from)) ==> to in NamesOfAll(r))
            && ((forall i | 0 <= i < |trees| :: !Refers(trees[i], from)) ==> r == trees)
    decreases trees, 1
  {
    if trees != [] {
      RenamedKeepsCalls(trees[0], from, to);
      AllKeepCalls(trees[1..], from, to);
      var more := trees[1..];
      assert forall i | 0 < i < |trees| :: trees[i] == more[i - 1];
      assert forall i | 0 <= i < |more| :: more[i] == trees[i + 1];
      assert RenamedTrees(trees, from, to)[1..] == RenamedTrees(more, from, to);
    }
  }

  // ---- A parse reads the names of its tree ---------------------------------------

  ghost predicate ReadsNames(ts: seq<Token>, r: Parsed<Tree>) {
    r.Done? ==> NamesIn(ts) == NamesOf(r.tree) + NamesIn(r.rest)
  }

  lemma NoName(ts: seq<Token>)
    requires ts != [] && !ts[0].Ident?
    ensures NamesIn(ts) == NamesIn(ts[1..])
  {
    assert [] + NamesIn(ts[1..]) == NamesIn(ts[1..]);
  }

  lemma {:induction false} ChainNames(level: nat, ts: seq<Token>)
    requires level <= 1
    ensures ReadsNames(ts, Chain(level, ts))
    decreases |ts|, 6 - 2 * level
  {
    OperandNames(level, ts);
    var r := Operand(level, ts);
    if r.Done? { TailNames(level, r.tree, r.rest); }
  }

  lemma {:induction false} OperandNames(level: nat, ts: seq<Token>)
    requires level <= 1
    ensures ReadsNames(ts, Operand(level, ts))
    decreases |ts|, 5 - 2 * level
  {
    if level == 0 { ChainNames(1, ts); } else { UnaryNames(ts); }
  }

  lemma {:induction false} TailNames(level: nat, left: Tree, ts: seq<Token>)
    requires level <= 1
    ensures var r := ChainTail(level, left, ts);
            r.Done? ==> NamesOf(left) + NamesIn(ts) == NamesOf(r.tree) + NamesIn(r.rest)
    decreases |ts|, 7
  {
    hide Operand;
    var op := OperatorAt(level, ts);
    if op.Some? {
      var r := Operand(level, ts[1..]);
      NoName(ts);
      if r.Done? {
        OperandNames(level, ts[1..]);
        TailNames(level, Bin(op.value, left, r.tree), r.rest);
        assert NamesOf(left) + (NamesOf(r.tree) + NamesIn(r.rest)) == NamesOf(left) + NamesOf(r.tree) + NamesIn(r.rest);
      }
    }
  }

  lemma {:induction false} UnaryNames(ts: seq<Token>)
    ensures ReadsNames(ts, Unary(ts))
    decreases |ts|, 2
  {
    if ts != [] && (ts[0] == Minus || ts[0] == Plus) {
      NoName(ts);
      UnaryNames(ts[1..]);
    } else {
      PrimaryNames(ts);
    }
  }

  lemma {:induction false} PrimaryNames(ts: seq<Token>)
    ensures ReadsNames(ts, Primary(ts))
    decreases |ts|, 1
  {
    hide Chain, CallOf;
    var r := Primary(ts);
    if r.Done? {
      if ts[0] == LParen {
        NoName(ts);
        ChainNames(0, ts[1..]);
        NoName(Chain(0, ts[1..]).rest);
      } else if ts[0].Number? {
        NoName(ts);
        assert [] + NamesIn(ts[1..]) == NamesIn(ts[1..]);
      } else if !ts[0].quoted && |ts| > 1 && ts[1] == LParen {
        NoName(ts[1..]);
        assert ts[1..][1..] == ts[2..];
        CallNames(ts[0].name, ts[2..]);
      }
    }
  }

  lemma {:induction false} CallNames(name: string, ts: seq<Token>)
    ensures var r := CallOf(name, ts);
            r.Done? ==> [name] + NamesIn(ts) == NamesOf(r.tree) + NamesIn(r.rest)
    decreases |ts|, 9
  {
    hide Args, Chain, NamesOfAll;
    var r := CallOf(name, ts);
    if r.Done? {
      if name == "filtfilt" {
        var args := Args(ts[2..]);
        ArgsNames(ts[2..]);
        NoName(args.rest);
        FilterNames(ts, args.tree, NamesIn(r.rest));
      } else if ts[0] == RParen {
        NoName(ts);
        NoArgsNoNames();
        CalleeNames(name, [], NamesIn(r.rest));
        assert [] + NamesIn(r.rest) == NamesIn(r.rest);
      } else {
        var args := Args(ts);
        ArgsNames(ts);
        NoName(args.rest);
        CalleeNames(name, args.tree, NamesIn(r.rest));
      }
    }
  }

  lemma CalleeNames(name: string, args: seq<Tree>, behind: seq<string>)
    ensures [name] + (NamesOfAll(args) + behind) == NamesOf(Call(name, args)) + behind
  {
    hide NamesOfAll;
  }

  lemma FilterNames(ts: seq<Token>, args: seq<Tree>, behind: seq<string>)
    requires |ts| >= 2 && ts[0].Ident? && ts[1] == Comma && NamesIn(ts[2..]) == NamesOfAll(args) + behind
    ensures ["filtfilt"] + NamesIn(ts) == NamesOf(ZeroPhase(ts[0].name, args)) + behind
  {
    hide NamesOfAll;
    NoName(ts[1..]);
    assert ts[1..][1..] == ts[2..];
    var filter := ts[0].name;
    assert NamesIn(ts) == [filter] + (NamesOfAll(args) + behind);
    hide NamesIn;
    assert ["filtfilt"] + ([filter] + (NamesOfAll(args) + behind)) == ["filtfilt", filter] + NamesOfAll(args) + behind;
  }

  lemma NoArgsNoNames()
    ensures NamesOfAll([]) == []
  {
  }

  lemma {:induction false} ArgsNames(ts: seq<Token>)
    ensures var r := Args(ts); r.Done? ==> NamesIn(ts) == NamesOfAll(r.tree) + NamesIn(r.rest)
    decreases |ts|, 8
  {
    hide Chain;
    var r, first := Args(ts), Chain(0, ts);
    if r.Done? {
      ChainNames(0, ts);
      assert r.tree[0] == first.tree;
      if first.rest != [] && first.rest[0] == Comma {
        NoName(first.rest);
        ArgsNames(first.rest[1..]);
        assert r.tree[1..] == Args(first.rest[1..]).tree;
        assert NamesOf(first.tree) + (NamesOfAll(r.tree[1..]) + NamesIn(r.rest))
            == NamesOf(first.tree) + NamesOfAll(r.tree[1..]) + NamesIn(r.rest);
      } else {
        assert NamesOfAll([first.tree]) == NamesOf(first.tree) + [] == NamesOf(first.tree);
      }
    }
  }

  /** The names of a formula's text are the names of its tree. */
  lemma ParseReadsNames(ts: seq<Token>)
    requires Expression(ts).Some?
    ensures NamesIn(ts) == NamesOf(Expression(ts).value)
  {
    ChainNames(0, ts);
    var tree := Expression(ts).value;
    assert NamesOf(tree) + [] == NamesOf(tree);
  }

  // ---- Exactly when renaming works -------------------------------------------------

  /** Every name in a text can be quoted. */
  lemma {:induction false} NamesInAreReferenceable(cs: Chars, s: string, name: string)
    requires cs.Sound() && name in NamesIn(Tokens(cs, s))
    ensures Referenceable(cs, name)
    decreases |s|
  {
    hide First, Referenceable;
    var x := Lex(cs, s);
    if x.token == End {
      TokensOfBlank(cs, s);
    } else {
      CleanUnfold(cs, s);
      if x.token.Ident? && x.token.name == name {
        ReadNamesAreReferenceable(cs, s[x.start..]);
      } else {
        NamesInAreReferenceable(cs, s[x.stop..], name);
      }
    }
  }

  /** Where the old name does not occur, the text stays. */
  lemma {:induction false} UnusedStays(cs: Chars, s: string, from: string, to: string)
    requires cs.Sound() && from !in NamesIn(Tokens(cs, s))
    ensures Rewritten(cs, s, from, to) == s
    decreases |s|
  {
    hide Lex, Tokens;
    var x := Lex(cs, s);
    if x.token != End {
      CleanUnfold(cs, s);
      UnusedStays(cs, s[x.stop..], from, to);
      assert s == s[..x.start] + s[x.start..x.stop] + s[x.stop..];
    }
  }

  lemma {:induction false} RenamedHasNoOld(cs: Chars, ts: seq<Token>, from: string, to: string)
    requires from != to
    ensures from !in NamesIn(Renamed(cs, ts, from, to))
  {
    if ts != [] {
      RenamedHasNoOld(cs, ts[1..], from, to);
      assert Renamed(cs, ts, from, to)[1..] == Renamed(cs, ts[1..], from, to);
    }
  }

  /** If the rewritten text parses to the renamed tree, the condition holds. */
  lemma WhenRenamed(cs: Chars, expr: string, from: string, to: string)
    requires cs.Sound() && from != to && Expression(Tokens(cs, expr)).Some?
    requires var e := Expression(Tokens(cs, expr)).value; IsTrimmed(cs, to) || Refers(e, from) || !Calls(e, from)
    requires Expression(Tokens(cs, Rewritten(cs, expr, from, to)))
          == Some(RenamedTree(Expression(Tokens(cs, expr)).value, from, to))
    ensures var e := Expression(Tokens(cs, expr)).value;
            !Calls(e, from) && (Refers(e, from) ==> Referenceable(cs, to))
  {
    hide Tokens, Rewritten, Referenceable, Expression, NamesOf, NamesIn, Clean;
    var out := Rewritten(cs, expr, from, to);
    var ts, us := Tokens(cs, expr), Tokens(cs, out);
    var e := Expression(ts).value;
    ParseReadsNames(ts);
    ParseReadsNames(us);
    RenamedKeepsCalls(e, from, to);
    if Refers(e, from) { NamesInAreReferenceable(cs, out, to); }
    if Calls(e, from) {
      NamesAreUses(RenamedTree(e, from, to), from);
      NamesAreUses(e, from);
      ParsedIsTidy(ts);
      ParsedIsTidy(us);
      if Referenceable(cs, to) {
        RewritingRenamesTokens(cs, expr, from, to);
        RenamedHasNoOld(cs, ts, from, to);
      } else {
        GluelessIsClean(ts);
        GluelessIsClean(us);
        UnquotableAddsNames(cs, expr, from, to);
      }
    }
  }

  lemma GluelessIsClean(ts: seq<Token>)
    requires Glueless(ts)
    ensures Clean(ts)
  {
  }

  /**
    Renaming in a formula that parses gives the renamed formula if and only if
    the old name is not used as a function or filter, and the new name can be
    quoted where it is needed.  Only blanks around the new name, in formulas that
    use the old one as a function and not as a channel, are outside this.
   */
  lemma RenameIsExact(cs: Chars, expr: string, from: string, to: string)
    requires cs.Sound() && from != to && Expression(Tokens(cs, expr)).Some?
    requires var e := Expression(Tokens(cs, expr)).value; IsTrimmed(cs, to) || Refers(e, from) || !Calls(e, from)
    ensures var e := Expression(Tokens(cs, expr)).value;
            Expression(Tokens(cs, Rewritten(cs, expr, from, to))) == Some(RenamedTree(e, from, to))
            <==> !Calls(e, from) && (Refers(e, from) ==> Referenceable(cs, to))
  {
    hide Tokens, Rewritten, Referenceable, Expression, NamesOf, NamesIn;
    var ts := Tokens(cs, expr);
    var e := Expression(ts).value;
    if Expression(Tokens(cs, Rewritten(cs, expr, from, to))) == Some(RenamedTree(e, from, to)) {
      WhenRenamed(cs, expr, from, to);
    } else if !Calls(e, from) {
      if Refers(e, from) {
        if Referenceable(cs, to) {
          ParsedIsTidy(ts);
          RewritingRenamesTokens(cs, expr, from, to);
          ExpressionRenamed(cs, ts, from, to);
        }
      } else {
        ParseReadsNames(ts);
        NamesAreUses(e, from);
        UnusedStays(cs, expr, from, to);
        RenamedKeepsCalls(e, from, to);
      }
    }
  }

  // ---- Blanks around the new name --------------------------------------------------

  /** One token in front of a text, through the tokeniser and the rewriting. */
  lemma OneToken(cs: Chars, u: string, tail: string, token: Token, from: string, to: string)
    requires cs.Sound() && u != "" && !cs.space(u[0]) && First(cs, u + tail) == (token, |u|) && token != End
    ensures Tokens(cs, u + tail) == [token] + Tokens(cs, tail)
    ensures Rewritten(cs, u + tail, from, to)
         == (if token.Ident? && token.name == from then Quoted(cs, to) else u) + Rewritten(cs, tail, from, to)
  {
    hide First, Quoted;
    var s := u + tail;
    LexHere(cs, s);
    hide Lex;
    assert s[..0] == "" && s[0..|u|] == u && s[|u|..] == tail;
    TokensUnfold(cs, s);
    assert Respelt(cs, s, from, to) == if token.Ident? && token.name == from then Quoted(cs, to) else u;
    assert "" + Respelt(cs, s, from, to) == Respelt(cs, s, from, to);
  }

  lemma LexHere(cs: Chars, s: string)
    requires s != "" && !cs.space(s[0])
    ensures Lex(cs, s) == Lexeme(First(cs, s).0, 0, First(cs, s).1)
  {
    hide First;
    assert "" + s == s;
    LexIs(cs, "", s);
  }

  /** A filter of a channel, and its tokens. */
  const FilterTokens: seq<Token> :=
    [Ident("filtfilt", false), LParen, Ident("Filter", true), Comma, Ident("x", true), RParen]

  function FilterText(name: string): string { "filtfilt" + ("(" + (("[" + name + "]") + ("," + ("[x]" + (")" + ""))))) }

  lemma FilterReads(cs: Chars, name: string, to: string)
    requires cs.Sound() && cs.letter('f') && cs.alnum('i') && cs.alnum('l') && cs.alnum('t') && cs.alnum('x')
    requires Balanced(name) && Trim(cs, name) == "Filter"
    ensures Tokens(cs, FilterText(name)) == FilterTokens
    ensures Rewritten(cs, FilterText(name), "Filter", to)
         == "filtfilt" + ("(" + (Quoted(cs, to) + ("," + ("[x]" + (")" + "")))))
  {
    hide First, Tokens, Rewritten, Quoted, Balanced, Trim;
    var t5 := ")" + "";
    var t4 := "[x]" + t5;
    var t3 := "," + t4;
    var t2 := ("[" + name + "]") + t3;
    var t1 := "(" + t2;
    NothingLeft(cs, "Filter", to);
    SignReads(cs, ")", "", RParen);
    OneToken(cs, ")", "", RParen, "Filter", to);
    ChannelReads(cs, t5);
    OneToken(cs, "[x]", t5, Ident("x", true), "Filter", to);
    SignReads(cs, ",", t4, Comma);
    OneToken(cs, ",", t4, Comma, "Filter", to);
    PaddedReads(cs, name, t3);
    OneToken(cs, "[" + name + "]", t3, Ident("Filter", true), "Filter", to);
    SignReads(cs, "(", t2, LParen);
    OneToken(cs, "(", t2, LParen, "Filter", to);
    CallReads(cs, t2);
    OneToken(cs, "filtfilt", t1, Ident("filtfilt", false), "Filter", to);
  }

  lemma SignReads(cs: Chars, u: string, v: string, token: Token)
    requires cs.Sound() && u in {"(", ",", ")"} && token == Symbol(u[0])
    ensures First(cs, u + v) == (token, |u|) && token != End && !cs.space(u[0])
  {
  }

  lemma ChannelReads(cs: Chars, v: string)
    requires cs.Sound() && cs.alnum('x')
    ensures First(cs, "[x]" + v) == (Ident("x", true), 3)
  {
    NoBrackets("x");
    BracketedReadsBack(cs, "x", v);
    assert "[" + "x" + "]" + v == "[x]" + v;
  }

  lemma CallReads(cs: Chars, v: string)
    requires cs.Sound() && cs.letter('f') && cs.alnum('i') && cs.alnum('l') && cs.alnum('t')
    ensures First(cs, "filtfilt" + ("(" + v)) == (Ident("filtfilt", false), 8) && !cs.space('f')
  {
    PlainReadsBack(cs, "filtfilt", "(" + v);
  }

  lemma NothingLeft(cs: Chars, from: string, to: string)
    requires cs.Sound()
    ensures Tokens(cs, "") == [] && Rewritten(cs, "", from, to) == ""
  {
  }

  lemma PaddedReads(cs: Chars, name: string, v: string)
    requires Balanced(name) && Trim(cs, name) == "Filter"
    ensures First(cs, "[" + name + "]" + v) == (Ident("Filter", true), |name| + 2)
  {
    var s := "[" + name + "]" + v;
    CloseOfBracketed(name, v);
    assert s[1..] == name + "]" + v;
    assert s[1..][..|name|] == name;
  }

  /** What is outside: a filter renamed to itself with a blank in front is still that filter. */
  lemma PaddingEscapes(cs: Chars)
    requires cs.Sound() && cs.letter('f') && cs.alnum('i') && cs.alnum('l') && cs.alnum('t') && cs.alnum('x')
    requires cs.alnum('F') && cs.alnum('r')
    ensures var expr, e := FilterText("Filter"), ZeroPhase("Filter", [Chan("x")]);
            && Expression(Tokens(cs, expr)) == Some(e) && Calls(e, "Filter")
            && Expression(Tokens(cs, Rewritten(cs, expr, "Filter", " Filter"))) == Some(RenamedTree(e, "Filter", " Filter"))
  {
    NoBrackets("Filter");
    NoBrackets(" Filter");
    assert Trim(cs, " Filter") == "Filter" by { assert " Filter"[1..] == "Filter"; }
    assert !Plain(cs, " Filter");
    hide Tokens, Rewritten, Trim;
    FilterReads(cs, "Filter", " Filter");
    FilterReads(cs, " Filter", " Filter");
    FilterParses();
  }

  lemma FilterParses()
    ensures var e := ZeroPhase("Filter", [Chan("x")]);
            Expression(FilterTokens) == Some(e) && RenamedTree(e, "Filter", " Filter") == e && Calls(e, "Filter")
  {
    var ts := FilterTokens;
    assert ts[2..] == [Ident("Filter", true), Comma, Ident("x", true), RParen];
    var args := [Ident("x", true), RParen];
    assert ts[2..][2..] == args;
    assert Chain(0, args) == Done(Chan("x"), [RParen]) by { assert args[1..] == [RParen]; }
    assert Args(args) == Done([Chan("x")], [RParen]);
    assert [RParen][1..] == [];
    assert CallOf("filtfilt", ts[2..]) == Done(ZeroPhase("Filter", [Chan("x")]), []);
    hide CallOf;
    assert Primary(ts) == CallOf("filtfilt", ts[2..]);
  }
}
