/**
  What the text of a formula means, said without the parser: the value of a text put
  together from other texts follows from theirs by arithmetic, and a filter run
  forth and back has no net shift.
 */
module FormulaLaws {
  import opened Options
  import opened FormulaLexer
  import opened FormulaNames
  import opened FormulaBrackets
  import opened FormulaParser
  import opened FormulaPrinting
  import opened FormulaRename

  // ---- Texts side by side ------------------------------------------------------

  /** A number at the very end of the text that a sign would continue, as in 2e. */
  ghost predicate OpenExponent(cs: Chars, s: string)
    requires cs.Sound()
  {
    var ts := Tokens(cs, s);
    s != "" && (s[|s| - 1] == 'e' || s[|s| - 1] == 'E') && ts != [] && ts[|ts| - 1].Number?
  }

  /** Text w, put behind s, does not run into its last token. */
  ghost predicate Apart(cs: Chars, s: string, w: string)
    requires cs.Sound()
  {
    w != "" ==> !cs.Name(w[0]) && (w[0] == '+' || w[0] == '-' ==> !OpenExponent(cs, s))
  }

  /** The last token of a text stays what it is. */
  lemma LastIsLocal(cs: Chars, u: string, w: string)
    requires cs.Sound() && u != "" && First(cs, u).1 == |u| && !First(cs, u).0.Bad?
    requires w != "" ==> !cs.Name(w[0])
    requires w != "" && (w[0] == '+' || w[0] == '-') && (u[|u| - 1] == 'e' || u[|u| - 1] == 'E') ==> !First(cs, u).0.Number?
    ensures First(cs, u + w) == First(cs, u)
  {
    var t := u + w;
    assert t[0] == u[0];
    if u[0] == '[' {
      assert u[1..] + "" == u[1..] && t[1..] == u[1..] + w;
      var k := Close(u[1..], 1);
      CloseIsLocal(u[1..], "", w);
      assert u[1..][..k] == t[1..][..k];
    } else if cs.letter(u[0]) || u[0] == '_' {
      assert t[|u|..] == w;
      forall i | 0 <= i < |u|
        ensures cs.Name(t[i])
      {
        assert cs.Name(u[i]);
      }
      NameRunIs(cs, t, |u|);
      assert u[..|u|] == t[..|u|];
    } else if cs.digit(u[0]) || u[0] == '.' {
      LastNumber(cs, u, w);
      assert u[..|u|] == t[..|u|];
    }
  }

  lemma LastNumber(cs: Chars, u: string, w: string)
    requires cs.Sound() && u != "" && NumberEnd(cs, u, 0) == |u|
    requires w != "" ==> !cs.Name(w[0])
    requires w != "" && (w[0] == '+' || w[0] == '-') ==> u[|u| - 1] != 'e' && u[|u| - 1] != 'E'
    ensures NumberEnd(cs, u + w, 0) == |u|
  {
    var t := u + w;
    forall j | 0 <= j < |u|
      ensures InNumber(cs, t, j)
    {
      assert InNumber(cs, u, j) && t[j] == u[j] && (j > 0 ==> t[j - 1] == u[j - 1]);
    }
    if w != "" { assert t[|u|] == w[0] && t[|u| - 1] == u[|u| - 1]; }
    NumberEndIs(cs, t, 0, |u|);
  }

  /** Apart from the text, apart from what is left of it behind its first token. */
  lemma ApartBehindFirst(cs: Chars, s: string, w: string)
    requires cs.Sound() && Lex(cs, s).token != End && Apart(cs, s, w)
    ensures Apart(cs, s[Lex(cs, s).stop..], w)
    ensures var x := Lex(cs, s);
            (s[x.stop..] == "" && w != "" && (w[0] == '+' || w[0] == '-') && (s[|s| - 1] == 'e' || s[|s| - 1] == 'E'))
            ==> !x.token.Number?
  {
    hide Lex, Tokens;
    TokensUnfold(cs, s);
    TokensOfNothing(cs);
    var x := Lex(cs, s);
    var tail := s[x.stop..];
    var ts, us := Tokens(cs, s), Tokens(cs, tail);
    if us != [] { assert us[|us| - 1] == ts[|ts| - 1]; }
  }

  /** The first token of a text, in front of another one. */
  lemma FirstOfBoth(cs: Chars, s: string, w: string)
    requires cs.Sound() && Lex(cs, s).token != End && !Lex(cs, s).token.Bad? && Apart(cs, s, w)
    ensures Lex(cs, s + w) == Lex(cs, s)
  {
    hide First, Tokens;
    ApartBehindFirst(cs, s, w);
    LexSplits(cs, s);
    hide Lex;
    var x := Lex(cs, s);
    var u, tail := s[x.start..x.stop], s[x.stop..];
    if tail == "" {
      assert u + tail == u;
      LastIsLocal(cs, u, w);
      assert tail + w == w;
    } else {
      FirstIsLocal(cs, u, tail, tail + w);
    }
    assert s + w == s[..x.start] + (u + (tail + w));
    LexIs(cs, s[..x.start], u + (tail + w));
  }

  lemma TokensOfNothing(cs: Chars)
    requires cs.Sound()
    ensures Tokens(cs, "") == []
  {
  }

  lemma CleanBehindFirst(ts: seq<Token>, first: Token, us: seq<Token>)
    requires Clean(ts) && ts == [first] + us
    ensures !first.Bad? && Clean(us)
  {
    assert ts[0] == first;
    assert forall i | 0 <= i < |us| :: us[i] == ts[i + 1];
  }

  /** Two texts that stay apart have the tokens of the one and then those of the other. */
  lemma {:induction false} TokensOfBoth(cs: Chars, s: string, w: string)
    requires cs.Sound() && Clean(Tokens(cs, s)) && Apart(cs, s, w)
    ensures Tokens(cs, s + w) == Tokens(cs, s) + Tokens(cs, w)
    decreases |s|
  {
    hide Lex, Tokens, Clean, Apart;
    var x := Lex(cs, s);
    if x.token == End {
      TokensOfBlank(cs, s);
      BlanksInFront(cs, s, w);
    } else {
      TokensUnfold(cs, s);
      var tail := s[x.stop..];
      CleanBehindFirst(Tokens(cs, s), x.token, Tokens(cs, tail));
      ApartBehindFirst(cs, s, w);
      FirstOfBoth(cs, s, w);
      TokensOfBoth(cs, tail, w);
      TokensUnfold(cs, s + w);
      assert (s + w)[x.stop..] == tail + w;
    }
  }

  lemma {:induction false} BlanksInFront(cs: Chars, s: string, w: string)
    requires cs.Sound() && Lex(cs, s).token == End
    ensures Tokens(cs, s + w) == Tokens(cs, w)
  {
    if s == "" {
      assert s + w == w;
    } else {
      assert (s + w)[0] == s[0] && (s + w)[1..] == s[1..] + w;
      LeadingBlank(cs, s + w);
      BlanksInFront(cs, s[1..], w);
    }
  }

  /** A sign, parenthesis or comma is a token of its own. */
  lemma SymbolInFront(cs: Chars, c: char, s: string)
    requires cs.Sound() && Mark(c) && c != '[' && c != '_' && c != '.'
    ensures Tokens(cs, [c] + s) == [Symbol(c)] + Tokens(cs, s)
  {
    hide Tokens;
    var t := [c] + s;
    assert t[0] == c && t[1..] == s && "" + t == t;
    assert !cs.alnum(c) && !cs.space(c) && !cs.letter(c) && !cs.digit(c);
    LexIs(cs, "", t);
    TokensUnfold(cs, t);
  }

  // ---- Parsing what has more behind it -------------------------------------------

  /** Tokens that continue neither a call nor a chain of operators of that level or a tighter one. */
  ghost predicate Stops(level: nat, more: seq<Token>) {
    more != [] ==>
      more[0] != LParen && (level <= 1 ==> OperatorAt(1, more) == None) && (level == 0 ==> OperatorAt(0, more) == None)
  }

  lemma {:induction false} ChainExtends(level: nat, ts: seq<Token>, more: seq<Token>)
    requires level <= 1 && Chain(level, ts).Done?
    requires Chain(level, ts).rest != [] || Stops(level + 1, more)
    ensures var r := Chain(level, ts);
            Chain(level, ts + more) == ChainTail(level, r.tree, r.rest + more) && OperatorAt(level, r.rest) == None
    decreases |ts|, 6 - 2 * level
  {
    OperandExtends(level, ts, more);
    var r := Operand(level, ts);
    TailExtends(level, r.tree, r.rest, more);
  }

  lemma {:induction false} OperandExtends(level: nat, ts: seq<Token>, more: seq<Token>)
    requires level <= 1 && Operand(level, ts).Done?
    requires Operand(level, ts).rest != [] || Stops(level + 1, more)
    ensures var r := Operand(level, ts); Operand(level, ts + more) == Done(r.tree, r.rest + more)
    decreases |ts|, 5 - 2 * level
  {
    if level == 0 { ChainExtends(1, ts, more); } else { UnaryExtends(ts, more); }
  }

  lemma {:induction false} TailExtends(level: nat, left: Tree, ts: seq<Token>, more: seq<Token>)
    requires level <= 1 && ChainTail(level, left, ts).Done?
    requires ChainTail(level, left, ts).rest != [] || Stops(level + 1, more)
    ensures var r := ChainTail(level, left, ts);
            && ChainTail(level, left, ts + more) == ChainTail(level, r.tree, r.rest + more)
            && OperatorAt(level, r.rest) == None
    decreases |ts|, 7
  {
    hide Operand, Stops;
    var op := OperatorAt(level, ts);
    if op.Some? {
      assert (ts + more)[1..] == ts[1..] + more;
      OperandExtends(level, ts[1..], more);
      var r := Operand(level, ts[1..]);
      TailExtends(level, Bin(op.value, left, r.tree), r.rest, more);
    }
  }

  lemma {:induction false} UnaryExtends(ts: seq<Token>, more: seq<Token>)
    requires Unary(ts).Done? && (Unary(ts).rest != [] || Stops(2, more))
    ensures Unary(ts + more) == Done(Unary(ts).tree, Unary(ts).rest + more)
    decreases |ts|, 2
  {
    if ts[0] == Minus || ts[0] == Plus {
      assert (ts + more)[1..] == ts[1..] + more;
      UnaryExtends(ts[1..], more);
    } else {
      PrimaryExtends(ts, more);
    }
  }

  lemma {:induction false} PrimaryExtends(ts: seq<Token>, more: seq<Token>)
    requires Primary(ts).Done? && (Primary(ts).rest != [] || Stops(2, more))
    ensures Primary(ts + more) == Done(Primary(ts).tree, Primary(ts).rest + more)
    decreases |ts|, 1
  {
    hide Chain, CallOf;
    assert (ts + more)[1..] == ts[1..] + more;
    if ts[0] == LParen {
      ChainExtends(0, ts[1..], more);
      ClosedExtends(0, ts[1..], more);
    } else if ts[0].Ident? && !ts[0].quoted && |ts| > 1 && ts[1] == LParen {
      assert (ts + more)[2..] == ts[2..] + more;
      CallExtends(ts[0].name, ts[2..], more);
    }
  }

  /** A chain that stopped in front of something stops there still. */
  lemma ClosedExtends(level: nat, ts: seq<Token>, more: seq<Token>)
    requires level <= 1 && Chain(level, ts).Done? && Chain(level, ts).rest != []
    requires var r := Chain(level, ts);
             Chain(level, ts + more) == ChainTail(level, r.tree, r.rest + more) && OperatorAt(level, r.rest) == None
    ensures var r := Chain(level, ts); Chain(level, ts + more) == Done(r.tree, r.rest + more)
    ensures Closed(Chain(level, ts)).Done? ==>
              var r := Closed(Chain(level, ts)); Closed(Chain(level, ts + more)) == Done(r.tree, r.rest + more)
  {
    hide Chain;
    var r := Chain(level, ts);
    assert (r.rest + more)[1..] == r.rest[1..] + more;
  }

  lemma {:induction false} CallExtends(name: string, ts: seq<Token>, more: seq<Token>)
    requires CallOf(name, ts).Done?
    ensures CallOf(name, ts + more) == Done(CallOf(name, ts).tree, CallOf(name, ts).rest + more)
    decreases |ts|, 9
  {
    hide Args;
    if name == "filtfilt" {
      assert (ts + more)[2..] == ts[2..] + more;
      ArgsExtend(ts[2..], more);
    } else if ts[0] == RParen {
      assert (ts + more)[1..] == ts[1..] + more;
    } else {
      ArgsExtend(ts, more);
    }
  }

  lemma {:induction false} ArgsExtend(ts: seq<Token>, more: seq<Token>)
    requires Args(ts).Done? && Args(ts).rest != []
    ensures Args(ts + more) == Done(Args(ts).tree, Args(ts).rest + more)
    ensures Closed(Args(ts)).Done? ==> Closed(Args(ts + more)) == Done(Args(ts).tree, Args(ts).rest[1..] + more)
    decreases |ts|, 8
  {
    hide Chain;
    var first := Chain(0, ts);
    ChainExtends(0, ts, more);
    ClosedExtends(0, ts, more);
    assert (first.rest + more)[1..] == first.rest[1..] + more;
    if first.rest[0] == Comma {
      ArgsExtend(first.rest[1..], more);
    }
    assert (Args(ts).rest + more)[1..] == Args(ts).rest[1..] + more;
  }

  // ---- The value of a text -------------------------------------------------------

  /** How tightly a text binds: a sum, a product, a signed factor, or a factor. */
  ghost function Parse(level: nat, ts: seq<Token>): Parsed<Tree> {
    match level
    case 0 => Chain(0, ts)
    case 1 => Chain(1, ts)
    case 2 => Unary(ts)
    case _ => Primary(ts)
  }

  /** The whole text is a formula of that level. */
  ghost predicate Reads(cs: Chars, level: nat, s: string)
    requires cs.Sound()
  {
    var r := Parse(level, Tokens(cs, s)); r.Done? && r.rest == []
  }

  ghost function Worth<V>(cs: Chars, a: Algebra<V>, store: map<string, V>, level: nat, s: string): Option<V>
    requires cs.Sound() && Reads(cs, level, s)
  {
    Eval(a, store, Parse(level, Tokens(cs, s)).tree)
  }

  /** The whole text is a formula of that level, with that value. */
  ghost predicate Means<V>(cs: Chars, a: Algebra<V>, store: map<string, V>, level: nat, s: string, v: V)
    requires cs.Sound()
  {
    Reads(cs, level, s) && Worth(cs, a, store, level, s) == Some(v)
  }

  lemma OperandIsChain(level: nat, ts: seq<Token>)
    requires level <= 1 && Operand(level, ts).Done? && Operand(level, ts).rest == []
    ensures Chain(level, ts) == Operand(level, ts)
  {
  }

  /** A factor is a signed factor, that is a product, and that is a sum. */
  lemma ReadsLooser(cs: Chars, level: nat, s: string)
    requires cs.Sound() && level <= 2 && Reads(cs, level + 1, s)
    ensures Reads(cs, level, s)
    ensures Parse(level, Tokens(cs, s)) == Parse(level + 1, Tokens(cs, s))
  {
    hide Tokens;
    var ts := Tokens(cs, s);
    match level
    case 0 => OperandIsChain(0, ts);
    case 1 => OperandIsChain(1, ts);
    case _ => assert ts[0] != Minus && ts[0] != Plus;
  }

  lemma LooserMeans<V>(cs: Chars, a: Algebra<V>, store: map<string, V>, tight: nat, level: nat, s: string, v: V)
    requires cs.Sound() && level <= tight <= 3 && Means(cs, a, store, tight, s, v)
    ensures Means(cs, a, store, level, s, v)
    decreases tight
  {
    hide Tokens, Parse;
    if level < tight {
      ReadsLooser(cs, tight - 1, s);
      LooserMeans(cs, a, store, tight - 1, level, s, v);
    }
  }

  /** What the formula engine evaluates is the sum the text is. */
  lemma SumIsValue<V>(cs: Chars, a: Algebra<V>, store: map<string, V>, s: string, v: V)
    requires cs.Sound()
    ensures Means(cs, a, store, 0, s, v) <==> Value(cs, a, store, s) == Some(v)
  {
    hide Tokens, Chain;
  }

  lemma ReadsIsClean(cs: Chars, level: nat, s: string)
    requires cs.Sound() && level <= 3 && Reads(cs, level, s)
    ensures Clean(Tokens(cs, s)) && Tokens(cs, s) != []
    decreases 3 - level
  {
    hide Tokens;
    var ts := Tokens(cs, s);
    match level
    case 0 => ChainTook(0, ts);
    case 1 => ChainTook(1, ts);
    case 2 => UnaryTook(ts);
    case _ => PrimaryTook(ts);
  }

  // ---- Arithmetic ------------------------------------------------------------------

  ghost function Arithmetic(op: Operator, x: real, y: real): real
    requires op == Div ==> y != 0.0
  {
    match op
    case Add => x + y
    case Sub => x - y
    case Mul => x * y
    case Div => x / y
  }

  /** The operators are those of arithmetic; dividing by zero is left open. */
  ghost predicate Computes(a: Algebra<real>) {
    && a.minusOne == -1.0
    && forall op, x, y | op == Div ==> y != 0.0 :: a.binary(op, x, y) == Some(Arithmetic(op, x, y))
  }

  lemma NegIsNegative(a: Algebra<real>, store: map<string, real>, tree: Tree, v: real)
    requires Computes(a) && Eval(a, store, tree) == Some(v)
    ensures Eval(a, store, Neg(tree)) == Some(-v)
  {
    assert a.binary(Mul, a.minusOne, v) == Some(Arithmetic(Mul, -1.0, v));
  }

  /** A sign in front: minus gives the negative, plus nothing new. */
  lemma SignedText(cs: Chars, a: Algebra<real>, store: map<string, real>, s: string, v: real)
    requires cs.Sound() && Computes(a) && Means(cs, a, store, 2, s, v)
    ensures Means(cs, a, store, 2, "-" + s, -v)
    ensures Means(cs, a, store, 2, "+" + s, v)
  {
    hide Tokens, Eval;
    var ts := Tokens(cs, s);
    SymbolInFront(cs, '-', s);
    SymbolInFront(cs, '+', s);
    assert ([Minus] + ts)[1..] == ts && ([Plus] + ts)[1..] == ts;
    NegIsNegative(a, store, Unary(ts).tree, v);
  }

  function SignOf(op: Operator): char {
    match op
    case Add => '+'
    case Sub => '-'
    case Mul => '*'
    case Div => '/'
  }

  /** A sum or product of two texts: the left one may be a chain of its own level. */
  lemma OperatorText(cs: Chars, a: Algebra<real>, store: map<string, real>, op: Operator, s: string, p: string, v: real, w: real)
    requires cs.Sound() && Computes(a) && (op == Div ==> w != 0.0)
    requires Means(cs, a, store, LevelOf(op), s, v) && Means(cs, a, store, LevelOf(op) + 1, p, w)
    requires op == Add || op == Sub ==> !OpenExponent(cs, s)
    ensures Means(cs, a, store, LevelOf(op), s + [SignOf(op)] + p, Arithmetic(op, v, w))
  {
    hide Tokens, Eval, Chain, Unary;
    var level, sign := LevelOf(op), Symbol(SignOf(op));
    var ts, us := Tokens(cs, s), Tokens(cs, p);
    var tail := [SignOf(op)] + p;
    SymbolInFront(cs, SignOf(op), p);
    ReadsIsClean(cs, level, s);
    TokensOfBoth(cs, s, tail);
    assert s + [SignOf(op)] + p == s + tail;
    var more := [sign] + us;
    var left, right := Chain(level, ts).tree, Parse(level + 1, us).tree;
    ChainExtends(level, ts, more);
    assert [] + more == more && more[1..] == us && OperatorAt(level, more) == Some(op);
    assert Operand(level, us) == Done(right, []);
    assert Chain(level, ts + more) == Done(Bin(op, left, right), []);
    EvalBin(a, store, op, left, right);
  }

  /** A sum in parentheses is a factor. */
  lemma ParenthesisedText<V>(cs: Chars, a: Algebra<V>, store: map<string, V>, s: string, v: V)
    requires cs.Sound() && Means(cs, a, store, 0, s, v)
    ensures Means(cs, a, store, 3, "(" + s + ")", v)
  {
    hide Tokens, Eval, Chain;
    var ts := Tokens(cs, s);
    ClosingBehind(cs, s);
    SymbolInFront(cs, '(', s + ")");
    assert "(" + s + ")" == "(" + (s + ")");
    ReadInFront(ts, RParen);
    assert ([LParen] + (ts + [RParen]))[1..] == ts + [RParen];
  }

  lemma ClosingBehind(cs: Chars, s: string)
    requires cs.Sound() && Reads(cs, 0, s)
    ensures Tokens(cs, s + ")") == Tokens(cs, s) + [RParen]
  {
    hide Tokens;
    SymbolInFront(cs, ')', "");
    TokensOfNothing(cs);
    assert ")" + "" == ")";
    ReadsIsClean(cs, 0, s);
    TokensOfBoth(cs, s, ")");
  }

  /** A whole sum, in front of what cannot continue it. */
  lemma ReadInFront(ts: seq<Token>, end: Token)
    requires Chain(0, ts).Done? && Chain(0, ts).rest == [] && (end == RParen || end == Comma)
    ensures Chain(0, ts + [end]) == Done(Chain(0, ts).tree, [end])
  {
    hide Chain;
    ChainExtends(0, ts, [end]);
    assert [] + [end] == [end];
  }

  /** Two signs between the same factor, and two in front of it. */
  lemma SignsCancel(cs: Chars, a: Algebra<real>, store: map<string, real>, s: string, v: real)
    requires cs.Sound() && Computes(a) && Means(cs, a, store, 3, s, v)
    ensures Value(cs, a, store, "-" + s) == Some(-v)
    ensures Value(cs, a, store, "-" + ("-" + s)) == Some(v)
    ensures !OpenExponent(cs, s) ==> Value(cs, a, store, s + "+" + ("-" + s)) == Some(0.0)
    ensures !OpenExponent(cs, s) ==> Value(cs, a, store, s + "-" + ("-" + s)) == Some(v + v)
  {
    hide Means, Value;
    LooserMeans(cs, a, store, 3, 2, s, v);
    SignedText(cs, a, store, s, v);
    SignedText(cs, a, store, "-" + s, -v);
    LooserMeans(cs, a, store, 2, 0, "-" + s, -v);
    LooserMeans(cs, a, store, 2, 0, "-" + ("-" + s), v);
    SumIsValue(cs, a, store, "-" + s, -v);
    SumIsValue(cs, a, store, "-" + ("-" + s), v);
    if !OpenExponent(cs, s) {
      LooserMeans(cs, a, store, 3, 0, s, v);
      LooserMeans(cs, a, store, 2, 1, "-" + s, -v);
      OperatorText(cs, a, store, Add, s, "-" + s, v, -v);
      OperatorText(cs, a, store, Sub, s, "-" + s, v, -v);
      SumIsValue(cs, a, store, s + "+" + ("-" + s), 0.0);
      SumIsValue(cs, a, store, s + "-" + ("-" + s), v + v);
    }
  }

  // ---- Names, numbers and calls -------------------------------------------------------

  /** A quoted name is a factor with the channel's value. */
  lemma NameText<V>(cs: Chars, a: Algebra<V>, store: map<string, V>, name: string)
    requires cs.Sound() && Referenceable(cs, name) && name in store
    ensures Means(cs, a, store, 3, Quoted(cs, name), store[name])
  {
    hide Tokens, Quoted;
    QuoteRoundTripExactly(cs, name);
  }

  ghost predicate Digits(cs: Chars, s: string) { forall i | 0 <= i < |s| :: cs.digit(s[i]) || s[i] == '.' }

  /** Digits and points are a factor with that number's value. */
  lemma NumberText<V>(cs: Chars, a: Algebra<V>, store: map<string, V>, text: string)
    requires cs.Sound() && text != "" && !cs.letter(text[0]) && Digits(cs, text)
    ensures Means(cs, a, store, 3, text, a.number(text))
  {
    hide Tokens, First;
    NumberEndIs(cs, text, 0, |text|);
    NumberIsRead(cs, a, store, text);
  }

  /** So are digits with an exponent behind them, its sign included. */
  lemma ExponentText<V>(cs: Chars, a: Algebra<V>, store: map<string, V>, m: string, e: char, sign: string, d: string)
    requires cs.Sound() && m != "" && !cs.letter(m[0]) && Digits(cs, m) && Digits(cs, d)
    requires (e == 'e' || e == 'E') && (sign == "" || sign == "+" || sign == "-")
    ensures var text := m + [e] + sign + d; Means(cs, a, store, 3, text, a.number(text))
  {
    hide Tokens, First;
    var text := m + [e] + sign + d;
    forall j | 0 <= j < |text|
      ensures InNumber(cs, text, j)
    {
      if j < |m| { assert text[j] == m[j]; }
      if j >= |m| + 1 + |sign| { assert text[j] == d[j - |m| - 1 - |sign|]; }
      assert text[|m|] == e;
    }
    NumberEndIs(cs, text, 0, |text|);
    assert text[0] == m[0];
    NumberIsRead(cs, a, store, text);
  }

  /** A number that takes the whole text. */
  lemma NumberIsRead<V>(cs: Chars, a: Algebra<V>, store: map<string, V>, text: string)
    requires cs.Sound() && text != "" && !cs.letter(text[0]) && (cs.digit(text[0]) || text[0] == '.')
    requires NumberEnd(cs, text, 0) == |text|
    ensures Means(cs, a, store, 3, text, a.number(text))
  {
    hide Tokens, First;
    NumberFirst(cs, text);
    assert "" + text == text && text[|text|..] == "";
    LexIs(cs, "", text);
    hide Lex;
    TokensUnfold(cs, text);
    TokensOfNothing(cs);
  }

  lemma NumberFirst(cs: Chars, text: string)
    requires cs.Sound() && text != "" && !cs.letter(text[0]) && (cs.digit(text[0]) || text[0] == '.')
    requires NumberEnd(cs, text, 0) == |text|
    ensures First(cs, text) == (Number(text), |text|) && !cs.space(text[0])
  {
    assert text[0] != '.' ==> cs.alnum(text[0]);
    assert text[..|text|] == text;
  }

  /** Texts with commas between them. */
  ghost function Listed(texts: seq<string>): string {
    if texts == [] then "" else if |texts| == 1 then texts[0] else texts[0] + "," + Listed(texts[1..])
  }

  ghost predicate AllMean<V>(cs: Chars, a: Algebra<V>, store: map<string, V>, texts: seq<string>, vs: seq<V>)
    requires cs.Sound()
  {
    |texts| == |vs| && forall i | 0 <= i < |texts| :: Means(cs, a, store, 0, texts[i], vs[i])
  }

  /** An argument list, read in front of its closing parenthesis. */
  lemma {:induction false} ListedText<V>(
      cs: Chars, a: Algebra<V>, store: map<string, V>, texts: seq<string>, vs: seq<V>)
    requires cs.Sound() && texts != [] && AllMean(cs, a, store, texts, vs)
    ensures var ts := Tokens(cs, Listed(texts) + ")"); var r := Args(ts);
            && r.Done? && r.rest == [RParen] && EvalAll(a, store, r.tree) == Some(vs)
            && ts[0] != RParen
  {
    hide Tokens, Chain, Eval, EvalAll, Listed;
    assert Means(cs, a, store, 0, texts[0], vs[0]);
    var ts := Tokens(cs, texts[0]);
    ReadsIsClean(cs, 0, texts[0]);
    StartsTree(0, ts);
    if |texts| == 1 {
      assert Listed(texts) == texts[0] by { ListedOne(texts); }
      ClosingBehind(cs, texts[0]);
      ReadInFront(ts, RParen);
      EvalOne(a, store, Chain(0, ts).tree);
      assert vs == [vs[0]];
    } else {
      assert AllMean(cs, a, store, texts[1..], vs[1..]);
      ListedText(cs, a, store, texts[1..], vs[1..]);
      var rest := Listed(texts[1..]) + ")";
      assert Listed(texts) + ")" == texts[0] + ("," + rest) by { ListedMore(texts); }
      SymbolInFront(cs, ',', rest);
      TokensOfBoth(cs, texts[0], "," + rest);
      var us := Tokens(cs, rest);
      FirstArgument(ts, us);
      EvalMore(a, store, Chain(0, ts).tree, Args(us).tree);
      assert vs == [vs[0]] + vs[1..];
    }
  }

  lemma ListedOne(texts: seq<string>)
    requires |texts| == 1
    ensures Listed(texts) == texts[0]
  {
  }

  lemma ListedMore(texts: seq<string>)
    requires |texts| > 1
    ensures Listed(texts) + ")" == texts[0] + ("," + (Listed(texts[1..]) + ")"))
  {
  }

  lemma EvalOne<V>(a: Algebra<V>, store: map<string, V>, tree: Tree)
    ensures var x := Eval(a, store, tree); EvalAll(a, store, [tree]) == if x.Some? then Some([x.value]) else None
  {
    EvalAllAppend(a, store, [], tree);
    NoArguments(a, store);
    assert [] + [tree] == [tree];
    var x := Eval(a, store, tree);
    if x.Some? { assert [] + [x.value] == [x.value]; }
  }

  lemma EvalMore<V>(a: Algebra<V>, store: map<string, V>, tree: Tree, trees: seq<Tree>)
    ensures var x, xs := Eval(a, store, tree), EvalAll(a, store, trees);
            EvalAll(a, store, [tree] + trees) == if x.Some? && xs.Some? then Some([x.value] + xs.value) else None
  {
    assert ([tree] + trees)[1..] == trees;
  }

  lemma FirstArgument(ts: seq<Token>, us: seq<Token>)
    requires Chain(0, ts).Done? && Chain(0, ts).rest == [] && Args(us).Done?
    ensures Args(ts + ([Comma] + us)) == Done([Chain(0, ts).tree] + Args(us).tree, Args(us).rest)
  {
    hide Chain;
    var more := [Comma] + us;
    ChainExtends(0, ts, more);
    assert [] + more == more && more[1..] == us;
  }

  /** Nothing readable starts with a closing parenthesis. */
  lemma StartsTree(level: nat, ts: seq<Token>)
    requires level <= 1 && Chain(level, ts).Done?
    ensures ts != [] && ts[0] != RParen
    decreases 1 - level
  {
    if level == 0 { StartsTree(1, ts); } else { SignedStart(ts); }
  }

  lemma SignedStart(ts: seq<Token>)
    requires Unary(ts).Done?
    ensures ts != [] && ts[0] != RParen
  {
  }

  lemma NameInFront(cs: Chars, name: string, text: string)
    requires cs.Sound() && Plain(cs, name)
    ensures Tokens(cs, name + ("(" + text)) == [Ident(name, false), LParen] + Tokens(cs, text)
  {
    hide Tokens;
    QuoteRoundTripExactly(cs, name);
    assert Quoted(cs, name) == name;
    SymbolInFront(cs, '(', text);
    TokensOfBoth(cs, name, "(" + text);
  }

  /** A function called with texts for its arguments, in their order. */
  lemma CallText<V>(cs: Chars, a: Algebra<V>, store: map<string, V>, name: string, texts: seq<string>, vs: seq<V>)
    requires cs.Sound() && Plain(cs, name) && name != "filtfilt" && AllMean(cs, a, store, texts, vs)
    ensures var text := name + ("(" + (Listed(texts) + ")"));
            && Reads(cs, 3, text)
            && Worth(cs, a, store, 3, text)
            == if name in a.functions && a.functions[name].minArgs <= |vs|
                  && (a.functions[name].maxArgs <= 0 || |vs| <= a.functions[name].maxArgs)
               then a.functions[name].impl(vs) else None
  {
    hide Tokens, Args, EvalAll;
    NameInFront(cs, name, Listed(texts) + ")");
    var ts := Tokens(cs, Listed(texts) + ")");
    if texts == [] {
      SymbolInFront(cs, ')', "");
      TokensOfNothing(cs);
      assert Listed(texts) + ")" == ")" + "";
      NoArguments(a, store);
      assert vs == [];
    } else {
      ListedText(cs, a, store, texts, vs);
    }
    CallTokens(name, ts, texts == []);
  }

  /** What is read behind a name and its parenthesis. */
  lemma CallTokens(name: string, ts: seq<Token>, empty: bool)
    requires name != "filtfilt"
    requires if empty then ts == [RParen] else Args(ts).Done? && Args(ts).rest == [RParen] && ts[0] != RParen
    ensures Primary([Ident(name, false), LParen] + ts) == Done(Call(name, if empty then [] else Args(ts).tree), [])
  {
    hide Args;
    assert ([Ident(name, false), LParen] + ts)[2..] == ts;
  }

  // ---- Zero-phase filtering --------------------------------------------------------------

  /** The filter named may be run forth and back over that many arguments. */
  ghost predicate MayRunBack<V>(a: Algebra<V>, filter: string, n: nat) {
    && filter in ["Filter", "FilterHP", "PT", "Butterworth", "Cheby1", "Cheby2", "Elliptic", "Mean", "RMS"]
    && filter in a.functions && "Reverse" in a.functions
    && a.functions[filter].minArgs <= n && (a.functions[filter].maxArgs <= 0 || n <= a.functions[filter].maxArgs)
  }

  /** filtfilt with texts for its arguments runs that filter forth and back over their values, or has no value. */
  lemma FiltfiltText<V>(
      cs: Chars, a: Algebra<V>, store: map<string, V>, filter: string, texts: seq<string>, vs: seq<V>)
    requires cs.Sound() && Plain(cs, filter) && Plain(cs, "filtfilt") && texts != [] && AllMean(cs, a, store, texts, vs)
    ensures var text := "filtfilt" + ("(" + (filter + ("," + (Listed(texts) + ")"))));
            && Reads(cs, 3, text)
            && Worth(cs, a, store, 3, text) == ApplyZeroPhase(a, filter, vs)
            && (!MayRunBack(a, filter, |vs|) ==> Worth(cs, a, store, 3, text) == None)
  {
    hide Tokens, Args, EvalAll;
    var list := Listed(texts) + ")";
    NameInFront(cs, "filtfilt", filter + ("," + list));
    SymbolInFront(cs, ',', list);
    QuoteRoundTripExactly(cs, filter);
    assert Quoted(cs, filter) == filter;
    TokensOfBoth(cs, filter, "," + list);
    ListedText(cs, a, store, texts, vs);
    var ts := Tokens(cs, list);
    FiltfiltTokens(filter, ts);
  }

  lemma FiltfiltTokens(filter: string, ts: seq<Token>)
    requires Args(ts).Done? && Args(ts).rest == [RParen]
    ensures Primary([Ident("filtfilt", false), LParen] + ([Ident(filter, false)] + ([Comma] + ts)))
         == Done(ZeroPhase(filter, Args(ts).tree), [])
  {
    hide Args;
    var behind := [Ident(filter, false)] + ([Comma] + ts);
    assert behind[0] == Ident(filter, false) && behind[1] == Comma && behind[2..] == ts;
    assert ([Ident("filtfilt", false), LParen] + behind)[2..] == behind;
  }

  /** Reversing twice is nothing. */
  ghost predicate Reverses<V(!new)>(a: Algebra<V>, reversed: V -> V) {
    && (forall x :: reversed(reversed(x)) == x)
    && "Reverse" in a.functions && forall x :: a.functions["Reverse"].impl([x]) == Some(reversed(x))
  }

  /** What the filter makes of its first argument, the others being what they are. */
  ghost predicate Filters<V(!new)>(a: Algebra<V>, filter: string, args: seq<V>, filtered: V -> V)
    requires args != []
  {
    MayRunBack(a, filter, |args|) && forall x :: a.functions[filter].impl(args[0 := x]) == Some(filtered(x))
  }

  /** A filter that does nothing does nothing forth and back. */
  lemma IdentityForthAndBack<V(!new)>(a: Algebra<V>, filter: string, args: seq<V>, reversed: V -> V)
    requires args != [] && Reverses(a, reversed) && Filters(a, filter, args, x => x)
    ensures ApplyZeroPhase(a, filter, args) == Some(args[0])
  {
    ForthAndBack(a, filter, args, reversed, x => x);
  }

  /** A filter that does not care for the direction runs twice. */
  lemma EvenFilterRunsTwice<V(!new)>(a: Algebra<V>, filter: string, args: seq<V>, reversed: V -> V, filtered: V -> V)
    requires args != [] && Reverses(a, reversed) && Filters(a, filter, args, filtered)
    requires forall x :: filtered(reversed(x)) == reversed(filtered(x))
    ensures ApplyZeroPhase(a, filter, args) == Some(filtered(filtered(args[0])))
  {
    ForthAndBack(a, filter, args, reversed, filtered);
  }

  /** A filter that undoes itself on a reversed signal leaves the signal as it was. */
  lemma OddFilterCancels<V(!new)>(a: Algebra<V>, filter: string, args: seq<V>, reversed: V -> V, filtered: V -> V)
    requires args != [] && Reverses(a, reversed) && Filters(a, filter, args, filtered)
    requires forall x :: filtered(reversed(filtered(x))) == reversed(x)
    ensures ApplyZeroPhase(a, filter, args) == Some(args[0])
  {
    ForthAndBack(a, filter, args, reversed, filtered);
  }

  lemma ForthAndBack<V(!new)>(a: Algebra<V>, filter: string, args: seq<V>, reversed: V -> V, filtered: V -> V)
    requires args != [] && Reverses(a, reversed) && Filters(a, filter, args, filtered)
    ensures ApplyZeroPhase(a, filter, args) == Some(reversed(filtered(reversed(filtered(args[0])))))
  {
    assert args[0 := args[0]] == args;
    assert args[0 := reversed(filtered(args[0]))][0 := args[0]] == args;
  }

  // ---- A delay leaves no shift --------------------------------------------------------------

  ghost function Backwards(x: seq<real>): seq<real> {
    seq(|x|, i requires 0 <= i < |x| => x[|x| - 1 - i])
  }

  /** Every sample late by one, the first one held. */
  ghost function Delayed(x: seq<real>): seq<real> {
    seq(|x|, i requires 0 <= i < |x| => x[if i == 0 then 0 else i - 1])
  }

  /** A filter that delays by one sample leaves every sample but the last in its place. */
  lemma DelayLeavesNoShift(a: Algebra<seq<real>>, filter: string, args: seq<seq<real>>)
    requires args != [] && Reverses(a, Backwards) && Filters(a, filter, args, Delayed)
    ensures var r := ApplyZeroPhase(a, filter, args);
            && r.Some? && |r.value| == |args[0]|
            && forall i | 0 <= i < |args[0]| - 1 :: r.value[i] == args[0][i]
  {
    ForthAndBack(a, filter, args, Backwards, Delayed);
  }
}
