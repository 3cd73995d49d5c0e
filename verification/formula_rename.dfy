/**
  Renaming a channel keeps the meaning of every formula that parses: first on
  trees, then on token sequences, then on the rewritten text.
 */
module FormulaRename {
  import opened Options
  import opened FormulaLexer
  import opened FormulaNames
  import opened FormulaParser

  // ---- Trees -----------------------------------------------------------------

  /** Whether the tree refers to a channel of that name. */
  predicate Refers(tree: Tree, name: string)
    decreases tree
  {
    match tree
    case Num(_) => false
    case Chan(n) => n == name
    case Bin(_, left, right) => Refers(left, name) || Refers(right, name)
    case Neg(inner) => Refers(inner, name)
    case Call(_, args) => exists i | 0 <= i < |args| :: Refers(args[i], name)
    case ZeroPhase(_, args) => exists i | 0 <= i < |args| :: Refers(args[i], name)
  }

  /** Whether the tree calls, or passes as a filter, a function of that name. */
  predicate Calls(tree: Tree, name: string)
    decreases tree
  {
    match tree
    case Num(_) => false
    case Chan(_) => false
    case Bin(_, left, right) => Calls(left, name) || Calls(right, name)
    case Neg(inner) => Calls(inner, name)
    case Call(f, args) => f == name || exists i | 0 <= i < |args| :: Calls(args[i], name)
    case ZeroPhase(f, args) =>
      f == name || name == "filtfilt" || exists i | 0 <= i < |args| :: Calls(args[i], name)
  }

  function RenamedTree(tree: Tree, from: string, to: string): Tree
    decreases tree
  {
    match tree
    case Num(_) => tree
    case Chan(n) => if n == from then Chan(to) else tree
    case Bin(op, left, right) => Bin(op, RenamedTree(left, from, to), RenamedTree(right, from, to))
    case Neg(inner) => Neg(RenamedTree(inner, from, to))
    case Call(f, args) => Call(f, RenamedTrees(args, from, to))
    case ZeroPhase(f, args) => ZeroPhase(f, RenamedTrees(args, from, to))
  }

  function RenamedTrees(trees: seq<Tree>, from: string, to: string): (r: seq<Tree>)
    ensures |r| == |trees|
    decreases trees
  {
    if trees == [] then [] else [RenamedTree(trees[0], from, to)] + RenamedTrees(trees[1..], from, to)
  }

  /** The store after SignalStore's rename. */
  function Rekeyed<V>(store: map<string, V>, from: string, to: string): map<string, V> {
    if from in store then (store - {from})[to := store[from]] else store
  }

  /** Over the re-keyed store the renamed tree has the value the tree had. */
  lemma {:induction false} EvalRenamed<V>(a: Algebra<V>, store: map<string, V>, tree: Tree, from: string, to: string)
    requires to !in store && !Refers(tree, to)
    ensures Eval(a, Rekeyed(store, from, to), RenamedTree(tree, from, to)) == Eval(a, store, tree)
    decreases tree, 0
  {
    match tree
    case Num(_) =>
    case Chan(_) =>
    case Bin(_, left, right) =>
      EvalRenamed(a, store, left, from, to);
      EvalRenamed(a, store, right, from, to);
    case Neg(inner) => EvalRenamed(a, store, inner, from, to);
    case Call(_, args) => EvalAllRenamed(a, store, args, from, to);
    case ZeroPhase(_, args) => EvalAllRenamed(a, store, args, from, to);
  }

  lemma {:induction false} EvalAllRenamed<V>(
      a: Algebra<V>, store: map<string, V>, trees: seq<Tree>, from: string, to: string)
    requires to !in store && forall i | 0 <= i < |trees| :: !Refers(trees[i], to)
    ensures EvalAll(a, Rekeyed(store, from, to), RenamedTrees(trees, from, to)) == EvalAll(a, store, trees)
    decreases trees, 1
  {
    if trees != [] {
      EvalRenamed(a, store, trees[0], from, to);
      EvalAllRenamed(a, store, trees[1..], from, to);
    }
  }

  /** A value depends on the channels referred to and on nothing else, and needs each of them. */
  lemma {:induction false} EvalIsLocal<V>(a: Algebra<V>, s: map<string, V>, t: map<string, V>, tree: Tree)
    requires Eval(a, s, tree).Some? && forall n | n in s && Refers(tree, n) :: n in t && t[n] == s[n]
    ensures Eval(a, t, tree) == Eval(a, s, tree)
    ensures forall n | Refers(tree, n) :: n in s
    decreases tree, 0
  {
    match tree
    case Num(_) =>
    case Chan(_) =>
    case Bin(_, left, right) =>
      EvalIsLocal(a, s, t, left);
      EvalIsLocal(a, s, t, right);
    case Neg(inner) => EvalIsLocal(a, s, t, inner);
    case Call(_, args) => EvalAllIsLocal(a, s, t, args);
    case ZeroPhase(_, args) => EvalAllIsLocal(a, s, t, args);
  }

  lemma {:induction false} EvalAllIsLocal<V>(a: Algebra<V>, s: map<string, V>, t: map<string, V>, trees: seq<Tree>)
    requires EvalAll(a, s, trees).Some?
    requires forall i, n | 0 <= i < |trees| && n in s && Refers(trees[i], n) :: n in t && t[n] == s[n]
    ensures EvalAll(a, t, trees) == EvalAll(a, s, trees)
    ensures forall i, n | 0 <= i < |trees| && Refers(trees[i], n) :: n in s
    decreases trees, 1
  {
    if trees != [] {
      EvalIsLocal(a, s, t, trees[0]);
      var more := trees[1..];
      forall i, n | 0 <= i < |more| && n in s && Refers(more[i], n)
        ensures n in t && t[n] == s[n]
      {
        assert more[i] == trees[i + 1];
      }
      EvalAllIsLocal(a, s, t, more);
      assert forall i | 0 < i < |trees| :: trees[i] == more[i - 1];
    }
  }

  // ---- What a parse consumes ---------------------------------------------------

  /** Neighbouring tokens of an expression that parses. */
  ghost predicate Fits(s: Token, t: Token) {
    !(IsOperand(s) && IsOperand(t)) && !(s.Ident? && s.quoted && t == LParen)
  }

  /** No error token, and every neighbour fits. */
  ghost predicate Tidy(ts: seq<Token>) {
    && (forall i | 0 <= i < |ts| :: !ts[i].Bad?)
    && (forall i | 0 <= i < |ts| - 1 :: Fits(ts[i], ts[i + 1]))
  }

  /** rest is what remains of ts behind a tidy stretch. */
  ghost predicate Took(ts: seq<Token>, rest: seq<Token>) {
    && |rest| < |ts| && rest == ts[|ts| - |rest|..]
    && (forall i | 0 <= i < |ts| - |rest| :: !ts[i].Bad?)
    && (forall i | 0 <= i < |ts| - |rest| - 1 :: Fits(ts[i], ts[i + 1]))
  }

  lemma TookOne(ts: seq<Token>)
    requires ts != [] && !ts[0].Bad?
    ensures Took(ts, ts[1..])
  {
  }

  /** Two stretches join over a token that is no operand. */
  lemma TookBoth(ts: seq<Token>, mid: seq<Token>, rest: seq<Token>)
    requires Took(ts, mid) && Took(mid, rest) && Fits(ts[|ts| - |mid| - 1], mid[0])
    ensures Took(ts, rest)
  {
    var m := |ts| - |mid|;
    forall i | m <= i < |ts|
      ensures ts[i] == mid[i - m]
    {
    }
    assert rest == ts[|ts| - |rest|..];
    forall i | 0 <= i < |ts| - |rest| - 1
      ensures Fits(ts[i], ts[i + 1])
    {
      if i >= m { assert Fits(mid[i - m], mid[i - m + 1]); }
    }
  }

  lemma {:induction false} ChainTook(level: nat, ts: seq<Token>)
    requires level <= 1
    ensures Chain(level, ts).Done? ==> Took(ts, Chain(level, ts).rest)
    decreases |ts|, 6 - 2 * level
  {
    hide Took;
    OperandTook(level, ts);
    var r := Operand(level, ts);
    if r.Done? { TailTook(level, ts, r.tree, r.rest); }
  }

  lemma {:induction false} OperandTook(level: nat, ts: seq<Token>)
    requires level <= 1
    ensures Operand(level, ts).Done? ==> Took(ts, Operand(level, ts).rest)
    decreases |ts|, 5 - 2 * level
  {
    if level == 0 { ChainTook(1, ts); } else { UnaryTook(ts); }
  }

  lemma {:induction false} TailTook(level: nat, start: seq<Token>, left: Tree, ts: seq<Token>)
    requires level <= 1 && Took(start, ts)
    ensures ChainTail(level, left, ts).Done? ==> Took(start, ChainTail(level, left, ts).rest)
    decreases |ts|, 7
  {
    hide Operand, Took;
    var op := OperatorAt(level, ts);
    if op.Some? {
      var r := Operand(level, ts[1..]);
      if r.Done? {
        OperandTook(level, ts[1..]);
        TookOver(start, ts, r.rest);
        TailTook(level, start, Bin(op.value, left, r.tree), r.rest);
      }
    }
  }

  lemma {:induction false} UnaryTook(ts: seq<Token>)
    ensures Unary(ts).Done? ==> Took(ts, Unary(ts).rest)
    decreases |ts|, 2
  {
    if ts != [] && (ts[0] == Minus || ts[0] == Plus) {
      UnaryTook(ts[1..]);
      TookOne(ts);
      if Unary(ts[1..]).Done? { TookBoth(ts, ts[1..], Unary(ts[1..]).rest); }
    } else {
      PrimaryTook(ts);
    }
  }

  lemma {:induction false} PrimaryTook(ts: seq<Token>)
    ensures Primary(ts).Done? ==> Took(ts, Primary(ts).rest)
    decreases |ts|, 1
  {
    var r := Primary(ts);
    if r.Done? {
      TookOne(ts);
      if ts[0] == LParen {
        ChainTook(0, ts[1..]);
        ClosedTook(ts, ts[1..], Chain(0, ts[1..]));
      } else if ts[0].Ident? && !ts[0].quoted && |ts| > 1 && ts[1] == LParen {
        TookOne(ts[1..]);
        assert ts[1..][1..] == ts[2..];
        TookBoth(ts, ts[1..], ts[2..]);
        CallTook(ts, ts[0].name, ts[2..]);
      }
    }
  }

  /** A parenthesised stretch behind what was taken so far. */
  lemma ClosedTook<T>(start: seq<Token>, ts: seq<Token>, r: Parsed<T>)
    requires Took(start, ts) && (r.Done? ==> Took(ts, r.rest)) && Closed(r).Done?
    requires !IsOperand(start[|start| - |ts| - 1])
    ensures Took(start, Closed(r).rest)
  {
    TookBoth(start, ts, r.rest);
    TookOne(r.rest);
    TookBoth(start, r.rest, r.rest[1..]);
  }

  lemma {:induction false} CallTook(start: seq<Token>, name: string, ts: seq<Token>)
    requires Took(start, ts) && start[|start| - |ts| - 1] == LParen
    ensures CallOf(name, ts).Done? ==> Took(start, CallOf(name, ts).rest)
    decreases |ts|, 9
  {
    hide Args, Chain, Took;
    var r := CallOf(name, ts);
    if r.Done? {
      if name == "filtfilt" {
        TookNext(start, ts);
        TookNext(start, ts[1..]);
        assert ts[1..][1..] == ts[2..];
        ArgsTook(ts[2..]);
        ClosedTook(start, ts[2..], Args(ts[2..]));
      } else if ts[0] == RParen {
        TookNext(start, ts);
      } else {
        ArgsTook(ts);
        ClosedTook(start, ts, Args(ts));
      }
    }
  }

  /** One more token, where neighbours fit. */
  lemma TookNext(start: seq<Token>, ts: seq<Token>)
    requires Took(start, ts) && ts != [] && !ts[0].Bad? && Fits(start[|start| - |ts| - 1], ts[0])
    ensures Took(start, ts[1..]) && start[|start| - |ts|] == ts[0]
  {
    TookOne(ts);
    TookBoth(start, ts, ts[1..]);
  }

  /** Behind a sign, whatever comes first there. */
  lemma TookOver(start: seq<Token>, sign: seq<Token>, rest: seq<Token>)
    requires Took(start, sign) && sign != [] && !IsOperand(sign[0]) && sign[0] != LParen && !sign[0].Bad?
    requires Took(sign[1..], rest)
    ensures Took(start, rest)
  {
    TookNext(start, sign);
    TookBoth(start, sign[1..], rest);
  }

  lemma {:induction false} ArgsTook(ts: seq<Token>)
    ensures Args(ts).Done? ==> Took(ts, Args(ts).rest)
    decreases |ts|, 8
  {
    hide Chain, Took;
    ChainTook(0, ts);
    var r := Chain(0, ts);
    if r.Done? && r.rest != [] && r.rest[0] == Comma && Args(r.rest[1..]).Done? {
      ArgsTook(r.rest[1..]);
      TookOver(ts, r.rest, Args(r.rest[1..]).rest);
    }
  }

  /** What parses is tidy: no error tokens, no two operands in a row. */
  lemma ParsedIsTidy(ts: seq<Token>)
    requires Expression(ts).Some?
    ensures Tidy(ts) && Glueless(ts)
  {
    ChainTook(0, ts);
    assert forall i | 0 <= i < |ts| - 1 :: Fits(ts[i], ts[i + 1]);
  }

  // ---- Renaming tokens and parsing commute ---------------------------------------

  lemma RenamedSuffix(cs: Chars, ts: seq<Token>, k: nat, from: string, to: string)
    requires k <= |ts|
    ensures Renamed(cs, ts, from, to)[k..] == Renamed(cs, ts[k..], from, to)
  {
  }

  lemma TidySuffix(ts: seq<Token>, k: nat)
    requires Tidy(ts) && k <= |ts|
    ensures Tidy(ts[k..])
  {
    forall i | 0 <= i < |ts[k..]| - 1
      ensures Fits(ts[k..][i], ts[k..][i + 1])
    {
      assert Fits(ts[k + i], ts[k + i + 1]);
    }
  }

  lemma TidyPair(ts: seq<Token>)
    requires Tidy(ts) && |ts| > 1
    ensures Fits(ts[0], ts[1])
  {
  }

  /** Both at once, for the rest of a parse. */
  lemma RestRenamed(cs: Chars, ts: seq<Token>, rest: seq<Token>, from: string, to: string)
    requires Tidy(ts) && Took(ts, rest)
    ensures Tidy(rest) && Renamed(cs, rest, from, to) == Renamed(cs, ts, from, to)[|ts| - |rest|..]
  {
    TidySuffix(ts, |ts| - |rest|);
    RenamedSuffix(cs, ts, |ts| - |rest|, from, to);
  }

  lemma {:induction false} TailKeepsCalls(level: nat, left: Tree, ts: seq<Token>, f: string)
    requires level <= 1 && Calls(left, f) && ChainTail(level, left, ts).Done?
    ensures Calls(ChainTail(level, left, ts).tree, f)
    decreases |ts|
  {
    var op := OperatorAt(level, ts);
    if op.Some? {
      var r := Operand(level, ts[1..]);
      TailKeepsCalls(level, Bin(op.value, left, r.tree), r.rest, f);
    }
  }

  /** A parse of renamed tokens, when the old parse makes no call by the old name. */
  ghost predicate Follows(cs: Chars, old_: Parsed<Tree>, new_: Parsed<Tree>, from: string, to: string) {
    old_.Done? && !Calls(old_.tree, from) ==>
      new_ == Done(RenamedTree(old_.tree, from, to), Renamed(cs, old_.rest, from, to))
  }

  lemma {:induction false} ChainRenamed(cs: Chars, level: nat, ts: seq<Token>, from: string, to: string)
    requires level <= 1 && Tidy(ts)
    ensures Follows(cs, Chain(level, ts), Chain(level, Renamed(cs, ts, from, to)), from, to)
    decreases |ts|, 6 - 2 * level
  {
    var r := Operand(level, ts);
    if r.Done? {
      OperandTook(level, ts);
      OperandRenamed(cs, level, ts, from, to);
      RestRenamed(cs, ts, r.rest, from, to);
      TailRenamed(cs, level, r.tree, r.rest, from, to);
      if Calls(r.tree, from) && Chain(level, ts).Done? { TailKeepsCalls(level, r.tree, r.rest, from); }
    }
  }

  lemma {:induction false} OperandRenamed(cs: Chars, level: nat, ts: seq<Token>, from: string, to: string)
    requires level <= 1 && Tidy(ts)
    ensures Follows(cs, Operand(level, ts), Operand(level, Renamed(cs, ts, from, to)), from, to)
    decreases |ts|, 5 - 2 * level
  {
    if level == 0 { ChainRenamed(cs, 1, ts, from, to); } else { UnaryRenamed(cs, ts, from, to); }
  }

  lemma {:induction false} TailRenamed(cs: Chars, level: nat, left: Tree, ts: seq<Token>, from: string, to: string)
    requires level <= 1 && Tidy(ts)
    ensures Follows(cs, ChainTail(level, left, ts),
                    ChainTail(level, RenamedTree(left, from, to), Renamed(cs, ts, from, to)), from, to)
    decreases |ts|, 7
  {
    hide Operand, Took, Tidy, Fits;
    var op := OperatorAt(level, ts);
    assert OperatorAt(level, Renamed(cs, ts, from, to)) == op;
    if op.Some? {
      var r := Operand(level, ts[1..]);
      if r.Done? {
        TidySuffix(ts, 1);
        RenamedSuffix(cs, ts, 1, from, to);
        OperandTook(level, ts[1..]);
        OperandRenamed(cs, level, ts[1..], from, to);
        RestRenamed(cs, ts[1..], r.rest, from, to);
        var bin := Bin(op.value, left, r.tree);
        TailRenamed(cs, level, bin, r.rest, from, to);
        if Calls(r.tree, from) && ChainTail(level, left, ts).Done? { TailKeepsCalls(level, bin, r.rest, from); }
      }
    }
  }

  lemma {:induction false} UnaryRenamed(cs: Chars, ts: seq<Token>, from: string, to: string)
    requires Tidy(ts)
    ensures Follows(cs, Unary(ts), Unary(Renamed(cs, ts, from, to)), from, to)
    decreases |ts|, 2
  {
    if ts != [] && (ts[0] == Minus || ts[0] == Plus) {
      TidySuffix(ts, 1);
      RenamedSuffix(cs, ts, 1, from, to);
      UnaryRenamed(cs, ts[1..], from, to);
    } else {
      PrimaryRenamed(cs, ts, from, to);
    }
  }

  lemma {:induction false} PrimaryRenamed(cs: Chars, ts: seq<Token>, from: string, to: string)
    requires Tidy(ts)
    ensures Follows(cs, Primary(ts), Primary(Renamed(cs, ts, from, to)), from, to)
    decreases |ts|, 1
  {
    hide Chain, Took, Args, Renamed, Tidy, CallOf;
    var r := Primary(ts);
    if r.Done? {
      TidySuffix(ts, 1);
      RenamedSuffix(cs, ts, 1, from, to);
      if ts[0] == LParen {
        ChainRenamed(cs, 0, ts[1..], from, to);
        ChainTook(0, ts[1..]);
        var inner := Chain(0, ts[1..]);
        RestRenamed(cs, ts[1..], inner.rest, from, to);
        RenamedSuffix(cs, inner.rest, 1, from, to);
      } else if ts[0].Ident? && |ts| > 1 && ts[1] == LParen {
        TidyPair(ts);
        TidySuffix(ts, 2);
        RenamedSuffix(cs, ts, 2, from, to);
        CallRenamed(cs, ts[0].name, ts[2..], from, to);
        if ts[0].name == from { CallsItself(ts[0].name, ts[2..]); }
      }
    }
  }

  lemma CallsItself(name: string, ts: seq<Token>)
    requires CallOf(name, ts).Done?
    ensures Calls(CallOf(name, ts).tree, name)
  {
  }

  lemma {:induction false} CallRenamed(cs: Chars, name: string, ts: seq<Token>, from: string, to: string)
    requires Tidy(ts)
    ensures Follows(cs, CallOf(name, ts), CallOf(name, Renamed(cs, ts, from, to)), from, to)
    decreases |ts|, 9
  {
    hide Args, Took, Tidy, RenamedTrees, Chain, Renamed;
    var r := CallOf(name, ts);
    if r.Done? && !Calls(r.tree, from) {
      var k := if name == "filtfilt" then 2 else 0;
      TidySuffix(ts, k);
      RenamedSuffix(cs, ts, k, from, to);
      if name == "filtfilt" || ts[0] != RParen {
        var args := Args(ts[k..]);
        assert k == 0 ==> ts[k..] == ts;
        ArgsRenamed(cs, ts[k..], from, to);
        ArgsTook(ts[k..]);
        RestRenamed(cs, ts[k..], args.rest, from, to);
        RenamedSuffix(cs, args.rest, 1, from, to);
      } else {
        RenamedSuffix(cs, ts, 1, from, to);
      }
    }
  }

  lemma {:induction false} ArgsRenamed(cs: Chars, ts: seq<Token>, from: string, to: string)
    requires Tidy(ts)
    ensures var r := Args(ts);
            r.Done? && (forall i | 0 <= i < |r.tree| :: !Calls(r.tree[i], from)) ==> (
              Args(Renamed(cs, ts, from, to))
              == Done(RenamedTrees(r.tree, from, to), Renamed(cs, r.rest, from, to)))
    decreases |ts|, 8
  {
    hide Chain, Took, Tidy, RenamedTree, Renamed, Calls;
    var r := Args(ts);
    if r.Done? && forall i | 0 <= i < |r.tree| :: !Calls(r.tree[i], from) {
      var first := Chain(0, ts);
      assert r.tree[0] == first.tree;
      ChainRenamed(cs, 0, ts, from, to);
      ChainTook(0, ts);
      RestRenamed(cs, ts, first.rest, from, to);
      if first.rest != [] && first.rest[0] == Comma {
        TidySuffix(first.rest, 1);
        RenamedSuffix(cs, first.rest, 1, from, to);
        var more := Args(first.rest[1..]);
        assert r.tree[1..] == more.tree;
        assert forall i | 0 <= i < |more.tree| :: more.tree[i] == r.tree[i + 1];
        ArgsRenamed(cs, first.rest[1..], from, to);
      } else {
        assert RenamedTrees([first.tree], from, to) == [RenamedTree(first.tree, from, to)];
      }
    }
  }

  lemma ExpressionRenamed(cs: Chars, ts: seq<Token>, from: string, to: string)
    requires Expression(ts).Some? && !Calls(Expression(ts).value, from)
    ensures Expression(Renamed(cs, ts, from, to)) == Some(RenamedTree(Expression(ts).value, from, to))
  {
    ParsedIsTidy(ts);
    ChainRenamed(cs, 0, ts, from, to);
  }

  // ---- Renaming in the text --------------------------------------------------------

  /** What a formula text evaluates to over a store. */
  function Value<V>(cs: Chars, a: Algebra<V>, store: map<string, V>, expr: string): Option<V>
    requires cs.Sound()
  {
    match Expression(Tokens(cs, expr))
    case None => None
    case Some(tree) => Eval(a, store, tree)
  }

  /**
    Rename preserves meaning: a formula that parses and does not use the old
    name as a function, rewritten to a referenceable new name, still parses, to
    the same tree with only that channel changed, and has the same value over
    the re-keyed store, including none at all.
   */
  lemma RenamePreservesMeaning<V>(
      cs: Chars, a: Algebra<V>, store: map<string, V>, expr: string, from: string, to: string)
    requires cs.Sound() && Referenceable(cs, to)
    requires var e := Expression(Tokens(cs, expr)); e.Some? && !Calls(e.value, from)
    ensures var e, out := Expression(Tokens(cs, expr)), Rewritten(cs, expr, from, to);
            && Expression(Tokens(cs, out)) == Some(RenamedTree(e.value, from, to))
            && (to !in store && !Refers(e.value, to) ==>
                  Value(cs, a, Rekeyed(store, from, to), out) == Value(cs, a, store, expr))
            && (to !in store && Value(cs, a, store, expr).Some? ==>
                  Value(cs, a, Rekeyed(store, from, to), out) == Value(cs, a, store, expr))
  {
    var ts := Tokens(cs, expr);
    var tree := Expression(ts).value;
    ParsedIsTidy(ts);
    RewritingRenamesTokens(cs, expr, from, to);
    ExpressionRenamed(cs, ts, from, to);
    if to !in store {
      if Value(cs, a, store, expr).Some? { EvalIsLocal(a, store, store, tree); }
      if !Refers(tree, to) { EvalRenamed(a, store, tree, from, to); }
    }
  }

  /**
    The condition on function names is needed: where the old name is called and
    the new one must be bracketed, the rewritten text does not parse at all.
   */
  lemma RenamedCallNoLongerParses(cs: Chars, expr: string, from: string, to: string, i: nat)
    requires cs.Sound() && Referenceable(cs, to) && !Plain(cs, to)
    requires var ts := Tokens(cs, expr);
             Expression(ts).Some? && i + 1 < |ts| && ts[i] == Ident(from, false) && ts[i + 1] == LParen
    ensures Expression(Tokens(cs, Rewritten(cs, expr, from, to))) == None
  {
    var ts := Tokens(cs, expr);
    ParsedIsTidy(ts);
    RewritingRenamesTokens(cs, expr, from, to);
    var us := Renamed(cs, ts, from, to);
    assert !Fits(us[i], us[i + 1]);
    if Expression(us).Some? { ParsedIsTidy(us); }
  }
}
