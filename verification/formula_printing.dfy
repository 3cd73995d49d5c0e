/**
  An independent reading of the formula grammar: writing a tree down with the
  fewest parentheses, sums binding loosest and chains leaning left, and getting
  the same tree back.
 */
module FormulaPrinting {
  import opened Options
  import opened FormulaLexer
  import opened FormulaParser

  function LevelOf(op: Operator): nat { if op == Add || op == Sub then 0 else 1 }

  function Sign(op: Operator): Token {
    match op
    case Add => Plus
    case Sub => Minus
    case Mul => Star
    case Div => Slash
  }

  /** The tokens of a tree in a place that binds at least at `level`, in front of `rest`. */
  function Shown(level: nat, tree: Tree, rest: seq<Token>): (ts: seq<Token>)
    decreases tree, 1
  {
    match tree
    case Num(text) => [Number(text)] + rest
    case Chan(name) => [Ident(name, true)] + rest
    case Bin(op, left, right) =>
      var own := LevelOf(op);
      if level <= own then Shown(own, left, [Sign(op)] + Shown(own + 1, right, rest))
      else [LParen] + Shown(own, left, [Sign(op)] + Shown(own + 1, right, [RParen] + rest))
    case Neg(inner) => [Minus] + Shown(2, inner, rest)
    case Call(callee, args) => [Ident(callee, false), LParen] + ShownAll(args, [RParen] + rest)
    case ZeroPhase(filter, args) =>
      [Ident("filtfilt", false), LParen, Ident(filter, false), Comma] + ShownAll(args, [RParen] + rest)
  }

  function ShownAll(trees: seq<Tree>, rest: seq<Token>): (ts: seq<Token>)
    decreases trees, 0
  {
    if trees == [] then rest
    else Shown(0, trees[0], if |trees| == 1 then rest else [Comma] + ShownAll(trees[1..], rest))
  }

  /** The trees the grammar can produce at all: filtfilt is always the special form, with arguments. */
  predicate WellMade(tree: Tree)
    decreases tree
  {
    match tree
    case Num(_) => true
    case Chan(_) => true
    case Bin(_, left, right) => WellMade(left) && WellMade(right)
    case Neg(inner) => WellMade(inner)
    case Call(callee, args) => callee != "filtfilt" && forall i | 0 <= i < |args| :: WellMade(args[i])
    case ZeroPhase(_, args) => args != [] && forall i | 0 <= i < |args| :: WellMade(args[i])
  }

  /** Which levels of the same tree rest on which. */
  function Rank(level: nat, tree: Tree): nat {
    if !tree.Bin? then 3 - (if level < 3 then level else 3)
    else if LevelOf(tree.op) == 1 then (if level == 1 then 1 else if level == 0 then 2 else 3)
    else if level == 0 then 1 else if level == 1 then 3 else 2
  }

  /** What a tree looks like, read from a place of that level with anything loose behind it. */
  ghost predicate ReadsBack(level: nat, tree: Tree, rest: seq<Token>) {
    match level
    case 0 => OperatorAt(1, rest) == None ==> Chain(0, Shown(0, tree, rest)) == ChainTail(0, tree, rest)
    case 1 => Chain(1, Shown(1, tree, rest)) == ChainTail(1, tree, rest)
    case _ => Unary(Shown(2, tree, rest)) == Done(tree, rest)
  }

  lemma {:induction false} ShownReadsBack(level: nat, tree: Tree, rest: seq<Token>)
    requires level <= 2 && WellMade(tree)
    ensures ReadsBack(level, tree, rest)
    decreases tree, Rank(level, tree)
  {
    match tree
    case Bin(op, left, right) =>
      var own := LevelOf(op);
      if level == own {
        ChainReadsBack(op, left, right, rest);
      } else if level < own {
        ShownReadsBack(1, tree, rest);
      } else if level == 2 {
        ShownReadsBack(0, tree, [RParen] + rest);
      } else {
        ShownReadsBack(2, tree, rest);
      }
    case _ =>
      if level < 2 {
        ShownReadsBack(level + 1, tree, rest);
      } else {
        UnaryReadsBack(tree, rest);
      }
  }

  /** An operator at its own level. */
  lemma {:induction false} ChainReadsBack(op: Operator, left: Tree, right: Tree, rest: seq<Token>)
    requires WellMade(left) && WellMade(right)
    ensures ReadsBack(LevelOf(op), Bin(op, left, right), rest)
    decreases Bin(op, left, right), 0
  {
    var own := LevelOf(op);
    var tail := Shown(own + 1, right, rest);
    ShownReadsBack(own, left, [Sign(op)] + tail);
    ShownReadsBack(own + 1, right, rest);
    var mid := [Sign(op)] + tail;
    assert mid[1..] == tail && OperatorAt(own, mid) == Some(op);
    if own == 1 || OperatorAt(1, rest) == None {
      assert Operand(own, tail) == Done(right, rest);
      assert ChainTail(own, left, mid) == ChainTail(own, Bin(op, left, right), rest);
      assert own == 0 ==> OperatorAt(1, mid) == None;
      assert Shown(own, Bin(op, left, right), rest) == Shown(own, left, mid);
    }
  }

  /** Whatever is no operator chain. */
  lemma {:induction false} UnaryReadsBack(tree: Tree, rest: seq<Token>)
    requires WellMade(tree) && !tree.Bin?
    ensures Unary(Shown(2, tree, rest)) == Done(tree, rest)
    decreases tree, 0
  {
    var ts := Shown(2, tree, rest);
    match tree
    case Num(_) => assert ts[1..] == rest;
    case Chan(_) => assert ts[1..] == rest;
    case Neg(inner) =>
      ShownReadsBack(2, inner, rest);
      assert ts[1..] == Shown(2, inner, rest);
    case Call(callee, args) =>
      AllReadBack(args, rest);
      CallReadsBack(callee, args, ts, rest);
    case ZeroPhase(filter, args) =>
      AllReadBack(args, rest);
      ZeroPhaseReadsBack(filter, args, ts, rest);
  }

  lemma CallReadsBack(callee: string, args: seq<Tree>, ts: seq<Token>, rest: seq<Token>)
    requires callee != "filtfilt"
    requires var end := [RParen] + rest;
             && ts == [Ident(callee, false), LParen] + ShownAll(args, end)
             && (args != [] ==> Args(ShownAll(args, end)) == Done(args, end) && ShownAll(args, end)[0] != RParen)
    ensures Unary(ts) == Done(Call(callee, args), rest)
  {
    hide Args;
    var end := [RParen] + rest;
    var inner := ShownAll(args, end);
    assert end[1..] == rest;
    assert ts[2..] == inner && ts[0] == Ident(callee, false) && ts[1] == LParen;
    assert Unary(ts) == CallOf(callee, inner);
    if args == [] { assert inner == end; }
  }

  lemma ZeroPhaseReadsBack(filter: string, args: seq<Tree>, ts: seq<Token>, rest: seq<Token>)
    requires var end := [RParen] + rest;
             && ts == [Ident("filtfilt", false), LParen, Ident(filter, false), Comma] + ShownAll(args, end)
             && Args(ShownAll(args, end)) == Done(args, end)
    ensures Unary(ts) == Done(ZeroPhase(filter, args), rest)
  {
    hide Args;
    var end := [RParen] + rest;
    var inner, behind := ShownAll(args, end), ts[2..];
    assert end[1..] == rest;
    assert behind[0] == Ident(filter, false) && behind[1] == Comma && behind[2..] == inner;
    assert ts[0] == Ident("filtfilt", false) && ts[1] == LParen;
    assert Unary(ts) == CallOf("filtfilt", behind);
  }

  lemma {:induction false} AllReadBack(trees: seq<Tree>, rest: seq<Token>)
    requires forall i | 0 <= i < |trees| :: WellMade(trees[i])
    ensures trees != [] ==> Args(ShownAll(trees, [RParen] + rest)) == Done(trees, [RParen] + rest)
    ensures trees != [] ==> ShownAll(trees, [RParen] + rest)[0] != RParen
    decreases trees, 0
  {
    hide Shown, ShownAll, Args, Chain;
    if trees != [] {
      var end := [RParen] + rest;
      var tail := if |trees| == 1 then end else [Comma] + ShownAll(trees[1..], end);
      assert ShownAll(trees, end) == Shown(0, trees[0], tail) by { FirstShown(trees, end); }
      ShownReadsBack(0, trees[0], tail);
      ShownHead(0, trees[0], tail);
      FirstArg(ShownAll(trees, end), trees[0], tail);
      if |trees| > 1 {
        AllReadBack(trees[1..], rest);
        assert tail[1..] == ShownAll(trees[1..], end);
        assert [trees[0]] + trees[1..] == trees;
      } else {
        assert [trees[0]] == trees;
      }
    }
  }

  lemma FirstShown(trees: seq<Tree>, end: seq<Token>)
    requires trees != []
    ensures ShownAll(trees, end)
         == Shown(0, trees[0], if |trees| == 1 then end else [Comma] + ShownAll(trees[1..], end))
  {
  }

  lemma FirstArg(ts: seq<Token>, tree: Tree, tail: seq<Token>)
    requires Chain(0, ts) == Done(tree, tail) && tail != []
    ensures Args(ts) == if tail[0] == Comma then Prepend([tree], Args(tail[1..])) else Done([tree], tail)
  {
    hide Chain;
  }

  lemma {:induction false} ShownHead(level: nat, tree: Tree, rest: seq<Token>)
    ensures Shown(level, tree, rest) != [] && Shown(level, tree, rest)[0] != RParen
    decreases tree
  {
    if tree.Bin? && level <= LevelOf(tree.op) {
      ShownHead(LevelOf(tree.op), tree.left, [Sign(tree.op)] + Shown(LevelOf(tree.op) + 1, tree.right, rest));
    }
  }

  /** Every tree of the grammar is the reading of its own printing. */
  lemma PrintThenParse(tree: Tree)
    requires WellMade(tree)
    ensures Expression(Shown(0, tree, [])) == Some(tree)
  {
    ShownReadsBack(0, tree, []);
  }
}
