/**
  The formula grammar as a function from tokens to trees, the value of a tree
  over a store of channels, and the one-pass parser object that computes values
  without building a tree.  Signals are abstract: an Algebra says what numbers,
  operators and registered functions do to them.
 */
module FormulaParser {
  import opened Options
  import opened FormulaLexer

  datatype Operator = Add | Sub | Mul | Div

  datatype Tree =
    | Num(text: string)
    | Chan(name: string)
    | Bin(op: Operator, left: Tree, right: Tree)
    | Neg(inner: Tree)
    | Call(callee: string, args: seq<Tree>)
    | ZeroPhase(filter: string, args: seq<Tree>)

  datatype Parsed<T> = Fail | Done(tree: T, rest: seq<Token>)

  // ---- Grammar ---------------------------------------------------------------

  /** The operators of a level: 0 for sums, 1 for products. */
  function OperatorAt(level: nat, ts: seq<Token>): Option<Operator> {
    if ts == [] then None
    else match ts[0]
      case Plus => if level == 0 then Some(Add) else None
      case Minus => if level == 0 then Some(Sub) else None
      case Star => if level == 1 then Some(Mul) else None
      case Slash => if level == 1 then Some(Div) else None
      case _ => None
  }

  function Chain(level: nat, ts: seq<Token>): (r: Parsed<Tree>)
    requires level <= 1
    ensures r.Done? ==> |r.rest| < |ts|
    decreases |ts|, 6 - 2 * level
  {
    match Operand(level, ts)
    case Fail => Fail
    case Done(left, rest) => ChainTail(level, left, rest)
  }

  function Operand(level: nat, ts: seq<Token>): (r: Parsed<Tree>)
    requires level <= 1
    ensures r.Done? ==> |r.rest| < |ts|
    decreases |ts|, 5 - 2 * level
  {
    if level == 0 then Chain(1, ts) else Unary(ts)
  }

  /** Left-associative: every further operand goes on the right of all so far. */
  function ChainTail(level: nat, left: Tree, ts: seq<Token>): (r: Parsed<Tree>)
    requires level <= 1
    ensures r.Done? ==> |r.rest| <= |ts|
    decreases |ts|, 7
  {
    match OperatorAt(level, ts)
    case None => Done(left, ts)
    case Some(op) =>
      match Operand(level, ts[1..])
      case Fail => Fail
      case Done(right, rest) => ChainTail(level, Bin(op, left, right), rest)
  }

  function Unary(ts: seq<Token>): (r: Parsed<Tree>)
    ensures r.Done? ==> |r.rest| < |ts|
    decreases |ts|, 2
  {
    if ts != [] && ts[0] == Minus then
      match Unary(ts[1..])
      case Fail => Fail
      case Done(inner, rest) => Done(Neg(inner), rest)
    else if ts != [] && ts[0] == Plus then Unary(ts[1..])
    else Primary(ts)
  }

  function Primary(ts: seq<Token>): (r: Parsed<Tree>)
    ensures r.Done? ==> |r.rest| < |ts|
    decreases |ts|, 1
  {
    if ts == [] then Fail
    else match ts[0]
      case Number(text) => Done(Num(text), ts[1..])
      case LParen => Closed(Chain(0, ts[1..]))
      case Ident(name, quoted) =>
        if !quoted && |ts| > 1 && ts[1] == LParen then CallOf(name, ts[2..])
        else Done(Chan(name), ts[1..])
      case _ => Fail
  }

  /** Expects the closing parenthesis behind what was parsed. */
  function Closed<T>(r: Parsed<T>): (s: Parsed<T>)
    ensures s.Done? ==> r.Done? && s.tree == r.tree && r.rest != [] && s.rest == r.rest[1..]
  {
    if r.Done? && r.rest != [] && r.rest[0] == RParen then Done(r.tree, r.rest[1..]) else Fail
  }

  /** A call, from behind its opening parenthesis. */
  function CallOf(name: string, ts: seq<Token>): (r: Parsed<Tree>)
    ensures r.Done? ==> |r.rest| < |ts|
    decreases |ts|, 9
  {
    if name == "filtfilt" then
      if |ts| < 2 || !ts[0].Ident? || ts[1] != Comma then Fail
      else match Closed(Args(ts[2..]))
        case Fail => Fail
        case Done(args, rest) => Done(ZeroPhase(ts[0].name, args), rest)
    else if ts != [] && ts[0] == RParen then Done(Call(name, []), ts[1..])
    else match Closed(Args(ts))
      case Fail => Fail
      case Done(args, rest) => Done(Call(name, args), rest)
  }

  function Args(ts: seq<Token>): (r: Parsed<seq<Tree>>)
    ensures r.Done? ==> |r.rest| < |ts| && r.tree != []
    decreases |ts|, 8
  {
    match Chain(0, ts)
    case Fail => Fail
    case Done(first, rest) =>
      if rest != [] && rest[0] == Comma then
        Prepend([first], Args(rest[1..]))
      else Done([first], rest)
  }

  function Prepend(trees: seq<Tree>, r: Parsed<seq<Tree>>): Parsed<seq<Tree>> {
    match r
    case Fail => Fail
    case Done(more, rest) => Done(trees + more, rest)
  }

  lemma PrependTwice(trees: seq<Tree>, one: Tree, r: Parsed<seq<Tree>>)
    ensures Prepend([], r) == r
    ensures Prepend(trees, Prepend([one], r)) == Prepend(trees + [one], r)
  {
    if r.Done? {
      assert [] + r.tree == r.tree;
      assert trees + ([one] + r.tree) == trees + [one] + r.tree;
    }
  }

  /** A whole expression: a sum with nothing behind it. */
  function Expression(ts: seq<Token>): Option<Tree> {
    match Chain(0, ts)
    case Fail => None
    case Done(tree, rest) => if rest == [] then Some(tree) else None
  }

  // ---- Values ----------------------------------------------------------------

  datatype Function<!V> = Function(minArgs: nat, maxArgs: int, impl: seq<V> -> Option<V>)
  {
    predicate Accepts(n: nat) { minArgs <= n && (maxArgs > 0 ==> n <= maxArgs) }
  }

  datatype Algebra<!V> = Algebra(
    number: string -> V,
    minusOne: V,
    binary: (Operator, V, V) -> Option<V>,
    functions: map<string, Function<V>>)

  const Filterable: set<string> :=
    {"Filter", "FilterHP", "PT", "Butterworth", "Cheby1", "Cheby2", "Elliptic", "Mean", "RMS"}

  function Apply<V>(a: Algebra<V>, name: string, args: seq<V>): Option<V> {
    if name in a.functions && a.functions[name].Accepts(|args|) then a.functions[name].impl(args) else None
  }

  /** Forward, reversed, forward again, reversed back. */
  function ApplyZeroPhase<V>(a: Algebra<V>, filter: string, args: seq<V>): Option<V>
    requires args != []
  {
    if filter !in Filterable || filter !in a.functions || "Reverse" !in a.functions
       || !a.functions[filter].Accepts(|args|)
    then None
    else
      var forward, reverse := a.functions[filter].impl, a.functions["Reverse"].impl;
      match forward(args)
      case None => None
      case Some(y1) =>
        match reverse([y1])
        case None => None
        case Some(r1) =>
          match forward(args[0 := r1])
          case None => None
          case Some(y2) => reverse([y2])
  }

  function Eval<V>(a: Algebra<V>, store: map<string, V>, tree: Tree): Option<V>
    decreases tree, 0
  {
    match tree
    case Num(text) => Some(a.number(text))
    case Chan(name) => if name in store then Some(store[name]) else None
    case Bin(op, left, right) =>
      var x, y := Eval(a, store, left), Eval(a, store, right);
      if x.Some? && y.Some? then a.binary(op, x.value, y.value) else None
    case Neg(inner) =>
      var x := Eval(a, store, inner);
      if x.Some? then a.binary(Mul, a.minusOne, x.value) else None
    case Call(name, args) =>
      var xs := EvalAll(a, store, args);
      if xs.Some? then Apply(a, name, xs.value) else None
    case ZeroPhase(filter, args) =>
      var xs := EvalAll(a, store, args);
      if xs.Some? && xs.value != [] then ApplyZeroPhase(a, filter, xs.value) else None
  }

  function EvalAll<V>(a: Algebra<V>, store: map<string, V>, trees: seq<Tree>): (r: Option<seq<V>>)
    ensures r.Some? ==> |r.value| == |trees|
    decreases trees, 1
  {
    if trees == [] then Some([])
    else
      var x, xs := Eval(a, store, trees[0]), EvalAll(a, store, trees[1..]);
      if x.Some? && xs.Some? then Some([x.value] + xs.value) else None
  }

  lemma EvalBin<V>(a: Algebra<V>, store: map<string, V>, op: Operator, left: Tree, right: Tree)
    ensures Eval(a, store, Bin(op, left, right))
         == var x, y := Eval(a, store, left), Eval(a, store, right);
            if x.Some? && y.Some? then a.binary(op, x.value, y.value) else None
  {
  }

  /** A failed left operand makes the whole chain fail. */
  lemma {:induction false} TailKeepsFailure<V>(a: Algebra<V>, store: map<string, V>, level: nat, left: Tree, ts: seq<Token>)
    requires level <= 1 && Eval(a, store, left) == None
    ensures ChainTail(level, left, ts).Done? ==> Eval(a, store, ChainTail(level, left, ts).tree) == None
    decreases |ts|
  {
    var op := OperatorAt(level, ts);
    if op.Some? {
      var r := Operand(level, ts[1..]);
      if r.Done? {
        TailKeepsFailure(a, store, level, Bin(op.value, left, r.tree), r.rest);
      }
    }
  }

  lemma {:induction false} EvalAllAppend<V>(a: Algebra<V>, store: map<string, V>, trees: seq<Tree>, last: Tree)
    ensures var xs, x := EvalAll(a, store, trees), Eval(a, store, last);
            EvalAll(a, store, trees + [last]) == if xs.Some? && x.Some? then Some(xs.value + [x.value]) else None
  {
    if trees == [] {
      assert trees + [last] == [last] && [last][1..] == [];
      NoArguments(a, store);
      var x := Eval(a, store, last);
      assert EvalAll(a, store, [last]) == if x.Some? then Some([x.value] + []) else None;
      if x.Some? { assert [x.value] + [] == [] + [x.value]; }
    } else {
      assert (trees + [last])[1..] == trees[1..] + [last];
      EvalAllAppend(a, store, trees[1..], last);
      var head, xs, x := Eval(a, store, trees[0]), EvalAll(a, store, trees[1..]), Eval(a, store, last);
      if head.Some? && xs.Some? && x.Some? {
        assert [head.value] + (xs.value + [x.value]) == [head.value] + xs.value + [x.value];
      }
    }
  }

  /** One missing argument and the call has no value. */
  lemma {:induction false} EvalAllNeedsEach<V>(a: Algebra<V>, store: map<string, V>, trees: seq<Tree>, i: nat)
    requires i < |trees| && Eval(a, store, trees[i]) == None
    ensures EvalAll(a, store, trees) == None
  {
    if i > 0 {
      EvalAllNeedsEach(a, store, trees[1..], i - 1);
    }
  }

  lemma NoArguments<V>(a: Algebra<V>, store: map<string, V>)
    ensures EvalAll(a, store, []) == Some([])
  {
  }

  // ---- The one-pass parser -----------------------------------------------------

  class Parser<V> {
    const lex: Lexer
    const a: Algebra<V>
    const store: map<string, V>
    var cur: Token

    ghost predicate Valid()
      reads this, lex
    {
      lex.Valid() && (cur == End ==> Tokens(lex.cs, lex.src[lex.p..]) == [])
    }

    /** The tokens not yet consumed. */
    ghost function Rest(): seq<Token>
      requires Valid()
      reads this, lex
    {
      if cur == End then [] else [cur] + Tokens(lex.cs, lex.src[lex.p..])
    }

    constructor (cs: Chars, src: string, a: Algebra<V>, store: map<string, V>)
      requires cs.Sound()
      ensures Valid() && fresh(lex) && Rest() == Tokens(cs, src) && this.a == a && this.store == store
    {
      this.a, this.store, this.cur := a, store, End;
      lex := new Lexer(cs, src);
      new;
      cur := Pull();
      assert src[0..] == src;
    }

    /** The next token of the lexer. */
    method Pull() returns (token: Token)
      requires lex.Valid()
      modifies lex
      ensures lex.Valid()
      ensures Tokens(lex.cs, lex.src[old(lex.p)..])
           == if token == End then [] else [token] + Tokens(lex.cs, lex.src[lex.p..])
      ensures token == End ==> Tokens(lex.cs, lex.src[lex.p..]) == []
    {
      hide Lex;
      ghost var p := lex.p;
      var pos;
      token, pos := lex.Next();
      assert lex.src[p..][lex.p - p..] == lex.src[lex.p..];
      if token == End { assert lex.src[lex.p..] == ""; }
    }

    method Advance()
      requires Valid()
      modifies this, lex
      ensures Valid() && Rest() == if old(Rest()) == [] then [] else old(Rest())[1..]
    {
      cur := Pull();
    }

    method Accept(kind: Token) returns (ok: bool)
      requires Valid() && kind != End
      modifies this, lex
      ensures Valid() && ok == (old(Rest()) != [] && old(Rest())[0] == kind)
      ensures Rest() == if ok then old(Rest())[1..] else old(Rest())
    {
      ok := cur == kind;
      if ok { Advance(); }
    }

    /** v is the value of what parsed as r: nothing when either step fails. */
    ghost predicate Yields(v: Option<V>, r: Parsed<Tree>)
      requires Valid()
      reads this, lex
    {
      if r.Done? then v == Eval(a, store, r.tree) && (v.Some? ==> Rest() == r.rest) else v == None
    }

    method Additive() returns (left: Option<V>)
      requires Valid()
      modifies this, lex
      ensures Valid() && Yields(left, Chain(0, old(Rest())))
      decreases |Rest()|, 6
    {
      hide Tokens, Lex, Unary, Eval;
      ghost var ts := Rest();
      left := Multiplicative();
      if left == None {
        var r := Operand(0, ts);
        if r.Done? { TailKeepsFailure(a, store, 0, r.tree, r.rest); }
        return None;
      }
      ghost var tree := Operand(0, ts).tree;
      while cur == Plus || cur == Minus
        invariant Valid() && |Rest()| < |ts|
        invariant left.Some? && left == Eval(a, store, tree)
        invariant Chain(0, ts) == ChainTail(0, tree, Rest())
        decreases |Rest()|
      {
        ghost var before := Rest();
        var op := if cur == Plus then Add else Sub;
        Advance();
        var right := Multiplicative();
        ghost var r := Operand(0, before[1..]);
        if r.Done? {
          EvalBin(a, store, op, tree, r.tree);
          tree := Bin(op, tree, r.tree);
          if Eval(a, store, tree) == None { TailKeepsFailure(a, store, 0, tree, r.rest); }
        }
        if right == None { return None; }
        left := a.binary(op, left.value, right.value);
        if left == None { return None; }
      }
    }

    method Multiplicative() returns (left: Option<V>)
      requires Valid()
      modifies this, lex
      ensures Valid() && Yields(left, Chain(1, old(Rest())))
      decreases |Rest()|, 4
    {
      hide Tokens, Lex, Unary, Eval;
      ghost var ts := Rest();
      left := UnaryValue();
      if left == None {
        var r := Operand(1, ts);
        if r.Done? { TailKeepsFailure(a, store, 1, r.tree, r.rest); }
        return None;
      }
      ghost var tree := Operand(1, ts).tree;
      while cur == Star || cur == Slash
        invariant Valid() && |Rest()| < |ts|
        invariant left.Some? && left == Eval(a, store, tree)
        invariant Chain(1, ts) == ChainTail(1, tree, Rest())
        decreases |Rest()|
      {
        ghost var before := Rest();
        var op := if cur == Star then Mul else Div;
        Advance();
        var right := UnaryValue();
        ghost var r := Operand(1, before[1..]);
        if r.Done? {
          EvalBin(a, store, op, tree, r.tree);
          tree := Bin(op, tree, r.tree);
          if Eval(a, store, tree) == None { TailKeepsFailure(a, store, 1, tree, r.rest); }
        }
        if right == None { return None; }
        left := a.binary(op, left.value, right.value);
        if left == None { return None; }
      }
    }

    method UnaryValue() returns (v: Option<V>)
      requires Valid()
      modifies this, lex
      ensures Valid() && Yields(v, Unary(old(Rest())))
      decreases |Rest()|, 2
    {
      hide Tokens, Lex, Primary;
      if cur == Minus {
        Advance();
        var inner := UnaryValue();
        if inner == None { return None; }
        return a.binary(Mul, a.minusOne, inner.value);
      }
      if cur == Plus {
        Advance();
        v := UnaryValue();
        return;
      }
      v := PrimaryValue();
    }

    method PrimaryValue() returns (v: Option<V>)
      requires Valid()
      modifies this, lex
      ensures Valid() && Yields(v, Primary(old(Rest())))
      decreases |Rest()|, 1
    {
      hide Tokens, Lex, Chain, Args, CallOf, EvalAll;
      if cur.Number? {
        v := Some(a.number(cur.text));
        Advance();
        return;
      }
      if cur == LParen {
        Advance();
        v := Additive();
        if v == None { return None; }
        var ok := Accept(RParen);
        return if ok then v else None;
      }
      if !cur.Ident? { return None; }
      var name, quoted := cur.name, cur.quoted;
      Advance();
      if !quoted && cur == LParen {
        Advance();
        v := CallValue(name);
        return;
      }
      return if name in store then Some(store[name]) else None;
    }

    method CallValue(name: string) returns (v: Option<V>)
      requires Valid()
      modifies this, lex
      ensures Valid() && Yields(v, CallOf(name, old(Rest())))
      decreases |Rest()|, 9
    {
      hide Tokens, Lex, Args, EvalAll, Apply, ApplyZeroPhase;
      NoArguments(a, store);
      if name == "filtfilt" {
        if !cur.Ident? { return None; }
        var filter := cur.name;
        Advance();
        var comma := Accept(Comma);
        if !comma { return None; }
        var args := Arguments();
        if args == None { return None; }
        var ok := Accept(RParen);
        if !ok { return None; }
        return ApplyZeroPhase(a, filter, args.value);
      }
      var args := Some([]);
      if cur != RParen {
        args := Arguments();
        if args == None { return None; }
      }
      var ok := Accept(RParen);
      if !ok { return None; }
      return Apply(a, name, args.value);
    }

    method Arguments() returns (args: Option<seq<V>>)
      requires Valid()
      modifies this, lex
      ensures Valid()
      ensures var r := Args(old(Rest()));
              if r.Done? then args == EvalAll(a, store, r.tree) && (args.Some? ==> Rest() == r.rest) else args == None
      decreases |Rest()|, 8
    {
      hide Tokens, Lex, Chain, Eval, EvalAll;
      var values: seq<V> := [];
      ghost var ts, trees := Rest(), [];
      NoArguments(a, store);
      PrependTwice([], Num(""), Args(ts));
      while true
        invariant Valid() && |Rest()| <= |ts|
        invariant EvalAll(a, store, trees) == Some(values)
        invariant Args(ts) == Prepend(trees, Args(Rest()))
        decreases |Rest()|
      {
        ghost var before := Rest();
        var v := Additive();
        ghost var r := Chain(0, before);
        if r.Done? {
          EvalAllAppend(a, store, trees, r.tree);
          assert Args(ts).Done? ==> Args(ts).tree[|trees|] == r.tree;
        }
        if v == None {
          if Args(ts).Done? { EvalAllNeedsEach(a, store, Args(ts).tree, |trees|); }
          return None;
        }
        if cur != Comma {
          trees, values := trees + [r.tree], values + [v.value];
          break;
        }
        Advance();
        PrependTwice(trees, r.tree, Args(Rest()));
        trees, values := trees + [r.tree], values + [v.value];
      }
      return Some(values);
    }
  }
}
