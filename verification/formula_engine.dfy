/**
  The formula engine: its store, its formulas and their order, and the
  recomputation that tries pending formulas in passes until none succeeds.
 */
module FormulaEngine {
  import opened Options
  import opened FormulaLexer
  import opened FormulaNames
  import opened FormulaParser
  import opened FormulaRename
  import opened FormulaFixpoint
  import opened FormulaOrder

  // ---- Lines -------------------------------------------------------------------

  /** A line `Out = expression`, split into the output name and the expression's text. */
  function Assignment(cs: Chars, line: string): Option<(string, string)>
    requires cs.Sound()
  {
    var x := Lex(cs, line);
    if !x.token.Ident? then None
    else
      var y := Lex(cs, line[x.stop..]);
      if y.token != Assign then None else Some((x.token.name, line[x.stop + y.start + 1..]))
  }

  /** The line a recomputation builds for a formula. */
  ghost function LineFor(cs: Chars, name: string, expr: string): string { Quoted(cs, name) + " = " + expr }

  lemma LineText(cs: Chars, name: string, text: string, expr: string)
    requires text == Quoted(cs, name)
    ensures text + " = " + expr == LineFor(cs, name, expr)
  {
  }

  /** The line a recomputation builds for a formula gives back that formula. */
  lemma LineOfFormula(cs: Chars, name: string, expr: string)
    requires cs.Sound() && Referenceable(cs, name)
    ensures Assignment(cs, LineFor(cs, name, expr)) == Some((name, " " + expr))
  {
    hide Lex, Quoted, Referenceable;
    var text, tail := Quoted(cs, name), " = " + expr;
    NameReads(cs, name, tail);
    AssignReads(cs, expr);
    var line := text + tail;
    assert line[|text|..] == tail && tail[2..] == " " + expr;
    assert line[|text| + 2..] == tail[2..];
    assert LineFor(cs, name, expr) == line;
  }

  lemma NameReads(cs: Chars, name: string, tail: string)
    requires cs.Sound() && Referenceable(cs, name) && Ends(cs, tail)
    ensures var text := Quoted(cs, name); Lex(cs, text + tail) == Lexeme(Ident(name, !Plain(cs, name)), 0, |text|)
  {
    QuotedReadsBack(cs, name, tail);
    QuotedIsNotBlank(cs, name);
    hide Lex, First, Quoted;
    var text := Quoted(cs, name);
    assert (text + tail)[0] == text[0] && "" + (text + tail) == text + tail;
    LexIs(cs, "", text + tail);
  }

  /** The blank behind its equals sign is no part of the formula. */
  lemma BlankInFront(cs: Chars, expr: string)
    requires cs.Sound()
    ensures Tokens(cs, " " + expr) == Tokens(cs, expr)
    ensures IsTrimmed(cs, expr) ==> Trim(cs, " " + expr) == expr
  {
    assert (" " + expr)[1..] == expr;
    LeadingBlank(cs, " " + expr);
  }

  lemma AssignReads(cs: Chars, expr: string)
    requires cs.Sound()
    ensures Lex(cs, " = " + expr) == Lexeme(Assign, 1, 2)
  {
    var rest := "= " + expr;
    assert " = " + expr == " " + rest;
    LexIs(cs, " ", rest);
    assert First(cs, rest) == (Assign, 1);
  }

  lemma QuotedIsNotBlank(cs: Chars, name: string)
    requires cs.Sound()
    ensures var text := Quoted(cs, name); !cs.space(text[0]) && !cs.space(text[|text| - 1])
  {
  }

  /** What is recorded for an accepted line is trimmed, not empty, and means the same. */
  lemma RecordedFormula<V>(cs: Chars, a: Algebra<V>, store: map<string, V>, expr: string)
    requires cs.Sound() && Value(cs, a, store, expr).Some?
    ensures Trim(cs, expr) != "" && Tokens(cs, Trim(cs, expr)) == Tokens(cs, expr)
  {
    ParsedIsTidy(Tokens(cs, expr));
    TrimKeepsTokens(cs, expr);
    if Trim(cs, expr) == "" { TokensOfBlank(cs, ""); }
  }

  // ---- Name lists ----------------------------------------------------------------

  function Without(names: seq<string>, gone: set<string>): (r: seq<string>)
    ensures |r| <= |names|
  {
    if names == [] then []
    else
      var last := names[|names| - 1];
      Without(names[..|names| - 1], gone) + if last in gone then [] else [last]
  }

  lemma {:induction false} WithoutHas(names: seq<string>, gone: set<string>, n: string)
    ensures n in Without(names, gone) <==> n in names && n !in gone
  {
    if names != [] {
      var k := |names| - 1;
      WithoutHas(names[..k], gone, n);
      assert names == names[..k] + [names[k]];
    }
  }

  lemma WithoutMembers(names: seq<string>, gone: set<string>)
    ensures forall n :: n in Without(names, gone) <==> n in names && n !in gone
  {
    forall n
      ensures n in Without(names, gone) <==> n in names && n !in gone
    {
      WithoutHas(names, gone, n);
    }
  }

  ghost predicate Distinct(names: seq<string>) {
    forall i, j | 0 <= i < j < |names| :: names[i] != names[j]
  }

  lemma {:induction false} WithoutKeepsDistinct(names: seq<string>, gone: set<string>)
    requires Distinct(names)
    ensures Distinct(Without(names, gone))
  {
    if names != [] {
      var k := |names| - 1;
      WithoutKeepsDistinct(names[..k], gone);
      WithoutHas(names[..k], gone, names[k]);
    }
  }

  lemma {:induction false} WithoutTwice(names: seq<string>, one: set<string>, two: set<string>)
    ensures Without(Without(names, one), two) == Without(names, one + two)
  {
    if names != [] {
      WithoutTwice(names[..|names| - 1], one, two);
      var last := names[|names| - 1];
      WithoutAppend(Without(names[..|names| - 1], one), if last in one then [] else [last], two);
    }
  }

  lemma WithoutLast(names: seq<string>, last: string, gone: set<string>)
    ensures Without(names + [last], gone) == Without(names, gone) + if last in gone then [] else [last]
  {
    assert (names + [last])[..|names|] == names;
  }

  lemma {:induction false} WithoutAppend(names: seq<string>, more: seq<string>, gone: set<string>)
    ensures Without(names + more, gone) == Without(names, gone) + Without(more, gone)
  {
    if more == [] {
      assert names + more == names;
    } else {
      hide Without;
      var n, last := |more| - 1, more[|more| - 1];
      var head := more[..n];
      WithoutAppend(names, head, gone);
      assert names + more == (names + head) + [last];
      WithoutLast(names + head, last, gone);
      assert more == head + [last];
      WithoutLast(head, last, gone);
    }
  }

  lemma {:induction false} WithoutAbsent(names: seq<string>, gone: set<string>)
    requires forall n | n in names :: n !in gone
    ensures Without(names, gone) == names
  {
    if names != [] {
      WithoutAbsent(names[..|names| - 1], gone);
      assert names == names[..|names| - 1] + [names[|names| - 1]];
    }
  }

  function Elems(names: seq<string>): (r: set<string>)
    ensures forall n :: n in r <==> n in names
  {
    set n | n in names
  }

  /** Moving one more name to the end. */
  lemma MovedToEnd(names: seq<string>, done: seq<string>, name: string)
    requires name !in done
    ensures Without(Without(names, Elems(done)) + done, {name}) + [name]
         == Without(names, Elems(done + [name])) + (done + [name])
  {
    hide Without, Elems;
    var gone := Elems(done);
    WithoutAppend(Without(names, gone), done, {name});
    WithoutTwice(names, gone, {name});
    WithoutAbsent(done, {name});
    assert gone + {name} == Elems(done + [name]);
  }

  /** What is left of a list after trying one more of it. */
  lemma LeftAfterOne(names: seq<string>, won: seq<string>, name: string)
    requires name !in names && forall n | n in won :: n in names
    ensures Without(names + [name], Elems(won + [name])) == Without(names, Elems(won))
    ensures Without(names + [name], Elems(won)) == Without(names, Elems(won)) + [name]
  {
    var gone := Elems(won);
    assert Elems(won + [name]) == gone + {name};
    WithoutTwice(names, gone, {name});
    WithoutMembers(names, gone);
    WithoutAbsent(Without(names, gone), {name});
    WithoutLast(names, name, gone + {name});
    WithoutLast(names, name, gone);
  }

  // ---- What lines do -----------------------------------------------------------------

  /** What a line reads and no line changes. */
  datatype Rules<!V> = Rules(cs: Chars, a: Algebra<V>, stored: V -> V)

  /** What lines change. */
  datatype Standing<V> = Standing(store: map<string, V>, formulas: map<string, string>, order: seq<string>)

  /** The effect of a line, if it is an assignment whose expression has a value. */
  ghost function Ran<V>(rules: Rules<V>, st: Standing<V>, line: string): Option<Standing<V>>
    requires rules.cs.Sound()
  {
    var l := Assignment(rules.cs, line);
    if l.None? || Value(rules.cs, rules.a, st.store, l.value.1).None? then None
    else
      var name, expr := l.value.0, l.value.1;
      Some(Standing(st.store[name := rules.stored(Value(rules.cs, rules.a, st.store, expr).value)],
                    st.formulas[name := Trim(rules.cs, expr)], Without(st.order, {name}) + [name]))
  }

  /** The effect of trying a formula again, through the line it is spelt as. */
  ghost function Retried<V>(rules: Rules<V>, st: Standing<V>, name: string): Option<Standing<V>>
    requires rules.cs.Sound() && name in st.formulas
  {
    Ran(rules, st, LineFor(rules.cs, name, st.formulas[name]))
  }

  /** Trying these in turn: what that leaves, and the names that failed. */
  ghost function PassOver<V>(rules: Rules<V>, st: Standing<V>, pending: seq<string>): (r: (Standing<V>, seq<string>))
    requires rules.cs.Sound()
    ensures |r.1| <= |pending|
  {
    if pending == [] then (st, [])
    else
      var n := |pending| - 1;
      var (before, still) := PassOver(rules, st, pending[..n]);
      if pending[n] !in before.formulas then (before, still)
      else
        match Retried(rules, before, pending[n])
        case None => (before, still + [pending[n]])
        case Some(next) => (next, still)
  }

  /** Trying what failed again and again until nothing succeeds. */
  ghost function Rerun<V>(rules: Rules<V>, st: Standing<V>, pending: seq<string>): (Standing<V>, seq<string>)
    requires rules.cs.Sound()
    decreases |pending|
  {
    if pending == [] then (st, [])
    else
      var (next, still) := PassOver(rules, st, pending);
      if |still| == |pending| then (next, still) else Rerun(rules, next, still)
  }

  // ---- The engine ------------------------------------------------------------------

  /** The order lists each formula once; formulas are trimmed and not empty. */
  ghost predicate Kept(cs: Chars, formulas: map<string, string>, order: seq<string>) {
    && Distinct(order)
    && (forall n :: n in order <==> n in formulas)
    && (forall n | n in formulas :: formulas[n] != "" && IsTrimmed(cs, formulas[n]))
  }

  /** Every name with a formula can be written in one. */
  ghost predicate Writable(cs: Chars, formulas: map<string, string>) {
    forall n | n in formulas :: Referenceable(cs, n)
  }

  class Engine<V> {
    const cs: Chars
    const a: Algebra<V>
    const stored: V -> V
    var store: map<string, V>
    var formulas: map<string, string>
    var order: seq<string>
    var recomputing: bool

    ghost predicate Valid()
      reads this`formulas, this`order
    {
      cs.Sound() && Kept(cs, formulas, order)
    }

    ghost predicate Referable()
      reads this`formulas
    {
      Writable(cs, formulas)
    }

    ghost function Context(): (e: Env<V>)
      requires cs.Sound()
      reads this`formulas
      ensures e.cs.Sound()
    {
      Env(cs, a, stored, formulas)
    }

    ghost function Fixed(): Rules<V> {
      Rules(cs, a, stored)
    }

    ghost function Now(): Standing<V>
      reads this`store, this`formulas, this`order
    {
      Standing(store, formulas, order)
    }

    constructor (cs: Chars, a: Algebra<V>, stored: V -> V, store: map<string, V>)
      requires cs.Sound()
      ensures Valid() && Referable() && !recomputing
      ensures this.cs == cs && this.a == a && this.stored == stored && this.store == store
      ensures formulas == map[] && order == []
    {
      this.cs, this.a, this.stored, this.store := cs, a, stored, store;
      formulas, order, recomputing := map[], [], false;
    }

    /** Records a formula at the end of the order. */
    method SetFormula(name: string, expr: string)
      requires Valid() && expr != "" && IsTrimmed(cs, expr)
      modifies this`formulas, this`order
      ensures Valid()
      ensures formulas == old(formulas)[name := expr]
      ensures order == Without(old(order), {name}) + [name]
    {
      WithoutKeepsDistinct(order, {name});
      WithoutMembers(order, {name});
      formulas := formulas[name := expr];
      order := Without(order, {name});
      order := order + [name];
    }

    method Forget(name: string)
      requires Valid()
      modifies this`formulas, this`order
      ensures Valid()
      ensures formulas == old(formulas) - {name} && order == Without(old(order), {name})
    {
      WithoutKeepsDistinct(order, {name});
      WithoutMembers(order, {name});
      formulas := formulas - {name};
      order := Without(order, {name});
    }

    method RememberFormula(name: string, expr: string)
      requires Valid()
      modifies this`formulas, this`order
      ensures Valid()
      ensures var text := Trim(cs, expr);
              if text == "" then formulas == old(formulas) && order == old(order)
              else formulas == old(formulas)[name := text] && order == Without(old(order), {name}) + [name]
    {
      if Trim(cs, expr) == "" { return; }
      SetFormula(name, Trim(cs, expr));
    }

    /** Puts a result into the store; replacing a channel drops its formula, unless in a recomputation. */
    method Add(name: string, value: V)
      requires Valid()
      modifies this`store, this`formulas, this`order
      ensures Valid() && store == old(store)[name := value]
      ensures if name in old(store) && !recomputing
              then formulas == old(formulas) - {name} && order == Without(old(order), {name})
              else formulas == old(formulas) && order == old(order)
    {
      var replaced := name in store;
      store := store[name := value];
      if replaced && !recomputing { Forget(name); }
    }

    /** Evaluates a line and records it; a line that fails changes nothing. */
    method Evaluate(line: string) returns (ok: bool)
      requires Valid()
      modifies this`store, this`formulas, this`order
      ensures Valid() && (old(Referable()) ==> Referable())
      ensures var r := Ran(Fixed(), old(Now()), line);
              ok == r.Some? && Now() == if r.Some? then r.value else old(Now())
    {
      hide Lex, Value, Trim, Referenceable, Without, Distinct, IsTrimmed;
      var pre := new Lexer(cs, line);
      assert line[0..] == line;
      var first, _ := pre.Next();
      if !first.Ident? { return false; }
      ghost var p := pre.p;
      var second, pos := pre.Next();
      if second != Assign { return false; }
      var name, expr := first.name, line[pos + 1..];
      assert Assignment(cs, line) == Some((name, expr));
      var result := Evaluated(expr);
      if result == None { return false; }
      RecordedFormula(cs, a, store, expr);
      NameOfLine(cs, line);
      Add(name, stored(result.value));
      SetFormula(name, Trim(cs, expr));
      WithoutTwice(old(order), {name}, {name});
      assert {name} + {name} == {name};
      assert formulas == old(formulas)[name := Trim(cs, expr)];
      return true;
    }

    /** The value of a whole expression: nothing when something is left over. */
    method Evaluated(expr: string) returns (v: Option<V>)
      requires Valid()
      ensures v == Value(cs, a, store, expr)
    {
      var parser := new Parser(cs, expr, a, store);
      v := parser.Additive();
      if v.Some? && parser.cur != End { v := None; }
    }

    /** Re-evaluates one formula through the line it is spelt as. */
    method Attempt(name: string) returns (ok: bool)
      requires Valid() && name in formulas
      modifies this`store, this`formulas, this`order
      ensures Valid() && forall n | n in old(formulas) :: n in formulas
      ensures var r := Retried(Fixed(), old(Now()), name);
              ok == r.Some? && Now() == if r.Some? then r.value else old(Now())
    {
      var expr := formulas[name];
      hide Valid, Referable, Ran;
      LinesAddFormulas(Fixed(), Now(), LineFor(cs, name, expr));
      var text := QuoteName(cs, name);
      LineText(cs, name, text, expr);
      ok := Evaluate(text + " = " + expr);
    }

    /** Tries every pending formula once, in turn. */
    method Pass(pending: seq<string>) returns (still: seq<string>, count: nat)
      requires Valid() && Distinct(pending)
      requires forall n | n in pending :: n in formulas
      modifies this`store, this`formulas, this`order
      ensures Valid() && (forall n | n in old(formulas) :: n in formulas)
      ensures (Now(), still) == PassOver(Fixed(), old(Now()), pending)
      ensures count + |still| == |pending| && Left(still, pending)
    {
      assert cs.Sound();
      hide Valid, Referable, PassOver, Retried, Left, Distinct;
      ghost var start := Now();
      still, count := [], 0;
      PassStart(Fixed(), start, pending);
      for i := 0 to |pending|
        invariant Valid() && cs.Sound() && forall n | n in old(formulas) :: n in formulas
        invariant (Now(), still) == PassOver(Fixed(), start, pending[..i])
        invariant count + |still| == i && Left(still, pending[..i])
      {
        PassNext(Fixed(), start, pending, i);
        LeftApart(pending, i, still);
        var ok := Attempt(pending[i]);
        if ok {
          count := count + 1;
        } else {
          still := still + [pending[i]];
        }
      }
      assert pending[..|pending|] == pending;
    }

    /**
      Tries the pending formulas in passes until a pass brings nothing, and reports the rest as errors.
      Where every name can be quoted, the channels evaluated are the last `total` names of the new order,
      in the order they succeeded, and the rest of the order are the errors.
     */
    method RecomputeAll() returns (total: nat, errors: seq<string>, ghost passes: seq<seq<string>>)
      requires Valid()
      modifies this
      ensures Valid() && recomputing == old(recomputing)
      ensures old(recomputing) ==> Now() == old(Now()) && total == 0 && errors == []
      ensures !old(recomputing) ==>
                && (Now(), errors) == Rerun(Fixed(), old(Now()), old(order))
                && total + |errors| == |old(order)| && Left(errors, old(order))
      ensures old(Referable()) ==> Referable() && formulas == old(formulas) && total <= |order|
      ensures var env, done := old(Context()), Flat(passes);
              old(Referable()) && !old(recomputing) ==>
                && ArePasses(env, old(store), old(order), passes) && |passes| <= total
                && total == |done| && done == order[|order| - total..]
                && Derivation(env, old(store), done)
                && store == After(env, old(store), done)
                && Saturated(env, store, done)
                && errors == Without(old(order), Elems(done)) && order == errors + done
      ensures old(Referable()) && !old(recomputing) ==>
                forall current: set<string> ::
                  && UpToDate(old(Context()), old(store), current) && InOrder(old(Context()), old(store), old(order), current)
                  && Supplied(old(Context()), old(store), old(order), current) ==>
                    RightInOnePass(old(Context()), old(store), store, passes, current)
    {
      passes := [];
      if recomputing { return 0, [], []; }
      recomputing := true;
      ghost var start, env, spoken := Now(), Context(), Referable();
      total, errors := Passes();
      recomputing := false;
      if spoken {
        passes := RerunIsRun(Fixed(), start);
        RunIsRight(env, start.store, start.order, store, passes);
      }
    }

    method Passes() returns (total: nat, pending: seq<string>)
      requires Valid()
      modifies this`store, this`formulas, this`order
      ensures Valid() && (Now(), pending) == Rerun(Fixed(), old(Now()), old(order))
      ensures total + |pending| == |old(order)| && Left(pending, old(order))
    {
      var progress := true;
      pending, total := order, 0;
      ghost var start, names := Now(), order;
      assert Left(pending, names) && Distinct(pending) && (forall n | n in pending :: n in formulas);
      hide *;
      hide Valid, Now, Fixed;
      while progress && pending != []
        invariant Valid() && cs.Sound()
        invariant Left(pending, names) && Distinct(pending) && forall n | n in pending :: n in formulas
        invariant total + |pending| == |names|
        invariant Rerun(Fixed(), start, names) == if progress then Rerun(Fixed(), Now(), pending) else (Now(), pending)
        decreases |pending| + if progress then 1 else 0
      {
        RerunNext(Fixed(), Now(), pending);
        var still, count := Pass(pending);
        LeftOfLeft(still, pending, names);
        progress := count > 0;
        total := total + count;
        pending := still;
      }
      RerunStops(Fixed(), Now());
    }

    /** Renames a channel in every formula, keeping its own formula's place in the order. */
    method RenameChannel(from: string, to: string)
      requires Valid()
      modifies this`formulas, this`order
      ensures from == to || to == "" ==> formulas == old(formulas) && order == old(order)
      ensures from != to && to != "" ==>
                && formulas == RenamedFormulas(cs, old(formulas), from, to)
                && order == SwappedAll(old(order), from, to)
                && (Valid() <==> !(from in old(formulas) && to in old(formulas)))
      ensures old(Referable()) && Referenceable(cs, to) ==> Referable()
    {
      if from == to || to == "" { return; }
      ghost var before, names := formulas, order;
      RenameKeeps(cs, before, names, from, to);
      SwapOneSlot(names, from, to);
      assert forall n :: n in names <==> n in before;
      hide Kept, Writable, RewrittenAll, SwappedAll;
      RewriteAll(from, to);
      MoveEntry(from, to);
      assert formulas == RenamedFormulas(cs, before, from, to);
    }

    /** Takes the entry of `from`, if any, and puts it back as `to` in the same place. */
    method MoveEntry(from: string, to: string)
      modifies this`formulas, this`order
      ensures formulas
           == if from in old(formulas) then (old(formulas) - {from})[to := old(formulas)[from]] else old(formulas)
      ensures from !in old(formulas) ==> order == old(order)
      ensures from in old(formulas) && from in old(order) ==>
                exists at :: 0 <= at < |old(order)| && old(order)[at] == from && order == old(order)[at := to]
    {
      if from in formulas {
        var expr := formulas[from];
        formulas := formulas - {from};
        var at := IndexOf(order, from);
        order := if at < |order| then order[at := to] else order + [to];
        formulas := formulas[to := expr];
      }
    }

    method RewriteAll(from: string, to: string)
      requires cs.Sound()
      modifies this`formulas
      ensures formulas == RewrittenAll(cs, old(formulas), from, to)
    {
      var names := formulas.Keys;
      ghost var before := formulas;
      while names != {}
        invariant formulas.Keys == before.Keys && names <= before.Keys
        invariant forall n | n in formulas ::
                    formulas[n] == if n in names then before[n] else Rewritten(cs, before[n], from, to)
        decreases |names|
      {
        var n :| n in names;
        var text := RewriteReferences(cs, formulas[n], from, to);
        formulas := formulas[n := text];
        names := names - {n};
      }
    }
  }

  method IndexOf(names: seq<string>, name: string) returns (at: nat)
    ensures at <= |names| && (forall i | 0 <= i < at :: names[i] != name)
    ensures at < |names| ==> names[at] == name
  {
    at := 0;
    while at < |names| && names[at] != name
      invariant at <= |names| && forall i | 0 <= i < at :: names[i] != name
    {
      at := at + 1;
    }
  }

  /** Where no name comes twice, swapping is replacing at one place, if any. */
  lemma SwapOneSlot(names: seq<string>, from: string, to: string)
    requires Distinct(names)
    ensures forall at | 0 <= at < |names| && names[at] == from :: names[at := to] == SwappedAll(names, from, to)
    ensures from !in names ==> SwappedAll(names, from, to) == names
  {
  }

  lemma SwapKeepsDistinctExactly(formulas: map<string, string>, names: seq<string>, from: string, to: string)
    requires Distinct(names) && (forall n :: n in names <==> n in formulas) && from != to
    ensures Distinct(SwappedAll(names, from, to)) <==> !(from in formulas && to in formulas)
    ensures !(from in formulas && to in formulas) ==>
              forall m :: m in SwappedAll(names, from, to)
                          <==> (m in formulas && m != from) || (m == to && from in formulas)
  {
    var swapped := SwappedAll(names, from, to);
    if from in formulas && to in formulas {
      var i :| 0 <= i < |names| && names[i] == from;
      var j :| 0 <= j < |names| && names[j] == to;
      assert swapped[i] == swapped[j];
    } else {
      SwapStaysDistinct(names, from, to);
    }
    hide SwappedAll, Distinct;
    forall m
      ensures m in swapped <==> (m in names && m != from) || (m == to && from in names)
    {
      SwappedNames(names, from, to, m);
    }
  }

  lemma SwapStaysDistinct(names: seq<string>, from: string, to: string)
    requires Distinct(names) && !(from in names && to in names)
    ensures Distinct(SwappedAll(names, from, to))
  {
  }

  lemma SwappedNames(names: seq<string>, from: string, to: string, m: string)
    requires from != to
    ensures m in SwappedAll(names, from, to) <==> (m in names && m != from) || (m == to && from in names)
  {
    var swapped := SwappedAll(names, from, to);
    if m in swapped {
      var i :| 0 <= i < |swapped| && swapped[i] == m;
      assert m == Swapped(names[i], from, to) && names[i] in names;
    }
    if m in names && m != from { SwappedHas(names, m, from, to); }
    if from in names { SwappedHas(names, from, from, to); }
  }

  /** Rewriting keeps a formula trimmed and not empty. */
  lemma {:induction false} RewrittenEnds(cs: Chars, s: string, from: string, to: string)
    requires cs.Sound() && s != "" && !cs.space(s[|s| - 1])
    ensures var r := Rewritten(cs, s, from, to); r != "" && !cs.space(r[|r| - 1])
    decreases |s|
  {
    hide First, Quoted;
    var x := Lex(cs, s);
    assert x.token != End;
    var tail, text := s[x.stop..], Respelt(cs, s, from, to);
    if tail != "" {
      RewrittenEnds(cs, tail, from, to);
    } else {
      assert Rewritten(cs, tail, from, to) == "" by { assert Lex(cs, "").token == End; }
      QuotedIsNotBlank(cs, to);
    }
  }

  lemma RewrittenIsTrimmed(cs: Chars, s: string, from: string, to: string)
    requires cs.Sound() && s != "" && IsTrimmed(cs, s)
    ensures var r := Rewritten(cs, s, from, to); r != "" && IsTrimmed(cs, r)
  {
    RewrittenEnds(cs, s, from, to);
    hide First, Quoted;
    var x := Lex(cs, s);
    assert x.start == 0 && x.token != End;
    QuotedIsNotBlank(cs, to);
    assert Rewritten(cs, s, from, to)[0] == Respelt(cs, s, from, to)[0];
  }

  lemma RenameKeeps(cs: Chars, formulas: map<string, string>, names: seq<string>, from: string, to: string)
    requires cs.Sound() && Kept(cs, formulas, names) && from != to
    ensures var formulas', names' := RenamedFormulas(cs, formulas, from, to), SwappedAll(names, from, to);
            && (Kept(cs, formulas', names') <==> !(from in formulas && to in formulas))
            && (Writable(cs, formulas) && Referenceable(cs, to) ==> Writable(cs, formulas'))
  {
    SwapKeepsDistinctExactly(formulas, names, from, to);
    RenamedIsTrimmed(cs, formulas, from, to);
    RenamedKeys(cs, formulas, from, to);
    hide RenamedFormulas, Referenceable, IsTrimmed, Distinct, SwappedAll;
  }

  lemma RenamedKeys(cs: Chars, formulas: map<string, string>, from: string, to: string)
    requires cs.Sound() && from != to
    ensures forall n :: n in RenamedFormulas(cs, formulas, from, to)
                        <==> (n in formulas && n != from) || (n == to && from in formulas)
  {
  }

  lemma RenamedIsTrimmed(cs: Chars, formulas: map<string, string>, from: string, to: string)
    requires cs.Sound() && forall n | n in formulas :: formulas[n] != "" && IsTrimmed(cs, formulas[n])
    ensures var r := RenamedFormulas(cs, formulas, from, to);
            forall n | n in r :: r[n] != "" && IsTrimmed(cs, r[n])
  {
    forall n | n in formulas
      ensures var text := Rewritten(cs, formulas[n], from, to); text != "" && IsTrimmed(cs, text)
    {
      RewrittenIsTrimmed(cs, formulas[n], from, to);
    }
  }

  /** The names of all passes, in turn. */
  function Flat(passes: seq<seq<string>>): seq<string> {
    if passes == [] then [] else Flat(passes[..|passes| - 1]) + passes[|passes| - 1]
  }

  /** The passes that brought something: each evaluates what succeeds, in turn, of what the ones before left. */
  ghost predicate ArePasses<V>(env: Env<V>, start: map<string, V>, names: seq<string>, passes: seq<seq<string>>)
    requires env.cs.Sound()
  {
    passes == [] || (
      var before, last := passes[..|passes| - 1], passes[|passes| - 1];
      && ArePasses(env, start, names, before)
      && last != []
      && last == Successes(env, After(env, start, Flat(before)), Without(names, Elems(Flat(before)))))
  }

  ghost function Extended(passes: seq<seq<string>>, won: seq<string>): (r: seq<seq<string>>)
    ensures Flat(r) == Flat(passes) + won
  {
    if won == [] then
      assert Flat(passes) + won == Flat(passes);
      passes
    else
      assert (passes + [won])[..|passes|] == passes;
      passes + [won]
  }

  lemma {:induction false} PassesBound<V>(env: Env<V>, start: map<string, V>, names: seq<string>, passes: seq<seq<string>>)
    requires env.cs.Sound() && ArePasses(env, start, names, passes)
    ensures |passes| <= |Flat(passes)|
  {
    if passes != [] { PassesBound(env, start, names, passes[..|passes| - 1]); }
  }

  /** Where a recomputation stands between two passes. */
  ghost predicate Running<V>(
      env: Env<V>, start: map<string, V>, names: seq<string>,
      store: map<string, V>, order: seq<string>, passes: seq<seq<string>>, pending: seq<string>)
  {
    var done := Flat(passes);
    && env.cs.Sound() && Distinct(names) && (forall n :: n in names <==> n in env.formulas)
    && ArePasses(env, start, names, passes)
    && Derivation(env, start, done) && store == After(env, start, done)
    && pending == Without(names, Elems(done)) && order == pending + done
  }

  lemma RunContinues<V>(
      env: Env<V>, start: map<string, V>, names: seq<string>,
      store: map<string, V>, order: seq<string>, passes: seq<seq<string>>, pending: seq<string>)
    requires Running(env, start, names, store, order, passes, pending)
    ensures env.cs.Sound() && Distinct(pending) && forall n | n in pending :: n in env.formulas
    ensures var won := Successes(env, store, pending);
            Running(env, start, names, After(env, store, won), Without(order, Elems(won)) + won,
                    Extended(passes, won), Without(pending, Elems(won)))
  {
    hide Derivation, Successes, Env.Of, Without, Elems, After, Distinct, Flat;
    var done, won := Flat(passes), Successes(env, store, pending);
    LeftOver(env, names, done);
    PassExtends(env, start, done, pending);
    PassLeaves(names, done, pending, won);
    assert (passes + [won])[..|passes|] == passes;
  }

  lemma RunEnds<V>(
      env: Env<V>, start: map<string, V>, names: seq<string>,
      store: map<string, V>, order: seq<string>, passes: seq<seq<string>>, pending: seq<string>)
    requires Running(env, start, names, store, order, passes, pending)
    requires pending == [] || Stuck(env, store, pending)
    ensures var done := Flat(passes);
            && ArePasses(env, start, names, passes) && |passes| <= |done|
            && |done| <= |order| && order[|order| - |done|..] == done
            && Derivation(env, start, done) && store == After(env, start, done) && Saturated(env, store, done)
            && pending == Without(names, Elems(done)) && order == pending + done
  {
    PassesBound(env, start, names, passes);
    hide Flat, ArePasses;
    var done := Flat(passes);
    WithoutMembers(names, Elems(done));
    forall n | n in env.formulas && n !in done
      ensures env.Of(store, n) == None
    {
      assert n in pending;
    }
  }

  /** One pass at most, each channel evaluated equals its formula, and what was up to date stays as it was. */
  ghost predicate RightInOnePass<V>(
      env: Env<V>, start: map<string, V>, store: map<string, V>, passes: seq<seq<string>>, current: set<string>)
    requires env.cs.Sound()
  {
    && |passes| <= 1
    && (forall n | n in Flat(passes) :: Exact(env, store, n))
    && forall n | n in current || n !in env.formulas :: (n in store <==> n in start) && (n in start ==> store[n] == start[n])
  }

  lemma RunIsRight<V>(
      env: Env<V>, start: map<string, V>, names: seq<string>, store: map<string, V>, passes: seq<seq<string>>)
    requires env.cs.Sound() && Lists(env, names) && ArePasses(env, start, names, passes)
    requires store == After(env, start, Flat(passes)) && Saturated(env, store, Flat(passes))
    ensures forall current: set<string> ::
              UpToDate(env, start, current) && InOrder(env, start, names, current) && Supplied(env, start, names, current) ==>
              RightInOnePass(env, start, store, passes, current)
  {
    hide UpToDate, InOrder, Supplied, RightInOnePass, ArePasses, Flat, Saturated, After;
    forall current: set<string> | UpToDate(env, start, current) && InOrder(env, start, names, current) && Supplied(env, start, names, current)
      ensures RightInOnePass(env, start, store, passes, current)
    {
      OrderedRun(env, start, names, store, passes, current);
    }
  }

  lemma OrderedRun<V>(
      env: Env<V>, start: map<string, V>, names: seq<string>, store: map<string, V>, passes: seq<seq<string>>,
      current: set<string>)
    requires env.cs.Sound() && Lists(env, names) && ArePasses(env, start, names, passes)
    requires store == After(env, start, Flat(passes)) && Saturated(env, store, Flat(passes))
    requires UpToDate(env, start, current) && InOrder(env, start, names, current) && Supplied(env, start, names, current)
    ensures RightInOnePass(env, start, store, passes, current)
  {
    hide UpToDate, InOrder, Supplied, After, Successes, Exact, Lists, Env.Of, Saturated, Derivation, ArePasses, Flat;
    InOrderIsRight(env, start, names, current);
    OnePassIsAll(env, start, names, passes);
  }

  /** Where the first pass leaves only failures, it is the only one. */
  lemma OnePassIsAll<V>(env: Env<V>, start: map<string, V>, names: seq<string>, passes: seq<seq<string>>)
    requires env.cs.Sound() && Lists(env, names) && ArePasses(env, start, names, passes)
    requires Saturated(env, After(env, start, Flat(passes)), Flat(passes))
    requires var won := Successes(env, start, names); Saturated(env, After(env, start, won), won)
    ensures |passes| <= 1 && Flat(passes) == Successes(env, start, names)
  {
    var won := Successes(env, start, names);
    hide After, Successes, Env.Of, ArePasses;
    if passes == [] {
      AfterNothing(env, start);
      NoneSucceed(env, start, names);
    } else {
      FirstPasses(env, start, names, passes);
      if |passes| > 1 {
        WithoutMembers(names, Elems(won));
        NoneSucceed(env, After(env, start, won), Without(names, Elems(won)));
      }
    }
  }

  /** The first pass tries all names, the second what that left. */
  lemma {:induction false} FirstPasses<V>(env: Env<V>, start: map<string, V>, names: seq<string>, passes: seq<seq<string>>)
    requires env.cs.Sound() && ArePasses(env, start, names, passes) && passes != []
    ensures var won := Successes(env, start, names);
            && (|passes| == 1 ==> Flat(passes) == won)
            && (|passes| > 1 ==> Successes(env, After(env, start, won), Without(names, Elems(won))) != [])
    decreases |passes|
  {
    hide Successes, After, Without, Elems;
    if |passes| == 1 {
      assert passes[..0] == [] && Flat([]) == [];
      AfterNothing(env, start);
      WithoutNothing(names);
      assert Without(names, Elems([])) == names;
    } else {
      FirstPasses(env, start, names, passes[..|passes| - 1]);
    }
  }

  lemma {:induction false} NoneSucceed<V>(env: Env<V>, store: map<string, V>, names: seq<string>)
    requires env.cs.Sound() && forall n | n in names :: env.Of(store, n) == None
    ensures Successes(env, store, names) == []
  {
    if names != [] {
      NoneSucceed(env, store, names[..|names| - 1]);
      AfterNothing(env, store);
    }
  }

  /** None of these names has a value. */
  ghost predicate Stuck<V>(env: Env<V>, store: map<string, V>, pending: seq<string>)
    requires env.cs.Sound()
  {
    forall n | n in pending :: env.Of(store, n) == None
  }

  lemma Beginning<V>(env: Env<V>, start: map<string, V>, names: seq<string>)
    requires env.cs.Sound() && Distinct(names) && forall n :: n in names <==> n in env.formulas
    ensures Running(env, start, names, start, names, [], names)
  {
    WithoutNothing(names);
  }

  lemma LeftOver<V>(env: Env<V>, names: seq<string>, done: seq<string>)
    requires Distinct(names) && forall n :: n in names <==> n in env.formulas
    ensures var pending := Without(names, Elems(done));
            && Distinct(pending) && (forall n | n in pending :: n in env.formulas && n !in done)
  {
    WithoutKeepsDistinct(names, Elems(done));
    WithoutMembers(names, Elems(done));
  }

  /** One more pass extends the derivation by what succeeded in it. */
  lemma PassExtends<V>(env: Env<V>, start: map<string, V>, done: seq<string>, pending: seq<string>)
    requires env.cs.Sound() && Derivation(env, start, done)
    requires Distinct(pending) && forall n | n in pending :: n !in done
    ensures var store := After(env, start, done); var won := Successes(env, store, pending);
            && Derivation(env, start, done + won) && After(env, start, done + won) == After(env, store, won)
            && forall n | n in won :: n !in done
  {
    hide Derivation, Env.Of, Successes;
    var store := After(env, start, done);
    SuccessesDerive(env, store, pending);
    forall n | n in Successes(env, store, pending)
      ensures n !in done
    {
      SuccessesAreTried(env, store, pending, n);
    }
    DerivationsJoin(env, start, done, Successes(env, store, pending));
  }

  /** The others stay pending. */
  lemma PassLeaves(names: seq<string>, done: seq<string>, pending: seq<string>, won: seq<string>)
    requires pending == Without(names, Elems(done)) && forall n | n in won :: n !in done
    ensures var still := Without(pending, Elems(won));
            && still == Without(names, Elems(done + won))
            && Without(pending + done, Elems(won)) + won == still + (done + won)
  {
    hide Without, Elems;
    assert Elems(done) + Elems(won) == Elems(done + won);
    WithoutTwice(names, Elems(done), Elems(won));
    WithoutAppend(pending, done, Elems(won));
    WithoutAbsent(done, Elems(won));
  }

  /** A pass leaves fewer names pending, or all of them stuck. */
  lemma PassShrinks<V>(env: Env<V>, store: map<string, V>, pending: seq<string>)
    requires env.cs.Sound()
    ensures var won := Successes(env, store, pending); var still := Without(pending, Elems(won));
            if won == [] then still == pending && After(env, store, won) == store && Stuck(env, store, pending)
            else |still| < |pending|
  {
    var won := Successes(env, store, pending);
    hide Env.Of, Successes, Without;
    if won == [] {
      WithoutNothing(pending);
      StuckWithout(env, store, pending);
    } else {
      SuccessesAreTried(env, store, pending, won[0]);
      ShorterWithout(pending, Elems(won), won[0]);
    }
  }

  lemma StuckWithout<V>(env: Env<V>, store: map<string, V>, pending: seq<string>)
    requires env.cs.Sound() && Successes(env, store, pending) == []
    ensures Stuck(env, store, pending)
  {
    forall n | n in pending
      ensures env.Of(store, n) == None
    {
      NoSuccessNoValue(env, store, pending, n);
    }
  }

  lemma {:induction false} ShorterWithout(names: seq<string>, gone: set<string>, n: string)
    requires n in names && n in gone
    ensures |Without(names, gone)| < |names|
  {
    var k := |names| - 1;
    if names[k] != n { ShorterWithout(names[..k], gone, n); }
  }

  /** The line of a formula assigns to its name, records the same text and has its value. */
  lemma FormulaLine<V>(env: Env<V>, store: map<string, V>, name: string)
    requires env.cs.Sound() && name in env.formulas
    requires Referenceable(env.cs, name) && IsTrimmed(env.cs, env.formulas[name])
    ensures var expr := env.formulas[name];
            && Assignment(env.cs, LineFor(env.cs, name, expr)) == Some((name, " " + expr))
            && Trim(env.cs, " " + expr) == expr
            && Value(env.cs, env.a, store, " " + expr) == env.Of(store, name)
  {
    LineOfFormula(env.cs, name, env.formulas[name]);
    BlankInFront(env.cs, env.formulas[name]);
  }

  lemma LinesAddFormulas<V>(rules: Rules<V>, st: Standing<V>, line: string)
    requires rules.cs.Sound()
    ensures var r := Ran(rules, st, line); r.Some? ==> forall n | n in st.formulas :: n in r.value.formulas
  {
  }

  lemma PassStart<V>(rules: Rules<V>, st: Standing<V>, pending: seq<string>)
    requires rules.cs.Sound()
    ensures PassOver(rules, st, pending[..0]) == (st, []) && Left([], pending[..0])
  {
  }

  lemma PassNext<V>(rules: Rules<V>, st: Standing<V>, pending: seq<string>, i: nat)
    requires rules.cs.Sound() && i < |pending|
    requires pending[i] in PassOver(rules, st, pending[..i]).0.formulas
    ensures var (before, still) := PassOver(rules, st, pending[..i]);
            var r := Retried(rules, before, pending[i]);
            PassOver(rules, st, pending[..i + 1])
            == if r.Some? then (r.value, still) else (before, still + [pending[i]])
  {
    hide Retried;
    assert pending[..i + 1][..i] == pending[..i];
  }

  lemma RerunNext<V>(rules: Rules<V>, st: Standing<V>, pending: seq<string>)
    requires rules.cs.Sound() && pending != []
    ensures var (next, still) := PassOver(rules, st, pending);
            Rerun(rules, st, pending) == if |still| == |pending| then (next, still) else Rerun(rules, next, still)
  {
  }

  lemma RerunStops<V>(rules: Rules<V>, st: Standing<V>)
    requires rules.cs.Sound()
    ensures Rerun(rules, st, []) == (st, [])
  {
  }

  // ---- Where all names can be quoted -------------------------------------------------

  ghost function EnvOf<V>(rules: Rules<V>, st: Standing<V>): Env<V> {
    Env(rules.cs, rules.a, rules.stored, st.formulas)
  }

  ghost predicate Quotable<V>(rules: Rules<V>, st: Standing<V>) {
    rules.cs.Sound() && Kept(rules.cs, st.formulas, st.order) && Writable(rules.cs, st.formulas)
  }

  /** Trying a formula again gives its own channel its value. */
  lemma RetriedIsOf<V>(rules: Rules<V>, st: Standing<V>, name: string)
    requires rules.cs.Sound() && name in st.formulas
    requires Referenceable(rules.cs, name) && IsTrimmed(rules.cs, st.formulas[name])
    ensures var v := EnvOf(rules, st).Of(st.store, name);
            Retried(rules, st, name)
            == if v.None? then None
               else Some(Standing(st.store[name := rules.stored(v.value)], st.formulas, Without(st.order, {name}) + [name]))
  {
    hide LineFor, Trim, Value, Without, Referenceable, IsTrimmed, Env.Of, Assignment;
    FormulaLine(EnvOf(rules, st), st.store, name);
    assert st.formulas[name := st.formulas[name]] == st.formulas;
  }

  lemma {:induction false} PassOverHalfway<V>(rules: Rules<V>, st: Standing<V>, pending: seq<string>, i: nat)
    requires Quotable(rules, st) && Distinct(pending) && (forall n | n in pending :: n in st.formulas) && i <= |pending|
    ensures var (s, still) := PassOver(rules, st, pending[..i]);
            && s.formulas == st.formulas && |still| <= i
            && Halfway(EnvOf(rules, st), st.store, st.order, pending[..i], s.store, s.order, still, i - |still|)
    decreases i
  {
    hide Distinct, Referenceable, IsTrimmed, Halfway, Retried, PassOver, Without;
    if i == 0 {
      PassStart(rules, st, pending);
      assert pending[..0] == [];
      HalfwayStart(EnvOf(rules, st), st.store, st.order);
    } else {
      PassOverHalfway(rules, st, pending, i - 1);
      var (s, still) := PassOver(rules, st, pending[..i - 1]);
      assert pending[i - 1] in pending;
      PassNext(rules, st, pending, i - 1);
      RetriedIsOf(rules, s, pending[i - 1]);
      HalfwayOn(EnvOf(rules, st), st.store, st.order, pending, i - 1, s.store, s.order, still, i - 1 - |still|);
    }
  }

  /** A whole pass, from where a run stands. */
  lemma PassOverRuns<V>(rules: Rules<V>, start: Standing<V>, st: Standing<V>, passes: seq<seq<string>>, pending: seq<string>)
    requires Quotable(rules, start) && Quotable(rules, st) && st.formulas == start.formulas
    requires Running(EnvOf(rules, start), start.store, start.order, st.store, st.order, passes, pending)
    ensures var env := EnvOf(rules, start);
            var (next, still) := PassOver(rules, st, pending);
            var won := Successes(env, st.store, pending);
            && next.formulas == start.formulas && |won| + |still| == |pending|
            && Running(env, start.store, start.order, next.store, next.order, Extended(passes, won), still)
            && (|still| == |pending| ==> Stuck(env, next.store, still))
  {
    hide Quotable, Running, Halfway, PassOver, Successes, Stuck, Without, Distinct;
    var env := EnvOf(rules, start);
    RunContinues(env, start.store, start.order, st.store, st.order, passes, pending);
    PassShrinks(env, st.store, pending);
    PassOverHalfway(rules, st, pending, |pending|);
    assert pending[..|pending|] == pending;
    var (next, still) := PassOver(rules, st, pending);
    HalfwayEnd(env, st.store, st.order, pending, next.store, next.order, still, |pending| - |still|);
  }

  lemma RunningIsQuotable<V>(rules: Rules<V>, start: Standing<V>, st: Standing<V>, passes: seq<seq<string>>, pending: seq<string>)
    requires Quotable(rules, start) && st.formulas == start.formulas
    requires Running(EnvOf(rules, start), start.store, start.order, st.store, st.order, passes, pending)
    ensures Quotable(rules, st)
  {
    hide Referenceable, IsTrimmed, Derivation, ArePasses;
    var done := Flat(passes);
    var env := EnvOf(rules, start);
    WithoutKeepsDistinct(start.order, Elems(done));
    WithoutMembers(start.order, Elems(done));
    hide Flat, Without;
    forall i, j | 0 <= i < j < |done|
      ensures done[i] != done[j]
    {
      DerivationDistinct(env, start.store, done, i, j);
    }
    forall i | 0 <= i < |done|
      ensures done[i] in start.formulas
    {
      HasFormula(env, start.store, done, i);
    }
  }

  lemma {:induction false} RerunRuns<V>(
      rules: Rules<V>, start: Standing<V>, st: Standing<V>, passes: seq<seq<string>>, pending: seq<string>)
    returns (all: seq<seq<string>>)
    requires Quotable(rules, start) && st.formulas == start.formulas
    requires Running(EnvOf(rules, start), start.store, start.order, st.store, st.order, passes, pending)
    requires |Flat(passes)| + |pending| == |start.order|
    ensures var (end, errors) := Rerun(rules, st, pending);
            && end.formulas == start.formulas && |Flat(all)| + |errors| == |start.order|
            && Running(EnvOf(rules, start), start.store, start.order, end.store, end.order, all, errors)
            && (errors == [] || Stuck(EnvOf(rules, start), end.store, errors))
    decreases |pending|
  {
    RunningIsQuotable(rules, start, st, passes, pending);
    hide Running, Flat, Successes, Stuck, PassOver, Rerun, Kept, Writable;
    if pending == [] {
      RerunStops(rules, st);
      all := passes;
    } else {
      PassOverRuns(rules, start, st, passes, pending);
      RerunNext(rules, st, pending);
      var (next, still) := PassOver(rules, st, pending);
      all := Extended(passes, Successes(EnvOf(rules, start), st.store, pending));
      if |still| < |pending| { all := RerunRuns(rules, start, next, all, still); }
    }
  }

  /** So the whole recomputation is a run: its productive passes, and what they leave. */
  lemma RerunIsRun<V>(rules: Rules<V>, st: Standing<V>) returns (passes: seq<seq<string>>)
    requires Quotable(rules, st)
    ensures var env, done := EnvOf(rules, st), Flat(passes);
            var (end, errors) := Rerun(rules, st, st.order);
            && end.formulas == st.formulas && |done| + |errors| == |st.order|
            && ArePasses(env, st.store, st.order, passes) && |passes| <= |done|
            && |done| <= |end.order| && end.order[|end.order| - |done|..] == done
            && Derivation(env, st.store, done) && end.store == After(env, st.store, done) && Saturated(env, end.store, done)
            && errors == Without(st.order, Elems(done)) && end.order == errors + done
  {
    hide ArePasses, Derivation, Saturated, After, Without, Elems, Running, Stuck, Rerun;
    var env := EnvOf(rules, st);
    Beginning(env, st.store, st.order);
    assert |Flat([])| == 0;
    passes := RerunRuns(rules, st, st, [], st.order);
    var (end, errors) := Rerun(rules, st, st.order);
    RunEnds(env, st.store, st.order, end.store, end.order, passes, errors);
  }

  /** The line built for a formula assigns to its own name exactly when the name can be quoted. */
  lemma LineAssignsExactly(cs: Chars, name: string, expr: string)
    requires cs.Sound()
    ensures var l := Assignment(cs, LineFor(cs, name, expr));
            (l.Some? && l.value.0 == name) <==> Referenceable(cs, name)
  {
    var line := LineFor(cs, name, expr);
    if Referenceable(cs, name) {
      LineOfFormula(cs, name, expr);
    } else if Assignment(cs, line).Some? {
      NameOfLine(cs, line);
    }
  }

  lemma WithoutNothing(names: seq<string>)
    ensures Without(names, Elems([])) + [] == names
  {
    WithoutAbsent(names, Elems([]));
  }

  /** Where a pass stands once these names are tried. */
  ghost predicate Halfway<V>(
      env: Env<V>, start: map<string, V>, names: seq<string>, tried: seq<string>,
      store: map<string, V>, order: seq<string>, still: seq<string>, count: nat)
  {
    env.cs.Sound() &&
    var won := Successes(env, start, tried);
    && count == |won| && store == After(env, start, won)
    && still == Without(tried, Elems(won)) && order == Without(names, Elems(won)) + won
  }

  lemma HalfwayStart<V>(env: Env<V>, start: map<string, V>, names: seq<string>)
    requires env.cs.Sound()
    ensures Halfway(env, start, names, [], start, names, [], 0)
    ensures Left([], [])
  {
    WithoutNothing(names);
    WithoutNothing([]);
  }

  lemma HalfwayOn<V>(
      env: Env<V>, start: map<string, V>, names: seq<string>, pending: seq<string>, i: nat,
      store: map<string, V>, order: seq<string>, still: seq<string>, count: nat)
    requires Distinct(pending) && i < |pending|
    requires Halfway(env, start, names, pending[..i], store, order, still, count)
    ensures env.cs.Sound()
    ensures var name, v := pending[i], env.Of(store, pending[i]);
            if v.Some? then
              Halfway(env, start, names, pending[..i + 1], store[name := env.stored(v.value)],
                      Without(order, {name}) + [name], still, count + 1)
            else Halfway(env, start, names, pending[..i + 1], store, order, still + [name], count)
  {
    hide Env.Of, Without, Elems, Distinct;
    var name, won := pending[i], Successes(env, start, pending[..i]);
    SuccessesStep(env, start, pending, i);
    hide Successes;
    LeftAfterOne(pending[..i], won, name);
    MovedToEnd(names, won, name);
    if env.Of(store, name).Some? { AfterMore(env, start, won, name); }
  }

  lemma HalfwayEnd<V>(
      env: Env<V>, start: map<string, V>, names: seq<string>, tried: seq<string>,
      store: map<string, V>, order: seq<string>, still: seq<string>, count: nat)
    requires Halfway(env, start, names, tried, store, order, still, count)
    ensures env.cs.Sound()
    ensures var won := Successes(env, start, tried);
            && count == |won| && store == After(env, start, won)
            && still == Without(tried, Elems(won)) && order == Without(names, Elems(won)) + won
  {
  }

  /** Some of the names, each once. */
  ghost predicate Left(some: seq<string>, names: seq<string>) {
    Distinct(some) && forall n | n in some :: n in names
  }

  lemma LeftApart(names: seq<string>, i: nat, some: seq<string>)
    requires Distinct(names) && i < |names| && Left(some, names[..i])
    ensures Left(some, names[..i + 1]) && Left(some + [names[i]], names[..i + 1])
  {
    assert names[..i + 1] == names[..i] + [names[i]];
    assert names[i] !in names[..i];
    var more := some + [names[i]];
    assert forall j | 0 <= j < |some| :: more[j] == some[j] && some[j] in names[..i];
  }

  lemma LeftOfLeft(few: seq<string>, some: seq<string>, names: seq<string>)
    requires Left(few, some) && Left(some, names)
    ensures Left(few, names) && Distinct(few) && forall n | n in few :: n in some
  {
  }

  lemma SuccessesStep<V>(env: Env<V>, store: map<string, V>, names: seq<string>, i: nat)
    requires env.cs.Sound() && Distinct(names) && i < |names|
    ensures names[..i + 1] == names[..i] + [names[i]] && names[i] !in names[..i]
    ensures var won := Successes(env, store, names[..i]);
            && (forall n | n in won :: n in names[..i])
            && Successes(env, store, names[..i + 1])
               == if env.Of(After(env, store, won), names[i]).Some? then won + [names[i]] else won
  {
    SuccessesNext(env, store, names, i);
    forall n | n in Successes(env, store, names[..i])
      ensures n in names[..i]
    {
      SuccessesAreTried(env, store, names[..i], n);
    }
  }

  lemma NameOfLine(cs: Chars, line: string)
    requires cs.Sound() && Assignment(cs, line).Some?
    ensures Referenceable(cs, Assignment(cs, line).value.0)
  {
    var x := Lex(cs, line);
    ReadNamesAreReferenceable(cs, line[x.start..]);
  }
}
