/**
  Recomputation as a fixed point: sequences of successful evaluations, what they
  leave in the store, and why the order they went in does not matter.
 */
module FormulaFixpoint {
  import opened Options
  import opened FormulaLexer
  import opened FormulaNames
  import opened FormulaParser
  import opened FormulaRename

  /** Everything a recomputation reads but does not change. `stored` is what registering does to a result. */
  datatype Env<!V> = Env(cs: Chars, a: Algebra<V>, stored: V -> V, formulas: map<string, string>)
  {
    function Of(store: map<string, V>, name: string): Option<V>
      requires cs.Sound()
    {
      if name in formulas then Value(cs, a, store, formulas[name]) else None
    }

    /** The formula of `name` refers to `other`. */
    predicate Uses(name: string, other: string)
      requires cs.Sound()
    {
      name in formulas &&
      var e := Expression(Tokens(cs, formulas[name]));
      e.Some? && Refers(e.value, other)
    }
  }

  // ---- Derivations -------------------------------------------------------------

  /** The store after evaluating these names in turn. */
  function After<V>(env: Env<V>, store: map<string, V>, done: seq<string>): map<string, V>
    requires env.cs.Sound()
  {
    if done == [] then store
    else
      var n := |done| - 1;
      var before := After(env, store, done[..n]);
      match env.Of(before, done[n])
      case None => before
      case Some(v) => before[done[n] := env.stored(v)]
  }

  /** Different names, each of which has a formula, and a value when its turn comes. */
  ghost predicate Derivation<V>(env: Env<V>, store: map<string, V>, done: seq<string>)
    requires env.cs.Sound()
  {
    done == [] || (
      var head, name := done[..|done| - 1], done[|done| - 1];
      && Derivation(env, store, head)
      && name !in head && name in env.formulas && env.Of(After(env, store, head), name).Some?)
  }

  /** No formula uses a name evaluated with it or later. */
  ghost predicate Topological<V>(env: Env<V>, done: seq<string>)
    requires env.cs.Sound()
  {
    forall i, j | 0 <= i <= j < |done| :: !env.Uses(done[i], done[j])
  }

  ghost predicate NoneDerived<V>(env: Env<V>, store: map<string, V>) {
    forall n | n in env.formulas :: n !in store
  }

  /** Every formula outside `done` still fails. */
  ghost predicate Saturated<V>(env: Env<V>, store: map<string, V>, done: seq<string>)
    requires env.cs.Sound()
  {
    forall n | n in env.formulas && n !in done :: env.Of(store, n) == None
  }

  lemma {:induction false} DerivationPrefix<V>(env: Env<V>, store: map<string, V>, done: seq<string>, k: nat)
    requires env.cs.Sound() && Derivation(env, store, done) && k <= |done|
    ensures Derivation(env, store, done[..k])
  {
    if k < |done| {
      assert done[..|done| - 1][..k] == done[..k];
      DerivationPrefix(env, store, done[..|done| - 1], k);
    } else {
      assert done[..k] == done;
    }
  }

  lemma DerivationStep<V>(env: Env<V>, store: map<string, V>, done: seq<string>, name: string)
    requires env.cs.Sound() && Derivation(env, store, done) && name !in done
    requires env.Of(After(env, store, done), name).Some?
    ensures Derivation(env, store, done + [name])
    ensures After(env, store, done + [name])
         == After(env, store, done)[name := env.stored(env.Of(After(env, store, done), name).value)]
  {
    assert name in env.formulas;
    AfterMore(env, store, done, name);
    hide Env.Of, After;
    var all := done + [name];
    assert all[..|all| - 1] == done && all[|all| - 1] == name;
  }

  lemma AfterMore<V>(env: Env<V>, store: map<string, V>, done: seq<string>, name: string)
    requires env.cs.Sound() && env.Of(After(env, store, done), name).Some?
    ensures After(env, store, done + [name])
         == After(env, store, done)[name := env.stored(env.Of(After(env, store, done), name).value)]
  {
    hide Env.Of;
    var all := done + [name];
    assert all[..|all| - 1] == done && all[|all| - 1] == name;
  }

  /** A derivation holds no name twice. */
  lemma {:induction false} DerivationDistinct<V>(
      env: Env<V>, store: map<string, V>, done: seq<string>, i: nat, j: nat)
    requires env.cs.Sound() && Derivation(env, store, done) && i < j < |done|
    ensures done[i] != done[j]
  {
    if j < |done| - 1 {
      DerivationDistinct(env, store, done[..|done| - 1], i, j);
    } else {
      assert done[..j][i] == done[i];
    }
  }

  lemma {:induction false} AfterKeys<V>(env: Env<V>, store: map<string, V>, done: seq<string>, n: string)
    requires env.cs.Sound() && Derivation(env, store, done)
    ensures n in After(env, store, done) <==> n in store || n in done
  {
    hide Env.Of, Derivation;
    if done != [] {
      var k := |done| - 1;
      DerivationPrefix(env, store, done, k);
      AfterKeys(env, store, done[..k], n);
      TurnSucceeds(env, store, done, k);
      assert done == done[..k] + [done[k]] && done[..k + 1] == done;
    }
  }

  /** Later evaluations change no other name. */
  lemma {:induction false} AfterAgrees<V>(env: Env<V>, store: map<string, V>, done: seq<string>, i: nat, n: string)
    requires env.cs.Sound() && Derivation(env, store, done) && i <= |done| && n !in done[i..]
    ensures var s, t := After(env, store, done[..i]), After(env, store, done);
            (n in t <==> n in s) && (n in s ==> t[n] == s[n])
  {
    hide Derivation, Env.Of, After;
    if i < |done| {
      var k := |done| - 1;
      DerivationPrefix(env, store, done, k);
      TurnSucceeds(env, store, done, k);
      assert done[..k + 1] == done;
      assert done[k] in done[i..];
      assert done[..k][..i] == done[..i] && done[i..] == done[..k][i..] + [done[k]];
      AfterAgrees(env, store, done[..k], i, n);
    } else {
      assert done[..i] == done;
    }
  }

  /** A value found earlier is still the value once everything in between leaves its references alone. */
  lemma OfIsLocal<V>(env: Env<V>, s: map<string, V>, t: map<string, V>, name: string)
    requires env.cs.Sound() && env.Of(s, name).Some?
    requires forall n | n in s && env.Uses(name, n) :: n in t && t[n] == s[n]
    ensures env.Of(t, name) == env.Of(s, name)
    ensures forall n | env.Uses(name, n) :: n in s
  {
    EvalIsLocal(env.a, s, t, Expression(Tokens(env.cs, env.formulas[name])).value);
  }

  /** Evaluated in dependency order, every channel equals its formula on the final store. */
  lemma EachEqualsItsFormula<V>(env: Env<V>, store: map<string, V>, done: seq<string>, i: nat)
    requires env.cs.Sound() && Derivation(env, store, done) && Topological(env, done) && i < |done|
    ensures var final := After(env, store, done);
            && env.Of(final, done[i]).Some?
            && done[i] in final && final[done[i]] == env.stored(env.Of(final, done[i]).value)
  {
    hide Derivation, Env.Of, Env.Uses;
    var name, final := done[i], After(env, store, done);
    var s := After(env, store, done[..i]);
    forall n | n in s && env.Uses(name, n)
      ensures n in final && final[n] == s[n]
    {
      assert n !in done[i..];
      AfterAgrees(env, store, done, i, n);
    }
    assert env.Of(s, name).Some? by { TurnSucceeds(env, store, done, i); }
    OfIsLocal(env, s, final, name);
    TurnSucceeds(env, store, done, i);
    AfterAgrees(env, store, done, i + 1, name);
  }

  lemma TurnSucceeds<V>(env: Env<V>, store: map<string, V>, done: seq<string>, i: nat)
    requires env.cs.Sound() && Derivation(env, store, done) && i < |done|
    ensures var s := After(env, store, done[..i]);
            && env.Of(s, done[i]).Some?
            && After(env, store, done[..i + 1]) == s[done[i] := env.stored(env.Of(s, done[i]).value)]
    ensures done[i] !in done[i + 1..] && done[i] !in done[..i]
  {
    assert done[..i + 1][..i] == done[..i];
    DerivationPrefix(env, store, done, i + 1);
    forall j | i < j < |done|
      ensures done[i] != done[j]
    {
      DerivationDistinct(env, store, done, i, j);
    }
  }

  /** Started without derived channels, every derivation is in dependency order. */
  lemma FreshIsTopological<V>(env: Env<V>, store: map<string, V>, done: seq<string>)
    requires env.cs.Sound() && Derivation(env, store, done) && NoneDerived(env, store)
    ensures Topological(env, done)
  {
    hide Derivation, After, Env.Of, Env.Uses;
    forall i, j | 0 <= i <= j < |done|
      ensures !env.Uses(done[i], done[j])
    {
      var s := After(env, store, done[..i]);
      TurnSucceeds(env, store, done, i);
      OfIsLocal(env, s, s, done[i]);
      DerivationPrefix(env, store, done, i);
      AfterKeys(env, store, done[..i], done[j]);
      assert done[i..][j - i] == done[j];
      if done[j] in s { NotAgain(env, store, done, i, done[j]); }
    }
  }

  /** Whatever one derivation reaches, a saturated one has reached too, with the same value. */
  lemma {:induction false} SaturatedHasAll<V>(
      env: Env<V>, store: map<string, V>, done: seq<string>, full: seq<string>)
    requires env.cs.Sound() && NoneDerived(env, store)
    requires Derivation(env, store, done) && Derivation(env, store, full)
    requires Saturated(env, After(env, store, full), full)
    ensures forall n | n in done :: n in full
    ensures var s, t := After(env, store, done), After(env, store, full);
            forall n | n in s :: n in t && t[n] == s[n]
    decreases |done|
  {
    hide Derivation, Env.Of, Env.Uses, After;
    var s, t := After(env, store, done), After(env, store, full);
    if done == [] {
      assert s == store by { AfterNothing(env, store); }
      FromStart(env, store, full);
    } else {
      var k := |done| - 1;
      DerivationPrefix(env, store, done, k);
      SaturatedHasAll(env, store, done[..k], full);
      var before, name := After(env, store, done[..k]), done[k];
      TurnSucceeds(env, store, done, k);
      assert done[..k + 1] == done;
      OfIsLocal(env, before, t, name);
      assert name in env.formulas by { HasFormula(env, store, done, k); }
      assert name in full;
      var i :| 0 <= i < |full| && full[i] == name;
      FreshIsTopological(env, store, full);
      EachEqualsItsFormula(env, store, full, i);
      assert done == done[..k] + [name];
    }
  }

  lemma AfterNothing<V>(env: Env<V>, store: map<string, V>)
    requires env.cs.Sound()
    ensures After(env, store, []) == store
  {
  }

  lemma HasFormula<V>(env: Env<V>, store: map<string, V>, done: seq<string>, i: nat)
    requires env.cs.Sound() && Derivation(env, store, done) && i < |done|
    ensures done[i] in env.formulas
  {
    DerivationPrefix(env, store, done, i + 1);
    assert done[..i + 1][i] == done[i];
  }

  lemma FromStart<V>(env: Env<V>, store: map<string, V>, done: seq<string>)
    requires env.cs.Sound() && NoneDerived(env, store) && Derivation(env, store, done)
    ensures forall n | n in store :: n in After(env, store, done) && After(env, store, done)[n] == store[n]
  {
    hide Derivation, After, Env.Of;
    AfterNothing(env, store);
    forall n | n in store
      ensures n in After(env, store, done) && After(env, store, done)[n] == store[n]
    {
      assert done[..0] == [];
      NotAgain(env, store, done, 0, n);
      AfterAgrees(env, store, done, 0, n);
    }
  }

  /** The result of a recomputation does not depend on the order it went in. */
  lemma OrderDoesNotMatter<V>(env: Env<V>, store: map<string, V>, one: seq<string>, other: seq<string>)
    requires env.cs.Sound() && NoneDerived(env, store)
    requires Derivation(env, store, one) && Saturated(env, After(env, store, one), one)
    requires Derivation(env, store, other) && Saturated(env, After(env, store, other), other)
    ensures After(env, store, one) == After(env, store, other)
    ensures forall n :: n in one <==> n in other
  {
    SaturatedHasAll(env, store, one, other);
    SaturatedHasAll(env, store, other, one);
  }

  // ---- One pass ------------------------------------------------------------------

  /** The names that succeed when all are tried once, in turn. */
  function Successes<V>(env: Env<V>, store: map<string, V>, names: seq<string>): (won: seq<string>)
    requires env.cs.Sound()
  {
    if names == [] then []
    else
      var k := |names| - 1;
      var won := Successes(env, store, names[..k]);
      if env.Of(After(env, store, won), names[k]).Some? then won + [names[k]] else won
  }

  lemma SuccessesNext<V>(env: Env<V>, store: map<string, V>, names: seq<string>, i: nat)
    requires env.cs.Sound() && i < |names|
    ensures var won := Successes(env, store, names[..i]);
            Successes(env, store, names[..i + 1])
            == if env.Of(After(env, store, won), names[i]).Some? then won + [names[i]] else won
  {
    assert names[..i + 1][..i] == names[..i];
  }

  lemma {:induction false} SuccessesAreTried<V>(env: Env<V>, store: map<string, V>, names: seq<string>, n: string)
    requires env.cs.Sound() && n in Successes(env, store, names)
    ensures n in names
  {
    var k := |names| - 1;
    if n in Successes(env, store, names[..k]) { SuccessesAreTried(env, store, names[..k], n); }
  }

  lemma {:induction false} SuccessesDerive<V>(env: Env<V>, store: map<string, V>, names: seq<string>)
    requires env.cs.Sound() && (forall i, j | 0 <= i < j < |names| :: names[i] != names[j])
    ensures Derivation(env, store, Successes(env, store, names))
  {
    if names != [] {
      var k := |names| - 1;
      SuccessesDerive(env, store, names[..k]);
      var won := Successes(env, store, names[..k]);
      if names[k] in won { SuccessesAreTried(env, store, names[..k], names[k]); }
      if env.Of(After(env, store, won), names[k]).Some? { DerivationStep(env, store, won, names[k]); }
    }
  }

  lemma {:induction false} NoSuccessNoValue<V>(env: Env<V>, store: map<string, V>, names: seq<string>, n: string)
    requires env.cs.Sound() && Successes(env, store, names) == [] && n in names
    ensures env.Of(store, n) == None
  {
    var k := |names| - 1;
    if n in names[..k] { NoSuccessNoValue(env, store, names[..k], n); }
  }

  /** Two derivations in a row are one. */
  lemma {:induction false} DerivationsJoin<V>(env: Env<V>, store: map<string, V>, done: seq<string>, more: seq<string>)
    requires env.cs.Sound() && Derivation(env, store, done) && Derivation(env, After(env, store, done), more)
    requires forall n | n in more :: n !in done
    ensures Derivation(env, store, done + more)
    ensures After(env, store, done + more) == After(env, After(env, store, done), more)
  {
    hide Derivation, After, Env.Of;
    var mid := After(env, store, done);
    if more == [] {
      assert done + more == done;
      AfterNothing(env, mid);
    } else {
      var k := |more| - 1;
      var head, last := more[..k], more[k];
      assert more == head + [last];
      DerivationPrefix(env, mid, more, k);
      DerivationsJoin(env, store, done, head);
      LastTurn(env, mid, head, last);
      assert done + more == (done + head) + [last];
      assert last in more;
      DerivationStep(env, store, done + head, last);
    }
  }

  lemma LastTurn<V>(env: Env<V>, store: map<string, V>, head: seq<string>, last: string)
    requires env.cs.Sound() && Derivation(env, store, head + [last])
    ensures var s := After(env, store, head);
            && env.Of(s, last).Some? && last !in head
            && After(env, store, head + [last]) == s[last := env.stored(env.Of(s, last).value)]
  {
    hide Env.Of;
    var all := head + [last];
    assert all[..|all| - 1] == head && all[|all| - 1] == last;
  }

  /** A name that fails at the end has failed all along. */
  lemma FailedAllAlong<V>(env: Env<V>, store: map<string, V>, done: seq<string>, i: nat, n: string)
    requires env.cs.Sound() && NoneDerived(env, store) && Derivation(env, store, done) && i <= |done|
    requires env.Of(After(env, store, done), n) == None
    ensures env.Of(After(env, store, done[..i]), n) == None
  {
    var s, t := After(env, store, done[..i]), After(env, store, done);
    if env.Of(s, n).Some? {
      forall m | m in s
        ensures m in t && t[m] == s[m]
      {
        DerivationPrefix(env, store, done, i);
        AfterKeys(env, store, done[..i], m);
        NotAgain(env, store, done, i, m);
        AfterAgrees(env, store, done, i, m);
      }
      OfIsLocal(env, s, t, n);
    }
  }

  /** What is there before turn i is not evaluated at turn i or later. */
  lemma NotAgain<V>(env: Env<V>, store: map<string, V>, done: seq<string>, i: nat, m: string)
    requires env.cs.Sound() && NoneDerived(env, store) && Derivation(env, store, done) && i <= |done|
    requires m in store || m in done[..i]
    ensures m !in done[i..]
  {
    hide Derivation, After, Env.Of;
    forall j | i <= j < |done|
      ensures done[j] != m
    {
      HasFormula(env, store, done, j);
      if m in done[..i] {
        var k :| 0 <= k < i && done[k] == m;
        DerivationDistinct(env, store, done, k, j);
      }
    }
  }

  /**
    The order a recomputation leaves behind, failures first and then the names in
    the order they succeeded, lets the next one from the same sources finish in
    a single productive pass.
   */
  lemma {:induction false} KeptOrderNeedsOnePass<V>(
      env: Env<V>, store: map<string, V>, failed: seq<string>, done: seq<string>, k: nat)
    requires env.cs.Sound() && NoneDerived(env, store) && Derivation(env, store, done)
    requires forall n | n in failed :: env.Of(After(env, store, done), n) == None
    requires k <= |failed + done|
    ensures Successes(env, store, (failed + done)[..k]) == if k <= |failed| then [] else done[..k - |failed|]
  {
    hide Derivation, Env.Of, After, Successes;
    AfterNothing(env, store);
    var all := failed + done;
    if k == 0 {
      NoneTried(env, store);
    } else {
      KeptOrderNeedsOnePass(env, store, failed, done, k - 1);
      SuccessesNext(env, store, all, k - 1);
      if k <= |failed| {
        assert all[k - 1] == failed[k - 1];
        FailedAllAlong(env, store, done, 0, failed[k - 1]);
        assert done[..0] == [];
      } else {
        var i: nat := k - 1 - |failed|;
        assert all[k - 1] == done[i];
        TurnSucceeds(env, store, done, i);
        var d := done[..i + 1];
        assert d == d[..i] + [d[i]] && d[..i] == done[..i];
      }
    }
  }

  lemma NoneTried<V>(env: Env<V>, store: map<string, V>)
    requires env.cs.Sound()
    ensures Successes(env, store, []) == []
  {
  }

  /**
    What a recomputation settles when no derived channel was there before: the
    formulas evaluated are exactly those with a value over the final store, each
    channel equals its formula over that store, and the sources are untouched.
   */
  lemma SettledIsFixedPoint<V>(env: Env<V>, store: map<string, V>, done: seq<string>)
    requires env.cs.Sound() && NoneDerived(env, store) && Derivation(env, store, done)
    requires Saturated(env, After(env, store, done), done)
    ensures var final := After(env, store, done);
            && (forall n | n in env.formulas :: n in done <==> env.Of(final, n).Some?)
            && (forall n | n in done :: n in final && env.Of(final, n).Some?
                                        && final[n] == env.stored(env.Of(final, n).value))
            && (forall n | n in store :: n in final && final[n] == store[n])
  {
    hide Derivation, After, Env.Of;
    var final := After(env, store, done);
    FreshIsTopological(env, store, done);
    FromStart(env, store, done);
    forall n | n in done
      ensures n in final && env.Of(final, n).Some? && final[n] == env.stored(env.Of(final, n).value)
    {
      var i :| 0 <= i < |done| && done[i] == n;
      EachEqualsItsFormula(env, store, done, i);
    }
  }

  // ---- With derived channels left from before ----------------------------------------

  /** The tree of a bracketed channel. */
  lemma BareText(cs: Chars, channel: string)
    requires cs.Sound() && channel != "" && IsTrimmed(cs, channel) && Balanced(channel)
    ensures Expression(Tokens(cs, "[" + channel + "]")) == Some(Chan(channel))
  {
    hide First, Unary, Primary, Expression;
    var s := "[" + channel + "]";
    BracketedReadsBack(cs, channel, "");
    assert s + "" == s && "" + s == s;
    LexIs(cs, "", s);
    var t := Ident(channel, true);
    assert s[|channel| + 2..] == "";
    assert Lex(cs, "").token == End;
    assert Tokens(cs, s) == [t] + Tokens(cs, "") == [t];
    OneChannel(channel);
  }

  lemma OneChannel(channel: string)
    ensures Expression([Ident(channel, true)]) == Some(Chan(channel))
  {
    var t := Ident(channel, true);
    assert [t][1..] == [];
    assert Unary([t]) == Primary([t]) == Done(Chan(channel), []);
    assert Chain(1, [t]) == Done(Chan(channel), []);
    assert Chain(0, [t]) == Done(Chan(channel), []);
  }

  /** A formula that is just a bracketed channel. */
  lemma BareReference(env: Env<int>, store: map<string, int>, name: string, channel: string)
    requires env.cs.Sound() && name in env.formulas && env.formulas[name] == "[" + channel + "]"
    requires channel != "" && IsTrimmed(env.cs, channel) && Balanced(channel)
    ensures env.Of(store, name) == if channel in store then Some(store[channel]) else None
  {
    BareText(env.cs, channel);
  }

  /** The formulas a = [b] and b = [s], defined in this order. */
  function TwoFormulas(cs: Chars, a: Algebra<int>): Env<int> {
    Env(cs, a, v => v, map["a" := "[b]", "b" := "[s]"])
  }

  /**
    Started with an old b in the store, a takes the old b and keeps it: it is not
    its formula's value in the end, although nothing fails.
   */
  lemma StaleValueStays(cs: Chars, a: Algebra<int>)
    requires cs.Sound() && cs.alnum('b') && cs.alnum('s')
    ensures var env, store, done := TwoFormulas(cs, a), map["s" := 1, "b" := 0], ["a", "b"];
            && Derivation(env, store, done) && Saturated(env, After(env, store, done), done)
            && After(env, store, done) == map["s" := 1, "b" := 1, "a" := 0]
            && env.Of(After(env, store, done), "a") == Some(1)
  {
    var env, store := TwoFormulas(cs, a), map["s" := 1, "b" := 0];
    hide Env.Of, After, Derivation;
    AfterNothing(env, store);
    NoneYet(env, store);
    assert [] + ["a"] == ["a"] && ["a"] + ["b"] == ["a", "b"];
    TwoValues(cs, a, store);
    DerivationStep(env, store, [], "a");
    var mid := store["a" := 0];
    TwoValues(cs, a, mid);
    DerivationStep(env, store, ["a"], "b");
    var final := mid["b" := 1];
    TwoValues(cs, a, final);
    assert After(env, store, ["a", "b"]) == final == map["s" := 1, "b" := 1, "a" := 0];
    assert forall n | n in env.formulas :: n in ["a", "b"];
  }

  lemma TwoValues(cs: Chars, a: Algebra<int>, store: map<string, int>)
    requires cs.Sound() && cs.alnum('b') && cs.alnum('s') && "b" in store && "s" in store
    ensures var env := TwoFormulas(cs, a);
            env.cs.Sound() && env.Of(store, "a") == Some(store["b"]) && env.Of(store, "b") == Some(store["s"])
  {
    NoBracketsIn("b");
    NoBracketsIn("s");
    BareReference(TwoFormulas(cs, a), store, "a", "b");
    BareReference(TwoFormulas(cs, a), store, "b", "s");
  }

  lemma NoneYet<V>(env: Env<V>, store: map<string, V>)
    requires env.cs.Sound()
    ensures Derivation(env, store, [])
  {
  }

  lemma NoBracketsIn(name: string)
    requires |name| == 1 && name[0] != '[' && name[0] != ']'
    ensures Balanced(name)
  {
    assert name[..0] == "" && name[..1] == name;
    assert Net(name) == 0;
  }

  // ---- Renaming --------------------------------------------------------------------

  function Swapped(n: string, from: string, to: string): string { if n == from then to else n }

  function SwappedAll(names: seq<string>, from: string, to: string): (r: seq<string>)
    ensures |r| == |names| && forall i | 0 <= i < |r| :: r[i] == Swapped(names[i], from, to)
  {
    seq(|names|, i requires 0 <= i < |names| => Swapped(names[i], from, to))
  }

  ghost function RewrittenAll(cs: Chars, formulas: map<string, string>, from: string, to: string): (r: map<string, string>)
    requires cs.Sound()
    ensures r.Keys == formulas.Keys
  {
    map n | n in formulas :: Rewritten(cs, formulas[n], from, to)
  }

  lemma SwappedHas(names: seq<string>, n: string, from: string, to: string)
    requires n in names
    ensures Swapped(n, from, to) in SwappedAll(names, from, to)
  {
    var i :| 0 <= i < |names| && names[i] == n;
    assert SwappedAll(names, from, to)[i] == Swapped(n, from, to);
  }

  /** Every formula rewritten, and the renamed channel's own one under the new name. */
  ghost function RenamedFormulas(cs: Chars, formulas: map<string, string>, from: string, to: string): map<string, string>
    requires cs.Sound()
  {
    var all := RewrittenAll(cs, formulas, from, to);
    if from in formulas then (all - {from})[to := all[from]] else all
  }

  ghost function RenamedEnv<V>(env: Env<V>, from: string, to: string): (r: Env<V>)
    requires env.cs.Sound()
    ensures r.cs == env.cs && r.stored == env.stored
  {
    env.(formulas := RenamedFormulas(env.cs, env.formulas, from, to))
  }

  /** A fresh, referenceable new name; formulas that parse and do not call the old one. */
  ghost predicate Renamable<V>(env: Env<V>, from: string, to: string)
    requires env.cs.Sound()
  {
    && Referenceable(env.cs, to) && to !in env.formulas
    && forall n | n in env.formulas ::
         var e := Expression(Tokens(env.cs, env.formulas[n]));
         e.Some? && !Calls(e.value, from) && !Refers(e.value, to)
  }

  lemma OfRenamed<V>(env: Env<V>, store: map<string, V>, from: string, to: string, n: string)
    requires env.cs.Sound() && Renamable(env, from, to) && to !in store && n in env.formulas
    ensures RenamedEnv(env, from, to).Of(Rekeyed(store, from, to), Swapped(n, from, to)) == env.Of(store, n)
  {
    hide Tokens, Expression, Rewritten, Refers, Calls, Value;
    RenamePreservesMeaning(env.cs, env.a, store, env.formulas[n], from, to);
  }

  lemma RekeyedUpdate<V>(store: map<string, V>, n: string, v: V, from: string, to: string)
    requires to !in store && n != to
    ensures Rekeyed(store[n := v], from, to) == Rekeyed(store, from, to)[Swapped(n, from, to) := v]
  {
  }

  /** Renaming and recomputing commute: every derivation carries over, name for name. */
  lemma {:induction false} RenameCommutes<V>(
      env: Env<V>, store: map<string, V>, done: seq<string>, from: string, to: string)
    requires env.cs.Sound() && Renamable(env, from, to) && to !in store && Derivation(env, store, done)
    ensures var env', done' := RenamedEnv(env, from, to), SwappedAll(done, from, to);
            && Derivation(env', Rekeyed(store, from, to), done')
            && After(env', Rekeyed(store, from, to), done') == Rekeyed(After(env, store, done), from, to)
  {
    hide Derivation, After, Env.Of, Renamable, Rekeyed, RenamedEnv;
    var env', done' := RenamedEnv(env, from, to), SwappedAll(done, from, to);
    if done == [] {
      AfterNothing(env, store);
      AfterNothing(env', Rekeyed(store, from, to));
      NoneYet(env', Rekeyed(store, from, to));
    } else {
      var k := |done| - 1;
      var head, name := done[..k], done[k];
      DerivationPrefix(env, store, done, k);
      RenameCommutes(env, store, head, from, to);
      TurnSucceeds(env, store, done, k);
      assert done[..k + 1] == done;
      HasFormula(env, store, done, k);
      var before := After(env, store, head);
      AbsentStays(env, store, head, from, to);
      AbsentStays(env, store, done, from, to);
      assert name in done;
      OfRenamed(env, before, from, to, name);
      RekeyedUpdate(before, name, env.stored(env.Of(before, name).value), from, to);
      assert done' == SwappedAll(head, from, to) + [Swapped(name, from, to)];
      SwapIsInjective(env, store, done, from, to);
      DerivationStep(env', Rekeyed(store, from, to), SwappedAll(head, from, to), Swapped(name, from, to));
    }
  }

  /** The new name never comes up on its own. */
  lemma AbsentStays<V>(env: Env<V>, store: map<string, V>, done: seq<string>, from: string, to: string)
    requires env.cs.Sound() && Renamable(env, from, to) && to !in store && Derivation(env, store, done)
    ensures to !in After(env, store, done) && to !in done
  {
    hide Derivation, After, Env.Of;
    AfterKeys(env, store, done, to);
    if to in done {
      var i :| 0 <= i < |done| && done[i] == to;
      HasFormula(env, store, done, i);
    }
  }

  lemma SwapIsInjective<V>(env: Env<V>, store: map<string, V>, done: seq<string>, from: string, to: string)
    requires env.cs.Sound() && Renamable(env, from, to) && to !in store && Derivation(env, store, done) && done != []
    ensures var k := |done| - 1; Swapped(done[k], from, to) !in SwappedAll(done[..k], from, to)
  {
    hide Derivation, After, Env.Of, Renamable;
    AbsentStays(env, store, done, from, to);
    var head := done[..|done| - 1];
    forall i | 0 <= i < |head|
      ensures Swapped(done[|done| - 1], from, to) != Swapped(head[i], from, to)
    {
      DerivationDistinct(env, store, done, i, |done| - 1);
      assert head[i] == done[i] && done[i] in done;
    }
  }

  /** And what failed still fails under the new names. */
  lemma RenameKeepsSaturated<V>(env: Env<V>, store: map<string, V>, done: seq<string>, from: string, to: string)
    requires env.cs.Sound() && Renamable(env, from, to) && to !in store && Saturated(env, store, done)
    ensures Saturated(RenamedEnv(env, from, to), Rekeyed(store, from, to), SwappedAll(done, from, to))
  {
    var env', done' := RenamedEnv(env, from, to), SwappedAll(done, from, to);
    forall m | m in env'.formulas && m !in done'
      ensures env'.Of(Rekeyed(store, from, to), m) == None
    {
      var n := if m == to && from in env.formulas then from else m;
      assert n in env.formulas && Swapped(n, from, to) == m;
      if n in done { SwappedHas(done, n, from, to); }
      hide Env.Of, Rekeyed, RenamedEnv;
      OfRenamed(env, store, from, to, n);
    }
  }
}
