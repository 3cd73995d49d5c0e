/**
  Recomputation over channels left from before: which orders make every channel
  equal its formula whatever the store holds, and that no other order does.
 */
module FormulaOrder {
  import opened Options
  import opened FormulaLexer
  import opened FormulaParser
  import opened FormulaRename
  import opened FormulaRenameExact
  import opened FormulaFixpoint

  // ---- The condition -------------------------------------------------------------

  /** Every filter that filtfilt is given is one. */
  predicate Computable(tree: Tree)
    decreases tree
  {
    match tree
    case Num(_) => true
    case Chan(_) => true
    case Bin(_, left, right) => Computable(left) && Computable(right)
    case Neg(inner) => Computable(inner)
    case Call(_, args) => forall i | 0 <= i < |args| :: Computable(args[i])
    case ZeroPhase(filter, args) => filter in Filterable && args != [] && forall i | 0 <= i < |args| :: Computable(args[i])
  }

  /** The formula of `name` parses, and so may have a value. */
  predicate Evaluable<V>(env: Env<V>, name: string)
    requires env.cs.Sound()
  {
    name in env.formulas &&
    var e := Expression(Tokens(env.cs, env.formulas[name]));
    e.Some? && Computable(e.value)
  }

  /** The channel holds what its formula says over this store. */
  ghost predicate Exact<V>(env: Env<V>, store: map<string, V>, name: string)
    requires env.cs.Sound()
  {
    name in store && env.Of(store, name).Some? && store[name] == env.stored(env.Of(store, name).value)
  }

  /** Channels that hold what their formulas say, over sources and one another. */
  ghost predicate UpToDate<V>(env: Env<V>, store: map<string, V>, current: set<string>)
    requires env.cs.Sound()
  {
    forall n | n in current ::
      n in env.formulas && Exact(env, store, n) && forall m | m in env.formulas && env.Uses(n, m) :: m in current
  }

  /** The channel a formula consists of, when it is nothing else. */
  function BareOf<V>(env: Env<V>, name: string): Option<string>
    requires env.cs.Sound()
  {
    if name !in env.formulas then None
    else
      var e := Expression(Tokens(env.cs, env.formulas[name]));
      if e.Some? && e.value.Chan? then Some(e.value.name) else None
  }

  function PlaceOf(names: seq<string>, name: string): (k: nat)
    ensures k <= |names| && (k < |names| ==> names[k] == name) && (k == |names| ==> name !in names)
  {
    if names == [] then 0 else if names[0] == name then 0 else 1 + PlaceOf(names[1..], name)
  }

  /** The channel whose old value a pass hands on to a bare formula, through the bare formulas before it. */
  function Origin<V>(env: Env<V>, names: seq<string>, j: nat): Option<string>
    requires env.cs.Sound() && j < |names|
  {
    match BareOf(env, names[j])
    case None => None
    case Some(x) =>
      var k := PlaceOf(names[..j], x);
      if k < j && Evaluable(env, x) then Origin(env, names, k) else Some(x)
  }

  /** Registering this channel's value, if it has one, leaves it as it is. */
  ghost predicate Registered<V>(env: Env<V>, store: map<string, V>, name: string) {
    name in store ==> env.stored(store[name]) == store[name]
  }

  /** A pass does not change this channel, or only gives it back its own old value. */
  ghost predicate Keeps<V>(env: Env<V>, store: map<string, V>, names: seq<string>, current: set<string>, j: nat)
    requires env.cs.Sound() && j < |names|
  {
    || names[j] in current || !Evaluable(env, names[j])
    || (Origin(env, names, j) == Some(names[j]) && Registered(env, store, names[j]))
  }

  /** Whatever a formula uses from its own place on keeps its value. */
  ghost predicate InOrder<V>(env: Env<V>, store: map<string, V>, names: seq<string>, current: set<string>)
    requires env.cs.Sound()
  {
    forall i, j | 0 <= i <= j < |names| && Evaluable(env, names[i]) && env.Uses(names[i], names[j]) ::
      Keeps(env, store, names, current, j)
  }

  /** Where registering changes no value of either store, the order is one of the formulas alone. */
  lemma OrderOfFormulas<V>(env: Env<V>, s: map<string, V>, t: map<string, V>, names: seq<string>, current: set<string>)
    requires env.cs.Sound() && (forall n :: Registered(env, s, n)) && forall n :: Registered(env, t, n)
    ensures InOrder(env, s, names, current) <==> InOrder(env, t, names, current)
  {
    hide Env.Uses, Evaluable, Origin, Registered;
  }

  /** What formulas use from their own place on is there, as far as a pass could bring it about. */
  ghost predicate Supplied<V>(env: Env<V>, store: map<string, V>, names: seq<string>, current: set<string>)
    requires env.cs.Sound()
  {
    forall i, j | 0 <= i <= j < |names| && Evaluable(env, names[i]) && env.Uses(names[i], names[j]) ::
      names[j] in store || names[j] in current || !Evaluable(env, names[j])
  }

  /** So it is where every channel with a formula is there. */
  lemma SuppliedWhen<V>(env: Env<V>, store: map<string, V>, names: seq<string>, current: set<string>)
    requires env.cs.Sound() && Lists(env, names)
    requires forall n | n in env.formulas :: n in store
    ensures Supplied(env, store, names, current)
  {
    hide Env.Uses, Evaluable;
    assert forall j | 0 <= j < |names| :: names[j] in names;
  }

  /** The formulas, each once. */
  ghost predicate Lists<V>(env: Env<V>, names: seq<string>) {
    && (forall i, j | 0 <= i < j < |names| :: names[i] != names[j])
    && (forall n :: n in names <==> n in env.formulas)
  }

  /** Every channel the pass evaluates equals its formula in the end. */
  ghost predicate PassIsRight<V>(env: Env<V>, store: map<string, V>, names: seq<string>)
    requires env.cs.Sound()
  {
    var done := Successes(env, store, names);
    forall n | n in done :: Exact(env, After(env, store, done), n)
  }

  lemma {:induction false} ValueMeansComputable<V>(a: Algebra<V>, store: map<string, V>, tree: Tree)
    requires Eval(a, store, tree).Some?
    ensures Computable(tree)
    decreases tree, 0
  {
    match tree
    case Num(_) =>
    case Chan(_) =>
    case Bin(_, left, right) =>
      ValueMeansComputable(a, store, left);
      ValueMeansComputable(a, store, right);
    case Neg(inner) => ValueMeansComputable(a, store, inner);
    case Call(_, args) => ValuesMeanComputable(a, store, args);
    case ZeroPhase(_, args) => ValuesMeanComputable(a, store, args);
  }

  lemma {:induction false} ValuesMeanComputable<V>(a: Algebra<V>, store: map<string, V>, trees: seq<Tree>)
    requires EvalAll(a, store, trees).Some?
    ensures forall i | 0 <= i < |trees| :: Computable(trees[i])
    decreases trees, 1
  {
    if trees != [] {
      ValueMeansComputable(a, store, trees[0]);
      ValuesMeanComputable(a, store, trees[1..]);
      assert forall i | 0 < i < |trees| :: trees[i] == trees[1..][i - 1];
    }
  }

  lemma OnlyEvaluable<V>(env: Env<V>, store: map<string, V>, name: string)
    requires env.cs.Sound() && env.Of(store, name).Some?
    ensures Evaluable(env, name)
  {
    ValueMeansComputable(env.a, store, Expression(Tokens(env.cs, env.formulas[name])).value);
  }

  // ---- The stores of a pass ------------------------------------------------------------

  /** The store once the first k names are tried. */
  ghost function Mid<V>(env: Env<V>, store: map<string, V>, names: seq<string>, k: nat): map<string, V>
    requires env.cs.Sound() && k <= |names|
  {
    After(env, store, Successes(env, store, names[..k]))
  }

  lemma MidEnds<V>(env: Env<V>, store: map<string, V>, names: seq<string>)
    requires env.cs.Sound()
    ensures Mid(env, store, names, 0) == store
    ensures Mid(env, store, names, |names|) == After(env, store, Successes(env, store, names))
  {
    AfterNothing(env, store);
    NoneTried(env, store);
    assert names[..0] == [] && names[..|names|] == names;
  }

  lemma MidNext<V>(env: Env<V>, store: map<string, V>, names: seq<string>, k: nat)
    requires env.cs.Sound() && k < |names|
    ensures var s := Mid(env, store, names, k);
            Mid(env, store, names, k + 1)
            == if env.Of(s, names[k]).Some? then s[names[k] := env.stored(env.Of(s, names[k]).value)] else s
    ensures var won := Successes(env, store, names[..k]);
            Successes(env, store, names[..k + 1])
            == if env.Of(Mid(env, store, names, k), names[k]).Some? then won + [names[k]] else won
  {
    hide Env.Of, After, Successes;
    SuccessesNext(env, store, names, k);
    if env.Of(Mid(env, store, names, k), names[k]).Some? {
      AfterMore(env, store, Successes(env, store, names[..k]), names[k]);
    }
  }

  /** What is not tried in between stays as it is. */
  lemma {:induction false} MidStays<V>(env: Env<V>, store: map<string, V>, names: seq<string>, i: nat, k: nat, n: string)
    requires env.cs.Sound() && i <= k <= |names| && n !in names[i..k]
    ensures var s, t := Mid(env, store, names, i), Mid(env, store, names, k);
            (n in s <==> n in t) && (n in s ==> t[n] == s[n])
    decreases k
  {
    hide Env.Of, Mid, Successes;
    if i < k {
      assert names[i..k] == names[i..k - 1] + [names[k - 1]];
      MidStays(env, store, names, i, k - 1, n);
      MidNext(env, store, names, k - 1);
    }
  }

  /** What is there stays there. */
  lemma {:induction false} MidHolds<V>(env: Env<V>, store: map<string, V>, names: seq<string>, k: nat, n: string)
    requires env.cs.Sound() && k <= |names| && n in store
    ensures n in Mid(env, store, names, k)
    decreases k
  {
    hide Env.Of, Mid, Successes;
    if k == 0 {
      MidEnds(env, store, names);
    } else {
      MidHolds(env, store, names, k - 1, n);
      MidNext(env, store, names, k - 1);
    }
  }

  lemma OnlyOnce<V>(env: Env<V>, names: seq<string>, i: nat)
    requires Lists(env, names) && i < |names|
    ensures names[i] !in names[..i] && names[i] !in names[i + 1..]
  {
  }

  /** A name is evaluated exactly if it has a value when its turn comes. */
  lemma {:induction false} WonAtTurn<V>(env: Env<V>, store: map<string, V>, names: seq<string>, i: nat, k: nat)
    requires env.cs.Sound() && Lists(env, names) && i < |names| && k <= |names|
    ensures names[i] in Successes(env, store, names[..k]) <==> i < k && env.Of(Mid(env, store, names, i), names[i]).Some?
    decreases k
  {
    hide Env.Of, Mid, Successes;
    if k == 0 {
      assert names[..0] == [];
      NoneTried(env, store);
    } else {
      WonAtTurn(env, store, names, i, k - 1);
      MidNext(env, store, names, k - 1);
    }
  }

  lemma WonExactly<V>(env: Env<V>, store: map<string, V>, names: seq<string>, i: nat)
    requires env.cs.Sound() && Lists(env, names) && i < |names|
    ensures names[i] in Successes(env, store, names) <==> env.Of(Mid(env, store, names, i), names[i]).Some?
  {
    hide Env.Of, Mid, Successes;
    WonAtTurn(env, store, names, i, |names|);
    assert names[..|names|] == names;
  }

  /** From its turn on, a channel keeps what its formula gave it. */
  lemma AtTurn<V>(env: Env<V>, store: map<string, V>, names: seq<string>, i: nat, k: nat)
    requires env.cs.Sound() && Lists(env, names) && i < k <= |names|
    ensures var s, t := Mid(env, store, names, i), Mid(env, store, names, k);
            env.Of(s, names[i]).Some? ==> names[i] in t && t[names[i]] == env.stored(env.Of(s, names[i]).value)
  {
    hide Env.Of, Mid, Lists;
    OnlyOnce(env, names, i);
    assert names[i] !in names[i + 1..k];
    MidNext(env, store, names, i);
    MidStays(env, store, names, i + 1, k, names[i]);
  }

  // ---- What keeps its value ---------------------------------------------------------------

  lemma CurrentAgain<V>(env: Env<V>, store: map<string, V>, s: map<string, V>, current: set<string>, name: string)
    requires env.cs.Sound() && UpToDate(env, store, current) && name in current
    requires forall n | n in current || !Evaluable(env, n) :: (n in s <==> n in store) && (n in store ==> s[n] == store[n])
    ensures env.Of(s, name) == env.Of(store, name) && name in s && s[name := env.stored(env.Of(s, name).value)] == s
  {
    hide Env.Uses, Env.Of;
    forall n | n in store && env.Uses(name, n)
      ensures n in s && s[n] == store[n]
    {
      if n !in env.formulas { assert !Evaluable(env, n); }
    }
    OfIsLocal(env, store, s, name);
  }

  /** What is up to date stays, and so does what never has a value of its own. */
  lemma {:induction false} CurrentStays<V>(env: Env<V>, store: map<string, V>, names: seq<string>, current: set<string>, k: nat)
    requires env.cs.Sound() && UpToDate(env, store, current) && k <= |names|
    ensures var s := Mid(env, store, names, k);
            forall n | n in current || !Evaluable(env, n) :: (n in s <==> n in store) && (n in store ==> s[n] == store[n])
    decreases k
  {
    hide Env.Of, Mid, Successes, UpToDate, Evaluable;
    if k == 0 {
      MidEnds(env, store, names);
    } else {
      CurrentStays(env, store, names, current, k - 1);
      MidNext(env, store, names, k - 1);
      var s, name := Mid(env, store, names, k - 1), names[k - 1];
      if env.Of(s, name).Some? {
        OnlyEvaluable(env, s, name);
        if name in current { CurrentAgain(env, store, s, current, name); }
      }
    }
  }

  lemma BareValue<V>(env: Env<V>, s: map<string, V>, name: string)
    requires env.cs.Sound() && BareOf(env, name).Some?
    ensures env.Of(s, name) == if BareOf(env, name).value in s then Some(s[BareOf(env, name).value]) else None
    ensures Evaluable(env, name) && forall m :: env.Uses(name, m) <==> m == BareOf(env, name).value
  {
    hide Tokens, Expression;
  }

  /** A chain of bare formulas hands on the old value of its origin. */
  lemma {:induction false} ChainValue<V>(env: Env<V>, store: map<string, V>, names: seq<string>, i: nat, k: nat)
    requires env.cs.Sound() && Lists(env, names) && i < k <= |names|
    requires Origin(env, names, i).Some? && Origin(env, names, i).value in store
    requires Registered(env, store, Origin(env, names, i).value)
    ensures var t := Mid(env, store, names, k);
            names[i] in t && t[names[i]] == store[Origin(env, names, i).value]
    decreases i
  {
    hide Env.Of, Mid, BareOf, Evaluable;
    var s, y := Mid(env, store, names, i), BareOf(env, names[i]).value;
    BareValue(env, s, names[i]);
    var p := PlaceOf(names[..i], y);
    if p < i && Evaluable(env, y) {
      ChainValue(env, store, names, p, i);
    } else if p < i {
      CurrentStays(env, store, names, {}, i);
    } else {
      MidEnds(env, store, names);
      assert names[0..i] == names[..i];
      MidStays(env, store, names, 0, i, y);
    }
    AtTurn(env, store, names, i, k);
  }

  /** In order, what a formula finds at its turn is there in the end, and the other way round if it is supplied. */
  lemma UsedStays<V>(env: Env<V>, store: map<string, V>, names: seq<string>, current: set<string>, i: nat, m: string)
    requires env.cs.Sound() && Lists(env, names) && UpToDate(env, store, current) && InOrder(env, store, names, current)
    requires i < |names| && Evaluable(env, names[i]) && env.Uses(names[i], m)
    requires m in Mid(env, store, names, i) || Supplied(env, store, names, current)
    ensures var s, t := Mid(env, store, names, i), Mid(env, store, names, |names|);
            (m in s <==> m in t) && (m in s ==> t[m] == s[m])
  {
    hide Env.Uses, Env.Of, Mid, UpToDate, Evaluable, Origin;
    if m in current || !Evaluable(env, m) {
      CurrentStays(env, store, names, current, i);
      CurrentStays(env, store, names, current, |names|);
    } else {
      assert m in names by { InNames(env, names, m); }
      var j :| 0 <= j < |names| && names[j] == m;
      if j < i {
        OnlyOnce(env, names, j);
        assert m !in names[i..|names|];
        MidStays(env, store, names, i, |names|, m);
      } else {
        assert Keeps(env, store, names, current, j);
        OnlyOnce(env, names, j);
        assert m !in names[0..i];
        MidEnds(env, store, names);
        MidStays(env, store, names, 0, i, m);
        if m in store { ChainValue(env, store, names, j, |names|); }
      }
    }
  }

  lemma InNames<V>(env: Env<V>, names: seq<string>, m: string)
    requires env.cs.Sound() && Lists(env, names) && Evaluable(env, m)
    ensures m in names
  {
  }

  /**
    In order, whatever old channels the store holds: each channel a pass evaluates equals its formula over the
    final store.  Where all that is used from a formula's own place on is supplied, nothing is left to evaluate.
   */
  lemma InOrderIsRight<V>(env: Env<V>, store: map<string, V>, names: seq<string>, current: set<string>)
    requires env.cs.Sound() && Lists(env, names) && UpToDate(env, store, current) && InOrder(env, store, names, current)
    ensures var done := Successes(env, store, names);
            && Derivation(env, store, done) && PassIsRight(env, store, names)
            && (Supplied(env, store, names, current) ==> Saturated(env, After(env, store, done), done))
    ensures var final := After(env, store, Successes(env, store, names));
            forall n | n in current || n !in env.formulas :: (n in final <==> n in store) && (n in store ==> final[n] == store[n])
  {
    hide Env.Uses, Env.Of, Mid, After, UpToDate, InOrder, Successes, Derivation, Supplied;
    var done, n := Successes(env, store, names), |names|;
    SuccessesDerive(env, store, names);
    MidEnds(env, store, names);
    var final := Mid(env, store, names, n);
    CurrentStays(env, store, names, current, n);
    forall m | m in done
      ensures Exact(env, final, m)
    {
      SuccessesAreTried(env, store, names, m);
      var i :| 0 <= i < n && names[i] == m;
      WonIsExact(env, store, names, current, i);
    }
    if Supplied(env, store, names, current) {
      forall m | m in env.formulas && m !in done
        ensures env.Of(final, m) == None
      {
        assert m in names;
        var i :| 0 <= i < n && names[i] == m;
        LostHasNone(env, store, names, current, i);
      }
    }
  }

  lemma WonIsExact<V>(env: Env<V>, store: map<string, V>, names: seq<string>, current: set<string>, i: nat)
    requires env.cs.Sound() && Lists(env, names) && UpToDate(env, store, current) && InOrder(env, store, names, current)
    requires i < |names| && names[i] in Successes(env, store, names)
    ensures Exact(env, Mid(env, store, names, |names|), names[i])
  {
    hide Env.Uses, Env.Of, Mid, UpToDate, InOrder, Successes, Lists, Evaluable;
    WonExactly(env, store, names, i);
    AtTurn(env, store, names, i, |names|);
    var s, t := Mid(env, store, names, i), Mid(env, store, names, |names|);
    OnlyEvaluable(env, s, names[i]);
    forall m | m in s && env.Uses(names[i], m)
      ensures m in t && t[m] == s[m]
    {
      UsedStays(env, store, names, current, i, m);
    }
    OfIsLocal(env, s, t, names[i]);
  }

  lemma LostHasNone<V>(env: Env<V>, store: map<string, V>, names: seq<string>, current: set<string>, i: nat)
    requires env.cs.Sound() && Lists(env, names) && UpToDate(env, store, current) && InOrder(env, store, names, current)
    requires i < |names| && names[i] !in Successes(env, store, names) && Supplied(env, store, names, current)
    ensures env.Of(Mid(env, store, names, |names|), names[i]) == None
  {
    hide Env.Uses, Env.Of, Mid, UpToDate, InOrder, Successes, Lists, Evaluable, Supplied;
    WonExactly(env, store, names, i);
    var s, t := Mid(env, store, names, i), Mid(env, store, names, |names|);
    if env.Of(t, names[i]).Some? {
      OnlyEvaluable(env, t, names[i]);
      forall m | m in t && env.Uses(names[i], m)
        ensures m in s && s[m] == t[m]
      {
        UsedStays(env, store, names, current, i, m);
      }
      OfIsLocal(env, t, s, names[i]);
    }
  }

  /** Where all channels are up to date, recomputing changes nothing, in any order. */
  lemma UpToDateStays<V>(env: Env<V>, store: map<string, V>, names: seq<string>)
    requires env.cs.Sound() && Lists(env, names) && UpToDate(env, store, env.formulas.Keys)
    ensures After(env, store, Successes(env, store, names)) == store
    ensures forall n :: n in Successes(env, store, names) <==> n in env.formulas
  {
    hide Env.Uses, Env.Of, After, Successes, Evaluable, Origin;
    InOrderIsRight(env, store, names, env.formulas.Keys);
    var won := Successes(env, store, names);
    var final := After(env, store, won);
    assert final == store;
    forall n
      ensures n in won <==> n in env.formulas
    {
      if n in won { SuccessesAreTried(env, store, names, n); }
      if n in env.formulas { assert Exact(env, store, n); }
    }
  }

  // ---- Values that remember everything -----------------------------------------------------

  datatype Term = Atom(name: string) | Node(parts: seq<Term>)

  /** Every operation keeps all its operands apart. */
  function Free(functions: set<string>): Algebra<Term> {
    Algebra(_ => Node([]), Node([]), (op, x, y) => Some(Node([x, y])),
            map f | f in functions :: Function(0, 0, xs => Some(Node(xs))))
  }

  /** All names in the text of a formula, if it parses. */
  function WordsIn(cs: Chars, text: string): seq<string>
    requires cs.Sound()
  {
    match Expression(Tokens(cs, text))
    case None => []
    case Some(e) => NamesOf(e)
  }

  function AllNames(cs: Chars, formulas: map<string, string>): set<string>
    requires cs.Sound()
  {
    formulas.Keys + {"Reverse"} + set n, x | n in formulas && x in WordsIn(cs, formulas[n]) :: x
  }

  /** These formulas over such values; registering a result leaves it alone, or marks it. */
  function FreeEnv(cs: Chars, formulas: map<string, string>, marked: bool): Env<Term>
    requires cs.Sound()
  {
    Env(cs, Free(AllNames(cs, formulas)), v => if marked then Node([v]) else v, formulas)
  }

  ghost predicate IsFree(env: Env<Term>, all: set<string>, marked: bool, names: seq<string>)
    requires env.cs.Sound()
  {
    && Lists(env, names) && env.a == Free(all) && (forall v :: env.stored(v) == if marked then Node([v]) else v)
    && "Reverse" in all && (forall n | n in env.formulas :: n in all)
    && forall n, x | n in env.formulas && x in WordsIn(env.cs, env.formulas[n]) :: x in all
  }

  /** Every channel with a value of its own. */
  function Atoms(names: set<string>): map<string, Term> { map n | n in names :: Atom(n) }

  ghost predicate HoldsAll(names: set<string>, s: map<string, Term>) {
    forall n | n in names :: n in s
  }

  /** A value is no atom unless the tree is a channel, and determines every channel referred to. */
  lemma {:induction false} ValueTells(names: set<string>, s: map<string, Term>, t: map<string, Term>, tree: Tree, n: string)
    requires Computable(tree) && "Reverse" in names && (forall x | x in NamesOf(tree) :: x in names)
    requires HoldsAll(names, s) && HoldsAll(names, t)
    ensures var x, y := Eval(Free(names), s, tree), Eval(Free(names), t, tree);
            && x.Some? && y.Some? && (!tree.Chan? ==> x.value.Node?)
            && (x == y && Refers(tree, n) && n in names ==> s[n] == t[n])
    decreases tree, 0
  {
    match tree
    case Num(_) =>
    case Chan(m) => assert m in NamesOf(tree);
    case Bin(_, left, right) =>
      assert forall x | x in NamesOf(left) || x in NamesOf(right) :: x in NamesOf(tree);
      ValueTells(names, s, t, left, n);
      ValueTells(names, s, t, right, n);
      TwoParts(Eval(Free(names), s, left).value, Eval(Free(names), s, right).value,
               Eval(Free(names), t, left).value, Eval(Free(names), t, right).value);
    case Neg(inner) =>
      ValueTells(names, s, t, inner, n);
      TwoParts(Node([]), Eval(Free(names), s, inner).value, Node([]), Eval(Free(names), t, inner).value);
    case Call(f, args) =>
      assert f in NamesOf(tree) && forall x | x in NamesOfAll(args) :: x in NamesOf(tree);
      ValuesTell(names, s, t, args, n);
    case ZeroPhase(f, args) =>
      assert f in NamesOf(tree) && forall x | x in NamesOfAll(args) :: x in NamesOf(tree);
      ValuesTell(names, s, t, args, n);
      var xs, ys := EvalAll(Free(names), s, args).value, EvalAll(Free(names), t, args).value;
      ZeroPhaseTerm(names, f, xs);
      ZeroPhaseTerm(names, f, ys);
      ThereAndBackTells(xs, ys);
  }

  lemma TwoParts(a: Term, b: Term, c: Term, d: Term)
    ensures Node([a, b]) == Node([c, d]) ==> a == c && b == d
  {
    assert [a, b] == [c, d] ==> [a, b][0] == [c, d][0] && [a, b][1] == [c, d][1];
  }

  lemma {:induction false} ValuesTell(names: set<string>, s: map<string, Term>, t: map<string, Term>, trees: seq<Tree>, n: string)
    requires (forall i | 0 <= i < |trees| :: Computable(trees[i])) && "Reverse" in names
    requires (forall x | x in NamesOfAll(trees) :: x in names) && HoldsAll(names, s) && HoldsAll(names, t)
    ensures var xs, ys := EvalAll(Free(names), s, trees), EvalAll(Free(names), t, trees);
            && xs.Some? && ys.Some?
            && (xs == ys && (exists i :: 0 <= i < |trees| && Refers(trees[i], n)) && n in names ==> s[n] == t[n])
    decreases trees, 1
  {
    if trees != [] {
      assert forall x | x in NamesOf(trees[0]) || x in NamesOfAll(trees[1..]) :: x in NamesOfAll(trees);
      ValueTells(names, s, t, trees[0], n);
      ValuesTell(names, s, t, trees[1..], n);
      assert forall i | 0 < i < |trees| :: trees[i] == trees[1..][i - 1];
      FirstAndRest(Eval(Free(names), s, trees[0]).value, EvalAll(Free(names), s, trees[1..]).value,
                   Eval(Free(names), t, trees[0]).value, EvalAll(Free(names), t, trees[1..]).value);
    }
  }

  lemma FirstAndRest(a: Term, more: seq<Term>, b: Term, rest: seq<Term>)
    ensures [a] + more == [b] + rest ==> a == b && more == rest
  {
    if [a] + more == [b] + rest {
      assert ([a] + more)[0] == ([b] + rest)[0];
      assert ([a] + more)[1..] == more && ([b] + rest)[1..] == rest;
    }
  }

  /** Forward, reversed, forward again, reversed back. */
  function ThereAndBack(xs: seq<Term>): Term
    requires xs != []
  {
    Node([Node(xs[0 := Node([Node(xs)])])])
  }

  lemma ThereAndBackTells(xs: seq<Term>, ys: seq<Term>)
    requires xs != [] && ys != []
    ensures ThereAndBack(xs) == ThereAndBack(ys) ==> xs == ys
  {
    if ThereAndBack(xs) == ThereAndBack(ys) {
      var a, b := xs[0 := Node([Node(xs)])], ys[0 := Node([Node(ys)])];
      assert [Node(a)][0] == [Node(b)][0];
      assert a[0] == b[0];
      assert [Node(xs)][0] == [Node(ys)][0];
    }
  }

  lemma ZeroPhaseTerm(names: set<string>, f: string, xs: seq<Term>)
    requires f in names && "Reverse" in names && f in Filterable && xs != []
    ensures ApplyZeroPhase(Free(names), f, xs) == Some(ThereAndBack(xs))
  {
    hide Free, ApplyZeroPhase, Filterable;
    var back := Node([Node(xs)]);
    FreeCall(names, f, xs);
    FreeCall(names, f, xs[0 := back]);
    FreeCall(names, "Reverse", [Node(xs)]);
    FreeCall(names, "Reverse", [Node(xs[0 := back])]);
    ZeroPhaseIs(Free(names), f, xs, Node(xs), back, Node(xs[0 := back]), ThereAndBack(xs));
  }

  lemma ZeroPhaseIs<V>(a: Algebra<V>, f: string, xs: seq<V>, y: V, r: V, z: V, last: V)
    requires xs != [] && f in Filterable && f in a.functions && "Reverse" in a.functions && a.functions[f].Accepts(|xs|)
    requires a.functions[f].impl(xs) == Some(y) && a.functions["Reverse"].impl([y]) == Some(r)
    requires a.functions[f].impl(xs[0 := r]) == Some(z) && a.functions["Reverse"].impl([z]) == Some(last)
    ensures ApplyZeroPhase(a, f, xs) == Some(last)
  {
  }

  lemma FreeCall(names: set<string>, f: string, xs: seq<Term>)
    requires f in names
    ensures f in Free(names).functions && Free(names).functions[f].impl(xs) == Some(Node(xs))
    ensures Free(names).functions[f].Accepts(|xs|)
  {
  }

  /** The same of a formula that can have a value. */
  lemma FormulaTells(
      env: Env<Term>, all: set<string>, marked: bool, names: seq<string>,
      s: map<string, Term>, t: map<string, Term>, name: string, n: string)
    requires env.cs.Sound() && IsFree(env, all, marked, names) && Evaluable(env, name)
    requires HoldsAll(all, s) && HoldsAll(all, t)
    ensures env.Of(s, name).Some? && env.Of(t, name).Some?
    ensures BareOf(env, name) == None ==> env.Of(s, name).value.Node?
    ensures env.Uses(name, n) ==> n in all
    ensures env.Uses(name, n) && env.Of(s, name) == env.Of(t, name) ==> s[n] == t[n]
  {
    hide Tokens, Expression, Computable, Refers, NamesOf, Free, Eval;
    var e := Expression(Tokens(env.cs, env.formulas[name])).value;
    assert NamesOf(e) == WordsIn(env.cs, env.formulas[name]);
    NamesAreUses(e, n);
    ValueTells(all, s, t, e, n);
  }

  // ---- Out of order, some store goes wrong -------------------------------------------------

  lemma AtomsHold(env: Env<Term>, all: set<string>, names: seq<string>, k: nat)
    requires env.cs.Sound() && k <= |names|
    ensures HoldsAll(all, Mid(env, Atoms(all), names, k))
  {
    hide Env.Of, Mid;
    forall n | n in all
      ensures n in Mid(env, Atoms(all), names, k)
    {
      MidHolds(env, Atoms(all), names, k, n);
    }
  }

  /** From atoms, a channel ends at an atom only by a chain of bare formulas that hands it on. */
  lemma {:induction false} EndsAtNode(env: Env<Term>, all: set<string>, marked: bool, names: seq<string>, j: nat, k: nat)
    requires env.cs.Sound() && IsFree(env, all, marked, names) && j < k <= |names| && Evaluable(env, names[j])
    requires marked || Origin(env, names, j) == None
    ensures var t := Mid(env, Atoms(all), names, k); names[j] in t && t[names[j]].Node?
    decreases j
  {
    assert forall v :: env.stored(v) == if marked then Node([v]) else v;
    assert Lists(env, names);
    hide IsFree, Env.Of, Env.Uses, Mid, BareOf, Evaluable, Lists;
    var s := Mid(env, Atoms(all), names, j);
    AtomsHold(env, all, names, j);
    FormulaTells(env, all, marked, names, s, s, names[j], "");
    AtTurn(env, Atoms(all), names, j, k);
    if !marked && BareOf(env, names[j]).Some? {
      var y := BareOf(env, names[j]).value;
      BareValue(env, s, names[j]);
      EndsAtNode(env, all, marked, names, PlaceOf(names[..j], y), j);
    }
  }

  /** So what is not kept differs in the end. */
  lemma NotKeptDiffers(env: Env<Term>, all: set<string>, marked: bool, names: seq<string>, j: nat)
    requires env.cs.Sound() && IsFree(env, all, marked, names) && j < |names| && !Keeps(env, Atoms(all), names, {}, j)
    ensures var t := Mid(env, Atoms(all), names, |names|); names[j] in t && t[names[j]] != Atom(names[j])
  {
    assert forall v :: env.stored(v) == if marked then Node([v]) else v;
    assert Lists(env, names);
    hide Env.Of, Mid, BareOf, Evaluable, Lists;
    if marked || Origin(env, names, j) == None {
      EndsAtNode(env, all, marked, names, j, |names|);
    } else {
      OriginNamed(env, all, marked, names, j);
      ChainValue(env, Atoms(all), names, j, |names|);
    }
  }

  lemma {:induction false} OriginNamed(env: Env<Term>, all: set<string>, marked: bool, names: seq<string>, j: nat)
    requires env.cs.Sound() && IsFree(env, all, marked, names) && j < |names| && Origin(env, names, j).Some?
    ensures Origin(env, names, j).value in all
    decreases j
  {
    hide IsFree, Env.Uses, Env.Of, BareOf, Evaluable;
    var y := BareOf(env, names[j]).value;
    BareValue(env, Atoms(all), names[j]);
    FormulaTells(env, all, marked, names, Atoms(all), Atoms(all), names[j], y);
    var k := PlaceOf(names[..j], y);
    if k < j && Evaluable(env, y) { OriginNamed(env, all, marked, names, k); }
  }

  /** A formula that uses, from its own place on, what is not kept ends at a value that is not its formula's. */
  lemma OutOfOrderGoesWrong(env: Env<Term>, all: set<string>, marked: bool, names: seq<string>, i: nat, j: nat)
    requires env.cs.Sound() && IsFree(env, all, marked, names) && i <= j < |names|
    requires Evaluable(env, names[i]) && env.Uses(names[i], names[j]) && !Keeps(env, Atoms(all), names, {}, j)
    ensures var done := Successes(env, Atoms(all), names);
            && names[i] in done && Saturated(env, After(env, Atoms(all), done), done)
            && !Exact(env, After(env, Atoms(all), done), names[i])
  {
    assert forall v :: env.stored(v) == if marked then Node([v]) else v;
    assert Lists(env, names);
    hide IsFree, Env.Of, Env.Uses, Mid, Evaluable, Keeps, After, Successes;
    var store, done := Atoms(all), Successes(env, Atoms(all), names);
    var s, t := Mid(env, store, names, i), Mid(env, store, names, |names|);
    MidEnds(env, store, names);
    AtomsHold(env, all, names, i);
    AtomsHold(env, all, names, |names|);
    FormulaTells(env, all, marked, names, s, t, names[i], names[j]);
    WonExactly(env, store, names, i);
    AtTurn(env, store, names, i, |names|);
    NotKeptDiffers(env, all, marked, names, j);
    StillAtom(env, all, names, i, j);
    forall m | m in env.formulas && m !in done
      ensures env.Of(t, m) == None
    {
      if env.Of(t, m).Some? { EvaluableWon(env, all, marked, names, m, t); }
    }
  }

  lemma StillAtom(env: Env<Term>, all: set<string>, names: seq<string>, i: nat, j: nat)
    requires env.cs.Sound() && Lists(env, names) && i <= j < |names| && names[j] in all
    ensures var s := Mid(env, Atoms(all), names, i); names[j] in s && s[names[j]] == Atom(names[j])
  {
    hide Env.Of, Mid;
    MidEnds(env, Atoms(all), names);
    assert names[j] !in names[0..i];
    MidStays(env, Atoms(all), names, 0, i, names[j]);
  }

  lemma EvaluableWon(env: Env<Term>, all: set<string>, marked: bool, names: seq<string>, m: string, t: map<string, Term>)
    requires env.cs.Sound() && IsFree(env, all, marked, names) && env.Of(t, m).Some?
    ensures m in Successes(env, Atoms(all), names)
  {
    OnlyEvaluable(env, t, m);
    assert Lists(env, names);
    InNames(env, names, m);
    hide IsFree, Env.Of, Env.Uses, Mid, Evaluable, Successes, Lists;
    var i :| 0 <= i < |names| && names[i] == m;
    AtomsHold(env, all, names, i);
    var s := Mid(env, Atoms(all), names, i);
    FormulaTells(env, all, marked, names, s, s, m, "");
    WonExactly(env, Atoms(all), names, i);
  }

  /** What is not kept from some store is not kept from atoms. */
  lemma AtomsKeepLeast(
      env: Env<Term>, all: set<string>, marked: bool, names: seq<string>, store: map<string, Term>, j: nat)
    requires env.cs.Sound() && IsFree(env, all, marked, names) && j < |names| && !Keeps(env, store, names, {}, j)
    ensures !Keeps(env, Atoms(all), names, {}, j)
  {
    assert forall v :: env.stored(v) == if marked then Node([v]) else v;
    assert Lists(env, names) && names[j] in names && names[j] in all;
    hide IsFree, Evaluable, Origin;
  }

  ghost predicate AlwaysInOrder(env: Env<Term>, names: seq<string>)
    requires env.cs.Sound()
  {
    forall store: map<string, Term> :: InOrder(env, store, names, {})
  }

  /** The pass is the whole recomputation, and right. */
  ghost predicate RerunIsRight<V>(env: Env<V>, store: map<string, V>, names: seq<string>)
    requires env.cs.Sound()
  {
    PassIsRight(env, store, names)
    && Saturated(env, After(env, store, Successes(env, store, names)), Successes(env, store, names))
  }

  /**
    Where values remember everything, one pass is right from every store exactly when the order is, and so it
    is over the stores that hold every channel with a formula, from which one pass is the whole recomputation.
   */
  lemma RightExactlyInOrder(cs: Chars, formulas: map<string, string>, marked: bool, names: seq<string>)
    requires cs.Sound() && Lists(FreeEnv(cs, formulas, marked), names)
    ensures var env := FreeEnv(cs, formulas, marked);
            && (AlwaysInOrder(env, names) <==> forall store: map<string, Term> :: PassIsRight(env, store, names))
            && (AlwaysInOrder(env, names)
                <==> forall store: map<string, Term> | formulas.Keys <= store.Keys :: RerunIsRight(env, store, names))
  {
    var env, all := FreeEnv(cs, formulas, marked), AllNames(cs, formulas);
    assert IsFree(env, all, marked, names);
    assert formulas.Keys <= Atoms(all).Keys;
    hide Env.Uses, Env.Of, After, Successes, Evaluable, Exact, FreeEnv, AllNames, Keeps, Atoms, IsFree, Saturated, PassIsRight;
    if AlwaysInOrder(env, names) {
      forall store: map<string, Term>
        ensures PassIsRight(env, store, names)
        ensures formulas.Keys <= store.Keys ==> RerunIsRight(env, store, names)
      {
        assert InOrder(env, store, names, {});
        if formulas.Keys <= store.Keys { SuppliedWhen(env, store, names, {}); }
        InOrderIsRight(env, store, names, {});
      }
    } else {
      var store: map<string, Term> :| !InOrder(env, store, names, {});
      var i, j :| 0 <= i <= j < |names| && Evaluable(env, names[i]) && env.Uses(names[i], names[j])
                  && !Keeps(env, store, names, {}, j);
      AtomsKeepLeast(env, all, marked, names, store, j);
      OutOfOrderGoesWrong(env, all, marked, names, i, j);
      assert !PassIsRight(env, Atoms(all), names) by { NotRight(env, Atoms(all), names, names[i]); }
    }
  }

  lemma NotRight<V>(env: Env<V>, store: map<string, V>, names: seq<string>, n: string)
    requires env.cs.Sound() && n in Successes(env, store, names)
    requires !Exact(env, After(env, store, Successes(env, store, names)), n)
    ensures !PassIsRight(env, store, names)
  {
  }

  // ---- Bare formulas, by example -----------------------------------------------------------

  lemma BareIs<V>(env: Env<V>, name: string, channel: string)
    requires env.cs.Sound() && name in env.formulas && env.formulas[name] == "[" + channel + "]"
    requires |channel| == 1 && env.cs.alnum(channel[0])
    ensures BareOf(env, name) == Some(channel)
  {
    NoBracketsIn(channel);
    BareText(env.cs, channel);
  }

  /** Formulas that are bare channels, by name. */
  ghost predicate AreBare<V>(env: Env<V>, names: seq<string>, channels: seq<string>)
    requires env.cs.Sound() && |names| == |channels|
  {
    Lists(env, names) && forall i | 0 <= i < |names| :: BareOf(env, names[i]) == Some(channels[i])
  }

  /** The uses among them. */
  lemma BareUses<V>(env: Env<V>, names: seq<string>, channels: seq<string>)
    requires env.cs.Sound() && |names| == |channels| && AreBare(env, names, channels)
    ensures forall i | 0 <= i < |names| :: Evaluable(env, names[i])
    ensures forall i, m | 0 <= i < |names| :: env.Uses(names[i], m) <==> m == channels[i]
  {
    hide BareOf, Evaluable, Env.Uses;
    forall i | 0 <= i < |names|
      ensures Evaluable(env, names[i]) && forall m :: env.Uses(names[i], m) <==> m == channels[i]
    {
      BareValue(env, map[], names[i]);
    }
  }

  /** a = [b] and b = [s]: a takes an old b. */
  lemma StaleIsOutOfOrder<V>(env: Env<V>, store: map<string, V>, a: string, b: string, s: string)
    requires env.cs.Sound() && AreBare(env, [a, b], [b, s]) && a != s && b != s
    ensures !InOrder(env, store, [a, b], {})
  {
    var names, channels := [a, b], [b, s];
    BareUses(env, names, channels);
    hide BareOf, Evaluable, Env.Uses;
    assert names[0] == a && names[1] == b && channels[0] == b && channels[1] == s && names[..1] == [a];
    assert Origin(env, names, 1) == Some(s);
    assert !Keeps(env, store, names, {}, 1);
  }

  /** a = [b] and b = [a]: a circle of bare formulas is in order. */
  lemma BareCircleIsRight<V>(env: Env<V>, store: map<string, V>, a: string, b: string)
    requires env.cs.Sound() && AreBare(env, [a, b], [b, a]) && a != b && Registered(env, store, b)
    ensures InOrder(env, store, [a, b], {}) && PassIsRight(env, store, [a, b])
  {
    var names, channels := [a, b], [b, a];
    BareUses(env, names, channels);
    hide BareOf, Evaluable, Env.Uses, Env.Of;
    assert names[0] == a && names[1] == b && channels[0] == b && channels[1] == a;
    assert names[..0] == [] && names[..1] == [a];
    assert Origin(env, names, 0) == Some(b);
    assert Origin(env, names, 1) == Some(b);
    InOrderIsRight(env, store, names, {});
  }

  /** q = [p], m = [p], n = [m] and p = [q]. */
  ghost predicate Delayed<V>(env: Env<V>, q: string, m: string, n: string, p: string) {
    && env.cs.Sound() && AreBare(env, [q, m, n, p], [p, p, m, q])
    && q != m && q != n && q != p && m != n && m != p && n != p
  }

  lemma DelayedOrigin<V>(env: Env<V>, q: string, m: string, n: string, p: string)
    requires Delayed(env, q, m, n, p)
    ensures Origin(env, [q, m, n, p], 3) == Some(p)
  {
    hide Evaluable, Env.Uses, Lists, BareOf;
    var names, channels := [q, m, n, p], [p, p, m, q];
    assert names[0] == q && names[3] == p && channels[0] == p && channels[3] == q;
    assert BareOf(env, names[0]) == Some(p) && BareOf(env, names[3]) == Some(q);
    BareValue(env, map[], q);
    assert names[..0] == [];
    assert Origin(env, names, 0) == Some(p);
    assert names[..3][0] == q;
    assert PlaceOf(names[..3], q) == 0;
  }

  lemma DelayedInOrder<V>(env: Env<V>, store: map<string, V>, q: string, m: string, n: string, p: string)
    requires Delayed(env, q, m, n, p) && Registered(env, store, p)
    ensures InOrder(env, store, [q, m, n, p], {})
  {
    hide Evaluable, Env.Uses, Origin, BareOf;
    var names, channels := [q, m, n, p], [p, p, m, q];
    BareUses(env, names, channels);
    DelayedOrigin(env, q, m, n, p);
    assert names[0] == q && names[1] == m && names[2] == n && names[3] == p;
    assert channels[0] == p && channels[1] == p && channels[2] == m && channels[3] == q;
    assert Keeps(env, store, names, {}, 3);
  }

  lemma DelayedValues<V>(env: Env<V>, q: string, m: string, n: string, p: string, s: map<string, V>)
    requires Delayed(env, q, m, n, p)
    ensures env.Of(s, q) == (if p in s then Some(s[p]) else None) && env.Of(s, m) == env.Of(s, q)
    ensures env.Of(s, n) == (if m in s then Some(s[m]) else None)
    ensures env.Of(s, p) == (if q in s then Some(s[q]) else None)
  {
    var names, channels := [q, m, n, p], [p, p, m, q];
    hide BareOf, Env.Of;
    assert names[0] == q && names[1] == m && names[2] == n && names[3] == p;
    assert channels[0] == p && channels[1] == p && channels[2] == m && channels[3] == q;
    BareValue(env, s, q);
    BareValue(env, s, m);
    BareValue(env, s, n);
    BareValue(env, s, p);
  }

  lemma DelayedFirst<V>(env: Env<V>, q: string, m: string, n: string, p: string, store: map<string, V>)
    requires Delayed(env, q, m, n, p) && q in store && m in store && p !in store
    requires env.stored(store[q]) == store[q] && env.stored(store[m]) == store[m]
    ensures Successes(env, store, [q, m, n, p]) == [n, p]
    ensures After(env, store, [n, p]) == store[n := store[m]][p := store[q]]
  {
    hide *;
    DelayedNames(env, q, m, n, p);
    DelayedValues(env, q, m, n, p, store);
    DelayedValues(env, q, m, n, p, store[n := store[m]]);
    AfterNothing(env, store);
    NoneTried(env, store);
    TriedLost(env, store, [], [], q, [q]);
    TriedLost(env, store, [q], [], m, [q, m]);
    TriedWon(env, store, [q, m], [], n, [q, m, n], [n]);
    TriedWon(env, store, [q, m, n], [n], p, [q, m, n, p], [n, p]);
  }

  lemma DelayedNames<V>(env: Env<V>, q: string, m: string, n: string, p: string)
    requires Delayed(env, q, m, n, p)
    ensures env.cs.Sound() && q != m && q != n && q != p && m != n && m != p && n != p
  {
  }

  lemma DelayedSecond<V>(env: Env<V>, q: string, m: string, n: string, p: string, mid: map<string, V>)
    requires Delayed(env, q, m, n, p) && p in mid && env.stored(mid[p]) == mid[p]
    ensures Successes(env, mid, [q, m]) == [q, m]
    ensures After(env, mid, [q, m]) == mid[q := mid[p]][m := mid[p]]
  {
    hide *;
    DelayedNames(env, q, m, n, p);
    DelayedValues(env, q, m, n, p, mid);
    DelayedValues(env, q, m, n, p, mid[q := mid[p]]);
    AfterNothing(env, mid);
    NoneTried(env, mid);
    TriedWon(env, mid, [], [], q, [q], [q]);
    TriedWon(env, mid, [q], [q], m, [q, m], [q, m]);
  }

  /**
    In order, but not supplied: the first pass evaluates n from the old m, for p is not there when m is tried,
    and the second gives m a new value.
   */
  lemma SecondPassUndoes<V>(env: Env<V>, q: string, m: string, n: string, p: string, x: V, y: V)
    requires Delayed(env, q, m, n, p) && x != y && env.stored(x) == x && env.stored(y) == y
    ensures var store := map[q := x, m := y];
            && InOrder(env, store, [q, m, n, p], {}) && !Supplied(env, store, [q, m, n, p], {})
            && Successes(env, store, [q, m, n, p]) == [n, p]
            && var mid := After(env, store, [n, p]);
            && Successes(env, mid, [q, m]) == [q, m]
            && var final := After(env, mid, [q, m]);
            && n in final && final[n] == y && env.Of(final, n) == Some(x) && !Exact(env, final, n)
  {
    hide Env.Of, After, Successes, InOrder, Supplied, Delayed;
    var store := map[q := x, m := y];
    DelayedNames(env, q, m, n, p);
    DelayedInOrder(env, store, q, m, n, p);
    DelayedUnsupplied(env, q, m, n, p, store);
    DelayedFirst(env, q, m, n, p, store);
    DelayedSecond(env, q, m, n, p, store[n := y][p := x]);
    var final := store[n := y][p := x][q := x][m := x];
    DelayedValues(env, q, m, n, p, final);
  }

  lemma DelayedUnsupplied<V>(env: Env<V>, q: string, m: string, n: string, p: string, store: map<string, V>)
    requires Delayed(env, q, m, n, p) && p !in store
    ensures !Supplied(env, store, [q, m, n, p], {})
  {
    var names, channels := [q, m, n, p], [p, p, m, q];
    BareUses(env, names, channels);
    hide BareOf, Evaluable, Env.Uses;
    assert names[0] == q && names[3] == p && channels[0] == p;
  }

  /** Such formulas can be written. */
  lemma DelayedExists(cs: Chars, a: Algebra<int>, formulas: map<string, string>)
    requires cs.Sound() && cs.alnum('p') && cs.alnum('m') && cs.alnum('q')
    requires formulas == map["q" := "[p]", "m" := "[p]", "n" := "[m]", "p" := "[q]"]
    ensures Delayed(Env(cs, a, v => v, formulas), "q", "m", "n", "p")
  {
    var env := Env(cs, a, v => v, formulas);
    var names, channels := ["q", "m", "n", "p"], ["p", "p", "m", "q"];
    assert "[" + "p" + "]" == "[p]" && "[" + "m" + "]" == "[m]" && "[" + "q" + "]" == "[q]";
    assert Lists(env, names);
    hide BareOf, Lists;
    forall i | 0 <= i < |names|
      ensures BareOf(env, names[i]) == Some(channels[i])
    {
      assert names[i] in env.formulas && env.formulas[names[i]] == "[" + channels[i] + "]";
      BareIs(env, names[i], channels[i]);
    }
  }

  lemma TriedLost<V>(env: Env<V>, store: map<string, V>, names: seq<string>, won: seq<string>, n: string, more: seq<string>)
    requires env.cs.Sound() && more == names + [n]
    requires Successes(env, store, names) == won && env.Of(After(env, store, won), n) == None
    ensures Successes(env, store, more) == won
  {
    hide Env.Of, After;
    assert more[..|more| - 1] == names;
  }

  lemma TriedWon<V>(
      env: Env<V>, store: map<string, V>, names: seq<string>, won: seq<string>, n: string, more: seq<string>, won': seq<string>)
    requires env.cs.Sound() && more == names + [n] && won' == won + [n]
    requires Successes(env, store, names) == won && env.Of(After(env, store, won), n).Some?
    ensures Successes(env, store, more) == won'
    ensures After(env, store, won') == After(env, store, won)[n := env.stored(env.Of(After(env, store, won), n).value)]
  {
    AfterMore(env, store, won, n);
    hide Env.Of, After;
    assert more[..|more| - 1] == names;
  }
}
