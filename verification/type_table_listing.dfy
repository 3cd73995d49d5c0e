/**
  Listing symbols for the browser: one symbol under its leaf cap, then a whole
  listing in two rounds under a shared budget.
 */
module TypeTableListing {
  import opened Arithmetic
  import opened Options
  import opened Odometer
  import opened PlcNames
  import opened TypeTable

  /** Two recursion frames per level: the deepest nesting the source allows itself. */
  const DEPTH_CEILING := 512

  function DepthCap(types: nat): nat {
    if types + 8 < 64 then 64 else if types + 8 > DEPTH_CEILING then DEPTH_CEILING else types + 8
  }

  function ContextOf(names: Names, types: map<string, Entry>, sym: Symbol): Context {
    Context(names, types, sym, DepthCap(|types|))
  }

  ghost function FullExpansion(c: Context): Report
    requires c.names.Sound()
  {
    Expand(c, [], c.root.name, c.root.typeName, c.root.offset, 0)
  }

  const START := Progress([], [], false, false, false)

  /** A symbol that expands to exactly itself isn't an expansion. */
  function UnlessItself(c: Context, leaves: seq<Symbol>): seq<Symbol> {
    if |leaves| == 1 && leaves[0].name == c.root.name then [] else leaves
  }

  ghost predicate IsListing(c: Context, maxLeaves: int, out: seq<Symbol>, end: Progress)
    requires c.names.Sound()
  {
    Follows(START, end, FullExpansion(c), maxLeaves) && out == UnlessItself(c, end.out)
  }

  method ExpandWithTypeTable(c: Context, maxLeaves: int) returns (out: seq<Symbol>, end: Progress)
    requires c.names.Sound()
    ensures IsListing(c, maxLeaves, out, end)
    ensures |out| <= if maxLeaves < 0 then 0 else maxLeaves
  {
    var ex := new Expansion(c, maxLeaves);
    ex.ExpandInto(c.root.name, c.root.typeName, c.root.offset, 0);
    end := Progress(ex.out, ex.skipped, ex.truncated, ex.tooDeep, ex.recursive);
    out := UnlessItself(c, end.out);
  }

  /** What a smaller cap lists is a prefix of what a larger one lists. */
  lemma SmallerCapIsPrefix(c: Context, small: int, large: int, a: seq<Symbol>, b: seq<Symbol>, p: Progress, q: Progress)
    requires c.names.Sound() && small <= large
    requires IsListing(c, small, a, p) && IsListing(c, large, b, q)
    ensures a <= b
  {
    hide Expand;
    var leaves := FullExpansion(c).leaves;
    var j, k := Fitting(START, FullExpansion(c), small), Fitting(START, FullExpansion(c), large);
    assert p.out == leaves[..j] && q.out == leaves[..k];
    assert leaves[..j] == leaves[..k][..j];
  }

  function NonNegative(i: int): nat {
    if i < 0 then 0 else i
  }

  /** As many of the leaves as a cap allows. */
  function UpTo(all: seq<Symbol>, cap: int): (r: seq<Symbol>)
    ensures r <= all && |r| <= NonNegative(cap)
  {
    if cap <= 0 then [] else if cap < |all| then all[..cap] else all
  }

  /** An expansion is complete unless it reports being cut short, and then it holds exactly its cap and overran it. */
  lemma CutOrComplete(c: Context, maxLeaves: nat, out: seq<Symbol>, end: Progress)
    requires c.names.Sound() && IsListing(c, maxLeaves, out, end)
    ensures end.out == UpTo(FullExpansion(c).leaves, maxLeaves)
    ensures end.truncated <==> Overruns(START, FullExpansion(c), maxLeaves)
    ensures if end.truncated then |end.out| == maxLeaves
            else end.out == FullExpansion(c).leaves && end.skipped == FullExpansion(c).skipped
                 && end.tooDeep == FullExpansion(c).tooDeep && end.recursive == FullExpansion(c).recursive
  {}

  // ---------- one aggregate under a cap ----------

  /** How one aggregate came out: cut by its cap, with a limit to report, and what was left out as not recordable. */
  datatype Outcome = Outcome(truncated: bool, limited: bool, skipped: seq<string>)

  /** The uncapped expansion of one symbol over the table. */
  ghost function ViaTable(names: Names, types: map<string, Entry>, s: Symbol): Report
    requires names.Sound()
  {
    if types == map[] then NOTHING else FullExpansion(ContextOf(names, types, s))
  }

  ghost function TableLeaves(names: Names, types: map<string, Entry>, s: Symbol): seq<Symbol>
    requires names.Sound()
  {
    UnlessItself(ContextOf(names, types, s), ViaTable(names, types, s).leaves)
  }

  /** All elements of a symbol that its own declaration makes an array of numbers, and why there may be none. */
  ghost function FromDeclaration(names: Names, s: Symbol): (seq<Symbol>, Warning)
    requires names.Sound()
  {
    match names.parseArray(s.typeName)
    case None => ([], NoWarning)
    case Some(info) => ArrayElements(names, s, TotalElements(info.dims))
  }

  /** All leaves of a symbol: over the table, or from its own array declaration. */
  ghost function AllLeaves(names: Names, types: map<string, Entry>, s: Symbol): seq<Symbol>
    requires names.Sound()
  {
    if TableLeaves(names, types, s) != [] then TableLeaves(names, types, s) else FromDeclaration(names, s).0
  }

  /** All that is left out of them as not recordable. */
  ghost function AllSkipped(names: Names, types: map<string, Entry>, s: Symbol): seq<string>
    requires names.Sound()
  {
    ViaTable(names, types, s).skipped +
    if TableLeaves(names, types, s) == [] && FromDeclaration(names, s).1 != NoWarning then [WithType(s.name, s.typeName)] else []
  }

  /** The leaves listed under a cap: the first ones over the table, or all or none of a declared array. */
  ghost function UnderCap(names: Names, types: map<string, Entry>, s: Symbol, cap: int): (r: seq<Symbol>)
    requires names.Sound()
    ensures |r| <= NonNegative(cap)
  {
    if cap <= 0 then []
    else
      ArrayUnderCap(names, s, cap);
      var first := UnlessItself(ContextOf(names, types, s), UpTo(ViaTable(names, types, s).leaves, cap));
      if first != [] then first else ArrayElements(names, s, cap).0
  }

  ghost predicate IsLeafOf(names: Names, types: map<string, Entry>, s: Symbol, l: Symbol)
    requires names.Sound()
  {
    l in ViaTable(names, types, s).leaves || l in FromDeclaration(names, s).0
  }

  /** Under the cap nothing fits, more would follow, or the declared array is too long. */
  ghost predicate IsCut(names: Names, types: map<string, Entry>, s: Symbol, cap: int)
    requires names.Sound()
  {
    || cap <= 0
    || Overruns(START, ViaTable(names, types, s), cap)
    || (UnlessItself(ContextOf(names, types, s), UpTo(ViaTable(names, types, s).leaves, cap)) == []
        && names.parseArray(s.typeName) != None && TotalElements(names.parseArray(s.typeName).value.dims) > cap)
  }

  /** Nests too deep, or in itself. */
  ghost predicate Nested(names: Names, types: map<string, Entry>, s: Symbol)
    requires names.Sound()
  {
    ViaTable(names, types, s).tooDeep || ViaTable(names, types, s).recursive
  }

  /** What is reported under a cap; of one that is cut, how much is skipped before the end is left open. */
  ghost predicate CameOut(names: Names, types: map<string, Entry>, s: Symbol, cap: int, rep: Outcome)
    requires names.Sound()
  {
    && rep.truncated == IsCut(names, types, s, cap)
    && rep.limited == (rep.truncated || Nested(names, types, s))
    && (!rep.truncated ==> rep.skipped == AllSkipped(names, types, s))
  }

  /** What is not cut is complete. */
  lemma UncutIsAll(names: Names, types: map<string, Entry>, s: Symbol, cap: int)
    requires names.Sound() && !IsCut(names, types, s, cap)
    ensures UnderCap(names, types, s, cap) == AllLeaves(names, types, s)
  {
    hide Expand;
    ArrayUnderCap(names, s, cap);
  }

  method ExpandOne(names: Names, types: map<string, Entry>, s: Symbol, cap: int) returns (leaves: seq<Symbol>, rep: Outcome)
    requires names.Sound()
    ensures leaves == UnderCap(names, types, s, cap) && CameOut(names, types, s, cap, rep)
  {
    hide Expand, Follows;
    if cap <= 0 {
      return [], Outcome(true, true, []);
    }
    leaves, rep := [], Outcome(false, false, []);
    var c := ContextOf(names, types, s);
    if types != map[] {
      var end;
      leaves, end := ExpandWithTypeTable(c, cap);
      CutOrComplete(c, cap, leaves, end);
      rep := Outcome(end.truncated, end.truncated || end.tooDeep || end.recursive, end.skipped);
    }
    if leaves == [] {
      var warn;
      leaves, warn := ExpandArraySymbol(names, s, cap);
      var info := names.parseArray(s.typeName);
      if warn != NoWarning {
        if info != None && TotalElements(info.value.dims) > cap {
          rep := rep.(truncated := true, limited := true);
        } else {
          rep := rep.(skipped := rep.skipped + [WithType(s.name, s.typeName)]);
        }
      }
      ArrayUnderCap(names, s, cap);
    }
  }

  lemma ArrayUnderCap(names: Names, s: Symbol, cap: nat)
    requires names.Sound()
    ensures var few, all := ArrayElements(names, s, cap), FromDeclaration(names, s);
            && |few.0| <= cap && (few.0 == [] || few.0 == all.0)
            && if names.parseArray(s.typeName) != None && TotalElements(names.parseArray(s.typeName).value.dims) > cap
               then few.0 == [] && few.1 != NoWarning
               else few == all
  {
    hide TotalElements;
    if names.parseArray(s.typeName) != None {
      var info := names.parseArray(s.typeName).value;
      assert AllPositive(Counts(info.dims));
    }
  }

  // ---------- the listing as it grows ----------

  ghost function NamesOf(symbols: seq<Symbol>): set<string> {
    set s | s in symbols :: s.name
  }

  ghost predicate DistinctNames(symbols: seq<Symbol>) {
    forall i, j | 0 <= i < j < |symbols| :: symbols[i].name != symbols[j].name
  }

  /** The leaves, in order, whose names are not known and not repeated. */
  function News(leaves: seq<Symbol>, known: set<string>): seq<Symbol> {
    if leaves == [] then []
    else
      var head, last := leaves[..|leaves| - 1], leaves[|leaves| - 1];
      News(head, known) + if last.name in known || (exists l | l in head :: l.name == last.name) then [] else [last]
  }

  /** What a listing has so far. */
  datatype State = State(known: set<string>, out: seq<Symbol>, budget: int, limits: seq<string>, skipped: seq<string>)

  class Listing {
    ghost const listed: seq<Symbol>
    const startBudget: int
    var known: set<string>
    var out: seq<Symbol>
    var budget: int
    var limits: seq<string>
    var skipped: seq<string>

    constructor (symbols: seq<Symbol>, budget: int)
      ensures listed == symbols && startBudget == budget
      ensures Valid() && Now() == State(NamesOf(symbols), [], budget, [], [])
    {
      listed, startBudget := symbols, budget;
      known := set s | s in symbols :: s.name;
      this.budget := budget;
      out, limits, skipped := [], [], [];
    }

    ghost function Now(): State
      reads this
    {
      State(known, out, budget, limits, skipped)
    }

    /** Every kept leaf was paid for, and no name is listed twice. */
    ghost predicate Valid()
      reads this
    {
      && known == NamesOf(listed) + NamesOf(out)
      && |out| + budget == startBudget
      && DistinctNames(out) && NamesOf(out) !! NamesOf(listed)
    }

    method Keep(leaves: seq<Symbol>)
      requires Valid()
      modifies this`known, this`out, this`budget
      ensures Valid() && Now() == Paid(old(Now()), News(leaves, old(known)))
    {
      hide Valid, News;
      ghost var news := [];
      NoNews(known);
      for i := 0 to |leaves|
        invariant Valid() && news == News(leaves[..i], old(known)) && Now() == Paid(old(Now()), news)
        invariant known == old(known) + NamesOf(leaves[..i])
      {
        var e := leaves[i];
        NewsNext(leaves, i, old(known), known);
        ghost var more := if e.name in known then [] else [e];
        PaidTwice(old(Now()), news, more);
        KeepOne(e);
        news := news + more;
      }
      assert leaves[..|leaves|] == leaves;
    }

    /** The PLC may already list it. */
    method KeepOne(e: Symbol)
      requires Valid()
      modifies this`known, this`out, this`budget
      ensures Valid() && known == old(known) + {e.name}
      ensures Now() == Paid(old(Now()), if e.name in old(known) then [] else [e])
    {
      assert NamesOf([]) == {} && NamesOf([e]) == {e.name};
      if e.name !in known {
        NamesOfBoth(out, [e]);
        known := known + {e.name};
        budget := budget - 1;
        out := out + [e];
      }
    }

    method Record(name: string, rep: Outcome)
      modifies this`limits, this`skipped
      ensures old(limits) <= limits && (rep.limited ==> name in limits)
      ensures limits == old(limits) + (if rep.limited then [name] else [])
      ensures skipped == old(skipped) + rep.skipped
    {
      skipped := skipped + rep.skipped;
      if rep.limited {
        limits := limits + [name];
      }
    }
  }

  /** The listing with these leaves added and paid for. */
  ghost function Paid(st: State, more: seq<Symbol>): State {
    st.(known := st.known + NamesOf(more), out := st.out + more, budget := st.budget - |more|)
  }

  lemma PaidTwice(st: State, more: seq<Symbol>, rest: seq<Symbol>)
    ensures Paid(Paid(st, more), rest) == Paid(st, more + rest)
  {
    NamesOfBoth(more, rest);
    assert st.out + more + rest == st.out + (more + rest);
  }

  lemma NoNews(known: set<string>)
    ensures News([], known) == [] && NamesOf([]) == {}
  {
  }

  lemma NewsNext(leaves: seq<Symbol>, i: nat, known: set<string>, seen: set<string>)
    requires i < |leaves| && seen == known + NamesOf(leaves[..i])
    ensures News(leaves[..i + 1], known) == News(leaves[..i], known) + if leaves[i].name in seen then [] else [leaves[i]]
    ensures NamesOf(leaves[..i + 1]) == NamesOf(leaves[..i]) + {leaves[i].name}
  {
    assert leaves[..i + 1][..i] == leaves[..i] && leaves[..i + 1] == leaves[..i] + [leaves[i]];
    NamesOfBoth(leaves[..i], [leaves[i]]);
    assert NamesOf([leaves[i]]) == {leaves[i].name};
  }

  lemma NamesOfBoth(a: seq<Symbol>, b: seq<Symbol>)
    ensures NamesOf(a + b) == NamesOf(a) + NamesOf(b)
  {
  }

  // ---------- turns ----------

  /** A round gives every aggregate one turn: under the first cap, or with its share of what is left. */
  datatype Round = Opening(firstCap: int) | Growing
  {
    function Cap(budget: int, left: nat): int
      requires left > 0
    {
      match this
      case Opening(firstCap) => FirstCap(firstCap, budget)
      case Growing => Share(budget, left)
    }

    /** The first round holds back what it would cut. */
    predicate Holds(rep: Outcome) {
      Opening? && rep.truncated
    }
  }

  /** The cap of the first round, as far as the budget still goes. */
  function FirstCap(firstCap: int, budget: int): int {
    if firstCap < NonNegative(budget) then firstCap else NonNegative(budget)
  }

  /** What each of the aggregates left may use. */
  function Share(budget: int, left: nat): nat
    requires left > 0
  {
    NonNegative(budget) / left
  }

  /** One aggregate's turn: its cap, how it came out, and what it added to the list. */
  datatype Turn = Turn(of: Symbol, cap: int, rep: Outcome, added: seq<Symbol>)

  function Listed(turns: seq<Turn>): seq<Symbol> {
    if turns == [] then [] else Listed(turns[..|turns| - 1]) + turns[|turns| - 1].added
  }

  /** The aggregates held back. */
  function Held(turns: seq<Turn>): seq<Symbol> {
    if turns == [] then []
    else
      var t := turns[|turns| - 1];
      Held(turns[..|turns| - 1]) + if t.rep.truncated then [t.of] else []
  }

  /** The names of those with a limit to report. */
  function Notes(round: Round, turns: seq<Turn>): seq<string> {
    if turns == [] then []
    else
      var t := turns[|turns| - 1];
      Notes(round, turns[..|turns| - 1]) + if t.rep.limited && !round.Holds(t.rep) then [t.of.name] else []
  }

  function Skips(round: Round, turns: seq<Turn>): seq<string> {
    if turns == [] then []
    else
      var t := turns[|turns| - 1];
      Skips(round, turns[..|turns| - 1]) + if round.Holds(t.rep) then [] else t.rep.skipped
  }

  /** The listing after these turns. */
  ghost function Grown(st: State, round: Round, turns: seq<Turn>): State {
    Paid(st, Listed(turns)).(limits := st.limits + Notes(round, turns), skipped := st.skipped + Skips(round, turns))
  }

  /**
    Turns of the first of these aggregates, in order: each under the cap its round gives it of what the
    turns before it left, adding all leaves under that cap whose names are new, or nothing when held back.
   */
  ghost predicate AreTurns(
      names: Names, types: map<string, Entry>, round: Round, of: seq<Symbol>, st: State, turns: seq<Turn>)
    requires names.Sound()
    decreases |turns|
  {
    turns == [] || (
      var n := |turns| - 1;
      var t, before := turns[n], Grown(st, round, turns[..n]);
      && AreTurns(names, types, round, of, st, turns[..n])
      && n < |of| && t.of == of[n]
      && t.cap == round.Cap(before.budget, |of| - n)
      && CameOut(names, types, t.of, t.cap, t.rep)
      && t.added == if round.Holds(t.rep) then [] else News(UnderCap(names, types, t.of, t.cap), before.known))
  }

  lemma OneMoreTurn(names: Names, types: map<string, Entry>, round: Round, of: seq<Symbol>, st: State, turns: seq<Turn>, t: Turn)
    requires names.Sound() && AreTurns(names, types, round, of, st, turns) && |turns| < |of| && t.of == of[|turns|]
    requires t.cap == round.Cap(Grown(st, round, turns).budget, |of| - |turns|)
    requires CameOut(names, types, t.of, t.cap, t.rep)
    requires t.added == if round.Holds(t.rep) then []
                        else News(UnderCap(names, types, t.of, t.cap), Grown(st, round, turns).known)
    ensures AreTurns(names, types, round, of, st, turns + [t])
    ensures Held(turns + [t]) == Held(turns) + if t.rep.truncated then [t.of] else []
    ensures Grown(st, round, turns + [t])
         == if round.Holds(t.rep) then Grown(st, round, turns)
            else Noted(Paid(Grown(st, round, turns), t.added), t.of.name, t.rep)
  {
    hide CameOut, UnderCap, News, Grown, FirstCap, Share;
    assert (turns + [t])[..|turns|] == turns && (turns + [t])[|turns|] == t;
    TurnAdded(round, turns, t);
    GrownMore(st, round, turns, t);
  }

  lemma TurnAdded(round: Round, turns: seq<Turn>, t: Turn)
    ensures Listed(turns + [t]) == Listed(turns) + t.added
    ensures Held(turns + [t]) == Held(turns) + if t.rep.truncated then [t.of] else []
    ensures Notes(round, turns + [t]) == Notes(round, turns) + if t.rep.limited && !round.Holds(t.rep) then [t.of.name] else []
    ensures Skips(round, turns + [t]) == Skips(round, turns) + if round.Holds(t.rep) then [] else t.rep.skipped
  {
    assert (turns + [t])[..|turns|] == turns && (turns + [t])[|turns|] == t;
  }

  lemma GrownMore(st: State, round: Round, turns: seq<Turn>, t: Turn)
    requires round.Holds(t.rep) ==> t.added == []
    ensures Grown(st, round, turns + [t])
         == if round.Holds(t.rep) then Grown(st, round, turns)
            else Noted(Paid(Grown(st, round, turns), t.added), t.of.name, t.rep)
  {
    TurnAdded(round, turns, t);
    hide Listed, Held, Notes, Skips;
    PaidTwice(st, Listed(turns), t.added);
    hide NamesOf;
    assert Listed(turns) + [] == Listed(turns);
    assert Notes(round, turns) + [] == Notes(round, turns) && Skips(round, turns) + [] == Skips(round, turns);
  }

  /** The listing with an outcome recorded. */
  ghost function Noted(st: State, name: string, rep: Outcome): State {
    st.(limits := st.limits + (if rep.limited then [name] else []), skipped := st.skipped + rep.skipped)
  }

  // ---------- the two rounds ----------

  /** One aggregate's listing, recorded and kept. */
  method RecordAndKeep(s: Symbol, leaves: seq<Symbol>, rep: Outcome, list: Listing)
    requires list.Valid()
    modifies list
    ensures list.Valid() && list.Now() == Noted(Paid(old(list.Now()), News(leaves, old(list.known))), s.name, rep)
  {
    list.Record(s.name, rep);
    list.Keep(leaves);
  }

  function Aggregates(symbols: seq<Symbol>): (r: seq<Symbol>)
    ensures |r| <= |symbols|
  {
    if symbols == [] then []
    else
      var s := symbols[|symbols| - 1];
      Aggregates(symbols[..|symbols| - 1]) + if s.unsupported then [s] else []
  }

  lemma {:induction false} AggregatesSoFar(symbols: seq<Symbol>, i: nat)
    requires i <= |symbols|
    ensures Aggregates(symbols[..i]) <= Aggregates(symbols)
    ensures i < |symbols| ==>
              Aggregates(symbols[..i + 1]) == Aggregates(symbols[..i]) + if symbols[i].unsupported then [symbols[i]] else []
    decreases |symbols|
  {
    if i < |symbols| {
      assert symbols[..i + 1][..i] == symbols[..i];
      AggregatesSoFar(symbols[..|symbols| - 1], i);
      assert symbols[..|symbols| - 1][..i] == symbols[..i];
    } else {
      assert symbols[..i] == symbols;
    }
  }

  lemma AggregateNext(symbols: seq<Symbol>, i: nat)
    requires i < |symbols|
    ensures var n, all := |Aggregates(symbols[..i])|, Aggregates(symbols);
            if symbols[i].unsupported then n < |all| && all[n] == symbols[i] && |Aggregates(symbols[..i + 1])| == n + 1
            else |Aggregates(symbols[..i + 1])| == n
  {
    AggregatesSoFar(symbols, i);
    AggregatesSoFar(symbols, i + 1);
    hide Aggregates;
  }

  method FirstRound(names: Names, types: map<string, Entry>, symbols: seq<Symbol>, firstCap: int, list: Listing)
    returns (pending: seq<Symbol>, ghost turns: seq<Turn>)
    requires names.Sound() && list.Valid()
    modifies list
    ensures AreTurns(names, types, Opening(firstCap), Aggregates(symbols), old(list.Now()), turns)
    ensures |turns| == |Aggregates(symbols)| && pending == Held(turns)
    ensures list.Valid() && list.Now() == Grown(old(list.Now()), Opening(firstCap), turns)
  {
    hide AreTurns, UnderCap, CameOut, FirstCap, Aggregates, Held, Grown, Listing.Valid, Names.Sound;
    ghost var start, round, all := list.Now(), Opening(firstCap), Aggregates(symbols);
    pending, turns := [], [];
    NoTurns(names, types, round, all, start);
    assert |Aggregates(symbols[..0])| == 0;
    for i := 0 to |symbols|
      invariant list.Valid() && list.Now() == Grown(start, round, turns)
      invariant AreTurns(names, types, round, all, start, turns) && pending == Held(turns)
      invariant |turns| == |Aggregates(symbols[..i])|
    {
      AggregateNext(symbols, i);
      if symbols[i].unsupported {
        ghost var turn;
        pending, turn := FirstTurn(names, types, symbols[i], firstCap, pending, list);
        OneMoreTurn(names, types, round, all, start, turns, turn);
        turns := turns + [turn];
      }
    }
    assert symbols[..|symbols|] == symbols;
  }

  lemma NoTurns(names: Names, types: map<string, Entry>, round: Round, of: seq<Symbol>, st: State)
    requires names.Sound()
    ensures AreTurns(names, types, round, of, st, []) && Grown(st, round, []) == st && Held([]) == []
  {
    assert NamesOf([]) == {};
  }

  method FirstTurn(names: Names, types: map<string, Entry>, s: Symbol, firstCap: int, pending: seq<Symbol>, list: Listing)
    returns (pending': seq<Symbol>, ghost turn: Turn)
    requires names.Sound() && list.Valid()
    modifies list
    ensures turn.of == s && turn.cap == FirstCap(firstCap, old(list.budget)) && CameOut(names, types, s, turn.cap, turn.rep)
    ensures turn.added == if turn.rep.truncated then [] else News(UnderCap(names, types, s, turn.cap), old(list.known))
    ensures pending' == pending + if turn.rep.truncated then [s] else []
    ensures list.Valid()
    ensures list.Now() == if turn.rep.truncated then old(list.Now()) else Noted(Paid(old(list.Now()), turn.added), s.name, turn.rep)
  {
    hide UnderCap, CameOut, FirstCap, Listing.Valid, Names.Sound;
    var cap := FirstCap(firstCap, list.budget);
    ghost var known := list.known;
    var leaves, rep := ExpandOne(names, types, s, cap);
    turn := Turn(s, cap, rep, if rep.truncated then [] else News(leaves, known));
    if rep.truncated {
      pending' := pending + [s];
    } else {
      pending' := pending;
      RecordAndKeep(s, leaves, rep, list);
    }
  }

  method SecondRound(names: Names, types: map<string, Entry>, pending: seq<Symbol>, list: Listing)
    returns (ghost turns: seq<Turn>)
    requires names.Sound() && list.Valid()
    modifies list
    ensures AreTurns(names, types, Growing, pending, old(list.Now()), turns) && |turns| == |pending|
    ensures list.Valid() && list.Now() == Grown(old(list.Now()), Growing, turns)
  {
    hide AreTurns, UnderCap, CameOut, Share, Grown, Held, Listing.Valid, Names.Sound;
    ghost var start := list.Now();
    turns := [];
    NoTurns(names, types, Growing, pending, start);
    for i := 0 to |pending|
      invariant list.Valid() && list.Now() == Grown(start, Growing, turns)
      invariant AreTurns(names, types, Growing, pending, start, turns) && |turns| == i
    {
      ghost var turn := GrowOne(names, types, pending[i], |pending| - i, list);
      OneMoreTurn(names, types, Growing, pending, start, turns, turn);
      turns := turns + [turn];
    }
  }

  /** One turn of the second round: a share of what is left, and a limit when that is nothing. */
  method GrowOne(names: Names, types: map<string, Entry>, s: Symbol, left: nat, list: Listing)
    returns (ghost turn: Turn)
    requires names.Sound() && list.Valid() && left > 0
    modifies list
    ensures turn.of == s && turn.cap == Share(old(list.budget), left) && CameOut(names, types, s, turn.cap, turn.rep)
    ensures turn.added == News(UnderCap(names, types, s, turn.cap), old(list.known))
    ensures list.Valid() && list.Now() == Noted(Paid(old(list.Now()), turn.added), s.name, turn.rep)
  {
    hide ViaTable, TableLeaves, FromDeclaration, Share, Names.Sound;
    var cap := Share(list.budget, left);
    ghost var known := list.known;
    if cap <= 0 {
      list.limits := list.limits + [s.name];
      turn := Turn(s, cap, Outcome(true, true, []), []);
      assert NamesOf([]) == {} && list.out + [] == list.out && list.skipped + [] == list.skipped;
    } else {
      hide UnderCap, CameOut, Listing.Valid, Names.Sound;
      var leaves, rep := ExpandOne(names, types, s, cap);
      RecordAndKeep(s, leaves, rep, list);
      turn := Turn(s, cap, rep, News(leaves, known));
    }
  }

  /** A listing from its beginning: a first turn for every aggregate, a second for those held back. */
  ghost predicate IsListingOf(
      names: Names, types: map<string, Entry>, symbols: seq<Symbol>, firstCap: int, budget: int,
      first: seq<Turn>, second: seq<Turn>, end: State)
    requires names.Sound()
  {
    var start := State(NamesOf(symbols), [], budget, [], []);
    var mid := Grown(start, Opening(firstCap), first);
    && AreTurns(names, types, Opening(firstCap), Aggregates(symbols), start, first) && |first| == |Aggregates(symbols)|
    && AreTurns(names, types, Growing, Held(first), mid, second) && |second| == |Held(first)|
    && end == Grown(mid, Growing, second)
  }

  method ExpandAggregates(names: Names, types: map<string, Entry>, symbols: seq<Symbol>, firstCap: int, budget: int)
    returns (out: seq<Symbol>, limits: seq<string>, skipped: seq<string>,
             ghost first: seq<Turn>, ghost second: seq<Turn>)
    requires names.Sound()
    ensures IsListingOf(names, types, symbols, firstCap, budget, first, second,
                        State(NamesOf(symbols) + NamesOf(out), out, budget - |out|, limits, skipped))
    ensures DistinctNames(out) && NamesOf(out) !! NamesOf(symbols)
  {
    hide AreTurns, Aggregates, Held, Grown, Names.Sound;
    var list := new Listing(symbols, budget);
    var pending;
    pending, first := FirstRound(names, types, symbols, firstCap, list);
    second := SecondRound(names, types, pending, list);
    assert list.known == NamesOf(symbols) + NamesOf(list.out) && list.budget == budget - |list.out|;
    out, limits, skipped := list.out, list.limits, list.skipped;
  }

  // ---------- what a listing keeps ----------

  /** Every listed symbol is a leaf of one of the aggregates. */
  ghost predicate AreLeaves(names: Names, types: map<string, Entry>, symbols: seq<Symbol>, out: seq<Symbol>)
    requires names.Sound()
  {
    forall l | l in out :: exists s :: s in symbols && s.unsupported && IsLeafOf(names, types, s, l)
  }

  /** Nothing vanishes without a word: all leaves of s are listed, or a limit names it. */
  ghost predicate Accounted(names: Names, types: map<string, Entry>, s: Symbol, known: set<string>, limits: seq<string>)
    requires names.Sound()
  {
    s.name in limits || NamesOf(AllLeaves(names, types, s)) <= known
  }

  /** What a limit may be reported for: nesting, or a second turn cut by its own cap. */
  ghost predicate LimitedRightly(names: Names, types: map<string, Entry>, second: seq<Turn>, s: Symbol)
    requires names.Sound()
  {
    Nested(names, types, s) || exists t :: t in second && t.of == s && IsCut(names, types, s, t.cap)
  }

  lemma {:induction false} NewsAmong(leaves: seq<Symbol>, known: set<string>)
    ensures |News(leaves, known)| <= |leaves|
    ensures forall l | l in News(leaves, known) :: l in leaves
    ensures NamesOf(leaves) <= known + NamesOf(News(leaves, known))
  {
    if leaves != [] {
      var head, last := leaves[..|leaves| - 1], leaves[|leaves| - 1];
      NewsAmong(head, known);
      assert leaves == head + [last];
      NamesOfBoth(head, [last]);
      NamesOfBoth(News(head, known), News(leaves, known)[|News(head, known)|..]);
    }
  }

  lemma UnderCapAreLeaves(names: Names, types: map<string, Entry>, s: Symbol, cap: int)
    requires names.Sound()
    ensures forall l | l in UnderCap(names, types, s, cap) :: IsLeafOf(names, types, s, l)
  {
    if cap > 0 { ArrayUnderCap(names, s, cap); }
  }

  /** What one turn of a run is, and that the run has what it added. */
  lemma {:induction false} TurnFacts(
      names: Names, types: map<string, Entry>, round: Round, of: seq<Symbol>, st: State, turns: seq<Turn>, i: nat)
    requires names.Sound() && AreTurns(names, types, round, of, st, turns) && i < |turns|
    ensures i < |of| && turns[i].of == of[i]
    ensures var t, before := turns[i], Grown(st, round, turns[..i]);
            && t.cap == round.Cap(before.budget, |of| - i)
            && CameOut(names, types, t.of, t.cap, t.rep)
            && t.added == (if round.Holds(t.rep) then [] else News(UnderCap(names, types, t.of, t.cap), before.known))
            && Listed(turns[..i]) + t.added <= Listed(turns)
    decreases |turns|
  {
    hide CameOut, UnderCap, News, Grown, FirstCap, Share, Names.Sound;
    var n := |turns| - 1;
    if i < n {
      TurnFacts(names, types, round, of, st, turns[..n], i);
      assert turns[..n][..i] == turns[..i];
    }
  }

  /** A turn that is not held back has all leaves under its cap in the list. */
  lemma TurnListsAll(
      names: Names, types: map<string, Entry>, round: Round, of: seq<Symbol>, st: State, turns: seq<Turn>, i: nat)
    requires names.Sound() && AreTurns(names, types, round, of, st, turns) && i < |turns| && !round.Holds(turns[i].rep)
    ensures NamesOf(UnderCap(names, types, turns[i].of, turns[i].cap)) <= Grown(st, round, turns).known
  {
    TurnFacts(names, types, round, of, st, turns, i);
    var t, before := turns[i], Grown(st, round, turns[..i]);
    NewsAmong(UnderCap(names, types, t.of, t.cap), before.known);
    hide UnderCap, News, CameOut, AreTurns, Listed, NamesOf, FirstCap, Share, Names.Sound;
    NamesOfPrefix(Listed(turns[..i]), t.added, Listed(turns));
  }

  lemma NamesOfPrefix(a: seq<Symbol>, b: seq<Symbol>, all: seq<Symbol>)
    requires a + b <= all
    ensures NamesOf(a) + NamesOf(b) <= NamesOf(all)
  {
    assert all == a + b + all[|a + b|..];
    NamesOfBoth(a + b, all[|a + b|..]);
    NamesOfBoth(a, b);
  }

  lemma {:induction false} ListedFrom(turns: seq<Turn>, l: Symbol) returns (i: nat)
    requires l in Listed(turns)
    ensures i < |turns| && l in turns[i].added
  {
    var n := |turns| - 1;
    if l in turns[n].added { i := n; } else { i := ListedFrom(turns[..n], l); }
  }

  lemma {:induction false} HeldHas(turns: seq<Turn>, s: Symbol)
    ensures s in Held(turns) <==> exists i :: 0 <= i < |turns| && turns[i].of == s && turns[i].rep.truncated
  {
    if turns != [] {
      var n := |turns| - 1;
      HeldHas(turns[..n], s);
      assert forall i | 0 <= i < n :: turns[..n][i] == turns[i];
    }
  }

  lemma {:induction false} NotesHave(round: Round, turns: seq<Turn>, name: string)
    ensures name in Notes(round, turns)
       <==> exists i :: 0 <= i < |turns| && turns[i].of.name == name && turns[i].rep.limited && !round.Holds(turns[i].rep)
  {
    if turns != [] {
      var n := |turns| - 1;
      NotesHave(round, turns[..n], name);
      assert forall i | 0 <= i < n :: turns[..n][i] == turns[i];
    }
  }

  lemma {:induction false} AggregatesHave(symbols: seq<Symbol>, s: Symbol)
    ensures s in Aggregates(symbols) <==> s in symbols && s.unsupported
  {
    if symbols != [] {
      var n := |symbols| - 1;
      AggregatesHave(symbols[..n], s);
      assert symbols == symbols[..n] + [symbols[n]];
    }
  }

  // ---------- budgets ----------

  lemma ShareBound(budget: int, left: nat)
    requires left > 0
    ensures Share(budget, left) <= NonNegative(budget)
  {
    var cap := Share(budget, left);
    MulLe(1, left, cap);
    assert cap * 1 <= cap * left <= NonNegative(budget);
  }

  /** What one aggregate leaves unused flows to those after it. */
  lemma SharesNeverShrink(before: int, after: int, left: nat)
    requires left > 1 && after >= before - Share(before, left)
    requires before >= 0 ==> after >= 0
    ensures Share(after, left - 1) >= Share(before, left)
  {
    var cap := Share(before, left);
    assert cap * left <= NonNegative(before);
    assert cap * (left - 1) == cap * left - cap;
    QuotientAtLeast(NonNegative(after), left - 1, cap);
  }

  lemma QuotientAtLeast(n: nat, d: nat, q: nat)
    requires d > 0 && q * d <= n
    ensures n / d >= q
  {
    if n / d < q {
      MulLe(n / d + 1, q, d);
    }
  }

  /** A budget is never overdrawn, and nothing is listed on a negative one. */
  lemma {:induction false} WithinBudget(
      names: Names, types: map<string, Entry>, round: Round, of: seq<Symbol>, st: State, turns: seq<Turn>)
    requires names.Sound() && AreTurns(names, types, round, of, st, turns)
    ensures |Listed(turns)| <= NonNegative(st.budget)
    decreases |turns|
  {
    if turns != [] {
      var n := |turns| - 1;
      WithinBudget(names, types, round, of, st, turns[..n]);
      TurnFits(names, types, round, of, st, turns);
    }
  }

  /** The last turn adds no more than its cap, and no more than what was left. */
  lemma TurnFits(names: Names, types: map<string, Entry>, round: Round, of: seq<Symbol>, st: State, turns: seq<Turn>)
    requires names.Sound() && AreTurns(names, types, round, of, st, turns) && turns != []
    ensures var n := |turns| - 1; var before := Grown(st, round, turns[..n]).budget;
            && |turns[n].added| <= NonNegative(turns[n].cap) <= NonNegative(before)
            && Grown(st, round, turns).budget == before - |turns[n].added|
            && AreTurns(names, types, round, of, st, turns[..n]) && n < |of| && turns[n].cap == round.Cap(before, |of| - n)
  {
    hide CameOut, UnderCap, News, Share, Names.Sound;
    var n := |turns| - 1;
    var t, before := turns[n], Grown(st, round, turns[..n]);
    NewsAmong(UnderCap(names, types, t.of, t.cap), before.known);
    ShareBound(before.budget, |of| - n);
  }

  ghost predicate Rising(turns: seq<Turn>) {
    forall i, j | 0 <= i <= j < |turns| :: turns[i].cap <= turns[j].cap
  }

  /** The share behind a turn is no smaller than its cap. */
  lemma NextCap(names: Names, types: map<string, Entry>, of: seq<Symbol>, st: State, turns: seq<Turn>)
    requires names.Sound() && AreTurns(names, types, Growing, of, st, turns) && turns != [] && |turns| < |of|
    ensures turns[|turns| - 1].cap <= Share(Grown(st, Growing, turns).budget, |of| - |turns|)
  {
    hide Grown, CameOut, UnderCap, News, Share, AreTurns, Names.Sound;
    var n := |turns| - 1;
    TurnFits(names, types, Growing, of, st, turns);
    var before, after := Grown(st, Growing, turns[..n]).budget, Grown(st, Growing, turns).budget;
    assert turns[n].cap == Share(before, |of| - n);
    SharesNeverShrink(before, after, |of| - n);
  }

  /** The caps of the second round never decrease. */
  lemma {:induction false} CapsRise(names: Names, types: map<string, Entry>, of: seq<Symbol>, st: State, turns: seq<Turn>)
    requires names.Sound() && AreTurns(names, types, Growing, of, st, turns)
    ensures Rising(turns)
    decreases |turns|
  {
    hide Grown, CameOut, UnderCap, News, Share, AreTurns, Rising, Names.Sound;
    if turns == [] {
      NoCaps();
    } else {
      var n := |turns| - 1;
      TurnFits(names, types, Growing, of, st, turns);
      CapsRise(names, types, of, st, turns[..n]);
      if n > 0 { NextCap(names, types, of, st, turns[..n]); }
      OneMoreCap(turns);
    }
  }

  lemma NoCaps()
    ensures Rising([])
  {
  }

  lemma OneMoreCap(turns: seq<Turn>)
    requires turns != []
    requires var n := |turns| - 1; Rising(turns[..n]) && (n > 0 ==> turns[..n][n - 1].cap <= turns[n].cap)
    ensures Rising(turns)
  {
    var n := |turns| - 1;
    assert forall i | 0 <= i < n :: turns[..n][i] == turns[i];
  }

  // ---------- the theorem ----------

  /**
    A whole listing stays within its budget and lists leaves only.  Every aggregate is complete or named in a
    limit; a limit names only one that nests too deep or in itself, or one whose second turn was cut by its own
    cap; each second turn has all leaves under its cap in the list; and the caps handed out never decrease.
   */
  lemma WholeListing(
      names: Names, types: map<string, Entry>, symbols: seq<Symbol>, firstCap: int, budget: int,
      first: seq<Turn>, second: seq<Turn>, end: State)
    requires names.Sound() && IsListingOf(names, types, symbols, firstCap, budget, first, second, end)
    ensures |end.out| <= NonNegative(budget) && AreLeaves(names, types, symbols, end.out) && Rising(second)
    ensures forall s | s in symbols && s.unsupported :: Accounted(names, types, s, end.known, end.limits)
    ensures forall name | name in end.limits ::
              exists s :: s in symbols && s.unsupported && s.name == name && LimitedRightly(names, types, second, s)
    ensures forall i | 0 <= i < |second| ::
              NamesOf(UnderCap(names, types, second[i].of, second[i].cap)) <= end.known
  {
    var start := State(NamesOf(symbols), [], budget, [], []);
    var mid := Grown(start, Opening(firstCap), first);
    WithinBudget(names, types, Opening(firstCap), Aggregates(symbols), start, first);
    WithinBudget(names, types, Growing, Held(first), mid, second);
    CapsRise(names, types, Held(first), mid, second);
    hide AreTurns, UnderCap, AllLeaves, IsCut, ViaTable, LimitedRightly, IsLeafOf, Names.Sound;
    forall l | l in end.out
      ensures exists s :: s in symbols && s.unsupported && IsLeafOf(names, types, s, l)
    {
      if l in Listed(first) {
        LeafOfTurn(names, types, Opening(firstCap), Aggregates(symbols), start, first, symbols, l);
      } else {
        HeldAreAggregates(names, types, symbols, firstCap, start, first);
        LeafOfTurn(names, types, Growing, Held(first), mid, second, symbols, l);
      }
    }
    forall s | s in symbols && s.unsupported
      ensures Accounted(names, types, s, end.known, end.limits)
    {
      EachIsAccounted(names, types, symbols, firstCap, budget, first, second, end, s);
    }
    forall name | name in end.limits
      ensures exists s :: s in symbols && s.unsupported && s.name == name && LimitedRightly(names, types, second, s)
    {
      EachLimitIsRight(names, types, symbols, firstCap, budget, first, second, end, name);
    }
    forall i | 0 <= i < |second|
      ensures NamesOf(UnderCap(names, types, second[i].of, second[i].cap)) <= end.known
    {
      TurnListsAll(names, types, Growing, Held(first), mid, second, i);
    }
  }

  lemma HeldAreAggregates(
      names: Names, types: map<string, Entry>, symbols: seq<Symbol>, firstCap: int, st: State, first: seq<Turn>)
    requires names.Sound() && AreTurns(names, types, Opening(firstCap), Aggregates(symbols), st, first)
    ensures forall s | s in Held(first) :: s in Aggregates(symbols)
  {
    hide AreTurns, Held, Aggregates, CameOut, UnderCap, News, Grown, Names.Sound;
    forall s | s in Held(first)
      ensures s in Aggregates(symbols)
    {
      HeldHas(first, s);
      var i :| 0 <= i < |first| && first[i].of == s;
      TurnFacts(names, types, Opening(firstCap), Aggregates(symbols), st, first, i);
    }
  }

  lemma LeafOfTurn(
      names: Names, types: map<string, Entry>, round: Round, of: seq<Symbol>, st: State, turns: seq<Turn>,
      symbols: seq<Symbol>, l: Symbol)
    requires names.Sound() && AreTurns(names, types, round, of, st, turns) && l in Listed(turns)
    requires forall s | s in of :: s in Aggregates(symbols)
    ensures exists s :: s in symbols && s.unsupported && IsLeafOf(names, types, s, l)
  {
    var i := ListedFrom(turns, l);
    TurnFacts(names, types, round, of, st, turns, i);
    var t := turns[i];
    AggregatesHave(symbols, t.of);
    hide UnderCap, News, CameOut, AreTurns, Listed, IsLeafOf, Names.Sound;
    NewsAmong(UnderCap(names, types, t.of, t.cap), Grown(st, round, turns[..i]).known);
    UnderCapAreLeaves(names, types, t.of, t.cap);
    assert IsLeafOf(names, types, t.of, l);
  }

  lemma EachIsAccounted(
      names: Names, types: map<string, Entry>, symbols: seq<Symbol>, firstCap: int, budget: int,
      first: seq<Turn>, second: seq<Turn>, end: State, s: Symbol)
    requires names.Sound() && IsListingOf(names, types, symbols, firstCap, budget, first, second, end)
    requires s in symbols && s.unsupported
    ensures Accounted(names, types, s, end.known, end.limits)
  {
    hide AreTurns, UnderCap, AllLeaves, IsCut, ViaTable, Listed, Notes, Held, Skips, Names.Sound;
    var start := State(NamesOf(symbols), [], budget, [], []);
    var mid := Grown(start, Opening(firstCap), first);
    AggregatesHave(symbols, s);
    var i :| 0 <= i < |Aggregates(symbols)| && Aggregates(symbols)[i] == s;
    TurnFacts(names, types, Opening(firstCap), Aggregates(symbols), start, first, i);
    if first[i].rep.truncated {
      HeldHas(first, s);
      var j :| 0 <= j < |Held(first)| && Held(first)[j] == s;
      TurnFacts(names, types, Growing, Held(first), mid, second, j);
      TurnListsAll(names, types, Growing, Held(first), mid, second, j);
      NotesHave(Growing, second, s.name);
      if !second[j].rep.truncated { UncutIsAll(names, types, s, second[j].cap); }
    } else {
      TurnListsAll(names, types, Opening(firstCap), Aggregates(symbols), start, first, i);
      UncutIsAll(names, types, s, first[i].cap);
    }
  }

  lemma EachLimitIsRight(
      names: Names, types: map<string, Entry>, symbols: seq<Symbol>, firstCap: int, budget: int,
      first: seq<Turn>, second: seq<Turn>, end: State, name: string)
    requires names.Sound() && IsListingOf(names, types, symbols, firstCap, budget, first, second, end)
    requires name in end.limits
    ensures exists s :: s in symbols && s.unsupported && s.name == name && LimitedRightly(names, types, second, s)
  {
    hide AreTurns, UnderCap, AllLeaves, IsCut, ViaTable, Listed, Notes, Held, Skips, Names.Sound;
    var start := State(NamesOf(symbols), [], budget, [], []);
    var mid := Grown(start, Opening(firstCap), first);
    NotesHave(Opening(firstCap), first, name);
    NotesHave(Growing, second, name);
    if name in Notes(Opening(firstCap), first) {
      var i :| 0 <= i < |first| && first[i].of.name == name && first[i].rep.limited && !first[i].rep.truncated;
      TurnFacts(names, types, Opening(firstCap), Aggregates(symbols), start, first, i);
      AggregatesHave(symbols, first[i].of);
      assert LimitedRightly(names, types, second, first[i].of);
    } else {
      var j :| 0 <= j < |second| && second[j].of.name == name && second[j].rep.limited;
      TurnFacts(names, types, Growing, Held(first), mid, second, j);
      HeldAreAggregates(names, types, symbols, firstCap, start, first);
      AggregatesHave(symbols, second[j].of);
      assert second[j] in second;
      assert LimitedRightly(names, types, second, second[j].of);
    }
  }

  // ---------- when nothing is cut ----------

  ghost function TotalLeaves(names: Names, types: map<string, Entry>, of: seq<Symbol>): nat
    requires names.Sound()
  {
    if of == [] then 0
    else TotalLeaves(names, types, of[..|of| - 1]) + |AllLeaves(names, types, of[|of| - 1])|
  }

  lemma {:induction false} TotalGrows(names: Names, types: map<string, Entry>, of: seq<Symbol>, k: nat)
    requires names.Sound() && k <= |of|
    ensures TotalLeaves(names, types, of[..k]) <= TotalLeaves(names, types, of)
    ensures k < |of| ==> TotalLeaves(names, types, of[..k + 1])
                         == TotalLeaves(names, types, of[..k]) + |AllLeaves(names, types, of[k])|
    decreases |of|
  {
    hide AllLeaves, Names.Sound;
    if k < |of| {
      assert of[..k + 1][..k] == of[..k] && of[..|of| - 1][..k] == of[..k];
      TotalGrows(names, types, of[..|of| - 1], k);
    } else {
      assert of[..k] == of;
    }
  }

  /** With room to spare, no first turn is held back. */
  lemma {:induction false} NoneHeld(
      names: Names, types: map<string, Entry>, firstCap: nat, of: seq<Symbol>, st: State, turns: seq<Turn>)
    requires names.Sound() && AreTurns(names, types, Opening(firstCap), of, st, turns)
    requires forall s | s in of :: !IsCut(names, types, s, firstCap)
    requires TotalLeaves(names, types, of) + firstCap <= st.budget
    ensures Held(turns) == [] && |turns| <= |of| && |Listed(turns)| <= TotalLeaves(names, types, of[..|turns|])
    decreases |turns|
  {
    hide IsCut, UnderCap, AllLeaves, News, TotalLeaves, CameOut, FirstCap, Grown, Names.Sound;
    if turns == [] {
      assert of[..0] == [];
    } else {
      var n := |turns| - 1;
      NoneHeld(names, types, firstCap, of, st, turns[..n]);
      TotalGrows(names, types, of, n);
      TotalGrows(names, types, of, n + 1);
      NotHeld(names, types, firstCap, of, st, turns);
    }
  }

  lemma NotHeld(names: Names, types: map<string, Entry>, firstCap: nat, of: seq<Symbol>, st: State, turns: seq<Turn>)
    requires names.Sound() && AreTurns(names, types, Opening(firstCap), of, st, turns) && turns != []
    requires !IsCut(names, types, turns[|turns| - 1].of, firstCap)
    requires |Listed(turns[..|turns| - 1])| + firstCap <= st.budget
    ensures var t := turns[|turns| - 1]; !t.rep.truncated && |t.added| <= |AllLeaves(names, types, t.of)|
  {
    var n := |turns| - 1;
    var t, before := turns[n], Grown(st, Opening(firstCap), turns[..n]);
    assert t.cap == firstCap;
    hide IsCut, UnderCap, AllLeaves, News, Names.Sound, AreTurns;
    NewsAmong(UnderCap(names, types, t.of, t.cap), before.known);
    UncutIsAll(names, types, t.of, t.cap);
  }

  /** Then every aggregate is complete, and a limit names only one that nests too deep or in itself. */
  lemma RoomForAll(
      names: Names, types: map<string, Entry>, symbols: seq<Symbol>, firstCap: nat, budget: int,
      first: seq<Turn>, second: seq<Turn>, end: State)
    requires names.Sound() && IsListingOf(names, types, symbols, firstCap, budget, first, second, end)
    requires forall s | s in symbols && s.unsupported :: !IsCut(names, types, s, firstCap)
    requires TotalLeaves(names, types, Aggregates(symbols)) + firstCap <= budget
    ensures second == []
    ensures forall s | s in symbols && s.unsupported :: NamesOf(AllLeaves(names, types, s)) <= end.known
    ensures forall name | name in end.limits ::
              exists s :: s in symbols && s.unsupported && s.name == name
                          && Nested(names, types, s)
  {
    hide AreTurns, UnderCap, AllLeaves, IsCut, ViaTable, Listed, Notes, Skips, TotalLeaves, Names.Sound;
    var start := State(NamesOf(symbols), [], budget, [], []);
    forall s | s in Aggregates(symbols)
      ensures s in symbols && s.unsupported
    {
      AggregatesHave(symbols, s);
    }
    NoneHeld(names, types, firstCap, Aggregates(symbols), start, first);
    WholeListing(names, types, symbols, firstCap, budget, first, second, end);
    forall s | s in symbols && s.unsupported
      ensures NamesOf(AllLeaves(names, types, s)) <= end.known
    {
      CompleteUnlessHeld(names, types, symbols, firstCap, budget, first, second, end, s);
    }
  }

  lemma CompleteUnlessHeld(
      names: Names, types: map<string, Entry>, symbols: seq<Symbol>, firstCap: int, budget: int,
      first: seq<Turn>, second: seq<Turn>, end: State, s: Symbol)
    requires names.Sound() && IsListingOf(names, types, symbols, firstCap, budget, first, second, end)
    requires s in symbols && s.unsupported && s !in Held(first)
    ensures NamesOf(AllLeaves(names, types, s)) <= end.known
  {
    hide AreTurns, UnderCap, AllLeaves, IsCut, ViaTable, Listed, Notes, Held, Skips, Names.Sound;
    var start := State(NamesOf(symbols), [], budget, [], []);
    AggregatesHave(symbols, s);
    var i :| 0 <= i < |Aggregates(symbols)| && Aggregates(symbols)[i] == s;
    TurnFacts(names, types, Opening(firstCap), Aggregates(symbols), start, first, i);
    HeldHas(first, s);
    TurnListsAll(names, types, Opening(firstCap), Aggregates(symbols), start, first, i);
    UncutIsAll(names, types, s, first[i].cap);
  }

  // ---------- uniqueness ----------

  /** Turns of the same aggregates from the same state list, hold back and note the same. */
  lemma {:induction false} SameTurns(
      names: Names, types: map<string, Entry>, round: Round, of: seq<Symbol>, st: State, a: seq<Turn>, b: seq<Turn>)
    requires names.Sound() && |a| == |b|
    requires AreTurns(names, types, round, of, st, a) && AreTurns(names, types, round, of, st, b)
    ensures Listed(a) == Listed(b) && Held(a) == Held(b) && Notes(round, a) == Notes(round, b)
    ensures round.Opening? ==> Skips(round, a) == Skips(round, b)
    decreases |a|
  {
    hide IsCut, Nested, UnderCap, News, Share, FirstCap, AllSkipped, NamesOf, Names.Sound;
    if a != [] {
      SameTurns(names, types, round, of, st, a[..|a| - 1], b[..|b| - 1]);
    }
  }

  /** The inputs alone decide what is listed and which limits are reported. */
  lemma ListingIsUnique(
      names: Names, types: map<string, Entry>, symbols: seq<Symbol>, firstCap: int, budget: int,
      first: seq<Turn>, second: seq<Turn>, end: State, first': seq<Turn>, second': seq<Turn>, end': State)
    requires names.Sound()
    requires IsListingOf(names, types, symbols, firstCap, budget, first, second, end)
    requires IsListingOf(names, types, symbols, firstCap, budget, first', second', end')
    ensures end.out == end'.out && end.limits == end'.limits
  {
    hide AreTurns, Listed, Notes, Skips, Held, Aggregates, Names.Sound;
    var start := State(NamesOf(symbols), [], budget, [], []);
    SameTurns(names, types, Opening(firstCap), Aggregates(symbols), start, first, first');
    SameTurns(names, types, Growing, Held(first), Grown(start, Opening(firstCap), first), second, second');
  }

  // ---------- how far the budget goes ----------

  /** An uncut expansion of s is complete at any larger cap. */
  lemma CutByLess(names: Names, types: map<string, Entry>, s: Symbol, small: int, large: int)
    requires names.Sound() && small <= large && !IsCut(names, types, s, small)
    ensures !IsCut(names, types, s, large)
  {
    hide Expand;
    assert UpTo(ViaTable(names, types, s).leaves, small) == UpTo(ViaTable(names, types, s).leaves, large);
  }

  /** A share is the most that all aggregates left can have alike. */
  lemma ShareIsGreatest(budget: int, left: nat)
    requires left > 0
    ensures Share(budget, left) * left <= NonNegative(budget) < (Share(budget, left) + 1) * left
    ensures left == 1 ==> Share(budget, left) == NonNegative(budget)
  {
    var n, cap := NonNegative(budget), NonNegative(budget) / left;
    assert n == cap * left + n % left;
    assert (cap + 1) * left == cap * left + left;
  }

  /**
    Each second turn has all that can be given alike to it and those behind it: with n aggregates left, the cap
    times n is within the budget left, the next larger cap's is not, and the last turn has all that is left.
   */
  lemma CapIsFair(names: Names, types: map<string, Entry>, of: seq<Symbol>, st: State, turns: seq<Turn>, i: nat)
    requires names.Sound() && AreTurns(names, types, Growing, of, st, turns) && i < |turns|
    ensures var left := NonNegative(Grown(st, Growing, turns[..i]).budget);
            && i < |of| && turns[i].cap * (|of| - i) <= left < (turns[i].cap + 1) * (|of| - i)
            && (i == |of| - 1 ==> turns[i].cap == left)
  {
    hide CameOut, UnderCap, News, Grown, Names.Sound;
    TurnFacts(names, types, Growing, of, st, turns, i);
    ShareIsGreatest(Grown(st, Growing, turns[..i]).budget, |of| - i);
  }

  /** When the budget holds q for every aggregate held back, every second turn has at least q. */
  lemma CapsReach(names: Names, types: map<string, Entry>, of: seq<Symbol>, st: State, turns: seq<Turn>, q: nat, i: nat)
    requires names.Sound() && AreTurns(names, types, Growing, of, st, turns) && i < |turns|
    requires q * |of| <= NonNegative(st.budget)
    ensures turns[i].cap >= q
  {
    hide CameOut, UnderCap, News, Grown, Names.Sound, AreTurns, Rising;
    CapIsFair(names, types, of, st, turns, 0);
    FirstBudget(st, turns);
    if turns[0].cap < q { MulLe(turns[0].cap + 1, q, |of|); }
    CapsRise(names, types, of, st, turns);
    RisesFrom(turns, i);
  }

  lemma FirstBudget(st: State, turns: seq<Turn>)
    requires turns != []
    ensures Grown(st, Growing, turns[..0]).budget == st.budget
  {
    assert turns[..0] == [];
  }

  lemma RisesFrom(turns: seq<Turn>, i: nat)
    requires Rising(turns) && i < |turns|
    ensures turns[0].cap <= turns[i].cap
  {
  }

  /** Then, if q cuts none of them, the listing is complete and only nesting is reported. */
  lemma RoomForHeld(
      names: Names, types: map<string, Entry>, symbols: seq<Symbol>, firstCap: int, budget: int,
      first: seq<Turn>, second: seq<Turn>, end: State, q: nat)
    requires names.Sound() && IsListingOf(names, types, symbols, firstCap, budget, first, second, end)
    requires q * |Held(first)| <= budget - |Listed(first)|
    requires forall s | s in Held(first) :: !IsCut(names, types, s, q)
    ensures forall s | s in symbols && s.unsupported :: NamesOf(AllLeaves(names, types, s)) <= end.known
    ensures forall name | name in end.limits ::
              exists s :: s in symbols && s.unsupported && s.name == name && Nested(names, types, s)
  {
    hide AreTurns, UnderCap, AllLeaves, IsCut, ViaTable, Nested, Listed, Notes, Held, Skips, Names.Sound, Aggregates;
    var mid := Grown(State(NamesOf(symbols), [], budget, [], []), Opening(firstCap), first);
    forall i | 0 <= i < |second|
      ensures !IsCut(names, types, second[i].of, second[i].cap) && !second[i].rep.truncated
      ensures NamesOf(AllLeaves(names, types, second[i].of)) <= end.known
    {
      UncutTurn(names, types, Held(first), mid, second, q, i);
      TurnListsAll(names, types, Growing, Held(first), mid, second, i);
      UncutIsAll(names, types, second[i].of, second[i].cap);
    }
    WholeListing(names, types, symbols, firstCap, budget, first, second, end);
    forall s | s in symbols && s.unsupported
      ensures NamesOf(AllLeaves(names, types, s)) <= end.known
    {
      if s in Held(first) {
        var j :| 0 <= j < |Held(first)| && Held(first)[j] == s;
        TurnIsOf(names, types, Held(first), mid, second, j);
      } else {
        CompleteUnlessHeld(names, types, symbols, firstCap, budget, first, second, end, s);
      }
    }
  }

  lemma TurnIsOf(names: Names, types: map<string, Entry>, of: seq<Symbol>, st: State, turns: seq<Turn>, i: nat)
    requires names.Sound() && AreTurns(names, types, Growing, of, st, turns) && i < |turns|
    ensures i < |of| && turns[i].of == of[i] && CameOut(names, types, turns[i].of, turns[i].cap, turns[i].rep)
  {
    hide CameOut, UnderCap, News, Grown, Names.Sound, Share;
    TurnFacts(names, types, Growing, of, st, turns, i);
  }

  lemma UncutTurn(names: Names, types: map<string, Entry>, of: seq<Symbol>, st: State, turns: seq<Turn>, q: nat, i: nat)
    requires names.Sound() && AreTurns(names, types, Growing, of, st, turns) && i < |turns|
    requires q * |of| <= NonNegative(st.budget) && forall s | s in of :: !IsCut(names, types, s, q)
    ensures !IsCut(names, types, turns[i].of, turns[i].cap) && !turns[i].rep.truncated
  {
    hide UnderCap, News, Grown, Names.Sound, AreTurns, IsCut, Nested, AllSkipped;
    CapsReach(names, types, of, st, turns, q, i);
    TurnIsOf(names, types, of, st, turns, i);
    assert of[i] in of;
    CutByLess(names, types, turns[i].of, q, turns[i].cap);
  }
}
