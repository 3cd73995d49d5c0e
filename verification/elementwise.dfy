/**
  Element-wise operators on two signals, in the two copies the analyser carries
  (formula engine and function registry), and resampling.
 */
module Elementwise {
  import opened Orders
  import opened Options
  import opened Interpolation

  /** derived: the signal has a source symbol of its own. */
  datatype Operand = Operand(s: Signal, derived: bool)

  datatype Result<V> = Ok(ts: seq<int>, vs: seq<V>) | Err(error: Error)

  datatype Error = EmptyOperand | NoOverlap

  ghost predicate Usable(a: Operand) {
    a.s.Matched() && Ordered(a.s.ts)
  }

  /** A single sample at time zero is a constant; the formula engine also asks for no source symbol. */
  predicate IsConstant(a: Operand, engine: bool) {
    |a.s.ts| == 1 && a.s.ts[0] == 0 && (engine ==> !a.derived)
  }

  predicate InRange(t: int, lo: int, hi: int) {
    lo <= t <= hi
  }

  function KeepRange(ts: seq<int>, lo: int, hi: int): (r: seq<int>)
    ensures forall t :: t in r <==> t in ts && lo <= t <= hi
  {
    if ts == [] then []
    else KeepRange(ts[..|ts| - 1], lo, hi) + if InRange(ts[|ts| - 1], lo, hi) then [ts[|ts| - 1]] else []
  }

  /** The samples within [lo, hi]. */
  ghost function Within(s: Signal, lo: int, hi: int): (r: Signal)
    requires s.Matched()
    ensures r.Matched() && r.ts == KeepRange(s.ts, lo, hi)
    ensures forall i | 0 <= i < |r.ts| :: exists k | 0 <= k < |s.ts| :: r.ts[i] == s.ts[k] && r.vs[i] == s.vs[k]
    decreases |s.ts|
  {
    if s.ts == [] then s
    else
      var n := |s.ts| - 1;
      var head := Within(First(s, n), lo, hi);
      if InRange(s.ts[n], lo, hi) then Signal(head.ts + [s.ts[n]], head.vs + [s.vs[n]]) else head
  }

  ghost function First(s: Signal, n: nat): (r: Signal)
    requires s.Matched() && n <= |s.ts|
    ensures r.Matched()
  {
    Signal(s.ts[..n], s.vs[..n])
  }

  function Later(a: int, b: int): int {
    if a < b then b else a
  }

  function Earlier(a: int, b: int): int {
    if a < b then a else b
  }

  /** The common time range of two signals. */
  function From(a: Signal, b: Signal): int
    requires a.ts != [] && b.ts != []
  {
    Later(a.ts[0], b.ts[0])
  }

  function To(a: Signal, b: Signal): int
    requires a.ts != [] && b.ts != []
  {
    Earlier(a.ts[|a.ts| - 1], b.ts[|b.ts| - 1])
  }

  /** The output grid: the times, within both ranges, of the operand that has more of them there. */
  function CommonGrid(a: Signal, b: Signal): seq<int>
    requires a.ts != [] && b.ts != []
  {
    var lo, hi := From(a, b), To(a, b);
    if |KeepRange(a.ts, lo, hi)| >= |KeepRange(b.ts, lo, hi)| then KeepRange(a.ts, lo, hi) else KeepRange(b.ts, lo, hi)
  }

  /** op of the two lines at every time of the grid. */
  ghost function OnLines<V>(grid: seq<int>, a: Signal, b: Signal, op: (real, real) -> V): (r: seq<V>)
    requires a.Drawn() && b.Drawn() && forall t | t in grid :: a.Covers(t) && b.Covers(t)
    ensures |r| == |grid|
  {
    seq(|grid|, i requires 0 <= i < |grid| => op(Line(a, grid[i]), Line(b, grid[i])))
  }

  /** What combining two non-constant signals means: op of their lines, or one of the two errors. */
  ghost function LinesCombined<V>(a: Signal, b: Signal, op: (real, real) -> V): Result<V>
    requires a.Matched() && b.Matched() && Increasing(a.ts) && Increasing(b.ts)
  {
    if a.ts == [] || b.ts == [] then Err(EmptyOperand)
    else if From(a, b) > To(a, b) then Err(NoOverlap)
    else Ok(CommonGrid(a, b), OnLines(CommonGrid(a, b), a, b, op))
  }

  /** The value at t between samples: the engine looks from below, the registry from above. */
  ghost function Read(s: Signal, t: int, engine: bool): real
    requires s.Matched() && s.ts != [] && Ordered(s.ts)
  {
    if engine then FromBelow(s, t) else FromAbove(s, t)
  }

  /** op of the samples of one operand and the other's values at their times. */
  ghost function OnGrid<V>(grid: Signal, other: Signal, swapped: bool, engine: bool, op: (real, real) -> V): (r: seq<V>)
    requires grid.Matched() && other.Matched() && other.ts != [] && Ordered(other.ts)
    ensures |r| == |grid.ts|
  {
    seq(|grid.ts|, i requires 0 <= i < |grid.ts| =>
          var here, there := grid.vs[i], Read(other, grid.ts[i], engine);
          if swapped then op(there, here) else op(here, there))
  }

  /** Combining two non-constant signals whose times may repeat: by index on one grid, else on the denser operand's samples. */
  ghost function Combined<V>(a: Signal, b: Signal, engine: bool, op: (real, real) -> V): Result<V>
    requires a.Matched() && b.Matched() && Ordered(a.ts) && Ordered(b.ts)
  {
    if a.ts == [] || b.ts == [] then Err(EmptyOperand)
    else if a.ts == b.ts then Ok(a.ts, seq(|a.ts|, i requires 0 <= i < |a.ts| => op(a.vs[i], b.vs[i])))
    else
      var lo, hi := From(a, b), To(a, b);
      if lo > hi then Err(NoOverlap)
      else
        var inA, inB := Within(a, lo, hi), Within(b, lo, hi);
        if |inA.ts| >= |inB.ts| then Ok(inA.ts, OnGrid(inA, b, false, engine, op))
        else Ok(inB.ts, OnGrid(inB, a, true, engine, op))
  }

  ghost function Broadcast<V>(a: Operand, b: Operand, aConst: bool, bConst: bool, op: (real, real) -> V): Result<V>
    requires Usable(a) && Usable(b) && (aConst ==> |a.s.ts| == 1) && (bConst ==> |b.s.ts| == 1) && (aConst || bConst)
  {
    var grid := if aConst then b.s.ts else a.s.ts;
    Ok(grid, seq(|grid|, i requires 0 <= i < |grid| => op(if aConst then a.s.vs[0] else a.s.vs[i], if bConst then b.s.vs[0] else b.s.vs[i])))
  }

  lemma {:induction false} KeepRangeAll(ts: seq<int>, lo: int, hi: int)
    requires forall i | 0 <= i < |ts| :: lo <= ts[i] <= hi
    ensures KeepRange(ts, lo, hi) == ts
  {
    if ts != [] {
      KeepRangeAll(ts[..|ts| - 1], lo, hi);
      assert ts == ts[..|ts| - 1] + [ts[|ts| - 1]];
    }
  }

  /** Signals on one grid: pairing samples by index is what the general path would do. */
  lemma SameGrid<V>(a: Signal, b: Signal, op: (real, real) -> V)
    requires a.Drawn() && b.Drawn() && a.ts == b.ts
    ensures From(a, b) <= To(a, b) && CommonGrid(a, b) == a.ts
    ensures forall i | 0 <= i < |a.ts| :: a.Covers(a.ts[i]) && b.Covers(a.ts[i])
    ensures forall i | 0 <= i < |a.ts| :: OnLines(a.ts, a, b, op)[i] == op(a.vs[i], b.vs[i])
  {
    hide Line;
    var last := |a.ts| - 1;
    assert a.ts[0] <= a.ts[last];
    assert forall i | 0 <= i < |a.ts| :: a.ts[0] <= a.ts[i] <= a.ts[last];
    KeepRangeAll(a.ts, a.ts[0], a.ts[last]);
    forall i | 0 <= i < |a.ts|
      ensures Line(a, a.ts[i]) == a.vs[i] && Line(b, a.ts[i]) == b.vs[i]
    {
      LineAtSample(a, i);
      LineAtSample(b, i);
    }
  }

  method BroadcastConstant<V>(a: Operand, b: Operand, aConst: bool, bConst: bool, op: (real, real) -> V) returns (r: Result<V>)
    requires Usable(a) && Usable(b) && (aConst ==> |a.s.ts| == 1) && (bConst ==> |b.s.ts| == 1) && (aConst || bConst)
    ensures r == Broadcast(a, b, aConst, bConst, op)
  {
    var grid := if aConst then b.s.ts else a.s.ts;
    var out := [];
    for i := 0 to |grid|
      invariant |out| == i
      invariant forall j | 0 <= j < i :: out[j] == Broadcast(a, b, aConst, bConst, op).vs[j]
    {
      out := out + [op(if aConst then a.s.vs[0] else a.s.vs[i], if bConst then b.s.vs[0] else b.s.vs[i])];
    }
    r := Ok(grid, out);
  }

  /** Without repeated times both copies, by either path, give op of the two lines. */
  lemma CombinedIsLines<V>(a: Signal, b: Signal, engine: bool, op: (real, real) -> V)
    requires a.Matched() && b.Matched() && Increasing(a.ts) && Increasing(b.ts)
    ensures Ordered(a.ts) && Ordered(b.ts) && Combined(a, b, engine, op) == LinesCombined(a, b, op)
  {
    hide Line, KeepRange, Within, OnGrid, OnLines, Read;
    if a.ts != [] && b.ts != [] {
      if a.ts == b.ts {
        OneGridIsLines(a, b, engine, op);
      } else if From(a, b) <= To(a, b) {
        GridOnLines(a, b, false, engine, From(a, b), To(a, b), op);
        GridOnLines(b, a, true, engine, From(a, b), To(a, b), op);
      }
    }
  }

  lemma OneGridIsLines<V>(a: Signal, b: Signal, engine: bool, op: (real, real) -> V)
    requires a.Drawn() && b.Drawn() && a.ts == b.ts && Ordered(a.ts)
    ensures Combined(a, b, engine, op) == LinesCombined(a, b, op)
  {
    hide Line, KeepRange, From, To, CommonGrid, Within, OnGrid, Lerp;
    SameGrid(a, b, op);
    assert forall t | t in a.ts :: exists i | 0 <= i < |a.ts| :: a.ts[i] == t;
    assert Combined(a, b, engine, op).vs == OnLines(a.ts, a, b, op);
  }

  lemma GridOnLines<V>(s: Signal, other: Signal, swapped: bool, engine: bool, lo: int, hi: int, op: (real, real) -> V)
    requires s.Drawn() && other.Drawn() && Ordered(other.ts)
    requires forall t | lo <= t <= hi :: s.Covers(t) && other.Covers(t)
    ensures var ts := KeepRange(s.ts, lo, hi);
            OnGrid(Within(s, lo, hi), other, swapped, engine, op)
            == if swapped then OnLines(ts, other, s, op) else OnLines(ts, s, other, op)
  {
    hide Line, Held, FromBelow, FromAbove, Within, KeepRange;
    var w := Within(s, lo, hi);
    assert forall i | 0 <= i < |w.ts| :: w.ts[i] in KeepRange(s.ts, lo, hi);
    forall i | 0 <= i < |w.ts|
      ensures w.vs[i] == Line(s, w.ts[i]) && Read(other, w.ts[i], engine) == Line(other, w.ts[i])
    {
      var k :| 0 <= k < |s.ts| && w.ts[i] == s.ts[k] && w.vs[i] == s.vs[k];
      assert w.ts[i] in w.ts;
      LineAtSample(s, k);
      BothAreHeld(other, w.ts[i]);
      HeldIsLine(other, w.ts[i]);
    }
  }

  // ---------- which operand's times ----------

  /** Where the times lie that both signals cover. */
  ghost function Inside(ts: seq<int>, a: Signal, b: Signal): set<nat>
    requires a.ts != [] && b.ts != []
  {
    set i: nat | i < |ts| && a.Covers(ts[i]) && b.Covers(ts[i])
  }

  /** All those times, in order and as often as they stand there. */
  ghost predicate AllInside(ts: seq<int>, all: seq<int>, a: Signal, b: Signal)
    requires a.ts != [] && b.ts != []
  {
    Ordered(ts) && forall t :: multiset(ts)[t] == if a.Covers(t) && b.Covers(t) then multiset(all)[t] else 0
  }

  lemma {:induction false} KeptTimes(ts: seq<int>, lo: int, hi: int, t: int)
    ensures multiset(KeepRange(ts, lo, hi))[t] == if lo <= t <= hi then multiset(ts)[t] else 0
  {
    if ts != [] {
      KeptTimes(ts[..|ts| - 1], lo, hi, t);
      assert ts == ts[..|ts| - 1] + [ts[|ts| - 1]];
    }
  }

  lemma {:induction false} KeptCount(ts: seq<int>, a: Signal, b: Signal)
    requires a.ts != [] && b.ts != []
    ensures |KeepRange(ts, From(a, b), To(a, b))| == |Inside(ts, a, b)|
  {
    if ts != [] {
      var n := |ts| - 1;
      KeptCount(ts[..n], a, b);
      var more := if a.Covers(ts[n]) && b.Covers(ts[n]) then {n} else {};
      assert Inside(ts, a, b) == Inside(ts[..n], a, b) + more;
      assert n !in Inside(ts[..n], a, b);
    }
  }

  lemma KeptIsInside(ts: seq<int>, a: Signal, b: Signal)
    requires a.ts != [] && b.ts != [] && Ordered(ts)
    ensures AllInside(KeepRange(ts, From(a, b), To(a, b)), ts, a, b)
    ensures |KeepRange(ts, From(a, b), To(a, b))| == |Inside(ts, a, b)|
  {
    hide KeepRange, Inside;
    KeptCount(ts, a, b);
    KeepRangeInOrder(ts, From(a, b), To(a, b));
    forall t {
      KeptTimes(ts, From(a, b), To(a, b), t);
    }
  }

  /**
    The output has the times of the operand with more of them in the common range, the
    first one's if there are as many, all of these and no other.
   */
  lemma DenserOperand<V>(a: Signal, b: Signal, engine: bool, op: (real, real) -> V)
    requires a.Matched() && b.Matched() && Ordered(a.ts) && Ordered(b.ts) && a.ts != [] && b.ts != []
    ensures Combined(a, b, engine, op).Err? <==> forall t :: !(a.Covers(t) && b.Covers(t))
    ensures var r := Combined(a, b, engine, op);
            r.Ok? ==> AllInside(r.ts, if |Inside(a.ts, a, b)| >= |Inside(b.ts, a, b)| then a.ts else b.ts, a, b)
  {
    hide Read, OnGrid, AllInside, Inside, KeepRange;
    KeptIsInside(a.ts, a, b);
    KeptIsInside(b.ts, a, b);
    if a.ts == b.ts { KeepRangeAll(a.ts, From(a, b), To(a, b)); }
    if From(a, b) <= To(a, b) { assert a.Covers(From(a, b)) && b.Covers(From(a, b)); }
  }

  /** A constant acts as a signal that holds its value at every sample of the other operand. */
  lemma ConstantIsHeld<V>(a: Operand, held: Signal, b: Operand, engine: bool, op: (real, real) -> V)
    requires Usable(a) && Usable(b) && |a.s.ts| == 1 && b.s.ts != []
    requires held.Matched() && held.ts == b.s.ts && forall i | 0 <= i < |held.vs| :: held.vs[i] == a.s.vs[0]
    ensures Broadcast(a, b, true, false, op) == Combined(held, b.s, engine, op)
    ensures Broadcast(b, a, false, true, op) == Combined(b.s, held, engine, op)
  {
  }

  method PairByIndex<V>(a: Signal, b: Signal, engine: bool, op: (real, real) -> V) returns (r: Result<V>)
    requires a.Matched() && b.Matched() && a.ts == b.ts && a.ts != [] && Ordered(a.ts)
    ensures r == Combined(a, b, engine, op)
  {
    var out := [];
    for i := 0 to |a.ts|
      invariant |out| == i && forall j | 0 <= j < i :: out[j] == op(a.vs[j], b.vs[j])
    {
      out := out + [op(a.vs[i], b.vs[i])];
    }
    r := Ok(a.ts, out);
  }

  method There(other: Signal, t: int, cursor: nat, engine: bool) returns (y: real, moved: nat)
    requires other.Matched() && other.ts != [] && Ordered(other.ts) && CursorBefore(other, cursor, t)
    ensures y == Read(other, t, engine)
    ensures forall u | u >= t :: CursorBefore(other, moved, u)
  {
    if engine {
      y, moved := InterpAt(other, t, cursor);
    } else {
      y := InterpBinary(other, t);
      moved := cursor;
    }
  }

  lemma OneMore<V>(s: Signal, i: nat, other: Signal, swapped: bool, engine: bool, lo: int, hi: int, op: (real, real) -> V)
    requires s.Matched() && i < |s.ts| && other.Matched() && other.ts != [] && Ordered(other.ts)
    ensures var done, more := Within(First(s, i), lo, hi), Within(First(s, i + 1), lo, hi);
            var here, there := s.vs[i], Read(other, s.ts[i], engine);
            && more.ts == done.ts + (if InRange(s.ts[i], lo, hi) then [s.ts[i]] else [])
            && OnGrid(more, other, swapped, engine, op) == OnGrid(done, other, swapped, engine, op)
                 + if InRange(s.ts[i], lo, hi) then [if swapped then op(there, here) else op(here, there)] else []
  {
    hide Read, KeepRange, OnGrid;
    var done := Within(First(s, i), lo, hi);
    WithinMore(s, i, lo, hi);
    OnGridMore(done, s.ts[i], s.vs[i], other, swapped, engine, op);
  }

  lemma WithinMore(s: Signal, i: nat, lo: int, hi: int)
    requires s.Matched() && i < |s.ts|
    ensures var done := Within(First(s, i), lo, hi);
            Within(First(s, i + 1), lo, hi)
            == if InRange(s.ts[i], lo, hi) then Signal(done.ts + [s.ts[i]], done.vs + [s.vs[i]]) else done
  {
    var next := First(s, i + 1);
    assert First(next, i) == First(s, i) by {
      assert next.ts[..i] == s.ts[..i] && next.vs[..i] == s.vs[..i];
    }
  }

  lemma OnGridMore<V>(w: Signal, t: int, v: real, other: Signal, swapped: bool, engine: bool, op: (real, real) -> V)
    requires w.Matched() && other.Matched() && other.ts != [] && Ordered(other.ts)
    ensures var there := Read(other, t, engine);
            OnGrid(Signal(w.ts + [t], w.vs + [v]), other, swapped, engine, op)
            == OnGrid(w, other, swapped, engine, op) + [if swapped then op(there, v) else op(v, there)]
  {
    hide Read;
  }

  /**
    The loop of both copies: walks one operand's samples inside [lo, hi] and interpolates
    the other there, by the engine's monotone cursor or by the registry's binary search.
   */
  method SampleOther<V>(grid: Signal, other: Signal, swapped: bool, engine: bool, lo: int, hi: int, op: (real, real) -> V)
    returns (outTs: seq<int>, outVs: seq<V>)
    requires grid.Matched() && Ordered(grid.ts) && other.Matched() && other.ts != [] && Ordered(other.ts)
    ensures outTs == Within(grid, lo, hi).ts && outVs == OnGrid(Within(grid, lo, hi), other, swapped, engine, op)
  {
    hide Within, OnGrid, KeepRange, Read;
    outTs, outVs := [], [];
    var cursor := 0;
    EmptyGrid(grid, other, swapped, engine, lo, hi, op);
    for i := 0 to |grid.ts|
      invariant outTs == Within(First(grid, i), lo, hi).ts
      invariant outVs == OnGrid(Within(First(grid, i), lo, hi), other, swapped, engine, op)
      invariant i < |grid.ts| ==> CursorBefore(other, cursor, grid.ts[i])
    {
      OneMore(grid, i, other, swapped, engine, lo, hi, op);
      var t := grid.ts[i];
      if lo <= t <= hi {
        var here, there := grid.vs[i], 0.0;
        there, cursor := There(other, t, cursor, engine);
        outTs := outTs + [t];
        outVs := outVs + [if swapped then op(there, here) else op(here, there)];
      }
      assert i + 1 < |grid.ts| ==> t <= grid.ts[i + 1];
    }
    assert First(grid, |grid.ts|) == grid;
  }

  lemma EmptyGrid<V>(s: Signal, other: Signal, swapped: bool, engine: bool, lo: int, hi: int, op: (real, real) -> V)
    requires s.Matched() && other.Matched() && other.ts != [] && Ordered(other.ts)
    ensures Within(First(s, 0), lo, hi).ts == []
    ensures OnGrid(Within(First(s, 0), lo, hi), other, swapped, engine, op) == []
  {
  }

  method CountInRange(ts: seq<int>, lo: int, hi: int) returns (c: nat)
    ensures c == |KeepRange(ts, lo, hi)|
  {
    c := 0;
    for i := 0 to |ts|
      invariant c == |KeepRange(ts[..i], lo, hi)|
    {
      assert ts[..i + 1][..i] == ts[..i];
      if ts[i] >= lo && ts[i] <= hi {
        c := c + 1;
      }
    }
    assert ts[..|ts|] == ts;
  }

  /** Both copies of elementwiseBinary: engine selects the formula engine's. */
  method ElementwiseBinary<V>(a: Operand, b: Operand, engine: bool, op: (real, real) -> V) returns (r: Result<V>)
    requires Usable(a) && Usable(b)
    ensures var aConst, bConst := IsConstant(a, engine), IsConstant(b, engine);
            r == if aConst || bConst then Broadcast(a, b, aConst, bConst, op) else Combined(a.s, b.s, engine, op)
  {
    var aConst, bConst := IsConstant(a, engine), IsConstant(b, engine);
    if aConst || bConst {
      r := BroadcastConstant(a, b, aConst, bConst, op);
      return;
    }
    if a.s.ts == [] || b.s.ts == [] {
      return Err(EmptyOperand);
    }
    if a.s.ts == b.s.ts {
      r := PairByIndex(a.s, b.s, engine, op);
      return;
    }
    var tLo, tHi := From(a.s, b.s), To(a.s, b.s);
    if tLo > tHi {
      return Err(NoOverlap);
    }
    var aN := CountInRange(a.s.ts, tLo, tHi);
    var bN := CountInRange(b.s.ts, tLo, tHi);
    var outTs, outVs;
    if aN >= bN {
      outTs, outVs := SampleOther(a.s, b.s, false, engine, tLo, tHi, op);
    } else {
      outTs, outVs := SampleOther(b.s, a.s, true, engine, tLo, tHi, op);
    }
    r := Ok(outTs, outVs);
  }

  // ---------- resampling ----------

  /** The values at the given times, all inside the signal's range: on its line, if its times do not repeat. */
  ghost predicate Resampled(src: Signal, ts: seq<int>, vs: seq<real>)
    requires src.Matched() && src.ts != [] && Ordered(src.ts)
  {
    && |vs| == |ts|
    && (forall i | 0 <= i < |ts| :: src.Covers(ts[i]) && vs[i] == FromBelow(src, ts[i]))
    && (Increasing(src.ts) ==> forall i | 0 <= i < |ts| :: vs[i] == Line(src, ts[i]))
  }

  /** Resampling to given times, as the source does for the target's times or for even steps. */
  method ResampleAt(src: Signal, outTs: seq<int>) returns (outVs: seq<real>)
    requires src.Matched() && src.ts != [] && Ordered(src.ts) && Ordered(outTs)
    requires forall t | t in outTs :: src.Covers(t)
    ensures Resampled(src, outTs, outVs)
  {
    hide Line, Held, FromBelow, FromAbove;
    outVs := [];
    var cursor := 0;
    for i := 0 to |outTs|
      invariant |outVs| == i && forall j | 0 <= j < i :: src.Covers(outTs[j]) && outVs[j] == FromBelow(src, outTs[j])
      invariant i < |outTs| ==> CursorBefore(src, cursor, outTs[i])
    {
      var y;
      assert outTs[i] in outTs;
      y, cursor := InterpAt(src, outTs[i], cursor);
      outVs := outVs + [y];
    }
    if Increasing(src.ts) {
      forall i | 0 <= i < |outTs|
        ensures outVs[i] == Line(src, outTs[i])
      {
        BothAreHeld(src, outTs[i]);
        HeldIsLine(src, outTs[i]);
      }
    }
  }

  lemma {:induction false} KeepRangeInOrder(ts: seq<int>, lo: int, hi: int)
    requires Ordered(ts)
    ensures Ordered(KeepRange(ts, lo, hi))
  {
    if ts != [] {
      KeepRangeInOrder(ts[..|ts| - 1], lo, hi);
      var head := KeepRange(ts[..|ts| - 1], lo, hi);
      forall i | 0 <= i < |head|
        ensures head[i] <= ts[|ts| - 1]
      {
        assert head[i] in ts[..|ts| - 1];
      }
    }
  }

  /** Resample(signal, target): the line at the target's times, inside the signal's own range. */
  method ResampleTo(src: Signal, target: seq<int>) returns (outTs: seq<int>, outVs: seq<real>)
    requires src.Matched() && Ordered(src.ts) && Ordered(target)
    ensures src.ts == [] ==> outTs == [] && outVs == []
    ensures src.ts != [] ==>
              outTs == KeepRange(target, src.ts[0], src.ts[|src.ts| - 1]) && Resampled(src, outTs, outVs)
  {
    if src.ts == [] {
      return [], [];
    }
    var lo, hi := src.ts[0], src.ts[|src.ts| - 1];
    outTs := [];
    for i := 0 to |target|
      invariant outTs == KeepRange(target[..i], lo, hi)
    {
      assert target[..i + 1][..i] == target[..i];
      if target[i] >= lo && target[i] <= hi {
        outTs := outTs + [target[i]];
      }
    }
    assert target[..|target|] == target;
    KeepRangeInOrder(target, lo, hi);
    outVs := ResampleAt(src, outTs);
  }

  datatype RateError = BadRate | TooFast

  /** A cast of a positive number to an integer. */
  function StepOf(rate: real): int
    requires rate > 0.0
  {
    (1000000000.0 / rate).Floor
  }

  /** At that rate lo makes no more than x, and hi makes more. */
  ghost predicate Encloses(lo: real, hi: real, rate: real, x: real) {
    lo * rate <= x < hi * rate
  }

  /** The step is the greatest whole number of nanoseconds that is no longer than a sample takes. */
  lemma StepIsPeriod(rate: real)
    requires rate > 0.0
    ensures Encloses(StepOf(rate) as real, (StepOf(rate) + 1) as real, rate, 1000000000.0)
  {
    hide Encloses;
    QuotientEnclosed(1000000000.0, rate);
  }

  lemma QuotientEnclosed(x: real, rate: real)
    requires rate > 0.0
    ensures Encloses((x / rate).Floor as real, ((x / rate).Floor + 1) as real, rate, x)
  {
    hide Encloses;
    Quotient(x, rate);
    Scaled((x / rate).Floor as real, x / rate, ((x / rate).Floor + 1) as real, rate, x);
  }

  lemma Quotient(x: real, y: real)
    requires y != 0.0
    ensures x / y * y == x
  {
  }

  lemma Scaled(lo: real, q: real, hi: real, rate: real, x: real)
    requires lo <= q < hi && rate > 0.0 && q * rate == x
    ensures Encloses(lo, hi, rate, x)
  {
    assert (q - lo) * rate >= 0.0;
    assert (hi - q) * rate > 0.0;
  }

  /** Resample(signal, rate): evenly spaced times from the first sample to the last. */
  method ResampleEvery(src: Signal, rate: real) returns (error: Option<RateError>, outTs: seq<int>, outVs: seq<real>)
    requires src.Matched() && Ordered(src.ts)
    ensures src.ts == [] ==> error == None && outTs == [] && outVs == []
    ensures src.ts != [] ==>
              error == if rate <= 0.0 then Some(BadRate) else if StepOf(rate) <= 0 then Some(TooFast) else None
    ensures src.ts != [] && error == None ==>
              && outTs != [] && outTs[0] == src.ts[0]
              && (forall i | 0 < i < |outTs| :: outTs[i] == outTs[i - 1] + StepOf(rate))
              && outTs[|outTs| - 1] <= src.ts[|src.ts| - 1] < outTs[|outTs| - 1] + StepOf(rate)
              && Resampled(src, outTs, outVs)
  {
    if src.ts == [] {
      return None, [], [];
    }
    if rate <= 0.0 {
      return Some(BadRate), [], [];
    }
    var dtNs := StepOf(rate);
    if dtNs <= 0 {
      return Some(TooFast), [], [];
    }
    assert src.ts[0] <= src.ts[|src.ts| - 1];
    outTs := EvenTimes(src.ts[0], src.ts[|src.ts| - 1], dtNs);
    outVs := ResampleAt(src, outTs);
    error := None;
  }

  method EvenTimes(first: int, last: int, dtNs: int) returns (ts: seq<int>)
    requires dtNs > 0 && first <= last
    ensures ts != [] && ts[0] == first && Ordered(ts)
    ensures forall i | 0 < i < |ts| :: ts[i] == ts[i - 1] + dtNs
    ensures ts[|ts| - 1] <= last < ts[|ts| - 1] + dtNs
    ensures forall t | t in ts :: first <= t <= last
  {
    var t := first + dtNs;
    ts := [first];
    while t <= last
      invariant ts != [] && ts[0] == first && t == ts[|ts| - 1] + dtNs <= last + dtNs && Ordered(ts)
      invariant forall i | 0 < i < |ts| :: ts[i] == ts[i - 1] + dtNs
      invariant forall u | u in ts :: first <= u <= last
      decreases last - t
    {
      assert forall i | 0 <= i < |ts| :: ts[i] <= ts[|ts| - 1];
      ts := ts + [t];
      t := t + dtNs;
    }
  }
}
