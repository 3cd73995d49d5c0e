/**
  Piecewise-linear signals and the interpolators of the two formula evaluators:
  a monotone cursor and a binary search.
 */
module Interpolation {
  import opened Orders

  /** Time stamps with one value each. */
  datatype Signal = Signal(ts: seq<int>, vs: seq<real>)
  {
    ghost predicate Matched() {
      |ts| == |vs|
    }

    /** A line can be drawn through it. */
    ghost predicate Drawn() {
      Matched() && ts != [] && Increasing(ts)
    }

    ghost predicate Covers(t: int)
      requires ts != []
    {
      ts[0] <= t <= ts[|ts| - 1]
    }
  }

  /** The straight line from (t0, v0) to (t1, v1) at t. */
  function Lerp(t0: int, v0: real, t1: int, v1: real, t: int): real
    requires t0 < t1
  {
    v0 + ((t - t0) as real / (t1 - t0) as real) * (v1 - v0)
  }

  /** The last sample at or before t. */
  ghost function Segment(ts: seq<int>, t: int): (i: nat)
    requires ts != [] && ts[0] <= t
    ensures i < |ts| && ts[i] <= t
    ensures Increasing(ts) ==> forall k | i < k < |ts| :: t < ts[k]
  {
    if ts[|ts| - 1] <= t then |ts| - 1 else Segment(ts[..|ts| - 1], t)
  }

  /** The value of the line through s at t. */
  ghost function Line(s: Signal, t: int): real
    requires s.Drawn() && s.Covers(t)
  {
    var i := Segment(s.ts, t);
    if i == |s.ts| - 1 then s.vs[i] else Lerp(s.ts[i], s.vs[i], s.ts[i + 1], s.vs[i + 1], t)
  }

  /** The line, continued flat on both sides. */
  ghost function Held(s: Signal, t: int): real
    requires s.Drawn()
  {
    if t <= s.ts[0] then s.vs[0]
    else if t >= s.ts[|s.ts| - 1] then s.vs[|s.ts| - 1]
    else Line(s, t)
  }

  // ---------- the line does not depend on which end one looks from ----------

  lemma LerpEnds(t0: int, v0: real, t1: int, v1: real)
    requires t0 < t1
    ensures Lerp(t0, v0, t1, v1, t0) == v0 && Lerp(t0, v0, t1, v1, t1) == v1
  {
    assert (t1 - t0) as real / (t1 - t0) as real == 1.0;
  }

  lemma SegmentIs(ts: seq<int>, t: int, i: nat)
    requires Increasing(ts) && i < |ts| && ts[i] <= t && (i + 1 < |ts| ==> t < ts[i + 1])
    ensures ts[0] <= t && Segment(ts, t) == i
  {
    assert ts[0] <= ts[i];
    LastBefore(ts, t, i, Segment(ts, t));
  }

  lemma LastBefore(ts: seq<int>, t: int, i: nat, j: nat)
    requires Increasing(ts) && i < |ts| && j < |ts| && ts[i] <= t && ts[j] <= t
    requires i + 1 < |ts| ==> t < ts[i + 1]
    requires j + 1 < |ts| ==> t < ts[j + 1]
    ensures i == j
  {}

  /** Between two neighbouring samples, ends included, the line is their segment. */
  lemma LineOnSegment(s: Signal, i: nat, t: int)
    requires s.Drawn() && i + 1 < |s.ts| && s.ts[i] <= t <= s.ts[i + 1]
    ensures s.Covers(t) && Line(s, t) == Lerp(s.ts[i], s.vs[i], s.ts[i + 1], s.vs[i + 1], t)
  {
    var last := |s.ts| - 1;
    assert s.ts[0] <= s.ts[i] && s.ts[i + 1] <= s.ts[last];
    if t < s.ts[i + 1] {
      SegmentIs(s.ts, t, i);
    } else {
      SegmentIs(s.ts, t, i + 1);
      LerpEnds(s.ts[i], s.vs[i], s.ts[i + 1], s.vs[i + 1]);
      if i + 1 < last {
        LerpEnds(s.ts[i + 1], s.vs[i + 1], s.ts[i + 2], s.vs[i + 2]);
      }
    }
  }

  lemma LineAtSample(s: Signal, i: nat)
    requires s.Drawn() && i < |s.ts|
    ensures s.Covers(s.ts[i]) && Line(s, s.ts[i]) == s.vs[i] && Held(s, s.ts[i]) == s.vs[i]
  {
    var last := |s.ts| - 1;
    assert s.ts[0] <= s.ts[i] <= s.ts[last];
    SegmentIs(s.ts, s.ts[i], i);
    if i < last {
      LerpEnds(s.ts[i], s.vs[i], s.ts[i + 1], s.vs[i + 1]);
    }
    assert s.ts[i] == s.ts[0] ==> i == 0;
    assert s.ts[i] == s.ts[last] ==> i == last;
  }

  lemma HeldIsLine(s: Signal, t: int)
    requires s.Drawn() && s.Covers(t)
    ensures Held(s, t) == Line(s, t)
  {
    LineAtSample(s, 0);
    LineAtSample(s, |s.ts| - 1);
  }

  // ---------- the two interpolators ----------

  /** std::lower_bound: the first position whose time is not before t. */
  function LowerBound(ts: seq<int>, t: int): (i: nat)
    ensures i <= |ts| && (i < |ts| ==> ts[i] >= t)
    ensures forall k | 0 <= k < i :: ts[k] < t
  {
    if ts == [] || ts[0] >= t then 0 else 1 + LowerBound(ts[1..], t)
  }

  /** The first position whose time is behind t. */
  ghost function UpperBound(ts: seq<int>, t: int): (i: nat)
    ensures i <= |ts| && (i < |ts| ==> ts[i] > t)
    ensures forall k | 0 <= k < i :: ts[k] <= t
  {
    if ts == [] || ts[0] > t then 0 else 1 + UpperBound(ts[1..], t)
  }

  lemma LowerBoundAt(ts: seq<int>, t: int, hi: nat)
    requires Ordered(ts) && 0 < hi < |ts| && ts[hi - 1] < t <= ts[hi]
    ensures LowerBound(ts, t) == hi
  {
  }

  lemma UpperBoundAt(ts: seq<int>, t: int, hi: nat)
    requires Ordered(ts) && 0 < hi < |ts| && ts[hi - 1] <= t < ts[hi]
    ensures UpperBound(ts, t) == hi
  {
  }

  /** Between the last sample before t and the first at or behind it. */
  ghost function FromBelow(s: Signal, t: int): real
    requires s.Matched() && s.ts != [] && Ordered(s.ts)
  {
    var n, hi := |s.ts|, LowerBound(s.ts, t);
    if t <= s.ts[0] then s.vs[0]
    else if t >= s.ts[n - 1] then s.vs[n - 1]
    else Lerp(s.ts[hi - 1], s.vs[hi - 1], s.ts[hi], s.vs[hi], t)
  }

  /** Between the last sample at or before t and the first behind it. */
  ghost function FromAbove(s: Signal, t: int): real
    requires s.Matched() && s.ts != [] && Ordered(s.ts)
  {
    var n, hi := |s.ts|, UpperBound(s.ts, t);
    if t <= s.ts[0] then s.vs[0]
    else if t >= s.ts[n - 1] then s.vs[n - 1]
    else Lerp(s.ts[hi - 1], s.vs[hi - 1], s.ts[hi], s.vs[hi], t)
  }

  /** Without repeated times both are the line. */
  lemma BothAreHeld(s: Signal, t: int)
    requires s.Drawn()
    ensures Ordered(s.ts) && FromBelow(s, t) == Held(s, t) && FromAbove(s, t) == Held(s, t)
  {
    hide Lerp, Line;
    if s.ts[0] < t < s.ts[|s.ts| - 1] {
      var lo, hi := LowerBound(s.ts, t), UpperBound(s.ts, t);
      assert lo > 0 && hi > 0 && lo < |s.ts| && hi < |s.ts|;
      LineOnSegment(s, lo - 1, t);
      LineOnSegment(s, hi - 1, t);
    }
  }

  /**
    With repeated times the cursor and the binary search differ exactly inside the
    signal's range where its first and its last sample of that time do.
   */
  lemma InterpolatorsAgreeExactly(s: Signal, t: int)
    requires s.Matched() && s.ts != [] && Ordered(s.ts)
    ensures FromBelow(s, t) == FromAbove(s, t)
       <==> (s.ts[0] < t < s.ts[|s.ts| - 1] && t in s.ts ==>
               s.vs[LowerBound(s.ts, t)] == s.vs[UpperBound(s.ts, t) - 1])
  {
    hide Lerp, LowerBound, UpperBound, Ordered;
    if s.ts[0] < t < s.ts[|s.ts| - 1] {
      var lo, hi := LowerBound(s.ts, t), UpperBound(s.ts, t);
      BoundsOf(s.ts, t);
      if t in s.ts {
        LerpEnds(s.ts[lo - 1], s.vs[lo - 1], s.ts[lo], s.vs[lo]);
        LerpEnds(s.ts[hi - 1], s.vs[hi - 1], s.ts[hi], s.vs[hi]);
      }
    }
  }

  /** The two bounds enclose exactly the samples at t. */
  lemma BoundsOf(ts: seq<int>, t: int)
    requires ts != [] && Ordered(ts) && ts[0] < t < ts[|ts| - 1]
    ensures var lo, hi := LowerBound(ts, t), UpperBound(ts, t);
            && 0 < lo <= hi < |ts|
            && (t in ts ==> lo < hi && ts[lo] == t && ts[hi - 1] == t)
            && (t !in ts ==> lo == hi)
  {
    var lo, hi := LowerBound(ts, t), UpperBound(ts, t);
    if t in ts {
      var k :| 0 <= k < |ts| && ts[k] == t;
      assert lo <= k < hi;
    } else {
      assert ts[lo] > t;
    }
  }

  /** Where a cursor may stand before a query at t. */
  ghost predicate CursorBefore(s: Signal, cursor: nat, t: int) {
    cursor == 0 || (cursor < |s.ts| && s.ts[cursor] < t)
  }

  /** The formula engine's interpolator for queries that never go back in time. */
  method InterpAt(s: Signal, t: int, cursor: nat) returns (y: real, moved: nat)
    requires s.Matched() && Ordered(s.ts) && CursorBefore(s, cursor, t)
    ensures s.ts == [] ==> y == 0.0
    ensures s.ts != [] ==> y == FromBelow(s, t)
    ensures forall u | u >= t :: CursorBefore(s, moved, u)
  {
    hide Lerp, LowerBound;
    moved := cursor;
    var n := |s.ts|;
    if n == 0 {
      return 0.0, cursor;
    }
    if t <= s.ts[0] {
      return s.vs[0], cursor;
    }
    if t >= s.ts[n - 1] {
      return s.vs[n - 1], cursor;
    }
    while moved + 1 < n && s.ts[moved + 1] < t
      invariant CursorBefore(s, moved, t) && moved < n
    {
      moved := moved + 1;
    }
    assert moved + 1 < n;
    var hi := if moved + 1 < n - 1 then moved + 1 else n - 1;
    // the source's guards for a cursor on the last sample and for a zero time step
    assert moved < hi && s.ts[hi] - s.ts[moved] != 0;
    LowerBoundAt(s.ts, t, hi);
    y := Lerp(s.ts[moved], s.vs[moved], s.ts[hi], s.vs[hi], t);
  }

  /** The function registry's interpolator. */
  method InterpBinary(s: Signal, t: int) returns (y: real)
    requires s.Matched() && Ordered(s.ts)
    ensures s.ts == [] ==> y == 0.0
    ensures s.ts != [] ==> y == FromAbove(s, t)
  {
    hide Lerp, UpperBound;
    var n := |s.ts|;
    if n == 0 {
      return 0.0;
    }
    if t <= s.ts[0] {
      return s.vs[0];
    }
    if t >= s.ts[n - 1] {
      return s.vs[n - 1];
    }
    var lo, hi := 0, n - 1;
    while lo + 1 < hi
      invariant 0 <= lo < hi < n && s.ts[lo] <= t < s.ts[hi]
    {
      var mid := (lo + hi) / 2;
      if s.ts[mid] <= t {
        lo := mid;
      } else {
        hi := mid;
      }
    }
    UpperBoundAt(s.ts, t, hi);
    y := Lerp(s.ts[lo], s.vs[lo], s.ts[hi], s.vs[hi], t);
  }

  // ---------- collinear points ----------

  lemma LerpSlope(t0: int, v0: real, t1: int, v1: real, t: int) returns (m: real)
    requires t0 < t1
    ensures m * (t1 - t0) as real == v1 - v0
    ensures Lerp(t0, v0, t1, v1, t) == v0 + (t - t0) as real * m
  {
    var d := (t1 - t0) as real;
    m := (v1 - v0) / d;
    DivMul((t - t0) as real, d, v1 - v0);
  }

  lemma DivMul(a: real, d: real, b: real)
    requires d != 0.0
    ensures (a / d) * b == a * (b / d)
    ensures (b / d) * d == b
  {}

  /** The line through two points of a line is that line. */
  lemma LerpOfLerp(t0: int, v0: real, t1: int, v1: real, a: int, b: int, t: int)
    requires t0 < t1 && a < b
    ensures Lerp(a, Lerp(t0, v0, t1, v1, a), b, Lerp(t0, v0, t1, v1, b), t) == Lerp(t0, v0, t1, v1, t)
  {
    var p, q := Lerp(t0, v0, t1, v1, a), Lerp(t0, v0, t1, v1, b);
    var m := LerpSlope(t0, v0, t1, v1, t);
    var m1 := LerpSlope(t0, v0, t1, v1, a);
    var m2 := LerpSlope(t0, v0, t1, v1, b);
    var d := (t1 - t0) as real;
    SameSlope(m, m1, d);
    SameSlope(m, m2, d);
    var k := LerpSlope(a, p, b, q, t);
    assert q - p == (b - a) as real * m by {
      Factor((b - t0) as real, (a - t0) as real, m);
    }
    SameSlope(k, m, (b - a) as real);
    Factor((t - a) as real, (t0 - a) as real, m);
    Factor((a - t0) as real, 0.0 - (t - a) as real, m);
  }

  lemma SameSlope(m: real, n: real, d: real)
    requires d != 0.0 && m * d == n * d
    ensures m == n
  {}

  lemma Factor(a: real, b: real, m: real)
    ensures a * m - b * m == (a - b) * m
  {}
}
