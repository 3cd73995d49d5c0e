/**
  How the exported page reads a channel between its own samples: the cursor
  read-out (binary search) and the XY pairing (two sweeps) over one column.
 */
module ScopePage {
  import opened Orders
  import opened Sorting
  import opened Interpolation
  import opened MergeGrid
  import opened HtmlIsland

  /** The page's x axis: seconds from the origin. */
  function Seconds(t: int, origin: int): real {
    (t - origin) as real / 1000000000.0
  }

  function Axis(grid: seq<int>, origin: int): (xs: seq<real>)
    ensures |xs| == |grid|
  {
    seq(|grid|, i requires 0 <= i < |grid| => Seconds(grid[i], origin))
  }

  /** The last position at or before k that holds a sample, or -1. */
  function PrevSample(col: seq<Cell>, k: int): (p: int)
    requires -1 <= k < |col|
    ensures -1 <= p <= k && (p >= 0 ==> col[p].Num?)
    ensures forall j | p < j <= k :: col[j] == Null
    decreases k + 1
  {
    if k < 0 || col[k].Num? then k else PrevSample(col, k - 1)
  }

  /** The first position at or after k that holds a sample, or -1. */
  function NextSamplePos(col: seq<Cell>, k: nat): (p: int)
    requires k <= |col|
    ensures p == -1 || (k <= p < |col| && col[p].Num?)
    ensures forall j | k <= j < (if p == -1 then |col| else p) :: col[j] == Null
    decreases |col| - k
  {
    if k == |col| then -1 else if col[k].Num? then k else NextSamplePos(col, k + 1)
  }

  /** The straight line between samples a and b of the column, at grid position k. */
  function Between(xs: seq<real>, col: seq<Cell>, a: nat, b: nat, k: nat): real
    requires a < |col| && b < |col| && k < |col| && |xs| == |col| && col[a].Num? && col[b].Num?
  {
    if xs[a] == xs[b] then col[a].x
    else col[a].x + (xs[k] - xs[a]) / (xs[b] - xs[a]) * (col[b].x - col[a].x)
  }

  /** What is drawn at grid position k: a sample, a point between its neighbours, or nothing. */
  function Reading(xs: seq<real>, col: seq<Cell>, k: nat): Cell
    requires k < |col| && |xs| == |col|
  {
    if col[k].Num? then col[k]
    else
      var a, b := PrevSample(col, k), NextSamplePos(col, k);
      if a < 0 || b < 0 then Null else Num(Between(xs, col, a, b, k))
  }

  // ---------- the cursor read-out ----------

  /** The positions before upTo that hold a sample, in order. */
  ghost function Positions(col: seq<Cell>, upTo: nat): (pos: seq<nat>)
    requires upTo <= |col|
    ensures forall i, j | 0 <= i < j < |pos| :: pos[i] < pos[j]
    ensures forall i | 0 <= i < |pos| :: pos[i] < upTo && col[pos[i]].Num?
    ensures forall k | 0 <= k < upTo && col[k].Num? :: k in pos
  {
    if upTo == 0 then []
    else if col[upTo - 1].Num? then Positions(col, upTo - 1) + [upTo - 1] else Positions(col, upTo - 1)
  }

  lemma {:induction false} PositionsGrow(col: seq<Cell>, i: nat, j: nat)
    requires i <= j <= |col|
    ensures Positions(col, i) <= Positions(col, j)
    decreases j
  {
    if i < j {
      PositionsGrow(col, i, j - 1);
    }
  }

  method SamplePositions(col: seq<Cell>) returns (pos: array<nat>)
    ensures fresh(pos) && pos[..] == Positions(col, |col|)
  {
    hide *;
    var n := 0;
    PositionsStart(col);
    for i := 0 to |col|
      invariant n == |Positions(col, i)|
    {
      PositionsStep(col, i);
      if col[i] != Null {
        n := n + 1;
      }
    }
    pos := new nat[n](_ => 0);
    FillPositions(col, pos);
  }

  method FillPositions(col: seq<Cell>, pos: array<nat>)
    requires pos.Length == |Positions(col, |col|)|
    modifies pos
    ensures pos[..] == Positions(col, |col|)
  {
    hide *;
    var n, k := pos.Length, 0;
    PositionsStart(col);
    for i := 0 to |col|
      invariant 0 <= k <= n && pos[..k] == Positions(col, i)
    {
      PositionsStep(col, i);
      PositionsGrow(col, i + 1, |col|);
      if col[i] != Null {
        ghost var before := pos[..k];
        pos[k] := i;
        k := k + 1;
        assert pos[..k] == before + [i];
      }
    }
    assert pos[..n] == pos[..];
  }

  lemma PositionsStart(col: seq<Cell>)
    ensures Positions(col, 0) == []
  {}

  lemma PositionsStep(col: seq<Cell>, i: nat)
    requires i < |col|
    ensures Positions(col, i + 1) == Positions(col, i) + if col[i] != Null then [i] else []
  {}

  method ReadAt(xs: seq<real>, col: seq<Cell>, idx: nat) returns (r: Cell, exact: bool)
    requires idx < |col| && |xs| == |col|
    ensures r == Reading(xs, col, idx)
    ensures exact <==> col[idx] != Null
  {
    hide Positions, Between, PrevSample, NextSamplePos;
    if col[idx] != Null {
      return col[idx], true;
    }
    exact := false;
    var pos := SamplePositions(col);
    var lo, hi := 0, pos.Length;
    ghost var index := pos[..];
    while lo < hi
      invariant 0 <= lo <= hi <= pos.Length
      invariant forall i | 0 <= i < lo :: index[i] < idx
      invariant forall i | hi <= i < |index| :: index[i] >= idx
    {
      var m := (lo + hi) / 2;
      if pos[m] < idx {
        lo := m + 1;
      } else {
        hi := m;
      }
    }
    NeighboursFound(index, col, idx, lo);
    if lo == 0 || lo == pos.Length {
      return Null, false;
    }
    r := Num(Between(xs, col, pos[lo - 1], pos[lo], idx));
  }

  lemma NeighboursFound(index: seq<nat>, col: seq<Cell>, idx: nat, lo: nat)
    requires idx < |col| && index == Positions(col, |col|) && col[idx] == Null && lo <= |index|
    requires forall i | 0 <= i < lo :: index[i] < idx
    requires forall i | lo <= i < |index| :: index[i] >= idx
    ensures PrevSample(col, idx) == if lo == 0 then -1 else index[lo - 1]
    ensures NextSamplePos(col, idx) == if lo == |index| then -1 else index[lo]
  {
    hide Positions, PrevSample, NextSamplePos;
    var a, b := if lo == 0 then -1 else index[lo - 1], if lo == |index| then |col| else index[lo];
    assert forall i | 0 <= i < |index| :: index[i] <= a || index[i] >= b;
    forall k | a < k < b
      ensures col[k] == Null
    {
      assert col[k].Num? ==> k in index;
    }
    assert a < idx < b;
    PrevIs(col, idx, a);
    NextIs(col, idx, if lo == |index| then -1 else b);
  }

  lemma PrevIs(col: seq<Cell>, k: nat, p: int)
    requires k < |col| && -1 <= p <= k && (p >= 0 ==> col[p].Num?) && forall j | p < j <= k :: col[j] == Null
    ensures PrevSample(col, k) == p
  {}

  lemma NextIs(col: seq<Cell>, k: nat, p: int)
    requires k < |col| && (p == -1 || (k <= p < |col| && col[p].Num?))
    requires forall j | k <= j < (if p == -1 then |col| else p) :: col[j] == Null
    ensures NextSamplePos(col, k) == p
  {}

  // ---------- XY pairing ----------

  /** A point of the XY chart; y is null where Y is not recorded. */
  datatype Point = Point(x: real, y: Cell)

  /** The points, in time order, for every grid position where X has a sample. */
  ghost function Points(xs: seq<real>, xv: seq<Cell>, yv: seq<Cell>, n: nat): seq<Point>
    requires |xs| == |xv| == |yv| && n <= |xs|
  {
    if n == 0 then []
    else Points(xs, xv, yv, n - 1) + if xv[n - 1].Num? then [Point(xv[n - 1].x, Reading(xs, yv, n - 1))] else []
  }

  method SweepForward(yv: seq<Cell>) returns (prev: array<int>)
    ensures fresh(prev) && prev.Length == |yv| && forall j | 0 <= j < |yv| :: prev[j] == PrevSample(yv, j)
  {
    prev := new int[|yv|](_ => -1);
    var p := -1;
    for k := 0 to |yv|
      invariant p == PrevSample(yv, k - 1)
      invariant forall j | 0 <= j < k :: prev[j] == PrevSample(yv, j)
    {
      if yv[k] != Null {
        p := k;
      }
      prev[k] := p;
    }
  }

  method SweepBackward(yv: seq<Cell>) returns (next: array<int>)
    ensures fresh(next) && next.Length == |yv| && forall j | 0 <= j < |yv| :: next[j] == NextSamplePos(yv, j)
  {
    next := new int[|yv|](_ => -1);
    var p := -1;
    for k := |yv| downto 0
      invariant p == NextSamplePos(yv, k)
      invariant forall j | k <= j < |yv| :: next[j] == NextSamplePos(yv, j)
    {
      if yv[k] != Null {
        p := k;
      }
      next[k] := p;
    }
  }

  method PairXY(xs: seq<real>, xv: seq<Cell>, yv: seq<Cell>) returns (points: seq<Point>)
    requires |xs| == |xv| == |yv|
    ensures points == Points(xs, xv, yv, |xs|)
  {
    hide PrevSample, NextSamplePos, Between;
    var prev := SweepForward(yv);
    var next := SweepBackward(yv);
    points := [];
    for k := 0 to |xs|
      invariant points == Points(xs, xv, yv, k)
    {
      if xv[k] != Null {
        var y := Null;
        if yv[k] != Null {
          y := yv[k];
        } else {
          var a, b := prev[k], next[k];
          if a >= 0 && b >= 0 {
            assert a < k < b;  // the source's test for a === b never holds here
            y := Num(Between(xs, yv, a, b, k));
          }
        }
        points := points + [Point(xv[k].x, y)];
      }
    }
  }

  // ---------- a channel the exporter wrote ----------

  /** The channel as samples to export. */
  ghost function SamplesOf(s: Signal): (r: seq<Sample>)
    requires s.Matched()
    ensures |r| == |s.ts|
  {
    seq(|s.ts|, i requires 0 <= i < |s.ts| => Sample(s.ts[i], Num(s.vs[i])))
  }

  /** The column the exporter writes for the channel: its samples at pos, null elsewhere. */
  ghost predicate Exported(s: Signal, grid: seq<int>, pos: seq<nat>, col: seq<Cell>)
    requires s.Matched()
  {
    s.Drawn() && Ordered(grid) && EmbedsAt(s.ts, grid, pos) && PlacedAt(SamplesOf(s), grid, pos, col)
  }

  lemma AxisRatio(g: int, a: int, b: int, origin: int)
    requires a < b
    ensures Seconds(a, origin) != Seconds(b, origin)
    ensures (Seconds(g, origin) - Seconds(a, origin)) / (Seconds(b, origin) - Seconds(a, origin))
         == (g - a) as real / (b - a) as real
  {
    var n := 1000000000.0;
    ScaledRatio((g - origin) as real, (a - origin) as real, (b - origin) as real, n);
  }

  lemma ScaledRatio(x: real, a: real, b: real, n: real)
    requires a != b && n != 0.0
    ensures a / n != b / n && (x / n - a / n) / (b / n - a / n) == (x - a) / (b - a)
  {
    assert x / n - a / n == (x - a) / n && b / n - a / n == (b - a) / n;
    RatioOfScaled(x - a, b - a, n);
  }

  lemma RatioOfScaled(p: real, q: real, n: real)
    requires q != 0.0 && n != 0.0
    ensures q / n != 0.0 && (p / n) / (q / n) == p / q
  {
    var u, v := p / n, q / n;
    assert u * n == p && v * n == q;
    assert (p / q) * q == p;
    assert v != 0.0;
    assert (p / q) * v * n == u * n;
    assert (p / q) * v == u;
  }

  /** Which two samples of the column surround position k. */
  lemma Surrounding(s: Signal, grid: seq<int>, pos: seq<nat>, col: seq<Cell>, k: nat, i: nat)
    requires s.Matched() && Exported(s, grid, pos, col) && k < |grid| && i + 1 < |pos| && pos[i] < k < pos[i + 1]
    ensures col[k] == Null && PrevSample(col, k) == pos[i] && NextSamplePos(col, k) == pos[i + 1]
    ensures s.ts[i] <= grid[k] <= s.ts[i + 1]
  {
    GapIsNull(s, grid, pos, col, i);
    PrevIs(col, k, pos[i]);
    NextIs(col, k, pos[i + 1]);
  }

  lemma GapIsNull(s: Signal, grid: seq<int>, pos: seq<nat>, col: seq<Cell>, i: nat)
    requires s.Matched() && Exported(s, grid, pos, col) && i + 1 < |pos|
    ensures forall k | pos[i] < k < pos[i + 1] :: col[k] == Null
    ensures col[pos[i]].Num? && col[pos[i + 1]].Num?
  {
    forall k | pos[i] < k < pos[i + 1]
      ensures k !in pos
    {
      forall j | 0 <= j < |pos|
        ensures pos[j] != k
      {
        assert j < i ==> pos[j] < pos[i];
        assert j > i + 1 ==> pos[i + 1] < pos[j];
      }
    }
  }

  /** The sample positions surrounding k. */
  ghost function Slot(pos: seq<nat>, k: nat): (i: nat)
    requires pos != [] && pos[0] <= k
    ensures i < |pos| && pos[i] <= k && (i + 1 < |pos| && (forall a, b | 0 <= a < b < |pos| :: pos[a] < pos[b]) ==> k < pos[i + 1])
  {
    if pos[|pos| - 1] <= k then |pos| - 1 else Slot(pos[..|pos| - 1], k)
  }

  /**
    From its first emitted sample to its last, the page reads the channel's own line at
    every grid position; before the first and behind the last it reads nothing.
   */
  lemma ReadingIsLine(s: Signal, grid: seq<int>, pos: seq<nat>, col: seq<Cell>, origin: int, k: nat)
    requires s.Matched() && Exported(s, grid, pos, col) && k < |grid|
    ensures pos[0] <= k <= pos[|pos| - 1] ==>
              s.Covers(grid[k]) && Reading(Axis(grid, origin), col, k) == Num(Line(s, grid[k]))
    ensures k < pos[0] || pos[|pos| - 1] < k ==> Reading(Axis(grid, origin), col, k) == Null
  {
    hide Line, Lerp, Seconds;
    var last := |pos| - 1;
    if pos[0] <= k <= pos[last] {
      var i := Slot(pos, k);
      if pos[i] == k {
        LineAtSample(s, i);
        ExportedAt(s, grid, pos, col, i);
      } else {
        InnerReading(s, grid, pos, col, origin, k, i);
      }
    } else if k < pos[0] {
      OutsideIsNull(s, grid, pos, col, k);
    } else {
      OutsideIsNull(s, grid, pos, col, k);
    }
  }

  /** Between two neighbouring samples. */
  lemma InnerReading(s: Signal, grid: seq<int>, pos: seq<nat>, col: seq<Cell>, origin: int, k: nat, i: nat)
    requires s.Matched() && Exported(s, grid, pos, col) && k < |grid| && i + 1 < |pos| && pos[i] < k < pos[i + 1]
    ensures |col| == |grid| && s.Covers(grid[k]) && Reading(Axis(grid, origin), col, k) == Num(Line(s, grid[k]))
  {
    hide Line, Lerp, Seconds, Between;
    ExportedAt(s, grid, pos, col, i);
    ExportedAt(s, grid, pos, col, i + 1);
    Surrounding(s, grid, pos, col, k, i);
    assert s.ts[i] < s.ts[i + 1];
    LineOnSegment(s, i, grid[k]);
    BetweenIsLerp(s, grid, pos, col, origin, k, i);
    hide Exported, PrevSample, NextSamplePos;
  }

  lemma ExportedAt(s: Signal, grid: seq<int>, pos: seq<nat>, col: seq<Cell>, i: nat)
    requires s.Matched() && Exported(s, grid, pos, col) && i < |s.ts|
    ensures |pos| == |s.ts| && |col| == |grid| && pos[i] < |grid|
    ensures grid[pos[i]] == s.ts[i] && col[pos[i]] == Num(s.vs[i])
  {
    assert SamplesOf(s)[i].v == Num(s.vs[i]);
  }

  lemma BetweenIsLerp(s: Signal, grid: seq<int>, pos: seq<nat>, col: seq<Cell>, origin: int, k: nat, i: nat)
    requires s.Matched() && Exported(s, grid, pos, col) && |col| == |grid| && k < |grid|
    requires i + 1 < |pos| == |s.ts| && pos[i + 1] < |col| && pos[i] < |col| && s.ts[i] < s.ts[i + 1]
    requires col[pos[i]].Num? && col[pos[i + 1]].Num?
    ensures Between(Axis(grid, origin), col, pos[i], pos[i + 1], k)
         == Lerp(s.ts[i], s.vs[i], s.ts[i + 1], s.vs[i + 1], grid[k])
  {
    ExportedAt(s, grid, pos, col, i);
    ExportedAt(s, grid, pos, col, i + 1);
    hide Exported;
    BetweenPoints(Axis(grid, origin), col, pos[i], pos[i + 1], k, grid[k], s.ts[i], s.vs[i], s.ts[i + 1], s.vs[i + 1], origin);
  }

  lemma BetweenPoints(xs: seq<real>, col: seq<Cell>, a: nat, b: nat, k: nat, g: int, t0: int, v0: real, t1: int, v1: real, origin: int)
    requires |xs| == |col| && a < |col| && b < |col| && k < |col| && t0 < t1
    requires col[a] == Num(v0) && col[b] == Num(v1)
    requires xs[a] == Seconds(t0, origin) && xs[b] == Seconds(t1, origin) && xs[k] == Seconds(g, origin)
    ensures Between(xs, col, a, b, k) == Lerp(t0, v0, t1, v1, g)
  {
    hide Seconds;
    AxisRatio(g, t0, t1, origin);
  }

  lemma OutsideIsNull(s: Signal, grid: seq<int>, pos: seq<nat>, col: seq<Cell>, k: nat)
    requires s.Matched() && Exported(s, grid, pos, col) && k < |grid|
    requires k < pos[0] || pos[|pos| - 1] < k
    ensures col[k] == Null && (PrevSample(col, k) == -1 || NextSamplePos(col, k) == -1)
  {
    hide PrevSample, NextSamplePos;
    var last := |pos| - 1;
    assert forall j | 0 <= j < |pos| :: pos[0] <= pos[j] <= pos[last];
    if k < pos[0] {
      NullOutside(pos, col, 0, pos[0]);
      PrevIs(col, k, -1);
    } else {
      NullOutside(pos, col, pos[last] + 1, |col|);
      NextIs(col, k, -1);
    }
  }

  lemma NullOutside(pos: seq<nat>, col: seq<Cell>, lo: nat, hi: nat)
    requires hi <= |col| && forall p | 0 <= p < |col| && p !in pos :: col[p] == Null
    requires forall j | 0 <= j < |pos| :: pos[j] < lo || pos[j] >= hi
    ensures forall p | lo <= p < hi :: col[p] == Null
  {
    forall p | lo <= p < hi
      ensures p !in pos
    {}
  }

  /**
    A reading inside the channel's time range is missing exactly at grid points that
    repeat the channel's last timestamp behind its last sample.
   */
  lemma MissingReadings(s: Signal, grid: seq<int>, pos: seq<nat>, col: seq<Cell>, origin: int, k: nat)
    requires s.Matched() && Exported(s, grid, pos, col) && k < |grid|
    ensures s.Covers(grid[k]) && Reading(Axis(grid, origin), col, k) == Null
            <==> grid[k] == s.ts[|s.ts| - 1] && pos[|pos| - 1] < k
  {
    hide Line, Seconds;
    ReadingIsLine(s, grid, pos, col, origin, k);
    var last := |pos| - 1;
    assert s.ts[0] <= s.ts[last];
    assert FreeBetween(grid, After(pos[..0]), pos[0], s.ts[0]) by {
      assert SamplesOf(s)[0].t == s.ts[0];
    }
    if k < pos[0] {
      assert grid[k] != s.ts[0] && grid[k] <= grid[pos[0]];
    } else if pos[last] < k {
      assert grid[pos[last]] <= grid[k];
    }
  }

  /** The grid holds this channel's last timestamp before position k too. */
  ghost predicate RepeatsLast(s: Signal, grid: seq<int>, k: nat)
    requires s.Drawn() && k < |grid|
  {
    grid[k] == s.ts[|s.ts| - 1] && k > 0 && grid[k - 1] == grid[k]
  }

  /**
    Whatever else is exported with it, a strictly increasing channel without gaps
    is read back as its own line at every grid point inside its range, but for
    the grid points that repeat its last timestamp.
   */
  lemma PageShowsTheLine(s: Signal, grid: seq<int>, col: seq<Cell>, origin: int, k: nat)
    requires s.Drawn() && Ordered(grid) && Placed(SamplesOf(s), grid, col) && k < |grid| && |col| == |grid|
    ensures Reading(Axis(grid, origin), col, k)
         == if s.Covers(grid[k]) && !RepeatsLast(s, grid, k) then Num(Line(s, grid[k])) else Null
  {
    var pos :| PlacedAt(SamplesOf(s), grid, pos, col);
    assert Times(SamplesOf(s)) == s.ts;
    assert Exported(s, grid, pos, col);
    hide *;
    ShownByPosition(s, grid, pos, col, origin, k);
  }

  lemma ShownByPosition(s: Signal, grid: seq<int>, pos: seq<nat>, col: seq<Cell>, origin: int, k: nat)
    requires s.Matched() && s.Drawn() && Exported(s, grid, pos, col) && k < |grid| && |col| == |grid|
    ensures Reading(Axis(grid, origin), col, k)
         == if s.Covers(grid[k]) && !RepeatsLast(s, grid, k) then Num(Line(s, grid[k])) else Null
  {
    ReadingIsLine(s, grid, pos, col, origin, k);
    MissingReadings(s, grid, pos, col, origin, k);
    if grid[k] == s.ts[|s.ts| - 1] { LastIsFirstOfItsTime(s, grid, pos, col, k); }
    OnePlace(s, grid, pos, col);
    hide Line, Reading, Exported, Axis;
  }

  lemma OnePlace(s: Signal, grid: seq<int>, pos: seq<nat>, col: seq<Cell>)
    requires s.Matched() && Exported(s, grid, pos, col)
    ensures |pos| == |s.ts| > 0
  {
  }

  /** The last sample stands at the first grid point of its time. */
  lemma LastIsFirstOfItsTime(s: Signal, grid: seq<int>, pos: seq<nat>, col: seq<Cell>, k: nat)
    requires s.Matched() && Exported(s, grid, pos, col) && k < |grid| && grid[k] == s.ts[|s.ts| - 1]
    ensures |pos| > 0 && (RepeatsLast(s, grid, k) <==> pos[|pos| - 1] < k)
  {
    var last := |s.ts| - 1;
    ExportedAt(s, grid, pos, col, last);
    forall p | 0 <= p < pos[last]
      ensures grid[p] != s.ts[last]
    {
      NotBeforeLast(s, grid, pos, col, p);
    }
    assert Ordered(grid);
    hide Exported;
    FirstOfRun(grid, pos[last], k);
  }

  lemma NotBeforeLast(s: Signal, grid: seq<int>, pos: seq<nat>, col: seq<Cell>, p: nat)
    requires s.Matched() && Exported(s, grid, pos, col) && |pos| == |s.ts| && p < pos[|pos| - 1] && p < |grid|
    ensures grid[p] != s.ts[|s.ts| - 1]
  {
    var last := |s.ts| - 1;
    assert SamplesOf(s)[last].t == s.ts[last];
    assert Ordered(grid) && last > 0 ==> s.ts[last - 1] < s.ts[last];
    LastIsEarly(SamplesOf(s), grid, pos);
    if last > 0 { ExportedAt(s, grid, pos, col, last - 1); }
    hide Exported, SamplesOf, Earliest;
    if last > 0 && p <= pos[last - 1] {
      EarlierIsLess(grid, p, pos[last - 1], s.ts[last]);
    }
  }

  lemma EarlierIsLess(grid: seq<int>, p: nat, q: nat, t: int)
    requires Ordered(grid) && p <= q < |grid| && grid[q] < t
    ensures grid[p] < t
  {
  }

  lemma LastIsEarly(samples: seq<Sample>, grid: seq<int>, pos: seq<nat>)
    requires Earliest(samples, grid, pos) && samples != []
    ensures |pos| == |samples|
    ensures var last := |pos| - 1;
            forall p | (if last == 0 then 0 else pos[last - 1] + 1) <= p < pos[last] && p < |grid| ::
              grid[p] != samples[last].t
  {
    var last := |pos| - 1;
    assert FreeBetween(grid, After(pos[..last]), pos[last], samples[last].t);
  }

  lemma FirstOfRun(grid: seq<int>, first: nat, k: nat)
    requires Ordered(grid) && first < |grid| && k < |grid| && grid[k] == grid[first]
    requires forall p | 0 <= p < first :: grid[p] != grid[first]
    ensures k > 0 && grid[k - 1] == grid[k] <==> first < k
  {
  }

  /** A whole export, read by the page at one grid position of one column. */
  method ExportAndRead(chans: seq<seq<Sample>>, c: nat, origin: int, idx: nat)
    returns (grid: seq<int>, reading: Cell)
    requires c < |NonEmpty(chans)|
    ensures IsUnionGrid(grid, SortedTimes(NonEmpty(chans)))
    ensures forall s: Signal ::
              s.Drawn() && SamplesOf(s) == SortBy(TimeOf, NonEmpty(chans)[c]) && idx < |grid| ==>
                reading == if s.Covers(grid[idx]) && !RepeatsLast(s, grid, idx) then Num(Line(s, grid[idx])) else Null
  {
    var cols;
    grid, cols := BuildIslandDomain(chans);
    reading := Null;
    if idx < |grid| {
      var xs := Axis(grid, origin);
      var exact;
      reading, exact := ReadAt(xs, cols[c], idx);
      forall s: Signal | s.Drawn() && SamplesOf(s) == SortBy(TimeOf, NonEmpty(chans)[c])
        ensures reading == if s.Covers(grid[idx]) && !RepeatsLast(s, grid, idx) then Num(Line(s, grid[idx])) else Null
      {
        PageShowsTheLine(s, grid, cols[c], origin, idx);
      }
    }
  }
}
