/**
  The shared-column CSV: all channels written against the sorted union of their
  times, interpolated where they have no sample, and read back column by column.
  Time and frequency channels stand in two blocks side by side, the shorter padded.
  A sample may be no number, and then it and the segments at it leave blanks.
 */
module SharedCsv {
  import opened Orders
  import opened Options
  import opened Interpolation

  /** A channel as it is stored; None stands for a sample that is not a number. */
  datatype Channel = Channel(ts: seq<int>, vs: seq<Option<real>>)
  {
    ghost predicate Matched() {
      |ts| == |vs|
    }
  }

  ghost predicate AllMatched(chans: seq<Channel>) {
    forall c | 0 <= c < |chans| :: chans[c].Matched()
  }

  /** One row of a block: the shared time and one cell per channel; None is an empty cell. */
  datatype Row = Row(t: int, cells: seq<Option<real>>)

  // ---------- writing ----------

  /** std::set insertion: keeps the times sorted and distinct. */
  function Insert(grid: seq<int>, t: int): seq<int> {
    if grid == [] || grid[|grid| - 1] < t then grid + [t]
    else if grid[|grid| - 1] == t then grid
    else Insert(grid[..|grid| - 1], t) + [grid[|grid| - 1]]
  }

  lemma {:induction false} InsertKeeps(grid: seq<int>, t: int)
    requires Increasing(grid)
    ensures Increasing(Insert(grid, t))
    ensures forall u :: u in Insert(grid, t) <==> u in grid || u == t
  {
    if grid != [] {
      var head, last := grid[..|grid| - 1], grid[|grid| - 1];
      assert grid == head + [last];
      if last > t {
        InsertKeeps(head, t);
        var r := Insert(head, t);
        forall i | 0 <= i < |r|
          ensures r[i] < last
        {
          assert r[i] in r;
        }
      }
    }
  }

  ghost predicate IsGrid(grid: seq<int>, chans: seq<Channel>) {
    && Increasing(grid)
    && forall t :: t in grid <==> exists c :: 0 <= c < |chans| && t in chans[c].ts
  }

  method BuildGrid(chans: seq<Channel>) returns (grid: seq<int>)
    ensures IsGrid(grid, chans)
  {
    grid := [];
    for c := 0 to |chans|
      invariant IsGrid(grid, chans[..c])
    {
      ghost var before := grid;
      var ts := chans[c].ts;
      for i := 0 to |ts|
        invariant Increasing(grid) && forall t :: t in grid <==> t in before || t in ts[..i]
      {
        InsertKeeps(grid, ts[i]);
        grid := Insert(grid, ts[i]);
        assert ts[..i + 1] == ts[..i] + [ts[i]];
      }
      assert ts[..|ts|] == ts;
      GridExtends(before, grid, chans, c);
    }
    assert chans[..|chans|] == chans;
  }

  lemma GridExtends(before: seq<int>, grid: seq<int>, chans: seq<Channel>, c: nat)
    requires c < |chans| && IsGrid(before, chans[..c]) && Increasing(grid)
    requires forall t :: t in grid <==> t in before || t in chans[c].ts
    ensures IsGrid(grid, chans[..c + 1])
  {
    var longer := chans[..c + 1];
    forall t
      ensures t in grid <==> exists b :: 0 <= b < |longer| && t in longer[b].ts
    {
      if t in before {
        var b :| 0 <= b < c && t in chans[..c][b].ts;
        assert t in longer[b].ts;
      }
      if t in chans[c].ts {
        assert t in longer[c].ts;
      }
      if exists b :: 0 <= b < |longer| && t in longer[b].ts {
        var b :| 0 <= b < |longer| && t in longer[b].ts;
        if b < c {
          assert t in chans[..c][b].ts;
        }
      }
    }
  }

  /** Between two numbers a number, next to anything else nothing. */
  function Blend(t0: int, v0: Option<real>, t1: int, v1: Option<real>, t: int): Option<real>
    requires t0 < t1
  {
    if v0.Some? && v1.Some? then Some(Lerp(t0, v0.value, t1, v1.value, t)) else None
  }

  /** The CSV writer's interpolator: nothing outside the channel's own range. */
  function Interp(s: Channel, t: int): Option<real>
    requires s.Matched()
  {
    var n := |s.ts|;
    if n == 0 || t < s.ts[0] || t > s.ts[n - 1] then None
    else
      var hi := LowerBound(s.ts, t);
      if hi >= n then s.vs[n - 1]
      else if s.ts[hi] == t then s.vs[hi]
      else if hi == 0 then s.vs[0]
      else if s.ts[hi] - s.ts[hi - 1] <= 0 then s.vs[hi - 1]
      else Blend(s.ts[hi - 1], s.vs[hi - 1], s.ts[hi], s.vs[hi], t)
  }

  function CellsAt(chans: seq<Channel>, t: int): (cells: seq<Option<real>>)
    requires AllMatched(chans)
    ensures |cells| == |chans|
  {
    seq(|chans|, c requires 0 <= c < |chans| => Interp(chans[c], t))
  }

  function RowsOf(chans: seq<Channel>, grid: seq<int>): (rows: seq<Row>)
    requires AllMatched(chans)
    ensures |rows| == |grid|
  {
    seq(|grid|, r requires 0 <= r < |grid| => Row(grid[r], CellsAt(chans, grid[r])))
  }

  /** A field of a line: empty, a position on the shared axis, or a value. */
  datatype Field = Blank | At(t: int) | Value(v: real)

  function FieldOf(cell: Option<real>): Field {
    if cell == None then Blank else Value(cell.value)
  }

  /** One block's part of line r: its row, or empties behind its last one. */
  function BlockFields(rows: seq<Row>, count: nat, r: nat): (fields: seq<Field>)
    requires forall k | 0 <= k < |rows| :: |rows[k].cells| == count
    ensures |fields| == if count == 0 then 0 else count + 1
  {
    if count == 0 then []
    else if r < |rows| then
      [At(rows[r].t)] + seq(count, c requires 0 <= c < count => FieldOf(rows[r].cells[c]))
    else seq(count + 1, _ => Blank)
  }

  function LongerOf(m: nat, n: nat): nat { if m < n then n else m }

  /** The lines of both blocks. */
  function Lines(time: seq<Row>, tc: nat, freq: seq<Row>, fc: nat): (lines: seq<seq<Field>>)
    requires forall k | 0 <= k < |time| :: |time[k].cells| == tc
    requires forall k | 0 <= k < |freq| :: |freq[k].cells| == fc
    ensures |lines| == LongerOf(|time|, |freq|)
  {
    seq(LongerOf(|time|, |freq|), r requires 0 <= r => BlockFields(time, tc, r) + BlockFields(freq, fc, r))
  }

  method WriteBlock(chans: seq<Channel>, grid: seq<int>, r: nat) returns (fields: seq<Field>)
    requires AllMatched(chans)
    ensures fields == BlockFields(RowsOf(chans, grid), |chans|, r)
  {
    hide Interp;
    if |chans| == 0 {
      return [];
    }
    if r < |grid| {
      fields := [At(grid[r])];
      for c := 0 to |chans|
        invariant |fields| == c + 1 && fields[0] == At(grid[r])
        invariant forall k | 0 < k <= c :: fields[k] == FieldOf(Interp(chans[k - 1], grid[r]))
      {
        fields := fields + [FieldOf(Interp(chans[c], grid[r]))];
      }
      assert fields == [At(grid[r])] + seq(|chans|, c requires 0 <= c < |chans| => FieldOf(CellsAt(chans, grid[r])[c]));
    } else {
      fields := [Blank];
      for c := 0 to |chans|
        invariant |fields| == c + 1 && forall k | 0 <= k <= c :: fields[k] == Blank
      {
        fields := fields + [Blank];
      }
    }
  }

  /** The lines of a file of these channels: the rows of both blocks, side by side. */
  ghost predicate IsFile(lines: seq<seq<Field>>, time: seq<Channel>, freq: seq<Channel>)
    requires AllMatched(time) && AllMatched(freq)
  {
    exists tRows, fRows ::
      Written(tRows, time) && Written(fRows, freq) && lines == Lines(tRows, |time|, fRows, |freq|)
  }

  method WriteShared(time: seq<Channel>, freq: seq<Channel>) returns (lines: seq<seq<Field>>)
    requires AllMatched(time) && AllMatched(freq)
    ensures IsFile(lines, time, freq)
  {
    var timeGrid := BuildGrid(time);
    var freqGrid := BuildGrid(freq);
    ghost var tRows, fRows := RowsOf(time, timeGrid), RowsOf(freq, freqGrid);
    assert Times(tRows) == timeGrid && Times(fRows) == freqGrid;
    hide RowsOf, BlockFields, IsGrid;
    lines := [];
    for r := 0 to LongerOf(|timeGrid|, |freqGrid|)
      invariant |lines| == r
      invariant forall k | 0 <= k < r :: lines[k] == BlockFields(tRows, |time|, k) + BlockFields(fRows, |freq|, k)
    {
      var left := WriteBlock(time, timeGrid, r);
      var right := WriteBlock(freq, freqGrid, r);
      lines := lines + [left + right];
    }
    assert lines == Lines(tRows, |time|, fRows, |freq|);
  }

  function Times(rows: seq<Row>): (ts: seq<int>)
    ensures |ts| == |rows|
  {
    seq(|rows|, r requires 0 <= r < |rows| => rows[r].t)
  }

  // ---------- reading ----------

  /** What the loader keeps of column c: the rows whose cell is not empty. */
  function Column(rows: seq<Row>, c: nat): (s: Signal)
    requires forall r | 0 <= r < |rows| :: c < |rows[r].cells|
    ensures s.Matched()
  {
    if rows == [] then Signal([], [])
    else
      var head, last := Column(rows[..|rows| - 1], c), rows[|rows| - 1];
      if last.cells[c] == None then head else Signal(head.ts + [last.t], head.vs + [last.cells[c].value])
  }

  /** Where a signal stands: the column of its axis and its own. */
  datatype Target = Target(x: nat, v: nat)

  /** What the loader keeps for a target: the lines with both fields filled. */
  function Picked(lines: seq<seq<Field>>, g: Target): (s: Signal)
    ensures s.Matched()
  {
    if lines == [] then Signal([], [])
    else
      var head, line := Picked(lines[..|lines| - 1], g), lines[|lines| - 1];
      if g.x < |line| && g.v < |line| && line[g.x].At? && line[g.v].Value?
      then Signal(head.ts + [line[g.x].t], head.vs + [line[g.v].v]) else head
  }

  /** The line loop: every line offers each target its pair of fields. */
  method LoadShared(lines: seq<seq<Field>>, targets: seq<Target>) returns (loaded: seq<Signal>)
    ensures |loaded| == |targets| && forall k | 0 <= k < |targets| :: loaded[k] == Picked(lines, targets[k])
  {
    loaded := seq(|targets|, _ => Signal([], []));
    for r := 0 to |lines|
      invariant |loaded| == |targets| && forall k | 0 <= k < |targets| :: loaded[k] == Picked(lines[..r], targets[k])
    {
      assert lines[..r + 1][..r] == lines[..r];
      var line := lines[r];
      for k := 0 to |targets|
        invariant |loaded| == |targets|
        invariant forall m | 0 <= m < |targets| ::
                    loaded[m] == if m < k then Picked(lines[..r + 1], targets[m]) else Picked(lines[..r], targets[m])
      {
        var g := targets[k];
        if g.x < |line| && g.v < |line| && line[g.x].At? && line[g.v].Value? {
          var s := loaded[k];
          loaded := loaded[k := Signal(s.ts + [line[g.x].t], s.vs + [line[g.v].v])];
        }
      }
    }
    assert lines[..|lines|] == lines;
  }

  /** The column of the second block's axis. */
  function SecondAxis(tc: nat): nat { if tc == 0 then 0 else tc + 1 }

  /** The targets of a file with tc time and fc frequency channels. */
  function TargetsOf(tc: nat, fc: nat): (targets: seq<Target>)
    ensures |targets| == tc + fc
  {
    seq(tc + fc, k requires 0 <= k < tc + fc =>
      if k < tc then Target(0, k + 1) else Target(SecondAxis(tc), SecondAxis(tc) + 1 + (k - tc)))
  }

  /** A target finds the cells of column c of these rows, and no position behind the last of them. */
  ghost predicate Finds(lines: seq<seq<Field>>, g: Target, rows: seq<Row>, c: nat) {
    && |rows| <= |lines| && (forall r | 0 <= r < |rows| :: c < |rows[r].cells|)
    && forall r | 0 <= r < |lines| ::
         && g.x < |lines[r]| && g.v < |lines[r]|
         && if r < |rows| then lines[r][g.x] == At(rows[r].t) && lines[r][g.v] == FieldOf(rows[r].cells[c])
            else lines[r][g.x] == Blank
  }

  lemma PickedNext(lines: seq<seq<Field>>, g: Target, n: nat)
    requires n < |lines| && g.x < |lines[n]| && g.v < |lines[n]|
    ensures var s, x, v := Picked(lines[..n], g), lines[n][g.x], lines[n][g.v];
            Picked(lines[..n + 1], g)
            == if x.At? && v.Value? then Signal(s.ts + [x.t], s.vs + [v.v]) else s
  {
    assert lines[..n + 1][..n] == lines[..n];
  }

  lemma ColumnNext(rows: seq<Row>, c: nat, n: nat)
    requires n < |rows| && forall r | 0 <= r < |rows| :: c < |rows[r].cells|
    ensures var s, cell := Column(rows[..n], c), rows[n].cells[c];
            Column(rows[..n + 1], c) == if cell == None then s else Signal(s.ts + [rows[n].t], s.vs + [cell.value])
  {
    assert rows[..n + 1][..n] == rows[..n];
  }

  lemma {:induction false} PicksColumn(lines: seq<seq<Field>>, g: Target, rows: seq<Row>, c: nat, n: nat)
    requires Finds(lines, g, rows, c) && n <= |lines|
    ensures Picked(lines[..n], g) == Column(rows[..if n < |rows| then n else |rows|], c)
    decreases n
  {
    hide Picked, Column;
    if n == 0 {
      NothingYet(g, c);
      assert lines[..0] == [] && rows[..0] == [];
    } else {
      PicksColumn(lines, g, rows, c, n - 1);
      PickedNext(lines, g, n - 1);
      if n <= |rows| { ColumnNext(rows, c, n - 1); }
    }
  }

  lemma NothingYet(g: Target, c: nat)
    ensures Picked([], g) == Column([], c)
  {
  }

  /** Every target picks the column of its channel, whatever stands beside and below it. */
  lemma BlocksComeApart(time: seq<Row>, tc: nat, freq: seq<Row>, fc: nat, k: nat)
    requires forall r | 0 <= r < |time| :: |time[r].cells| == tc
    requires forall r | 0 <= r < |freq| :: |freq[r].cells| == fc
    requires k < tc + fc
    ensures Picked(Lines(time, tc, freq, fc), TargetsOf(tc, fc)[k])
         == if k < tc then Column(time, k) else Column(freq, k - tc)
  {
    hide Picked, Column, BlockFields, Finds, Lines;
    var lines, g := Lines(time, tc, freq, fc), TargetsOf(tc, fc)[k];
    assert lines[..|lines|] == lines && time[..|time|] == time && freq[..|freq|] == freq;
    if k < tc {
      FirstIsFound(time, tc, freq, fc, k);
      PicksColumn(lines, g, time, k, |lines|);
    } else {
      SecondIsFound(time, tc, freq, fc, k - tc);
      PicksColumn(lines, g, freq, k - tc, |lines|);
    }
  }

  lemma FieldsAre(rows: seq<Row>, count: nat, c: nat, r: nat)
    requires (forall k | 0 <= k < |rows| :: |rows[k].cells| == count) && c < count
    ensures var fields := BlockFields(rows, count, r);
            && |fields| == count + 1 && fields[0] == (if r < |rows| then At(rows[r].t) else Blank)
            && (r < |rows| ==> fields[c + 1] == FieldOf(rows[r].cells[c]))
  {
    hide FieldOf;
  }

  lemma FirstIsFound(time: seq<Row>, tc: nat, freq: seq<Row>, fc: nat, c: nat)
    requires forall r | 0 <= r < |time| :: |time[r].cells| == tc
    requires forall r | 0 <= r < |freq| :: |freq[r].cells| == fc
    requires c < tc
    ensures Finds(Lines(time, tc, freq, fc), Target(0, c + 1), time, c)
  {
    hide FieldOf, BlockFields;
    var lines := Lines(time, tc, freq, fc);
    forall r | 0 <= r < |lines|
      ensures |lines[r]| > c + 1 && lines[r][0] == (if r < |time| then At(time[r].t) else Blank)
      ensures r < |time| ==> lines[r][c + 1] == FieldOf(time[r].cells[c])
    {
      FieldsAre(time, tc, c, r);
      assert lines[r] == BlockFields(time, tc, r) + BlockFields(freq, fc, r);
    }
    hide Lines;
  }

  lemma SecondIsFound(time: seq<Row>, tc: nat, freq: seq<Row>, fc: nat, c: nat)
    requires forall r | 0 <= r < |time| :: |time[r].cells| == tc
    requires forall r | 0 <= r < |freq| :: |freq[r].cells| == fc
    requires c < fc
    ensures Finds(Lines(time, tc, freq, fc), Target(SecondAxis(tc), SecondAxis(tc) + 1 + c), freq, c)
  {
    hide FieldOf, BlockFields;
    var lines, x := Lines(time, tc, freq, fc), SecondAxis(tc);
    forall r | 0 <= r < |lines|
      ensures |lines[r]| > x + 1 + c && lines[r][x] == (if r < |freq| then At(freq[r].t) else Blank)
      ensures r < |freq| ==> lines[r][x + 1 + c] == FieldOf(freq[r].cells[c])
    {
      FieldsAre(freq, fc, c, r);
      Behind(BlockFields(time, tc, r), BlockFields(freq, fc, r), lines[r], x, c);
    }
    hide Lines;
  }

  lemma Behind(left: seq<Field>, right: seq<Field>, line: seq<Field>, x: nat, c: nat)
    requires line == left + right && |left| == x && c + 1 < |right|
    ensures |line| > x + 1 + c && line[x] == right[0] && line[x + 1 + c] == right[c + 1]
  {
  }

  // ---------- the samples that are numbers ----------

  function First(s: Channel, n: nat): (r: Channel)
    requires s.Matched() && n <= |s.ts|
    ensures r.Matched() && |r.ts| == n
  {
    Channel(s.ts[..n], s.vs[..n])
  }

  /** The samples that are numbers, in order. */
  function Numbers(s: Channel): (r: Signal)
    requires s.Matched()
    ensures r.Matched()
    decreases |s.ts|
  {
    if s.ts == [] then Signal([], [])
    else
      var n := |s.ts| - 1;
      var head := Numbers(First(s, n));
      match s.vs[n]
      case None => head
      case Some(v) => Signal(head.ts + [s.ts[n]], head.vs + [v])
  }

  lemma NumbersNext(s: Channel)
    requires s.Matched() && s.ts != []
    ensures var n := |s.ts| - 1; var head := Numbers(First(s, n));
            Numbers(s) == if s.vs[n] == None then head else Signal(head.ts + [s.ts[n]], head.vs + [s.vs[n].value])
  {
  }

  /** Sample i, if a number, stands behind those before it. */
  lemma {:induction false} NumberAt(s: Channel, i: nat)
    requires s.Matched() && i < |s.ts| && s.vs[i].Some?
    ensures var j, r := |Numbers(First(s, i)).ts|, Numbers(s);
            && j < |r.ts| && r.ts[j] == s.ts[i] && r.vs[j] == s.vs[i].value
            && |Numbers(First(s, i + 1)).ts| == j + 1
    decreases |s.ts|
  {
    hide Numbers;
    NumbersNext(s);
    NumbersNext(First(s, i + 1));
    FirstOfFirst(s, i + 1, i);
    var n := |s.ts| - 1;
    if i < n {
      FirstOfFirst(s, n, i);
      FirstOfFirst(s, n, i + 1);
      NumberAt(First(s, n), i);
    } else {
      assert First(s, i + 1) == s by { assert s.ts[..i + 1] == s.ts && s.vs[..i + 1] == s.vs; }
    }
  }

  lemma FirstOfFirst(s: Channel, n: nat, i: nat)
    requires s.Matched() && i <= n <= |s.ts|
    ensures First(First(s, n), i) == First(s, i)
  {
    assert s.ts[..n][..i] == s.ts[..i] && s.vs[..n][..i] == s.vs[..i];
  }

  /** Every number comes from a sample. */
  lemma {:induction false} NumberFrom(s: Channel, j: nat) returns (i: nat)
    requires s.Matched() && j < |Numbers(s).ts|
    ensures i < |s.ts| && s.vs[i] == Some(Numbers(s).vs[j]) && s.ts[i] == Numbers(s).ts[j]
    ensures |Numbers(First(s, i)).ts| == j
    decreases |s.ts|
  {
    var n := |s.ts| - 1;
    var head := Numbers(First(s, n));
    if j < |head.ts| {
      i := NumberFrom(First(s, n), j);
      FirstOfFirst(s, n, i);
    } else {
      i := n;
    }
  }

  lemma {:induction false} NumbersIncrease(s: Channel)
    requires s.Matched() && Increasing(s.ts)
    ensures Increasing(Numbers(s).ts)
    ensures forall t | t in Numbers(s).ts :: t in s.ts
    decreases |s.ts|
  {
    if s.ts != [] {
      var n := |s.ts| - 1;
      var head := First(s, n);
      NumbersIncrease(head);
      assert s.ts == head.ts + [s.ts[n]];
      var r := Numbers(head).ts;
      forall i | 0 <= i < |r|
        ensures r[i] < s.ts[n]
      {
        assert r[i] in r;
      }
    }
  }

  /** What the writer puts into a cell lies on the line of the numbers. */
  lemma InterpIsLine(s: Channel, t: int)
    requires s.Matched() && Increasing(s.ts) && Interp(s, t).Some?
    ensures Numbers(s).Drawn() && Numbers(s).Covers(t) && Interp(s, t).value == Line(Numbers(s), t)
  {
    hide Lerp, Line, Numbers;
    NumbersIncrease(s);
    var hi, r := LowerBound(s.ts, t), Numbers(s);
    NumberAt(s, hi);
    var j := |Numbers(First(s, hi)).ts|;
    if s.ts[hi] == t {
      LineAtSample(r, j);
    } else {
      NumberAt(s, hi - 1);
      LineOnSegment(r, j - 1, t);
    }
  }

  /** At t the channel has a number, or lies between two neighbouring ones. */
  ghost predicate Filled(s: Channel, t: int)
    requires s.Matched()
  {
    || (exists i :: 0 <= i < |s.ts| && s.ts[i] == t && s.vs[i].Some?)
    || (exists i :: 0 <= i < |s.ts| - 1 && s.ts[i] < t < s.ts[i + 1] && s.vs[i].Some? && s.vs[i + 1].Some?)
  }

  /** A cell is written exactly there. */
  lemma FilledExactly(s: Channel, t: int)
    requires s.Matched() && Increasing(s.ts)
    ensures Interp(s, t).Some? <==> Filled(s, t)
  {
    hide Lerp;
    if Interp(s, t).Some? {
      var hi := LowerBound(s.ts, t);
      if s.ts[hi] != t { assert s.ts[hi - 1] < t < s.ts[hi - 1 + 1]; }
    }
    if i :| 0 <= i < |s.ts| && s.ts[i] == t && s.vs[i].Some? {
      InterpAtSample(s, i);
    }
    if i :| 0 <= i < |s.ts| - 1 && s.ts[i] < t < s.ts[i + 1] && s.vs[i].Some? && s.vs[i + 1].Some? {
      LowerBoundIs(s.ts, t, i + 1);
      assert s.ts[0] <= s.ts[i] && s.ts[i + 1] <= s.ts[|s.ts| - 1];
    }
  }

  /** At its own time every sample is written as it is. */
  lemma InterpAtSample(s: Channel, i: nat)
    requires s.Matched() && Increasing(s.ts) && i < |s.ts|
    ensures Interp(s, s.ts[i]) == s.vs[i]
  {
    LowerBoundIs(s.ts, s.ts[i], i);
    assert s.ts[0] <= s.ts[i] <= s.ts[|s.ts| - 1];
  }

  // ---------- the line survives ----------

  /** The rows of a write of these channels. */
  ghost predicate Written(rows: seq<Row>, chans: seq<Channel>)
    requires AllMatched(chans)
  {
    IsGrid(Times(rows), chans) && forall r | 0 <= r < |rows| :: rows[r].cells == CellsAt(chans, rows[r].t)
  }

  lemma RowBefore(rows: seq<Row>)
    requires rows != [] && Increasing(Times(rows))
    ensures var head, last := rows[..|rows| - 1], rows[|rows| - 1];
            && Times(rows) == Times(head) + [last.t] && Increasing(Times(head))
            && forall t | t in Times(head) :: t < last.t
  {
    var head := rows[..|rows| - 1];
    assert Times(head) == Times(rows)[..|head|];
    forall t | t in Times(head)
      ensures t < rows[|head|].t
    {
      var r :| 0 <= r < |head| && Times(head)[r] == t;
      assert Times(rows)[r] < Times(rows)[|head|];
    }
  }

  lemma {:induction false} ColumnHolds(rows: seq<Row>, c: nat, s: Channel)
    requires s.Matched() && Increasing(Times(rows))
    requires forall r | 0 <= r < |rows| :: c < |rows[r].cells| && rows[r].cells[c] == Interp(s, rows[r].t)
    ensures var k := Column(rows, c);
            && Increasing(k.ts)
            && (forall t :: t in k.ts <==> t in Times(rows) && Interp(s, t) != None)
            && forall i | 0 <= i < |k.ts| :: Interp(s, k.ts[i]) == Some(k.vs[i])
  {
    hide Interp;
    if rows != [] {
      var head, last := rows[..|rows| - 1], rows[|rows| - 1];
      RowBefore(rows);
      ColumnHolds(head, c, s);
      hide Times;
      var k := Column(head, c);
      assert forall i | 0 <= i < |k.ts| :: k.ts[i] in Times(head);
    }
  }

  /** k draws s with extra points on its line. */
  ghost predicate Refines(s: Signal, k: Signal) {
    && s.Drawn() && k.Drawn()
    && k.ts[0] == s.ts[0] && k.ts[|k.ts| - 1] == s.ts[|s.ts| - 1]
    && (forall i | 0 <= i < |s.ts| :: s.ts[i] in k.ts)
    && forall i | 0 <= i < |k.ts| :: s.Covers(k.ts[i]) && k.vs[i] == Line(s, k.ts[i])
  }

  /** Extra points on the line do not change the line. */
  lemma RefinementDrawsTheSame(s: Signal, k: Signal, t: int)
    requires Refines(s, k) && s.Covers(t)
    ensures k.Covers(t) && Line(k, t) == Line(s, t)
  {
    hide Lerp, Line;
    var i := Segment(k.ts, t);
    if i == |k.ts| - 1 {
      LineAtSample(k, i);
    } else {
      var a, b := k.ts[i], k.ts[i + 1];
      assert a <= t < b && s.Covers(a);
      var j := Segment(s.ts, a);
      assert a < s.ts[|s.ts| - 1] by {
        assert k.ts[i + 1] <= k.ts[|k.ts| - 1];
      }
      assert j + 1 < |s.ts| by {
        assert s.ts[j] <= a;
      }
      assert b <= s.ts[j + 1] by {
        assert s.ts[j + 1] in k.ts;
        var m :| 0 <= m < |k.ts| && k.ts[m] == s.ts[j + 1];
        assert m > i;
        assert k.ts[i + 1] <= k.ts[m];
      }
      LineOnSegment(s, j, a);
      LineOnSegment(s, j, b);
      LineOnSegment(s, j, t);
      LineOnSegment(k, i, t);
      LerpOfLerp(s.ts[j], s.vs[j], s.ts[j + 1], s.vs[j + 1], a, b, t);
    }
  }

  /** k has all samples of s, and only points on its line. */
  ghost predicate Traces(s: Signal, k: Signal) {
    && k.Matched() && Increasing(k.ts)
    && (forall i | 0 <= i < |s.ts| :: s.ts[i] in k.ts)
    && (k.ts != [] ==> s.Drawn() && forall i | 0 <= i < |k.ts| :: s.Covers(k.ts[i]) && k.vs[i] == Line(s, k.ts[i]))
  }

  /** A written column holds all numbers of the channel, and only points on their line. */
  lemma ColumnOnLine(rows: seq<Row>, chans: seq<Channel>, c: nat)
    requires c < |chans| && AllMatched(chans) && Increasing(chans[c].ts) && Written(rows, chans)
    ensures Traces(Numbers(chans[c]), Column(rows, c))
  {
    hide Line, Interp, Numbers, Column, Increasing, IsGrid;
    var r, k := Numbers(chans[c]), Column(rows, c);
    forall i | 0 <= i < |k.ts|
      ensures r.Drawn() && r.Covers(k.ts[i]) && k.vs[i] == Line(r, k.ts[i])
    {
      PointOnLine(rows, chans, c, i);
    }
    if k.ts != [] { PointOnLine(rows, chans, c, 0); }
    forall j | 0 <= j < |r.ts|
      ensures r.ts[j] in k.ts
    {
      NumberComesBack(rows, chans, c, j);
    }
    ColumnIncreases(rows, chans, c);
  }

  lemma ColumnIncreases(rows: seq<Row>, chans: seq<Channel>, c: nat)
    requires c < |chans| && AllMatched(chans) && Written(rows, chans)
    ensures Increasing(Column(rows, c).ts)
  {
    ColumnHolds(rows, c, chans[c]);
  }

  lemma PointOnLine(rows: seq<Row>, chans: seq<Channel>, c: nat, i: nat)
    requires c < |chans| && AllMatched(chans) && Increasing(chans[c].ts) && Written(rows, chans)
    requires i < |Column(rows, c).ts|
    ensures var r, k := Numbers(chans[c]), Column(rows, c);
            r.Drawn() && r.Covers(k.ts[i]) && k.vs[i] == Line(r, k.ts[i])
  {
    ColumnHolds(rows, c, chans[c]);
    hide Line, Interp, Numbers, Column;
    InterpIsLine(chans[c], Column(rows, c).ts[i]);
  }

  lemma NumberComesBack(rows: seq<Row>, chans: seq<Channel>, c: nat, j: nat)
    requires c < |chans| && AllMatched(chans) && Increasing(chans[c].ts) && Written(rows, chans)
    requires j < |Numbers(chans[c]).ts|
    ensures Numbers(chans[c]).ts[j] in Column(rows, c).ts
  {
    var s := chans[c];
    ColumnHolds(rows, c, s);
    hide Interp, Numbers, Column;
    var i := NumberFrom(s, j);
    InterpAtSample(s, i);
    assert s.ts[i] in chans[c].ts;
    assert s.ts[i] in Times(rows);
  }

  /** What comes back of a channel refines its numbers, and is nothing if it has none. */
  ghost predicate ComesBack(s: Channel, k: Signal)
    requires s.Matched()
  {
    if Numbers(s).ts == [] then k == Signal([], []) else Refines(Numbers(s), k)
  }

  lemma ColumnComesBack(rows: seq<Row>, chans: seq<Channel>, c: nat)
    requires c < |chans| && AllMatched(chans) && Increasing(chans[c].ts) && Written(rows, chans)
    ensures ComesBack(chans[c], Column(rows, c))
  {
    ColumnOnLine(rows, chans, c);
    NumbersIncrease(chans[c]);
    var s, k := Numbers(chans[c]), Column(rows, c);
    hide Numbers, Column, Line, Refines;
    if s.ts != [] { OnLineRefines(s, k); }
  }

  lemma OnLineRefines(s: Signal, k: Signal)
    requires s.Drawn() && Traces(s, k)
    ensures Refines(s, k)
  {
    hide Line;
    assert s.ts[0] in k.ts;
    var p :| 0 <= p < |k.ts| && k.ts[p] == s.ts[0];
    assert s.Covers(k.ts[0]) && k.ts[0] <= k.ts[p];
    var last := |k.ts| - 1;
    assert s.ts[|s.ts| - 1] in k.ts;
    var q :| 0 <= q < |k.ts| && k.ts[q] == s.ts[|s.ts| - 1];
    assert s.Covers(k.ts[last]) && k.ts[q] <= k.ts[last];
  }

  /** Saving and reopening keeps the line of every channel's numbers, its range and all of them. */
  lemma SharedCsvKeepsLines(rows: seq<Row>, chans: seq<Channel>, c: nat)
    requires c < |chans| && AllMatched(chans) && Increasing(chans[c].ts) && Written(rows, chans)
    requires Numbers(chans[c]).ts != []
    ensures var s, k := Numbers(chans[c]), Column(rows, c);
            && s.Drawn() && k.Drawn()
            && (forall t :: k.Covers(t) <==> s.Covers(t))
            && (forall t | s.Covers(t) :: Line(k, t) == Line(s, t))
            && forall i | 0 <= i < |s.ts| :: exists j :: 0 <= j < |k.ts| && k.ts[j] == s.ts[i] && k.vs[j] == s.vs[i]
  {
    hide Line, Numbers, Column;
    var s, k := Numbers(chans[c]), Column(rows, c);
    ColumnComesBack(rows, chans, c);
    forall t | s.Covers(t)
      ensures Line(k, t) == Line(s, t)
    {
      RefinementDrawsTheSame(s, k, t);
    }
    forall i | 0 <= i < |s.ts|
      ensures exists j :: 0 <= j < |k.ts| && k.ts[j] == s.ts[i] && k.vs[j] == s.vs[i]
    {
      assert s.ts[i] in k.ts;
      var j :| 0 <= j < |k.ts| && k.ts[j] == s.ts[i];
      LineAtSample(s, i);
    }
  }

  /** A channel's way through a file: back as its refined numbers, or as the numbers that lead a run. */
  ghost predicate Survives(s: Channel, k: Signal)
    requires s.Matched()
  {
    && k.Matched()
    && (Increasing(s.ts) ==> ComesBack(s, k))
    && (Ordered(s.ts) ==> OwnRows(k, s) == Numbers(Firsts(s)))
  }

  /** k has a sample at every time of any of the channels where this one has or lies between numbers. */
  ghost predicate HasAllTimes(chans: seq<Channel>, c: nat, k: Signal)
    requires c < |chans| && AllMatched(chans)
  {
    forall t :: t in k.ts <==> (exists b :: 0 <= b < |chans| && t in chans[b].ts) && Filled(chans[c], t)
  }

  lemma ColumnHasAllTimes(rows: seq<Row>, chans: seq<Channel>, c: nat)
    requires c < |chans| && AllMatched(chans) && Written(rows, chans) && Increasing(chans[c].ts)
    ensures HasAllTimes(chans, c, Column(rows, c))
  {
    ColumnHolds(rows, c, chans[c]);
    hide Interp, Column, Filled, Increasing;
    forall t
      ensures Interp(chans[c], t).Some? <==> Filled(chans[c], t)
    {
      FilledExactly(chans[c], t);
    }
  }

  lemma ColumnSurvives(rows: seq<Row>, chans: seq<Channel>, c: nat)
    requires c < |chans| && AllMatched(chans) && Written(rows, chans)
    ensures Survives(chans[c], Column(rows, c))
  {
    hide ComesBack, OwnRows, Firsts, Numbers, Column;
    if Increasing(chans[c].ts) { ColumnComesBack(rows, chans, c); }
    if Ordered(chans[c].ts) { FirstsComeBack(rows, chans, c); }
  }

  /** The round trip itself, of both blocks in one file. */
  method SaveAndLoad(time: seq<Channel>, freq: seq<Channel>) returns (loaded: seq<Signal>)
    requires AllMatched(time) && AllMatched(freq)
    ensures |loaded| == |time| + |freq|
    ensures forall c | 0 <= c < |time| :: Survives(time[c], loaded[c])
    ensures forall c | 0 <= c < |freq| :: Survives(freq[c], loaded[|time| + c])
    ensures forall c | 0 <= c < |time| && Increasing(time[c].ts) :: HasAllTimes(time, c, loaded[c])
    ensures forall c | 0 <= c < |freq| && Increasing(freq[c].ts) :: HasAllTimes(freq, c, loaded[|time| + c])
  {
    hide HasAllTimes, Increasing, Survives, Column, Picked, Lines, TargetsOf;
    var lines := WriteShared(time, freq);
    ghost var tRows, fRows :|
      Written(tRows, time) && Written(fRows, freq) && lines == Lines(tRows, |time|, fRows, |freq|);
    loaded := LoadShared(lines, TargetsOf(|time|, |freq|));
    forall c | 0 <= c < |time|
      ensures Survives(time[c], loaded[c]) && (Increasing(time[c].ts) ==> HasAllTimes(time, c, loaded[c]))
    {
      if Increasing(time[c].ts) { ColumnHasAllTimes(tRows, time, c); }
      ColumnSurvives(tRows, time, c);
      BlocksComeApart(tRows, |time|, fRows, |freq|, c);
    }
    forall c | 0 <= c < |freq|
      ensures Survives(freq[c], loaded[|time| + c])
      ensures Increasing(freq[c].ts) ==> HasAllTimes(freq, c, loaded[|time| + c])
    {
      if Increasing(freq[c].ts) { ColumnHasAllTimes(fRows, freq, c); }
      ColumnSurvives(fRows, freq, c);
      BlocksComeApart(tRows, |time|, fRows, |freq|, |time| + c);
    }
  }

  // ---------- repeated timestamps ----------

  /** The first sample of every run of equal times. */
  function Firsts(s: Channel): (r: Channel)
    requires s.Matched()
    ensures r.Matched()
    decreases |s.ts|
  {
    if s.ts == [] then s
    else
      var last := |s.ts| - 1;
      var head := Firsts(First(s, last));
      if last > 0 && s.ts[last] == s.ts[last - 1] then head
      else Channel(head.ts + [s.ts[last]], head.vs + [s.vs[last]])
  }

  /** How many samples repeat the time before them. */
  function Repeats(ts: seq<int>): nat {
    if |ts| < 2 then 0
    else Repeats(ts[..|ts| - 1]) + if ts[|ts| - 1] == ts[|ts| - 2] then 1 else 0
  }

  lemma {:induction false} FirstsCount(s: Channel)
    requires s.Matched()
    ensures |Firsts(s).ts| == |s.ts| - Repeats(s.ts)
    decreases |s.ts|
  {
    if s.ts != [] {
      FirstsCount(First(s, |s.ts| - 1));
    }
  }

  lemma {:induction false} LowerBoundIs(ts: seq<int>, t: int, i: nat)
    requires i < |ts| && ts[i] >= t && forall k | 0 <= k < i :: ts[k] < t
    ensures LowerBound(ts, t) == i
  {
    if i > 0 {
      assert ts[0] < t;
      LowerBoundIs(ts[1..], t, i - 1);
    }
  }

  /** Behind times that all come from p, a new time later than p's. */
  lemma NewLast(head: seq<int>, p: seq<int>, t: int)
    requires Increasing(head) && Ordered(p) && (forall u | u in head :: u in p)
    requires p != [] ==> p[|p| - 1] < t
    ensures Increasing(head + [t])
  {
    forall i | 0 <= i < |head|
      ensures head[i] < t
    {
      assert head[i] in head;
      var k :| 0 <= k < |p| && p[k] == head[i];
      assert p[k] <= p[|p| - 1];
    }
  }

  lemma {:induction false} FirstsTimes(s: Channel)
    requires s.Matched() && Ordered(s.ts)
    ensures Increasing(Firsts(s).ts)
    ensures forall t :: t in Firsts(s).ts <==> t in s.ts
    decreases |s.ts|
  {
    hide Increasing;
    if s.ts != [] {
      var last := |s.ts| - 1;
      var p := First(s, last);
      FirstsTimes(p);
      assert s.ts == p.ts + [s.ts[last]];
      if last > 0 && s.ts[last] == s.ts[last - 1] {
        assert p.ts[last - 1] in p.ts;
      } else {
        NewLast(Firsts(p).ts, p.ts, s.ts[last]);
      }
    } else {
      NothingIncreases();
    }
  }

  lemma NothingIncreases()
    ensures Increasing([])
  {
  }

  lemma {:induction false} FirstsValues(s: Channel, i: nat)
    requires s.Matched() && Ordered(s.ts) && i < |Firsts(s).ts|
    ensures var b := LowerBound(s.ts, Firsts(s).ts[i]);
            b < |s.ts| && Firsts(s).vs[i] == s.vs[b]
    decreases |s.ts|
  {
    hide LowerBound;
    var last := |s.ts| - 1;
    var p := First(s, last);
    var head := Firsts(p);
    if i < |head.ts| {
      FirstsValues(p, i);
      LowerBoundIs(s.ts, head.ts[i], LowerBound(p.ts, head.ts[i]));
    } else {
      forall k | 0 <= k < last
        ensures s.ts[k] < s.ts[last]
      {
        assert s.ts[k] <= s.ts[last - 1] <= s.ts[last];
      }
      LowerBoundIs(s.ts, s.ts[last], last);
    }
  }

  /** The rows of k at times where s has samples. */
  function OwnRows(k: Signal, s: Channel): (r: Signal)
    requires k.Matched()
    ensures r.Matched()
    decreases |k.ts|
  {
    if k.ts == [] then k
    else
      var last := |k.ts| - 1;
      var head := OwnRows(Signal(k.ts[..last], k.vs[..last]), s);
      if k.ts[last] in s.ts then Signal(head.ts + [k.ts[last]], head.vs + [k.vs[last]]) else head
  }

  lemma {:induction false} OwnRowsHold(k: Signal, s: Channel)
    requires k.Matched() && s.Matched() && Increasing(k.ts)
    requires forall i | 0 <= i < |k.ts| :: Interp(s, k.ts[i]) == Some(k.vs[i])
    ensures var r := OwnRows(k, s);
            && Increasing(r.ts)
            && (forall t :: t in r.ts <==> t in k.ts && t in s.ts)
            && forall i | 0 <= i < |r.ts| :: Interp(s, r.ts[i]) == Some(r.vs[i])
    decreases |k.ts|
  {
    hide Interp;
    if k.ts != [] {
      var last := |k.ts| - 1;
      var p := Signal(k.ts[..last], k.vs[..last]);
      assert k.ts == p.ts + [k.ts[last]];
      OwnRowsHold(p, s);
      var head := OwnRows(p, s);
      forall i | 0 <= i < |head.ts|
        ensures head.ts[i] < k.ts[last]
      {
        assert head.ts[i] in p.ts;
      }
    }
  }

  lemma WithoutLast(a: seq<int>, t: int)
    requires Increasing(a) && a != []
    ensures Increasing(a[..|a| - 1])
    ensures t in a[..|a| - 1] <==> t in a && t != a[|a| - 1]
    ensures t in a ==> t <= a[|a| - 1]
  {
    assert a == a[..|a| - 1] + [a[|a| - 1]];
  }

  lemma NoneInBoth(a: seq<int>, b: seq<int>)
    requires forall t :: t in a <==> t in b
    ensures a == [] <==> b == []
  {
    if a != [] {
      var x := a[0];
      assert x in a && x in b;
    }
    if b != [] {
      var y := b[0];
      assert y in b && y in a;
    }
  }

  lemma {:induction false} SameTimes(a: seq<int>, b: seq<int>)
    requires Increasing(a) && Increasing(b) && forall t :: t in a <==> t in b
    ensures a == b
    decreases |a|
  {
    NoneInBoth(a, b);
    hide Increasing;
    if a != [] {
      var x, y := a[|a| - 1], b[|b| - 1];
      assert x in a && y in b;
      WithoutLast(a, y);
      WithoutLast(b, x);
      assert x == y;
      var a', b' := a[..|a| - 1], b[..|b| - 1];
      forall t | t in a'
        ensures t in b'
      {
        WithoutLast(a, t);
        WithoutLast(b, t);
      }
      forall t | t in b'
        ensures t in a'
      {
        WithoutLast(a, t);
        WithoutLast(b, t);
      }
      SameTimes(a', b');
      assert a == a' + [x] && b == b' + [x];
    }
  }

  /** At a time of its own, the first sample of that time is written. */
  lemma AtOwnTime(s: Channel, t: int)
    requires s.Matched() && Ordered(s.ts) && t in s.ts
    ensures LowerBound(s.ts, t) < |s.ts| && Interp(s, t) == s.vs[LowerBound(s.ts, t)]
  {
    var i :| 0 <= i < |s.ts| && s.ts[i] == t;
    var hi := LowerBound(s.ts, t);
    assert hi <= i;
    assert s.ts[hi] <= s.ts[i];
  }

  /** The numbers that lead a run: at which times, and that the writer writes them there. */
  lemma LeadingNumbers(s: Channel)
    requires s.Matched() && Ordered(s.ts)
    ensures var r := Numbers(Firsts(s));
            && Increasing(r.ts)
            && (forall t :: t in r.ts <==> t in s.ts && Interp(s, t).Some?)
            && forall j | 0 <= j < |r.ts| :: Interp(s, r.ts[j]) == Some(r.vs[j])
  {
    hide Numbers, Interp, LowerBound;
    var f := Firsts(s);
    FirstsTimes(s);
    NumbersIncrease(f);
    var r := Numbers(f);
    forall j | 0 <= j < |r.ts|
      ensures r.ts[j] in s.ts && Interp(s, r.ts[j]) == Some(r.vs[j])
    {
      var i := NumberFrom(f, j);
      FirstsValues(s, i);
      assert f.ts[i] in f.ts;
      AtOwnTime(s, f.ts[i]);
    }
    forall t | t in s.ts && Interp(s, t).Some?
      ensures t in r.ts
    {
      assert t in f.ts;
      var i :| 0 <= i < |f.ts| && f.ts[i] == t;
      FirstsValues(s, i);
      AtOwnTime(s, t);
      NumberAt(f, i);
    }
  }

  /** Of a channel in time order, what comes back at its own times are the numbers that lead a run. */
  lemma FirstsComeBack(rows: seq<Row>, chans: seq<Channel>, c: nat)
    requires c < |chans| && Ordered(chans[c].ts) && AllMatched(chans) && Written(rows, chans)
    ensures OwnRows(Column(rows, c), chans[c]) == Numbers(Firsts(chans[c]))
  {
    hide Interp, Numbers, Firsts, OwnRows, Column;
    var s, k := chans[c], Column(rows, c);
    ColumnHolds(rows, c, s);
    OwnRowsHold(k, s);
    LeadingNumbers(s);
    var own, firsts := OwnRows(k, s), Numbers(Firsts(s));
    forall t
      ensures t in own.ts <==> t in firsts.ts
    {
      if t in s.ts { assert t in chans[c].ts; }
    }
    SameTimes(own.ts, firsts.ts);
    forall i | 0 <= i < |own.ts|
      ensures own.vs[i] == firsts.vs[i]
    {
      assert Interp(s, own.ts[i]) == Some(own.vs[i]);
    }
  }

  /** How many samples are no numbers. */
  function Gaps(s: Channel): nat
    requires s.Matched()
    decreases |s.ts|
  {
    if s.ts == [] then 0 else Gaps(First(s, |s.ts| - 1)) + if s.vs[|s.ts| - 1] == None then 1 else 0
  }

  lemma {:induction false} NumbersAndGaps(s: Channel)
    requires s.Matched()
    ensures |Numbers(s).ts| + Gaps(s) == |s.ts|
    decreases |s.ts|
  {
    if s.ts != [] { NumbersAndGaps(First(s, |s.ts| - 1)); }
  }

  lemma {:induction false} FirstsHaveFewerGaps(s: Channel)
    requires s.Matched()
    ensures Gaps(Firsts(s)) <= Gaps(s)
    decreases |s.ts|
  {
    if s.ts != [] {
      var last := |s.ts| - 1;
      FirstsHaveFewerGaps(First(s, last));
      var r := Firsts(s);
      if !(last > 0 && s.ts[last] == s.ts[last - 1]) {
        var n := |r.ts| - 1;
        assert First(r, n) == Firsts(First(s, last));
      }
    }
  }

  /**
    A channel in time order loses the repeats the scan counts and, beyond that, the runs that start with no
    number: the rows of its own that come back are its samples less the repeats less those.  Of its numbers it
    loses the repeats that are numbers and nothing else, so exactly the repeats if and only if no repeat is a gap.
   */
  lemma RepeatsAreTheLoss(rows: seq<Row>, chans: seq<Channel>, c: nat)
    requires c < |chans| && Ordered(chans[c].ts) && AllMatched(chans) && Written(rows, chans)
    ensures var s := chans[c]; var back := |OwnRows(Column(rows, c), s).ts|;
            && back == |s.ts| - Repeats(s.ts) - Gaps(Firsts(s))
            && back == |Numbers(s).ts| - (Repeats(s.ts) - (Gaps(s) - Gaps(Firsts(s))))
            && (|Numbers(s).ts| - back == Repeats(s.ts) <==> Gaps(s) == Gaps(Firsts(s)))
            && (Gaps(s) == 0 ==> |s.ts| - back == Repeats(s.ts))
  {
    var s := chans[c];
    FirstsComeBack(rows, chans, c);
    FirstsCount(s);
    NumbersAndGaps(s);
    NumbersAndGaps(Firsts(s));
    FirstsHaveFewerGaps(s);
  }

  // ---------- the scan ----------

  function TotalRepeats(chans: seq<Channel>): nat {
    if chans == [] then 0 else TotalRepeats(chans[..|chans| - 1]) + Repeats(chans[|chans| - 1].ts)
  }

  function RepeatingChannels(chans: seq<Channel>): nat {
    if chans == [] then 0
    else RepeatingChannels(chans[..|chans| - 1]) + if Repeats(chans[|chans| - 1].ts) > 0 then 1 else 0
  }

  method CountRepeats(ts: seq<int>) returns (dropped: nat)
    ensures dropped == Repeats(ts)
  {
    dropped := 0;
    var i := 1;
    while i < |ts|
      invariant 1 <= i && (i <= |ts| ==> dropped == Repeats(ts[..i])) && (|ts| == 0 ==> dropped == 0)
      invariant i <= |ts| || |ts| == 0
    {
      assert ts[..i + 1][..i] == ts[..i];
      if ts[i] == ts[i - 1] {
        dropped := dropped + 1;
      }
      i := i + 1;
    }
    assert ts[..|ts|] == ts;
  }

  /** scanRepeatedTimestamps; worst is the index of the first channel that drops most. */
  method ScanRepeated(chans: seq<Channel>) returns (channels: nat, droppedSamples: nat, worst: Option<nat>)
    ensures droppedSamples == TotalRepeats(chans) && channels == RepeatingChannels(chans)
    ensures worst == None <==> droppedSamples == 0
    ensures worst != None ==>
              && worst.value < |chans|
              && (forall c | 0 <= c < |chans| :: Repeats(chans[c].ts) <= Repeats(chans[worst.value].ts))
              && forall c | 0 <= c < worst.value :: Repeats(chans[c].ts) < Repeats(chans[worst.value].ts)
  {
    channels, droppedSamples, worst := 0, 0, None;
    var most := 0;
    for c := 0 to |chans|
      invariant droppedSamples == TotalRepeats(chans[..c]) && channels == RepeatingChannels(chans[..c])
      invariant most == 0 <==> droppedSamples == 0
      invariant most == 0 <==> worst == None
      invariant forall b | 0 <= b < c :: Repeats(chans[b].ts) <= most
      invariant worst != None ==>
                  && worst.value < c && Repeats(chans[worst.value].ts) == most
                  && forall b | 0 <= b < worst.value :: Repeats(chans[b].ts) < most
    {
      assert chans[..c + 1][..c] == chans[..c];
      var dropped := CountRepeats(chans[c].ts);
      if dropped > 0 {
        channels := channels + 1;
        droppedSamples := droppedSamples + dropped;
        if dropped > most {
          most, worst := dropped, Some(c);
        }
      }
    }
    assert chans[..|chans|] == chans;
  }
}
