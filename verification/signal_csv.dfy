/**
  The per-signal CSV: every channel with its own X column beside it, described
  by column metadata, and imported back through a profile built from it.
 */
module SignalCsv {
  import opened Options
  import opened ColumnLetters
  import opened TabularImport

  /** A sample; a value that is not a number is None. */
  datatype Point = Point(t: int, v: Option<real>)

  datatype Channel = Channel(name: string, freq: bool, points: seq<Point>)

  datatype Axis = EpochNs | RelativeSeconds

  /** One entry of the column metadata. */
  datatype ColDesc = ColDesc(role: Role, unit: Unit, name: string, refX: int)

  // ---- Writing ---------------------------------------------------------------

  /** The earliest first sample of the time channels. */
  function FirstOf(chans: seq<Channel>): Option<int> {
    if chans == [] then None
    else
      var first, c := FirstOf(chans[..|chans| - 1]), chans[|chans| - 1];
      if c.freq || c.points == [] then first
      else if first.None? || c.points[0].t < first.value then Some(c.points[0].t)
      else first
  }

  function Origin(chans: seq<Channel>): int {
    var first := FirstOf(chans);
    if first.None? then 0 else first.value
  }

  ghost predicate Timed(c: Channel) { !c.freq && c.points != [] }

  /** The earliest time of all begins the relative axis. */
  lemma {:induction false} OriginIsEarliest(chans: seq<Channel>)
    ensures FirstOf(chans).Some? <==> exists c :: c in chans && Timed(c)
    ensures (exists c :: c in chans && Timed(c)) ==>
              && (exists c :: c in chans && Timed(c) && c.points[0].t == Origin(chans))
              && (forall c | c in chans && Timed(c) :: Origin(chans) <= c.points[0].t)
    ensures (forall c | c in chans :: !Timed(c)) ==> Origin(chans) == 0
  {
    if chans != [] {
      var n := |chans| - 1;
      OriginIsEarliest(chans[..n]);
      assert chans == chans[..n] + [chans[n]];
      assert forall c | c in chans :: c in chans[..n] || c == chans[n];
      var first := FirstOf(chans[..n]);
      if Timed(chans[n]) && (first.None? || chans[n].points[0].t < first.value) {
        assert chans[n].points[0].t == Origin(chans);
      } else if first.Some? {
        assert Origin(chans) == Origin(chans[..n]);
      }
    }
  }

  /** What is taken off a channel's times on the way out. */
  function Shift(chans: seq<Channel>, axis: Axis, c: Channel): int {
    if c.freq || axis == EpochNs then 0 else Origin(chans)
  }

  function XCell(c: Channel, t: int, axis: Axis, origin: int): Cell {
    if c.freq then Dec(t as real / 1000000000.0)
    else if axis == EpochNs then Int(t)
    else Dec((t - origin) as real / 1000000000.0)
  }

  function ValueCell(v: Option<real>): Cell { if v.None? then Blank else Dec(v.value) }

  function XUnit(c: Channel, axis: Axis): Unit {
    if c.freq then Hz else if axis == EpochNs then Ns else Other
  }

  function Longest(chans: seq<Channel>): (n: nat)
    ensures forall c | c in chans :: |c.points| <= n
    ensures n > 0 ==> exists c :: c in chans && |c.points| == n
  {
    if chans == [] then 0
    else
      var n, c := Longest(chans[..|chans| - 1]), chans[|chans| - 1];
      assert forall d | d in chans :: d in chans[..|chans| - 1] || d == c;
      if |c.points| > n then |c.points| else n
  }

  ghost predicate Described(cols: seq<ColDesc>, chans: seq<Channel>, axis: Axis) {
    && |cols| == 2 * |chans|
    && forall i | 0 <= i < |chans| :: DescribedAt(cols, chans, axis, i)
  }

  ghost predicate DescribedAt(cols: seq<ColDesc>, chans: seq<Channel>, axis: Axis, i: nat)
    requires i < |chans| && 2 * i + 1 < |cols|
  {
    var c := chans[i];
    && cols[2 * i] == ColDesc(if c.freq then XFrequency else XTime, XUnit(c, axis), "", -1)
    && cols[2 * i + 1] == ColDesc(YSignal, Other, c.name, 2 * i)
  }

  method Describe(chans: seq<Channel>, axis: Axis) returns (cols: seq<ColDesc>)
    ensures Described(cols, chans, axis)
  {
    cols := [];
    for i := 0 to |chans|
      invariant |cols| == 2 * i
      invariant forall k | 0 <= k < i :: DescribedAt(cols, chans, axis, k)
    {
      ghost var before := cols;
      var c := chans[i];
      cols := cols + [ColDesc(if c.freq then XFrequency else XTime, XUnit(c, axis), "", -1)];
      var xIdx := |cols| - 1;
      cols := cols + [ColDesc(YSignal, Other, c.name, xIdx)];
      forall k | 0 <= k < i
        ensures DescribedAt(cols, chans, axis, k)
      {
        assert DescribedAt(before, chans, axis, k);
        assert cols[2 * k] == before[2 * k] && cols[2 * k + 1] == before[2 * k + 1];
      }
    }
  }

  /** The two cells of channel i in data row r: blank behind its last sample. */
  ghost predicate CellsAt(row: seq<Cell>, chans: seq<Channel>, axis: Axis, origin: int, r: nat, i: nat)
    requires i < |chans| && 2 * i + 1 < |row|
  {
    var c := chans[i];
    && row[2 * i] == (if r < |c.points| then XCell(c, c.points[r].t, axis, origin) else Blank)
    && row[2 * i + 1] == (if r < |c.points| then ValueCell(c.points[r].v) else Blank)
  }

  ghost predicate IsRow(row: seq<Cell>, chans: seq<Channel>, axis: Axis, origin: int, r: nat)
  {
    |row| == 2 * |chans| && forall i | 0 <= i < |chans| :: CellsAt(row, chans, axis, origin, r, i)
  }

  method WriteRow(chans: seq<Channel>, axis: Axis, origin: int, r: nat) returns (row: seq<Cell>)
    ensures IsRow(row, chans, axis, origin, r)
  {
    row := [];
    for i := 0 to |chans|
      invariant |row| == 2 * i
      invariant forall k | 0 <= k < i :: CellsAt(row, chans, axis, origin, r, k)
    {
      ghost var before := row;
      var c := chans[i];
      row := row + if r < |c.points| then [XCell(c, c.points[r].t, axis, origin), ValueCell(c.points[r].v)] else [Blank, Blank];
      forall k | 0 <= k < i
        ensures CellsAt(row, chans, axis, origin, r, k)
      {
        assert CellsAt(before, chans, axis, origin, r, k);
        assert row[2 * k] == before[2 * k] && row[2 * k + 1] == before[2 * k + 1];
      }
    }
  }

  ghost predicate AreRows(data: seq<seq<Cell>>, chans: seq<Channel>, axis: Axis, origin: int) {
    forall r | 0 <= r < |data| :: IsRow(data[r], chans, axis, origin, r)
  }

  /** The whole grid of cells: the header row, if wanted, and one row per sample of the longest channel. */
  ghost predicate IsGrid(rows: seq<seq<Cell>>, chans: seq<Channel>, axis: Axis, header: bool)
  {
    var h := if header then 1 else 0;
    |rows| == h + Longest(chans) && AreRows(rows[h..], chans, axis, Origin(chans))
  }

  method WriteRows(chans: seq<Channel>, axis: Axis, header: bool) returns (rows: seq<seq<Cell>>)
    ensures IsGrid(rows, chans, axis, header)
  {
    var origin := FindOrigin(chans);
    var maxN := FindLongest(chans);
    hide Longest, IsRow;
    rows := [];
    if header {
      var first := HeaderRow(chans);
      rows := [first];
    }
    ghost var head, data := rows, [];
    for r := 0 to maxN
      invariant rows == head + data && |data| == r && AreRows(data, chans, axis, origin)
    {
      var row := WriteRow(chans, axis, origin, r);
      rows, data := rows + [row], data + [row];
    }
    assert rows[|head|..] == data;
  }

  method FindLongest(chans: seq<Channel>) returns (maxN: nat)
    ensures maxN == Longest(chans)
  {
    maxN := 0;
    for i := 0 to |chans|
      invariant maxN == Longest(chans[..i])
    {
      assert chans[..i + 1][..i] == chans[..i];
      if |chans[i].points| > maxN { maxN := |chans[i].points|; }
    }
    assert chans[..|chans|] == chans;
  }

  method FindOrigin(chans: seq<Channel>) returns (origin: int)
    ensures origin == Origin(chans)
  {
    var first: Option<int> := None;
    for i := 0 to |chans|
      invariant first == FirstOf(chans[..i])
    {
      assert chans[..i + 1][..i] == chans[..i];
      var c := chans[i];
      if !c.freq && c.points != [] && (first.None? || c.points[0].t < first.value) { first := Some(c.points[0].t); }
    }
    assert chans[..|chans|] == chans;
    origin := if first.None? then 0 else first.value;
  }

  method HeaderRow(chans: seq<Channel>) returns (row: seq<Cell>)
    ensures |row| == 2 * |chans|
  {
    row := [];
    for i := 0 to |chans|
      invariant |row| == 2 * i
    {
      row := row + [Text((if chans[i].freq then "f_" else "t_") + chans[i].name), Text(chans[i].name)];
    }
  }

  // ---- The profile -------------------------------------------------------------

  /** The mapping of column i: its letters, and for a signal the letters of its X column. */
  function MappingOf(cols: seq<ColDesc>, i: nat): Mapping
    requires i < |cols|
  {
    var c := cols[i];
    Mapping(Letters(i), c.role, c.unit, c.name,
            if c.role == YSignal && 0 <= c.refX < |cols| then Letters(c.refX) else "")
  }

  method ProfileFromColumns(cols: seq<ColDesc>) returns (maps: seq<Mapping>)
    ensures |maps| == |cols| && forall i | 0 <= i < |cols| :: maps[i] == MappingOf(cols, i)
  {
    hide Letters;
    var letters: seq<string> := [];
    for i := 0 to |cols|
      invariant |letters| == i && forall k | 0 <= k < i :: letters[k] == Letters(k)
    {
      var s := ColumnLetter(i);
      letters := letters + [s];
    }
    maps := [];
    for i := 0 to |cols|
      invariant |maps| == i && forall k | 0 <= k < i :: maps[k] == MappingOf(cols, k)
    {
      var c := cols[i];
      var xSource := if c.role == YSignal && 0 <= c.refX < |letters| then letters[c.refX] else "";
      maps := maps + [Mapping(letters[i], c.role, c.unit, c.name, xSource)];
    }
  }

  // ---- What comes back -----------------------------------------------------------

  /** A channel as imported: its times less the shift, and 0 for what is not a number. */
  function Times(points: seq<Point>, shift: int): (ts: seq<int>) {
    seq(|points|, i requires 0 <= i < |points| => points[i].t - shift)
  }

  function Values(points: seq<Point>): (vs: seq<real>) {
    seq(|points|, i requires 0 <= i < |points| => if points[i].v.None? then 0.0 else points[i].v.value)
  }

  function NameBack(c: Channel, i: nat): string { if c.name == "" then "Col" + Letters(2 * i + 1) else c.name }

  function SeriesBack(chans: seq<Channel>, axis: Axis, i: nat, dropped: nat): Series
    requires i < |chans|
  {
    var c := chans[i];
    var points := if dropped <= |c.points| then c.points[dropped..] else [];
    Series(NameBack(c, i), c.freq, Times(points, Shift(chans, axis, c)), Values(points))
  }

  /**
    The result of exporting and importing: without a header row the first sample
    of every channel is taken for one, and one row alone is only a header.
   */
  function RoundTrip(chans: seq<Channel>, axis: Axis, header: bool): Import {
    var rows := Longest(chans) + if header then 1 else 0;
    if rows == 0 then Rejected(SourceEmpty)
    else if rows == 1 then Imported([])
    else Imported(seq(|chans|, i requires 0 <= i < |chans| =>
                        SeriesBack(chans, axis, i, if header then 0 else 1)))
  }

  // ---- Proofs ----------------------------------------------------------------------

  /** An X cell reads back as its time, in every unit the writer uses. */
  lemma XReadsBack(chans: seq<Channel>, axis: Axis, c: Channel, t: int, x: Mapping)
    requires x.role == (if c.freq then XFrequency else XTime) && x.unit == XUnit(c, axis)
    ensures XIn(XCell(c, t, axis, Origin(chans)), x) == t - Shift(chans, axis, c)
  {
    var d := t - Shift(chans, axis, c);
    assert d as real / 1000000000.0 * 1000000000.0 == d as real;
    assert Trunc(d as real) == d;
  }

  /** The rows from one on give the samples from that one on. */
  lemma {:induction false} SamplesOfRows(
      data: seq<seq<Cell>>, chans: seq<Channel>, axis: Axis, i: nat, x: Mapping, first: nat, last: nat)
    requires AreRows(data, chans, axis, Origin(chans)) && i < |chans| && first <= last <= |data|
    requires x.role == (if chans[i].freq then XFrequency else XTime) && x.unit == XUnit(chans[i], axis)
    ensures var points := Between(chans[i].points, first, last);
            Samples(data[first..last], x, 2 * i, 2 * i + 1)
            == (Times(points, Shift(chans, axis, chans[i])), Values(points))
    decreases last
  {
    var c := chans[i];
    if first < last {
      var r := last - 1;
      var rows := data[first..last];
      SamplesOfRows(data, chans, axis, i, x, first, r);
      assert rows[..|rows| - 1] == data[first..r] && rows[|rows| - 1] == data[r];
      assert IsRow(data[r], chans, axis, Origin(chans), r);
      assert CellsAt(data[r], chans, axis, Origin(chans), r, i);
      if r < |c.points| {
        XReadsBack(chans, axis, c, c.points[r].t, x);
        OneMore(c.points, first, r);
        BackAppend(Between(c.points, first, r), c.points[r], Shift(chans, axis, c));
      } else {
        assert Between(c.points, first, last) == Between(c.points, first, r);
      }
    } else {
      assert data[first..last] == [];
      assert Times([], Shift(chans, axis, c)) == [] && Values([]) == [];
      assert Between(c.points, first, last) == [];
    }
  }

  lemma OneMore(points: seq<Point>, first: nat, r: nat)
    requires first <= r < |points|
    ensures Between(points, first, r + 1) == Between(points, first, r) + [points[r]]
  {
    assert points[first..r + 1] == points[first..r] + [points[r]];
    if first == r { assert points[first..r] == []; }
  }

  /** The points from first to last, as far as there are any. */
  function Between(points: seq<Point>, first: nat, last: nat): seq<Point>
    requires first <= last
  {
    if first >= |points| then [] else points[first..if last < |points| then last else |points|]
  }

  lemma BackAppend(points: seq<Point>, p: Point, shift: int)
    ensures Times(points + [p], shift) == Times(points, shift) + [p.t - shift]
    ensures Values(points + [p]) == Values(points) + [if p.v.None? then 0.0 else p.v.value]
  {
  }

  /** The columns of a profile built from the metadata of these channels. */
  ghost predicate IsProfile(maps: seq<Mapping>, chans: seq<Channel>, axis: Axis) {
    |maps| == 2 * |chans| && forall i | 0 <= i < |chans| :: MappedAt(maps, chans, axis, i)
  }

  /** Each signal points at the column in front of it. */
  ghost predicate MappedAt(maps: seq<Mapping>, chans: seq<Channel>, axis: Axis, i: nat)
    requires i < |chans| && 2 * i + 1 < |maps|
  {
    var c := chans[i];
    && maps[2 * i] == Mapping(Letters(2 * i), if c.freq then XFrequency else XTime, XUnit(c, axis), "", "")
    && maps[2 * i + 1] == Mapping(Letters(2 * i + 1), YSignal, Other, c.name, Letters(2 * i))
  }

  lemma ProfileOfDescription(cols: seq<ColDesc>, maps: seq<Mapping>, chans: seq<Channel>, axis: Axis)
    requires Described(cols, chans, axis)
    requires |maps| == |cols| && forall i | 0 <= i < |cols| :: maps[i] == MappingOf(cols, i)
    ensures IsProfile(maps, chans, axis)
  {
    forall i | 0 <= i < |chans|
      ensures MappedAt(maps, chans, axis, i)
    {
      assert DescribedAt(cols, chans, axis, i);
      assert maps[2 * i] == MappingOf(cols, 2 * i) && maps[2 * i + 1] == MappingOf(cols, 2 * i + 1);
    }
  }

  /** Two more columns, an X and its signal. */
  lemma PairStep(a: Alphabet, maps: seq<Mapping>, chans: seq<Channel>, axis: Axis, k: nat)
    requires a.Sound() && IsProfile(maps, chans, axis) && k < |chans|
    ensures XTable(a, maps[..2 * (k + 1)]) == XTable(a, maps[..2 * k])[Letters(2 * k) := maps[2 * k]]
    ensures YColumns(a, maps[..2 * (k + 1)]) == YColumns(a, maps[..2 * k]) + [maps[2 * k + 1]]
  {
    hide Letters, Column;
    assert MappedAt(maps, chans, axis, k);
    ColumnOfLetters(a, 2 * k);
    ColumnOfLetters(a, 2 * k + 1);
    var both, one := maps[..2 * k + 2], maps[..2 * k + 1];
    assert both[..|both| - 1] == one && one[..|one| - 1] == maps[..2 * k];
    assert both[|both| - 1] == maps[2 * k + 1] && one[|one| - 1] == maps[2 * k];
  }

  /** An X column stays in the table under its own letters, for no other column has them. */
  lemma {:induction false} XColumnFound(
      a: Alphabet, maps: seq<Mapping>, chans: seq<Channel>, axis: Axis, n: nat, i: nat)
    requires a.Sound() && IsProfile(maps, chans, axis) && i < n <= |chans|
    ensures var table := XTable(a, maps[..2 * n]); Letters(2 * i) in table && table[Letters(2 * i)] == maps[2 * i]
  {
    hide Letters, Column, XTable, IsProfile, YColumns;
    var k := n - 1;
    PairStep(a, maps, chans, axis, k);
    ColumnOfLetters(a, 2 * k);
    ColumnOfLetters(a, 2 * i);
    if i < k { XColumnFound(a, maps, chans, axis, k, i); }
  }

  lemma {:induction false} SignalsFound(
      a: Alphabet, maps: seq<Mapping>, chans: seq<Channel>, axis: Axis, n: nat)
    requires a.Sound() && IsProfile(maps, chans, axis) && n <= |chans|
    ensures var ys := YColumns(a, maps[..2 * n]);
            |ys| == n && forall i | 0 <= i < n :: ys[i] == maps[2 * i + 1]
  {
    hide Letters, Column, XTable, IsProfile;
    if n > 0 {
      PairStep(a, maps, chans, axis, n - 1);
      SignalsFound(a, maps, chans, axis, n - 1);
    }
  }

  /** Each signal of the profile is read against its own X column. */
  lemma EachFindsItsX(a: Alphabet, maps: seq<Mapping>, chans: seq<Channel>, axis: Axis, i: nat)
    requires a.Sound() && IsProfile(maps, chans, axis) && i < |chans|
    ensures var ys := YColumns(a, maps);
            && |ys| == |chans| && ys[i] == maps[2 * i + 1] && ys[i].xSource != ""
            && XLabelOf(a, maps, ys[i]) in XTable(a, maps)
            && XTable(a, maps)[XLabelOf(a, maps, ys[i])] == maps[2 * i]
            && Column(a, maps[2 * i].id) == 2 * i && Column(a, maps[2 * i + 1].id) == 2 * i + 1
  {
    hide Letters, Column, XTable, YColumns;
    assert maps[..2 * |chans|] == maps;
    SignalsFound(a, maps, chans, axis, |chans|);
    XColumnFound(a, maps, chans, axis, |chans|, i);
    assert MappedAt(maps, chans, axis, i);
    ColumnOfLetters(a, 2 * i);
    ColumnOfLetters(a, 2 * i + 1);
  }

  /** The series imported for channel i. */
  lemma SeriesComesBack(
      a: Alphabet, rows: seq<seq<Cell>>, maps: seq<Mapping>, chans: seq<Channel>, axis: Axis, header: bool,
      i: nat, s: Series)
    requires a.Sound() && IsProfile(maps, chans, axis) && IsGrid(rows, chans, axis, header)
    requires i < |chans| && |rows| > 1 && |YColumns(a, maps)| == |chans|
    requires IsSeriesOf(a, rows[1..], maps, YColumns(a, maps)[i], s)
    ensures s == SeriesBack(chans, axis, i, if header then 0 else 1)
  {
    hide Letters, Column, XTable, YColumns, Samples;
    EachFindsItsX(a, maps, chans, axis, i);
    assert MappedAt(maps, chans, axis, i);
    var h := if header then 1 else 0;
    var data, dropped := rows[h..], 1 - h;
    assert rows[1..] == data[dropped..|data|];
    SamplesOfRows(data, chans, axis, i, maps[2 * i], dropped, |data|);
    var c := chans[i];
    assert c in chans && |c.points| <= |data|;
    assert Between(c.points, dropped, |data|) == if dropped <= |c.points| then c.points[dropped..] else [];
  }

  /** Writing the grid, building the profile and importing; no channels, no file. */
  method ExportThenImport(a: Alphabet, chans: seq<Channel>, axis: Axis, header: bool) returns (r: Option<Import>)
    requires a.Sound()
    ensures r == if chans == [] then None else Some(RoundTrip(chans, axis, header))
  {
    if chans == [] { return None; }
    var cols := Describe(chans, axis);
    var rows := WriteRows(chans, axis, header);
    var maps := ProfileFromColumns(cols);
    var back := Apply(a, rows, 1, maps);
    ProfileOfDescription(cols, maps, chans, axis);
    ImportIsRoundTrip(a, rows, maps, chans, axis, header, back);
    return Some(back);
  }

  lemma ImportIsRoundTrip(
      a: Alphabet, rows: seq<seq<Cell>>, maps: seq<Mapping>, chans: seq<Channel>, axis: Axis, header: bool, r: Import)
    requires a.Sound() && chans != []
    requires IsProfile(maps, chans, axis) && IsGrid(rows, chans, axis, header) && Gives(a, rows, 1, maps, r)
    ensures r == RoundTrip(chans, axis, header)
  {
    hide Letters, Column, XTable, YColumns, Samples, XLabelOf, HasRole, IsSeriesOf, SeriesBack;
    var ys := YColumns(a, maps);
    EachFindsItsX(a, maps, chans, axis, 0);
    forall y | y in ys
      ensures y.xSource != "" && XLabelOf(a, maps, y) in XTable(a, maps)
    {
      var i :| 0 <= i < |ys| && ys[i] == y;
      EachFindsItsX(a, maps, chans, axis, i);
    }
    if |rows| > 1 {
      forall i | 0 <= i < |chans|
        ensures r.series[i] == SeriesBack(chans, axis, i, if header then 0 else 1)
      {
        SeriesComesBack(a, rows, maps, chans, axis, header, i, r.series[i]);
      }
    }
  }

  /** The samples of a channel, as they were. */
  ghost predicate Restores(s: Series, c: Channel) {
    && s.freq == c.freq && |s.ts| == |s.vs| == |c.points|
    && forall k | 0 <= k < |c.points| :: c.points[k] == Point(s.ts[k], Some(s.vs[k]))
  }

  /**
    With absolute times the round trip restores every channel sample for sample
    exactly when a header row was written, there is a sample at all, and every
    value is a number.
   */
  lemma RestoresExactly(chans: seq<Channel>, header: bool)
    requires chans != []
    ensures var r := RoundTrip(chans, EpochNs, header);
            (r.Imported? && |r.series| == |chans| && forall i | 0 <= i < |chans| :: Restores(r.series[i], chans[i]))
            <==> header && Longest(chans) > 0
                 && forall i, k | 0 <= i < |chans| && 0 <= k < |chans[i].points| :: chans[i].points[k].v.Some?
  {
    hide Letters;
    var r := RoundTrip(chans, EpochNs, header);
    if header && Longest(chans) > 0 {
      forall i | 0 <= i < |chans|
        ensures Restores(r.series[i], chans[i])
                <==> forall k | 0 <= k < |chans[i].points| :: chans[i].points[k].v.Some?
      {
        assert r.series[i] == SeriesBack(chans, EpochNs, i, 0);
      }
    } else if Longest(chans) > 0 {
      var c :| c in chans && |c.points| == Longest(chans);
      var i :| 0 <= i < |chans| && chans[i] == c;
      assert Longest(chans) > 1 ==> r.series[i] == SeriesBack(chans, EpochNs, i, 1);
    }
  }
}
