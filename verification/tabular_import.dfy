/**
  Reading a grid of cells into series under a column profile: which column is
  whose X axis, and which rows give a sample.
 */
module TabularImport {
  import opened ColumnLetters

  /** What a cell's text amounts to: nothing, an integer literal, another number, or no number. */
  datatype Cell = Blank | Int(n: int) | Dec(x: real) | Text(s: string)

  datatype Unit = Ns | Us | Ms | KHz | MHz | Hz | Other

  datatype Role = Ignore | XTime | XFrequency | YSignal

  datatype Mapping = Mapping(id: string, role: Role, unit: Unit, name: string, xSource: string)
  {
    predicate IsX() { role == XTime || role == XFrequency }
  }

  datatype Series = Series(name: string, freq: bool, ts: seq<int>, vs: seq<real>)

  datatype Import = Rejected(why: Reason) | Imported(series: seq<Series>)

  datatype Reason = SourceEmpty | NoSignals | MustPinX | UnknownX | NoX

  // ---- Cells -----------------------------------------------------------------

  /** A cast to an integer: towards zero. */
  function Trunc(x: real): int { if x >= 0.0 then x.Floor else -(-x).Floor }

  function NumberIn(c: Cell): real {
    match c
    case Blank => 0.0
    case Int(n) => n as real
    case Dec(x) => x
    case Text(_) => 0.0
  }

  function TimeIn(c: Cell, unit: Unit): int {
    if unit == Ns && c.Int? then c.n
    else
      var v := NumberIn(c);
      match unit
      case Ms => Trunc(v * 1000000.0)
      case Us => Trunc(v * 1000.0)
      case Ns => Trunc(v)
      case _ => Trunc(v * 1000000000.0)
  }

  function FrequencyIn(c: Cell, unit: Unit): int {
    var v := NumberIn(c);
    match unit
    case KHz => Trunc(v * 1000000000000.0)
    case MHz => Trunc(v * 1000000000000000.0)
    case _ => Trunc(v * 1000000000.0)
  }

  function XIn(c: Cell, x: Mapping): int {
    if x.role == XFrequency then FrequencyIn(c, x.unit) else TimeIn(c, x.unit)
  }

  /** Casting gives the nearest whole number towards zero. */
  lemma TruncIsTowardsZero(x: real)
    ensures if x >= 0.0 then x - 1.0 < Trunc(x) as real <= x else x <= Trunc(x) as real < x + 1.0
  {
  }

  /** The same moment, or frequency, in any unit is the same position; a bare number of nanoseconds is its own. */
  lemma UnitsAgree(x: real, n: int)
    ensures TimeIn(Dec(x), Other) == TimeIn(Dec(x * 1000.0), Ms)
    ensures TimeIn(Dec(x), Ms) == TimeIn(Dec(x * 1000.0), Us)
    ensures TimeIn(Dec(x), Us) == TimeIn(Dec(x * 1000.0), Ns)
    ensures FrequencyIn(Dec(x), MHz) == FrequencyIn(Dec(x * 1000.0), KHz)
    ensures FrequencyIn(Dec(x), KHz) == FrequencyIn(Dec(x * 1000.0), Hz)
    ensures TimeIn(Int(n), Ns) == TimeIn(Dec(n as real), Ns) == n
  {
    assert x * 1000.0 * 1000000.0 == x * 1000000000.0 && x * 1000.0 * 1000.0 == x * 1000000.0;
    assert x * 1000.0 * 1000000000.0 == x * 1000000000000.0;
    assert x * 1000.0 * 1000000000000.0 == x * 1000000000000000.0;
  }

  // ---- Rows ------------------------------------------------------------------

  /** A row has a sample when it reaches both columns and its X cell is not blank. */
  predicate HasSample(row: seq<Cell>, xCol: nat, yCol: nat) {
    yCol < |row| && xCol < |row| && row[xCol] != Blank
  }

  function Samples(rows: seq<seq<Cell>>, x: Mapping, xCol: nat, yCol: nat): (r: (seq<int>, seq<real>))
    ensures |r.0| == |r.1|
  {
    if rows == [] then ([], [])
    else
      var row, (ts, vs) := rows[|rows| - 1], Samples(rows[..|rows| - 1], x, xCol, yCol);
      if HasSample(row, xCol, yCol) then (ts + [XIn(row[xCol], x)], vs + [NumberIn(row[yCol])]) else (ts, vs)
  }

  method ReadRows(rows: seq<seq<Cell>>, lo: nat, hi: int, x: Mapping, xCol: nat, yCol: nat)
      returns (ts: seq<int>, vs: seq<real>)
    requires lo <= hi < |rows|
    ensures (ts, vs) == Samples(rows[lo..hi + 1], x, xCol, yCol)
  {
    ts, vs := [], [];
    assert rows[lo..lo] == [];
    for r := lo to hi + 1
      invariant (ts, vs) == Samples(rows[lo..r], x, xCol, yCol)
    {
      var row := rows[r];
      assert rows[lo..r + 1][..r - lo] == rows[lo..r];
      if yCol >= |row| || xCol >= |row| { continue; }
      if row[xCol] == Blank { continue; }
      ts, vs := ts + [XIn(row[xCol], x)], vs + [NumberIn(row[yCol])];
    }
  }

  // ---- Columns ---------------------------------------------------------------

  /** The X columns by their letters; a later one of the same letters wins. */
  function XTable(a: Alphabet, cols: seq<Mapping>): map<string, Mapping> {
    if cols == [] then map[]
    else
      var table, c := XTable(a, cols[..|cols| - 1]), cols[|cols| - 1];
      if Column(a, c.id) >= 0 && c.IsX() then table[c.id := c] else table
  }

  function FirstX(a: Alphabet, cols: seq<Mapping>): string {
    if cols == [] then ""
    else
      var first, c := FirstX(a, cols[..|cols| - 1]), cols[|cols| - 1];
      if first == "" && Column(a, c.id) >= 0 && c.IsX() then c.id else first
  }

  function YColumns(a: Alphabet, cols: seq<Mapping>): (ys: seq<Mapping>)
    ensures forall y | y in ys :: Column(a, y.id) >= 0
  {
    if cols == [] then []
    else
      var ys, c := YColumns(a, cols[..|cols| - 1]), cols[|cols| - 1];
      if Column(a, c.id) >= 0 && c.role == YSignal then ys + [c] else ys
  }

  function HasRole(a: Alphabet, cols: seq<Mapping>, role: Role): bool {
    exists c | c in cols :: Column(a, c.id) >= 0 && c.role == role
  }

  /** The X column of a signal: the one it names, or else the first there is. */
  function XLabelOf(a: Alphabet, cols: seq<Mapping>, y: Mapping): string {
    if y.xSource != "" then y.xSource else FirstX(a, cols)
  }

  function NameOf(y: Mapping, yCol: nat): string {
    if y.name == "" then "Col" + Letters(yCol) else y.name
  }

  function SeriesOf(a: Alphabet, rows: seq<seq<Cell>>, x: Mapping, y: Mapping): Series
    requires Column(a, y.id) >= 0 && Column(a, x.id) >= 0
  {
    var yCol := Column(a, y.id);
    var (ts, vs) := Samples(rows, x, Column(a, x.id), yCol);
    Series(NameOf(y, yCol), x.role == XFrequency, ts, vs)
  }

  lemma {:induction false} TableColumns(a: Alphabet, cols: seq<Mapping>)
    ensures var table := XTable(a, cols);
            forall id | id in table :: table[id].id == id && Column(a, id) >= 0 && table[id].IsX()
  {
    if cols != [] { TableColumns(a, cols[..|cols| - 1]); }
  }

  /** A column that can be a signal's X axis. */
  ghost predicate Usable(a: Alphabet, c: Mapping) {
    Column(a, c.id) >= 0 && c.IsX()
  }

  lemma {:induction false} FirstXIsFirst(a: Alphabet, cols: seq<Mapping>)
    ensures FirstX(a, cols) == "" <==> forall c | c in cols :: !Usable(a, c)
    ensures FirstX(a, cols) != "" ==> exists k ::
              0 <= k < |cols| && Usable(a, cols[k]) && cols[k].id == FirstX(a, cols)
              && forall j | 0 <= j < k :: !Usable(a, cols[j])
  {
    hide Column;
    if cols != [] {
      var n := |cols| - 1;
      FirstXIsFirst(a, cols[..n]);
      assert cols == cols[..n] + [cols[n]];
      EmptyLabel(a);
      if FirstX(a, cols[..n]) == "" {
        assert forall j | 0 <= j < n :: cols[j] in cols[..n];
        assert Usable(a, cols[n]) ==> FirstX(a, cols) == cols[n].id != "";
      } else {
        var k :| 0 <= k < n && Usable(a, cols[..n][k]) && cols[..n][k].id == FirstX(a, cols[..n])
                 && forall j | 0 <= j < k :: !Usable(a, cols[..n][j]);
        assert forall j | 0 <= j < k :: cols[j] == cols[..n][j];
        assert Usable(a, cols[k]) && cols[k] in cols;
      }
    }
  }

  lemma EmptyLabel(a: Alphabet)
    ensures Column(a, "") < 0
  {
  }

  /** Of several X columns with the same letters the last one counts. */
  lemma {:induction false} TableHasLast(a: Alphabet, cols: seq<Mapping>, id: string)
    ensures id in XTable(a, cols) <==> exists c :: c in cols && Usable(a, c) && c.id == id
    ensures id in XTable(a, cols) ==> exists k ::
              0 <= k < |cols| && Usable(a, cols[k]) && cols[k] == XTable(a, cols)[id] && cols[k].id == id
              && forall j | k < j < |cols| :: !(Usable(a, cols[j]) && cols[j].id == id)
  {
    hide Column;
    if cols != [] {
      var n := |cols| - 1;
      TableHasLast(a, cols[..n], id);
      assert cols == cols[..n] + [cols[n]];
      if Usable(a, cols[n]) && cols[n].id == id {
        assert cols[n] == XTable(a, cols)[id];
      }
    }
  }

  /** The signals are the columns of that role with a label, in their order. */
  lemma {:induction false} SignalsInOrder(a: Alphabet, cols: seq<Mapping>) returns (from: seq<nat>)
    ensures |from| == |YColumns(a, cols)| && forall j, k | 0 <= j < k < |from| :: from[j] < from[k]
    ensures forall k | 0 <= k < |from| :: from[k] < |cols| && cols[from[k]] == YColumns(a, cols)[k]
    ensures forall i: nat | i < |cols| :: i in from <==> Column(a, cols[i].id) >= 0 && cols[i].role == YSignal
  {
    hide Column;
    from := [];
    if cols != [] {
      var n := |cols| - 1;
      from := SignalsInOrder(a, cols[..n]);
      assert forall i: nat | i < n :: cols[..n][i] == cols[i];
      if Column(a, cols[n].id) >= 0 && cols[n].role == YSignal { from := from + [n]; }
    }
  }

  /** What an import gives, or why it is refused. */
  ghost predicate Gives(a: Alphabet, rows: seq<seq<Cell>>, headerRow: int, cols: seq<Mapping>, r: Import) {
    var ys := YColumns(a, cols);
    var lo := if headerRow > 0 then headerRow else 0;
    if rows == [] then r == Rejected(SourceEmpty)
    else if ys == [] then r == Rejected(NoSignals)
    else if HasRole(a, cols, XTime) && HasRole(a, cols, XFrequency) && exists y | y in ys :: y.xSource == ""
      then r == Rejected(MustPinX)
    else if lo >= |rows| then r == Imported([])
    else if forall y | y in ys :: XLabelOf(a, cols, y) in XTable(a, cols) then
      r.Imported? && |r.series| == |ys| && forall k | 0 <= k < |ys| ::
        IsSeriesOf(a, rows[lo..], cols, ys[k], r.series[k])
    else exists k :: 0 <= k < |ys| && FirstUnresolved(a, cols, ys, k, r)
  }

  /** The first signal without an X column decides the refusal. */
  ghost predicate FirstUnresolved(a: Alphabet, cols: seq<Mapping>, ys: seq<Mapping>, k: nat, r: Import)
    requires k < |ys|
  {
    var table, xLabel := XTable(a, cols), XLabelOf(a, cols, ys[k]);
    && (forall y | y in ys[..k] :: XLabelOf(a, cols, y) in table)
    && xLabel !in table && r == Rejected(if xLabel == "" then NoX else UnknownX)
  }

  ghost predicate IsSeriesOf(a: Alphabet, rows: seq<seq<Cell>>, cols: seq<Mapping>, y: Mapping, s: Series) {
    var table, xLabel := XTable(a, cols), XLabelOf(a, cols, y);
    && xLabel in table && Column(a, table[xLabel].id) >= 0 && Column(a, y.id) >= 0
    && s == SeriesOf(a, rows, table[xLabel], y)
  }

  method Apply(a: Alphabet, rows: seq<seq<Cell>>, headerRow: int, cols: seq<Mapping>) returns (r: Import)
    ensures Gives(a, rows, headerRow, cols, r)
  {
    hide XTable, FirstX, YColumns, HasRole, SeriesOf;
    if rows == [] { return Rejected(SourceEmpty); }
    var table, firstX, haveTimeX, haveFreqX, ySpecs := IndexColumns(a, cols);
    if ySpecs == [] { return Rejected(NoSignals); }
    if haveTimeX && haveFreqX {
      for k := 0 to |ySpecs|
        invariant forall y | y in ySpecs[..k] :: y.xSource != ""
      {
        if ySpecs[k].xSource == "" { assert ySpecs[k] in ySpecs; return Rejected(MustPinX); }
      }
    }
    r := ReadAll(a, rows, headerRow, cols, table, firstX, ySpecs);
  }

  method IndexColumns(a: Alphabet, cols: seq<Mapping>)
      returns (table: map<string, Mapping>, firstX: string, haveTimeX: bool, haveFreqX: bool, ySpecs: seq<Mapping>)
    ensures table == XTable(a, cols) && firstX == FirstX(a, cols) && ySpecs == YColumns(a, cols)
    ensures haveTimeX == HasRole(a, cols, XTime) && haveFreqX == HasRole(a, cols, XFrequency)
  {
    hide Column;
    table, firstX, haveTimeX, haveFreqX, ySpecs := map[], "", false, false, [];
    for i := 0 to |cols|
      invariant table == XTable(a, cols[..i]) && firstX == FirstX(a, cols[..i]) && ySpecs == YColumns(a, cols[..i])
      invariant haveTimeX == HasRole(a, cols[..i], XTime) && haveFreqX == HasRole(a, cols[..i], XFrequency)
    {
      var c := cols[i];
      assert cols[..i + 1][..i] == cols[..i] && cols[..i + 1] == cols[..i] + [c];
      var col := LabelToCol(a, c.id);
      if col < 0 { continue; }
      if c.IsX() {
        table := table[c.id := c];
        if firstX == "" { firstX := c.id; }
        haveTimeX := haveTimeX || c.role == XTime;
        haveFreqX := haveFreqX || c.role == XFrequency;
      }
      if c.role == YSignal { ySpecs := ySpecs + [c]; }
    }
    assert cols[..|cols|] == cols;
  }

  method ReadAll(
      a: Alphabet, rows: seq<seq<Cell>>, headerRow: int, cols: seq<Mapping>,
      table: map<string, Mapping>, firstX: string, ySpecs: seq<Mapping>) returns (r: Import)
    requires rows != [] && table == XTable(a, cols) && firstX == FirstX(a, cols) && ySpecs == YColumns(a, cols)
    ensures var lo := if headerRow > 0 then headerRow else 0;
            if lo >= |rows| then r == Imported([])
            else if forall y | y in ySpecs :: XLabelOf(a, cols, y) in table then
              r.Imported? && |r.series| == |ySpecs| && forall k | 0 <= k < |ySpecs| ::
                IsSeriesOf(a, rows[lo..], cols, ySpecs[k], r.series[k])
            else exists k :: 0 <= k < |ySpecs| && FirstUnresolved(a, cols, ySpecs, k, r)
  {
    hide Samples, YColumns, FirstX, XTable, Letters, Column;
    var lo, hi := if headerRow > 0 then headerRow else 0, |rows| - 1;
    var out: seq<Series> := [];
    TableColumns(a, cols);
    for k := 0 to |ySpecs|
      invariant lo > hi ==> out == []
      invariant lo <= hi ==> forall y | y in ySpecs[..k] :: XLabelOf(a, cols, y) in table
      invariant lo <= hi ==> |out| == k && forall j | 0 <= j < k ::
                  IsSeriesOf(a, rows[lo..], cols, ySpecs[j], out[j])
    {
      if lo > hi { continue; }
      var y := ySpecs[k];
      assert y in ySpecs;
      var yCol := LabelToCol(a, y.id);
      var xLabel := if y.xSource != "" then y.xSource else firstX;
      NoEmptyLabel(a, cols);
      if xLabel == "" || xLabel !in table {
        r := Rejected(if xLabel == "" then NoX else UnknownX);
        assert FirstUnresolved(a, cols, ySpecs, k, r);
        return;
      }
      var x := table[xLabel];
      var xCol := LabelToCol(a, x.id);
      assert rows[lo..hi + 1] == rows[lo..];
      var ts, vs := ReadRows(rows, lo, hi, x, xCol, yCol);
      var name := y.name;
      if name == "" {
        var letters := ColumnLetter(yCol);
        name := "Col" + letters;
      }
      out := out + [Series(name, x.role == XFrequency, ts, vs)];
    }
    return Imported(out);
  }

  /** No X column goes by the empty label. */
  lemma {:induction false} NoEmptyLabel(a: Alphabet, cols: seq<Mapping>)
    ensures "" !in XTable(a, cols)
  {
    if cols != [] { NoEmptyLabel(a, cols[..|cols| - 1]); }
  }
}
