/**
  The data island of the storable HTML export: channels merged onto one grid
  and emitted as columns, then read back by the loader.
 */
module HtmlIsland {
  import opened Orders
  import opened Sorting
  import opened MergeGrid

  /** A JSON cell: a number, or null for "no sample here" and for NaN and infinities. */
  datatype Cell = Null | Num(x: real)

  datatype Sample = Sample(t: int, v: Cell)

  function TimeOf(s: Sample): int {
    s.t
  }

  function Times(s: seq<Sample>): (ts: seq<int>)
    ensures |ts| == |s|
  {
    seq(|s|, i requires 0 <= i < |s| => s[i].t)
  }

  /** The samples that have a number to show. */
  function Present(s: seq<Sample>): seq<Sample> {
    if s == [] then []
    else if s[0].v == Null then Present(s[1..])
    else [s[0]] + Present(s[1..])
  }

  lemma TimesOrdered(s: seq<Sample>)
    requires SortedBy(TimeOf, s)
    ensures Ordered(Times(s))
  {
    forall i, j | 0 <= i < j < |s|
      ensures s[i].t <= s[j].t
    {
      assert TimeOf(s[i]) <= TimeOf(s[j]);
    }
  }

  // ---------- reading a column back ----------

  /** What the loader keeps of a column: its non-null cells with their grid times. */
  function Loaded(ts: seq<int>, col: seq<Cell>): seq<Sample>
    requires |ts| == |col|
  {
    if ts == [] then []
    else if col[0] == Null then Loaded(ts[1..], col[1..])
    else [Sample(ts[0], col[0])] + Loaded(ts[1..], col[1..])
  }

  lemma {:induction false} LoadedAppend(ts: seq<int>, col: seq<Cell>, t: int, v: Cell)
    requires |ts| == |col|
    ensures Loaded(ts + [t], col + [v]) == Loaded(ts, col) + if v == Null then [] else [Sample(t, v)]
  {
    if ts == [] {
      assert [t][1..] == [] && [v][1..] == [];
    } else {
      LoadedAppend(ts[1..], col[1..], t, v);
      assert (ts + [t])[1..] == ts[1..] + [t] && (col + [v])[1..] == col[1..] + [v];
    }
  }

  lemma {:induction false} PresentAppend(s: seq<Sample>, x: Sample)
    ensures Present(s + [x]) == Present(s) + if x.v == Null then [] else [x]
  {
    if s == [] {
      assert [x][1..] == [];
    } else {
      PresentAppend(s[1..], x);
      assert (s + [x])[1..] == s[1..] + [x];
    }
  }

  method LoadColumn(ts: seq<int>, col: seq<Cell>) returns (samples: seq<Sample>)
    ensures var n := if |ts| < |col| then |ts| else |col|;
            samples == Loaded(ts[..n], col[..n])
  {
    var n := if |ts| < |col| then |ts| else |col|;
    samples := [];
    for i := 0 to n
      invariant samples == Loaded(ts[..i], col[..i])
    {
      LoadedAppend(ts[..i], col[..i], ts[i], col[i]);
      assert ts[..i + 1] == ts[..i] + [ts[i]] && col[..i + 1] == col[..i] + [col[i]];
      if col[i] != Null {
        samples := samples + [Sample(ts[i], col[i])];
      }
    }
  }

  // ---------- one channel prepared for the merge ----------

  class MergeSrc {
    const samples: seq<Sample>
    var cursor: nat

    /** Takes the channel's samples in timestamp order, repeats kept. */
    constructor (raw: seq<Sample>)
      ensures cursor == 0
      ensures samples == SortBy(TimeOf, raw)
    {
      SortedIsFixed(raw);
      samples := if IsSorted(raw) then raw else SortBy(TimeOf, raw);
      cursor := 0;
    }

    /** Walks the grid, emitting the sample under the cursor wherever its time comes up. */
    method EmitColumn(grid: seq<int>) returns (col: seq<Cell>)
      requires cursor == 0 && SortedBy(TimeOf, samples)
      requires Ordered(grid) && multiset(Times(samples)) <= multiset(grid)
      modifies this`cursor
      ensures cursor == |samples|
      ensures |col| == |grid| && Loaded(grid, col) == Present(samples)
      ensures Placed(samples, grid, col)
    {
      hide *;
      col := [];
      ghost var pos: seq<nat> := [];
      EmitStart(samples, grid);
      for i := 0 to |grid|
        invariant Emitted(samples, cursor, grid, i, col, pos)
      {
        EmitStep(samples, cursor, grid, i, col, pos);
        if cursor < |samples| && samples[cursor].t == grid[i] {
          col := col + [samples[cursor].v];
          pos := pos + [i];
          cursor := cursor + 1;
        } else {
          col := col + [Null];
        }
      }
      EmitEnd(samples, cursor, grid, col, pos);
      PlacedBy(samples, grid, pos, col);
    }
  }

  /** Where the samples stand in a column: at these positions, each as early as it can, and null elsewhere. */
  ghost predicate PlacedAt(samples: seq<Sample>, grid: seq<int>, pos: seq<nat>, col: seq<Cell>) {
    EmbedsAt(Times(samples), grid, pos) && IsColumn(samples, grid, pos, col) && Earliest(samples, grid, pos)
  }

  ghost predicate Placed(samples: seq<Sample>, grid: seq<int>, col: seq<Cell>) {
    exists pos: seq<nat> :: PlacedAt(samples, grid, pos, col)
  }

  lemma PlacedBy(samples: seq<Sample>, grid: seq<int>, pos: seq<nat>, col: seq<Cell>)
    requires EmbedsAt(Times(samples), grid, pos) && IsColumn(samples, grid, pos, col) && Earliest(samples, grid, pos)
    ensures Placed(samples, grid, col)
  {
    assert PlacedAt(samples, grid, pos, col);
  }

  /** What holds once the first i grid points are written and c samples are used up. */
  ghost predicate Emitted(samples: seq<Sample>, c: nat, grid: seq<int>, i: nat, col: seq<Cell>, pos: seq<nat>) {
    && SortedBy(TimeOf, samples) && Ordered(grid)
    && c <= |samples| && i <= |grid| && |col| == i
    && multiset(Times(samples)[c..]) <= multiset(grid[i..])
    && Loaded(grid[..i], col) == Present(samples[..c])
    && EmittedPlaces(samples, c, grid, i, col, pos)
    && EmittedEarly(samples, c, grid, i, pos)
  }

  ghost predicate EmittedPlaces(samples: seq<Sample>, c: nat, grid: seq<int>, i: nat, col: seq<Cell>, pos: seq<nat>) {
    && c <= |samples| && i <= |grid|
    && EmbedsAt(Times(samples)[..c], grid[..i], pos)
    && IsColumn(samples[..c], grid[..i], pos, col)
  }

  lemma PlacesStep(samples: seq<Sample>, c: nat, grid: seq<int>, i: nat, col: seq<Cell>, pos: seq<nat>)
    requires EmittedPlaces(samples, c, grid, i, col, pos) && i < |grid|
    ensures if c < |samples| && samples[c].t == grid[i]
            then EmittedPlaces(samples, c + 1, grid, i + 1, col + [samples[c].v], pos + [i])
            else EmittedPlaces(samples, c, grid, i + 1, col + [Null], pos)
  {}

  ghost predicate EmittedEarly(samples: seq<Sample>, c: nat, grid: seq<int>, i: nat, pos: seq<nat>) {
    && c <= |samples| && i <= |grid| && (forall k | 0 <= k < |pos| :: pos[k] < i)
    && Earliest(samples[..c], grid[..i], pos)
    && (c < |samples| ==> FreeBetween(grid, After(pos), i, samples[c].t))
  }

  lemma EarlyStep(samples: seq<Sample>, c: nat, grid: seq<int>, i: nat, pos: seq<nat>)
    requires EmittedEarly(samples, c, grid, i, pos) && i < |grid|
    ensures if c < |samples| && samples[c].t == grid[i]
            then EmittedEarly(samples, c + 1, grid, i + 1, pos + [i])
            else EmittedEarly(samples, c, grid, i + 1, pos)
  {
    hide Earliest;
    if c < |samples| && samples[c].t == grid[i] {
      EarliestStep(samples, c, grid, i, pos);
    } else {
      EarliestWider(samples[..c], grid[..i], grid[..i + 1], pos);
    }
  }

  /** The first grid index behind those already used. */
  ghost function After(pos: seq<nat>): nat {
    if pos == [] then 0 else pos[|pos| - 1] + 1
  }

  /** Every sample stands at the first grid point of its time that was still free for it. */
  ghost predicate Earliest(samples: seq<Sample>, grid: seq<int>, pos: seq<nat>) {
    && |pos| == |samples|
    && forall i | 0 <= i < |pos| :: FreeBetween(grid, After(pos[..i]), pos[i], samples[i].t)
  }

  /** Time t does not come up on the grid from index lo until before index hi. */
  ghost predicate FreeBetween(grid: seq<int>, lo: nat, hi: nat, t: int) {
    forall p | lo <= p < hi && p < |grid| :: grid[p] != t
  }

  lemma EmitStart(samples: seq<Sample>, grid: seq<int>)
    requires SortedBy(TimeOf, samples) && Ordered(grid) && multiset(Times(samples)) <= multiset(grid)
    ensures Emitted(samples, 0, grid, 0, [], [])
  {
    assert Times(samples)[0..] == Times(samples) && grid[0..] == grid;
    assert grid[..0] == [];
  }

  lemma EmitStep(samples: seq<Sample>, c: nat, grid: seq<int>, i: nat, col: seq<Cell>, pos: seq<nat>)
    requires Emitted(samples, c, grid, i, col, pos) && i < |grid|
    ensures c <= |samples|
    ensures if c < |samples| && samples[c].t == grid[i]
            then Emitted(samples, c + 1, grid, i + 1, col + [samples[c].v], pos + [i])
            else Emitted(samples, c, grid, i + 1, col + [Null], pos)
  {
    hide EmittedEarly, EmittedPlaces;
    EarlyStep(samples, c, grid, i, pos);
    PlacesStep(samples, c, grid, i, col, pos);
    TimesOrdered(samples);
    NextSample(Times(samples), c, grid, i);
    assert grid[..i + 1] == grid[..i] + [grid[i]];
    if c < |samples| && samples[c].t == grid[i] {
      LoadedAppend(grid[..i], col, grid[i], samples[c].v);
      PresentAppend(samples[..c], samples[c]);
      assert samples[..c + 1] == samples[..c] + [samples[c]];
    } else {
      LoadedAppend(grid[..i], col, grid[i], Null);
    }
  }

  lemma EarliestWider(samples: seq<Sample>, g: seq<int>, h: seq<int>, pos: seq<nat>)
    requires Earliest(samples, g, pos) && g <= h && forall k | 0 <= k < |pos| :: pos[k] < |g|
    ensures Earliest(samples, h, pos)
  {
    forall i | 0 <= i < |pos|
      ensures FreeBetween(h, After(pos[..i]), pos[i], samples[i].t)
    {
      assert FreeBetween(g, After(pos[..i]), pos[i], samples[i].t);
    }
  }

  lemma EarliestStep(samples: seq<Sample>, c: nat, grid: seq<int>, i: nat, pos: seq<nat>)
    requires c < |samples| && i < |grid| && Earliest(samples[..c], grid[..i], pos)
    requires forall k | 0 <= k < |pos| :: pos[k] < i
    requires FreeBetween(grid, After(pos), i, samples[c].t)
    ensures Earliest(samples[..c + 1], grid[..i + 1], pos + [i])
  {
    var next := pos + [i];
    EarliestWider(samples[..c], grid[..i], grid[..i + 1], pos);
    forall k | 0 <= k < |next|
      ensures FreeBetween(grid[..i + 1], After(next[..k]), next[k], samples[..c + 1][k].t)
    {
      if k < |pos| {
        assert next[..k] == pos[..k];
        assert FreeBetween(grid[..i + 1], After(pos[..k]), pos[k], samples[..c][k].t);
      } else {
        assert next[..k] == pos;
      }
    }
  }

  lemma EmitEnd(samples: seq<Sample>, c: nat, grid: seq<int>, col: seq<Cell>, pos: seq<nat>)
    requires Emitted(samples, c, grid, |grid|, col, pos)
    ensures c == |samples| && |col| == |grid| && Loaded(grid, col) == Present(samples)
    ensures EmbedsAt(Times(samples), grid, pos) && IsColumn(samples, grid, pos, col) && Earliest(samples, grid, pos)
  {
    var rest := Times(samples)[c..];
    assert multiset(rest) <= multiset(grid[|grid|..]) == multiset{};
    assert |multiset(rest)| == |rest| == 0;
    assert grid[..|grid|] == grid && samples[..c] == samples && Times(samples)[..c] == Times(samples);
  }

  /** col carries the samples at their grid positions and is null everywhere else. */
  ghost predicate IsColumn(samples: seq<Sample>, grid: seq<int>, pos: seq<nat>, col: seq<Cell>) {
    && |pos| == |samples| && |col| == |grid|
    && (forall k | 0 <= k < |pos| :: pos[k] < |col| && col[pos[k]] == samples[k].v)
    && forall p | 0 <= p < |col| && p !in pos :: col[p] == Null
  }

  /** Why no sample is ever left behind: what remains of the channel still fits what remains of the grid. */
  lemma NextSample(times: seq<int>, c: nat, grid: seq<int>, i: nat)
    requires Ordered(times) && Ordered(grid) && c <= |times| && i < |grid|
    requires multiset(times[c..]) <= multiset(grid[i..])
    ensures c < |times| && times[c] == grid[i] ==> multiset(times[c + 1..]) <= multiset(grid[i + 1..])
    ensures !(c < |times| && times[c] == grid[i]) ==> multiset(times[c..]) <= multiset(grid[i + 1..])
  {
    var g := grid[i..];
    assert g == [grid[i]] + grid[i + 1..];
    if c < |times| {
      var left := times[c..];
      assert left == [times[c]] + times[c + 1..];
      if times[c] == grid[i] {
        DropBoth(grid[i], multiset(times[c + 1..]), multiset(grid[i + 1..]));
      } else {
        TimesAhead(times, c, grid, i);
        DropOther(grid[i], multiset(left), multiset(grid[i + 1..]));
      }
    }
  }

  lemma DropBoth(x: int, a: multiset<int>, b: multiset<int>)
    requires multiset{x} + a <= multiset{x} + b
    ensures a <= b
  {
    forall t | t in a
      ensures a[t] <= b[t]
    {
      assert (multiset{x} + a)[t] <= (multiset{x} + b)[t];
    }
  }

  lemma DropOther(x: int, a: multiset<int>, b: multiset<int>)
    requires x !in a && a <= multiset{x} + b
    ensures a <= b
  {
    forall t | t in a
      ensures a[t] <= b[t]
    {
      assert a[t] <= (multiset{x} + b)[t];
    }
  }

  /** A channel whose next sample is not at this grid point has nothing here at all. */
  lemma TimesAhead(times: seq<int>, c: nat, grid: seq<int>, i: nat)
    requires Ordered(times) && Ordered(grid) && c < |times| && i < |grid|
    requires multiset(times[c..]) <= multiset(grid[i..]) && times[c] != grid[i]
    ensures grid[i] !in multiset(times[c..])
  {
    var left, g := times[c..], grid[i..];
    assert left[0] == times[c] && left[0] in multiset(left);
    assert times[c] in multiset(g);
    var k :| 0 <= k < |g| && g[k] == times[c];
    assert g[k] == grid[i + k];
    forall m | 0 <= m < |left|
      ensures left[m] > grid[i]
    {
      assert left[m] == times[c + m];
    }
  }

  /**
    A channel can be laid onto an ordered grid without loss exactly when the grid
    repeats every timestamp at least as often as the channel does: a grid made
    distinct by std::unique would lose samples of every channel with repeats.
   */
  lemma EmbedsExactly(times: seq<int>, grid: seq<int>)
    requires Ordered(times) && Ordered(grid)
    ensures Embeds(times, grid) <==> multiset(times) <= multiset(grid)
  {
    if multiset(times) <= multiset(grid) {
      var pos := Embedding(times, grid);
    }
    if Embeds(times, grid) {
      var pos: seq<nat> :| EmbedsAt(times, grid, pos);
      EmbeddedCounts(times, grid, pos);
    }
  }

  lemma {:induction false} Embedding(times: seq<int>, grid: seq<int>) returns (pos: seq<nat>)
    requires Ordered(times) && Ordered(grid) && multiset(times) <= multiset(grid)
    ensures EmbedsAt(times, grid, pos)
    decreases |grid|
  {
    hide EmbedsAt, Ordered;
    if times == [] {
      NothingEmbeds(grid);
      pos := [];
    } else {
      FirstSample(times, grid);
      assert grid == [grid[0]] + grid[1..];
      if times[0] == grid[0] {
        var rest := Embedding(times[1..], grid[1..]);
        pos := [0] + Shifted(rest);
        EmbedHit(times[0], times[1..], grid[1..], rest);
        assert times == [times[0]] + times[1..];
      } else {
        var rest := Embedding(times, grid[1..]);
        pos := Shifted(rest);
        EmbedSkip(grid[0], times, grid[1..], rest);
      }
    }
  }

  lemma FirstSample(times: seq<int>, grid: seq<int>)
    requires Ordered(times) && Ordered(grid) && times != [] && multiset(times) <= multiset(grid)
    ensures grid != [] && Ordered(times[1..]) && Ordered(grid[1..])
    ensures times[0] == grid[0] ==> multiset(times[1..]) <= multiset(grid[1..])
    ensures times[0] != grid[0] ==> multiset(times) <= multiset(grid[1..])
  {
    assert grid != [] by { NotEmpty(times, grid); }
    TailOrdered(times);
    TailOrdered(grid);
    hide Ordered;
    assert times[0..] == times && grid[0..] == grid;
    NextSample(times, 0, grid, 0);
  }

  lemma NotEmpty(times: seq<int>, grid: seq<int>)
    requires times != [] && multiset(times) <= multiset(grid)
    ensures grid != []
  {
    assert times[0] in multiset(times);
  }

  lemma TailOrdered(s: seq<int>)
    requires Ordered(s) && s != []
    ensures Ordered(s[1..])
  {
  }

  lemma NothingEmbeds(grid: seq<int>)
    ensures EmbedsAt([], grid, [])
  {}

  lemma EmbedSkip(x: int, times: seq<int>, grid: seq<int>, pos: seq<nat>)
    requires EmbedsAt(times, grid, pos)
    ensures EmbedsAt(times, [x] + grid, Shifted(pos))
  {}

  lemma EmbedHit(x: int, times: seq<int>, grid: seq<int>, pos: seq<nat>)
    requires EmbedsAt(times, grid, pos)
    ensures EmbedsAt([x] + times, [x] + grid, [0] + Shifted(pos))
  {}

  ghost function Shifted(pos: seq<nat>): (r: seq<nat>)
    ensures |r| == |pos|
  {
    seq(|pos|, i requires 0 <= i < |pos| => pos[i] + 1)
  }

  predicate IsSorted(s: seq<Sample>) {
    forall i | 0 < i < |s| :: s[i - 1].t <= s[i].t
  }

  lemma {:induction false} SortedIsFixed(s: seq<Sample>)
    ensures IsSorted(s) ==> SortBy(TimeOf, s) == s
  {
    if s != [] {
      SortedIsFixed(s[..|s| - 1]);
      if IsSorted(s) {
        SplitLast(s);
      }
    }
  }

  // ---------- a whole domain ----------

  /** The channels that take part in the merge: those with any sample. */
  function NonEmpty(chans: seq<seq<Sample>>): (r: seq<seq<Sample>>)
    ensures forall c | c in r :: c != []
  {
    if chans == [] then []
    else NonEmpty(chans[..|chans| - 1]) + if chans[|chans| - 1] == [] then [] else [chans[|chans| - 1]]
  }

  ghost function SortedTimes(chans: seq<seq<Sample>>): (r: seq<seq<int>>)
    ensures |r| == |chans|
  {
    seq(|chans|, c requires 0 <= c < |chans| => Times(SortBy(TimeOf, chans[c])))
  }

  method PrepareSources(chans: seq<seq<Sample>>) returns (srcs: seq<MergeSrc>)
    ensures fresh(srcs)
    ensures |srcs| == |NonEmpty(chans)|
    ensures forall c | 0 <= c < |srcs| :: srcs[c].cursor == 0 && srcs[c].samples == SortBy(TimeOf, NonEmpty(chans)[c])
    ensures forall b, c | 0 <= b < c < |srcs| :: srcs[b] != srcs[c]
  {
    hide SortBy;
    srcs := [];
    for i := 0 to |chans|
      invariant fresh(srcs) && |srcs| == |NonEmpty(chans[..i])|
      invariant forall c | 0 <= c < |srcs| ::
                  srcs[c].cursor == 0 && srcs[c].samples == SortBy(TimeOf, NonEmpty(chans[..i])[c])
      invariant forall b, c | 0 <= b < c < |srcs| :: srcs[b] != srcs[c]
    {
      assert chans[..i + 1][..i] == chans[..i];
      if chans[i] != [] {
        var src := new MergeSrc(chans[i]);
        srcs := srcs + [src];
      }
    }
    assert chans[..|chans|] == chans;
  }

  method AnyDuplicate(chans: seq<seq<int>>) returns (any: bool)
    requires forall c | c in chans :: Ordered(c)
    ensures !any <==> forall c | c in chans :: Increasing(c)
  {
    any := false;
    for i := 0 to |chans|
      invariant !any <==> forall c | c in chans[..i] :: Increasing(c)
    {
      assert chans[..i + 1] == chans[..i] + [chans[i]];
      var here := HasRepeat(chans[i]);
      any := any || here;
    }
    assert chans[..|chans|] == chans;
  }

  method HasRepeat(c: seq<int>) returns (here: bool)
    requires Ordered(c)
    ensures here <==> !Increasing(c)
  {
    here := false;
    var k := 1;
    while k < |c| && !here
      invariant 1 <= k
      invariant here ==> !Increasing(c)
      invariant !here ==> forall j | 0 < j < k && j < |c| :: c[j - 1] < c[j]
    {
      here := c[k] == c[k - 1];
      k := k + 1;
    }
    StepwiseIncreasing(c);
  }

  lemma StepwiseIncreasing(c: seq<int>)
    requires Ordered(c)
    ensures Increasing(c) <==> forall j | 0 < j < |c| :: c[j - 1] < c[j]
  {
    if forall j | 0 < j < |c| :: c[j - 1] < c[j] {
      forall i, j | 0 <= i < j < |c|
        ensures c[i] < c[j]
      {
        assert c[j - 1] < c[j] && c[i] <= c[j - 1];
      }
    }
  }

  method BuildGrid(chans: seq<seq<int>>) returns (grid: seq<int>)
    requires forall c | c in chans :: Ordered(c)
    ensures IsUnionGrid(grid, chans)
  {
    var any := AnyDuplicate(chans);
    if any {
      grid := RunLengthUnion(chans);
    } else {
      grid := DistinctUnion(chans);
    }
  }

  /** One domain of the island: the grid and a column for every channel that has samples. */
  method BuildIslandDomain(chans: seq<seq<Sample>>) returns (grid: seq<int>, cols: seq<seq<Cell>>)
    ensures IsUnionGrid(grid, SortedTimes(NonEmpty(chans)))
    ensures |cols| == |NonEmpty(chans)|
    ensures forall c | 0 <= c < |cols| ::
              && |cols[c]| == |grid| && Loaded(grid, cols[c]) == Present(SortBy(TimeOf, NonEmpty(chans)[c]))
              && Placed(SortBy(TimeOf, NonEmpty(chans)[c]), grid, cols[c])
  {
    var srcs := PrepareSources(chans);
    ghost var kept := NonEmpty(chans);
    var times := seq(|srcs|, c requires 0 <= c < |srcs| => Times(srcs[c].samples));
    SourcesOrdered(kept);
    assert times == SortedTimes(kept);
    grid := BuildGrid(times);
    forall c | 0 <= c < |srcs|
      ensures Ordered(grid) && multiset(Times(srcs[c].samples)) <= multiset(grid)
    {
      GridCovers(grid, times, c);
    }
    assert Ordered(grid);
    cols := EmitAll(srcs, grid);
  }

  method EmitAll(srcs: seq<MergeSrc>, grid: seq<int>) returns (cols: seq<seq<Cell>>)
    requires forall b, c | 0 <= b < c < |srcs| :: srcs[b] != srcs[c]
    requires forall c | 0 <= c < |srcs| :: srcs[c].cursor == 0 && SortedBy(TimeOf, srcs[c].samples)
    requires Ordered(grid) && forall c | 0 <= c < |srcs| :: multiset(Times(srcs[c].samples)) <= multiset(grid)
    modifies srcs
    ensures |cols| == |srcs|
    ensures forall c | 0 <= c < |srcs| ::
              && srcs[c].cursor == |srcs[c].samples| && |cols[c]| == |grid|
              && Loaded(grid, cols[c]) == Present(srcs[c].samples) && Placed(srcs[c].samples, grid, cols[c])
  {
    hide *;
    cols := [];
    for c := 0 to |srcs|
      invariant |cols| == c
      invariant forall b | c <= b < |srcs| :: srcs[b].cursor == 0
      invariant forall b | 0 <= b < c ::
                  && srcs[b].cursor == |srcs[b].samples| && |cols[b]| == |grid|
                  && Loaded(grid, cols[b]) == Present(srcs[b].samples) && Placed(srcs[b].samples, grid, cols[b])
    {
      var col := srcs[c].EmitColumn(grid);
      cols := cols + [col];
    }
  }

  lemma SourcesOrdered(chans: seq<seq<Sample>>)
    ensures forall c | 0 <= c < |chans| :: SortedBy(TimeOf, SortBy(TimeOf, chans[c]))
    ensures forall ts | ts in SortedTimes(chans) :: Ordered(ts)
  {
    forall c | 0 <= c < |chans|
      ensures SortedBy(TimeOf, SortBy(TimeOf, chans[c])) && Ordered(SortedTimes(chans)[c])
    {
      SortByIsStableSort(TimeOf, chans[c]);
      TimesOrdered(SortBy(TimeOf, chans[c]));
    }
  }

  /** Every channel as its sorted present samples; channels left with none are dropped. */
  function Restored(chans: seq<seq<Sample>>): seq<seq<Sample>> {
    if chans == [] then []
    else
      var last := Present(SortBy(TimeOf, chans[|chans| - 1]));
      Restored(chans[..|chans| - 1]) + if last == [] then [] else [last]
  }

  /** What the loader makes of a grid and its columns: one channel per column that holds any number. */
  function LoadedDomain(ts: seq<int>, cols: seq<seq<Cell>>): seq<seq<Sample>> {
    if cols == [] then []
    else
      var col := cols[|cols| - 1];
      var n := if |ts| < |col| then |ts| else |col|;
      var samples := Loaded(ts[..n], col[..n]);
      LoadedDomain(ts, cols[..|cols| - 1]) + if samples == [] then [] else [samples]
  }

  method LoadDomain(ts: seq<int>, cols: seq<seq<Cell>>) returns (out: seq<seq<Sample>>)
    ensures out == LoadedDomain(ts, cols)
  {
    out := [];
    for c := 0 to |cols|
      invariant out == LoadedDomain(ts, cols[..c])
    {
      assert cols[..c + 1][..c] == cols[..c];
      var samples := LoadColumn(ts, cols[c]);
      if samples != [] {
        out := out + [samples];
      }
    }
    assert cols[..|cols|] == cols;
  }

  /** Columns that carry their channels are loaded as those channels. */
  lemma {:induction false} LoadedIsRestored(ts: seq<int>, cols: seq<seq<Cell>>, chans: seq<seq<Sample>>)
    requires |cols| == |chans|
    requires forall c | 0 <= c < |cols| ::
               |cols[c]| == |ts| && Loaded(ts, cols[c]) == Present(SortBy(TimeOf, chans[c]))
    ensures LoadedDomain(ts, cols) == Restored(chans)
  {
    if cols != [] {
      LoadedIsRestored(ts, cols[..|cols| - 1], chans[..|chans| - 1]);
      var col := cols[|cols| - 1];
      assert ts[..|ts|] == ts && col[..|ts|] == col;
    }
  }

  lemma {:induction false} EmptyChannelsVanish(chans: seq<seq<Sample>>)
    ensures Restored(NonEmpty(chans)) == Restored(chans)
  {
    if chans != [] {
      var head, last := chans[..|chans| - 1], chans[|chans| - 1];
      EmptyChannelsVanish(head);
      var kept := NonEmpty(chans);
      if last == [] {
        assert kept == NonEmpty(head);
        assert Present(SortBy(TimeOf, last)) == [];
      } else {
        assert kept[..|kept| - 1] == NonEmpty(head) && kept[|kept| - 1] == last;
      }
    }
  }

  // ---------- what comes back, said without the merge ----------

  /** The numbers recorded at time t, in their order. */
  ghost function NumbersAt(s: seq<Sample>, t: int): seq<Cell> {
    if s == [] then []
    else
      var last := s[|s| - 1];
      NumbersAt(s[..|s| - 1], t) + if last.t == t && last.v.Num? then [last.v] else []
  }

  ghost predicate HasNumber(s: seq<Sample>) {
    exists x :: x in s && x.v.Num?
  }

  /** In time order, nothing but numbers, and at every time those of the channel in their order. */
  ghost predicate Reopens(chan: seq<Sample>, back: seq<Sample>) {
    && (forall i, j | 0 <= i < j < |back| :: back[i].t <= back[j].t)
    && (forall x | x in back :: x.v.Num?)
    && forall t :: NumbersAt(back, t) == NumbersAt(chan, t)
  }

  /** Each channel with a number comes back, in the order of the channels, and no other. */
  ghost predicate AllReopen(chans: seq<seq<Sample>>, from: seq<nat>, out: seq<seq<Sample>>) {
    && |from| == |out|
    && (forall j, k | 0 <= j < k < |from| :: from[j] < from[k])
    && (forall k | 0 <= k < |from| :: from[k] < |chans| && Reopens(chans[from[k]], out[k]))
    && forall c: nat | c < |chans| :: c in from <==> HasNumber(chans[c])
  }

  lemma {:induction false} NumbersOfKey(s: seq<Sample>, t: int)
    ensures NumbersAt(WithKey(TimeOf, s, t), t) == NumbersAt(s, t)
  {
    if s != [] {
      var head, last := s[..|s| - 1], s[|s| - 1];
      NumbersOfKey(head, t);
      var w, v := WithKey(TimeOf, s, t), WithKey(TimeOf, head, t);
      if TimeOf(last) == t { assert w[..|w| - 1] == v; } else { assert w == v; }
    }
  }

  lemma {:induction false} PresentKeeps(s: seq<Sample>, t: int)
    ensures NumbersAt(Present(s), t) == NumbersAt(s, t)
  {
    if s != [] {
      var head, last := s[..|s| - 1], s[|s| - 1];
      PresentKeeps(head, t);
      PresentAppend(head, last);
      assert s == head + [last];
      var p := Present(s);
      if last.v.Num? { assert p[..|p| - 1] == Present(head); } else { assert p == Present(head); }
    }
  }

  lemma {:induction false} PresentHasNumbers(s: seq<Sample>)
    ensures forall x :: x in Present(s) <==> x in s && x.v.Num?
  {
    if s != [] {
      PresentHasNumbers(s[1..]);
      assert s == [s[0]] + s[1..];
    }
  }

  lemma {:induction false} PresentOrdered(s: seq<Sample>)
    requires SortedBy(TimeOf, s)
    ensures forall i, j | 0 <= i < j < |Present(s)| :: Present(s)[i].t <= Present(s)[j].t
    ensures forall x | x in Present(s) :: x in s && x.v.Num?
  {
    if s != [] {
      assert forall i | 0 < i < |s| :: TimeOf(s[0]) <= TimeOf(s[i]);
      assert forall i, j | 0 <= i < j < |s[1..]| :: TimeOf(s[1..][i]) <= TimeOf(s[1..][j]);
      PresentOrdered(s[1..]);
      var p := Present(s[1..]);
      forall k | 0 <= k < |p|
        ensures s[0].t <= p[k].t
      {
        assert p[k] in s[1..];
        var i :| 0 <= i < |s[1..]| && s[1..][i] == p[k];
        assert TimeOf(s[0]) <= TimeOf(s[i + 1]);
      }
    }
  }

  /** One channel. */
  lemma RestoredReopens(chan: seq<Sample>)
    ensures var back := Present(SortBy(TimeOf, chan)); Reopens(chan, back) && (back == [] <==> !HasNumber(chan))
  {
    var sorted, back := SortBy(TimeOf, chan), Present(SortBy(TimeOf, chan));
    SortByIsStableSort(TimeOf, chan);
    PresentOrdered(sorted);
    forall t
      ensures NumbersAt(Present(sorted), t) == NumbersAt(chan, t)
    {
      PresentKeeps(sorted, t);
      NumbersOfKey(sorted, t);
      NumbersOfKey(chan, t);
    }
    PresentHasNumbers(sorted);
    assert forall x :: x in sorted <==> x in multiset(sorted);
    assert forall x :: x in chan <==> x in multiset(chan);
    if back != [] { assert back[0] in back; }
  }

  lemma OneMoreReopens(chans: seq<seq<Sample>>, n: nat, from: seq<nat>, out: seq<seq<Sample>>, back: seq<Sample>)
    requires n < |chans| && AllReopen(chans[..n], from, out)
    requires Reopens(chans[n], back) && (back == [] <==> !HasNumber(chans[n]))
    ensures if HasNumber(chans[n]) then AllReopen(chans[..n + 1], from + [n], out + [back])
            else AllReopen(chans[..n + 1], from, out)
  {
    hide Reopens, HasNumber;
    var more := chans[..n + 1];
    assert forall c: nat | c < n :: more[c] == chans[..n][c];
    assert more[n] == chans[n];
  }

  lemma {:induction false} RestoredComesBack(chans: seq<seq<Sample>>) returns (from: seq<nat>)
    ensures AllReopen(chans, from, Restored(chans))
  {
    hide AllReopen, Reopens, HasNumber;
    from := [];
    if chans == [] {
      NothingReopens();
    } else {
      var n := |chans| - 1;
      from := RestoredComesBack(chans[..n]);
      RestoredReopens(chans[n]);
      OneMoreReopens(chans, n, from, Restored(chans[..n]), Present(SortBy(TimeOf, chans[n])));
      assert chans[..n + 1] == chans;
      if HasNumber(chans[n]) { from := from + [n]; } else { assert Restored(chans[..n]) + [] == Restored(chans[..n]); }
    }
  }

  lemma NothingReopens()
    ensures AllReopen([], [], [])
  {
  }

  /** Saving a store as storable HTML and opening it again returns every sample that has a number. */
  method SaveAndReopen(chans: seq<seq<Sample>>) returns (out: seq<seq<Sample>>)
    ensures out == Restored(chans)
    ensures exists from :: AllReopen(chans, from, out)
  {
    hide AllReopen;
    var grid, cols := BuildIslandDomain(chans);
    out := LoadDomain(grid, cols);
    LoadedIsRestored(grid, cols, NonEmpty(chans));
    EmptyChannelsVanish(chans);
    ghost var from := RestoredComesBack(chans);
  }

  /** For NaN-free channels the result is exactly the stably sorted samples. */
  lemma {:induction false} PresentIsAll(s: seq<Sample>)
    ensures Present(s) == s <==> forall x | x in s :: x.v.Num?
  {
    if s != [] {
      PresentIsAll(s[1..]);
      PresentShrinks(s[1..]);
      assert s == [s[0]] + s[1..];
    }
  }

  lemma {:induction false} PresentShrinks(s: seq<Sample>)
    ensures |Present(s)| <= |s|
    ensures forall x | x in Present(s) :: x.v.Num?
  {
    if s != [] {
      PresentShrinks(s[1..]);
    }
  }
}
