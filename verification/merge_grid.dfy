/**
  The union grid of the HTML exporter: every timestamp as often as the channel
  that repeats it most, so that no channel's cursor ever falls behind.
 */
module MergeGrid {
  import opened Orders
  import opened Sorting

  ghost function Max(a: nat, b: nat): nat {
    if a < b then b else a
  }

  /** How often the channel that repeats t most does so. */
  ghost function MaxRepeat(chans: seq<seq<int>>, t: int): nat {
    if chans == [] then 0
    else Max(MaxRepeat(chans[..|chans| - 1], t), multiset(chans[|chans| - 1])[t])
  }

  /** The grid, by what it holds. */
  ghost predicate IsUnionGrid(grid: seq<int>, chans: seq<seq<int>>) {
    && Ordered(grid)
    && forall t :: multiset(grid)[t] == MaxRepeat(chans, t)
  }

  // ---------- the grid is determined, and the shortest possible ----------

  lemma LastBound(a: seq<int>, b: seq<int>)
    requires Ordered(b) && a != [] && multiset(a) == multiset(b)
    ensures b != [] && a[|a| - 1] <= b[|b| - 1]
  {
    var x := a[|a| - 1];
    assert x in multiset(a);
    assert x in multiset(b);
    var i :| 0 <= i < |b| && b[i] == x;
  }

  lemma {:induction false} OrderedPermutationIsUnique(a: seq<int>, b: seq<int>)
    requires Ordered(a) && Ordered(b) && multiset(a) == multiset(b)
    ensures a == b
    decreases |a|
  {
    assert |multiset(a)| == |a| && |multiset(b)| == |b|;
    if a != [] {
      var a', b' := a[..|a| - 1], b[..|b| - 1];
      LastBound(a, b);
      LastBound(b, a);
      SplitLast(a);
      SplitLast(b);
      assert multiset(a') == multiset(a) - multiset{a[|a| - 1]};
      assert multiset(b') == multiset(b) - multiset{b[|b| - 1]};
      OrderedPermutationIsUnique(a', b');
    }
  }

  lemma UnionGridIsUnique(a: seq<int>, b: seq<int>, chans: seq<seq<int>>)
    requires IsUnionGrid(a, chans) && IsUnionGrid(b, chans)
    ensures a == b
  {
    forall t
      ensures multiset(a)[t] == multiset(b)[t]
    {}
    OrderedPermutationIsUnique(a, b);
  }

  /** s occurs in g, in order, at the strictly increasing positions pos. */
  ghost predicate EmbedsAt(s: seq<int>, g: seq<int>, pos: seq<nat>) {
    && |pos| == |s|
    && (forall i, j | 0 <= i < j < |pos| :: pos[i] < pos[j])
    && forall i | 0 <= i < |pos| :: pos[i] < |g| && g[pos[i]] == s[i]
  }

  ghost predicate Embeds(s: seq<int>, g: seq<int>) {
    exists pos: seq<nat> :: EmbedsAt(s, g, pos)
  }

  lemma {:induction false} EmbeddedCounts(s: seq<int>, g: seq<int>, pos: seq<nat>)
    requires EmbedsAt(s, g, pos)
    ensures multiset(s) <= multiset(g)
  {
    if s != [] {
      var p := pos[|pos| - 1];
      EmbeddedCounts(s[..|s| - 1], g[..p], pos[..|pos| - 1]);
      SplitLast(s);
      assert g == g[..p] + [g[p]] + g[p + 1..];
    }
  }

  lemma {:induction false} MaxRepeatBounds(chans: seq<seq<int>>, t: int, g: seq<int>)
    requires forall c | c in chans :: multiset(c) <= multiset(g)
    ensures MaxRepeat(chans, t) <= multiset(g)[t]
  {
    if chans != [] {
      MaxRepeatBounds(chans[..|chans| - 1], t, g);
      assert chans[|chans| - 1] in chans;
    }
  }

  lemma {:induction false} MaxRepeatCovers(chans: seq<seq<int>>, c: nat, t: int)
    requires c < |chans|
    ensures multiset(chans[c])[t] <= MaxRepeat(chans, t)
  {
    if c < |chans| - 1 {
      MaxRepeatCovers(chans[..|chans| - 1], c, t);
    }
  }

  /** No sequence in which every channel occurs in order is shorter than the grid. */
  lemma GridIsShortest(grid: seq<int>, chans: seq<seq<int>>, g: seq<int>)
    requires IsUnionGrid(grid, chans)
    requires forall c | c in chans :: Embeds(c, g)
    ensures |grid| <= |g|
  {
    forall c | c in chans
      ensures multiset(c) <= multiset(g)
    {
      var pos: seq<nat> :| EmbedsAt(c, g, pos);
      EmbeddedCounts(c, g, pos);
    }
    forall t
      ensures multiset(grid)[t] <= multiset(g)[t]
    {
      MaxRepeatBounds(chans, t, g);
    }
    var rest := multiset(g) - multiset(grid);
    assert multiset(g) == multiset(grid) + rest;
    assert |multiset(g)| == |multiset(grid)| + |rest|;
  }

  lemma GridCovers(grid: seq<int>, chans: seq<seq<int>>, c: nat)
    requires IsUnionGrid(grid, chans) && c < |chans|
    ensures Ordered(grid) && multiset(chans[c]) <= multiset(grid)
  {
    forall t
      ensures multiset(chans[c])[t] <= multiset(grid)[t]
    {
      MaxRepeatCovers(chans, c, t);
    }
  }

  // ---------- building the grid ----------

  function Id(t: int): int {
    t
  }

  function Concat(chans: seq<seq<int>>): seq<int> {
    if chans == [] then [] else Concat(chans[..|chans| - 1]) + chans[|chans| - 1]
  }

  /** std::unique: the first element of every run of equal ones. */
  method Unique(s: seq<int>) returns (r: seq<int>)
    requires Ordered(s)
    ensures Increasing(r)
    ensures forall t :: t in r <==> t in s
  {
    r := [];
    for i := 0 to |s|
      invariant Increasing(r) && (i == 0 ==> r == []) && (i > 0 ==> r != [] && r[|r| - 1] == s[i - 1])
      invariant forall t :: t in r <==> t in s[..i]
    {
      assert s[..i + 1] == s[..i] + [s[i]];
      if i == 0 || s[i] != s[i - 1] {
        r := r + [s[i]];
      }
    }
    assert s[..|s|] == s;
  }

  lemma {:induction false} DistinctRepeats(chans: seq<seq<int>>, t: int)
    requires forall c | c in chans :: Increasing(c)
    ensures MaxRepeat(chans, t) == if t in Concat(chans) then 1 else 0
  {
    if chans != [] {
      var last := chans[|chans| - 1];
      assert last in chans;
      DistinctRepeats(chans[..|chans| - 1], t);
      IncreasingCounts(last, t);
    }
  }

  lemma {:induction false} IncreasingCounts(s: seq<int>, t: int)
    requires Increasing(s)
    ensures multiset(s)[t] == if t in s then 1 else 0
  {
    if s != [] {
      IncreasingCounts(s[..|s| - 1], t);
      SplitLast(s);
      if t in s[..|s| - 1] {
        assert t != s[|s| - 1];
      }
    }
  }

  /** The path taken when no channel repeats a timestamp: concatenate, sort, drop equal neighbours. */
  method DistinctUnion(chans: seq<seq<int>>) returns (grid: seq<int>)
    requires forall c | c in chans :: Increasing(c)
    ensures IsUnionGrid(grid, chans)
  {
    var all := [];
    for c := 0 to |chans|
      invariant all == Concat(chans[..c])
    {
      assert chans[..c + 1][..c] == chans[..c];
      all := all + chans[c];
    }
    assert chans[..|chans|] == chans;
    var sorted := SortBy(Id, all);
    SortByIsStableSort(Id, all);
    SortedById(sorted);
    grid := Unique(sorted);
    forall t
      ensures multiset(grid)[t] == MaxRepeat(chans, t)
    {
      DistinctRepeats(chans, t);
      IncreasingCounts(grid, t);
      assert t in sorted <==> t in multiset(sorted);
      assert t in all <==> t in multiset(all);
    }
  }

  lemma SortedById(s: seq<int>)
    requires SortedBy(Id, s)
    ensures Ordered(s)
  {
    forall i, j | 0 <= i < j < |s|
      ensures s[i] <= s[j]
    {
      assert Id(s[i]) <= Id(s[j]);
    }
  }

  datatype Run = Run(t: int, n: nat)

  function RunTime(r: Run): int {
    r.t
  }

  /** The longest run recorded at t. */
  ghost function LongestRun(runs: seq<Run>, t: int): nat {
    if runs == [] then 0
    else Max(LongestRun(runs[..|runs| - 1], t), if runs[|runs| - 1].t == t then runs[|runs| - 1].n else 0)
  }

  lemma {:induction false} LongestRunIs(runs: seq<Run>, t: int)
    ensures forall r | r in runs && r.t == t :: r.n <= LongestRun(runs, t)
    ensures LongestRun(runs, t) > 0 ==> Run(t, LongestRun(runs, t)) in runs
  {
    if runs != [] {
      LongestRunIs(runs[..|runs| - 1], t);
      SplitLast(runs);
    }
  }

  lemma LongestRunOfPermutation(a: seq<Run>, b: seq<Run>, t: int)
    requires multiset(a) == multiset(b)
    ensures LongestRun(a, t) == LongestRun(b, t)
  {
    LongestRunIs(a, t);
    LongestRunIs(b, t);
    forall r
      ensures r in a <==> r in b
    {
      assert r in a <==> r in multiset(a);
      assert r in b <==> r in multiset(b);
    }
  }

  /** Reduces one channel to its runs, appended to those of the channels before it. */
  method AppendRuns(before: seq<Run>, c: seq<int>) returns (runs: seq<Run>)
    requires Ordered(c)
    ensures forall t :: LongestRun(runs, t) == Max(LongestRun(before, t), multiset(c)[t])
  {
    runs := before;
    var i := 0;
    assert c[..0] == [];
    while i < |c|
      invariant 0 <= i <= |c| && (0 < i < |c| ==> c[i - 1] < c[i])
      invariant forall t :: LongestRun(runs, t) == Max(LongestRun(before, t), multiset(c[..i])[t])
    {
      var j := i + 1;
      while j < |c| && c[j] == c[i]
        invariant i < j <= |c| && forall k | i <= k < j :: c[k] == c[i]
      {
        j := j + 1;
      }
      RunCounts(c, i, j);
      var run := Run(c[i], j - i);
      assert (runs + [run])[..|runs|] == runs;
      runs := runs + [run];
      i := j;
    }
    assert c[..|c|] == c;
  }

  lemma EarlierIsLess(c: seq<int>, i: nat)
    requires Ordered(c) && i < |c| && (i > 0 ==> c[i - 1] < c[i])
    ensures c[i] !in c[..i]
  {
    forall k | 0 <= k < i
      ensures c[k] < c[i]
    {
      assert c[k] <= c[i - 1];
    }
  }

  lemma CountsNext(c: seq<int>, k: nat)
    requires k < |c|
    ensures multiset(c[..k + 1]) == multiset(c[..k]) + multiset{c[k]}
  {
    assert c[..k + 1] == c[..k] + [c[k]];
  }

  lemma {:induction false} RunCounts(c: seq<int>, i: nat, j: nat)
    requires Ordered(c) && i < j <= |c| && (i > 0 ==> c[i - 1] < c[i])
    requires forall k | i <= k < j :: c[k] == c[i]
    ensures forall t :: multiset(c[..j])[t] == if t == c[i] then j - i else multiset(c[..i])[t]
    ensures multiset(c[..i])[c[i]] == 0
    decreases j
  {
    hide Ordered;
    EarlierIsLess(c, i);
    CountsNext(c, j - 1);
    if j > i + 1 {
      RunCounts(c, i, j - 1);
    }
  }

  /** The general path: runs sorted by timestamp, merged by their longest. */
  method RunLengthUnion(chans: seq<seq<int>>) returns (grid: seq<int>)
    requires forall c | c in chans :: Ordered(c)
    ensures IsUnionGrid(grid, chans)
  {
    var runs: seq<Run> := [];
    for c := 0 to |chans|
      invariant forall t :: LongestRun(runs, t) == MaxRepeat(chans[..c], t)
    {
      assert chans[..c + 1][..c] == chans[..c];
      runs := AppendRuns(runs, chans[c]);
    }
    assert chans[..|chans|] == chans;
    var sorted := SortBy(RunTime, runs);
    SortByIsStableSort(RunTime, runs);
    grid := MergeRuns(sorted);
    forall t
      ensures multiset(grid)[t] == MaxRepeat(chans, t)
    {
      LongestRunOfPermutation(runs, sorted, t);
    }
  }

  /** The end of the runs that share the timestamp at i, and their greatest length. */
  method LongestFrom(runs: seq<Run>, i: nat) returns (j: nat, n: nat)
    requires SortedBy(RunTime, runs) && i < |runs| && (i > 0 ==> runs[i - 1].t < runs[i].t)
    ensures i < j <= |runs| && (j < |runs| ==> runs[i].t == runs[j - 1].t < runs[j].t)
    ensures forall t :: LongestRun(runs[..j], t) == if t == runs[i].t then n else LongestRun(runs[..i], t)
    ensures LongestRun(runs[..i], runs[i].t) == 0
  {
    ghost var v := runs[i].t;
    j, n := i, 0;
    NoEarlierRun(runs, i);
    while j < |runs| && runs[j].t == runs[i].t
      invariant i <= j <= |runs| && forall k | i <= k < j :: runs[k].t == v
      invariant forall t :: LongestRun(runs[..j], t) == if t == v then n else LongestRun(runs[..i], t)
    {
      assert runs[..j + 1][..j] == runs[..j];
      n := if n < runs[j].n then runs[j].n else n;
      j := j + 1;
    }
    assert j < |runs| ==> RunTime(runs[i]) <= RunTime(runs[j]);
  }

  lemma NoEarlierRun(runs: seq<Run>, i: nat)
    requires SortedBy(RunTime, runs) && i < |runs| && (i > 0 ==> runs[i - 1].t < runs[i].t)
    ensures LongestRun(runs[..i], runs[i].t) == 0
  {
    LongestRunIs(runs[..i], runs[i].t);
    forall k | 0 <= k < i
      ensures runs[k].t < runs[i].t
    {
      assert k < i - 1 ==> RunTime(runs[k]) <= RunTime(runs[i - 1]);
    }
  }

  method MergeRuns(runs: seq<Run>) returns (grid: seq<int>)
    requires SortedBy(RunTime, runs)
    ensures Ordered(grid) && forall t :: multiset(grid)[t] == LongestRun(runs, t)
  {
    hide LongestRun;
    grid := [];
    var i := 0;
    EmptyRuns(runs[..0]);
    while i < |runs|
      invariant 0 <= i <= |runs| && Ordered(grid)
      invariant 0 < i < |runs| ==> runs[i - 1].t < runs[i].t
      invariant i < |runs| ==> forall k | 0 <= k < |grid| :: grid[k] < runs[i].t
      invariant forall t :: multiset(grid)[t] == LongestRun(runs[..i], t)
    {
      var j, n := LongestFrom(runs, i);
      var v := runs[i].t;
      CopiesCount(grid, n, v);
      grid := grid + seq(n, _ => v);
      i := j;
    }
    assert runs[..|runs|] == runs;
  }

  lemma EmptyRuns(runs: seq<Run>)
    requires runs == []
    ensures forall t :: LongestRun(runs, t) == 0
  {}

  lemma {:induction false} CopiesCount(g: seq<int>, n: nat, v: int)
    ensures forall t :: multiset(g + seq(n, _ => v))[t] == multiset(g)[t] + if t == v then n else 0
  {
    if n == 0 {
      assert g + seq(0, _ => v) == g;
    } else {
      CopiesCount(g, n - 1, v);
      assert g + seq(n, _ => v) == (g + seq(n - 1, _ => v)) + [v];
    }
  }
}
