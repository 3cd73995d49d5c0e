/**
  The depth cap of the expansion: it fires exactly where the types of the table
  nest in a path longer than it, and when they can.
 */
module TypeTableDepth {
  import opened Options
  import opened Odometer
  import opened PlcNames
  import opened TypeTable
  import opened TypeTableListing

  // ---------- nesting paths ----------

  /** The expansion of outer goes one level down into inner: a member, or an element. */
  ghost predicate Nests(c: Context, outer: string, inner: string)
    requires c.names.Sound()
  {
    var key := c.names.upper(outer);
    if key in c.types then
      var t := c.types[key];
      if t.dims != [] then
        TotalElements(t.dims) > 0 && t.size / TotalElements(t.dims) > 0 && inner == t.elementType
      else exists i :: 0 <= i < |t.members| && !t.members[i].bit && t.members[i].typeName == inner
    else
      && c.names.ScalarOf(outer) == None && c.names.parseArray(outer).Some?
      && var info := c.names.parseArray(outer).value;
      && inner == info.elementType && TotalElements(info.dims) > 0
      && SizeOfTypeName(c, inner).Some? && SizeOfTypeName(c, inner).value > 0
  }

  /** Types of the table do not repeat before the last of the path. */
  ghost predicate IsNestingPath(c: Context, path: seq<string>)
    requires c.names.Sound()
  {
    && path != []
    && (forall i | 0 <= i < |path| - 1 :: Nests(c, path[i], path[i + 1]))
    && forall i, j | 0 <= i < j < |path| - 1 ::
         c.names.upper(path[i]) in c.types ==> c.names.upper(path[i]) != c.names.upper(path[j])
  }

  /** A nesting path that also avoids the types already on the stack. */
  ghost predicate Avoids(c: Context, stack: seq<string>, path: seq<string>)
    requires c.names.Sound()
  {
    && IsNestingPath(c, path)
    && forall i | 0 <= i < |path| - 1 :: c.names.upper(path[i]) in c.types ==> c.names.upper(path[i]) !in stack
  }

  function Pushed(c: Context, stack: seq<string>, typeName: string): seq<string> {
    var key := c.names.upper(typeName);
    if key in c.types then stack + [key] else stack
  }

  lemma PathTail(c: Context, stack: seq<string>, path: seq<string>)
    requires c.names.Sound() && Avoids(c, stack, path) && |path| > 1
    ensures Nests(c, path[0], path[1]) && Avoids(c, Pushed(c, stack, path[0]), path[1..])
    ensures c.names.upper(path[0]) in c.types ==> c.names.upper(path[0]) !in stack
  {
    hide Nests;
    var tail := path[1..];
    forall i | 0 <= i < |tail| - 1
      ensures Nests(c, tail[i], tail[i + 1])
    {
      assert Nests(c, path[i + 1], path[i + 2]);
    }
  }

  lemma PathCons(c: Context, stack: seq<string>, outer: string, path: seq<string>)
    requires c.names.Sound() && Avoids(c, Pushed(c, stack, outer), path) && Nests(c, outer, path[0])
    requires c.names.upper(outer) in c.types ==> c.names.upper(outer) !in stack
    ensures Avoids(c, stack, [outer] + path)
  {
    hide Nests;
    var whole := [outer] + path;
    forall i | 0 <= i < |whole| - 1
      ensures Nests(c, whole[i], whole[i + 1])
    {
      if i > 0 { assert Nests(c, path[i - 1], path[i]); }
    }
  }

  // ---------- a cut for depth follows a path ----------

  lemma {:induction false} DeepHasPath(c: Context, stack: seq<string>, name: string, typeName: string, offset: nat, depth: nat)
    returns (path: seq<string>)
    requires c.names.Sound() && depth <= c.depthCap + 1
    requires Expand(c, stack, name, typeName, offset, depth).tooDeep
    ensures Avoids(c, stack, path) && path[0] == typeName && |path| == c.depthCap + 2 - depth
    decreases c.depthCap + 1 - depth, 2, 0
  {
    hide ArrayOf, MembersFrom, TotalElements, Avoids;
    var key := c.names.upper(typeName);
    if depth == c.depthCap + 1 {
      path := [typeName];
      OneLong(c, stack, typeName);
      return;
    }
    var below;
    if key !in c.types {
      var info := c.names.parseArray(typeName).value;
      below := ArrayDeepHasPath(c, stack, name, info.dims, info.elementType,
                                SizeOfTypeName(c, info.elementType).value, offset, depth);
    } else {
      var t := c.types[key];
      if t.dims != [] {
        below := ArrayDeepHasPath(c, stack + [key], name, t.dims, t.elementType,
                                  t.size / TotalElements(t.dims), offset, depth);
      } else {
        below := MembersDeepHavePath(c, stack + [key], name, t.members, 0, offset, depth);
      }
    }
    PathCons(c, stack, typeName, below);
    path := [typeName] + below;
  }

  lemma OneLong(c: Context, stack: seq<string>, typeName: string)
    requires c.names.Sound()
    ensures Avoids(c, stack, [typeName])
  {
  }

  lemma {:induction false} ArrayDeepHasPath(
      c: Context, stack: seq<string>, name: string, dims: seq<Dim>, elementType: string,
      size: nat, offset: nat, depth: nat) returns (path: seq<string>)
    requires c.names.Sound() && depth <= c.depthCap
    requires ArrayOf(c, stack, name, dims, elementType, size, offset, depth).tooDeep
    ensures TotalElements(dims) > 0 && size > 0
    ensures Avoids(c, stack, path) && path[0] == elementType && |path| == c.depthCap + 1 - depth
    decreases c.depthCap + 1 - depth, 1, 0
  {
    hide Expand, ElementsFrom, Subscript, TotalElements, Avoids;
    var n: nat := 0;
    ElementsFromEnd(c, stack, name, dims, elementType, size, offset, depth);
    while true
      invariant n <= TotalElements(dims)
      invariant ElementsFrom(c, stack, name, dims, elementType, size, n, offset, depth).tooDeep
      decreases TotalElements(dims) - n
    {
      ElementsFromStep(c, stack, name, dims, elementType, size, n, offset, depth);
      var inner, at := name + Subscript(dims, n), U32(offset + U32(n * size));
      if Expand(c, stack, inner, elementType, at, depth + 1).tooDeep {
        path := DeepHasPath(c, stack, inner, elementType, at, depth + 1);
        return;
      }
      n := n + 1;
    }
  }

  lemma {:induction false} MembersDeepHavePath(
      c: Context, stack: seq<string>, name: string, members: seq<Member>, i: nat, offset: nat, depth: nat)
    returns (path: seq<string>)
    requires c.names.Sound() && depth <= c.depthCap && i <= |members|
    requires MembersFrom(c, stack, name, members, i, offset, depth).tooDeep
    ensures Avoids(c, stack, path) && |path| == c.depthCap + 1 - depth
    ensures exists k :: 0 <= k < |members| && !members[k].bit && members[k].typeName == path[0]
    decreases c.depthCap + 1 - depth, 1, |members| - i
  {
    hide Expand, Avoids;
    var m := members[i];
    if !m.bit && Expand(c, stack, name + "." + m.name, m.typeName, U32(offset + m.offset), depth + 1).tooDeep {
      path := DeepHasPath(c, stack, name + "." + m.name, m.typeName, U32(offset + m.offset), depth + 1);
    } else {
      path := MembersDeepHavePath(c, stack, name, members, i + 1, offset, depth);
    }
  }

  // ---------- and every such path is cut ----------

  lemma {:induction false} PathIsDeep(
      c: Context, stack: seq<string>, name: string, typeName: string, offset: nat, depth: nat, path: seq<string>)
    requires c.names.Sound() && depth <= c.depthCap + 1
    requires Avoids(c, stack, path) && path[0] == typeName && |path| == c.depthCap + 2 - depth
    ensures Expand(c, stack, name, typeName, offset, depth).tooDeep
    decreases c.depthCap + 1 - depth, 2, 0
  {
    hide ArrayOf, MembersFrom, TotalElements, Avoids;
    if depth <= c.depthCap {
      var key, below := c.names.upper(typeName), path[1..];
      PathTail(c, stack, path);
      if key !in c.types {
        var info := c.names.parseArray(typeName).value;
        ArrayPathIsDeep(c, stack, name, info.dims, info.elementType,
                        SizeOfTypeName(c, info.elementType).value, offset, depth, below);
      } else {
        var t := c.types[key];
        if t.dims != [] {
          QuotientPositive(t.size, TotalElements(t.dims));
          ArrayPathIsDeep(c, stack + [key], name, t.dims, t.elementType,
                          t.size / TotalElements(t.dims), offset, depth, below);
        } else {
          MembersPathIsDeep(c, stack + [key], name, t.members, 0, offset, depth, below);
        }
      }
    }
  }

  lemma QuotientPositive(n: nat, d: nat)
    requires d > 0 && n / d > 0
    ensures n > 0
  {
  }

  lemma {:induction false} ArrayPathIsDeep(
      c: Context, stack: seq<string>, name: string, dims: seq<Dim>, elementType: string,
      size: nat, offset: nat, depth: nat, path: seq<string>)
    requires c.names.Sound() && depth <= c.depthCap && TotalElements(dims) > 0 && size > 0
    requires Avoids(c, stack, path) && path[0] == elementType && |path| == c.depthCap + 1 - depth
    ensures ArrayOf(c, stack, name, dims, elementType, size, offset, depth).tooDeep
    decreases c.depthCap + 1 - depth, 1, 0
  {
    hide Expand, ElementsFrom, Subscript, TotalElements, Avoids;
    ElementsFromStep(c, stack, name, dims, elementType, size, 0, offset, depth);
    PathIsDeep(c, stack, name + Subscript(dims, 0), elementType, U32(offset + U32(0 * size)), depth + 1, path);
  }

  lemma {:induction false} MembersPathIsDeep(
      c: Context, stack: seq<string>, name: string, members: seq<Member>, i: nat, offset: nat, depth: nat, path: seq<string>)
    requires c.names.Sound() && depth <= c.depthCap && i <= |members|
    requires Avoids(c, stack, path) && |path| == c.depthCap + 1 - depth
    requires exists k :: i <= k < |members| && !members[k].bit && members[k].typeName == path[0]
    ensures MembersFrom(c, stack, name, members, i, offset, depth).tooDeep
    decreases c.depthCap + 1 - depth, 1, |members| - i
  {
    hide Expand, Avoids;
    var m := members[i];
    if !m.bit && m.typeName == path[0] {
      PathIsDeep(c, stack, name + "." + m.name, m.typeName, U32(offset + m.offset), depth + 1, path);
    } else {
      MembersPathIsDeep(c, stack, name, members, i + 1, offset, depth, path);
    }
  }

  /**
    The depth cap cuts an expansion if and only if some nesting path from the
    symbol's type has more levels than the cap allows.
   */
  lemma TooDeepExactly(c: Context)
    requires c.names.Sound()
    ensures FullExpansion(c).tooDeep
       <==> exists path :: IsNestingPath(c, path) && path[0] == c.root.typeName && |path| == c.depthCap + 2
  {
    hide Expand, Nests;
    if FullExpansion(c).tooDeep {
      var path := DeepHasPath(c, [], c.root.name, c.root.typeName, c.root.offset, 0);
    }
    if path :| IsNestingPath(c, path) && path[0] == c.root.typeName && |path| == c.depthCap + 2 {
      PathIsDeep(c, [], c.root.name, c.root.typeName, c.root.offset, 0, path);
    }
  }

  /** A listing that was not cut by its leaf cap reports exactly that. */
  lemma ReportedExactly(c: Context, maxLeaves: nat, out: seq<Symbol>, end: Progress)
    requires c.names.Sound() && IsListing(c, maxLeaves, out, end) && !end.truncated
    ensures end.tooDeep
       <==> exists path :: IsNestingPath(c, path) && path[0] == c.root.typeName && |path| == c.depthCap + 2
  {
    hide FullExpansion, IsNestingPath;
    CutOrComplete(c, maxLeaves, out, end);
    TooDeepExactly(c);
  }

  // ---------- with every array type in the table ----------

  /** A type name the symbol or the table mentions. */
  ghost predicate Mentioned(c: Context, s: string) {
    || s == c.root.typeName
    || exists key :: key in c.types && MentionedBy(c.types[key], s)
  }

  ghost predicate MentionedBy(t: Entry, s: string) {
    s == t.elementType || exists i :: 0 <= i < |t.members| && t.members[i].typeName == s
  }

  ghost predicate ArraysListed(c: Context) {
    forall s | Mentioned(c, s) :: c.names.upper(s) in c.types || c.names.parseArray(s) == None
  }

  ghost predicate IsTypeStack(c: Context, stack: seq<string>) {
    && (forall i | 0 <= i < |stack| :: stack[i] in c.types)
    && forall i, j | 0 <= i < j < |stack| :: stack[i] != stack[j]
  }

  lemma {:induction false} StackFitsTable(keys: set<string>, stack: seq<string>)
    requires forall i | 0 <= i < |stack| :: stack[i] in keys
    requires forall i, j | 0 <= i < j < |stack| :: stack[i] != stack[j]
    ensures |stack| <= |keys|
  {
    if stack != [] {
      var last := stack[|stack| - 1];
      StackFitsTable(keys - {last}, stack[..|stack| - 1]);
      assert |keys - {last}| == |keys| - 1;
    }
  }

  /** Then every level of a path takes a type of its own. */
  lemma {:induction false} PathFitsTable(c: Context, stack: seq<string>, path: seq<string>)
    requires c.names.Sound() && ArraysListed(c) && IsTypeStack(c, stack)
    requires Avoids(c, stack, path) && Mentioned(c, path[0])
    ensures |stack| + |path| - 1 <= |c.types|
    decreases |path|
  {
    StackFitsTable(c.types.Keys, stack);
    assert |c.types.Keys| == |c.types|;
    if |path| > 1 {
      PathTail(c, stack, path);
      var key := c.names.upper(path[0]);
      assert key in c.types;
      assert MentionedBy(c.types[key], path[1]);
      PathFitsTable(c, stack + [key], path[1..]);
    }
  }

  /** With every array type in the table, nesting never outgrows the table's own size. */
  lemma NeverTooDeep(c: Context, stack: seq<string>, name: string, typeName: string, offset: nat, depth: nat)
    requires c.names.Sound() && ArraysListed(c) && Mentioned(c, typeName) && |c.types| <= c.depthCap
    requires IsTypeStack(c, stack) && depth <= |stack| && depth <= c.depthCap + 1
    ensures !Expand(c, stack, name, typeName, offset, depth).tooDeep
  {
    hide Expand, Avoids, IsTypeStack, ArraysListed, Mentioned;
    if Expand(c, stack, name, typeName, offset, depth).tooDeep {
      var path := DeepHasPath(c, stack, name, typeName, offset, depth);
      PathFitsTable(c, stack, path);
    }
  }

  /** If all array types are listed, the derived cap cannot fire for tables of up to 512 types. */
  lemma DepthCapNeverFires(names: Names, types: map<string, Entry>, sym: Symbol)
    requires names.Sound() && ArraysListed(ContextOf(names, types, sym)) && |types| <= DEPTH_CEILING
    ensures !FullExpansion(ContextOf(names, types, sym)).tooDeep
  {
    var c := ContextOf(names, types, sym);
    NeverTooDeep(c, [], sym.name, sym.typeName, sym.offset, 0);
  }

  /** In any table, two levels a type: an array the table does not carry, and its listed element. */
  lemma {:induction false} PathFitsTwice(c: Context, stack: seq<string>, path: seq<string>)
    requires c.names.Sound() && IsTypeStack(c, stack) && Avoids(c, stack, path)
    ensures |path| - 1 <= 2 * (|c.types| - |stack|) + 1
    ensures |path| > 1 && c.names.upper(path[0]) in c.types ==> |path| - 1 <= 2 * (|c.types| - |stack|)
    decreases |path|
  {
    StackFitsTable(c.types.Keys, stack);
    assert |c.types.Keys| == |c.types|;
    if |path| > 1 {
      PathTail(c, stack, path);
      PathFitsTwice(c, Pushed(c, stack, path[0]), path[1..]);
      if |path| > 2 { assert Nests(c, path[1], path[2]); }
    }
  }

  /** So no table of up to 31 types is ever cut for depth, whatever it leaves out. */
  lemma SmallTablesAreNeverCut(names: Names, types: map<string, Entry>, sym: Symbol)
    requires names.Sound() && |types| <= 31
    ensures !FullExpansion(ContextOf(names, types, sym)).tooDeep
  {
    hide Expand, Nests;
    var c := ContextOf(names, types, sym);
    TooDeepExactly(c);
    if path :| IsNestingPath(c, path) && path[0] == sym.typeName && |path| == c.depthCap + 2 {
      PathFitsTwice(c, [], path);
    }
  }

  // ---------- tables that are cut ----------

  function Unary(n: nat): (s: string)
    ensures |s| == n
  {
    if n == 0 then "" else Unary(n - 1) + "I"
  }

  function Struct(k: nat): (s: string)
    ensures |s| == k + 2 && s[0] == 'S'
  {
    "ST" + Unary(k)
  }

  const ARRAY_OF := "ARRAY [0..0] OF "

  /** Names as written, and arrays of one element. */
  function PlainNames(): (names: Names)
    ensures names.Sound()
  {
    Names(s => s, s => s,
          s => if ARRAY_OF <= s then Some(ArrayInfo([Dim(0, 1)], s[|ARRAY_OF|..])) else None)
  }

  /** The structure k holds the structure k + 1, or an array of it. */
  function Inner(k: nat, arrays: bool): string { if arrays then ARRAY_OF + Struct(k + 1) else Struct(k + 1) }

  function Link(k: nat, arrays: bool): Entry {
    Entry(Struct(k), "", 4, 65, [], [Member("m", Inner(k, arrays), 0, false)])
  }

  function ChainOf(n: nat, arrays: bool): map<string, Entry> {
    if n == 0 then map[] else ChainOf(n - 1, arrays)[Struct(n - 1) := Link(n - 1, arrays)]
  }

  lemma {:induction false} ChainAt(n: nat, arrays: bool, k: nat)
    requires k < n
    ensures Struct(k) in ChainOf(n, arrays) && ChainOf(n, arrays)[Struct(k)] == Link(k, arrays)
  {
    hide Struct, Link;
    if k < n - 1 { ChainAt(n - 1, arrays, k); }
  }

  lemma {:induction false} ChainKey(n: nat, arrays: bool, key: string) returns (k: nat)
    requires key in ChainOf(n, arrays)
    ensures k < n && key == Struct(k) && ChainOf(n, arrays)[key] == Link(k, arrays)
  {
    hide Struct, Link;
    if key == Struct(n - 1) { k := n - 1; } else { k := ChainKey(n - 1, arrays, key); }
  }

  lemma {:induction false} ChainSize(n: nat, arrays: bool)
    ensures |ChainOf(n, arrays)| == n
  {
    hide Struct, Link;
    if n > 0 {
      ChainSize(n - 1, arrays);
      if Struct(n - 1) in ChainOf(n - 1, arrays) { var k := ChainKey(n - 1, arrays, Struct(n - 1)); }
    }
  }

  function ChainContext(n: nat, arrays: bool, sym: Symbol): (c: Context)
    ensures c.names.Sound() && c.types == ChainOf(n, arrays) && c.root == sym
    ensures forall s :: c.names.upper(s) == s
  {
    ContextOf(PlainNames(), ChainOf(n, arrays), sym)
  }

  lemma StructNests(n: nat, arrays: bool, sym: Symbol, k: nat)
    requires k < n
    ensures var c := ChainContext(n, arrays, sym);
            Struct(k) in c.types && Nests(c, Struct(k), Inner(k, arrays))
  {
    ChainAt(n, arrays, k);
    hide Struct, ChainOf, Inner, ChainContext;
    var t := ChainOf(n, arrays)[Struct(k)];
    assert t.members[0].typeName == Inner(k, arrays) && !t.members[0].bit && t.dims == [];
  }

  lemma CapOfChain(n: nat, arrays: bool, sym: Symbol)
    ensures var cap := ChainContext(n, arrays, sym).depthCap;
            && (n > 56 ==> cap <= n + 8) && (n <= 56 ==> cap == 64) && cap <= DEPTH_CEILING
            && (n >= 504 ==> cap == DEPTH_CEILING)
  {
    ChainSize(n, arrays);
  }

  /** A structure of structures, one level each. */
  function ListedPath(n: nat): (path: seq<string>)
    ensures |path| == n && forall i | 0 <= i < n :: path[i] == Struct(i)
  {
    seq(n, i requires 0 <= i < n => Struct(i))
  }

  lemma ListedIsPath(n: nat, sym: Symbol, levels: nat)
    requires 0 < levels <= n + 1
    ensures IsNestingPath(ChainContext(n, false, sym), ListedPath(levels))
  {
    var c, path := ChainContext(n, false, sym), ListedPath(levels);
    hide Nests, Struct, ChainOf, ListedPath, ChainContext;
    forall i | 0 <= i < |path| - 1
      ensures Nests(c, path[i], path[i + 1])
    {
      StructNests(n, false, sym, i);
    }
    assert forall i | 0 <= i < |path| :: |path[i]| == i + 2;
  }

  lemma ChainListsArrays(n: nat, sym: Symbol)
    requires sym.typeName == Struct(0)
    ensures ArraysListed(ChainContext(n, false, sym))
  {
    var c := ChainContext(n, false, sym);
    forall s | Mentioned(c, s)
      ensures c.names.parseArray(s) == None
    {
      if s != sym.typeName {
        var key :| key in c.types && MentionedBy(c.types[key], s);
        var k := ChainKey(n, false, key);
      }
      assert s == "" || s[0] == 'S';
      NoArray(s);
    }
  }

  lemma NoArray(s: string)
    requires s == "" || s[0] == 'S'
    ensures PlainNames().parseArray(s) == None
  {
    assert ARRAY_OF[0] == 'A';
  }

  /** The bound of 512 is sharp: any longer chain of listed types is cut. */
  lemma LongChainIsCut(n: nat, sym: Symbol)
    requires n > DEPTH_CEILING && sym.typeName == Struct(0)
    ensures var c := ChainContext(n, false, sym);
            |c.types| == n && ArraysListed(c) && FullExpansion(c).tooDeep
  {
    hide Struct, ChainOf, ListedPath, ChainContext, IsNestingPath, ArraysListed;
    var c := ChainContext(n, false, sym);
    ChainSize(n, false);
    CapOfChain(n, false, sym);
    ChainListsArrays(n, sym);
    ListedIsPath(n, sym, DEPTH_CEILING + 2);
    TooDeepExactly(c);
  }

  /** Structures and the arrays of one between them, turn by turn. */
  function MixedPath(n: nat): (path: seq<string>)
    ensures |path| == n
    ensures forall i | 0 <= i < n :: path[i] == if i % 2 == 0 then Struct(i / 2) else ARRAY_OF + Struct(i / 2 + 1)
  {
    seq(n, i requires 0 <= i < n => if i % 2 == 0 then Struct(i / 2) else ARRAY_OF + Struct(i / 2 + 1))
  }

  lemma ArrayNests(n: nat, sym: Symbol, k: nat)
    requires k < n
    ensures var c := ChainContext(n, true, sym);
            ARRAY_OF + Struct(k) !in c.types && Nests(c, ARRAY_OF + Struct(k), Struct(k))
  {
    var c, name := ChainContext(n, true, sym), ARRAY_OF + Struct(k);
    assert name[0] == 'A' && ARRAY_OF <= name && name[|ARRAY_OF|..] == Struct(k);
    if name in c.types { var j := ChainKey(n, true, name); }
    ChainAt(n, true, k);
    assert TotalElements([Dim(0, 1)]) == 1 by { OneElement(); }
    LongNameIsNoScalar(name);
  }

  lemma OneElement()
    ensures TotalElements([Dim(0, 1)]) == 1
  {
    assert Counts([Dim(0, 1)]) == [1] && [1][..0] == [] && Product([]) == 1;
  }

  lemma LongNameIsNoScalar(name: string)
    requires |name| > 5
    ensures ScalarOfUpper(name) == None
  {
  }

  lemma MixedIsPath(n: nat, sym: Symbol, levels: nat)
    requires 0 < levels <= 2 * n
    ensures IsNestingPath(ChainContext(n, true, sym), MixedPath(levels))
  {
    var c, path := ChainContext(n, true, sym), MixedPath(levels);
    hide Nests, Struct, ChainOf, MixedPath, ChainContext;
    forall i | 0 <= i < |path| - 1
      ensures Nests(c, path[i], path[i + 1])
    {
      if i % 2 == 0 {
        StructNests(n, true, sym, i / 2);
      } else {
        ArrayNests(n, sym, i / 2 + 1);
      }
    }
    forall i, j | 0 <= i < j < |path| - 1 && path[i] in c.types
      ensures path[i] != path[j]
    {
      if i % 2 == 1 { ArrayNests(n, sym, i / 2 + 1); }
      assert path[i][0] == 'S' && |path[i]| == i / 2 + 2;
      assert j % 2 == 1 ==> path[j][0] == 'A';
    }
  }

  /** With array types left out of the table, two levels per type: 33 nested types are already cut. */
  lemma UnlistedArraysAreCut(n: nat, sym: Symbol)
    requires n >= 33 && sym.typeName == Struct(0)
    ensures var c := ChainContext(n, true, sym); |c.types| == n && FullExpansion(c).tooDeep
  {
    hide Struct, ChainOf, MixedPath, ChainContext, IsNestingPath;
    var c := ChainContext(n, true, sym);
    ChainSize(n, true);
    CapOfChain(n, true, sym);
    MixedIsPath(n, sym, c.depthCap + 2);
    TooDeepExactly(c);
  }
}
