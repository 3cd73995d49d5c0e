/**
  The recursive expansion of a symbol over the PLC's data-type table into
  recordable leaves: the uncapped expansion as a function, and the source's
  stateful walk proved to follow it as far as its leaf cap allows.
 */
module TypeTable {
  import opened Options
  import opened Odometer
  import opened PlcNames

  /** offset counts bytes from the parent's start, or bits when bit is set. */
  datatype Member = Member(name: string, typeName: string, offset: nat, bit: bool)

  datatype Entry = Entry(
    name: string, elementType: string, size: nat, adst: nat,
    dims: seq<Dim>, members: seq<Member>)
  {
    predicate Composite() {
      dims != [] || members != []
    }
  }

  datatype Context = Context(names: Names, types: map<string, Entry>, root: Symbol, depthCap: nat)

  /** The index group of bit-addressed access. */
  const BIT_GROUP := 0x4041

  /** What a walk came to last: nothing, a leaf, or a place that gave none. */
  datatype Visit = NoVisit | LeafVisit | OtherVisit

  /** Everything an expansion yields when no leaf cap stops it. */
  datatype Report = Report(leaves: seq<Symbol>, skipped: seq<string>, tooDeep: bool, recursive: bool, last: Visit)

  const NOTHING := Report([], [], false, false, NoVisit)

  function Then(a: Report, b: Report): Report {
    Report(a.leaves + b.leaves, a.skipped + b.skipped, a.tooDeep || b.tooDeep, a.recursive || b.recursive,
           if b.last == NoVisit then a.last else b.last)
  }

  function Skip(text: string): Report {
    NOTHING.(skipped := [text], last := OtherVisit)
  }

  function OneLeaf(l: Symbol): Report {
    NOTHING.(leaves := [l], last := LeafVisit)
  }

  /** No leaf without a visit, and none to end at without a leaf. */
  ghost predicate Ended(r: Report) {
    (r.last == NoVisit ==> r.leaves == []) && (r.leaves == [] ==> r.last != LeafVisit)
  }

  function Leaf(c: Context, name: string, typeName: string, dt: Scalar, offset: nat): Symbol {
    c.root.(name := name, typeName := typeName, dataType := Some(dt), unsupported := false,
            size := dt.Size(), offset := offset)
  }

  function BitLeaf(c: Context, name: string, offset: nat, m: Member): Symbol {
    Leaf(c, name + "." + m.name, "BIT", Bool, U32(offset * 8 + m.offset)).(group := BIT_GROUP)
  }

  /** The scalar a table entry that is neither array nor structure stands for. */
  function ScalarOfEntry(c: Context, t: Entry): Option<Scalar> {
    if ScalarOfCode(t.adst) != None then ScalarOfCode(t.adst)
    else if c.names.ScalarOf(t.name) != None then c.names.ScalarOf(t.name)
    else c.names.ScalarOf(t.elementType)
  }

  function SizeOfTypeName(c: Context, typeName: string): Option<nat> {
    match c.names.ScalarOf(typeName)
    case Some(dt) => Some(dt.Size())
    case None =>
      var key := c.names.upper(typeName);
      if key in c.types && c.types[key].size > 0 then Some(c.types[key].size) else None
  }

  function WithType(name: string, typeName: string): string {
    name + " (" + typeName + ")"
  }

  // ---------- the uncapped expansion ----------

  ghost function Expand(c: Context, stack: seq<string>, name: string, typeName: string, offset: nat, depth: nat): (r: Report)
    requires depth <= c.depthCap + 1 && c.names.Sound()
    ensures Ended(r) && r.last != NoVisit
    decreases c.depthCap + 1 - depth, 2, 0
  {
    var key := c.names.upper(typeName);
    if depth > c.depthCap then Skip(name).(tooDeep := true)
    else if key !in c.types then ExpandUnlisted(c, stack, name, typeName, offset, depth)
    else
      var t := c.types[key];
      if !t.Composite() then ExpandScalarEntry(c, name, t, offset)
      else if key in stack then Skip(name + " (" + typeName + ", contains itself)").(recursive := true)
      else if t.dims != [] then
        if TotalElements(t.dims) == 0 || t.size == 0 then Skip(name)
        else ArrayOf(c, stack + [key], name, t.dims, t.elementType, t.size / TotalElements(t.dims), offset, depth)
      else MembersFrom(c, stack + [key], name, t.members, 0, offset, depth)
  }

  function ExpandScalarEntry(c: Context, name: string, t: Entry, offset: nat): Report {
    match ScalarOfEntry(c, t)
    case Some(dt) => OneLeaf(Leaf(c, name, t.name, dt, offset))
    case None => Skip(WithType(name, t.name))
  }

  /** A type name the table does not carry: a scalar, or an array read off its own declaration. */
  ghost function ExpandUnlisted(c: Context, stack: seq<string>, name: string, typeName: string, offset: nat, depth: nat): (r: Report)
    requires depth <= c.depthCap && c.names.Sound()
    ensures Ended(r) && r.last != NoVisit
    decreases c.depthCap + 1 - depth, 1, 0
  {
    var unknown := if typeName == "" then NOTHING.(last := OtherVisit) else Skip(WithType(name, typeName));
    match c.names.ScalarOf(typeName)
    case Some(dt) => OneLeaf(Leaf(c, name, typeName, dt, offset))
    case None =>
      match c.names.parseArray(typeName)
      case None => unknown
      case Some(info) =>
        match SizeOfTypeName(c, info.elementType)
        case None => unknown
        case Some(size) => ArrayOf(c, stack, name, info.dims, info.elementType, size, offset, depth)
  }

  ghost function ArrayOf(c: Context, stack: seq<string>, name: string, dims: seq<Dim>, elementType: string,
                          size: nat, offset: nat, depth: nat): (r: Report)
    requires depth <= c.depthCap && c.names.Sound()
    ensures Ended(r) && r.last != NoVisit
    decreases c.depthCap + 1 - depth, 0, TotalElements(dims) + 1
  {
    if TotalElements(dims) == 0 || size == 0 then Skip(name)
    else ElementsFrom(c, stack, name, dims, elementType, size, 0, offset, depth)
  }

  ghost function ElementsFrom(c: Context, stack: seq<string>, name: string, dims: seq<Dim>, elementType: string,
                              size: nat, n: nat, offset: nat, depth: nat): (r: Report)
    requires depth <= c.depthCap && c.names.Sound()
    requires TotalElements(dims) > 0 && n <= TotalElements(dims)
    ensures Ended(r) && (n < TotalElements(dims) ==> r.last != NoVisit)
    decreases c.depthCap + 1 - depth, 0, TotalElements(dims) - n
  {
    ProductPositive(Counts(dims));
    if n == TotalElements(dims) then NOTHING
    else Then(Expand(c, stack, name + Subscript(dims, n), elementType, U32(offset + U32(n * size)), depth + 1),
              ElementsFrom(c, stack, name, dims, elementType, size, n + 1, offset, depth))
  }

  ghost function MembersFrom(c: Context, stack: seq<string>, name: string, members: seq<Member>, i: nat,
                             offset: nat, depth: nat): (r: Report)
    requires depth <= c.depthCap && c.names.Sound() && i <= |members|
    ensures Ended(r) && (i < |members| ==> r.last != NoVisit)
    decreases c.depthCap + 1 - depth, 0, |members| - i
  {
    if i == |members| then NOTHING
    else
      var m := members[i];
      var first := if m.bit then OneLeaf(BitLeaf(c, name, offset, m))
                   else Expand(c, stack, name + "." + m.name, m.typeName, U32(offset + m.offset), depth + 1);
      Then(first, MembersFrom(c, stack, name, members, i + 1, offset, depth))
  }

  // ---------- the walk under a leaf cap ----------

  datatype Progress = Progress(out: seq<Symbol>, skipped: seq<string>, truncated: bool, tooDeep: bool, recursive: bool)

  /** How many of r's leaves still fit after a. */
  ghost function Fitting(a: Progress, r: Report, maxLeaves: int): (k: nat)
    ensures k <= |r.leaves|
  {
    if maxLeaves <= |a.out| then 0
    else if maxLeaves - |a.out| < |r.leaves| then maxLeaves - |a.out| else |r.leaves|
  }

  /** Behind a, a walk of r comes to some place when the cap is reached already. */
  ghost predicate Overruns(a: Progress, r: Report, maxLeaves: int) {
    var n := |a.out| + |r.leaves|;
    r.last != NoVisit && (n > maxLeaves || (n == maxLeaves && r.last == OtherVisit))
  }

  /** A cut-short walk is always a full one. */
  ghost predicate CutMeansFull(a: Progress, maxLeaves: int) {
    a.truncated ==> |a.out| >= maxLeaves
  }

  /** From a, the walk of r under the cap arrives at b, cut short exactly if it overruns. */
  ghost predicate Follows(a: Progress, b: Progress, r: Report, maxLeaves: int) {
    && Ended(r) && CutMeansFull(b, maxLeaves)
    && b.truncated == (a.truncated || Overruns(a, r, maxLeaves))
    && b.out == a.out + r.leaves[..Fitting(a, r, maxLeaves)]
    && (!b.truncated ==> b == Progress(a.out + r.leaves, a.skipped + r.skipped, a.truncated,
                                       a.tooDeep || r.tooDeep, a.recursive || r.recursive))
    && a.skipped <= b.skipped
    && (a.tooDeep ==> b.tooDeep) && (b.tooDeep ==> a.tooDeep || r.tooDeep)
    && (a.recursive ==> b.recursive) && (b.recursive ==> a.recursive || r.recursive)
  }

  lemma FollowsThen(a: Progress, b: Progress, d: Progress, r: Report, s: Report, maxLeaves: int)
    requires Follows(a, b, r, maxLeaves) && Follows(b, d, s, maxLeaves)
    ensures Follows(a, d, Then(r, s), maxLeaves)
  {
    TakenThen(a, b, d, r, s, maxLeaves);
    OverrunThen(a, b, r, s, maxLeaves);
    hide Fitting, Overruns;
    if !d.truncated {
      assert (a.out + r.leaves) + s.leaves == a.out + (r.leaves + s.leaves);
      assert (a.skipped + r.skipped) + s.skipped == a.skipped + (r.skipped + s.skipped);
    }
  }

  lemma OverrunThen(a: Progress, b: Progress, r: Report, s: Report, maxLeaves: int)
    requires Ended(r) && Ended(s) && b.out == a.out + r.leaves[..Fitting(a, r, maxLeaves)]
    ensures Ended(Then(r, s))
    ensures Overruns(a, Then(r, s), maxLeaves) <==> Overruns(a, r, maxLeaves) || Overruns(b, s, maxLeaves)
  {
  }

  /** What is taken of two reports in turn is what is taken of both together. */
  lemma TakenThen(a: Progress, b: Progress, d: Progress, r: Report, s: Report, maxLeaves: int)
    requires b.out == a.out + r.leaves[..Fitting(a, r, maxLeaves)]
    requires d.out == b.out + s.leaves[..Fitting(b, s, maxLeaves)]
    ensures d.out == a.out + Then(r, s).leaves[..Fitting(a, Then(r, s), maxLeaves)]
  {
    var j, k := Fitting(a, r, maxLeaves), Fitting(b, s, maxLeaves);
    assert |b.out| == |a.out| + j;
    if j < |r.leaves| {
      assert (r.leaves + s.leaves)[..j] == r.leaves[..j];
      assert k == 0;
    } else {
      assert (r.leaves + s.leaves)[..j + k] == r.leaves + s.leaves[..k];
      assert r.leaves[..j] == r.leaves;
    }
  }

  lemma FollowsNothing(a: Progress, maxLeaves: int)
    requires CutMeansFull(a, maxLeaves)
    ensures Follows(a, a, NOTHING, maxLeaves)
  {}

  /** Once full, the walk may stop anywhere. */
  lemma FollowsWhenFull(a: Progress, r: Report, maxLeaves: int)
    requires |a.out| >= maxLeaves && Ended(r) && r.last != NoVisit
    ensures Follows(a, a.(truncated := true), r, maxLeaves)
  {}

  /** Part-way through the walk of whole: done is walked, rest is still to come. */
  ghost predicate OnTrack(start: Progress, now: Progress, whole: Report, done: Report, rest: Report, maxLeaves: int) {
    CutMeansFull(now, maxLeaves) && Follows(start, now, done, maxLeaves) && whole == Then(done, rest) && Ended(rest)
  }

  lemma TrackStart(a: Progress, whole: Report, maxLeaves: int)
    requires CutMeansFull(a, maxLeaves) && Ended(whole)
    ensures OnTrack(a, a, whole, NOTHING, whole, maxLeaves)
  {
    FollowsNothing(a, maxLeaves);
    ThenNothing(whole);
  }

  lemma TrackStep(start: Progress, a: Progress, b: Progress, whole: Report, done: Report, r: Report, rest: Report, maxLeaves: int)
    requires OnTrack(start, a, whole, done, Then(r, rest), maxLeaves) && Follows(a, b, r, maxLeaves) && Ended(rest)
    ensures OnTrack(start, b, whole, Then(done, r), rest, maxLeaves)
  {
    FollowsThen(start, a, b, done, r, maxLeaves);
    ThenAssociates(done, r, rest);
  }

  lemma TrackFull(start: Progress, a: Progress, whole: Report, done: Report, rest: Report, maxLeaves: int)
    requires OnTrack(start, a, whole, done, rest, maxLeaves) && |a.out| >= maxLeaves && Ended(rest) && rest.last != NoVisit
    ensures Follows(start, a.(truncated := true), whole, maxLeaves)
  {
    FollowsWhenFull(a, rest, maxLeaves);
    FollowsThen(start, a, a.(truncated := true), done, rest, maxLeaves);
  }

  lemma TrackCut(start: Progress, a: Progress, whole: Report, done: Report, rest: Report, maxLeaves: int)
    requires OnTrack(start, a, whole, done, rest, maxLeaves)
    ensures CutMeansFull(a, maxLeaves)
  {}

  lemma TrackEnd(start: Progress, a: Progress, whole: Report, done: Report, maxLeaves: int)
    requires OnTrack(start, a, whole, done, NOTHING, maxLeaves)
    ensures Follows(start, a, whole, maxLeaves)
  {
    ThenNothing(done);
  }

  class Expansion {
    const c: Context
    const maxLeaves: int
    var out: seq<Symbol>
    var skipped: seq<string>
    var typeStack: seq<string>
    var truncated: bool
    var tooDeep: bool
    var recursive: bool

    constructor (c: Context, maxLeaves: int)
      ensures this.c == c && this.maxLeaves == maxLeaves
      ensures typeStack == [] && Now() == Progress([], [], false, false, false)
    {
      this.c, this.maxLeaves := c, maxLeaves;
      out, skipped, typeStack := [], [], [];
      truncated, tooDeep, recursive := false, false, false;
    }

    ghost function Now(): Progress
      reads this
    {
      Progress(out, skipped, truncated, tooDeep, recursive)
    }

    predicate Full()
      reads this
    {
      |out| >= maxLeaves
    }

    method ExpandInto(name: string, typeName: string, offset: nat, depth: nat)
      requires depth <= c.depthCap + 1 && c.names.Sound() && CutMeansFull(Now(), maxLeaves)
      modifies this
      ensures typeStack == old(typeStack)
      ensures Follows(old(Now()), Now(), Expand(c, old(typeStack), name, typeName, offset, depth), maxLeaves)
      decreases c.depthCap + 1 - depth, 2
    {
      if Full() {
        FollowsWhenFull(Now(), Expand(c, typeStack, name, typeName, offset, depth), maxLeaves);
        truncated := true;
        return;
      }
      if depth > c.depthCap {
        tooDeep := true;
        skipped := skipped + [name];
        return;
      }
      var key := c.names.upper(typeName);
      if key !in c.types {
        ExpandUnlistedType(name, typeName, offset, depth);
        return;
      }
      var t := c.types[key];
      if t.Composite() {
        if key in typeStack {
          recursive := true;
          skipped := skipped + [name + " (" + typeName + ", contains itself)"];
          return;
        }
        typeStack := typeStack + [key];
        ExpandComposite(t, name, offset, depth);
        typeStack := typeStack[..|typeStack| - 1];
        return;
      }
      var dt := ScalarOfEntry(c, t);
      if dt == None {
        skipped := skipped + [WithType(name, t.name)];
        return;
      }
      out := out + [Leaf(c, name, t.name, dt.value, offset)];
    }

    method ExpandUnlistedType(name: string, typeName: string, offset: nat, depth: nat)
      requires depth <= c.depthCap && c.names.Sound() && CutMeansFull(Now(), maxLeaves) && !Full()
      modifies this
      ensures typeStack == old(typeStack)
      ensures Follows(old(Now()), Now(), ExpandUnlisted(c, old(typeStack), name, typeName, offset, depth), maxLeaves)
      decreases c.depthCap + 1 - depth, 1
    {
      var dt := c.names.ScalarOf(typeName);
      if dt != None {
        out := out + [Leaf(c, name, typeName, dt.value, offset)];
        return;
      }
      var arr := c.names.parseArray(typeName);
      if arr != None {
        var elemSize := SizeOfTypeName(c, arr.value.elementType);
        if elemSize != None {
          ExpandArrayElements(name, arr.value.dims, arr.value.elementType, elemSize.value, offset, depth);
          return;
        }
      }
      if typeName != "" {
        skipped := skipped + [WithType(name, typeName)];
      }
    }

    /** The array and the structure case, entered with the type already on the stack. */
    method ExpandComposite(t: Entry, name: string, offset: nat, depth: nat)
      requires depth <= c.depthCap && c.names.Sound() && CutMeansFull(Now(), maxLeaves)
      requires t.Composite() && !Full()
      modifies this
      ensures typeStack == old(typeStack)
      ensures var r := if t.dims == [] then MembersFrom(c, old(typeStack), name, t.members, 0, offset, depth)
                       else if TotalElements(t.dims) == 0 || t.size == 0 then Skip(name)
                       else ArrayOf(c, old(typeStack), name, t.dims, t.elementType, t.size / TotalElements(t.dims), offset, depth);
              Follows(old(Now()), Now(), r, maxLeaves)
      decreases c.depthCap + 1 - depth, 1
    {
      if t.dims != [] {
        var count := TotalElements(t.dims);
        if count <= 0 || t.size == 0 {
          skipped := skipped + [name];
          return;
        }
        ExpandArrayElements(name, t.dims, t.elementType, t.size / count, offset, depth);
      } else {
        ExpandMembers(t.members, name, offset, depth);
      }
    }

    method ExpandArrayElements(name: string, dims: seq<Dim>, elemTypeName: string, elemSize: nat, offset: nat, depth: nat)
      requires depth <= c.depthCap && c.names.Sound() && CutMeansFull(Now(), maxLeaves) && !Full()
      modifies this
      ensures typeStack == old(typeStack)
      ensures Follows(old(Now()), Now(),
                      ArrayOf(c, old(typeStack), name, dims, elemTypeName, elemSize, offset, depth), maxLeaves)
      decreases c.depthCap + 1 - depth, 0, 1
    {
      hide Expand, ElementsFrom, Digits;
      var count := TotalElements(dims);
      if count <= 0 || elemSize == 0 {
        skipped := skipped + [name];
        return;
      }
      ProductPositive(Counts(dims));
      var counts := Counts(dims);
      var idx := new nat[|counts|](_ => 0);
      DigitsOfZero(counts);
      ghost var stack, start, done := typeStack, Now(), NOTHING;
      ghost var whole := ElementsFrom(c, stack, name, dims, elemTypeName, elemSize, 0, offset, depth);
      TrackStart(start, whole, maxLeaves);
      hide *;
      var n := 0;
      while n < count
        invariant 0 <= n <= count && typeStack == stack && idx[..] == Digits(counts, n)
        invariant OnTrack(start, Now(), whole, done,
                          ElementsFrom(c, stack, name, dims, elemTypeName, elemSize, n, offset, depth), maxLeaves)
      {
        var stopped;
        stopped, done := ExpandElement(name, dims, elemTypeName, elemSize, idx[..], n, offset, depth, start, whole, done);
        if stopped {
          return;
        }
        NextIsSuccessor(counts, n);
        Step(idx, counts);
        n := n + 1;
      }
      ElementsFromEnd(c, stack, name, dims, elemTypeName, elemSize, offset, depth);
      TrackEnd(start, Now(), whole, done, maxLeaves);
    }

    /** One turn of the element loop; stopped when the leaf cap is reached. */
    method ExpandElement(name: string, dims: seq<Dim>, elemTypeName: string, elemSize: nat, idx: seq<nat>, n: nat,
                         offset: nat, depth: nat, ghost start: Progress, ghost whole: Report, ghost done: Report)
      returns (stopped: bool, ghost done': Report)
      requires depth <= c.depthCap && c.names.Sound() && n < TotalElements(dims)
      requires AllPositive(Counts(dims)) && idx == Digits(Counts(dims), n)
      requires OnTrack(start, Now(), whole, done,
                       ElementsFrom(c, typeStack, name, dims, elemTypeName, elemSize, n, offset, depth), maxLeaves)
      modifies this
      ensures typeStack == old(typeStack)
      ensures stopped ==> Follows(start, Now(), whole, maxLeaves)
      ensures !stopped ==>
                OnTrack(start, Now(), whole, done',
                        ElementsFrom(c, typeStack, name, dims, elemTypeName, elemSize, n + 1, offset, depth), maxLeaves)
      decreases c.depthCap + 1 - depth, 0, 0
    {
      hide Follows, Then, Expand, Digits, Joined, OnTrack, ElementsFrom, AllPositive, CutMeansFull;
      ghost var before, stack := Now(), typeStack;
      ghost var rest := ElementsFrom(c, stack, name, dims, elemTypeName, elemSize, n + 1, offset, depth);
      ghost var r := Expand(c, stack, name + Subscript(dims, n), elemTypeName, U32(offset + U32(n * elemSize)), depth + 1);
      ElementsFromStep(c, stack, name, dims, elemTypeName, elemSize, n, offset, depth);
      if Full() {
        TrackFull(start, before, whole, done, Then(r, rest), maxLeaves);
        truncated := true;
        return true, done;
      }
      var sub := "[" + Joined(PlcNames.Shifted(dims, idx)) + "]";
      TrackCut(start, before, whole, done, Then(r, rest), maxLeaves);
      ExpandInto(name + sub, elemTypeName, U32(offset + U32(n * elemSize)), depth + 1);
      TrackStep(start, before, Now(), whole, done, r, rest, maxLeaves);
      return false, Then(done, r);
    }

    method ExpandMembers(members: seq<Member>, name: string, offset: nat, depth: nat)
      requires depth <= c.depthCap && c.names.Sound() && CutMeansFull(Now(), maxLeaves)
      modifies this
      ensures typeStack == old(typeStack)
      ensures Follows(old(Now()), Now(), MembersFrom(c, old(typeStack), name, members, 0, offset, depth), maxLeaves)
      decreases c.depthCap + 1 - depth, 0
    {
      ghost var stack, start, done := typeStack, Now(), NOTHING;
      ghost var whole := MembersFrom(c, stack, name, members, 0, offset, depth);
      TrackStart(start, whole, maxLeaves);
      for i := 0 to |members|
        invariant typeStack == stack
        invariant OnTrack(start, Now(), whole, done, MembersFrom(c, stack, name, members, i, offset, depth), maxLeaves)
      {
        var m := members[i];
        ghost var before := Now();
        ghost var rest := MembersFrom(c, stack, name, members, i + 1, offset, depth);
        ghost var r: Report;
        if m.bit {
          r := OneLeaf(BitLeaf(c, name, offset, m));
          if Full() {
            TrackFull(start, before, whole, done, Then(r, rest), maxLeaves);
            truncated := true;
            return;
          }
          out := out + [BitLeaf(c, name, offset, m)];
        } else {
          r := Expand(c, stack, name + "." + m.name, m.typeName, U32(offset + m.offset), depth + 1);
          ExpandInto(name + "." + m.name, m.typeName, U32(offset + m.offset), depth + 1);
        }
        TrackStep(start, before, Now(), whole, done, r, rest, maxLeaves);
        done := Then(done, r);
      }
      TrackEnd(start, Now(), whole, done, maxLeaves);
    }
  }

  lemma ElementsFromStep(c: Context, stack: seq<string>, name: string, dims: seq<Dim>, elementType: string,
                         size: nat, n: nat, offset: nat, depth: nat)
    requires depth <= c.depthCap && c.names.Sound() && n < TotalElements(dims)
    ensures AllPositive(Counts(dims))
    ensures ElementsFrom(c, stack, name, dims, elementType, size, n, offset, depth)
         == Then(Expand(c, stack, name + Subscript(dims, n), elementType, U32(offset + U32(n * size)), depth + 1),
                 ElementsFrom(c, stack, name, dims, elementType, size, n + 1, offset, depth))
  {
    ProductPositive(Counts(dims));
  }

  lemma ElementsFromEnd(c: Context, stack: seq<string>, name: string, dims: seq<Dim>, elementType: string,
                        size: nat, offset: nat, depth: nat)
    requires depth <= c.depthCap && c.names.Sound() && TotalElements(dims) > 0
    ensures ElementsFrom(c, stack, name, dims, elementType, size, TotalElements(dims), offset, depth) == NOTHING
  {}

  lemma ThenAssociates(a: Report, b: Report, d: Report)
    ensures Then(Then(a, b), d) == Then(a, Then(b, d))
  {
    assert (a.leaves + b.leaves) + d.leaves == a.leaves + (b.leaves + d.leaves);
    assert (a.skipped + b.skipped) + d.skipped == a.skipped + (b.skipped + d.skipped);
  }

  lemma ThenNothing(a: Report)
    ensures Then(a, NOTHING) == a && Then(NOTHING, a) == a
  {
    assert a.leaves + [] == a.leaves && [] + a.leaves == a.leaves;
    assert a.skipped + [] == a.skipped && [] + a.skipped == a.skipped;
  }
}
