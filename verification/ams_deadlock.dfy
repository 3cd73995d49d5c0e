/**
  Exactly when a timed-out call of the AMS router client and its reader thread
  block each other: the caller wants the map lock while it holds its frame lock,
  the reader the other way round.
 */
module AmsDeadlock {
  import opened Options
  import opened AmsProtocol

  /** Before it lets go of the map lock, the reader has to lock the frame of call c. */
  ghost predicate MustLock(s: State, c: nat) {
    || (s.reader.Target? && s.reader.call == c)
    || (s.reader.LookingUp? && s.reader.frame.inv in s.pending && s.pending[s.reader.frame.inv] == c)
    || (s.reader.Draining? && exists inv :: inv in s.pending && inv !in s.reader.visited && s.pending[inv] == c)
  }

  /** A timed-out call holds its frame lock and wants the map lock, and the reader the other way round. */
  ghost predicate Blocks(s: State, c: nat) {
    c in s.calls && s.calls[c].pc == TimedOut && MustLock(s, c)
  }

  ghost predicate Deadlocked(s: State) {
    exists c :: Blocks(s, c)
  }

  // ---------- it lasts ----------

  lemma BlocksStep(s: State, e: Event, c: nat)
    requires Inv(s) && Enabled(s, e) && Blocks(s, c)
    ensures Blocks(Do(s, e), c) && s.owner == ByReader
  {
    assert MapLockAgrees(s) && FrameLockAgrees(s, c);
    hide EntryOk, FrameOk, CallOk, TargetOk, WaitersListed, FrameLockAgrees;
    if s.reader.Draining? {
      var inv :| inv in s.pending && inv !in s.reader.visited && s.pending[inv] == c;
      assert s.calls[c].lock == Caller by { CallerHolds(s, c); }
      var t := Do(s, e);
      assert t.reader.Draining? && inv in t.pending && inv !in t.reader.visited && t.pending[inv] == c;
    } else {
      assert s.calls[c].lock == Caller by { CallerHolds(s, c); }
    }
  }

  lemma CallerHolds(s: State, c: nat)
    requires Core(s) && c in s.calls && s.calls[c].pc == TimedOut
    ensures s.calls[c].lock == Caller
  {
    assert FrameLockAgrees(s, c);
  }

  /** While they block each other, no timed-out call gets any further. */
  lemma DeadlockLasts(s: State, e: Event, d: nat)
    requires Inv(s) && Deadlocked(s) && Enabled(s, e) && d in s.calls && s.calls[d].pc == TimedOut
    ensures Deadlocked(Do(s, e)) && d in Do(s, e).calls && Do(s, e).calls[d].pc == TimedOut
  {
    hide Do, Enabled, Core, WaitersListed, Blocks;
    var c :| Blocks(s, c);
    BlocksStep(s, e, c);
    CallerHolds(s, d);
    TimedOutStays(s, e, d);
  }

  lemma TimedOutStays(s: State, e: Event, d: nat)
    requires Enabled(s, e) && s.owner == ByReader && d in s.calls && s.calls[d].pc == TimedOut && s.calls[d].lock == Caller
    ensures d in Do(s, e).calls && Do(s, e).calls[d].pc == TimedOut
  {
  }

  // ---------- runs from a state ----------

  ghost predicate CanRun(s: State, events: seq<Event>)
    decreases |events|
  {
    events == [] || (Enabled(s, events[0]) && CanRun(Do(s, events[0]), events[1..]))
  }

  ghost function Final(s: State, events: seq<Event>): State
    requires CanRun(s, events)
    decreases |events|
  {
    if events == [] then s else Final(Do(s, events[0]), events[1..])
  }

  /** Some continuation lets the call return. */
  ghost predicate CanReturn(s: State, c: nat) {
    exists events :: CanRun(s, events) && c in Final(s, events).calls && Final(s, events).calls[c].pc == Returned
  }

  lemma CanReturnEarlier(s: State, e: Event, c: nat)
    requires Enabled(s, e) && CanReturn(Do(s, e), c)
    ensures CanReturn(s, c)
  {
    hide Enabled, Do;
    var events :| CanRun(Do(s, e), events) && c in Final(Do(s, e), events).calls
                  && Final(Do(s, e), events).calls[c].pc == Returned;
    var all := [e] + events;
    assert all[1..] == events;
    assert CanRun(s, all) && Final(s, all) == Final(Do(s, e), events);
  }

  lemma {:induction false} DeadlockForever(s: State, events: seq<Event>, d: nat)
    requires Inv(s) && Deadlocked(s) && d in s.calls && s.calls[d].pc == TimedOut && CanRun(s, events)
    ensures d in Final(s, events).calls && Final(s, events).calls[d].pc == TimedOut
    decreases |events|
  {
    hide Enabled, Do, Inv, Deadlocked;
    if events != [] {
      DeadlockLasts(s, events[0], d);
      InvStep(s, events[0]);
      DeadlockForever(Do(s, events[0]), events[1..], d);
    }
  }

  // ---------- and otherwise the map lock comes free ----------

  /** With the map lock free, a timed-out call erases its entry and returns. */
  lemma ReturnsWhenFree(s: State, c: nat)
    requires s.owner == Free && c in s.calls && s.calls[c].pc == TimedOut
    ensures CanReturn(s, c)
  {
    var t := Do(s, LockForErase(c));
    var u := Do(t, EraseAndReturn(c));
    assert CanRun(u, []) && Final(u, []) == u;
    assert CanReturn(u, c);
    CanReturnEarlier(t, EraseAndReturn(c), c);
    CanReturnEarlier(s, LockForErase(c), c);
  }

  /** Another call lets go of the map lock. */
  lemma ReturnsAfterCall(s: State, c: nat, d: nat)
    requires Inv(s) && c in s.calls && s.calls[c].pc == TimedOut && s.owner == ByCall(d)
    ensures CanReturn(s, c)
    decreases match s.calls[d].pc case HoldsMap => 3 case Sent => 2 case Registered => 1 case _ => 0
  {
    assert MapLockAgrees(s) && d in s.calls && d != c;
    var e := match s.calls[d].pc
      case HoldsMap => Send(d)
      case Sent => Register(d)
      case Registered => Unlock(d)
      case _ => EraseAndReturn(d);
    InvStep(s, e);
    hide Inv, CanReturn;
    if Do(s, e).owner == Free {
      ReturnsWhenFree(Do(s, e), c);
    } else {
      ReturnsAfterCall(Do(s, e), c, d);
    }
    CanReturnEarlier(s, e, c);
  }

  /** What the reader still has to do before it lets go of the map lock. */
  ghost function Work(r: ReaderPc): nat {
    match r
    case LookingUp(_) => 3
    case Target(_, _) => 2
    case Completing(_, _) => 1
    case _ => 0
  }

  /** How many entries the drain has not come to. */
  ghost function Unvisited(s: State): nat {
    if s.reader.Draining? then |s.pending.Keys - s.reader.visited| else 0
  }

  /** A call the reader has to lock waits on its condition variable, unless it has timed out. */
  lemma TargetIsFree(s: State, d: nat)
    requires Inv(s) && s.owner == ByReader && MustLock(s, d) && !Blocks(s, d)
    ensures d in s.calls && s.calls[d].pc == Waiting && s.calls[d].lock == NoOne
  {
    assert MapLockAgrees(s);
    if s.reader.LookingUp? {
      assert EntryOk(s, s.reader.frame.inv);
    } else if s.reader.Draining? {
      var inv :| inv in s.pending && inv !in s.reader.visited && s.pending[inv] == d;
      assert EntryOk(s, inv);
    }
    assert FrameLockAgrees(s, d);
  }

  /** The reader's next step while it holds the map lock. */
  ghost function NextOfReader(s: State): Event
    requires ReaderHoldsMap(s.reader)
  {
    match s.reader
    case LookingUp(_) => Lookup
    case Target(_, _) => LockTarget
    case Completing(_, _) => Complete
    case Draining(visited) =>
      if inv :| inv in s.pending && inv !in visited then DrainOne(inv) else Clear
  }

  lemma ReaderGoesOn(s: State, c: nat)
    requires Inv(s) && c in s.calls && s.calls[c].pc == TimedOut && s.owner == ByReader && !Deadlocked(s)
    ensures ReaderHoldsMap(s.reader)
    ensures var e := NextOfReader(s);
            && Enabled(s, e)
            && var t := Do(s, e);
            && c in t.calls && t.calls[c].pc == TimedOut && !Deadlocked(t)
            && (t.owner == Free || (t.owner == ByReader
                  && (Work(t.reader) < Work(s.reader)
                      || (Work(t.reader) == Work(s.reader) && Unvisited(t) < Unvisited(s)))))
  {
    assert MapLockAgrees(s);
    var e := NextOfReader(s);
    match s.reader
    case LookingUp(f) =>
      if f.inv in s.pending { TargetIsFree(s, s.pending[f.inv]); }
    case Target(_, d) => TargetIsFree(s, d);
    case Completing(_, d) => assert TargetOk(s);
    case Draining(visited) =>
      if e.DrainOne? {
        TargetIsFree(s, s.pending[e.inv]);
        assert s.pending.Keys - visited == (s.pending.Keys - (visited + {e.inv})) + {e.inv};
      }
      NoNewTarget(s, e);
  }

  lemma NoNewTarget(s: State, e: Event)
    requires Inv(s) && Enabled(s, e) && s.reader.Draining? && !Deadlocked(s) && (e.DrainOne? || e.Clear?)
    ensures !Deadlocked(Do(s, e))
  {
    var t := Do(s, e);
    forall d
      ensures !Blocks(t, d)
    {
      assert !Blocks(s, d);
    }
  }

  /** So without a deadlock the reader comes to the end of its work, and the call returns. */
  lemma ReturnsAfterReader(s: State, c: nat)
    requires Inv(s) && c in s.calls && s.calls[c].pc == TimedOut && s.owner == ByReader && !Deadlocked(s)
    ensures CanReturn(s, c)
    decreases Work(s.reader), Unvisited(s)
  {
    ReaderGoesOn(s, c);
    var e := NextOfReader(s);
    var t := Do(s, e);
    InvStep(s, e);
    hide *;
    if t.owner == Free {
      ReturnsWhenFree(t, c);
    } else {
      ReturnsAfterReader(t, c);
    }
    CanReturnEarlier(s, e, c);
  }

  /**
    In every reachable state a timed-out call can still return if and only if the
    reader does not have to lock the frame of a timed-out call before it lets go
    of the map lock.
   */
  lemma ReturnsUnlessDeadlocked(events: seq<Event>, c: nat)
    requires IsRun(events) && c in After(events).calls && After(events).calls[c].pc == TimedOut
    ensures CanReturn(After(events), c) <==> !Deadlocked(After(events))
  {
    InvAlways(events);
    var s := After(events);
    if Deadlocked(s) {
      if more :| CanRun(s, more) && c in Final(s, more).calls && Final(s, more).calls[c].pc == Returned {
        DeadlockForever(s, more, c);
      }
    } else {
      match s.owner
      case Free => ReturnsWhenFree(s, c);
      case ByCall(d) => ReturnsAfterCall(s, c, d);
      case ByReader => ReturnsAfterReader(s, c);
    }
  }

  // ---------- both kinds of deadlock are reached ----------

  /** A reply is being handed over while its call gives up. */
  lemma TimeoutCanMeetReply() returns (events: seq<Event>)
    ensures IsRun(events) && After(events).reader.Target? && Blocks(After(events), After(events).reader.call)
  {
    var f := Frame(1, 0, [], None);
    events := [];
    OneStep(events, Begin(7)); events := events + [Begin(7)];
    OneStep(events, Send(7)); events := events + [Send(7)];
    OneStep(events, Register(7)); events := events + [Register(7)];
    OneStep(events, Unlock(7)); events := events + [Unlock(7)];
    OneStep(events, Receive(f)); events := events + [Receive(f)];
    OneStep(events, Expire(7)); events := events + [Expire(7)];
    OneStep(events, LockForLookup); events := events + [LockForLookup];
    OneStep(events, Lookup); events := events + [Lookup];
  }

  /** The reader wakes the waiting calls on its way out while one of them gives up. */
  lemma TimeoutCanMeetDrain() returns (events: seq<Event>)
    ensures IsRun(events) && After(events).reader.Draining? && Blocks(After(events), 7)
  {
    events := [];
    OneStep(events, Begin(7)); events := events + [Begin(7)];
    OneStep(events, Send(7)); events := events + [Send(7)];
    OneStep(events, Register(7)); events := events + [Register(7)];
    OneStep(events, Unlock(7)); events := events + [Unlock(7)];
    OneStep(events, Stop); events := events + [Stop];
    OneStep(events, Expire(7)); events := events + [Expire(7)];
    OneStep(events, LockForDrain); events := events + [LockForDrain];
    var s := After(events);
    assert 1 in s.pending && s.pending[1] == 7 && 1 !in s.reader.visited;
  }
}
