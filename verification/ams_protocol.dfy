/**
  Requests and the reader thread of the AMS router client, as interleaved steps
  over the map lock (pendMtx) and one lock per call frame (Pending::m).

  A call's frame lives on its caller's stack: once the call has returned, the
  frame is gone, and a pointer to it must not be followed any more.
 */
module AmsProtocol {
  import opened Options

  /** A reply frame. The origin is the call whose request it truly answers, if any; peers may send anything. */
  datatype Frame = Frame(inv: nat, amsError: nat, data: seq<bv8>, origin: Option<nat>)

  /** ADSERR_CLIENT_SYNCTIMEOUT */
  const SYNC_TIMEOUT: nat := 1861

  datatype CallPc =
    | HoldsMap        // has pendMtx, about to send
    | Sent            // has pendMtx, request sent, not yet in the map
    | Registered      // has pendMtx, in the map
    | Waiting         // has no lock, waits on its condition variable
    | TimedOut        // has its own frame lock, wants pendMtx
    | Erasing         // has both locks
    | Returned        // the frame is gone

  datatype FrameOwner = NoOne | Caller | Reader

  /** One request and its stack frame. */
  datatype Call = Call(
    pc: CallPc, inv: nat, lock: FrameOwner,
    done: bool, amsError: nat, reply: Option<Frame>, completions: nat,
    result: Option<nat>)

  datatype ReaderPc =
    | Receiving
    | Got(frame: Frame)                    // wants pendMtx
    | LookingUp(frame: Frame)              // has pendMtx
    | Target(frame: Frame, call: nat)      // has pendMtx, entry erased, wants the frame lock
    | Completing(frame: Frame, call: nat)  // has pendMtx and the frame lock
    | Stopping                             // loop left, wants pendMtx
    | Draining(visited: set<nat>)          // has pendMtx
    | Exited

  datatype MapOwner = Free | ByReader | ByCall(call: nat)

  datatype State = State(
    counter: nat, owner: MapOwner, pending: map<nat, nat>, calls: map<nat, Call>, reader: ReaderPc)

  datatype Event =
    | Begin(call: nat)            // a new request locks the map
    | Send(call: nat)
    | Register(call: nat)
    | Unlock(call: nat)
    | WakeDone(call: nat)         // wait_for sees done, request returns the reply
    | Expire(call: nat)           // wait_for gives up, still holding the frame lock
    | LockForErase(call: nat)
    | EraseAndReturn(call: nat)
    | Receive(frame: Frame)
    | LockForLookup
    | Lookup
    | LockTarget
    | Complete
    | Stop
    | LockForDrain
    | DrainOne(inv: nat)
    | Clear

  const WRAP: nat := 0x1_0000_0000

  const INITIAL := State(1, Free, map[], map[], Receiving)

  /** A frame that answers a request can only exist once that request has been sent. */
  ghost predicate Genuine(s: State, frame: Frame) {
    frame.origin.Some? ==>
      var c := frame.origin.value;
      c in s.calls && !s.calls[c].pc.HoldsMap? && s.calls[c].inv == frame.inv
  }

  ghost predicate Enabled(s: State, e: Event) {
    match e
    case Begin(c) => c !in s.calls && s.owner == Free
    case Send(c) => c in s.calls && s.calls[c].pc == HoldsMap
    case Register(c) => c in s.calls && s.calls[c].pc == Sent
    case Unlock(c) => c in s.calls && s.calls[c].pc == Registered
    case WakeDone(c) => c in s.calls && s.calls[c].pc == Waiting && s.calls[c].lock == NoOne && s.calls[c].done
    case Expire(c) => c in s.calls && s.calls[c].pc == Waiting && s.calls[c].lock == NoOne && !s.calls[c].done
    case LockForErase(c) => c in s.calls && s.calls[c].pc == TimedOut && s.owner == Free
    case EraseAndReturn(c) => c in s.calls && s.calls[c].pc == Erasing
    case Receive(f) => s.reader == Receiving && Genuine(s, f)
    case LockForLookup => s.reader.Got? && s.owner == Free
    case Lookup => s.reader.LookingUp?
    case LockTarget => s.reader.Target? && s.reader.call in s.calls && s.calls[s.reader.call].lock == NoOne
    case Complete => s.reader.Completing? && s.reader.call in s.calls
    case Stop => s.reader == Receiving
    case LockForDrain => s.reader == Stopping && s.owner == Free
    case DrainOne(inv) =>
      && s.reader.Draining? && inv in s.pending && inv !in s.reader.visited
      && s.pending[inv] in s.calls && s.calls[s.pending[inv]].lock == NoOne
    case Clear => s.reader.Draining? && s.pending.Keys <= s.reader.visited
  }

  ghost function SetCall(s: State, c: nat, call: Call): State {
    s.(calls := s.calls[c := call])
  }

  ghost function Do(s: State, e: Event): State
    requires Enabled(s, e)
  {
    match e
    case Begin(c) =>
      SetCall(s, c, Call(HoldsMap, 0, NoOne, false, 0, None, 0, None)).(owner := ByCall(c))
    case Send(c) =>
      SetCall(s, c, s.calls[c].(pc := Sent, inv := s.counter)).(counter := (s.counter + 1) % WRAP)
    case Register(c) =>
      SetCall(s, c, s.calls[c].(pc := Registered)).(pending := s.pending[s.calls[c].inv := c])
    case Unlock(c) =>
      SetCall(s, c, s.calls[c].(pc := Waiting)).(owner := Free)
    case WakeDone(c) =>
      SetCall(s, c, s.calls[c].(pc := Returned, result := Some(s.calls[c].amsError)))
    case Expire(c) =>
      SetCall(s, c, s.calls[c].(pc := TimedOut, lock := Caller))
    case LockForErase(c) =>
      SetCall(s, c, s.calls[c].(pc := Erasing)).(owner := ByCall(c))
    case EraseAndReturn(c) =>
      SetCall(s, c, s.calls[c].(pc := Returned, lock := NoOne, result := Some(SYNC_TIMEOUT)))
        .(pending := s.pending - {s.calls[c].inv}, owner := Free)
    case Receive(f) => s.(reader := Got(f))
    case LockForLookup => s.(reader := LookingUp(s.reader.frame), owner := ByReader)
    case Lookup =>
      var f := s.reader.frame;
      if f.inv in s.pending then s.(reader := Target(f, s.pending[f.inv]), pending := s.pending - {f.inv})
      else s.(reader := Receiving, owner := Free)
    case LockTarget =>
      var c := s.reader.call;
      SetCall(s, c, s.calls[c].(lock := Reader)).(reader := Completing(s.reader.frame, c))
    case Complete =>
      var c, f := s.reader.call, s.reader.frame;
      SetCall(s, c, s.calls[c].(lock := NoOne, done := true, amsError := f.amsError, reply := Some(f),
                                completions := s.calls[c].completions + 1))
        .(reader := Receiving, owner := Free)
    case Stop => s.(reader := Stopping)
    case LockForDrain => s.(reader := Draining({}), owner := ByReader)
    case DrainOne(inv) =>
      var c := s.pending[inv];
      SetCall(s, c, s.calls[c].(done := true, amsError := SYNC_TIMEOUT, completions := s.calls[c].completions + 1))
        .(reader := Draining(s.reader.visited + {inv}))
    case Clear => s.(reader := Exited, pending := map[], owner := Free)
  }

  // ---------- runs ----------

  ghost predicate IsRun(events: seq<Event>)
    decreases |events|, 0
  {
    events == [] || (IsRun(events[..|events| - 1]) && Enabled(After(events[..|events| - 1]), events[|events| - 1]))
  }

  ghost function After(events: seq<Event>): State
    requires IsRun(events)
    decreases |events|, 1
  {
    if events == [] then INITIAL else Do(After(events[..|events| - 1]), events[|events| - 1])
  }

  // ---------- the invariant ----------

  /** A call between putting itself into the map and returning. */
  ghost predicate Live(call: Call) {
    call.pc == Registered || call.pc == Waiting || call.pc == TimedOut || call.pc == Erasing
  }

  ghost predicate HoldsMapLock(call: Call) {
    call.pc == HoldsMap || call.pc == Sent || call.pc == Registered || call.pc == Erasing
  }

  ghost predicate ReaderHoldsMap(r: ReaderPc) {
    r.LookingUp? || r.Target? || r.Completing? || r.Draining?
  }

  /** A drain has already woken the call registered under inv. */
  ghost predicate Woken(s: State, inv: nat) {
    s.reader.Draining? && inv in s.reader.visited
  }

  ghost predicate MapLockAgrees(s: State) {
    && (forall c | c in s.calls :: HoldsMapLock(s.calls[c]) <==> s.owner == ByCall(c))
    && (s.owner.ByCall? ==> s.owner.call in s.calls)
    && (ReaderHoldsMap(s.reader) <==> s.owner == ByReader)
  }

  ghost predicate FrameLockAgrees(s: State, c: nat)
    requires c in s.calls
  {
    && (s.calls[c].lock == Caller <==> s.calls[c].pc == TimedOut || s.calls[c].pc == Erasing)
    && (s.calls[c].lock == Reader <==> s.reader.Completing? && s.reader.call == c)
  }

  ghost predicate EntryOk(s: State, inv: nat)
    requires inv in s.pending
  {
    var c := s.pending[inv];
    && c in s.calls && s.calls[c].inv == inv
    && (if Woken(s, inv) then s.calls[c].done else Live(s.calls[c]) && !s.calls[c].done)
  }

  ghost predicate CallOk(call: Call) {
    && call.completions == (if call.done then 1 else 0)
    && (call.done ==> call.pc == Waiting || call.pc == Returned)
    && (call.reply.Some? ==> call.done && call.reply.value.inv == call.inv && call.amsError == call.reply.value.amsError)
    && (call.done && call.reply.None? ==> call.amsError == SYNC_TIMEOUT)
    && (call.pc == Returned <==> call.result.Some?)
    && (call.result.Some? ==> call.result.value == if call.done then call.amsError else SYNC_TIMEOUT)
  }

  ghost predicate TargetOk(s: State) {
    s.reader.Target? || s.reader.Completing? ==>
      var c := s.reader.call;
      && c in s.calls && s.calls[c].inv == s.reader.frame.inv
      && (s.calls[c].pc == Waiting || s.calls[c].pc == TimedOut) && !s.calls[c].done
      && (forall inv | inv in s.pending :: s.pending[inv] != c)
  }

  /** Of the frame in the reader's hands: the request it answers has been sent. */
  ghost predicate FrameOk(s: State) {
    s.reader.Got? || s.reader.LookingUp? ==> Genuine(s, s.reader.frame)
  }

  /** No other request that was sent carries c's invoke id. */
  ghost predicate OnlyOneWithId(s: State, c: nat)
    requires c in s.calls
  {
    forall d | d in s.calls && d != c && s.calls[d].pc != HoldsMap :: s.calls[d].inv != s.calls[c].inv
  }

  ghost predicate InReadersHands(s: State, c: nat) {
    (s.reader.Target? || s.reader.Completing?) && s.reader.call == c
  }

  /** A call still waiting for its reply is in the map, unless another request took over its invoke id. */
  ghost predicate WaitersListed(s: State) {
    forall c | c in s.calls && Live(s.calls[c]) && !s.calls[c].done && !InReadersHands(s, c) && OnlyOneWithId(s, c) ::
      s.calls[c].inv in s.pending && s.pending[s.calls[c].inv] == c
  }

  ghost predicate Core(s: State) {
    && MapLockAgrees(s) && TargetOk(s) && FrameOk(s)
    && (forall inv | inv in s.pending :: EntryOk(s, inv))
    && forall c | c in s.calls :: FrameLockAgrees(s, c) && CallOk(s.calls[c])
  }

  ghost predicate Inv(s: State) {
    Core(s) && WaitersListed(s)
  }

  lemma CoreParts(s: State)
    requires Core(s)
    ensures MapLockAgrees(s) && TargetOk(s) && forall c | c in s.calls :: CallOk(s.calls[c])
    ensures s.owner.ByCall? ==> !s.reader.Draining?
  {
    hide FrameLockAgrees, EntryOk, CallOk, FrameOk;
  }

  lemma EntryBefore(s: State, inv: nat)
    requires Core(s) && inv in s.pending
    ensures EntryOk(s, inv) && CallOk(s.calls[s.pending[inv]])
  {
    hide FrameLockAgrees, FrameOk;
  }

  lemma MapLockStep(s: State, e: Event)
    requires Core(s) && Enabled(s, e)
    ensures MapLockAgrees(Do(s, e))
  {
    hide Core, FrameLockAgrees, EntryOk, FrameOk, CallOk, TargetOk, Genuine;
    CoreParts(s);
  }

  lemma FrameLockBefore(s: State, c: nat)
    requires Core(s) && c in s.calls
    ensures FrameLockAgrees(s, c)
  {
    hide EntryOk, CallOk, FrameOk;
  }

  lemma FrameLockStep(s: State, e: Event, c: nat)
    requires Core(s) && Enabled(s, e) && c in Do(s, e).calls
    ensures FrameLockAgrees(Do(s, e), c)
  {
    hide Core, FrameOk, CallOk, EntryOk;
    CoreParts(s);
    if c in s.calls { FrameLockBefore(s, c); }
  }

  lemma EntryStep(s: State, e: Event, inv: nat)
    requires Core(s) && Enabled(s, e) && inv in Do(s, e).pending
    ensures EntryOk(Do(s, e), inv)
  {
    hide Core, FrameOk, FrameLockAgrees;
    CoreParts(s);
    if inv in s.pending { EntryBefore(s, inv); }
    if e.DrainOne? { EntryBefore(s, e.inv); }
    if e.Register? { assert !Woken(s, inv) && CallOk(s.calls[e.call]); }
  }

  lemma TargetStep(s: State, e: Event)
    requires Core(s) && Enabled(s, e)
    ensures TargetOk(Do(s, e))
  {
    hide FrameOk, CallOk;
  }

  lemma FrameStep(s: State, e: Event)
    requires Core(s) && Enabled(s, e)
    ensures FrameOk(Do(s, e))
  {
    hide MapLockAgrees, FrameLockAgrees, EntryOk, TargetOk, CallOk;
  }

  lemma CallStep(s: State, e: Event, c: nat)
    requires Core(s) && Enabled(s, e) && c in Do(s, e).calls
    ensures CallOk(Do(s, e).calls[c])
  {
    hide Core, FrameOk;
    CoreParts(s);
    if e.DrainOne? {
      EntryBefore(s, e.inv);
      FrameLockBefore(s, s.pending[e.inv]);
    } else if e.Complete? {
      FrameLockBefore(s, s.reader.call);
    }
  }

  /** Every step keeps the locks, the entries and the calls in order. */
  lemma CoreStep(s: State, e: Event)
    requires Core(s) && Enabled(s, e)
    ensures Core(Do(s, e))
  {
    hide Enabled, Do;
    MapLockStep(s, e);
    TargetStep(s, e);
    FrameStep(s, e);
    forall inv | inv in Do(s, e).pending
      ensures EntryOk(Do(s, e), inv)
    {
      EntryStep(s, e, inv);
    }
    forall c | c in Do(s, e).calls
      ensures FrameLockAgrees(Do(s, e), c) && CallOk(Do(s, e).calls[c])
    {
      FrameLockStep(s, e, c);
      CallStep(s, e, c);
    }
  }

  /** ... and no waiting call drops out of the map. */
  lemma WaitersStep(s: State, e: Event)
    requires Inv(s) && Enabled(s, e)
    ensures WaitersListed(Do(s, e))
  {
    CoreStep(s, e);
    var t := Do(s, e);
    forall c | c in t.calls && Live(t.calls[c]) && !t.calls[c].done && !InReadersHands(t, c) && OnlyOneWithId(t, c)
      ensures t.calls[c].inv in t.pending && t.pending[t.calls[c].inv] == c
    {
      WaiterKept(s, e, c);
    }
  }

  lemma WaiterKept(s: State, e: Event, c: nat)
    requires Core(s) && WaitersListed(s) && Enabled(s, e)
    requires var t := Do(s, e);
             c in t.calls && Live(t.calls[c]) && !t.calls[c].done && !InReadersHands(t, c) && OnlyOneWithId(t, c)
    ensures var t := Do(s, e); t.calls[c].inv in t.pending && t.pending[t.calls[c].inv] == c
  {
    if e != Register(c) {
      WaitedBefore(s, e, c);
      AloneBefore(s, e, c);
      hide Core;
      EntryKept(s, e, c);
    }
  }

  lemma WaitedBefore(s: State, e: Event, c: nat)
    requires Core(s) && Enabled(s, e) && e != Register(c)
    requires var t := Do(s, e); c in t.calls && Live(t.calls[c]) && !t.calls[c].done
    ensures c in s.calls && Live(s.calls[c]) && !s.calls[c].done && s.calls[c].inv == Do(s, e).calls[c].inv
  {
    hide MapLockAgrees, FrameOk, CallOk;
  }

  lemma AloneBefore(s: State, e: Event, c: nat)
    requires Enabled(s, e) && c in s.calls && c in Do(s, e).calls && s.calls[c].inv == Do(s, e).calls[c].inv
    requires OnlyOneWithId(Do(s, e), c)
    ensures OnlyOneWithId(s, c)
  {
    var t := Do(s, e);
    forall d | d in s.calls && d != c && s.calls[d].pc != HoldsMap
      ensures s.calls[d].inv != s.calls[c].inv
    {
      assert d in t.calls && t.calls[d].inv == s.calls[d].inv && t.calls[d].pc != HoldsMap;
    }
  }

  lemma EntryKept(s: State, e: Event, c: nat)
    requires Core(s) && WaitersListed(s) && Enabled(s, e) && e != Register(c)
    requires c in s.calls && Live(s.calls[c]) && !s.calls[c].done && OnlyOneWithId(s, c)
    requires var t := Do(s, e); c in t.calls && Live(t.calls[c]) && !t.calls[c].done && !InReadersHands(t, c)
    ensures s.calls[c].inv in Do(s, e).pending && Do(s, e).pending[s.calls[c].inv] == c
  {
    hide FrameOk, CallOk, FrameLockAgrees;
    if !InReadersHands(s, c) {
      assert s.calls[c].inv in s.pending && s.pending[s.calls[c].inv] == c;
    }
  }

  /** Every step keeps the invariant. */
  lemma InvStep(s: State, e: Event)
    requires Inv(s) && Enabled(s, e)
    ensures Inv(Do(s, e))
  {
    hide Do, Enabled, Core, WaitersListed;
    CoreStep(s, e);
    WaitersStep(s, e);
  }

  lemma {:induction false} InvAlways(events: seq<Event>)
    requires IsRun(events)
    ensures Inv(After(events))
    decreases |events|
  {
    hide Do, Enabled, Inv;
    if events == [] {
      InitialInv();
    } else {
      InvAlways(events[..|events| - 1]);
      InvStep(After(events[..|events| - 1]), events[|events| - 1]);
    }
  }

  lemma InitialInv()
    ensures Inv(INITIAL)
  {}

  // ---------- what holds in every run ----------

  /** The call whose frame an event touches through a pointer taken from the map. */
  ghost function Dereferenced(s: State, e: Event): Option<nat>
    requires Enabled(s, e)
  {
    match e
    case LockTarget => Some(s.reader.call)
    case Complete => Some(s.reader.call)
    case DrainOne(inv) => Some(s.pending[inv])
    case _ => None
  }

  /** The reader never follows a pointer to a frame that is gone. */
  lemma NoDanglingDereference(events: seq<Event>, e: Event)
    requires IsRun(events) && Enabled(After(events), e) && Dereferenced(After(events), e).Some?
    ensures var s := After(events); var c := Dereferenced(s, e).value;
            c in s.calls && s.calls[c].pc != Returned
  {
    InvAlways(events);
  }

  /** The call is gone, or its own next step returns it and leaves a pointer to it in the map. */
  ghost predicate GoneOrGoing(s: State, c: nat)
    requires c in s.calls
  {
    s.calls[c].pc == Returned || (Enabled(s, WakeDone(c)) && StalePointer(Do(s, WakeDone(c))))
  }

  /**
    Exactly the entries a drain has visited point to a call that is gone or returns by its
    own next step: before its entry is visited, or without a drain, a call in the map stays.
   */
  lemma StaleExactly(events: seq<Event>, inv: nat)
    requires IsRun(events) && inv in After(events).pending
    ensures var s := After(events); var c := s.pending[inv];
            c in s.calls && (GoneOrGoing(s, c) <==> Woken(s, inv))
  {
    InvAlways(events);
    var s := After(events);
    var c := s.pending[inv];
    assert EntryOk(s, inv) && FrameLockAgrees(s, c) && CallOk(s.calls[c]);
    if Woken(s, inv) && s.calls[c].pc != Returned {
      assert Do(s, WakeDone(c)).pending[inv] == c;
    }
  }

  /**
    So a pointer to a returned call can stand in the map only while the reader, on its way
    out, still holds the map lock and has woken that call: never when the lock is free.
   */
  lemma StalePointersOnlyInDrain(events: seq<Event>, inv: nat)
    requires IsRun(events) && inv in After(events).pending
    ensures var s := After(events); var c := s.pending[inv];
            c in s.calls && (s.calls[c].pc == Returned ==> s.owner == ByReader && Woken(s, inv))
  {
    StaleExactly(events, inv);
    InvAlways(events);
  }

  /** A request that returns a reply returns the one with its own invoke id, and one that does not times out. */
  lemma RepliesMatch(events: seq<Event>, c: nat)
    requires IsRun(events) && c in After(events).calls && After(events).calls[c].pc == Returned
    ensures var call := After(events).calls[c];
            && call.result.Some?
            && (call.reply.Some? ==> call.reply.value.inv == call.inv && call.result == Some(call.reply.value.amsError))
            && (call.reply.None? ==> call.result == Some(SYNC_TIMEOUT))
  {
    InvAlways(events);
  }

  lemma CompletedAtMostOnce(events: seq<Event>, c: nat)
    requires IsRun(events) && c in After(events).calls
    ensures After(events).calls[c].completions <= 1
  {
    InvAlways(events);
  }

  /** A reply is never looked up before the call it answers has put itself into the map. */
  lemma RegisteredBeforeLookup(events: seq<Event>, c: nat)
    requires IsRun(events) && Enabled(After(events), Lookup)
    requires After(events).reader.frame.origin == Some(c)
    ensures var s := After(events);
            c in s.calls && s.calls[c].pc != HoldsMap && s.calls[c].pc != Sent
  {
    InvAlways(events);
  }

  /** So the reply reaches that call if it still waits, as long as no later request wrapped round to its invoke id. */
  lemma ReplyReachesItsCall(events: seq<Event>, c: nat)
    requires IsRun(events) && Enabled(After(events), Lookup)
    requires var s := After(events);
             && s.reader.frame.origin == Some(c) && c in s.calls
             && Live(s.calls[c]) && !s.calls[c].done && OnlyOneWithId(s, c)
    ensures Do(After(events), Lookup).reader == Target(After(events).reader.frame, c)
  {
    InvAlways(events);
  }

  // ---------- a run that shows what cannot be promised ----------

  ghost predicate StalePointer(s: State) {
    exists inv :: inv in s.pending && s.pending[inv] in s.calls && s.calls[s.pending[inv]].pc == Returned
  }

  lemma OneStep(events: seq<Event>, e: Event)
    requires IsRun(events) && Enabled(After(events), e)
    ensures IsRun(events + [e]) && After(events + [e]) == Do(After(events), e)
  {
    assert (events + [e])[..|events|] == events;
  }

  /** While the reader drains, the map can indeed hold a pointer to a returned call. */
  lemma DrainHoldsStalePointer() returns (events: seq<Event>)
    ensures IsRun(events) && StalePointer(After(events))
  {
    events := [];
    OneStep(events, Begin(7)); events := events + [Begin(7)];
    OneStep(events, Send(7)); events := events + [Send(7)];
    OneStep(events, Register(7)); events := events + [Register(7)];
    OneStep(events, Unlock(7)); events := events + [Unlock(7)];
    OneStep(events, Stop); events := events + [Stop];
    OneStep(events, LockForDrain); events := events + [LockForDrain];
    assert After(events).pending == map[1 := 7];
    OneStep(events, DrainOne(1)); events := events + [DrainOne(1)];
    OneStep(events, WakeDone(7)); events := events + [WakeDone(7)];
    assert 1 in After(events).pending;
  }
}
