/**
  Invoke ids: each request takes the next one, so ids repeat only after the
  32-bit counter has gone all the way round, and replies reach their own calls.
 */
module AmsIds {
  import opened Arithmetic
  import opened Options
  import opened AmsProtocol

  /** The calls that have sent their requests, in order. */
  ghost function SentBy(events: seq<Event>): seq<nat> {
    if events == [] then []
    else SentBy(events[..|events| - 1]) + if events[|events| - 1].Send? then [events[|events| - 1].call] else []
  }

  /** The call has sent its request. */
  ghost predicate HasSent(s: State, c: nat) {
    c in s.calls && s.calls[c].pc != HoldsMap
  }

  /** These calls, and no others, have sent theirs, each once, with consecutive ids. */
  ghost predicate Numbered(s: State, sent: seq<nat>) {
    && s.counter == (1 + |sent|) % WRAP
    && (forall i, j | 0 <= i < j < |sent| :: sent[i] != sent[j])
    && (forall c :: c in sent <==> HasSent(s, c))
    && forall i | 0 <= i < |sent| :: sent[i] in s.calls && s.calls[sent[i]].inv == (1 + i) % WRAP
  }

  /** Nothing but its own Send changes whether a call has sent, and with which id. */
  lemma SentStays(s: State, e: Event, c: nat)
    requires Enabled(s, e) && e != Send(c)
    ensures HasSent(Do(s, e), c) <==> HasSent(s, c)
    ensures HasSent(s, c) ==> c in Do(s, e).calls && Do(s, e).calls[c].inv == s.calls[c].inv
  {
    hide WRAP;
  }

  /** Send takes the counter's value as its id and moves the counter on. */
  lemma SendTakes(s: State, e: Event)
    requires Enabled(s, e)
    ensures if e.Send? then !HasSent(s, e.call) && HasSent(Do(s, e), e.call) && Do(s, e).calls[e.call].inv == s.counter
                            && Do(s, e).counter == (s.counter + 1) % WRAP
            else Do(s, e).counter == s.counter
  {
    hide WRAP;
  }

  lemma NumberedStep(s: State, e: Event, sent: seq<nat>)
    requires Numbered(s, sent) && Enabled(s, e)
    ensures Numbered(Do(s, e), if e.Send? then sent + [e.call] else sent)
  {
    NextRemainder(1 + |sent|, WRAP);
    hide Enabled, Do, HasSent, WRAP;
    var t := Do(s, e);
    SendTakes(s, e);
    forall c | e != Send(c)
      ensures HasSent(t, c) <==> HasSent(s, c)
      ensures HasSent(s, c) ==> c in t.calls && t.calls[c].inv == s.calls[c].inv
    {
      SentStays(s, e, c);
    }
    SentAreThere(t);
    SentAreThere(s);
  }

  lemma SentAreThere(s: State)
    ensures forall c | HasSent(s, c) :: c in s.calls
  {
  }

  lemma {:induction false} NumberedAlways(events: seq<Event>)
    requires IsRun(events)
    ensures Numbered(After(events), SentBy(events))
    decreases |events|
  {
    hide Enabled, Do, Numbered;
    if events == [] {
      NumberedAtFirst();
    } else {
      var n := |events| - 1;
      NumberedAlways(events[..n]);
      NumberedStep(After(events[..n]), events[n], SentBy(events[..n]));
      assert SentBy(events[..n]) + [] == SentBy(events[..n]);
    }
  }

  lemma NumberedAtFirst()
    ensures Numbered(INITIAL, [])
  {
  }

  lemma PlaceOf(events: seq<Event>, c: nat) returns (i: nat)
    requires IsRun(events) && HasSent(After(events), c)
    ensures i < |SentBy(events)| && SentBy(events)[i] == c && After(events).calls[c].inv == (1 + i) % WRAP
  {
    NumberedAlways(events);
    hide HasSent, WRAP;
    assert c in SentBy(events);
    i :| 0 <= i < |SentBy(events)| && SentBy(events)[i] == c;
  }

  /** Two requests carry one id exactly when a whole number of turns of the counter lies between them. */
  lemma IdsRepeatExactly(events: seq<Event>, i: nat, j: nat)
    requires IsRun(events) && i <= j < |SentBy(events)|
    ensures var s, sent := After(events), SentBy(events);
            && sent[i] in s.calls && sent[j] in s.calls
            && (s.calls[sent[i]].inv == s.calls[sent[j]].inv <==> (j - i) % WRAP == 0)
  {
    NumberedAlways(events);
    hide WRAP, Numbered;
    NumberedIds(After(events), SentBy(events), i);
    NumberedIds(After(events), SentBy(events), j);
    SameRemainder(1 + i, 1 + j, WRAP);
  }

  lemma NumberedIds(s: State, sent: seq<nat>, i: nat)
    requires Numbered(s, sent) && i < |sent|
    ensures WRAP > 0 && sent[i] in s.calls && s.calls[sent[i]].inv == (1 + i) % WRAP
  {
  }

  /** Up to 2^32 requests all carry different ids. */
  lemma IdsDiffer(events: seq<Event>, c: nat)
    requires IsRun(events) && |SentBy(events)| <= WRAP && HasSent(After(events), c)
    ensures OnlyOneWithId(After(events), c)
  {
    hide WRAP, IsRun, After;
    var s := After(events);
    forall d | d in s.calls && d != c && s.calls[d].pc != HoldsMap
      ensures s.calls[d].inv != s.calls[c].inv
    {
      OthersDiffer(events, c, d);
    }
  }

  lemma OthersDiffer(events: seq<Event>, c: nat, d: nat)
    requires IsRun(events) && |SentBy(events)| <= WRAP && HasSent(After(events), c) && HasSent(After(events), d) && c != d
    ensures After(events).calls[d].inv != After(events).calls[c].inv
  {
    hide WRAP, IsRun, After;
    var i := PlaceOf(events, c);
    var j := PlaceOf(events, d);
    if After(events).calls[d].inv == After(events).calls[c].inv {
      if i <= j { IdsRepeatExactly(events, i, j); } else { IdsRepeatExactly(events, j, i); }
      NotWrapped(i, j);
    }
  }

  lemma NotWrapped(i: nat, j: nat)
    requires i < WRAP && j < WRAP && if i <= j then (j - i) % WRAP == 0 else (i - j) % WRAP == 0
    ensures i == j
  {
    SmallRemainder(if i <= j then j - i else i - j, WRAP);
  }

  // ---------- whose reply it is ----------

  /** The frame the reader has in its hands. */
  ghost function InHand(r: ReaderPc): Option<Frame> {
    match r
    case Got(f) => Some(f)
    case LookingUp(f) => Some(f)
    case Target(f, _) => Some(f)
    case Completing(f, _) => Some(f)
    case _ => None
  }

  /** Every frame received and every reply kept answers, if anything, a request that was sent with its id. */
  ghost predicate RepliesGenuine(s: State) {
    && (InHand(s.reader).Some? ==> Genuine(s, InHand(s.reader).value))
    && forall c | c in s.calls && s.calls[c].reply.Some? :: Genuine(s, s.calls[c].reply.value)
  }

  lemma GenuineStays(s: State, e: Event, f: Frame)
    requires Enabled(s, e) && Genuine(s, f)
    ensures Genuine(Do(s, e), f)
  {
  }

  lemma RepliesGenuineStep(s: State, e: Event)
    requires Enabled(s, e) && RepliesGenuine(s)
    ensures RepliesGenuine(Do(s, e))
  {
    var t := Do(s, e);
    assert InHand(t.reader).Some? ==>
      InHand(s.reader) == InHand(t.reader) || (e.Receive? && e.frame == InHand(t.reader).value && Genuine(s, e.frame));
    assert forall c | c in t.calls && t.calls[c].reply.Some? ::
        (c in s.calls && s.calls[c].reply == t.calls[c].reply) || InHand(s.reader) == t.calls[c].reply;
    hide Enabled, Do, Genuine;
    if InHand(t.reader).Some? { GenuineStays(s, e, InHand(t.reader).value); }
    forall c | c in t.calls && t.calls[c].reply.Some?
      ensures Genuine(t, t.calls[c].reply.value)
    {
      GenuineStays(s, e, t.calls[c].reply.value);
    }
  }

  lemma {:induction false} RepliesGenuineAlways(events: seq<Event>)
    requires IsRun(events)
    ensures RepliesGenuine(After(events))
    decreases |events|
  {
    hide Enabled, Do, RepliesGenuine;
    if events == [] {
      NoRepliesAtFirst();
    } else {
      RepliesGenuineAlways(events[..|events| - 1]);
      RepliesGenuineStep(After(events[..|events| - 1]), events[|events| - 1]);
    }
  }

  lemma NoRepliesAtFirst()
    ensures RepliesGenuine(INITIAL)
  {
  }

  /** A call gets the reply to its own request, or to one a whole number of turns of the counter away. */
  lemma OwnReplyOrWrapped(events: seq<Event>, c: nat) returns (i: nat, j: nat)
    requires IsRun(events) && c in After(events).calls && After(events).calls[c].pc == Returned
    requires After(events).calls[c].reply.Some? && After(events).calls[c].reply.value.origin.Some?
    ensures var sent := SentBy(events);
            && i < |sent| && j < |sent| && sent[i] == c && sent[j] == After(events).calls[c].reply.value.origin.value
            && (if i <= j then (j - i) % WRAP == 0 else (i - j) % WRAP == 0)
  {
    var s := After(events);
    RepliesMatch(events, c);
    RepliesGenuineAlways(events);
    var o := s.calls[c].reply.value.origin.value;
    assert Genuine(s, s.calls[c].reply.value);
    i := PlaceOf(events, c);
    j := PlaceOf(events, o);
    if i <= j { IdsRepeatExactly(events, i, j); } else { IdsRepeatExactly(events, j, i); }
  }

  /** Up to 2^32 requests: what a call returns is the answer to its own request, or to none. */
  lemma OwnReply(events: seq<Event>, c: nat)
    requires IsRun(events) && |SentBy(events)| <= WRAP
    requires c in After(events).calls && After(events).calls[c].pc == Returned && After(events).calls[c].reply.Some?
    ensures var origin := After(events).calls[c].reply.value.origin; origin.Some? ==> origin.value == c
  {
    if After(events).calls[c].reply.value.origin.Some? {
      var i, j := OwnReplyOrWrapped(events, c);
      NotWrapped(i, j);
    }
  }

  /** ... and a reply reaches the call that sent its request, if that still waits. */
  lemma ReplyReachesCaller(events: seq<Event>, c: nat)
    requires IsRun(events) && |SentBy(events)| <= WRAP && Enabled(After(events), Lookup)
    requires var s := After(events);
             s.reader.frame.origin == Some(c) && c in s.calls && Live(s.calls[c]) && !s.calls[c].done
    ensures Do(After(events), Lookup).reader == Target(After(events).reader.frame, c)
  {
    IdsDiffer(events, c);
    ReplyReachesItsCall(events, c);
  }
}
