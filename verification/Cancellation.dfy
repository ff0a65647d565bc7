/**
 Cancellation tokens. A session event is shared by all calls of a session and replaced once it has
 been set; a call event belongs to one call. `CancelState` is the value the heap of events stands
 for, with events numbered in order of creation; the class below keeps the events themselves.
 */
module Cancellation {
  import opened Wrappers

  /** The key an event was made for. */
  datatype Slot = ForSession(session: string) | ForCall(key: CallKey)

  datatype EventState = EventState(slot: Slot, isSet: bool)

  datatype CancelState = CancelState(events: seq<EventState>, sessions: map<string, nat>, calls: map<CallKey, nat>)

  /** What `event_for` hands out: the session event, combined with a call event if a call was named. */
  datatype Token = Token(session: nat, call: Option<nat>)

  const EMPTY := CancelState([], map[], map[])

  /** Every stored event exists and is stored under the key it was made for. */
  ghost predicate WellFormed(cs: CancelState) {
    && (forall s :: s in cs.sessions ==>
          cs.sessions[s] < |cs.events| && cs.events[cs.sessions[s]].slot == ForSession(s))
    && (forall k :: k in cs.calls ==> cs.calls[k] < |cs.events| && cs.events[cs.calls[k]].slot == ForCall(k))
  }

  predicate InState(cs: CancelState, t: Token) {
    t.session < |cs.events| && (t.call.Some? ==> t.call.value < |cs.events|)
  }

  predicate IsSet(cs: CancelState, t: Token)
    requires InState(cs, t)
  {
    cs.events[t.session].isSet || (t.call.Some? && cs.events[t.call.value].isSet)
  }

  predicate Usable(cs: CancelState, e: nat) {
    e < |cs.events| && !cs.events[e].isSet
  }

  function SessionEvent(cs: CancelState, s: string): (CancelState, nat) {
    if s in cs.sessions && Usable(cs, cs.sessions[s]) then (cs, cs.sessions[s])
    else
      (cs.(events := cs.events + [EventState(ForSession(s), false)], sessions := cs.sessions[s := |cs.events|]),
       |cs.events|)
  }

  function CallEvent(cs: CancelState, key: CallKey): (CancelState, nat) {
    if key in cs.calls && Usable(cs, cs.calls[key]) then (cs, cs.calls[key])
    else
      (cs.(events := cs.events + [EventState(ForCall(key), false)], calls := cs.calls[key := |cs.events|]),
       |cs.events|)
  }

  function IssueToken(cs: CancelState, s: string, c: string): (CancelState, Token) {
    var (cs1, e) := SessionEvent(cs, s);
    if c == "" then (cs1, Token(e, None))
    else var (cs2, f) := CallEvent(cs1, (s, c)); (cs2, Token(e, Some(f)))
  }

  /** Sets the events with the given numbers. */
  function SetEvents(events: seq<EventState>, chosen: set<nat>): (r: seq<EventState>)
    ensures |r| == |events|
    ensures forall i :: 0 <= i < |events| ==> r[i] == EventState(events[i].slot, events[i].isSet || i in chosen)
  {
    seq(|events|, i requires 0 <= i < |events| => EventState(events[i].slot, events[i].isSet || i in chosen))
  }

  lemma SetEventsTwice(events: seq<EventState>, a: set<nat>, b: set<nat>)
    ensures SetEvents(SetEvents(events, a), b) == SetEvents(events, a + b)
  {
  }

  /** The entries of a per-call dictionary that belong to other sessions. */
  function CallsOutside<V>(calls: map<CallKey, V>, s: string): map<CallKey, V> {
    map k | k in calls && k.0 != s :: calls[k]
  }

  datatype CancelOp =
    | Issue(session: string, call: string)
    | CancelSession(session: string)
    | CancelCall(session: string, call: string)
    | ClearCall(session: string, call: string)
    | ClearSession(session: string)
    | CancelAll

  function Apply(cs: CancelState, op: CancelOp): CancelState {
    match op
    case Issue(s, c) => IssueToken(cs, s, c).0
    case CancelSession(s) => var (cs1, e) := SessionEvent(cs, s); cs1.(events := SetEvents(cs1.events, {e}))
    case CancelCall(s, c) =>
      if (s, c) in cs.calls then cs.(events := SetEvents(cs.events, {cs.calls[(s, c)]})) else cs
    case ClearCall(s, c) => cs.(calls := cs.calls - {(s, c)})
    case ClearSession(s) =>
      cs.(sessions := cs.sessions - {s}, calls := CallsOutside(cs.calls, s))
    case CancelAll => cs.(events := SetEvents(cs.events, cs.sessions.Values + cs.calls.Values))
  }

  lemma ClearSessionIs(cs: CancelState, s: string)
    ensures Apply(cs, ClearSession(s)) == cs.(sessions := cs.sessions - {s}, calls := CallsOutside(cs.calls, s))
  {
  }

  lemma CancelSessionIs(cs: CancelState, s: string)
    ensures var (cs1, e) := SessionEvent(cs, s);
            Apply(cs, CancelSession(s)) == cs1.(events := SetEvents(cs1.events, {e}))
  {
  }

  function ApplyAll(cs: CancelState, ops: seq<CancelOp>): CancelState
    decreases |ops|
  {
    if ops == [] then cs else ApplyAll(Apply(cs, ops[0]), ops[1..])
  }

  // ---------- When exactly a token is set ----------

  /** Whether one operation reaches a token of session `s` and call `c`. `linked` and `callLinked` say
      whether the token's two events are still stored under their keys. */
  predicate Hits(op: CancelOp, s: string, c: string, linked: bool, callLinked: bool) {
    match op
    case CancelSession(r) => linked && r == s
    case CancelCall(r, d) => callLinked && r == s && d == c
    case CancelAll => linked || callLinked
    case _ => false
  }

  predicate Unlinks(op: CancelOp, s: string) {
    op.ClearSession? && op.session == s
  }

  predicate UnlinksCall(op: CancelOp, s: string, c: string) {
    Unlinks(op, s) || (op.ClearCall? && op.session == s && op.call == c)
  }

  /** Whether some operation reaches the token before its events are unlinked. */
  predicate Reached(ops: seq<CancelOp>, s: string, c: string, linked: bool, callLinked: bool) {
    ops != []
    && (|| Hits(ops[0], s, c, linked, callLinked)
        || Reached(ops[1..], s, c, linked && !Unlinks(ops[0], s), callLinked && !UnlinksCall(ops[0], s, c)))
  }

  /** Operation `i` is the one that reaches the token: it cancels the session, or everything, while the
      session event is still stored, or the call, or everything, while the call event is. */
  predicate ReachedBy(ops: seq<CancelOp>, i: nat, s: string, c: string, linked: bool, callLinked: bool)
    requires i < |ops|
  {
    && ClearSession(s) !in ops[..i]
    && (|| (linked && (ops[i] == CancelSession(s) || ops[i] == CancelAll))
        || (callLinked && ClearCall(s, c) !in ops[..i] && (ops[i] == CancelCall(s, c) || ops[i] == CancelAll)))
  }

  ghost predicate ReachedBySome(ops: seq<CancelOp>, s: string, c: string, linked: bool, callLinked: bool) {
    exists i: nat :: i < |ops| && ReachedBy(ops, i, s, c, linked, callLinked)
  }

  lemma ReachedLater(ops: seq<CancelOp>, i: nat, s: string, c: string, linked: bool, callLinked: bool)
    requires i + 1 < |ops|
    ensures ReachedBy(ops, i + 1, s, c, linked, callLinked)
       <==> ReachedBy(ops[1..], i, s, c, linked && !Unlinks(ops[0], s), callLinked && !UnlinksCall(ops[0], s, c))
            && ops[0] != ClearSession(s)
  {
    assert ops[..i + 1] == [ops[0]] + ops[1..][..i];
  }

  lemma {:induction false} ReachedIff(ops: seq<CancelOp>, s: string, c: string, linked: bool, callLinked: bool)
    ensures Reached(ops, s, c, linked, callLinked) <==> ReachedBySome(ops, s, c, linked, callLinked)
    decreases |ops|
  {
    if ops != [] {
      var (l, cl) := (linked && !Unlinks(ops[0], s), callLinked && !UnlinksCall(ops[0], s, c));
      ReachedIff(ops[1..], s, c, l, cl);
      assert Hits(ops[0], s, c, linked, callLinked) <==> ReachedBy(ops, 0, s, c, linked, callLinked);
      if i: nat :| i < |ops| && ReachedBy(ops, i, s, c, linked, callLinked) {
        if i > 0 {
          ReachedLater(ops, i - 1, s, c, linked, callLinked);
        }
      }
      if i: nat :| i < |ops[1..]| && ReachedBy(ops[1..], i, s, c, l, cl) {
        ReachedLater(ops, i, s, c, linked, callLinked);
        assert ops[0] == ClearSession(s) ==> !l && !cl;
      }
    }
  }

  /** The token was made for the session and call, and each of its events is still stored or not. */
  ghost predicate Linked(cs: CancelState, t: Token, s: string, c: string, linked: bool, callLinked: bool) {
    && InState(cs, t)
    && cs.events[t.session].slot == ForSession(s)
    && (linked <==> s in cs.sessions && cs.sessions[s] == t.session)
    && (t.call.Some? <==> c != "")
    && (t.call.Some? ==> cs.events[t.call.value].slot == ForCall((s, c)))
    && (callLinked <==> t.call.Some? && (s, c) in cs.calls && cs.calls[(s, c)] == t.call.value)
  }

  lemma SessionEventFacts(cs: CancelState, s: string)
    requires WellFormed(cs)
    ensures WellFormed(SessionEvent(cs, s).0)
    ensures var (cs1, e) := SessionEvent(cs, s); Usable(cs1, e) && cs1.sessions == cs.sessions[s := e]
    ensures cs.events <= SessionEvent(cs, s).0.events && cs.calls == SessionEvent(cs, s).0.calls
    ensures SessionEvent(cs, s).1 < |cs.events| ==> SessionEvent(cs, s).0 == cs
  {
    if s in cs.sessions && Usable(cs, cs.sessions[s]) {
      assert cs.sessions[s := cs.sessions[s]] == cs.sessions;
    }
  }

  lemma CallEventFacts(cs: CancelState, key: CallKey)
    requires WellFormed(cs)
    ensures WellFormed(CallEvent(cs, key).0)
    ensures var (cs1, f) := CallEvent(cs, key); Usable(cs1, f) && cs1.calls == cs.calls[key := f]
    ensures cs.events <= CallEvent(cs, key).0.events && cs.sessions == CallEvent(cs, key).0.sessions
    ensures CallEvent(cs, key).1 < |cs.events| ==> CallEvent(cs, key).0 == cs
  {
    if key in cs.calls && Usable(cs, cs.calls[key]) {
      assert cs.calls[key := cs.calls[key]] == cs.calls;
    }
  }

  lemma IssueFacts(cs: CancelState, s: string, c: string)
    requires WellFormed(cs)
    ensures var (cs2, t) := IssueToken(cs, s, c);
            && WellFormed(cs2) && cs.events <= cs2.events
            && Linked(cs2, t, s, c, true, c != "") && !IsSet(cs2, t)
  {
    SessionEventFacts(cs, s);
    if c != "" {
      CallEventFacts(SessionEvent(cs, s).0, (s, c));
    }
  }

  lemma ApplyKeepsWellFormed(cs: CancelState, op: CancelOp)
    requires WellFormed(cs)
    ensures WellFormed(Apply(cs, op)) && |cs.events| <= |Apply(cs, op).events|
  {
    match op {
      case Issue(s, c) => IssueFacts(cs, s, c);
      case CancelSession(s) => SessionEventFacts(cs, s);
      case _ =>
    }
  }

  /** No operation resets an event. */
  lemma SetStays(cs: CancelState, op: CancelOp, e: nat)
    requires WellFormed(cs) && e < |cs.events| && cs.events[e].isSet
    ensures e < |Apply(cs, op).events| && Apply(cs, op).events[e].isSet
  {
  }

  lemma {:induction false} SetStaysForever(cs: CancelState, ops: seq<CancelOp>, t: Token)
    requires WellFormed(cs) && InState(cs, t) && IsSet(cs, t)
    ensures InState(ApplyAll(cs, ops), t) && IsSet(ApplyAll(cs, ops), t)
    decreases |ops|
  {
    if ops != [] {
      var e := if cs.events[t.session].isSet then t.session else t.call.value;
      SetStays(cs, ops[0], e);
      ApplyKeepsWellFormed(cs, ops[0]);
      SetStaysForever(Apply(cs, ops[0]), ops[1..], t);
    }
  }

  /** What one operation does to an unset token: it sets it exactly when it hits it, and otherwise
      only moves its links. */
  ghost predicate Follows(
    cs: CancelState, op: CancelOp, t: Token, s: string, c: string, linked: bool, callLinked: bool) {
    var after := Apply(cs, op);
    && InState(after, t)
    && (IsSet(after, t) <==> Hits(op, s, c, linked, callLinked))
    && (!IsSet(after, t) ==> Linked(after, t, s, c, linked && !Unlinks(op, s), callLinked && !UnlinksCall(op, s, c)))
  }

  /** Making sure a session has a usable event never touches a token, set or unlinked or not. */
  lemma SessionEventKeepsLinks(
    cs: CancelState, r: string, t: Token, s: string, c: string, linked: bool, callLinked: bool)
    requires WellFormed(cs) && Linked(cs, t, s, c, linked, callLinked) && !IsSet(cs, t)
    ensures var (cs1, e) := SessionEvent(cs, r);
            && Linked(cs1, t, s, c, linked, callLinked) && !IsSet(cs1, t)
            && (e == t.session <==> linked && r == s)
            && (t.call.Some? ==> e != t.call.value)
  {
    SessionEventFacts(cs, r);
  }

  lemma CallEventKeepsLinks(
    cs: CancelState, key: CallKey, t: Token, s: string, c: string, linked: bool, callLinked: bool)
    requires WellFormed(cs) && Linked(cs, t, s, c, linked, callLinked) && !IsSet(cs, t)
    ensures var (cs1, f) := CallEvent(cs, key);
            Linked(cs1, t, s, c, linked, callLinked) && !IsSet(cs1, t)
  {
    CallEventFacts(cs, key);
  }

  lemma IssueFollows(cs: CancelState, op: CancelOp, t: Token, s: string, c: string, linked: bool, callLinked: bool)
    requires WellFormed(cs) && Linked(cs, t, s, c, linked, callLinked) && !IsSet(cs, t) && op.Issue?
    ensures Follows(cs, op, t, s, c, linked, callLinked)
  {
    SessionEventFacts(cs, op.session);
    SessionEventKeepsLinks(cs, op.session, t, s, c, linked, callLinked);
    if op.call != "" {
      CallEventKeepsLinks(SessionEvent(cs, op.session).0, (op.session, op.call), t, s, c, linked, callLinked);
    }
  }

  lemma OneOperation(cs: CancelState, op: CancelOp, t: Token, s: string, c: string, linked: bool, callLinked: bool)
    requires WellFormed(cs) && Linked(cs, t, s, c, linked, callLinked) && !IsSet(cs, t)
    ensures Follows(cs, op, t, s, c, linked, callLinked)
  {
    if op.Issue? {
      IssueFollows(cs, op, t, s, c, linked, callLinked);
    } else if op.CancelSession? {
      SessionEventKeepsLinks(cs, op.session, t, s, c, linked, callLinked);
    } else if op.CancelAll? {
      CancelAllFollows(cs, t, s, c, linked, callLinked);
    }
  }

  lemma CancelAllFollows(cs: CancelState, t: Token, s: string, c: string, linked: bool, callLinked: bool)
    requires WellFormed(cs) && Linked(cs, t, s, c, linked, callLinked) && !IsSet(cs, t)
    ensures Follows(cs, CancelAll, t, s, c, linked, callLinked)
  {
    assert linked <==> t.session in cs.sessions.Values + cs.calls.Values;
    assert t.call.Some? ==> (callLinked <==> t.call.value in cs.sessions.Values + cs.calls.Values);
  }

  lemma {:induction false} ReachedIffSet(
    cs: CancelState, ops: seq<CancelOp>, t: Token, s: string, c: string, linked: bool, callLinked: bool)
    requires WellFormed(cs) && Linked(cs, t, s, c, linked, callLinked) && !IsSet(cs, t)
    ensures InState(ApplyAll(cs, ops), t)
    ensures IsSet(ApplyAll(cs, ops), t) <==> Reached(ops, s, c, linked, callLinked)
    decreases |ops|
  {
    if ops != [] {
      var after := Apply(cs, ops[0]);
      OneOperation(cs, ops[0], t, s, c, linked, callLinked);
      ApplyKeepsWellFormed(cs, ops[0]);
      if IsSet(after, t) {
        SetStaysForever(after, ops[1..], t);
      } else {
        ReachedIffSet(after, ops[1..], t, s, c,
                      linked && !Unlinks(ops[0], s), callLinked && !UnlinksCall(ops[0], s, c));
      }
    }
  }

  /** A token is set exactly when an operation after its issue reaches it, for every later sequence
      of operations. */
  lemma TokenSetIffReached(cs: CancelState, s: string, c: string, ops: seq<CancelOp>)
    requires WellFormed(cs)
    ensures var (cs1, t) := IssueToken(cs, s, c);
            && InState(ApplyAll(cs1, ops), t)
            && (IsSet(ApplyAll(cs1, ops), t) <==> ReachedBySome(ops, s, c, true, c != ""))
  {
    ReachedIff(ops, s, c, true, c != "");
    IssueFacts(cs, s, c);
    var (cs1, t) := IssueToken(cs, s, c);
    ReachedIffSet(cs1, ops, t, s, c, true, c != "");
  }

  /** No cancellation is lost: unless the session was cleared in between, cancelling the session or
      everything sets every token of the session issued before. */
  lemma {:induction false} NoCancellationLost(ops: seq<CancelOp>, s: string, c: string, callLinked: bool)
    requires CancelSession(s) in ops || CancelAll in ops
    requires ClearSession(s) !in ops
    ensures Reached(ops, s, c, true, callLinked)
  {
    if ops[0] != CancelSession(s) && ops[0] != CancelAll {
      assert forall op :: op in ops ==> op == ops[0] || op in ops[1..];
      NoCancellationLost(ops[1..], s, c, callLinked && !UnlinksCall(ops[0], s, c));
    }
  }

  /** Nothing is cancelled unasked: a set token was reached by a cancellation of its session, of its
      call, or of everything. */
  lemma {:induction false} OnlyCancelled(ops: seq<CancelOp>, s: string, c: string, linked: bool, callLinked: bool)
    requires Reached(ops, s, c, linked, callLinked)
    ensures CancelSession(s) in ops || CancelCall(s, c) in ops || CancelAll in ops
  {
    if ops != [] && ops[0] != CancelSession(s) && ops[0] != CancelCall(s, c) && ops[0] != CancelAll {
      OnlyCancelled(ops[1..], s, c, linked && !Unlinks(ops[0], s), callLinked && !UnlinksCall(ops[0], s, c));
    }
  }

  /** `clear_session` is the exception: an unset token issued before it is out of reach for good,
      whatever is cancelled later. */
  lemma {:induction false} ClearedIsOutOfReach(ops: seq<CancelOp>, s: string, c: string)
    ensures !Reached(ops, s, c, false, false)
    ensures !Reached([ClearSession(s)] + ops, s, c, true, c != "")
  {
    assert ([ClearSession(s)] + ops)[1..] == ops;
    if ops != [] {
      ClearedIsOutOfReach(ops[1..], s, c);
    }
  }

  /** Cancelling a session right after `ops` reaches an earlier token exactly when it was reached
      before or the session has not been cleared. */
  lemma {:induction false} SessionCancelReaches(
    ops: seq<CancelOp>, s: string, c: string, linked: bool, callLinked: bool)
    ensures Reached(ops + [CancelSession(s)], s, c, linked, callLinked)
       <==> Reached(ops, s, c, linked, callLinked) || (linked && ClearSession(s) !in ops)
  {
    var all := ops + [CancelSession(s)];
    if ops == [] {
      assert all == [CancelSession(s)] && all[1..] == [];
    } else {
      assert all[1..] == ops[1..] + [CancelSession(s)];
      SessionCancelReaches(ops[1..], s, c, linked && !Unlinks(ops[0], s), callLinked && !UnlinksCall(ops[0], s, c));
    }
  }


  // ---------- The manager and its events ----------

  class Event {
    ghost const id: nat
    ghost const slot: Slot
    var flag: bool

    constructor (ghost id: nat, ghost slot: Slot)
      ensures this.id == id && this.slot == slot && !flag
    {
      this.id, this.slot := id, slot;
      flag := false;
    }
  }

  /** A session event and, for a named call, the call event combined with it. */
  datatype Handle = Handle(sessionEvent: Event, callEvent: Option<Event>) {
    predicate IsSet()
      reads sessionEvent, if callEvent.Some? then {callEvent.value} else {}
    {
      sessionEvent.flag || (callEvent.Some? && callEvent.value.flag)
    }

    ghost function Ids(): Token {
      Token(sessionEvent.id, if callEvent.Some? then Some(callEvent.value.id) else None)
    }
  }

  class CancellationManager {
    var sessionEvents: map<string, Event>
    var callEvents: map<CallKey, Event>
    ghost var events: seq<Event>
    ghost var state: CancelState

    /** `state` describes the dictionaries and the events, which are numbered in order of creation. */
    ghost predicate Valid()
      reads this, events
    {
      WellFormed(state) && EventsMatch() && SessionsMatch() && CallsMatch()
    }

    ghost predicate EventsMatch()
      reads this`state, this`events, events
    {
      && |state.events| == |events|
      && (forall i :: 0 <= i < |events| ==>
            events[i].id == i && state.events[i] == EventState(events[i].slot, events[i].flag))
    }

    ghost predicate SessionsMatch()
      reads this`state, this`events, this`sessionEvents
    {
      && sessionEvents.Keys == state.sessions.Keys
      && (forall s :: s in sessionEvents ==> Made(sessionEvents[s]) && sessionEvents[s].id == state.sessions[s])
    }

    ghost predicate CallsMatch()
      reads this`state, this`events, this`callEvents
    {
      && callEvents.Keys == state.calls.Keys
      && (forall k :: k in callEvents ==> Made(callEvents[k]) && callEvents[k].id == state.calls[k])
    }

    ghost predicate Made(e: Event)
      reads this`events
    {
      e.id < |events| && events[e.id] == e
    }

    /** The handle was built from events this manager made. */
    ghost predicate Issued(h: Handle)
      reads this`events
    {
      Made(h.sessionEvent) && (h.callEvent.Some? ==> Made(h.callEvent.value))
    }

    /** A handle reports what the state says of its token. */
    lemma HandleReadsState(h: Handle)
      requires Valid() && Issued(h)
      ensures InState(state, h.Ids()) && (h.IsSet() <==> IsSet(state, h.Ids()))
    {
    }

    constructor ()
      ensures Valid() && state == EMPTY && events == []
    {
      sessionEvents, callEvents, events := map[], map[], [];
      state := EMPTY;
    }

    method NewEvent(ghost slot: Slot) returns (e: Event)
      requires Valid()
      modifies this`events, this`state
      ensures Valid() && Made(e) && !e.flag && e.slot == slot && e.id == |old(events)|
      ensures fresh(e) && events == old(events) + [e]
      ensures state == old(state).(events := old(state).events + [EventState(slot, false)])
    {
      e := new Event(|events|, slot);
      events := events + [e];
      state := state.(events := state.events + [EventState(slot, false)]);
      assert EventsMatch() && SessionsMatch() && CallsMatch();
    }

    method SessionEventFor(s: string) returns (e: Event)
      requires Valid()
      modifies this
      ensures Valid() && Made(e) && !e.flag
      ensures old(events) <= events && (fresh(e) || e in old(events))
      ensures state == SessionEvent(old(state), s).0 && e.id == SessionEvent(old(state), s).1
    {
      if s in sessionEvents && !sessionEvents[s].flag {
        return sessionEvents[s];
      }
      e := NewEvent(ForSession(s));
      StoreSessionEvent(s, e);
    }

    method StoreSessionEvent(s: string, e: Event)
      requires Valid() && Made(e) && e.slot == ForSession(s)
      modifies this`sessionEvents, this`state
      ensures Valid() && state == old(state).(sessions := old(state).sessions[s := e.id])
    {
      sessionEvents := sessionEvents[s := e];
      state := state.(sessions := state.sessions[s := e.id]);
    }

    method CallEventFor(key: CallKey) returns (e: Event)
      requires Valid()
      modifies this
      ensures Valid() && Made(e) && !e.flag
      ensures events == old(events) || (fresh(e) && events == old(events) + [e])
      ensures state == CallEvent(old(state), key).0 && e.id == CallEvent(old(state), key).1
    {
      if key in callEvents && !callEvents[key].flag {
        return callEvents[key];
      }
      e := NewEvent(ForCall(key));
      StoreCallEvent(key, e);
    }

    method StoreCallEvent(key: CallKey, e: Event)
      requires Valid() && Made(e) && e.slot == ForCall(key)
      modifies this`callEvents, this`state
      ensures Valid() && state == old(state).(calls := old(state).calls[key := e.id])
    {
      callEvents := callEvents[key := e];
      state := state.(calls := state.calls[key := e.id]);
    }

    method EventFor(s: string, c: string) returns (h: Handle)
      requires Valid()
      modifies this
      ensures Valid() && Issued(h) && old(events) <= events
      ensures (state, h.Ids()) == IssueToken(old(state), s, c)
    {
      var event := SessionEventFor(s);
      if c == "" {
        return Handle(event, None);
      }
      var callEvent := CallEventFor((s, c));
      return Handle(event, Some(callEvent));
    }

    method SetEvent(e: Event)
      requires Valid() && Made(e)
      modifies this`state, e`flag
      ensures Valid() && state == old(state).(events := SetEvents(old(state).events, {e.id}))
    {
      e.flag := true;
      state := state.(events := SetEvents(state.events, {e.id}));
    }

    method CancelSession(s: string)
      requires Valid()
      modifies this, events
      ensures Valid() && old(events) <= events
      ensures state == Apply(old(state), CancelOp.CancelSession(s))
    {
      CancelSessionIs(state, s);
      var e := SessionEventFor(s);
      SetEvent(e);
    }

    method CancelCall(s: string, c: string) returns (found: bool)
      requires Valid()
      modifies this`state, events
      ensures Valid() && found == ((s, c) in callEvents)
      ensures state == Apply(old(state), CancelOp.CancelCall(s, c))
    {
      found := (s, c) in callEvents;
      if found {
        SetEvent(callEvents[(s, c)]);
      }
    }

    method ClearCall(s: string, c: string)
      requires Valid()
      modifies this`callEvents, this`state
      ensures Valid() && state == Apply(old(state), CancelOp.ClearCall(s, c))
    {
      callEvents := callEvents - {(s, c)};
      state := Apply(state, CancelOp.ClearCall(s, c));
    }

    method ClearSession(s: string)
      requires Valid()
      modifies this`sessionEvents, this`callEvents, this`state
      ensures Valid() && state == Apply(old(state), CancelOp.ClearSession(s))
    {
      ClearSessionIs(state, s);
      DropSession(s);
      DropCalls(s);
    }

    method DropCalls(s: string)
      requires Valid()
      modifies this`callEvents, this`state
      ensures Valid() && state == old(state).(calls := CallsOutside(old(state).calls, s))
    {
      DropCallsOf(s);
      state := state.(calls := CallsOutside(state.calls, s));
    }

    method DropSession(s: string)
      requires Valid()
      modifies this`sessionEvents, this`state
      ensures Valid() && state == old(state).(sessions := old(state).sessions - {s})
    {
      sessionEvents := sessionEvents - {s};
      state := state.(sessions := state.sessions - {s});
    }

    /** Pops every call event of a session, one key at a time. */
    method DropCallsOf(s: string)
      modifies this`callEvents
      ensures callEvents == CallsOutside(old(callEvents), s)
    {
      var keys := callEvents.Keys;
      while keys != {}
        invariant keys <= old(callEvents).Keys
        invariant callEvents == map k | k in old(callEvents) && (k in keys || k.0 != s) :: old(callEvents)[k]
        decreases keys
      {
        var key :| key in keys;
        if key.0 == s {
          callEvents := callEvents - {key};
        }
        keys := keys - {key};
      }
    }

    /** Sets every event of a dictionary, one at a time. */
    method SetEach<K>(stored: map<K, Event>)
      requires Valid() && forall k :: k in stored ==> Made(stored[k])
      modifies this`state, events
      ensures Valid()
      ensures state == old(state).(events := SetEvents(old(state).events, IdsOf(stored, stored.Keys)))
    {
      var keys := stored.Keys;
      ghost var done: set<K> := {};
      assert state.events == SetEvents(state.events, IdsOf(stored, done));
      while keys != {}
        invariant Valid() && done + keys == stored.Keys
        invariant state == old(state).(events := SetEvents(old(state).events, IdsOf(stored, done)))
        decreases keys
      {
        var k :| k in keys;
        SetEvent(stored[k]);
        SetEventsTwice(old(state).events, IdsOf(stored, done), {stored[k].id});
        IdsOfMore(stored, done, k);
        done, keys := done + {k}, keys - {k};
      }
      assert done == stored.Keys;
    }

    method CancelAll()
      requires Valid()
      modifies this`state, events
      ensures Valid() && state == Apply(old(state), CancelOp.CancelAll)
    {
      ghost var cs := state;
      SetEach(sessionEvents);
      SetEach(callEvents);
      SetEventsTwice(cs.events, cs.sessions.Values, cs.calls.Values);
      ValuesAreIds(cs.sessions, sessionEvents);
      ValuesAreIds(cs.calls, callEvents);
    }
  }

  ghost function IdsOf<K>(stored: map<K, Event>, keys: set<K>): set<nat>
    requires keys <= stored.Keys
  {
    set k | k in keys :: stored[k].id
  }

  lemma ValuesAreIds<K>(ids: map<K, nat>, stored: map<K, Event>)
    requires ids.Keys == stored.Keys && forall k :: k in stored ==> ids[k] == stored[k].id
    ensures ids.Values == IdsOf(stored, stored.Keys)
  {
    assert forall k :: k in stored ==> ids[k] in ids.Values;
  }

  lemma IdsOfMore<K>(stored: map<K, Event>, keys: set<K>, k: K)
    requires keys <= stored.Keys && k in stored
    ensures IdsOf(stored, keys + {k}) == IdsOf(stored, keys) + {stored[k].id}
  {
  }
}
