/**
 The operator queue: asks post a request and poll for a response, a cancellation or the deadline,
 over three append-only logs. A run interleaves any number of asks with responses, cancellations and
 asks killed from outside.
 */
module HumanQueue {
  import opened Wrappers

  datatype Request = Request(id: string, session: string)
  datatype Response = Response(id: string, answer: string)

  datatype Kind = Answered(answer: string) | CancelledKind | TimedOut | CancelRequested
  datatype QueueEvent = QueueEvent(id: string, kind: Kind)

  /** How an ask ends; the closing event it writes has the same kind. */
  type Outcome = k: Kind | !k.CancelRequested? witness TimedOut

  // ---------- One poll ----------

  /** The newest response recorded for an id: the reverse scan of the file. */
  function FindResponse(responses: seq<Response>, id: string): Option<string> {
    if responses == [] then None
    else if responses[|responses| - 1].id == id then Some(responses[|responses| - 1].answer)
    else FindResponse(responses[..|responses| - 1], id)
  }

  /** What a poll decides: a response wins over a cancellation, which wins over the deadline. */
  function Decide(response: Option<string>, cancelled: bool, expired: bool): Option<Outcome> {
    if response.Some? then Some(Answered(response.value))
    else if cancelled then Some(CancelledKind)
    else if expired then Some(TimedOut)
    else None
  }

  /** The response at position `i` is the last one recorded for the id. */
  ghost predicate IsNewest(responses: seq<Response>, i: int, id: string) {
    && 0 <= i < |responses| && responses[i].id == id
    && forall j :: i < j < |responses| ==> responses[j].id != id
  }

  lemma {:induction false} FindResponseIsNewest(responses: seq<Response>, id: string, i: nat)
    requires i < |responses| && responses[i].id == id
    requires forall j :: i < j < |responses| ==> responses[j].id != id
    ensures FindResponse(responses, id) == Some(responses[i].answer)
  {
    if i < |responses| - 1 {
      FindResponseIsNewest(responses[..|responses| - 1], id, i);
    }
  }

  lemma {:induction false} FindResponseNoneIff(responses: seq<Response>, id: string)
    ensures FindResponse(responses, id).None? <==> forall r :: r in responses ==> r.id != id
  {
    if responses != [] {
      FindResponseNoneIff(responses[..|responses| - 1], id);
      assert forall r :: r in responses <==> r in responses[..|responses| - 1] || r == responses[|responses| - 1];
    }
  }

  // ---------- The polling loop ----------

  /** What poll `i` of an ask reads: the response, the cancellation flags, and the clock twice, for the
      deadline test and for the length of the sleep. */
  datatype View = View(response: Option<string>, cancelled: bool, now: int, later: int)

  function Sleep(v: View, deadline: int, interval: nat): int {
    var left := if deadline - v.later > 0 then deadline - v.later else 0;
    if interval <= left then interval else left
  }

  function DecideView(v: View, deadline: int): Option<Outcome> {
    Decide(v.response, v.cancelled, v.now >= deadline)
  }

  /** The clock never runs backwards, and every sleep lasts at least as long as asked. */
  ghost predicate FairClock(view: nat -> View, start: int, deadline: int, interval: nat) {
    && view(0).now >= start
    && (forall i: nat :: view(i).later >= view(i).now)
    && (forall i: nat :: view(i + 1).now >= view(i).later + Sleep(view(i), deadline, interval))
  }

  function CeilDiv(a: nat, b: nat): nat
    requires b > 0
  {
    (a + b - 1) / b
  }

  lemma BelowCeil(k: nat, a: nat, b: nat)
    requires b > 0 && k * b < a
    ensures k < CeilDiv(a, b)
  {
    assert (k + 1) * b <= a + b - 1;
  }

  /** Under a fair clock every poll comes a full interval after the one before, until the deadline. */
  lemma {:induction false} PollTimes(view: nat -> View, start: int, deadline: int, interval: nat, i: nat)
    requires FairClock(view, start, deadline, interval)
    ensures view(i).now >= deadline || view(i).now >= start + i * interval
  {
    if i > 0 {
      PollTimes(view, start, deadline, interval, i - 1);
      assert i * interval == (i - 1) * interval + interval;
      assert view(i - 1 + 1).now >= view(i - 1).later + Sleep(view(i - 1), deadline, interval);
    }
  }

  /** So a poll before the deadline is one of the first ceil(timeout / interval). */
  lemma PollsInTime(view: nat -> View, start: int, timeout: nat, interval: nat, i: nat)
    requires interval > 0 && FairClock(view, start, start + timeout, interval) && view(i).now < start + timeout
    ensures i < CeilDiv(timeout, interval)
  {
    PollTimes(view, start, start + timeout, interval, i);
    BelowCeil(i, timeout, interval);
  }

  /** The clock is read without delay, and every sleep lasts exactly as long as asked. */
  ghost predicate PromptClock(view: nat -> View, start: int, deadline: int, interval: nat) {
    && view(0).now == start
    && (forall i: nat :: view(i).later == view(i).now)
    && (forall i: nat :: view(i + 1).now == view(i).later + Sleep(view(i), deadline, interval))
  }

  /** Under a prompt clock poll `i` comes after `i` intervals, or at the deadline if that is sooner: a
      timeout is noticed at the deadline itself. */
  lemma {:induction false} PollsOnTime(view: nat -> View, start: int, timeout: nat, interval: nat, i: nat)
    requires PromptClock(view, start, start + timeout, interval)
    ensures view(i).now == if i * interval <= timeout then start + i * interval else start + timeout
  {
    if i > 0 {
      PollsOnTime(view, start, timeout, interval, i - 1);
      assert i * interval == (i - 1) * interval + interval;
      assert view(i - 1 + 1).now == view(i - 1).later + Sleep(view(i - 1), start + timeout, interval);
    }
  }

  /** The loop of `ask`, against whatever other threads and operators do between its polls. It ends
      after at most ceil(timeout / interval) + 1 polls, at the first poll that decides. */
  method AskLoop(view: nat -> View, start: int, timeout: nat, interval: nat) returns (outcome: Outcome, polls: nat)
    requires interval > 0 && FairClock(view, start, start + timeout, interval)
    ensures 1 <= polls <= CeilDiv(timeout, interval) + 1
    ensures forall i: nat :: i < polls - 1 ==>
              view(i).response.None? && !view(i).cancelled && view(i).now < start + timeout
    ensures var v := view(polls - 1);
            && (v.response.Some? ==> outcome == Answered(v.response.value))
            && (v.response.None? && v.cancelled ==> outcome == CancelledKind)
            && (v.response.None? && !v.cancelled ==> outcome == TimedOut && v.now >= start + timeout)
  {
    var deadline := start + timeout;
    polls := 0;
    while true
      invariant forall i: nat :: i < polls ==> DecideView(view(i), deadline) == None
      invariant polls > 0 ==> (polls - 1) * interval < timeout
      invariant view(polls).now >= deadline || view(polls).now >= start + polls * interval
      decreases deadline - view(polls).now
    {
      if polls > 0 {
        BelowCeil(polls - 1, timeout, interval);
      }
      var v := view(polls);
      polls := polls + 1;
      match Decide(v.response, v.cancelled, v.now >= deadline) {
        case Some(o) =>
          return o, polls;
        case None =>
          assert polls * interval == (polls - 1) * interval + interval;
      }
    }
  }

  // ---------- The queue and its asks ----------

  /** An ask is registered, then posts its request and waits; Closing once its closing event is
      written, Done once it has left the table of active asks, Lost if it was killed while waiting. */
  datatype Phase = Registered | Waiting | Closing | Done | Lost

  /** `readAt` is the length of the response log at the poll that decided. */
  datatype Ask = Ask(session: string, phase: Phase, cancelled: bool, outcome: Option<Outcome>, readAt: nat)

  datatype Queue = Queue(
    requests: seq<Request>,
    responses: seq<Response>,
    events: seq<QueueEvent>,
    active: seq<string>,
    asks: map<string, Ask>)

  const EMPTY_QUEUE := Queue([], [], [], [], map[])

  datatype Step =
    | Register(id: string, session: string)
    | Post(id: string)
    | Poll(id: string, callerCancelled: bool, expired: bool)
    | Leave(id: string)
    | Kill(id: string)
    | Respond(id: string, answer: string)
    | CancelAsks(id: string, session: string)

  predicate At(q: Queue, id: string, phase: Phase) {
    id in q.asks && q.asks[id].phase == phase
  }

  function Moved(q: Queue, id: string, a: Ask): Queue {
    q.(asks := q.asks[id := a])
  }

  function Dropped(active: seq<string>, id: string): seq<string> {
    if active == [] then []
    else (if active[0] == id then [] else [active[0]]) + Dropped(active[1..], id)
  }

  /** The newest request with the id was posted by the session. */
  function MatchesSession(requests: seq<Request>, id: string, session: string): bool {
    if requests == [] then false
    else if requests[|requests| - 1].id == id then requests[|requests| - 1].session == session
    else MatchesSession(requests[..|requests| - 1], id, session)
  }

  predicate IsTarget(requests: seq<Request>, candidate: string, id: string, session: string) {
    (id == "" || candidate == id) && (session == "" || MatchesSession(requests, candidate, session))
  }

  /** The active asks a cancellation names, in the order they registered. */
  function Targets(active: seq<string>, requests: seq<Request>, id: string, session: string): seq<string> {
    if active == [] then []
    else
      Targets(active[..|active| - 1], requests, id, session)
      + if IsTarget(requests, active[|active| - 1], id, session) then [active[|active| - 1]] else []
  }

  function Requested(ids: seq<string>): seq<QueueEvent> {
    if ids == [] then [] else Requested(ids[..|ids| - 1]) + [QueueEvent(ids[|ids| - 1], CancelRequested)]
  }

  lemma {:induction false} RequestedEach(ids: seq<string>)
    ensures |Requested(ids)| == |ids|
    ensures forall i :: 0 <= i < |ids| ==> Requested(ids)[i] == QueueEvent(ids[i], CancelRequested)
  {
    if ids != [] {
      RequestedEach(ids[..|ids| - 1]);
    }
  }

  function Next(q: Queue, s: Step): Queue {
    match s
    case Register(id, session) =>
      if id == "" || id in q.asks then q
      else Moved(q.(active := q.active + [id]), id, Ask(session, Registered, false, None, 0))
    case Post(id) =>
      if !At(q, id, Registered) then q
      else Moved(q.(requests := q.requests + [Request(id, q.asks[id].session)]), id, q.asks[id].(phase := Waiting))
    case Poll(id, callerCancelled, expired) =>
      if !At(q, id, Waiting) then q
      else
        var a := q.asks[id];
        (match Decide(FindResponse(q.responses, id), a.cancelled || callerCancelled, expired)
         case None => q
         case Some(o) =>
           Moved(q.(events := q.events + [QueueEvent(id, o)]), id,
                 a.(phase := Closing, outcome := Some(o), readAt := |q.responses|)))
    case Leave(id) =>
      if !At(q, id, Closing) then q
      else Moved(q.(active := Dropped(q.active, id)), id, q.asks[id].(phase := Done))
    case Kill(id) =>
      if !At(q, id, Waiting) then q
      else Moved(q.(active := Dropped(q.active, id)), id, q.asks[id].(phase := Lost))
    case Respond(id, answer) =>
      if id == "" then q else q.(responses := q.responses + [Response(id, answer)])
    case CancelAsks(id, session) =>
      var targets := Targets(q.active, q.requests, id, session);
      q.(asks := map k | k in q.asks :: if k in targets then q.asks[k].(cancelled := true) else q.asks[k],
         events := q.events + Requested(targets))
  }

  function Run(steps: seq<Step>): Queue {
    if steps == [] then EMPTY_QUEUE else Next(Run(steps[..|steps| - 1]), steps[|steps| - 1])
  }

  // ---------- What every run keeps ----------

  function RequestsOf(requests: seq<Request>, id: string): seq<Request> {
    if requests == [] then []
    else
      var last := requests[|requests| - 1];
      RequestsOf(requests[..|requests| - 1], id) + if last.id == id then [last] else []
  }

  /** The closing events of an id: everything but cancellation requests. */
  function ClosingOf(events: seq<QueueEvent>, id: string): seq<Kind> {
    if events == [] then []
    else
      var last := events[|events| - 1];
      ClosingOf(events[..|events| - 1], id) + if last.id == id && last.kind != CancelRequested then [last.kind] else []
  }

  ghost predicate AskOk(q: Queue, id: string) {
    if id in q.asks then
      var a := q.asks[id];
      && id != ""
      && RequestsOf(q.requests, id) == (if a.phase == Registered then [] else [Request(id, a.session)])
      && ClosingOf(q.events, id) == (if a.outcome.Some? then [a.outcome.value] else [])
      && (a.outcome.Some? <==> a.phase == Closing || a.phase == Done)
      && (a.outcome.Some? ==>
            && a.readAt <= |q.responses|
            && FindResponse(q.responses[..a.readAt], id)
               == if a.outcome.value.Answered? then Some(a.outcome.value.answer) else None)
    else
      RequestsOf(q.requests, id) == [] && ClosingOf(q.events, id) == []
  }

  lemma ClosingOfAppend(events: seq<QueueEvent>, e: QueueEvent, id: string)
    ensures ClosingOf(events + [e], id)
         == ClosingOf(events, id) + if e.id == id && e.kind != CancelRequested then [e.kind] else []
  {
    assert (events + [e])[..|events|] == events;
  }

  lemma {:induction false} ClosingOfRequested(events: seq<QueueEvent>, ids: seq<string>, id: string)
    ensures ClosingOf(events + Requested(ids), id) == ClosingOf(events, id)
  {
    if ids == [] {
      assert events + Requested(ids) == events;
    } else {
      var front, e := ids[..|ids| - 1], QueueEvent(ids[|ids| - 1], CancelRequested);
      ClosingOfRequested(events, front, id);
      ClosingOfAppend(events + Requested(front), e, id);
      assert events + Requested(ids) == (events + Requested(front)) + [e];
    }
  }

  lemma PostAskOk(q: Queue, k: string, id: string)
    requires AskOk(q, id)
    ensures AskOk(Next(q, Post(k)), id)
  {
    if At(q, k, Registered) {
      var q1 := Next(q, Post(k));
      assert q1.requests[..|q1.requests| - 1] == q.requests;
      assert RequestsOf(q1.requests, id)
          == RequestsOf(q.requests, id) + if k == id then [Request(k, q.asks[k].session)] else [];
    }
  }

  lemma PollAskOk(q: Queue, k: string, callerCancelled: bool, expired: bool, id: string)
    requires AskOk(q, id)
    ensures AskOk(Next(q, Poll(k, callerCancelled, expired)), id)
  {
    var q1 := Next(q, Poll(k, callerCancelled, expired));
    if At(q, k, Waiting) && q1 != q {
      var o := q1.asks[k].outcome.value;
      assert q1.events[..|q1.events| - 1] == q.events;
      assert ClosingOf(q1.events, id) == ClosingOf(q.events, id) + if k == id then [o] else [];
      assert q.responses[..|q.responses|] == q.responses;
    }
  }

  lemma RespondAskOk(q: Queue, k: string, answer: string, id: string)
    requires AskOk(q, id)
    ensures AskOk(Next(q, Respond(k, answer)), id)
  {
    var q1 := Next(q, Respond(k, answer));
    assert q.responses <= q1.responses;
    if id in q.asks && q.asks[id].outcome.Some? {
      assert q1.responses[..q.asks[id].readAt] == q.responses[..q.asks[id].readAt];
    }
  }

  lemma CancelAskOk(q: Queue, k: string, session: string, id: string)
    requires AskOk(q, id)
    ensures AskOk(Next(q, CancelAsks(k, session)), id)
  {
    ClosingOfRequested(q.events, Targets(q.active, q.requests, k, session), id);
  }

  lemma OtherAskOk(q: Queue, s: Step, id: string)
    requires AskOk(q, id) && (s.Register? || s.Leave? || s.Kill?)
    ensures AskOk(Next(q, s), id)
  {
  }

  lemma NextAskOk(q: Queue, s: Step, id: string)
    requires AskOk(q, id)
    ensures AskOk(Next(q, s), id)
  {
    match s {
      case Post(k) => PostAskOk(q, k, id);
      case Poll(k, callerCancelled, expired) => PollAskOk(q, k, callerCancelled, expired, id);
      case Respond(k, answer) => RespondAskOk(q, k, answer, id);
      case CancelAsks(k, session) => CancelAskOk(q, k, session, id);
      case _ => OtherAskOk(q, s, id);
    }
  }

  lemma {:induction false} RunAskOk(steps: seq<Step>, id: string)
    ensures AskOk(Run(steps), id)
  {
    if steps != [] {
      RunAskOk(steps[..|steps| - 1], id);
      NextAskOk(Run(steps[..|steps| - 1]), steps[|steps| - 1], id);
    }
  }

  /** In every run, an ask that has returned posted exactly one request and wrote exactly one closing
      event, of the kind it returned. It returned an answer only if that was the newest response when it
      looked, and returned something else only if there was none. */
  lemma OneClosingEvent(steps: seq<Step>, id: string)
    requires At(Run(steps), id, Done)
    ensures var q := Run(steps);
            var a := q.asks[id];
            && RequestsOf(q.requests, id) == [Request(id, a.session)]
            && a.outcome.Some? && ClosingOf(q.events, id) == [a.outcome.value]
            && a.readAt <= |q.responses|
            && FindResponse(q.responses[..a.readAt], id)
               == if a.outcome.value.Answered? then Some(a.outcome.value.answer) else None
  {
    RunAskOk(steps, id);
  }

  // ---------- Exactly how an ask ends ----------

  predicate Live(q: Queue, id: string) {
    At(q, id, Registered) || At(q, id, Waiting)
  }

  /** The table of active asks holds exactly those that have registered and not left. */
  ghost predicate ActiveOk(q: Queue, id: string) {
    id in q.active <==> Live(q, id) || At(q, id, Closing)
  }

  lemma NextActiveOk(q: Queue, s: Step, id: string)
    requires ActiveOk(q, id)
    ensures ActiveOk(Next(q, s), id)
  {
    match s {
      case Leave(k) => DroppedMembers(q.active, k);
      case Kill(k) => DroppedMembers(q.active, k);
      case _ =>
    }
  }

  lemma {:induction false} RunActiveOk(steps: seq<Step>, id: string)
    ensures ActiveOk(Run(steps), id)
  {
    if steps != [] {
      RunActiveOk(steps[..|steps| - 1], id);
      NextActiveOk(Run(steps[..|steps| - 1]), steps[|steps| - 1], id);
    }
  }

  /** A session matches by the ask's own request, once that is posted. */
  lemma {:induction false} MatchesOwn(requests: seq<Request>, id: string, session: string)
    requires |RequestsOf(requests, id)| <= 1
    ensures MatchesSession(requests, id, session)
       <==> RequestsOf(requests, id) != [] && RequestsOf(requests, id)[0].session == session
  {
    if requests != [] {
      MatchesOwn(requests[..|requests| - 1], id, session);
    }
  }

  ghost function TargetsBefore(
    active: seq<string>, requests: seq<Request>, id: string, session: string, n: nat): set<nat>
    requires n <= |active|
  {
    set a: nat | a < n && IsTarget(requests, active[a], id, session)
  }

  /** Every active ask the cancellation names is named once, in the order they registered. */
  lemma {:induction false} TargetsExactly(
    active: seq<string>, requests: seq<Request>, id: string, session: string, a: nat)
    requires a < |active|
    ensures var t := Targets(active, requests, id, session);
            && |t| == |TargetsBefore(active, requests, id, session, |active|)|
            && (IsTarget(requests, active[a], id, session) ==>
                  var i := |TargetsBefore(active, requests, id, session, a)|;
                  i < |t| && t[i] == active[a])
  {
    var n := |active| - 1;
    var front := active[..n];
    var now := if IsTarget(requests, active[n], id, session) then {n} else {};
    assert TargetsBefore(active, requests, id, session, n + 1)
        == TargetsBefore(front, requests, id, session, n) + now;
    if n == 0 {
      assert TargetsBefore(front, requests, id, session, n) == {};
    } else {
      TargetsExactly(front, requests, id, session, if a < n then a else 0);
    }
    var b := if a < n then a else n;
    assert TargetsBefore(active, requests, id, session, b) == TargetsBefore(front, requests, id, session, b);
  }

  /** Step `m` cancels the ask: it comes while the ask is active and names its id or none, and its session
      or none; a session is matched only once the request is posted. */
  ghost predicate CancelledAt(steps: seq<Step>, m: nat, id: string)
    requires m < |steps|
  {
    var q := Run(steps[..m]);
    && steps[m].CancelAsks? && Live(q, id)
    && (steps[m].id == "" || steps[m].id == id)
    && (steps[m].session == "" || (At(q, id, Waiting) && q.asks[id].session == steps[m].session))
  }

  ghost predicate CancelledBefore(steps: seq<Step>, id: string) {
    exists m: nat :: m < |steps| && CancelledAt(steps, m, id)
  }

  lemma CancelledMore(steps: seq<Step>, id: string)
    requires steps != []
    ensures var n := |steps| - 1;
            CancelledBefore(steps, id) <==> CancelledBefore(steps[..n], id) || CancelledAt(steps, n, id)
  {
    var (n, front) := (|steps| - 1, steps[..|steps| - 1]);
    forall m: nat | m < n ensures CancelledAt(steps, m, id) <==> CancelledAt(front, m, id) {
      assert front[..m] == steps[..m];
    }
    if m: nat :| m < n && CancelledAt(front, m, id) {
      assert CancelledAt(steps, m, id);
    }
  }

  lemma TargetIff(q: Queue, k: string, session: string, id: string)
    requires AskOk(q, id) && ActiveOk(q, id) && Live(q, id)
    ensures id in Targets(q.active, q.requests, k, session)
       <==> (k == "" || k == id) && (session == "" || (At(q, id, Waiting) && q.asks[id].session == session))
  {
    TargetsAreActive(q.active, q.requests, k, session);
    MatchesOwn(q.requests, id, session);
  }

  lemma FlagNext(q: Queue, s: Step, id: string)
    requires AskOk(q, id) && ActiveOk(q, id) && Live(Next(q, s), id)
    ensures Next(q, s).asks[id].cancelled <==>
              || (Live(q, id) && q.asks[id].cancelled)
              || (Live(q, id) && s.CancelAsks? && id in Targets(q.active, q.requests, s.id, s.session))
    ensures !Live(q, id) ==> s.Register? && id !in q.asks
  {
  }

  lemma {:induction false} NotCancelledUnborn(steps: seq<Step>, id: string)
    requires id !in Run(steps).asks
    ensures !CancelledBefore(steps, id)
  {
    if steps != [] {
      var n := |steps| - 1;
      assert id !in Run(steps[..n]).asks;
      NotCancelledUnborn(steps[..n], id);
      CancelledMore(steps, id);
    }
  }

  /** While an ask is active, its flag is set exactly when some step has cancelled it. */
  lemma {:induction false} FlagIffCancelled(steps: seq<Step>, id: string)
    requires Live(Run(steps), id)
    ensures Run(steps).asks[id].cancelled <==> CancelledBefore(steps, id)
  {
    if steps != [] {
      var n := |steps| - 1;
      var q := Run(steps[..n]);
      RunAskOk(steps[..n], id);
      RunActiveOk(steps[..n], id);
      CancelledMore(steps, id);
      FlagNext(q, steps[n], id);
      if Live(q, id) {
        FlagIffCancelled(steps[..n], id);
        if steps[n].CancelAsks? {
          TargetIff(q, steps[n].id, steps[n].session, id);
        }
      } else {
        NotCancelledUnborn(steps[..n], id);
      }
    }
  }

  /** In every run, a poll of a waiting ask ends it as answered, with the newest response, if one is
      recorded for it; if none is, as cancelled exactly when some earlier step or the caller has cancelled
      it, as timed out exactly when neither has and its deadline is over, and otherwise not at all. */
  lemma PollDecides(steps: seq<Step>, id: string, callerCancelled: bool, expired: bool)
    requires At(Run(steps), id, Waiting)
    ensures var (q, q1) := (Run(steps), Next(Run(steps), Poll(id, callerCancelled, expired)));
            var outcome := q1.asks[id].outcome;
            && id in q1.asks
            && (forall i :: 0 <= i < |q.responses| && IsNewest(q.responses, i, id) ==>
                  outcome == Some(Answered(q.responses[i].answer)))
            && ((forall r :: r in q.responses ==> r.id != id) ==>
                  && (outcome == Some(CancelledKind) <==> CancelledBefore(steps, id) || callerCancelled)
                  && (outcome == Some(TimedOut) <==> !CancelledBefore(steps, id) && !callerCancelled && expired)
                  && (outcome == None <==> !CancelledBefore(steps, id) && !callerCancelled && !expired))
            && (q1.asks[id].phase == Closing <==> outcome.Some?)
  {
    var q := Run(steps);
    RunAskOk(steps, id);
    FlagIffCancelled(steps, id);
    FindResponseNoneIff(q.responses, id);
    forall i | 0 <= i < |q.responses| && IsNewest(q.responses, i, id)
      ensures FindResponse(q.responses, id) == Some(q.responses[i].answer)
    {
      FindResponseIsNewest(q.responses, id, i);
    }
  }

  lemma OutcomeStaysNext(q: Queue, s: Step, id: string)
    requires AskOk(q, id) && id in q.asks && q.asks[id].outcome.Some?
    ensures id in Next(q, s).asks && Next(q, s).asks[id].outcome == q.asks[id].outcome
  {
  }

  lemma {:induction false} OutcomeStays(steps: seq<Step>, n: nat, id: string)
    requires n <= |steps| && id in Run(steps[..n]).asks && Run(steps[..n]).asks[id].outcome.Some?
    ensures id in Run(steps).asks && Run(steps).asks[id].outcome == Run(steps[..n]).asks[id].outcome
  {
    if n == |steps| {
      assert steps[..n] == steps;
    } else {
      var front := steps[..|steps| - 1];
      assert front[..n] == steps[..n];
      OutcomeStays(front, n, id);
      RunAskOk(front, id);
      OutcomeStaysNext(Run(front), steps[|steps| - 1], id);
    }
  }

  /** So the outcome an ask returns with is the one of the poll that ended it. */
  lemma OutcomeIsOfPoll(steps: seq<Step>, i: nat, id: string)
    requires i < |steps| && steps[i].Poll? && steps[i].id == id && At(Run(steps[..i]), id, Waiting)
    requires At(Run(steps[..i + 1]), id, Closing)
    ensures id in Run(steps).asks
    ensures Run(steps).asks[id].outcome == Next(Run(steps[..i]), steps[i]).asks[id].outcome
    ensures Run(steps).asks[id].outcome.Some?
  {
    assert steps[..i + 1][..i] == steps[..i];
    RunAskOk(steps[..i + 1], id);
    OutcomeStays(steps, i + 1, id);
  }

  // ---------- Every ask ends ----------

  /** The poll steps of an ask, while it waits. */
  function Polls(steps: seq<Step>, id: string): nat {
    if steps == [] then 0
    else
      var n := |steps| - 1;
      Polls(steps[..n], id) + if steps[n].Poll? && steps[n].id == id && At(Run(steps[..n]), id, Waiting) then 1 else 0
  }

  /** Whether a poll of the ask counts as expired is read off its clock. */
  ghost predicate OnClock(steps: seq<Step>, id: string, view: nat -> View, deadline: int) {
    forall i :: 0 <= i < |steps| && steps[i].Poll? && steps[i].id == id && At(Run(steps[..i]), id, Waiting)
      ==> (steps[i].expired <==> view(Polls(steps[..i], id)).now >= deadline)
  }

  /** How an ask comes to wait, and that an expired poll ends it. */
  lemma PhaseBefore(q: Queue, s: Step, id: string)
    ensures At(Next(q, s), id, Waiting) ==> At(q, id, Waiting) || At(q, id, Registered)
    ensures At(Next(q, s), id, Waiting) && !At(q, id, Waiting) ==> s == Post(id)
    ensures At(Next(q, s), id, Waiting) && At(q, id, Waiting) && s.Poll? && s.id == id ==> !s.expired
    ensures id !in Next(q, s).asks || At(Next(q, s), id, Registered) ==> id !in q.asks || At(q, id, Registered)
  {
  }

  lemma OnClockBefore(steps: seq<Step>, id: string, view: nat -> View, deadline: int)
    requires steps != [] && OnClock(steps, id, view, deadline)
    ensures OnClock(steps[..|steps| - 1], id, view, deadline)
  {
    var front := steps[..|steps| - 1];
    forall i | 0 <= i < |front| && front[i].Poll? && front[i].id == id && At(Run(front[..i]), id, Waiting)
      ensures front[i].expired <==> view(Polls(front[..i], id)).now >= deadline
    {
      assert front[..i] == steps[..i] && steps[i] == front[i];
    }
  }

  /** Before it waits an ask has not polled; while it still waits, every poll so far was in time. */
  ghost predicate PolledInTime(steps: seq<Step>, id: string, view: nat -> View, deadline: int) {
    var q := Run(steps);
    && (id !in q.asks || At(q, id, Registered) ==> Polls(steps, id) == 0)
    && (At(q, id, Waiting) ==> forall i: nat :: i < Polls(steps, id) ==> view(i).now < deadline)
  }

  lemma {:induction false} WaitingPolledInTime(steps: seq<Step>, id: string, view: nat -> View, deadline: int)
    requires OnClock(steps, id, view, deadline)
    ensures PolledInTime(steps, id, view, deadline)
  {
    if steps != [] {
      var n := |steps| - 1;
      OnClockBefore(steps, id, view, deadline);
      WaitingPolledInTime(steps[..n], id, view, deadline);
      PhaseBefore(Run(steps[..n]), steps[n], id);
    }
  }

  lemma WaitingPollsFew(steps: seq<Step>, id: string, view: nat -> View, start: int, timeout: nat, interval: nat)
    requires interval > 0 && FairClock(view, start, start + timeout, interval)
    requires OnClock(steps, id, view, start + timeout) && At(Run(steps), id, Waiting)
    ensures Polls(steps, id) <= CeilDiv(timeout, interval)
  {
    WaitingPolledInTime(steps, id, view, start + timeout);
    if Polls(steps, id) > 0 {
      PollsInTime(view, start, timeout, interval, Polls(steps, id) - 1);
    }
  }

  /** In every run in which the polls of an ask follow a fair clock, whatever everyone else does in
      between, the ask polls at most ceil(timeout / interval) + 1 times, and the last of these ends it. */
  lemma {:induction false} AskEnds(
    steps: seq<Step>, id: string, view: nat -> View, start: int, timeout: nat, interval: nat)
    requires interval > 0 && FairClock(view, start, start + timeout, interval)
    requires OnClock(steps, id, view, start + timeout)
    ensures Polls(steps, id) <= CeilDiv(timeout, interval) + 1
    ensures Polls(steps, id) == CeilDiv(timeout, interval) + 1 ==> !At(Run(steps), id, Waiting)
  {
    if At(Run(steps), id, Waiting) {
      WaitingPollsFew(steps, id, view, start, timeout, interval);
    } else if steps != [] {
      var front := steps[..|steps| - 1];
      OnClockBefore(steps, id, view, start + timeout);
      if At(Run(front), id, Waiting) {
        WaitingPollsFew(front, id, view, start, timeout, interval);
      } else {
        AskEnds(front, id, view, start, timeout, interval);
      }
    }
  }

  // ---------- The pending count ----------

  function Closed(responses: seq<Response>, events: seq<QueueEvent>): set<string> {
    (set r | r in responses :: r.id) + (set e | e in events && e.kind != CancelRequested :: e.id)
  }

  function Pending(requests: seq<Request>, closed: set<string>): nat {
    if requests == [] then 0
    else Pending(requests[..|requests| - 1], closed) + if requests[|requests| - 1].id in closed then 0 else 1
  }

  function PendingCount(q: Queue): nat {
    Pending(q.requests, Closed(q.responses, q.events))
  }

  ghost predicate DistinctIds(requests: seq<Request>) {
    forall i, j :: 0 <= i < j < |requests| ==> requests[i].id != requests[j].id
  }

  ghost function OpenIds(requests: seq<Request>, closed: set<string>): set<string> {
    set r | r in requests && r.id !in closed :: r.id
  }

  lemma {:induction false} PendingIsCard(requests: seq<Request>, closed: set<string>)
    requires DistinctIds(requests)
    ensures Pending(requests, closed) == |OpenIds(requests, closed)|
  {
    if requests != [] {
      var front, last := requests[..|requests| - 1], requests[|requests| - 1];
      PendingIsCard(front, closed);
      assert forall r :: r in requests <==> r in front || r == last;
      if last.id in closed {
        assert OpenIds(requests, closed) == OpenIds(front, closed);
      } else {
        assert last.id !in OpenIds(front, closed);
        assert OpenIds(requests, closed) == OpenIds(front, closed) + {last.id};
      }
    }
  }

  lemma {:induction false} RequestsOfMembers(requests: seq<Request>, id: string)
    ensures forall r :: r in RequestsOf(requests, id) <==> r in requests && r.id == id
  {
    if requests != [] {
      var front, last := requests[..|requests| - 1], requests[|requests| - 1];
      RequestsOfMembers(front, id);
      assert forall r :: r in requests <==> r in front || r == last;
    }
  }

  lemma {:induction false} RequestsOfFacts(requests: seq<Request>, id: string)
    ensures forall r :: r in RequestsOf(requests, id) <==> r in requests && r.id == id
    ensures |RequestsOf(requests, id)| <= 1 ==>
              forall i, j :: 0 <= i < j < |requests| && requests[i].id == id ==> requests[j].id != id
  {
    RequestsOfMembers(requests, id);
    if requests != [] && |RequestsOf(requests, id)| <= 1 {
      var n := |requests| - 1;
      RequestsOfFacts(requests[..n], id);
      forall i, j | 0 <= i < j < |requests| && requests[i].id == id ensures requests[j].id != id {
        assert requests[..n][i] == requests[i] && requests[i] in RequestsOf(requests[..n], id);
        assert j < n ==> requests[..n][j] == requests[j];
      }
    }
  }

  lemma {:induction false} ClosingOfMembers(events: seq<QueueEvent>, id: string)
    ensures ClosingOf(events, id) != [] <==> exists e :: e in events && e.id == id && e.kind != CancelRequested
  {
    if events != [] {
      var front, last := events[..|events| - 1], events[|events| - 1];
      ClosingOfMembers(front, id);
      assert forall e :: e in events <==> e in front || e == last;
      if last.id == id && last.kind != CancelRequested {
        assert last in events;
      }
    }
  }

  /** The asks that posted a request and have neither ended nor been answered. */
  ghost function Unanswered(q: Queue): set<string> {
    set id | id in q.asks && q.asks[id].phase in {Waiting, Lost} && FindResponse(q.responses, id) == None
  }

  lemma ClosedIff(q: Queue, id: string)
    ensures id in Closed(q.responses, q.events)
       <==> FindResponse(q.responses, id).Some? || ClosingOf(q.events, id) != []
  {
    ClosingOfMembers(q.events, id);
    FindResponseNoneIff(q.responses, id);
  }

  lemma OpenIffUnanswered(q: Queue, id: string)
    requires AskOk(q, id)
    ensures id in OpenIds(q.requests, Closed(q.responses, q.events)) <==> id in Unanswered(q)
  {
    ClosedIff(q, id);
    RequestsOfFacts(q.requests, id);
    if id in q.asks && q.asks[id].phase != Registered {
      assert Request(id, q.asks[id].session) in RequestsOf(q.requests, id);
    }
  }

  /** In every run the pending count is the number of asks still waiting, or killed while waiting, for
      which no response was recorded. */
  lemma PendingCountIsUnanswered(steps: seq<Step>)
    ensures PendingCount(Run(steps)) == |Unanswered(Run(steps))|
  {
    var q := Run(steps);
    var closed := Closed(q.responses, q.events);
    forall i, j | 0 <= i < j < |q.requests| ensures q.requests[i].id != q.requests[j].id {
      RunAskOk(steps, q.requests[i].id);
      RequestsOfFacts(q.requests, q.requests[i].id);
    }
    PendingIsCard(q.requests, closed);
    forall id ensures id in OpenIds(q.requests, closed) <==> id in Unanswered(q) {
      RunAskOk(steps, id);
      OpenIffUnanswered(q, id);
    }
    assert OpenIds(q.requests, closed) == Unanswered(q);
  }

  lemma {:induction false} NoneLost(steps: seq<Step>, id: string)
    requires forall s :: s in steps ==> !s.Kill?
    ensures !At(Run(steps), id, Lost)
  {
    if steps != [] {
      NoneLost(steps[..|steps| - 1], id);
      assert steps[|steps| - 1] in steps;
    }
  }

  /** The asks in flight without a response. */
  ghost function InFlight(q: Queue): set<string> {
    set id | id in q.asks && q.asks[id].phase == Waiting && FindResponse(q.responses, id) == None
  }

  /** When no ask is killed from outside, the pending count is the number of asks in flight without a
      response. */
  lemma PendingCountIsInFlight(steps: seq<Step>)
    requires forall s :: s in steps ==> !s.Kill?
    ensures PendingCount(Run(steps)) == |InFlight(Run(steps))|
  {
    var q := Run(steps);
    PendingCountIsUnanswered(steps);
    forall id | id in q.asks ensures q.asks[id].phase != Lost {
      NoneLost(steps, id);
    }
    assert Unanswered(q) == InFlight(q);
  }

  lemma {:induction false} DroppedMembers(active: seq<string>, id: string)
    ensures forall k :: k in Dropped(active, id) <==> k in active && k != id
  {
    if active != [] {
      DroppedMembers(active[1..], id);
      assert forall k :: k in active <==> k == active[0] || k in active[1..];
    }
  }

  lemma {:induction false} TargetsAreActive(active: seq<string>, requests: seq<Request>, id: string, session: string)
    ensures forall k ::
              k in Targets(active, requests, id, session) <==> k in active && IsTarget(requests, k, id, session)
  {
    if active != [] {
      var front := active[..|active| - 1];
      TargetsAreActive(front, requests, id, session);
      assert forall k :: k in active <==> k == active[|active| - 1] || k in front;
    }
  }

  // ---------- The channel ----------

  class FileHumanQueueChannel {
    var requests: seq<Request>
    var responses: seq<Response>
    var events: seq<QueueEvent>
    var active: seq<string>
    var flagged: set<string>

    constructor ()
      ensures requests == [] && responses == [] && events == [] && active == [] && flagged == {}
    {
      requests, responses, events, active, flagged := [], [], [], [], {};
    }

    /** The channel is where the machine of asks says it is; `flagged` holds the cancelled active asks. */
    ghost predicate Is(q: Queue)
      reads this
    {
      && requests == q.requests && responses == q.responses && events == q.events && active == q.active
      && (forall k :: k in active ==> k in q.asks && (k in flagged <==> q.asks[k].cancelled))
      && (forall k :: k in q.asks && q.asks[k].phase != Done && q.asks[k].phase != Lost ==> k in active)
    }

    // The stretches of `ask`: into the table of active asks, the request, each poll, and the `finally`.

    method RegisterAsk(ghost q: Queue, id: string, session: string)
      requires Is(q) && id != "" && id !in q.asks
      modifies this`active, this`flagged
      ensures Is(Next(q, Register(id, session)))
    {
      active, flagged := active + [id], flagged - {id};
    }

    method PostRequest(ghost q: Queue, id: string, session: string)
      requires Is(q) && At(q, id, Registered) && q.asks[id].session == session
      modifies this`requests
      ensures Is(Next(q, Post(id)))
    {
      requests := requests + [Request(id, session)];
    }

    method PollOnce(ghost q: Queue, id: string, callerCancelled: bool, expired: bool) returns (outcome: Option<Outcome>)
      requires Is(q) && At(q, id, Waiting)
      modifies this`events
      ensures Is(Next(q, Poll(id, callerCancelled, expired)))
      ensures At(Next(q, Poll(id, callerCancelled, expired)), id, Closing) <==> outcome.Some?
      ensures events == old(events) + if outcome.Some? then [QueueEvent(id, outcome.value)] else []
      ensures forall i :: 0 <= i < |responses| && IsNewest(responses, i, id) ==>
                outcome == Some(Answered(responses[i].answer))
      ensures (forall r :: r in responses ==> r.id != id) ==>
                && (outcome == Some(CancelledKind) <==> id in flagged || callerCancelled)
                && (outcome == Some(TimedOut) <==> id !in flagged && !callerCancelled && expired)
                && (outcome == None <==> id !in flagged && !callerCancelled && !expired)
    {
      var response := Find(id);
      FindResponseNoneIff(responses, id);
      forall i | 0 <= i < |responses| && IsNewest(responses, i, id) ensures response == Some(responses[i].answer) {
        FindResponseIsNewest(responses, id, i);
      }
      if response.Some? {
        outcome := Some(Answered(response.value));
      } else if id in flagged || callerCancelled {
        outcome := Some(CancelledKind);
      } else if expired {
        outcome := Some(TimedOut);
      } else {
        return None;
      }
      events := events + [QueueEvent(id, outcome.value)];
    }

    /** Leaving after a return, or when the ask is killed from outside. */
    method LeaveAsk(ghost q: Queue, id: string)
      requires Is(q) && (At(q, id, Closing) || At(q, id, Waiting))
      modifies this`active, this`flagged
      ensures Is(Next(q, if At(q, id, Closing) then Leave(id) else Kill(id)))
    {
      DroppedMembers(active, id);
      active := Dropped(active, id);
      flagged := flagged - {id};
    }

    /** Scans the responses from the newest back. */
    method Find(id: string) returns (answer: Option<string>)
      ensures answer == FindResponse(responses, id)
    {
      var i := |responses|;
      assert responses[..i] == responses;
      while i > 0
        invariant 0 <= i <= |responses|
        invariant FindResponse(responses, id) == FindResponse(responses[..i], id)
      {
        i := i - 1;
        assert responses[..i + 1][..i] == responses[..i];
        if responses[i].id == id {
          return Some(responses[i].answer);
        }
      }
      return None;
    }

    method RequestMatchesSession(id: string, session: string) returns (matches: bool)
      ensures matches == MatchesSession(requests, id, session)
    {
      var i := |requests|;
      assert requests[..i] == requests;
      while i > 0
        invariant 0 <= i <= |requests|
        invariant MatchesSession(requests, id, session) == MatchesSession(requests[..i], id, session)
      {
        i := i - 1;
        assert requests[..i + 1][..i] == requests[..i];
        if requests[i].id == id {
          return requests[i].session == session;
        }
      }
      return false;
    }

    method RecordResponse(ghost q: Queue, id: string, answer: string) returns (success: bool)
      requires Is(q)
      modifies this`responses
      ensures success == (id != "") && Is(Next(q, Respond(id, answer)))
      ensures responses == if success then old(responses) + [Response(id, answer)] else old(responses)
    {
      success := id != "";
      if success {
        responses := responses + [Response(id, answer)];
      }
    }

    /** Sets the flag of every active ask that matches, then records the requests to cancel. */
    method Cancel(ghost q: Queue, id: string, session: string) returns (cancelled: seq<string>)
      requires Is(q)
      modifies this`flagged, this`events
      ensures Is(Next(q, CancelAsks(id, session)))
      ensures cancelled == Targets(active, requests, id, session)
      ensures |events| == |old(events)| + |cancelled| && old(events) <= events
      ensures forall i :: 0 <= i < |cancelled| ==>
                events[|old(events)| + i] == QueueEvent(cancelled[i], CancelRequested)
    {
      cancelled := FlagTargets(id, session);
      RecordCancels(cancelled);
      RequestedEach(cancelled);
      TargetsAreActive(active, requests, id, session);
    }

    method FlagTargets(id: string, session: string) returns (cancelled: seq<string>)
      modifies this`flagged
      ensures cancelled == Targets(active, requests, id, session)
      ensures flagged == old(flagged) + set k | k in cancelled
    {
      cancelled := [];
      for i := 0 to |active|
        invariant cancelled == Targets(active[..i], requests, id, session)
        invariant flagged == old(flagged) + set k | k in cancelled
      {
        assert active[..i + 1][..i] == active[..i];
        var matches := id == "" || active[i] == id;
        if matches && session != "" {
          matches := RequestMatchesSession(active[i], session);
        }
        if matches {
          flagged := flagged + {active[i]};
          cancelled := cancelled + [active[i]];
        }
      }
      assert active[..|active|] == active;
    }

    method RecordCancels(cancelled: seq<string>)
      modifies this`events
      ensures events == old(events) + Requested(cancelled)
    {
      for i := 0 to |cancelled|
        invariant events == old(events) + Requested(cancelled[..i])
      {
        assert cancelled[..i + 1][..i] == cancelled[..i];
        events := events + [QueueEvent(cancelled[i], CancelRequested)];
      }
      assert cancelled[..|cancelled|] == cancelled;
    }

    method Status() returns (pending: nat)
      ensures pending == Pending(requests, Closed(responses, events))
    {
      var closed: set<string> := {};
      for i := 0 to |responses|
        invariant closed == set r | r in responses[..i] :: r.id
      {
        closed := closed + {responses[i].id};
        assert responses[..i + 1] == responses[..i] + [responses[i]];
      }
      assert responses[..|responses|] == responses;
      ghost var answered := closed;
      for i := 0 to |events|
        invariant closed == answered + set e | e in events[..i] && e.kind != CancelRequested :: e.id
      {
        if events[i].kind != CancelRequested {
          closed := closed + {events[i].id};
        }
        assert events[..i + 1] == events[..i] + [events[i]];
      }
      assert events[..|events|] == events;
      pending := 0;
      for i := 0 to |requests|
        invariant pending == Pending(requests[..i], closed)
      {
        assert requests[..i + 1][..i] == requests[..i];
        if requests[i].id !in closed {
          pending := pending + 1;
        }
      }
      assert requests[..|requests|] == requests;
    }
  }
}
