/**
 Many calls of `SkillExecutor.execute` interleaved, with a foreign client of the device arbiter,
 forced releases and cancellations from outside. A run is any sequence of steps; each step is one
 uninterrupted stretch of one call, or one action of the environment. A key of session and call id
 enters at most once.
 */
module SkillExecution {
  import opened Wrappers
  import opened SkillCalls
  import L = Leases
  import C = Cancellation
  import A = Audit

  /** A line of a shared log, with the call that wrote it. */
  datatype Entry<T> = Entry(key: CallKey, item: T)

  function Entries<T>(k: CallKey, items: seq<T>): seq<Entry<T>> {
    if items == [] then [] else Entries(k, items[..|items| - 1]) + [Entry(k, items[|items| - 1])]
  }

  /** What one call wrote to a shared log. */
  function Of<T>(log: seq<Entry<T>>, k: CallKey): seq<T> {
    if log == [] then []
    else
      var last := log[|log| - 1];
      Of(log[..|log| - 1], k) + if last.key == k then [last.item] else []
  }

  datatype World = World(
    lifecycle: bool,
    table: L.Table,
    cancel: C.CancelState,
    ops: seq<C.CancelOp>,
    events: seq<Entry<Ev>>,
    syscalls: seq<Entry<SyscallRecord>>,
    audits: seq<Entry<AuditRecord>>,
    calls: map<CallKey, Call>,
    revoked: set<(CallKey, string)>)

  function Init(lifecycle: bool): World {
    World(lifecycle, L.EMPTY_TABLE, C.EMPTY, [], [], [], [], map[], {})
  }

  datatype Step =
    | Advance(key: CallKey, input: Input)
    | ForeignAcquire(resource: string, owner: string)
    | ForeignRelease(resource: string, owner: string)
    | ForceSession(session: string)
    | ForceAgent(agent: string)
    | Cancel(op: C.CancelOp)

  function SharedOf(w: World): Shared {
    Shared(w.lifecycle, w.table, w.cancel, |w.ops|, A.AuditId(|w.audits| + 1))
  }

  function CallOf(w: World, k: CallKey): Option<Call> {
    if k in w.calls then Some(w.calls[k]) else None
  }

  function Commit(w: World, k: CallKey, e: Effect): World {
    World(w.lifecycle, e.table, C.ApplyAll(w.cancel, e.ops), w.ops + e.ops,
          w.events + Entries(k, e.events), w.syscalls + Entries(k, e.syscalls), w.audits + Entries(k, e.audits),
          w.calls[k := e.call], w.revoked)
  }

  /** Drops the chosen leases, remembering whose they were. */
  function Force(w: World, chosen: set<string>): World {
    w.(table := L.Revoke(w.table, chosen),
       revoked := w.revoked + set r | r in chosen && r in w.table.leases :: (w.table.leases[r].Key(), r))
  }

  /** One step; a step that is not enabled changes nothing. The other client of the arbiter is assumed
      not to release under the owner name of a current lease. */
  function Next(w: World, s: Step): World {
    match s
    case Advance(k, input) =>
      if Enabled(CallOf(w, k), input) then Commit(w, k, React(SharedOf(w), CallOf(w, k), k, input)) else w
    case ForeignAcquire(r, owner) =>
      if L.Grants(w.table.arbiter, r) then w.(table := w.table.(arbiter := w.table.arbiter[r := owner])) else w
    case ForeignRelease(r, owner) =>
      if r in w.table.leases && L.Owner(w.table.leases[r].Key()) == owner then w
      else w.(table := w.table.(arbiter := L.ArbiterRelease(w.table.arbiter, r, owner)))
    case ForceSession(session) => Force(w, L.OfSession(w.table, session))
    case ForceAgent(agent) => Force(w, L.OfAgent(w.table, agent))
    case Cancel(op) => w.(cancel := C.Apply(w.cancel, op), ops := w.ops + [op])
  }

  function Run(lifecycle: bool, steps: seq<Step>): World {
    if steps == [] then Init(lifecycle) else Next(Run(lifecycle, steps[..|steps| - 1]), steps[|steps| - 1])
  }

  // ---------- Logs ----------

  function LogsOf(w: World, k: CallKey): Logs {
    Logs(Of(w.events, k), Of(w.syscalls, k), Of(w.audits, k))
  }

  lemma {:induction false} OfEntries<T>(log: seq<Entry<T>>, k: CallKey, items: seq<T>, j: CallKey)
    ensures Of(log + Entries(k, items), j) == Of(log, j) + if j == k then items else []
    ensures |Entries(k, items)| == |items|
    ensures forall i :: 0 <= i < |items| ==> Entries(k, items)[i] == Entry(k, items[i])
  {
    if items == [] {
      assert log + Entries(k, items) == log;
    } else {
      var front, last := items[..|items| - 1], items[|items| - 1];
      OfEntries(log, k, front, j);
      var before, all := log + Entries(k, front), log + Entries(k, items);
      assert all == before + [Entry(k, last)];
      assert all[..|all| - 1] == before && all[|all| - 1] == Entry(k, last);
      assert Of(all, j) == Of(before, j) + if k == j then [last] else [];
      assert front + [last] == items;
    }
  }

  /** What stands before an entry of a call, restricted to that call, is what stands before it in the
      call's own log. */
  lemma {:induction false} OfBefore<T>(log: seq<Entry<T>>, k: CallKey, i: nat)
    requires i < |log| && log[i].key == k
    ensures Of(log[..i], k) + [log[i].item] <= Of(log, k)
  {
    var front := log[..|log| - 1];
    if i < |log| - 1 {
      OfBefore(front, k, i);
      assert front[..i] == log[..i];
    }
  }

  lemma {:induction false} OfMembers<T>(log: seq<Entry<T>>, k: CallKey, x: T)
    ensures x in Of(log, k) <==> Entry(k, x) in log
  {
    if log != [] {
      OfMembers(log[..|log| - 1], k, x);
      assert forall e :: e in log <==> e in log[..|log| - 1] || e == log[|log| - 1];
    }
  }

  // ---------- Invariants ----------

  /** Every call is well formed and wrote what its state says; a key that never entered wrote nothing. */
  ghost predicate CallsInv(w: World) {
    forall k: CallKey :: match CallOf(w, k)
                     case None => LogsOf(w, k) == NO_LOGS
                     case Some(c) => CallOk(w.lifecycle, c, LogsOf(w, k))
  }

  /** The leases and the locks the calls think they have. */
  ghost predicate TableInv(w: World) {
    && L.Agrees(w.table)
    && (forall r :: r in w.table.leases ==>
          var k := w.table.leases[r].Key();
          k in w.calls && r in w.calls[k].acquired && w.table.leases[r].agent == w.calls[k].agent)
    && (forall k, r :: k in w.calls && r in w.calls[k].acquired ==> L.Holds(w.table, r, k) || (k, r) in w.revoked)
  }

  /** When each token was issued, and when each cancelling skill cancelled its session. */
  ghost predicate TokenOk(ops: seq<C.CancelOp>, k: CallKey, c: Call) {
    && (c.token.Some? ==>
          && c.issuedAt < |ops| && ops[c.issuedAt] == C.Issue(k.0, k.1)
          && c.token.value == C.IssueToken(C.ApplyAll(C.EMPTY, ops[..c.issuedAt]), k.0, k.1).1)
    && (c.cancelledAt.Some? ==>
          && c.cancelledAt.value < |ops| && ops[c.cancelledAt.value] == C.CancelSession(k.0)
          && (c.token.Some? ==> c.cancelledAt.value < c.issuedAt))
  }

  ghost predicate CancelInv(w: World) {
    && w.cancel == C.ApplyAll(C.EMPTY, w.ops)
    && (forall k :: k in w.calls ==> TokenOk(w.ops, k, w.calls[k]))
  }

  /** The audit ids count the lines. */
  ghost predicate AuditInv(w: World) {
    forall i :: 0 <= i < |w.audits| ==> w.audits[i].item.auditId == A.AuditId(i + 1)
  }

  ghost predicate Inv(w: World) {
    CallsInv(w) && TableInv(w) && CancelInv(w) && AuditInv(w)
  }

  lemma CommitCalls(w: World, k: CallKey, e: Effect)
    requires CallsInv(w) && CallOk(w.lifecycle, e.call, Written(LogsOf(w, k), e))
    ensures CallsInv(Commit(w, k, e))
  {
    var w1 := Commit(w, k, e);
    forall j: CallKey ensures match CallOf(w1, j)
                          case None => LogsOf(w1, j) == NO_LOGS
                          case Some(c) => CallOk(w1.lifecycle, c, LogsOf(w1, j))
    {
      LogsAfter(w, k, e, j);
      if j == k {
        assert CallOf(w1, j) == Some(e.call);
      } else {
        assert CallOf(w1, j) == CallOf(w, j) && LogsOf(w1, j) == LogsOf(w, j);
      }
    }
  }

  lemma LogsAfter(w: World, k: CallKey, e: Effect, j: CallKey)
    ensures LogsOf(Commit(w, k, e), j) == if j == k then Written(LogsOf(w, k), e) else LogsOf(w, j)
  {
    OfEntries(w.events, k, e.events, j);
    OfEntries(w.syscalls, k, e.syscalls, j);
    OfEntries(w.audits, k, e.audits, j);
  }

  /** A lock loop hands its call exactly the leases it adds. */
  lemma LaunchTable(w: World, k: CallKey, e: Effect, locks: seq<string>, agent: string)
    requires TableInv(w) && k in w.calls && w.calls[k].acquired == [] && w.calls[k].agent == agent == e.call.agent
    requires var (table, got, _) := L.AcquireAllIn(w.table, locks, k, agent);
             e.table == table && e.call.acquired == got
    ensures TableInv(Commit(w, k, e))
  {
    L.AcquireAllFacts(w.table, locks, k, agent);
    GrownTable(w, k, e, agent);
  }

  lemma GrownTable(w: World, k: CallKey, e: Effect, agent: string)
    requires TableInv(w) && k in w.calls && w.calls[k].acquired == [] && e.call.agent == agent && L.Agrees(e.table)
    requires forall r :: r in w.table.leases ==> r in e.table.leases && e.table.leases[r] == w.table.leases[r]
    requires forall r :: r in e.call.acquired ==> L.Holds(e.table, r, k)
    requires forall r :: r in e.table.leases && r !in w.table.leases ==>
               r in e.call.acquired && e.table.leases[r] == L.Lease(k.0, k.1, agent)
    ensures TableInv(Commit(w, k, e))
  {
    var w1 := Commit(w, k, e);
    forall r | r in w1.table.leases
      ensures var j := w1.table.leases[r].Key();
              j in w1.calls && r in w1.calls[j].acquired && w1.table.leases[r].agent == w1.calls[j].agent
    {
      if r in w.table.leases {
        var j := w.table.leases[r].Key();
        assert j in w.calls && r in w.calls[j].acquired;
      }
    }
    forall j, r | j in w1.calls && r in w1.calls[j].acquired
      ensures L.Holds(w1.table, r, j) || (j, r) in w1.revoked
    {
      if j != k {
        assert L.Holds(w.table, r, j) || (j, r) in w.revoked;
      }
    }
  }

  lemma FinishTable(w: World, k: CallKey)
    requires Inv(w) && Enabled(CallOf(w, k), Finishes)
    ensures TableInv(Next(w, Advance(k, Finishes)))
  {
    var c := w.calls[k];
    var w1 := Next(w, Advance(k, Finishes));
    L.ReleaseAllFacts(w.table, c.acquired, k);
    forall r | r in w1.table.leases
      ensures var j := w1.table.leases[r].Key();
              j in w1.calls && r in w1.calls[j].acquired && w1.table.leases[r].agent == w1.calls[j].agent
    {
      assert w1.table.leases[r] == w.table.leases[r];
    }
    forall j, r | j in w1.calls && r in w1.calls[j].acquired
      ensures L.Holds(w1.table, r, j) || (j, r) in w1.revoked
    {
      assert j != k && w1.calls[j] == w.calls[j];
    }
  }

  /** A stretch that leaves leases and locks alone keeps them in agreement. */
  lemma OtherTable(w: World, k: CallKey, e: Effect)
    requires TableInv(w) && e.table == w.table
    requires e.call.acquired == if k in w.calls then w.calls[k].acquired else []
    requires k in w.calls ==> e.call.agent == w.calls[k].agent
    ensures TableInv(Commit(w, k, e))
  {
  }

  lemma ForceTable(w: World, chosen: set<string>)
    requires Inv(w) && chosen <= w.table.leases.Keys
    ensures TableInv(Force(w, chosen))
  {
    L.RevokeFacts(w.table, chosen);
    var w1 := Force(w, chosen);
    forall k, r | k in w1.calls && r in w1.calls[k].acquired
      ensures L.Holds(w1.table, r, k) || (k, r) in w1.revoked
    {
      if L.Holds(w.table, r, k) && r in chosen {
        assert (w.table.leases[r].Key(), r) in w1.revoked;
      }
    }
  }

  lemma {:induction false} ApplyAllConcat(cs: C.CancelState, a: seq<C.CancelOp>, b: seq<C.CancelOp>)
    ensures C.ApplyAll(cs, a + b) == C.ApplyAll(C.ApplyAll(cs, a), b)
    decreases |a|
  {
    if a == [] {
      assert a + b == b;
    } else {
      assert (a + b)[1..] == a[1..] + b;
      ApplyAllConcat(C.Apply(cs, a[0]), a[1..], b);
    }
  }

  lemma TokenStays(ops: seq<C.CancelOp>, more: seq<C.CancelOp>, k: CallKey, c: Call)
    requires TokenOk(ops, k, c)
    ensures TokenOk(ops + more, k, c)
  {
    if c.token.Some? {
      assert (ops + more)[..c.issuedAt] == ops[..c.issuedAt];
    }
  }

  lemma CommitCancel(w: World, k: CallKey, e: Effect)
    requires CancelInv(w) && OpsFit(SharedOf(w), k, CallOf(w, k), e)
    ensures CancelInv(Commit(w, k, e))
  {
    var w1 := Commit(w, k, e);
    ApplyAllConcat(C.EMPTY, w.ops, e.ops);
    forall j | j in w1.calls ensures TokenOk(w1.ops, j, w1.calls[j]) {
      if j != k {
        TokenStays(w.ops, e.ops, j, w.calls[j]);
      } else {
        CommitToken(w, k, e);
      }
    }
  }

  lemma CommitToken(w: World, k: CallKey, e: Effect)
    requires CancelInv(w) && OpsFit(SharedOf(w), k, CallOf(w, k), e)
    ensures TokenOk(w.ops + e.ops, k, e.call)
  {
    assert (w.ops + e.ops)[..|w.ops|] == w.ops;
    if k in w.calls {
      TokenStays(w.ops, e.ops, k, w.calls[k]);
    }
  }

  lemma CommitAudit(w: World, k: CallKey, e: Effect)
    requires AuditInv(w)
    requires e.audits == [] || (|e.audits| == 1 && e.audits[0].auditId == A.AuditId(|w.audits| + 1))
    ensures AuditInv(Commit(w, k, e))
  {
    OfEntries(w.audits, k, e.audits, k);
  }

  lemma NothingAcquiredYet(lifecycle: bool, c: Call, logs: Logs)
    requires CallOk(lifecycle, c, logs) && c.phase == Ready
    ensures c.acquired == []
  {
  }

  lemma AdvanceLogs(w: World, k: CallKey, input: Input, e: Effect)
    requires Inv(w) && Enabled(CallOf(w, k), input) && e == React(SharedOf(w), CallOf(w, k), k, input)
    ensures CallsInv(Commit(w, k, e)) && CancelInv(Commit(w, k, e)) && AuditInv(Commit(w, k, e))
  {
    var sh, c := SharedOf(w), CallOf(w, k);
    ReactOk(sh, c, k, input, LogsOf(w, k));
    ReactFrame(sh, c, k, input);
    if input.Launches? || input.PassesGates? {
      TokenOnlyAfterLaunch(w.lifecycle, c.value, LogsOf(w, k));
    }
    ReactOps(sh, c, k, input);
    CommitCalls(w, k, e);
    CommitCancel(w, k, e);
    CommitAudit(w, k, e);
  }

  lemma StartTable(w: World, k: CallKey, timeoutValid: bool)
    requires TableInv(w) && k in w.calls && w.calls[k].skill.Some? && w.calls[k].acquired == []
    ensures TableInv(Commit(w, k, Launch(SharedOf(w), w.calls[k], k, timeoutValid)))
  {
    var c := w.calls[k];
    LaunchTable(w, k, Launch(SharedOf(w), c, k, timeoutValid), c.skill.value.locks, c.agent);
  }

  lemma AdvanceTable(w: World, k: CallKey, input: Input, e: Effect)
    requires Inv(w) && Enabled(CallOf(w, k), input) && e == React(SharedOf(w), CallOf(w, k), k, input)
    ensures TableInv(Commit(w, k, e))
  {
    var sh, c := SharedOf(w), CallOf(w, k);
    ReactFrame(sh, c, k, input);
    if input.Launches? {
      NothingAcquiredYet(w.lifecycle, c.value, LogsOf(w, k));
      StartTable(w, k, input.timeoutValid);
    } else if input.Finishes? {
      FinishTable(w, k);
    } else {
      OtherTable(w, k, e);
    }
  }

  lemma AdvanceInv(w: World, k: CallKey, input: Input)
    requires Inv(w) && Enabled(CallOf(w, k), input)
    ensures Inv(Next(w, Advance(k, input)))
  {
    var e := React(SharedOf(w), CallOf(w, k), k, input);
    AdvanceLogs(w, k, input, e);
    AdvanceTable(w, k, input, e);
  }

  lemma CancelStepInv(w: World, op: C.CancelOp)
    requires CancelInv(w)
    ensures CancelInv(Next(w, Cancel(op)))
  {
    var w1 := Next(w, Cancel(op));
    ApplyAllConcat(C.EMPTY, w.ops, [op]);
    assert [op][1..] == [] && C.ApplyAll(w.cancel, [op]) == C.Apply(w.cancel, op);
    forall j | j in w1.calls ensures TokenOk(w1.ops, j, w1.calls[j]) {
      TokenStays(w.ops, [op], j, w.calls[j]);
    }
  }

  lemma NextInv(w: World, s: Step)
    requires Inv(w)
    ensures Inv(Next(w, s))
  {
    var w1 := Next(w, s);
    match s {
      case Advance(k, input) =>
        if Enabled(CallOf(w, k), input) {
          AdvanceInv(w, k, input);
        }
      case Cancel(op) =>
        CancelStepInv(w, op);
        SameCalls(w, w1);
      case ForceSession(session) =>
        ForceTable(w, L.OfSession(w.table, session));
        SameCalls(w, w1);
      case ForceAgent(agent) =>
        ForceTable(w, L.OfAgent(w.table, agent));
        SameCalls(w, w1);
      case _ =>
        ForeignTable(w, s);
        SameCalls(w, w1);
    }
  }

  lemma ForeignTable(w: World, s: Step)
    requires TableInv(w) && (s.ForeignAcquire? || s.ForeignRelease?)
    ensures TableInv(Next(w, s))
  {
  }

  lemma SameCalls(w: World, w1: World)
    requires CallsInv(w) && w1.calls == w.calls && w1.lifecycle == w.lifecycle
    requires w1.events == w.events && w1.syscalls == w.syscalls && w1.audits == w.audits
    ensures CallsInv(w1)
  {
    forall k: CallKey ensures CallOf(w1, k) == CallOf(w, k) && LogsOf(w1, k) == LogsOf(w, k) {
    }
  }

  lemma InitInv(lifecycle: bool)
    ensures Inv(Init(lifecycle))
  {
    assert forall k: CallKey :: LogsOf(Init(lifecycle), k) == NO_LOGS;
  }

  /** The invariants hold in every state of every run. */
  lemma {:induction false} RunInv(lifecycle: bool, steps: seq<Step>)
    ensures Inv(Run(lifecycle, steps)) && Run(lifecycle, steps).lifecycle == lifecycle
  {
    if steps == [] {
      InitInv(lifecycle);
    } else {
      var w := Run(lifecycle, steps[..|steps| - 1]);
      var w1 := Next(w, steps[|steps| - 1]);
      RunInv(lifecycle, steps[..|steps| - 1]);
      NextInv(w, steps[|steps| - 1]);
      NextLifecycle(w, steps[|steps| - 1]);
      assert Run(lifecycle, steps) == w1;
    }
  }

  lemma NextLifecycle(w: World, s: Step)
    ensures Next(w, s).lifecycle == w.lifecycle
  {
  }

  // ---------- Mutual exclusion ----------

  ghost predicate NoForce(steps: seq<Step>) {
    forall s :: s in steps ==> !s.ForceSession? && !s.ForceAgent?
  }

  lemma {:induction false} NothingRevoked(lifecycle: bool, steps: seq<Step>)
    requires NoForce(steps)
    ensures Run(lifecycle, steps).revoked == {}
  {
    if steps != [] {
      NothingRevoked(lifecycle, steps[..|steps| - 1]);
    }
  }

  /** In every run without forced releases the leases are exactly the locks of the calls past their
      lock loop, and no resource belongs to two of them. */
  lemma LeasesAreDisjointUnion(lifecycle: bool, steps: seq<Step>)
    requires NoForce(steps)
    ensures var w := Run(lifecycle, steps);
            && (forall r, k :: L.Holds(w.table, r, k) <==> k in w.calls && r in w.calls[k].acquired)
            && (forall r, j, k :: j in w.calls && k in w.calls && r in w.calls[j].acquired && r in w.calls[k].acquired
                  ==> j == k)
  {
    RunInv(lifecycle, steps);
    NothingRevoked(lifecycle, steps);
  }

  /** The call is dispatching, and its skill needs the resource. */
  ghost predicate DispatchesOn(w: World, k: CallKey, r: string) {
    k in w.calls && w.calls[k].phase == Dispatching && w.calls[k].skill.Some? && r in w.calls[k].skill.value.locks
  }

  /** Two calls that are dispatching at the same time never need the same resource, unless a forced
      release took it from one of them. */
  lemma ExclusiveDispatch(lifecycle: bool, steps: seq<Step>, j: CallKey, k: CallKey, r: string)
    requires j != k && DispatchesOn(Run(lifecycle, steps), j, r) && DispatchesOn(Run(lifecycle, steps), k, r)
    ensures Taken(lifecycle, steps, j, r) || Taken(lifecycle, steps, k, r)
  {
    var w := Run(lifecycle, steps);
    RevokedIffTaken(lifecycle, steps, j, r);
    RevokedIffTaken(lifecycle, steps, k, r);
    RunInv(lifecycle, steps);
    assert CallOk(w.lifecycle, w.calls[j], LogsOf(w, j)) && CallOk(w.lifecycle, w.calls[k], LogsOf(w, k)) by {
      assert CallOf(w, j) == Some(w.calls[j]) && CallOf(w, k) == Some(w.calls[k]);
    }
  }

  /** However a call ended, it leaves no lease behind. */
  lemma NoLeaseLeft(lifecycle: bool, steps: seq<Step>, k: CallKey, r: string)
    requires var w := Run(lifecycle, steps); k in w.calls && w.calls[k].phase == Returned
    ensures !L.Holds(Run(lifecycle, steps).table, r, k)
  {
    var w := Run(lifecycle, steps);
    RunInv(lifecycle, steps);
    assert CallOk(w.lifecycle, w.calls[k], LogsOf(w, k)) by {
      assert CallOf(w, k) == Some(w.calls[k]);
    }
  }

  /** Every lease is held in the arbiter under its own owner name, whatever the other client does. */
  lemma LeasesAgreeWithArbiter(lifecycle: bool, steps: seq<Step>)
    ensures L.Agrees(Run(lifecycle, steps).table)
  {
    RunInv(lifecycle, steps);
  }

  /** The `finally` block of one call never takes the lease of another, forced releases or not. */
  lemma FinishTakesOnlyOwn(lifecycle: bool, steps: seq<Step>, k: CallKey, r: string)
    requires var w := Run(lifecycle, steps); r in w.table.leases && w.table.leases[r].Key() != k
    ensures var w, w1 := Run(lifecycle, steps), Next(Run(lifecycle, steps), Advance(k, Finishes));
            && r in w1.table.leases && w1.table.leases[r] == w.table.leases[r]
            && r in w.table.arbiter && r in w1.table.arbiter && w1.table.arbiter[r] == w.table.arbiter[r]
  {
    var w := Run(lifecycle, steps);
    assert L.Agrees(w.table) by {
      RunInv(lifecycle, steps);
    }
    if Enabled(CallOf(w, k), Finishes) {
      L.LateReleaseHarmless(w.table, w.calls[k].acquired, k, r);
    }
  }

  // ---------- Gates before the dispatch ----------

  lemma DispatchLast(gates: seq<Ev>, events: seq<Ev>, i: nat)
    requires events <= gates + [Dispatched] && Dispatched !in gates
    requires i < |events| && events[i] == Dispatched
    ensures events[..i] == gates
  {
    assert events[..i] == (gates + [Dispatched])[..i];
  }

  /** Whenever a dispatch appears in the log of events, what its call had logged before it is exactly
      the full list of gates its skill requires, in order: admission when it has an agent id, registry,
      schema, permission, access when required, safety when required. */
  lemma GatesPrecedeDispatch(lifecycle: bool, steps: seq<Step>, i: nat)
    requires i < |Run(lifecycle, steps).events| && Run(lifecycle, steps).events[i].item == Dispatched
    ensures var w := Run(lifecycle, steps);
            var k := w.events[i].key;
            && k in w.calls && w.calls[k].skill.Some?
            && Of(w.events[..i], k) == Cleared(lifecycle, w.calls[k], w.calls[k].skill.value)
  {
    var w := Run(lifecycle, steps);
    var k := w.events[i].key;
    RunInv(lifecycle, steps);
    OfBefore(w.events, k, i);
    OfMembers(w.events, k, Dispatched);
    assert w.events[i] == Entry(k, Dispatched);
    assert Dispatched in LogsOf(w, k).events;
    assert CallOf(w, k).Some?;
    EventsOfDispatched(w, k);
    var before := Of(w.events[..i], k);
    DispatchLast(Cleared(lifecycle, w.calls[k], w.calls[k].skill.value), before + [Dispatched], |before|);
  }

  lemma EventsOfDispatched(w: World, k: CallKey)
    requires CallsInv(w) && k in w.calls && Dispatched in LogsOf(w, k).events
    ensures w.calls[k].skill.Some?
    ensures LogsOf(w, k).events <= Cleared(w.lifecycle, w.calls[k], w.calls[k].skill.value) + [Dispatched]
    ensures Dispatched !in Cleared(w.lifecycle, w.calls[k], w.calls[k].skill.value)
  {
    assert CallOf(w, k) == Some(w.calls[k]) && CallOk(w.lifecycle, w.calls[k], LogsOf(w, k));
  }

  /** At the step that dispatches, the call holds a lease on every lock of its skill. */
  lemma DispatchHoldsLocks(lifecycle: bool, steps: seq<Step>, k: CallKey, timeoutValid: bool, r: string)
    requires var w := Run(lifecycle, steps);
             Enabled(CallOf(w, k), Launches(timeoutValid)) && r in w.calls[k].skill.value.locks
    requires Next(Run(lifecycle, steps), Advance(k, Launches(timeoutValid))).calls[k].phase == Dispatching
    ensures L.Holds(Next(Run(lifecycle, steps), Advance(k, Launches(timeoutValid))).table, r, k)
  {
    var w := Run(lifecycle, steps);
    RunInv(lifecycle, steps);
    L.AcquireAllFacts(w.table, w.calls[k].skill.value.locks, k, w.calls[k].agent);
  }

  // ---------- Audit and syscall records ----------

  /** What a call was entered with: the first entry under its key. */
  function Entered(steps: seq<Step>, k: CallKey): Option<Input> {
    if steps == [] then None
    else
      var last := steps[|steps| - 1];
      match Entered(steps[..|steps| - 1], k)
      case Some(input) => Some(input)
      case None => if last.Advance? && last.key == k && last.input.Enters? then Some(last.input) else None
  }

  predicate Refused(lifecycle: bool, input: Input)
    requires input.Enters?
  {
    TurnedAway(lifecycle, input.agent, input.internal, input.admission)
  }

  /** How a call began is what it was entered with: it is without skill and status exactly when admission
      turned it away, and then it has the code of that refusal. */
  ghost predicate Began(lifecycle: bool, entered: Option<Input>, c: Option<Call>) {
    match c
    case None => entered.None?
    case Some(c) =>
      && entered.Some? && entered.value.Enters?
      && (Refused(lifecycle, entered.value) <==> c.skill.None? && c.status == "")
      && (Refused(lifecycle, entered.value) ==>
            && c.phase == Returned
            && c.result == Some(SkillResult(false, RefusalCode(entered.value.agent, entered.value.admission), "")))
      && (!Refused(lifecycle, entered.value) ==> c.skill == entered.value.found && c.agent == entered.value.agent)
      && (c.skill.None? ==> c.phase == Returned)
  }

  lemma ReactBegan(sh: Shared, c: Option<Call>, k: CallKey, input: Input, entered: Option<Input>)
    requires Enabled(c, input) && Began(sh.lifecycle, entered, c)
    ensures Began(sh.lifecycle, if entered.Some? then entered else Some(input), Some(React(sh, c, k, input).call))
  {
    if c.Some? {
      ReactKeepsSkill(sh, c, k, input);
      ReactFrame(sh, c, k, input);
    }
  }

  lemma ReactKeepsSkill(sh: Shared, c: Option<Call>, k: CallKey, input: Input)
    requires Enabled(c, input) && c.Some?
    ensures React(sh, c, k, input).call.skill == c.value.skill
  {
  }

  lemma NextBegan(w: World, step: Step, k: CallKey, entered: Option<Input>)
    requires Began(w.lifecycle, entered, CallOf(w, k))
    ensures var enters := step.Advance? && step.key == k && step.input.Enters?;
            Began(w.lifecycle, if entered.None? && enters then Some(step.input) else entered, CallOf(Next(w, step), k))
  {
    if step.Advance? && step.key == k && Enabled(CallOf(w, k), step.input) {
      ReactBegan(SharedOf(w), CallOf(w, k), k, step.input, entered);
      assert CallOf(Next(w, step), k) == Some(React(SharedOf(w), CallOf(w, k), k, step.input).call);
    } else {
      assert CallOf(Next(w, step), k) == CallOf(w, k);
    }
  }

  lemma {:induction false} RunBegan(lifecycle: bool, steps: seq<Step>, k: CallKey)
    ensures Began(lifecycle, Entered(steps, k), CallOf(Run(lifecycle, steps), k))
  {
    if steps != [] {
      var n := |steps| - 1;
      RunBegan(lifecycle, steps[..n], k);
      assert Run(lifecycle, steps[..n]).lifecycle == lifecycle by {
        RunInv(lifecycle, steps[..n]);
      }
      NextBegan(Run(lifecycle, steps[..n]), steps[n], k, Entered(steps[..n], k));
    }
  }

  /** The records a call must have written when it returns a result after admission: one audit record,
      which names the result's id, error code and status, and, if its skill was found, the syscall records
      QUEUED, at most one EXECUTING, and one terminal record with the status the audit status calls for. */
  ghost predicate Recorded(c: Call, audits: seq<AuditRecord>, syscalls: seq<SyscallRecord>)
    requires c.result.Some?
  {
    var (code, id) := (c.result.value.errorCode, c.result.value.auditId);
    && audits == [AuditRecord(id, c.permission, c.safety, c.lock, c.status, code)]
    && (c.result.value.success <==> c.status == "succeeded")
    && (if c.skill.None?
        then
          && syscalls == [] && c.status == "rejected" && code == "SKILL_NOT_FOUND"
          && c.permission == "not_checked" && c.safety == "not_required" && c.lock == "not_required"
        else
          && |syscalls| == (if c.executing.Some? then 3 else 2)
          && syscalls[0] == SyscallRecord(QUEUED, "not_checked", "not_required", "not_required", "", "")
          && (c.executing.Some? ==> syscalls[1] == c.executing.value && c.executing.value.status == EXECUTING)
          && var last := syscalls[|syscalls| - 1];
             && last == SyscallRecord(last.status, c.permission, c.safety, c.lock, code, id)
             && (last.status == DONE <==> c.status == "succeeded")
             && (last.status == REJECTED <==> c.status == "rejected")
             && (last.status == TIMEOUT <==> c.status == "timeout")
             && (last.status == CANCELLED <==> c.status == "cancelled")
             && (last.status == FAILED <==> c.status == "failed"))
  }

  /** Every call that returns a result has either been turned away by the admission checks, judged by what
      it was entered with, and then has written nothing at all and returns their code, or it has written
      exactly one audit record and the syscall records that go with it, those of the skill the registry found. */
  lemma OneAuditPerCall(lifecycle: bool, steps: seq<Step>, k: CallKey)
    requires var w := Run(lifecycle, steps); k in w.calls && w.calls[k].result.Some?
    ensures var (w, entered) := (Run(lifecycle, steps), Entered(steps, k));
            && entered.Some? && entered.value.Enters?
            && var e := entered.value;
               if lifecycle && (if e.agent == "" then !e.internal else e.admission.Failure?)
               then
                 var code := if e.agent == "" then "AGENT_ID_REQUIRED" else e.admission.error;
                 LogsOf(w, k) == NO_LOGS && w.calls[k].result.value == SkillResult(false, code, "")
               else w.calls[k].skill == e.found && Recorded(w.calls[k], Of(w.audits, k), Of(w.syscalls, k))
  {
    var w := Run(lifecycle, steps);
    RunInv(lifecycle, steps);
    RunBegan(lifecycle, steps, k);
    assert CallOf(w, k) == Some(w.calls[k]);
    if w.calls[k].skill.Some? || w.calls[k].status != "" {
      OkIsRecorded(w.lifecycle, w.calls[k], LogsOf(w, k));
    }
  }

  lemma OkIsRecorded(lifecycle: bool, c: Call, logs: Logs)
    requires CallOk(lifecycle, c, logs) && c.result.Some? && (c.skill.Some? || c.status != "")
    ensures Recorded(c, logs.audits, logs.syscalls)
  {
    assert c.skill.Some? ==> logs.syscalls == [logs.syscalls[0]] + logs.syscalls[1..];
  }

  /** No two audit records of a run carry the same id. */
  lemma AuditIdsDistinct(lifecycle: bool, steps: seq<Step>, i: nat, j: nat)
    requires i < j < |Run(lifecycle, steps).audits|
    ensures var w := Run(lifecycle, steps); w.audits[i].item.auditId != w.audits[j].item.auditId
  {
    RunInv(lifecycle, steps);
    A.AuditIdInjective(i + 1, j + 1);
  }

  // ---------- Cancellation ----------

  ghost predicate TokenSet(w: World, k: CallKey)
    requires k in w.calls && w.calls[k].token.Some?
  {
    C.InState(w.cancel, w.calls[k].token.value) && C.IsSet(w.cancel, w.calls[k].token.value)
  }

  lemma {:induction false} ApplyAllWellFormed(cs: C.CancelState, ops: seq<C.CancelOp>)
    requires C.WellFormed(cs)
    ensures C.WellFormed(C.ApplyAll(cs, ops))
    decreases |ops|
  {
    if ops != [] {
      C.ApplyKeepsWellFormed(cs, ops[0]);
      ApplyAllWellFormed(C.Apply(cs, ops[0]), ops[1..]);
    }
  }

  /** In every run, the token a call was dispatched with is set exactly when a cancellation after its
      issue reached it. */
  lemma TokenSetIff(lifecycle: bool, steps: seq<Step>, k: CallKey)
    requires var w := Run(lifecycle, steps); k in w.calls && w.calls[k].token.Some?
    ensures var w := Run(lifecycle, steps);
            w.calls[k].issuedAt < |w.ops|
            && (TokenSet(w, k)
                <==> C.ReachedBySome(w.ops[w.calls[k].issuedAt + 1..], k.0, k.1, true, k.1 != ""))
  {
    var w := Run(lifecycle, steps);
    assert CancelInv(w) && TokenOk(w.ops, k, w.calls[k]) by {
      RunInv(lifecycle, steps);
    }
    TokenOfHistory(w.ops, w.calls[k].issuedAt, k.0, k.1);
    C.ReachedIff(w.ops[w.calls[k].issuedAt + 1..], k.0, k.1, true, k.1 != "");
  }

  /** The token issued at operation `at` of a history is set exactly when the rest of it reaches it. */
  lemma TokenOfHistory(ops: seq<C.CancelOp>, at: nat, s: string, c: string)
    requires at < |ops| && ops[at] == C.Issue(s, c)
    ensures var (cancel, token) := (C.ApplyAll(C.EMPTY, ops), C.IssueToken(C.ApplyAll(C.EMPTY, ops[..at]), s, c).1);
            C.InState(cancel, token) && (C.IsSet(cancel, token) <==> C.Reached(ops[at + 1..], s, c, true, c != ""))
  {
    C.ReachedIff(ops[at + 1..], s, c, true, c != "");
    ApplyAllWellFormed(C.EMPTY, ops[..at]);
    C.TokenSetIffReached(C.ApplyAll(C.EMPTY, ops[..at]), s, c, ops[at + 1..]);
    HistoryAround(ops, at, s, c);
  }

  lemma HistoryAround(ops: seq<C.CancelOp>, at: nat, s: string, c: string)
    requires at < |ops| && ops[at] == C.Issue(s, c)
    ensures C.ApplyAll(C.EMPTY, ops)
         == C.ApplyAll(C.IssueToken(C.ApplyAll(C.EMPTY, ops[..at]), s, c).0, ops[at + 1..])
  {
    var before := C.ApplyAll(C.EMPTY, ops[..at]);
    assert C.ApplyAll(before, [C.Issue(s, c)]) == C.IssueToken(before, s, c).0 by {
      assert [C.Issue(s, c)][1..] == [];
    }
    ApplyAllConcat(C.EMPTY, ops[..at], [C.Issue(s, c)]);
    ApplyAllConcat(C.EMPTY, ops[..at] + [C.Issue(s, c)], ops[at + 1..]);
    assert ops == ops[..at] + [C.Issue(s, c)] + ops[at + 1..];
  }

  /** A session cancellation later in the operations reaches a token issued earlier. */
  lemma LaterCancelReaches(ops: seq<C.CancelOp>, at: nat, cut: nat, s: string, c: string)
    requires at < cut < |ops| && ops[cut] == C.CancelSession(s) && C.ClearSession(s) !in ops[at + 1..cut]
    ensures C.Reached(ops[at + 1..], s, c, true, c != "")
  {
    var between := ops[at + 1..cut];
    assert ops[at + 1..] == (between + [C.CancelSession(s)]) + ops[cut + 1..];
    C.SessionCancelReaches(between, s, c, true, c != "");
    ReachedMore(between + [C.CancelSession(s)], ops[cut + 1..], s, c, true, c != "");
  }

  /** The skill of the call is marked `cancels_session`, and the call has passed the gates before the
      cancellation. */
  ghost predicate Cancels(w: World, k: CallKey) {
    && k in w.calls && w.calls[k].skill.Some? && w.calls[k].skill.value.cancelsSession
    && PassedGates(w.lifecycle, w.calls[k], w.calls[k].skill.value, Of(w.events, k))
  }

  /** A skill marked `cancels_session` cancels every token taken before it in its session, whatever ran in
      between, unless the session was cleared first; and never its own, which it takes only afterwards.
      `cut` is the place of its cancellation among all cancellation operations. */
  lemma CancellingSkill(lifecycle: bool, steps: seq<Step>, k: CallKey) returns (cut: nat)
    requires Cancels(Run(lifecycle, steps), k)
    ensures var w := Run(lifecycle, steps);
            && cut < |w.ops| && w.ops[cut] == C.CancelSession(k.0)
            && (w.calls[k].token.Some? ==> cut < w.calls[k].issuedAt)
            && (forall j :: j in w.calls && w.calls[j].token.Some? && j.0 == k.0 && w.calls[j].issuedAt < cut
                            && C.ClearSession(k.0) !in w.ops[w.calls[j].issuedAt + 1..cut]
                            ==> TokenSet(w, j))
  {
    var w := Run(lifecycle, steps);
    RunInv(lifecycle, steps);
    assert CallOf(w, k) == Some(w.calls[k]) && CallOk(w.lifecycle, w.calls[k], LogsOf(w, k));
    assert TokenOk(w.ops, k, w.calls[k]);
    cut := w.calls[k].cancelledAt.value;
    forall j | j in w.calls && w.calls[j].token.Some? && j.0 == k.0 && w.calls[j].issuedAt < cut
               && C.ClearSession(k.0) !in w.ops[w.calls[j].issuedAt + 1..cut]
      ensures TokenSet(w, j)
    {
      LaterCancelReaches(w.ops, w.calls[j].issuedAt, cut, j.0, j.1);
      C.ReachedIff(w.ops[w.calls[j].issuedAt + 1..], j.0, j.1, true, j.1 != "");
      TokenSetIff(lifecycle, steps, j);
    }
  }

  /** And only a skill so marked does, from inside a call. */
  lemma OnlyMarkedCancel(lifecycle: bool, steps: seq<Step>, k: CallKey)
    requires k in Run(lifecycle, steps).calls
    ensures Run(lifecycle, steps).calls[k].cancelledAt.Some? <==> Cancels(Run(lifecycle, steps), k)
  {
    var w := Run(lifecycle, steps);
    RunInv(lifecycle, steps);
    assert CallOf(w, k) == Some(w.calls[k]) && CallOk(w.lifecycle, w.calls[k], LogsOf(w, k));
  }

  lemma {:induction false} ReachedMore(
    ops: seq<C.CancelOp>, more: seq<C.CancelOp>, s: string, c: string, linked: bool, callLinked: bool)
    requires C.Reached(ops, s, c, linked, callLinked)
    ensures C.Reached(ops + more, s, c, linked, callLinked)
    decreases |ops|
  {
    assert (ops + more)[0] == ops[0] && (ops + more)[1..] == ops[1..] + more;
    if !C.Hits(ops[0], s, c, linked, callLinked) {
      ReachedMore(ops[1..], more, s, c, linked && !C.Unlinks(ops[0], s), callLinked && !C.UnlinksCall(ops[0], s, c));
    }
  }

  lemma NothingAfterLast(ops: seq<C.CancelOp>, s: string, c: string)
    requires ops != []
    ensures !C.ReachedBySome(ops[|ops| - 1 + 1..], s, c, true, c != "")
  {
  }

  /** A token just issued is not set, so a cancelling skill starts with a clean token of its own. */
  lemma FreshTokenUnset(lifecycle: bool, steps: seq<Step>, k: CallKey)
    requires var w := Run(lifecycle, steps);
             k in w.calls && w.calls[k].token.Some? && w.calls[k].issuedAt == |w.ops| - 1
    ensures !TokenSet(Run(lifecycle, steps), k)
  {
    TokenSetIff(lifecycle, steps, k);
    NothingAfterLast(Run(lifecycle, steps).ops, k.0, k.1);
  }

  // ---------- Forced releases ----------

  /** In every run, a forced release of a session frees exactly the resources leased to that session, in the
      arbiter too, and leaves every other lease and arbiter entry as it was. */
  lemma ForceSessionFrees(lifecycle: bool, steps: seq<Step>, session: string)
    ensures var (t, t1) := (Run(lifecycle, steps).table, Next(Run(lifecycle, steps), ForceSession(session)).table);
            && (forall r :: r in t1.leases <==> r in t.leases && t.leases[r].session != session)
            && (forall r :: r in t1.leases ==> t1.leases[r] == t.leases[r])
            && (forall r :: r in t1.arbiter <==> r in t.arbiter && !(r in t.leases && t.leases[r].session == session))
            && (forall r :: r in t1.arbiter ==> t1.arbiter[r] == t.arbiter[r])
  {
    LeasesAgreeWithArbiter(lifecycle, steps);
    L.SessionRevoked(Run(lifecycle, steps).table, session);
  }

  /** And a forced release of an agent those of that agent. */
  lemma ForceAgentFrees(lifecycle: bool, steps: seq<Step>, agent: string)
    ensures var (t, t1) := (Run(lifecycle, steps).table, Next(Run(lifecycle, steps), ForceAgent(agent)).table);
            && (forall r :: r in t1.leases <==> r in t.leases && t.leases[r].agent != agent)
            && (forall r :: r in t1.leases ==> t1.leases[r] == t.leases[r])
            && (forall r :: r in t1.arbiter <==> r in t.arbiter && !(r in t.leases && t.leases[r].agent == agent))
            && (forall r :: r in t1.arbiter ==> t1.arbiter[r] == t.arbiter[r])
  {
    LeasesAgreeWithArbiter(lifecycle, steps);
    L.AgentRevoked(Run(lifecycle, steps).table, agent);
  }

  /** Step `i` took the lease on `r` away from the call, by force. */
  ghost predicate TakenAt(lifecycle: bool, steps: seq<Step>, i: nat, k: CallKey, r: string)
    requires i < |steps|
  {
    var leases := Run(lifecycle, steps[..i]).table.leases;
    && r in leases && leases[r].Key() == k
    && (steps[i] == ForceSession(leases[r].session) || steps[i] == ForceAgent(leases[r].agent))
  }

  ghost predicate Taken(lifecycle: bool, steps: seq<Step>, k: CallKey, r: string) {
    exists i: nat :: i < |steps| && TakenAt(lifecycle, steps, i, k, r)
  }

  lemma TakenMore(lifecycle: bool, steps: seq<Step>, k: CallKey, r: string)
    requires steps != []
    ensures var n := |steps| - 1;
            Taken(lifecycle, steps, k, r) <==> Taken(lifecycle, steps[..n], k, r) || TakenAt(lifecycle, steps, n, k, r)
  {
    var (n, front) := (|steps| - 1, steps[..|steps| - 1]);
    forall i: nat | i < n ensures TakenAt(lifecycle, steps, i, k, r) <==> TakenAt(lifecycle, front, i, k, r) {
      assert front[..i] == steps[..i];
    }
    if i: nat :| i < n && TakenAt(lifecycle, front, i, k, r) {
      assert TakenAt(lifecycle, steps, i, k, r);
    }
  }

  /** The leases counted as taken by force are exactly those some forced release of their own session or
      agent took from their holder. */
  lemma {:induction false} RevokedIffTaken(lifecycle: bool, steps: seq<Step>, k: CallKey, r: string)
    ensures (k, r) in Run(lifecycle, steps).revoked <==> Taken(lifecycle, steps, k, r)
  {
    if steps != [] {
      var n := |steps| - 1;
      RevokedIffTaken(lifecycle, steps[..n], k, r);
      TakenMore(lifecycle, steps, k, r);
      RevokedNext(Run(lifecycle, steps[..n]), steps[n], k, r);
    }
  }

  lemma RevokedNext(w: World, s: Step, k: CallKey, r: string)
    ensures (k, r) in Next(w, s).revoked <==>
              || (k, r) in w.revoked
              || (&& r in w.table.leases && w.table.leases[r].Key() == k
                  && (s == ForceSession(w.table.leases[r].session) || s == ForceAgent(w.table.leases[r].agent)))
  {
  }
}
