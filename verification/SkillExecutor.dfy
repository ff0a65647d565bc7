/**
 `SkillExecutor.execute` step by step, over the real lease table, cancellation events, audit logger
 and syscall record. Each method is one stretch between two awaits, and is proved to do what the
 pure step function of SkillCalls says.
 */
module SkillExecutor {
  import opened Wrappers
  import opened SkillCalls
  import L = Leases
  import C = Cancellation
  import A = Audit
  import W = SkillExecution

  /** The mutable record of one syscall. */
  class SkillSyscall {
    var status: SyscallStatus
    var permission: string
    var safety: string
    var lock: string
    var errorCode: string
    var auditId: string
    var startedAt: Option<int>
    var endedAt: Option<int>

    constructor ()
      ensures Row() == SyscallRecord(QUEUED, "not_checked", "not_required", "not_required", "", "")
      ensures startedAt == None && endedAt == None
    {
      status, permission, safety, lock := QUEUED, "not_checked", "not_required", "not_required";
      errorCode, auditId, startedAt, endedAt := "", "", None, None;
    }

    /** What is appended to the syscall store. */
    function Row(): SyscallRecord
      reads this
    {
      SyscallRecord(status, permission, safety, lock, errorCode, auditId)
    }

    /** Starting twice keeps the first start time. */
    method MarkStarted(now: int)
      modifies this
      ensures Row() == old(Row()).(status := EXECUTING) && endedAt == old(endedAt)
      ensures startedAt == if old(startedAt).Some? then old(startedAt) else Some(now)
    {
      status := EXECUTING;
      if startedAt.None? {
        startedAt := Some(now);
      }
    }

    method SetResults(permission: string, safety: string, lock: string)
      modifies this`permission, this`safety, this`lock
      ensures Row() == old(Row()).(permission := permission, safety := safety, lock := lock)
    {
      this.permission, this.safety, this.lock := permission, safety, lock;
    }

    method Finish(status: SyscallStatus, errorCode: string, auditId: string, now: int)
      modifies this
      ensures Row() == old(Row()).(status := status, errorCode := errorCode, auditId := auditId)
      ensures startedAt == old(startedAt) && endedAt == Some(now)
    {
      this.status, this.errorCode, this.auditId := status, errorCode, auditId;
      endedAt := Some(now);
    }
  }

  /** The audit log as records that carry their ids. */
  function Audited(lines: seq<A.Line<AuditRecord>>): seq<AuditRecord> {
    if lines == [] then []
    else Audited(lines[..|lines| - 1]) + [lines[|lines| - 1].record.(auditId := lines[|lines| - 1].auditId)]
  }

  lemma AuditedMore(lines: seq<A.Line<AuditRecord>>, line: A.Line<AuditRecord>)
    ensures Audited(lines + [line]) == Audited(lines) + [line.record.(auditId := line.auditId)]
  {
    assert (lines + [line])[..|lines|] == lines;
  }

  /** Everything the calls share. */
  datatype Store = Store(
    table: L.Table,
    cancel: C.CancelState,
    opCount: nat,
    counter: nat,
    events: seq<Ev>,
    syscalls: seq<SyscallRecord>,
    audits: seq<AuditRecord>)

  ghost function AuditedIn(s: Store, record: AuditRecord): Store {
    s.(counter := s.counter + 1, audits := s.audits + [record])
  }

  function SharedIn(lifecycle: bool, s: Store): Shared {
    Shared(lifecycle, s.table, s.cancel, s.opCount, A.AuditId(s.counter + 1))
  }

  function Applied(s: Store, e: Effect): Store {
    Store(e.table, C.ApplyAll(s.cancel, e.ops), s.opCount + |e.ops|, s.counter + |e.audits|,
          s.events + e.events, s.syscalls + e.syscalls, s.audits + e.audits)
  }

  lemma AppliedSettle(lifecycle: bool, s: Store, c: Call, status: string, success: bool, code: string)
    ensures var e := Settle(SharedIn(lifecycle, s), c, status, success, code);
            Applied(s, e) == s.(counter := s.counter + 1, syscalls := s.syscalls + [TerminalOf(e.call)],
                                audits := s.audits + [AuditOf(e.call)])
  {
  }

  ghost function AdmittedIn(lifecycle: bool, agent: string, s: Store): Store {
    if lifecycle && agent != "" then s.(events := s.events + [Admitted]) else s
  }

  /** An admitted call and the shared state after the registry lookup. */
  ghost function LookedUp(lifecycle: bool, c: Call, found: Option<Skill>, s: Store): (Call, Store) {
    match found
    case None =>
      var id := SharedIn(lifecycle, s).nextAuditId;
      var result := SkillResult(false, "SKILL_NOT_FOUND", id);
      var done := c.(status := "rejected", phase := Returned, result := Some(result));
      (done, s.(counter := s.counter + 1, audits := s.audits + [AuditOf(done)]))
    case Some(skill) =>
      var queued := c.(skill := Some(skill));
      (queued, s.(events := s.events + [Found], syscalls := s.syscalls + [Snapshot(queued, QUEUED, "", "")]))
  }

  lemma AppliedEnter(
    lifecycle: bool, s: Store, agent: string, internal: bool, admission: Result<(), string>, found: Option<Skill>)
    ensures var e := Enter(SharedIn(lifecycle, s), agent, internal, admission, found);
            var c := NewCall(agent, None);
            if TurnedAway(lifecycle, agent, internal, admission)
            then e.call == c.(phase := Returned, result := Some(SkillResult(false, RefusalCode(agent, admission), "")))
                 && Applied(s, e) == s
            else var (c1, s1) := LookedUp(lifecycle, c, found, AdmittedIn(lifecycle, agent, s));
                 e.call == c1 && Applied(s, e) == s1
  {
  }

  ghost function Proceeded(c: Call, opCount: nat): Call
    requires c.skill.Some?
  {
    c.(phase := if c.skill.value.safetyRequired then AwaitSafety else Ready,
       cancelledAt := if c.skill.value.cancelsSession then Some(opCount) else c.cancelledAt)
  }

  ghost function ProceededIn(skill: Skill, session: string, s: Store): Store {
    var s1 := if skill.accessRequired then s.(events := s.events + [AccessAllowed]) else s;
    if skill.cancelsSession
    then s1.(cancel := C.Apply(s.cancel, C.CancelSession(session)), opCount := s.opCount + 1) else s1
  }

  lemma ApplyOne(cs: C.CancelState, op: C.CancelOp)
    ensures C.ApplyAll(cs, [op]) == C.Apply(cs, op)
  {
    assert [op][1..] == [];
  }

  lemma AppliedDenial(lifecycle: bool, s: Store, c: Call, session: string, access: Option<Raised>)
    requires c.skill.Some? && c.skill.value.accessRequired && access.Some?
    ensures var e := Gates(SharedIn(lifecycle, s), c, session, None, None, access);
            var s1 := s.(events := s.events + [PermissionAllowed]);
            var h := Handle(SharedIn(lifecycle, s1), c.(permission := "allowed"), access.value);
            e.call == h.call && Applied(s, e.(events := e.events[1..])) == Applied(s1, h)
  {
    var e := Gates(SharedIn(lifecycle, s), c, session, None, None, access);
    assert e.events[1..] == [PermissionAllowed];
  }

  lemma AppliedGates(lifecycle: bool, s: Store, c: Call, session: string, access: Option<Raised>)
    requires c.skill.Some? && !(c.skill.value.accessRequired && access.Some?)
    ensures var e := Gates(SharedIn(lifecycle, s), c, session, None, None, access);
            var s1 := s.(events := s.events + [PermissionAllowed]);
            && e.call == Proceeded(c.(permission := "allowed"), s1.opCount)
            && Applied(s, e.(events := e.events[1..])) == ProceededIn(c.skill.value, session, s1)
  {
    var e := Gates(SharedIn(lifecycle, s), c, session, None, None, access);
    var more := if c.skill.value.accessRequired then [AccessAllowed] else [];
    assert e.events[1..] == [PermissionAllowed] + more;
    assert (s.events + [PermissionAllowed]) + more == s.events + ([PermissionAllowed] + more);
    ApplyOne(s.cancel, C.CancelSession(session));
  }

  lemma AppliedSchema(s: Store, e: Effect)
    requires |e.events| > 0 && e.events[0] == SchemaValid
    ensures Applied(s, e) == Applied(s.(events := s.events + [SchemaValid]), e.(events := e.events[1..]))
  {
    assert e.events == [SchemaValid] + e.events[1..];
    assert s.events + e.events == (s.events + [SchemaValid]) + e.events[1..];
  }

  /** The call and the leases after the lock loop. */
  ghost function Locked(c: Call, s: Store, k: CallKey): (Call, Store)
    requires c.skill.Some?
  {
    var (table, got, all) := L.AcquireAllIn(s.table, c.skill.value.locks, k, c.agent);
    (c.(acquired := got, lock := if all && got != [] then "locked" else c.lock), s.(table := table))
  }

  /** The call and the shared state once the backend is called. */
  ghost function Started(c: Call, s: Store, k: CallKey): (Call, Store) {
    var row := Snapshot(c, EXECUTING, "", "");
    (c.(phase := Dispatching, executing := Some(row),
        token := Some(C.IssueToken(s.cancel, k.0, k.1).1), issuedAt := s.opCount),
     s.(cancel := C.Apply(s.cancel, C.Issue(k.0, k.1)), opCount := s.opCount + 1,
        syscalls := s.syscalls + [row], events := s.events + [Dispatched]))
  }

  predicate AllGranted(s: Store, c: Call, k: CallKey)
    requires c.skill.Some?
  {
    L.AcquireAllIn(s.table, c.skill.value.locks, k, c.agent).2
  }

  lemma AppliedRefusal(lifecycle: bool, s: Store, c: Call, k: CallKey, timeoutValid: bool)
    requires c.skill.Some? && !AllGranted(s, c, k)
    ensures var e := Launch(SharedIn(lifecycle, s), c, k, timeoutValid);
            var (c1, s1) := Locked(c, s, k);
            var h := Handle(SharedIn(lifecycle, s1), c1, ResourceLocked);
            e.call == h.call && Applied(s, e) == Applied(s1, h)
  {
  }

  lemma AppliedBadTimeout(lifecycle: bool, s: Store, c: Call, k: CallKey)
    requires c.skill.Some? && AllGranted(s, c, k)
    ensures var e := Launch(SharedIn(lifecycle, s), c, k, false);
            var (c1, s1) := Locked(c, s, k);
            var h := Handle(SharedIn(lifecycle, s1), c1, Unexpected);
            e.call == h.call && Applied(s, e) == Applied(s1, h)
  {
  }

  lemma AppliedStart(lifecycle: bool, s: Store, c: Call, k: CallKey)
    requires c.skill.Some? && AllGranted(s, c, k)
    ensures var e := Launch(SharedIn(lifecycle, s), c, k, true);
            var (c1, s1) := Locked(c, s, k);
            e.call == Started(c1, s1, k).0 && Applied(s, e) == Started(c1, s1, k).1
  {
    var e := Launch(SharedIn(lifecycle, s), c, k, true);
    ApplyOne(s.cancel, C.Issue(k.0, k.1));
    assert e.ops == [C.Issue(k.0, k.1)] && e.audits == [];
  }

  // ---------- The machine of SkillExecution ----------

  ghost function Items<T>(log: seq<W.Entry<T>>): seq<T> {
    if log == [] then [] else Items(log[..|log| - 1]) + [log[|log| - 1].item]
  }

  lemma {:induction false} ItemsOfEntries<T>(log: seq<W.Entry<T>>, k: CallKey, items: seq<T>)
    ensures Items(log + W.Entries(k, items)) == Items(log) + items
    ensures |W.Entries(k, items)| == |items|
    decreases |items|
  {
    if items == [] {
      assert log + W.Entries(k, items) == log;
    } else {
      var n := |items| - 1;
      ItemsOfEntries(log, k, items[..n]);
      var all := log + W.Entries(k, items);
      assert all[..|all| - 1] == log + W.Entries(k, items[..n]);
      assert items == items[..n] + [items[n]];
    }
  }

  /** The store holds what the machine of interleaved calls says is shared. */
  ghost predicate Matches(s: Store, w: W.World) {
    && s.table == w.table && s.cancel == w.cancel && s.opCount == |w.ops| && s.counter == |w.audits|
    && s.events == Items(w.events) && s.syscalls == Items(w.syscalls) && s.audits == Items(w.audits)
  }

  /** What a stretch does to the store is what a step of that machine does to its world. The methods
      Enter, PassGates, HearSafety, Launch, HearBackend and Finish below are these stretches. */
  lemma StretchIsStep(s: Store, w: W.World, k: CallKey, input: Input)
    requires Matches(s, w) && Enabled(W.CallOf(w, k), input)
    ensures var e := React(SharedIn(w.lifecycle, s), W.CallOf(w, k), k, input);
            Matches(Applied(s, e), W.Next(w, W.Advance(k, input)))
  {
    var e := React(SharedIn(w.lifecycle, s), W.CallOf(w, k), k, input);
    assert SharedIn(w.lifecycle, s) == W.SharedOf(w);
    ItemsOfEntries(w.events, k, e.events);
    ItemsOfEntries(w.syscalls, k, e.syscalls);
    ItemsOfEntries(w.audits, k, e.audits);
  }

  class Executor {
    const lifecycle: bool
    const resources: L.ResourceManager
    const cancellation: C.CancellationManager
    const audit: A.AuditLogger<AuditRecord>
    var syscalls: seq<SyscallRecord>
    ghost var events: seq<Ev>
    ghost var opCount: nat

    constructor (
      lifecycle: bool, resources: L.ResourceManager, cancellation: C.CancellationManager,
      audit: A.AuditLogger<AuditRecord>)
      ensures this.lifecycle == lifecycle && this.resources == resources
      ensures this.cancellation == cancellation && this.audit == audit
      ensures syscalls == [] && events == [] && opCount == 0
    {
      this.lifecycle, this.resources, this.cancellation, this.audit := lifecycle, resources, cancellation, audit;
      syscalls, events, opCount := [], [], 0;
    }

    ghost function Now(): Store
      reads this, resources, resources.kernel, cancellation, audit
    {
      Store(resources.State(), cancellation.state, opCount, audit.counter, events, syscalls, Audited(audit.lines))
    }
  }

  /** One call of `execute`, with its local variables. */
  class Activation {
    const exec: Executor
    const session: string
    const call: string
    const agent: string
    const syscall: SkillSyscall
    var skill: Option<Skill>
    var phase: Phase
    var permission: string
    var safety: string
    var lock: string
    var acquired: seq<string>
    var event: Option<C.Handle>
    var status: string
    var result: Option<SkillResult>
    ghost var executing: Option<SyscallRecord>
    ghost var issuedAt: nat
    ghost var cancelledAt: Option<nat>

    ghost function Key(): CallKey {
      (session, call)
    }

    ghost function State(): Call
      reads this
    {
      Call(agent, skill, phase, permission, safety, lock, acquired, executing,
           if event.Some? then Some(event.value.Ids()) else None, issuedAt, cancelledAt, status, result)
    }

    /** The call is in state `c`, everything shared is in state `s`, and while the call runs its syscall
        record keeps up with the local variables. */
    ghost predicate Is(c: Call, s: Store)
      reads this, syscall, exec, exec.resources, exec.resources.kernel, exec.audit
      reads exec.cancellation, exec.cancellation.events
    {
      && exec.cancellation.Valid() && State() == c && exec.Now() == s
      && (Active(c) ==> syscall.Row() == SyscallRecord(syscall.status, permission, safety, lock, "", ""))
    }

    ghost function Sh(s: Store): Shared {
      SharedIn(exec.lifecycle, s)
    }

    ghost predicate Did(e: Effect, s: Store)
      reads this, syscall, exec, exec.resources, exec.resources.kernel, exec.audit
      reads exec.cancellation, exec.cancellation.events
    {
      Is(e.call, Applied(s, e))
    }

    constructor (exec: Executor, session: string, call: string, agent: string)
      requires exec.cancellation.Valid()
      ensures this.exec == exec && this.session == session && this.call == call && this.agent == agent
      ensures Is(NewCall(agent, None), exec.Now()) && fresh(syscall) && syscall.status == QUEUED
    {
      this.exec, this.session, this.call, this.agent := exec, session, call, agent;
      syscall := new SkillSyscall();
      skill, phase, permission, safety, lock := None, Queued, "not_checked", "not_required", "not_required";
      acquired, event, status, result := [], None, "", None;
      executing, issuedAt, cancelledAt := None, 0, None;
    }

    // The assignments of `execute`, one small method for each group.

    ghost method Note(c: Call, s: Store, e: Ev)
      requires Is(c, s)
      modifies exec`events
      ensures Is(c, s.(events := s.events + [e]))
    {
      exec.events := exec.events + [e];
    }

    method Pass(ghost c: Call, ghost s: Store, permission: string, safety: string)
      requires Is(c, s) && Active(c)
      modifies this`permission, this`safety, syscall`permission, syscall`safety, syscall`lock
      ensures Is(c.(permission := permission, safety := safety), s)
    {
      this.permission, this.safety := permission, safety;
      syscall.SetResults(permission, safety, lock);
    }

    method Leave(ghost c: Call, ghost s: Store, phase: Phase, result: Option<SkillResult>)
      requires Is(c, s) && !Active(NewCall("", None).(phase := phase))
      modifies this`phase, this`result
      ensures Is(c.(phase := phase, result := result), s)
    {
      this.phase, this.result := phase, result;
    }

    method RecordSyscall(ghost c: Call, ghost s: Store)
      requires Is(c, s) && Active(c)
      modifies exec`syscalls
      ensures Is(c, s.(syscalls := s.syscalls + [Snapshot(c, syscall.status, "", "")]))
    {
      exec.syscalls := exec.syscalls + [syscall.Row()];
    }

    /** `_audit`: one record with the outcome, under the next id. */
    method WriteAudit(ghost c: Call, ghost s: Store, status: string, code: string) returns (id: string)
      requires Is(c, s)
      modifies exec.audit
      ensures id == Sh(s).nextAuditId
      ensures Is(c, AuditedIn(s, AuditRecord(id, c.permission, c.safety, c.lock, status, code)))
    {
      ghost var lines := exec.audit.lines;
      id := exec.audit.Write(AuditRecord("", permission, safety, lock, status, code), None);
      AuditedMore(lines, A.Line(id, AuditRecord("", permission, safety, lock, status, code)));
    }

    /** Brings the syscall record up to date with the outcome and appends it. */
    method CloseSyscall(ghost c: Call, ghost s: Store, now: int)
      requires Is(c, s) && c.phase == Settled && c.result.Some?
      modifies syscall, exec`syscalls
      ensures Is(c, s.(syscalls := s.syscalls + [TerminalOf(c)]))
    {
      syscall.SetResults(permission, safety, lock);
      syscall.Finish(SyscallStatusOf(status), result.value.errorCode, result.value.auditId, now);
      exec.syscalls := exec.syscalls + [syscall.Row()];
    }

    method Deny(ghost c: Call, ghost s: Store, raised: Raised)
      requires Is(c, s) && Active(c)
      modifies this`permission, this`safety, this`lock, this`phase
      ensures Is(Denied(c, raised).(phase := Settled), s)
    {
      phase := Settled;
      match raised {
        case PermissionDenied(_) => permission := "denied";
        case SafetyRejected(_) => safety := "denied";
        case ResourceLocked => lock := "denied";
        case _ =>
      }
    }

    method Conclude(ghost c: Call, ghost s: Store, status: string, result: SkillResult)
      requires Is(c, s) && c.phase == Settled
      modifies this`status, this`result
      ensures Is(c.(status := status, result := Some(result)), s)
    {
      this.status, this.result := status, Some(result);
    }

    /** Audits, finishes the syscall record and appends it; on the way to the `finally` block. */
    method Settle(ghost c: Call, ghost s: Store, status: string, success: bool, code: string, now: int)
      requires Is(c, s) && c.phase == Settled
      modifies this`status, this`result, syscall, exec`syscalls, exec.audit
      ensures Did(SkillCalls.Settle(Sh(s), c, status, success, code), s)
    {
      var id := WriteAudit(c, s, status, code);
      ghost var s1 := AuditedIn(s, AuditRecord(id, c.permission, c.safety, c.lock, status, code));
      Conclude(c, s1, status, SkillResult(success, code, id));
      CloseSyscall(c.(status := status, result := Some(SkillResult(success, code, id))), s1, now);
      AppliedSettle(exec.lifecycle, s, c, status, success, code);
    }

    /** The `except` clauses. */
    method Handle(ghost c: Call, ghost s: Store, raised: Raised, now: int)
      requires Is(c, s) && Active(c)
      modifies this, syscall, exec`syscalls, exec.audit
      ensures Did(SkillCalls.Handle(Sh(s), c, raised), s)
    {
      Deny(c, s, raised);
      Settle(Denied(c, raised).(phase := Settled), s, StatusOf(raised), false, CodeOf(raised), now);
    }

    /** Admission, registry lookup and the QUEUED record. */
    method Enter(ghost s: Store, internal: bool, admission: Result<(), string>, found: Option<Skill>)
      requires Is(NewCall(agent, None), s) && syscall.status == QUEUED
      modifies this, exec`syscalls, exec`events, exec.audit
      ensures Did(SkillCalls.Enter(Sh(s), agent, internal, admission, found), s)
    {
      AppliedEnter(exec.lifecycle, s, agent, internal, admission, found);
      ghost var c := NewCall(agent, None);
      if exec.lifecycle && agent == "" && !internal {
        Leave(c, s, Returned, Some(SkillResult(false, "AGENT_ID_REQUIRED", "")));
      } else if exec.lifecycle && agent != "" && admission.Failure? {
        Leave(c, s, Returned, Some(SkillResult(false, admission.error, "")));
      } else {
        LookUp(c, s, found);
      }
    }

    /** The registry lookup of an admitted call. */
    method LookUp(ghost c: Call, ghost s: Store, found: Option<Skill>)
      requires Is(c, s) && c.phase == Queued && syscall.status == QUEUED
      modifies this, exec`syscalls, exec`events, exec.audit
      ensures Is(LookedUp(exec.lifecycle, c, found, AdmittedIn(exec.lifecycle, agent, s)).0,
                 LookedUp(exec.lifecycle, c, found, AdmittedIn(exec.lifecycle, agent, s)).1)
    {
      if exec.lifecycle && agent != "" {
        Note(c, s, Admitted);
      }
      if found.None? {
        NotFound(c, AdmittedIn(exec.lifecycle, agent, s));
      } else {
        Begin(c, AdmittedIn(exec.lifecycle, agent, s), found.value);
      }
    }

    method NotFound(ghost c: Call, ghost s: Store)
      requires Is(c, s) && Active(c)
      modifies this`status, this`phase, this`result, exec.audit
      ensures Is(LookedUp(exec.lifecycle, c, None, s).0, LookedUp(exec.lifecycle, c, None, s).1)
    {
      var id := WriteAudit(c, s, "rejected", "SKILL_NOT_FOUND");
      status, phase, result := "rejected", Returned, Some(SkillResult(false, "SKILL_NOT_FOUND", id));
    }

    method Begin(ghost c: Call, ghost s: Store, found: Skill)
      requires Is(c, s) && c.phase == Queued && syscall.status == QUEUED
      modifies this`skill, exec`syscalls, exec`events
      ensures var queued := c.(skill := Some(found));
              Is(queued, s.(events := s.events + [Found], syscalls := s.syscalls + [Snapshot(queued, QUEUED, "", "")]))
    {
      skill := Some(found);
      Note(c.(skill := Some(found)), s, Found);
      RecordSyscall(c.(skill := Some(found)), s.(events := s.events + [Found]));
    }

    method CancelOwnSession(ghost c: Call, ghost s: Store)
      requires Is(c, s) && Active(c)
      modifies this`cancelledAt, exec`opCount, exec.cancellation, exec.cancellation.events
      ensures Is(c.(cancelledAt := Some(s.opCount)),
                 s.(cancel := C.Apply(s.cancel, C.CancelSession(session)), opCount := s.opCount + 1))
    {
      CancelSession(c, s);
      cancelledAt := Some(exec.opCount);
      exec.opCount := exec.opCount + 1;
    }

    method CancelSession(ghost c: Call, ghost s: Store)
      requires Is(c, s)
      modifies exec.cancellation, exec.cancellation.events
      ensures Is(c, s.(cancel := C.Apply(s.cancel, C.CancelSession(session))))
    {
      exec.cancellation.CancelSession(session);
    }

    /** The schema, permission and access gates, and the cancellation of the session if the skill asks
        for it. */
    method PassGates(
      ghost c: Call, ghost s: Store, schema: Option<Raised>, permitted: Option<Raised>, access: Option<Raised>,
      now: int)
      requires Is(c, s) && c.phase == Queued && c.skill.Some?
      modifies this, syscall, exec, exec.audit, exec.cancellation, exec.cancellation.events
      ensures Did(Gates(Sh(s), c, session, schema, permitted, access), s)
    {
      if schema.Some? {
        Handle(c, s, schema.value, now);
        return;
      }
      Note(c, s, SchemaValid);
      ghost var s1 := s.(events := s.events + [SchemaValid]);
      if permitted.Some? {
        Handle(c, s1, permitted.value, now);
      } else {
        AppliedSchema(s, Gates(Sh(s), c, session, None, None, access));
        PassAccess(c, s1, access, now);
      }
    }

    /** The gates after the schema's, once the permission is given. */
    method PassAccess(ghost c: Call, ghost s: Store, access: Option<Raised>, now: int)
      requires Is(c, s) && c.phase == Queued && c.skill.Some?
      modifies this, syscall, exec, exec.audit, exec.cancellation, exec.cancellation.events
      ensures var e := Gates(Sh(s), c, session, None, None, access); Did(e.(events := e.events[1..]), s)
    {
      Allow(c, s);
      ghost var (allowed, s1) := (c.(permission := "allowed"), s.(events := s.events + [PermissionAllowed]));
      if skill.value.accessRequired && access.Some? {
        AppliedDenial(exec.lifecycle, s, c, session, access);
        Handle(allowed, s1, access.value, now);
      } else {
        AppliedGates(exec.lifecycle, s, c, session, access);
        Proceed(allowed, s1);
      }
    }

    method Allow(ghost c: Call, ghost s: Store)
      requires Is(c, s) && Active(c)
      modifies this`permission, this`safety, this`lock, this`phase, syscall, exec`events
      ensures Is(c.(permission := "allowed"), s.(events := s.events + [PermissionAllowed]))
    {
      Pass(c, s, "allowed", safety);
      Note(c.(permission := "allowed"), s, PermissionAllowed);
    }

    /** Access is granted if it was needed. A cancelling skill cancels its session here, before it waits
        for its own safety check. */
    method Proceed(ghost c: Call, ghost s: Store)
      requires Is(c, s) && c.phase == Queued && c.skill.Some?
      modifies this, syscall, exec, exec.cancellation, exec.cancellation.events
      ensures Is(Proceeded(c, s.opCount), ProceededIn(c.skill.value, session, s))
    {
      ghost var s1 := s;
      if skill.value.accessRequired {
        Note(c, s, AccessAllowed);
        s1 := s.(events := s.events + [AccessAllowed]);
      }
      phase := if skill.value.safetyRequired then AwaitSafety else Ready;
      if skill.value.cancelsSession {
        CancelOwnSession(c.(phase := phase), s1);
      }
    }

    method HearSafety(ghost c: Call, ghost s: Store, reply: Awaited<Result<(), string>>, now: int)
      requires Is(c, s) && c.phase == AwaitSafety
      modifies this, syscall, exec, exec.audit
      ensures Did(SafetyReply(Sh(s), c, reply), s)
    {
      match reply {
        case Raise(raised) => Handle(c, s, raised, now);
        case Killed => Leave(c, s, Settled, result);
        case Answer(Failure(code)) => Handle(c, s, SafetyRejected(code), now);
        case Answer(Success(_)) =>
          Pass(c, s, permission, "allowed");
          phase := Ready;
          Note(c.(safety := "allowed", phase := Ready), s, SafetyAllowed);
      }
    }

    method AcquireLocks(ghost c: Call, ghost s: Store) returns (refused: bool)
      requires Is(c, s) && c.phase == Ready && c.skill.Some?
      modifies this`acquired, this`lock, syscall`lock, exec.resources, exec.resources.kernel
      ensures refused == !AllGranted(s, c, Key()) && Is(Locked(c, s, Key()).0, Locked(c, s, Key()).1)
    {
      ghost var (table, got, _) := L.AcquireAllIn(s.table, c.skill.value.locks, Key(), c.agent);
      refused := RunLockLoop(c, s);
      if !refused && acquired != [] {
        MarkLocked(c.(acquired := got), s.(table := table));
      }
    }

    method RunLockLoop(ghost c: Call, ghost s: Store) returns (refused: bool)
      requires Is(c, s) && c.phase == Ready && c.skill.Some?
      modifies this`acquired, exec.resources, exec.resources.kernel
      ensures var (table, got, all) := L.AcquireAllIn(s.table, c.skill.value.locks, Key(), c.agent);
              refused == !all && Is(c.(acquired := got), s.(table := table))
    {
      acquired, refused := exec.resources.AcquireAll(skill.value.locks, session, call, agent);
    }

    method MarkLocked(ghost c: Call, ghost s: Store)
      requires Is(c, s) && Active(c)
      modifies this`lock, syscall`lock
      ensures Is(c.(lock := "locked"), s)
    {
      lock, syscall.lock := "locked", "locked";
    }

    method TakeToken(ghost c: Call, ghost s: Store)
      requires Is(c, s) && c.phase == Ready && c.token.None?
      modifies this`event, this`issuedAt, exec`opCount, exec.cancellation
      ensures Is(c.(token := Some(C.IssueToken(s.cancel, session, call).1), issuedAt := s.opCount),
                 s.(cancel := C.Apply(s.cancel, C.Issue(session, call)), opCount := s.opCount + 1))
    {
      var handle := exec.cancellation.EventFor(session, call);
      event := Some(handle);
      issuedAt := exec.opCount;
      exec.opCount := exec.opCount + 1;
    }

    method Start(ghost c: Call, ghost s: Store, now: int)
      requires Is(c, s) && c.phase == Ready
      modifies this`phase, this`executing, syscall, exec`syscalls
      ensures var row := Snapshot(c, EXECUTING, "", "");
              Is(c.(phase := Dispatching, executing := Some(row)), s.(syscalls := s.syscalls + [row]))
    {
      syscall.MarkStarted(now);
      RecordSyscall(c, s);
      phase, executing := Dispatching, Some(syscall.Row());
    }

    /** The lock loop, the cancellation token and the EXECUTING record. */
    method Launch(ghost c: Call, ghost s: Store, timeoutValid: bool, now: int)
      requires Is(c, s) && c.phase == Ready && c.skill.Some? && c.token.None?
      modifies this, syscall, exec, exec.audit, exec.cancellation, exec.resources, exec.resources.kernel
      ensures Did(SkillCalls.Launch(Sh(s), c, Key(), timeoutValid), s)
    {
      var refused := AcquireLocks(c, s);
      ghost var (c1, s1) := Locked(c, s, Key());
      if refused {
        AppliedRefusal(exec.lifecycle, s, c, Key(), timeoutValid);
        Handle(c1, s1, ResourceLocked, now);
      } else if !timeoutValid {
        AppliedBadTimeout(exec.lifecycle, s, c, Key());
        Handle(c1, s1, Unexpected, now);
      } else {
        AppliedStart(exec.lifecycle, s, c, Key());
        Dispatch(c1, s1, now);
      }
    }

    method Dispatch(ghost c: Call, ghost s: Store, now: int)
      requires Is(c, s) && c.phase == Ready && c.token.None?
      modifies this`phase, this`executing, this`event, this`issuedAt, syscall, exec, exec.cancellation
      ensures Is(Started(c, s, Key()).0, Started(c, s, Key()).1)
    {
      TakeToken(c, s);
      ghost var s1 := s.(cancel := C.Apply(s.cancel, C.Issue(session, call)), opCount := s.opCount + 1);
      Start(c.(token := Some(C.IssueToken(s.cancel, session, call).1), issuedAt := s.opCount), s1, now);
      Note(State(), exec.Now(), Ev.Dispatched);
    }

    method HearBackend(ghost c: Call, ghost s: Store, reply: Awaited<Raw>, now: int)
      requires Is(c, s) && c.phase == Dispatching
      modifies this, syscall, exec`syscalls, exec.audit
      ensures Did(DispatchReply(Sh(s), c, reply), s)
    {
      match reply {
        case Raise(raised) => Handle(c, s, raised, now);
        case Killed => Leave(c, s, Settled, result);
        case Answer(raw) =>
          var (success, code) := FromBackend(raw);
          Leave(c, s, Settled, result);
          Settle(c.(phase := Settled), s, if success then "succeeded" else StatusForError(code), success, code, now);
      }
    }

    /** The `finally` block. */
    method Finish(ghost c: Call, ghost s: Store)
      requires Is(c, s) && c.phase == Settled
      modifies this`acquired, this`phase, this`result, exec`opCount
      modifies exec.cancellation, exec.resources, exec.resources.kernel
      ensures Did(SkillCalls.Finish(Sh(s), c, Key()), s)
    {
      ApplyOne(s.cancel, C.ClearCall(session, call));
      ReleaseLocks(c, s);
      ghost var (c1, s1) := (c.(acquired := []), s.(table := L.ReleaseAllIn(s.table, c.acquired, Key())));
      ClearCall(c1, s1);
      ghost var s2 := s1.(cancel := C.Apply(s.cancel, C.ClearCall(session, call)), opCount := s.opCount + 1);
      Leave(c1, s2, Returned, result);
    }

    method ReleaseLocks(ghost c: Call, ghost s: Store)
      requires Is(c, s)
      modifies this`acquired, exec.resources, exec.resources.kernel
      ensures Is(c.(acquired := []), s.(table := L.ReleaseAllIn(s.table, c.acquired, Key())))
    {
      exec.resources.ReleaseAll(acquired, session, call);
      acquired := [];
    }

    method ClearCall(ghost c: Call, ghost s: Store)
      requires Is(c, s)
      modifies exec`opCount, exec.cancellation
      ensures Is(c, s.(cancel := C.Apply(s.cancel, C.ClearCall(session, call)), opCount := s.opCount + 1))
    {
      exec.cancellation.ClearCall(session, call);
      exec.opCount := exec.opCount + 1;
    }
  }
}
