/**
 One call of `SkillExecutor.execute`: what each stretch of it between two awaits does to the call
 itself and what it writes. The interleaving of many calls is in SkillExecution.
 The registry, schema validator, permission and access policies, safety backend and skill backend
 are foreign: their answers, including any exception they raise, are inputs.
 */
module SkillCalls {
  import opened Wrappers
  import L = Leases
  import C = Cancellation

  datatype Skill = Skill(locks: seq<string>, accessRequired: bool, safetyRequired: bool, cancelsSession: bool)

  // ---------- Exceptions, backend answers and statuses ----------

  /** The exceptions the handlers of `execute` tell apart. */
  datatype Raised =
    | PermissionDenied(code: string)
    | SafetyRejected(code: string)
    | ResourceLocked
    | SchemaInvalid
    | SkillTimeout
    | Unexpected

  function CodeOf(e: Raised): string {
    match e
    case PermissionDenied(code) => code
    case SafetyRejected(code) => code
    case ResourceLocked => "RESOURCE_LOCKED"
    case SchemaInvalid => "SCHEMA_INVALID"
    case SkillTimeout => "SKILL_TIMEOUT"
    case Unexpected => "UNEXPECTED_ERROR"
  }

  function StatusOf(e: Raised): string {
    match e
    case SkillTimeout => "timeout"
    case Unexpected => "failed"
    case _ => "rejected"
  }

  datatype Raw = NotAnObject | Response(success: Field, answered: Field, errorCode: string)

  /** `_result_from_backend`: success, and the error code of a failure. */
  function FromBackend(raw: Raw): (bool, string) {
    match raw
    case NotAnObject => (false, "SKILL_RESULT_INVALID")
    case Response(success, answered, code) =>
      var field := if success != Absent then success else answered;
      match field
      case Boolean(true) => (true, "")
      case Boolean(false) => (false, if code == "" then "SKILL_BACKEND_FAILED" else code)
      case _ => (false, "SKILL_RESULT_INVALID")
  }

  function StatusForError(code: string): string {
    if code in {"SKILL_CANCELLED", "HUMAN_CANCELLED"} then "cancelled"
    else if code in {"SKILL_TIMEOUT", "NAVIGATION_TIMEOUT"} then "timeout"
    else "failed"
  }

  datatype SyscallStatus = QUEUED | EXECUTING | DONE | FAILED | REJECTED | CANCELLED | TIMEOUT

  function SyscallStatusOf(status: string): SyscallStatus {
    if status == "succeeded" then DONE
    else if status == "timeout" then TIMEOUT
    else if status == "cancelled" then CANCELLED
    else if status == "rejected" then REJECTED
    else FAILED
  }

  // ---------- What a call writes ----------

  datatype SkillResult = SkillResult(success: bool, errorCode: string, auditId: string)

  datatype SyscallRecord = SyscallRecord(
    status: SyscallStatus, permission: string, safety: string, lock: string, errorCode: string, auditId: string)

  datatype AuditRecord = AuditRecord(
    auditId: string, permission: string, safety: string, lock: string, status: string, errorCode: string)

  /** The gates a call passes, and the dispatch itself. */
  datatype Ev = Admitted | Found | SchemaValid | PermissionAllowed | AccessAllowed | SafetyAllowed | Dispatched

  // ---------- The state of a call ----------

  /** Where a call stands. It is suspended in AwaitSafety and Dispatching; Settled is the way through
      the `finally` block. */
  datatype Phase = Queued | AwaitSafety | Ready | Dispatching | Settled | Returned

  datatype Call = Call(
    agent: string,
    skill: Option<Skill>,
    phase: Phase,
    permission: string,
    safety: string,
    lock: string,
    acquired: seq<string>,
    executing: Option<SyscallRecord>,
    token: Option<C.Token>,
    issuedAt: nat,
    cancelledAt: Option<nat>,
    status: string,
    result: Option<SkillResult>)

  function NewCall(agent: string, skill: Option<Skill>): Call {
    Call(agent, skill, Queued, "not_checked", "not_required", "not_required", [], None, None, 0, None, "", None)
  }

  /** The shared state a stretch of a call sees: whether agents are managed, the leases, the
      cancellation state, how many cancellation operations there were, and the next audit id. */
  datatype Shared = Shared(lifecycle: bool, table: L.Table, cancel: C.CancelState, opCount: nat, nextAuditId: string)

  /** What one stretch does: the new call state, the new leases, and what is appended to each log. */
  datatype Effect = Effect(
    call: Call,
    table: L.Table,
    events: seq<Ev>,
    syscalls: seq<SyscallRecord>,
    audits: seq<AuditRecord>,
    ops: seq<C.CancelOp>)

  function Snapshot(c: Call, status: SyscallStatus, errorCode: string, auditId: string): SyscallRecord {
    SyscallRecord(status, c.permission, c.safety, c.lock, errorCode, auditId)
  }

  /** The audit record and the last syscall record of a finished call. */
  function AuditOf(c: Call): AuditRecord
    requires c.result.Some?
  {
    AuditRecord(c.result.value.auditId, c.permission, c.safety, c.lock, c.status, c.result.value.errorCode)
  }

  function TerminalOf(c: Call): SyscallRecord
    requires c.result.Some?
  {
    Snapshot(c, SyscallStatusOf(c.status), c.result.value.errorCode, c.result.value.auditId)
  }

  /** Audits, finishes the syscall, and heads for the `finally` block. */
  function Settle(sh: Shared, c: Call, status: string, success: bool, code: string): Effect {
    var done := c.(phase := Settled, status := status, result := Some(SkillResult(success, code, sh.nextAuditId)));
    Effect(done, sh.table, [], [TerminalOf(done)], [AuditOf(done)], [])
  }

  /** What the `except` clauses note about the gate that raised. */
  function Denied(c: Call, e: Raised): Call {
    match e
    case PermissionDenied(_) => c.(permission := "denied")
    case SafetyRejected(_) => c.(safety := "denied")
    case ResourceLocked => c.(lock := "denied")
    case _ => c
  }

  /** The `except` clauses of `execute`. */
  function Handle(sh: Shared, c: Call, e: Raised): Effect {
    Settle(sh, Denied(c, e), StatusOf(e), false, CodeOf(e))
  }

  function Refused(c: Call, sh: Shared, code: string): Effect {
    Effect(c.(phase := Returned, result := Some(SkillResult(false, code, ""))), sh.table, [], [], [], [])
  }

  /** Admission and registry lookup, up to the QUEUED syscall record. */
  function Enter(
    sh: Shared, agent: string, internal: bool, admission: Result<(), string>, found: Option<Skill>): Effect {
    var c := NewCall(agent, None);
    if sh.lifecycle && agent == "" && !internal then Refused(c, sh, "AGENT_ID_REQUIRED")
    else if sh.lifecycle && agent != "" && admission.Failure? then Refused(c, sh, admission.error)
    else
      var admitted := if sh.lifecycle && agent != "" then [Admitted] else [];
      match found
      case None =>
        var e := Settle(sh, c, "rejected", false, "SKILL_NOT_FOUND");
        e.(call := e.call.(phase := Returned), events := admitted, syscalls := [])
      case Some(skill) =>
        var queued := c.(skill := found);
        Effect(queued, sh.table, admitted + [Found], [Snapshot(queued, QUEUED, "", "")], [], [])
  }

  /** The admission checks that turn a call away before anything is recorded, and the code they give. */
  predicate TurnedAway(lifecycle: bool, agent: string, internal: bool, admission: Result<(), string>) {
    lifecycle && if agent == "" then !internal else admission.Failure?
  }

  function RefusalCode(agent: string, admission: Result<(), string>): string {
    if agent == "" || admission.Success? then "AGENT_ID_REQUIRED" else admission.error
  }

  /** Schema, permission and access gates, then the session cancellation of a cancelling skill. */
  function Gates(sh: Shared, c: Call, session: string,
                 schema: Option<Raised>, permission: Option<Raised>, access: Option<Raised>): Effect
    requires c.skill.Some?
  {
    var skill := c.skill.value;
    if schema.Some? then Handle(sh, c, schema.value)
    else if permission.Some? then Handle(sh, c, permission.value).(events := [SchemaValid])
    else
      var allowed := c.(permission := "allowed");
      if skill.accessRequired && access.Some?
      then Handle(sh, allowed, access.value).(events := [SchemaValid, PermissionAllowed])
      else
        Effect(
          allowed.(phase := if skill.safetyRequired then AwaitSafety else Ready,
                   cancelledAt := if skill.cancelsSession then Some(sh.opCount) else c.cancelledAt),
          sh.table,
          [SchemaValid, PermissionAllowed] + if skill.accessRequired then [AccessAllowed] else [],
          [], [],
          if skill.cancelsSession then [C.CancelSession(session)] else [])
  }

  /** An awaited answer: the call may also be cancelled from outside while it waits. */
  datatype Awaited<T> = Answer(value: T) | Raise(error: Raised) | Killed

  function Kill(sh: Shared, c: Call): Effect {
    Effect(c.(phase := Settled), sh.table, [], [], [], [])
  }

  function SafetyReply(sh: Shared, c: Call, reply: Awaited<Result<(), string>>): Effect {
    match reply
    case Answer(Success(_)) => Effect(c.(phase := Ready, safety := "allowed"), sh.table, [SafetyAllowed], [], [], [])
    case Answer(Failure(code)) => Handle(sh, c, SafetyRejected(code))
    case Raise(e) => Handle(sh, c, e)
    case Killed => Kill(sh, c)
  }

  /** From the lock loop to the start of the dispatch. `timeoutValid` says whether the time limit given
      with the call is a number. */
  function Launch(sh: Shared, c: Call, k: CallKey, timeoutValid: bool): Effect
    requires c.skill.Some?
  {
    var (table, got, all) := L.AcquireAllIn(sh.table, c.skill.value.locks, k, c.agent);
    var locked := c.(acquired := got);
    if !all then Handle(sh, locked, ResourceLocked).(table := table)
    else
      var ready := locked.(lock := if got == [] then locked.lock else "locked");
      if !timeoutValid then Handle(sh, ready, Unexpected).(table := table)
      else
        var executing := Snapshot(ready, EXECUTING, "", "");
        Effect(
          ready.(phase := Dispatching, executing := Some(executing),
                 token := Some(C.IssueToken(sh.cancel, k.0, k.1).1), issuedAt := sh.opCount),
          table, [Dispatched], [executing], [], [C.Issue(k.0, k.1)])
  }

  function DispatchReply(sh: Shared, c: Call, reply: Awaited<Raw>): Effect {
    match reply
    case Answer(raw) =>
      var (success, code) := FromBackend(raw);
      Settle(sh, c, if success then "succeeded" else StatusForError(code), success, code)
    case Raise(e) => Handle(sh, c, e)
    case Killed => Kill(sh, c)
  }

  /** The `finally` block. */
  function Finish(sh: Shared, c: Call, k: CallKey): Effect {
    Effect(c.(phase := Returned, acquired := []), L.ReleaseAllIn(sh.table, c.acquired, k), [], [], [],
           [C.ClearCall(k.0, k.1)])
  }

  datatype Input =
    | Enters(agent: string, internal: bool, admission: Result<(), string>, found: Option<Skill>)
    | PassesGates(schema: Option<Raised>, permission: Option<Raised>, access: Option<Raised>)
    | HearsSafety(safety: Awaited<Result<(), string>>)
    | Launches(timeoutValid: bool)
    | HearsBackend(reply: Awaited<Raw>)
    | Finishes

  /** Whether the call is where the input happens; a key enters once. */
  predicate Enabled(c: Option<Call>, input: Input) {
    match input
    case Enters(_, _, _, _) => c.None?
    case PassesGates(_, _, _) => c.Some? && c.value.phase == Queued && c.value.skill.Some?
    case HearsSafety(_) => c.Some? && c.value.phase == AwaitSafety
    case Launches(_) => c.Some? && c.value.phase == Ready && c.value.skill.Some?
    case HearsBackend(_) => c.Some? && c.value.phase == Dispatching
    case Finishes => c.Some? && c.value.phase == Settled
  }

  function React(sh: Shared, c: Option<Call>, k: CallKey, input: Input): Effect
    requires Enabled(c, input)
  {
    match input
    case Enters(agent, internal, admission, found) => Enter(sh, agent, internal, admission, found)
    case PassesGates(schema, permission, access) => Gates(sh, c.value, k.0, schema, permission, access)
    case HearsSafety(reply) => SafetyReply(sh, c.value, reply)
    case Launches(timeoutValid) => Launch(sh, c.value, k, timeoutValid)
    case HearsBackend(reply) => DispatchReply(sh, c.value, reply)
    case Finishes => Finish(sh, c.value, k)
  }

  // ---------- What the records say about the end of a call ----------

  /** The backend says plainly that it succeeded; `answered` counts only where `success` is missing. */
  predicate SaysYes(raw: Raw) {
    raw.Response? && (raw.success == Boolean(true) || (raw.success == Absent && raw.answered == Boolean(true)))
  }

  /** It says plainly that it did not. */
  predicate SaysNo(raw: Raw) {
    raw.Response? && (raw.success == Boolean(false) || (raw.success == Absent && raw.answered == Boolean(false)))
  }

  /** It says neither yes nor no. */
  predicate Malformed(raw: Raw) {
    raw.Response? ==> !raw.success.Boolean? && (raw.success.Absent? ==> !raw.answered.Boolean?)
  }

  /** The terminal syscall record of an answered call is DONE exactly when the backend said yes. A plain no
      is recorded under the backend's own error code, which alone tells cancellation, timeout and failure
      apart, and anything else is an invalid result. */
  lemma AnswerOutcome(sh: Shared, c: Call, raw: Raw)
    ensures var e := DispatchReply(sh, c, Answer(raw));
            && |e.syscalls| == 1 && |e.audits| == 1
            && var (row, audit) := (e.syscalls[0], e.audits[0]);
               && (row.status == DONE <==> SaysYes(raw)) && (audit.errorCode == "" <==> SaysYes(raw))
               && (row.status == CANCELLED <==> audit.errorCode in {"SKILL_CANCELLED", "HUMAN_CANCELLED"})
               && (row.status == TIMEOUT <==> audit.errorCode in {"SKILL_TIMEOUT", "NAVIGATION_TIMEOUT"})
               && row.status in {DONE, CANCELLED, TIMEOUT, FAILED}
               && row.errorCode == audit.errorCode && row.auditId == audit.auditId == sh.nextAuditId
               && (Malformed(raw) ==> audit.errorCode == "SKILL_RESULT_INVALID")
               && (SaysNo(raw) ==>
                     audit.errorCode == if raw.errorCode == "" then "SKILL_BACKEND_FAILED" else raw.errorCode)
               && (row.status == CANCELLED <==> SaysNo(raw) && raw.errorCode in {"SKILL_CANCELLED", "HUMAN_CANCELLED"})
               && (row.status == TIMEOUT <==> SaysNo(raw) && raw.errorCode in {"SKILL_TIMEOUT", "NAVIGATION_TIMEOUT"})
  {
  }

  /** The terminal record of a call that raised is REJECTED for a refusal, TIMEOUT for a timeout and
      FAILED for anything else; at most the gate that refused is marked as denied. */
  lemma RaisedOutcome(sh: Shared, c: Call, raised: Raised)
    ensures var e := Handle(sh, c, raised);
            && |e.syscalls| == 1 && |e.audits| == 1
            && var (row, audit) := (e.syscalls[0], e.audits[0]);
               && (row.status == TIMEOUT <==> raised == SkillTimeout)
               && (row.status == FAILED <==> raised == Unexpected)
               && row.status in {REJECTED, TIMEOUT, FAILED}
               && (row.permission, row.safety, row.lock) == (audit.permission, audit.safety, audit.lock)
               && (raised.PermissionDenied? ==> row.permission == "denied")
               && (!raised.PermissionDenied? ==> row.permission == c.permission)
               && (raised.SafetyRejected? ==> row.safety == "denied")
               && (!raised.SafetyRejected? ==> row.safety == c.safety)
               && (raised.ResourceLocked? ==> row.lock == "denied") && (!raised.ResourceLocked? ==> row.lock == c.lock)
               && row.errorCode == audit.errorCode && row.auditId == audit.auditId == sh.nextAuditId
               && audit.errorCode == (match raised
                                      case PermissionDenied(code) => code
                                      case SafetyRejected(code) => code
                                      case ResourceLocked => "RESOURCE_LOCKED"
                                      case SchemaInvalid => "SCHEMA_INVALID"
                                      case SkillTimeout => "SKILL_TIMEOUT"
                                      case Unexpected => "UNEXPECTED_ERROR")
  {
  }

  // ---------- What every call keeps ----------

  /** What a call has written so far. */
  datatype Logs = Logs(events: seq<Ev>, syscalls: seq<SyscallRecord>, audits: seq<AuditRecord>)

  function Base(lifecycle: bool, c: Call): seq<Ev> {
    (if lifecycle && c.agent != "" then [Admitted] else []) + [Found]
  }

  function Gated(lifecycle: bool, c: Call, skill: Skill): seq<Ev> {
    Base(lifecycle, c) + [SchemaValid, PermissionAllowed] + if skill.accessRequired then [AccessAllowed] else []
  }

  /** Every gate in front of the dispatch of a skill, in order. */
  function Cleared(lifecycle: bool, c: Call, skill: Skill): seq<Ev> {
    Gated(lifecycle, c, skill) + if skill.safetyRequired then [SafetyAllowed] else []
  }

  ghost predicate EventsFit(lifecycle: bool, c: Call, skill: Skill, events: seq<Ev>) {
    match c.phase
    case Queued => events == Base(lifecycle, c)
    case AwaitSafety => skill.safetyRequired && events == Gated(lifecycle, c, skill)
    case Ready => events == Cleared(lifecycle, c, skill)
    case Dispatching => events == Cleared(lifecycle, c, skill) + [Dispatched]
    case _ =>
      && events <= Cleared(lifecycle, c, skill) + [Dispatched]
      && (Dispatched in events <==> c.executing.Some?)
  }

  /** The result, the audit status and the error code say the same thing. */
  ghost predicate OutcomeFits(c: Call) {
    c.result.Some? ==>
      && (c.result.value.success <==> c.status == "succeeded")
      && (c.result.value.success ==> c.result.value.errorCode == "" && c.executing.Some?)
      && c.status in {"succeeded", "failed", "rejected", "timeout", "cancelled"}
  }

  ghost predicate Active(c: Call) {
    c.phase in {Queued, AwaitSafety, Ready, Dispatching}
  }

  /** The call has passed its schema, permission and access gates. */
  ghost predicate PassedGates(lifecycle: bool, c: Call, skill: Skill, events: seq<Ev>) {
    Gated(lifecycle, c, skill) <= events
  }

  ghost predicate CallOk(lifecycle: bool, c: Call, logs: Logs) {
    match c.skill
    case None =>
      && c.phase == Returned && c.acquired == [] && c.token.None? && c.executing.None? && c.cancelledAt.None?
      && c.result.Some? && !c.result.value.success
      && c.permission == "not_checked" && c.safety == "not_required" && c.lock == "not_required"
      && logs.syscalls == [] && Dispatched !in logs.events
      && logs.audits == (if c.status == "" then [] else [AuditOf(c)])
      && (c.status == "" ==> lifecycle && logs.events == [])
      && (c.status != "" ==> c.status == "rejected" && c.result.value.errorCode == "SKILL_NOT_FOUND")
    case Some(skill) =>
      && EventsFit(lifecycle, c, skill, logs.events)
      && OutcomeFits(c)
      && (c.executing.Some? <==> c.token.Some?)
      && (c.cancelledAt.Some? <==> skill.cancelsSession && PassedGates(lifecycle, c, skill, logs.events))
      && (c.executing.Some? ==> c.executing.value.status == EXECUTING)
      && (Active(c) ==> c.result.None?)
      && (c.phase == Dispatching <==> Active(c) && c.executing.Some?)
      && (c.acquired != [] ==> c.phase in {Dispatching, Settled})
      && (c.phase == Dispatching ==> c.acquired == skill.locks)
      && |logs.syscalls| >= 1
      && logs.syscalls[0] == SyscallRecord(QUEUED, "not_checked", "not_required", "not_required", "", "")
      && logs.syscalls[1..] == (if c.executing.Some? then [c.executing.value] else [])
                               + (if c.result.Some? then [TerminalOf(c)] else [])
      && logs.audits == (if c.result.Some? then [AuditOf(c)] else [])
  }

  function Written(logs: Logs, e: Effect): Logs {
    Logs(logs.events + e.events, logs.syscalls + e.syscalls, logs.audits + e.audits)
  }

  const NO_LOGS := Logs([], [], [])

  lemma EnterOk(sh: Shared, agent: string, internal: bool, admission: Result<(), string>, found: Option<Skill>)
    ensures var e := Enter(sh, agent, internal, admission, found);
            CallOk(sh.lifecycle, e.call, Written(NO_LOGS, e))
  {
    var e := Enter(sh, agent, internal, admission, found);
    assert [] + e.events == e.events && [] + e.syscalls == e.syscalls && [] + e.audits == e.audits;
  }

  /** The end of a call that raised: nothing of it changes but the denied gate and the outcome. */
  lemma HandleFacts(sh: Shared, c: Call, e: Raised)
    ensures var eff := Handle(sh, c, e);
            && eff.call == c.(permission := eff.call.permission, safety := eff.call.safety, lock := eff.call.lock,
                              phase := Settled, status := eff.call.status, result := eff.call.result)
            && eff.call.result.Some? && OutcomeFits(eff.call)
            && eff.table == sh.table && eff.events == [] && eff.ops == []
            && eff.syscalls == [TerminalOf(eff.call)] && eff.audits == [AuditOf(eff.call)]
            && eff.audits[0].auditId == sh.nextAuditId
  {
  }

  lemma HandleOk(sh: Shared, c: Call, skill: Skill, e: Raised, more: seq<Ev>, logs: Logs, c1: Call)
    requires c.skill == Some(skill) && CallOk(sh.lifecycle, c, logs) && Active(c)
    requires c1 == c.(permission := c1.permission, safety := c1.safety, lock := c1.lock, acquired := c1.acquired)
    requires logs.events + more <= Cleared(sh.lifecycle, c, skill) + [Dispatched] && Dispatched !in more
    requires more == [] || |logs.events + more| < |Gated(sh.lifecycle, c, skill)|
    ensures var eff := Handle(sh, c1, e).(events := more);
            CallOk(sh.lifecycle, eff.call, Written(logs, eff))
  {
    var eff := Handle(sh, c1, e).(events := more);
    var all := Written(logs, eff);
    HandleFacts(sh, c1, e);
    assert all.syscalls[1..] == logs.syscalls[1..] + [TerminalOf(eff.call)];
    assert all.audits == [AuditOf(eff.call)];
    assert Dispatched in all.events <==> Dispatched in logs.events by {
      assert all.events == logs.events + more;
    }
    NotYetDispatched(sh.lifecycle, c, skill, logs.events);
    assert Gated(sh.lifecycle, eff.call, skill) == Gated(sh.lifecycle, c, skill);
    assert more == [] ==> all.events == logs.events;
  }

  lemma NotYetDispatched(lifecycle: bool, c: Call, skill: Skill, events: seq<Ev>)
    requires EventsFit(lifecycle, c, skill, events) && Active(c)
    ensures Dispatched in events <==> c.phase == Dispatching
  {
    assert Dispatched !in Cleared(lifecycle, c, skill);
  }

  lemma GatesPassedOk(sh: Shared, c: Call, session: string, access: Option<Raised>, logs: Logs)
    requires CallOk(sh.lifecycle, c, logs) && c.phase == Queued && c.skill.Some?
    requires !(c.skill.value.accessRequired && access.Some?)
    ensures var e := Gates(sh, c, session, None, None, access);
            CallOk(sh.lifecycle, e.call, Written(logs, e))
  {
    var skill := c.skill.value;
    var e := Gates(sh, c, session, None, None, access);
    assert Written(logs, e).events == Gated(sh.lifecycle, c, skill);
    assert Written(logs, e).syscalls == logs.syscalls && Written(logs, e).audits == logs.audits;
    assert Gated(sh.lifecycle, c, skill) + [] == Gated(sh.lifecycle, c, skill);
  }

  lemma GatesOk(
    sh: Shared, c: Call, session: string, schema: Option<Raised>, permission: Option<Raised>, access: Option<Raised>,
    logs: Logs)
    requires CallOk(sh.lifecycle, c, logs) && c.phase == Queued && c.skill.Some?
    ensures var e := Gates(sh, c, session, schema, permission, access);
            CallOk(sh.lifecycle, e.call, Written(logs, e))
  {
    var skill := c.skill.value;
    var e := Gates(sh, c, session, schema, permission, access);
    if schema.Some? {
      assert logs.events + [] == logs.events;
      HandleOk(sh, c, skill, schema.value, [], logs, c);
    } else if permission.Some? {
      HandleOk(sh, c, skill, permission.value, [SchemaValid], logs, c);
    } else if skill.accessRequired && access.Some? {
      HandleOk(sh, c, skill, access.value, [SchemaValid, PermissionAllowed], logs, c.(permission := "allowed"));
    } else {
      GatesPassedOk(sh, c, session, access, logs);
    }
  }

  lemma SafetyOk(sh: Shared, c: Call, reply: Awaited<Result<(), string>>, logs: Logs)
    requires CallOk(sh.lifecycle, c, logs) && c.phase == AwaitSafety
    ensures var e := SafetyReply(sh, c, reply);
            CallOk(sh.lifecycle, e.call, Written(logs, e))
  {
    var skill := c.skill.value;
    var e := SafetyReply(sh, c, reply);
    assert logs.events + [] == logs.events && logs.syscalls + [] == logs.syscalls && logs.audits + [] == logs.audits;
    NotYetDispatched(sh.lifecycle, c, skill, logs.events);
    match reply {
      case Answer(Failure(code)) => HandleOk(sh, c, skill, SafetyRejected(code), [], logs, c);
      case Raise(x) => HandleOk(sh, c, skill, x, [], logs, c);
      case _ =>
    }
  }

  lemma LaunchOk(sh: Shared, c: Call, k: CallKey, timeoutValid: bool, logs: Logs)
    requires L.Agrees(sh.table)
    requires CallOk(sh.lifecycle, c, logs) && c.phase == Ready && c.skill.Some?
    ensures var e := Launch(sh, c, k, timeoutValid);
            CallOk(sh.lifecycle, e.call, Written(logs, e))
  {
    var skill := c.skill.value;
    var e := Launch(sh, c, k, timeoutValid);
    var (table, got, all) := L.AcquireAllIn(sh.table, skill.locks, k, c.agent);
    L.AcquireAllFacts(sh.table, skill.locks, k, c.agent);
    assert logs.events + [] == logs.events && logs.syscalls + [] == logs.syscalls && logs.audits + [] == logs.audits;
    var locked := c.(acquired := got);
    if !all {
      HandleOk(sh, c, skill, ResourceLocked, [], logs, locked);
    } else if !timeoutValid {
      HandleOk(sh, c, skill, Unexpected, [], logs, locked.(lock := if got == [] then locked.lock else "locked"));
    } else {
      assert Written(logs, e).syscalls[1..] == [e.call.executing.value];
    }
  }

  lemma AnswerOk(sh: Shared, c: Call, raw: Raw, logs: Logs)
    requires CallOk(sh.lifecycle, c, logs) && c.phase == Dispatching
    ensures var e := DispatchReply(sh, c, Answer(raw));
            CallOk(sh.lifecycle, e.call, Written(logs, e))
  {
    var e := DispatchReply(sh, c, Answer(raw));
    NotYetDispatched(sh.lifecycle, c, c.skill.value, logs.events);
    assert logs.events + [] == logs.events;
    assert Written(logs, e).syscalls[1..] == logs.syscalls[1..] + [TerminalOf(e.call)];
    assert OutcomeFits(e.call);
  }

  lemma ReplyOk(sh: Shared, c: Call, reply: Awaited<Raw>, logs: Logs)
    requires CallOk(sh.lifecycle, c, logs) && c.phase == Dispatching
    ensures var e := DispatchReply(sh, c, reply);
            CallOk(sh.lifecycle, e.call, Written(logs, e))
  {
    var skill := c.skill.value;
    var e := DispatchReply(sh, c, reply);
    assert logs.events + [] == logs.events && logs.syscalls + [] == logs.syscalls && logs.audits + [] == logs.audits;
    NotYetDispatched(sh.lifecycle, c, skill, logs.events);
    match reply {
      case Raise(x) => HandleOk(sh, c, skill, x, [], logs, c);
      case Answer(raw) => AnswerOk(sh, c, raw, logs);
      case Killed =>
    }
  }

  lemma FinishOk(sh: Shared, c: Call, k: CallKey, logs: Logs)
    requires CallOk(sh.lifecycle, c, logs) && c.phase == Settled
    ensures var e := Finish(sh, c, k);
            CallOk(sh.lifecycle, e.call, Written(logs, e))
  {
    assert logs.events + [] == logs.events && logs.syscalls + [] == logs.syscalls && logs.audits + [] == logs.audits;
  }

  /** Every stretch keeps the invariant of the call that runs it. */
  lemma ReactOk(sh: Shared, c: Option<Call>, k: CallKey, input: Input, logs: Logs)
    requires Enabled(c, input) && L.Agrees(sh.table)
    requires match c case None => logs == NO_LOGS case Some(call) => CallOk(sh.lifecycle, call, logs)
    ensures var e := React(sh, c, k, input);
            CallOk(sh.lifecycle, e.call, Written(logs, e))
  {
    match input {
      case Enters(agent, internal, admission, found) => EnterOk(sh, agent, internal, admission, found);
      case PassesGates(schema, permission, access) => GatesOk(sh, c.value, k.0, schema, permission, access, logs);
      case HearsSafety(reply) => SafetyOk(sh, c.value, reply, logs);
      case Launches(timeoutValid) => LaunchOk(sh, c.value, k, timeoutValid, logs);
      case HearsBackend(reply) => ReplyOk(sh, c.value, reply, logs);
      case Finishes => FinishOk(sh, c.value, k, logs);
    }
  }

  /** What a stretch may do besides: only the lock loop and the `finally` block touch the leases, at
      most one audit record is written, under the next id, and the agent never changes. */
  lemma ReactFrame(sh: Shared, c: Option<Call>, k: CallKey, input: Input)
    requires Enabled(c, input)
    ensures var e := React(sh, c, k, input);
            && (c.Some? ==> e.call.agent == c.value.agent)
            && (e.audits == [] || (|e.audits| == 1 && e.audits[0].auditId == sh.nextAuditId))
            && (!input.Launches? && !input.Finishes? ==>
                  e.table == sh.table && e.call.acquired == if c.Some? then c.value.acquired else [])
  {
    match input {
      case Enters(agent, internal, admission, found) =>
      case PassesGates(schema, permission, access) => GatesFrame(sh, c.value, k.0, schema, permission, access);
      case HearsSafety(reply) => SafetyFrame(sh, c.value, reply);
      case Launches(timeoutValid) => LaunchFrame(sh, c.value, k, timeoutValid);
      case HearsBackend(reply) => ReplyFrame(sh, c.value, reply);
      case Finishes =>
    }
  }

  ghost predicate FrameOk(sh: Shared, c: Call, e: Effect) {
    && e.call.agent == c.agent
    && (e.audits == [] || (|e.audits| == 1 && e.audits[0].auditId == sh.nextAuditId))
  }

  lemma GatesFrame(
    sh: Shared, c: Call, session: string, schema: Option<Raised>, permission: Option<Raised>, access: Option<Raised>)
    requires c.skill.Some?
    ensures var e := Gates(sh, c, session, schema, permission, access);
            FrameOk(sh, c, e) && e.table == sh.table && e.call.acquired == c.acquired
  {
    if schema.Some? {
      HandleFacts(sh, c, schema.value);
    } else if permission.Some? {
      HandleFacts(sh, c, permission.value);
    } else if access.Some? {
      HandleFacts(sh, c.(permission := "allowed"), access.value);
    }
  }

  lemma SafetyFrame(sh: Shared, c: Call, reply: Awaited<Result<(), string>>)
    ensures var e := SafetyReply(sh, c, reply);
            FrameOk(sh, c, e) && e.table == sh.table && e.call.acquired == c.acquired
  {
    match reply {
      case Answer(Failure(code)) => HandleFacts(sh, c, SafetyRejected(code));
      case Raise(x) => HandleFacts(sh, c, x);
      case _ =>
    }
  }

  lemma LaunchFrame(sh: Shared, c: Call, k: CallKey, timeoutValid: bool)
    requires c.skill.Some?
    ensures FrameOk(sh, c, Launch(sh, c, k, timeoutValid))
  {
    var (table, got, all) := L.AcquireAllIn(sh.table, c.skill.value.locks, k, c.agent);
    var locked := c.(acquired := got);
    if !all {
      HandleFacts(sh, locked, ResourceLocked);
    } else if !timeoutValid {
      HandleFacts(sh, locked.(lock := if got == [] then locked.lock else "locked"), Unexpected);
    }
  }

  lemma ReplyFrame(sh: Shared, c: Call, reply: Awaited<Raw>)
    ensures var e := DispatchReply(sh, c, reply);
            FrameOk(sh, c, e) && e.table == sh.table && e.call.acquired == c.acquired
  {
    if reply.Raise? {
      HandleFacts(sh, c, reply.error);
    }
  }

  /** A token is issued only at launch, and a skill cancels its session only before it launches. */
  ghost predicate OpsFit(sh: Shared, k: CallKey, c: Option<Call>, e: Effect) {
    var token := if c.Some? then c.value.token else None;
    var cancelledAt := if c.Some? then c.value.cancelledAt else None;
    && (if e.call.token == token then token.Some? ==> e.call.issuedAt == c.value.issuedAt
        else
          && token.None? && e.ops == [C.Issue(k.0, k.1)] && e.call.issuedAt == sh.opCount
          && e.call.token == Some(C.IssueToken(sh.cancel, k.0, k.1).1))
    && (if e.call.cancelledAt == cancelledAt then true
        else e.call.token.None? && e.ops == [C.CancelSession(k.0)] && e.call.cancelledAt == Some(sh.opCount))
  }

  lemma ReactOps(sh: Shared, c: Option<Call>, k: CallKey, input: Input)
    requires Enabled(c, input)
    requires c.Some? && (input.Launches? || input.PassesGates?) ==> c.value.token.None?
    ensures OpsFit(sh, k, c, React(sh, c, k, input))
  {
  }

  lemma TokenOnlyAfterLaunch(lifecycle: bool, c: Call, logs: Logs)
    requires CallOk(lifecycle, c, logs) && c.phase in {Queued, AwaitSafety, Ready}
    ensures c.token.None?
  {
  }
}
