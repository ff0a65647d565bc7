/**
 The dispatcher's bookkeeping: one user request drives a task record and a session record through
 planning, validation and execution, with two exception handlers. What the planner, the validator
 and the executor return or raise is an input.
 */
module Dispatcher {
  import opened Wrappers
  import opened Retention
  import opened RetentionLaws
  import opened TaskLog
  import S = Sessions

  // ---------- Inputs ----------

  /** `taskId` is empty when the plan has none; `empty` is the plan without any field. */
  datatype RoutePlan = RoutePlan(empty: bool, taskId: string, appId: string)

  /** How a collaborator ends: with a value, with a DispatchError, or with any other exception. */
  datatype Outcome<T> = Returned(value: T) | Refused(code: string, reason: string) | Crashed

  datatype Inner = NoResult | NotAnObject | Object(success: Field, errorCode: string)

  datatype AppResult =
    | NotADict
    | AppResult(result: Inner, success: Field, errorCode: string, reason: string, sessionId: string)

  /** A moment at which the log is written, and whether the log file is then over its size limit. */
  datatype Tick = Tick(now: int, oversize: bool)

  datatype Request = Request(
    taskId: string,
    freshId: string,
    sessionId: string,
    planned: Outcome<RoutePlan>,
    planUnwritable: bool,
    validated: Outcome<()>,
    showPlan: bool,
    dryRun: bool,
    executed: Outcome<AppResult>,
    summaryCrashes: bool,
    stopped: bool,
    others: seq<Step>,
    clock: seq<Tick>)

  /** What `arun` returns. */
  datatype Reply = Reply(success: bool, status: string, errorCode: string)

  datatype Raised = DispatchError(code: string, reason: string) | OtherError

  const INVALID_RESULT := "DISPATCH_APP_RESULT_INVALID"
  const UNEXPECTED := "DISPATCH_UNEXPECTED_ERROR"

  function Coerced(a: AppResult): AppResult {
    if a.NotADict? then AppResult(NoResult, Boolean(false), INVALID_RESULT, "", "") else a
  }

  /** `_result_success_check`: None when the result does not say plainly whether it succeeded. */
  function SuccessCheck(a: AppResult): Option<bool>
    requires !a.NotADict?
  {
    match a.result
    case NotAnObject => None
    case Object(success, _) => SuccessField(success)
    case NoResult => SuccessField(a.success)
  }

  function SuccessField(f: Field): Option<bool> {
    if f.Boolean? then Some(f.value) else None
  }

  /** Success is believed only when the innermost result states it as a boolean; the outer field counts
      only where there is no result at all. */
  lemma SuccessIsPlain(a: AppResult, b: bool)
    requires !a.NotADict?
    ensures SuccessCheck(a) == Some(b)
       <==> (a.result.Object? && a.result.success == Boolean(b)) || (a.result.NoResult? && a.success == Boolean(b))
  {
  }

  function ErrorCode(a: AppResult): string
    requires !a.NotADict?
  {
    if a.result.Object? && a.result.errorCode != "" then a.result.errorCode
    else if a.errorCode != "" then a.errorCode
    else "DISPATCH_APP_FAILED"
  }

  /** Built-in routes run without an agent. */
  function SelectedAgents(appId: string): seq<Agent> {
    if "builtin." <= appId || appId == "unsupported" then [] else [Agent(appId, "primary_executor", "", "planned")]
  }

  /** The id under which `create_task` files the plan. */
  function CreatedId(q: Request, p: RoutePlan): string {
    if p.taskId == "" then q.freshId else p.taskId
  }

  predicate Preview(q: Request) {
    q.showPlan || q.dryRun
  }

  /** A plan was returned and a task was created for it. */
  predicate Created(q: Request) {
    q.planned.Returned? && !q.planUnwritable
  }

  /** The created task is the one `arun` goes on to update. */
  predicate Own(q: Request) {
    q.planned.Returned? && q.planned.value.taskId != "" && q.planned.value.taskId == q.taskId
  }

  /** The app says plainly that it succeeded, or plainly that it failed: in the innermost object there is. */
  predicate SaysPlainly(a: AppResult, success: bool) {
    && !a.NotADict?
    && if a.result.NoResult? then a.success == Boolean(success)
       else a.result.Object? && a.result.success == Boolean(success)
  }

  /** Everything went well and said so plainly. */
  predicate GoesWell(q: Request) {
    && Created(q) && Own(q) && q.validated.Returned?
    && (q.showPlan || q.dryRun
        || (q.executed.Returned? && !q.summaryCrashes && SaysPlainly(q.executed.value, true)))
  }

  /** The code a request fails with when its app did not succeed: the innermost one it gave, or a default; a
      result that does not say plainly is invalid. */
  ghost predicate FailureCode(a: AppResult, code: string) {
    if !SaysPlainly(a, false) then code == "DISPATCH_APP_RESULT_INVALID"
    else
      var inner := if a.result.Object? then a.result.errorCode else "";
      && (inner != "" ==> code == inner)
      && (inner == "" && a.errorCode != "" ==> code == a.errorCode)
      && (inner == "" && a.errorCode == "" ==> code == "DISPATCH_APP_FAILED")
  }

  // ---------- What others may do to the log meanwhile ----------

  /** The log after other requests' steps; an operation that raises KeyError leaves it alone. */
  function After(log: seq<TaskRecord>, steps: seq<Step>, limits: Limits): seq<TaskRecord>
    decreases |steps|
  {
    if steps == [] then log
    else
      var before := After(log, steps[..|steps| - 1], limits);
      match Next(before, steps[|steps| - 1], limits, true)
      case None => before
      case Some(l) => l
  }

  ghost predicate Names(steps: seq<Step>, id: string) {
    exists i :: 0 <= i < |steps| && steps[i].Do? && steps[i].op.taskId == id
  }

  /** All stamps in the log lie before `now`. */
  ghost predicate Before(log: seq<TaskRecord>, now: int) {
    forall r :: r in log ==> r.updatedAt < now
  }

  ghost predicate StepsBefore(steps: seq<Step>, now: int) {
    forall i :: 0 <= i < |steps| && steps[i].Do? ==> steps[i].now < now
  }

  /** The clock ticks strictly from one write of the request to the next, and what others write while
      the executor runs is stamped before the request writes again. */
  ghost predicate ClockRuns(q: Request) {
    && |q.clock| == 5 && (forall i, j :: 0 <= i < j < 5 ==> q.clock[i].now < q.clock[j].now)
    && StepsBefore(q.others, q.clock[2].now)
  }

  lemma {:induction false} OthersKeep(log: seq<TaskRecord>, steps: seq<Step>, limits: Limits, id: string, now: int)
    requires !Names(steps, id)
    requires Before(log, now) && StepsBefore(steps, now)
    ensures Get(After(log, steps, limits), id) in {Get(log, id), None}
    ensures Before(After(log, steps, limits), now)
    decreases |steps|
  {
    if steps != [] {
      var n := |steps| - 1;
      var before := After(log, steps[..n], limits);
      OthersKeep(log, steps[..n], limits, id, now);
      match steps[n] {
        case ForceCompact =>
          CompactionKeepsOrDrops(before, limits, id);
          SelectWithinLog(before, limits);
        case Do(op, t, oversize) =>
          NewVersionFacts(before, op, t);
          var v := NewVersion(before, op, t);
          if v.Some? {
            AppendKeepsOrDrops(before, v.value, oversize, limits, id);
          }
      }
    }
  }

  // ---------- The log as the request goes on ----------

  /** The log after an operation; unchanged if that raises KeyError. */
  function Updated(log: seq<TaskRecord>, op: TaskOp, t: Tick, limits: Limits): seq<TaskRecord> {
    match NewVersion(log, op, t.now)
    case None => log
    case Some(r) => Appended(log, r, t.oversize, limits)
  }

  function AfterCreate(q: Request, log: seq<TaskRecord>, limits: Limits): seq<TaskRecord>
    requires q.planned.Returned? && |q.clock| == 5
  {
    Updated(log, Create(CreatedId(q, q.planned.value), q.sessionId), q.clock[0], limits)
  }

  /** The log when the executor is called. */
  function AfterMark(q: Request, log: seq<TaskRecord>, limits: Limits): seq<TaskRecord>
    requires q.planned.Returned? && |q.clock| == 5
  {
    var agents := SelectedAgents(q.planned.value.appId);
    if agents == [] then AfterCreate(q, log, limits)
    else Updated(AfterCreate(q, log, limits), MarkRunning(q.taskId, agents), q.clock[1], limits)
  }

  function AfterWait(q: Request, log: seq<TaskRecord>, limits: Limits): seq<TaskRecord>
    requires q.planned.Returned? && |q.clock| == 5
  {
    After(AfterMark(q, log, limits), q.others, limits)
  }

  function AfterAttach(q: Request, app: AppResult, log: seq<TaskRecord>, limits: Limits): seq<TaskRecord>
    requires q.planned.Returned? && |q.clock| == 5 && !app.NotADict?
  {
    if app.sessionId == "" || SelectedAgents(q.planned.value.appId) == [] then log
    else Updated(log, AttachOf(q.taskId, q.planned.value.appId, app.sessionId), q.clock[2], limits)
  }

  /** The log once the executor has returned or raised. */
  function AfterReply(q: Request, log: seq<TaskRecord>, limits: Limits): seq<TaskRecord>
    requires q.planned.Returned? && |q.clock| == 5
  {
    if q.executed.Returned? then AfterAttach(q, Coerced(q.executed.value), log, limits) else log
  }

  function AttachOf(taskId: string, appId: string, sessionId: string): TaskOp {
    Attach(taskId, appId, sessionId, "primary_executor")
  }

  /** The executor is called: the plan passed, was not only shown, and `mark_running` found the task. */
  predicate Awaits(q: Request, log: seq<TaskRecord>, limits: Limits)
    requires |q.clock| == 5
  {
    && Created(q) && q.validated.Returned? && !Preview(q)
    && (SelectedAgents(q.planned.value.appId) == [] || Get(AfterCreate(q, log, limits), q.taskId).Some?)
  }

  /** The log at the end of the guarded part, before the update that closes the task. */
  function LastSeen(q: Request, log: seq<TaskRecord>, limits: Limits): seq<TaskRecord>
    requires q.planned.Returned? && |q.clock| == 5
  {
    if !Awaits(q, log, limits) then AfterCreate(q, log, limits)
    else AfterReply(q, AfterWait(q, log, limits), limits)
  }

  // ---------- The outcome ----------

  /** The retention rule dropped the task before `arun` could close it. */
  predicate Dropped(q: Request, log: seq<TaskRecord>, limits: Limits)
    requires q.planned.Returned? && |q.clock| == 5
  {
    Get(LastSeen(q, log, limits), q.taskId).None?
  }

  /** A collaborator refused with a DispatchError, and no exception came before that. */
  predicate Refuses(q: Request, log: seq<TaskRecord>, limits: Limits)
    requires |q.clock| == 5
  {
    || q.planned.Refused?
    || (Created(q) && q.validated.Refused?)
    || (Awaits(q, log, limits) && q.executed.Refused?)
  }

  /** The app returned, its summary could be made, the task was still there, and it did not succeed. */
  predicate AppFails(q: Request, log: seq<TaskRecord>, limits: Limits)
    requires |q.clock| == 5
  {
    && Awaits(q, log, limits) && q.executed.Returned? && !q.summaryCrashes && Own(q) && !Dropped(q, log, limits)
    && !SaysPlainly(q.executed.value, true)
  }

  /** Which code and which last update a reply comes with: those of the collaborator that refused, those of
      the app that failed or succeeded, and the code for the unexpected in every other case. */
  ghost predicate Explains(
    q: Request, reply: Reply, log: seq<TaskRecord>, after: seq<TaskRecord>, limits: Limits)
    requires |q.clock| == 5
  {
    && (q.planned.Refused? ==> reply.errorCode == q.planned.code)
    && (Created(q) && q.validated.Refused? ==> reply.errorCode == q.validated.code)
    && (Awaits(q, log, limits) && q.executed.Refused? ==> reply.errorCode == q.executed.code)
    && (reply.success ==>
          reply.errorCode == "" && Created(q) && ClosedBy(q, reply, LastSeen(q, log, limits), after, limits))
    && (!reply.success && reply.status != "rejected" ==>
          if AppFails(q, log, limits)
          then
            && FailureCode(q.executed.value, reply.errorCode)
            && ClosedBy(q, reply, LastSeen(q, log, limits), after, limits)
          else reply.errorCode == "DISPATCH_UNEXPECTED_ERROR")
  }

  lemma ExplainsValue(q: Request, reply: Reply, log: seq<TaskRecord>, after: seq<TaskRecord>, limits: Limits)
    requires |q.clock| == 5 && Created(q) && Own(q) && !Dropped(q, log, limits) && !Refuses(q, log, limits)
    requires (reply.success <==> GoesWell(q)) && (reply.success ==> reply.errorCode == "")
    requires !reply.success ==>
               && q.validated.Returned? && !Preview(q) && q.executed.Returned? && !q.summaryCrashes
               && FailureCode(q.executed.value, reply.errorCode)
    requires ClosedBy(q, reply, LastSeen(q, log, limits), after, limits)
    ensures Explains(q, reply, log, after, limits)
  {
  }

  lemma ExplainedException(q: Request, e: Raised, log: seq<TaskRecord>, limits: Limits)
    requires |q.clock| == 5 && (e.DispatchError? <==> Refuses(q, log, limits))
    requires q.planned.Refused? ==> e == DispatchError(q.planned.code, q.planned.reason)
    requires Created(q) && Refuses(q, log, limits) ==> RefusalCode(q, e.code)
    requires (Created(q) && e.OtherError? && q.validated.Returned?
              && (Preview(q) || (q.executed.Returned? && !q.summaryCrashes))) ==> Dropped(q, log, limits)
    ensures Explained(q, e, log, limits)
  {
    forall after ensures Explains(q, HandlerReply(e), log, after, limits) {
    }
  }

  /** What the handlers are going to return is explained whatever they write. */
  ghost predicate Explained(q: Request, e: Raised, log: seq<TaskRecord>, limits: Limits)
    requires |q.clock| == 5
  {
    forall after :: Explains(q, HandlerReply(e), log, after, limits)
  }

  /** What the exception handlers return. */
  function HandlerReply(e: Raised): Reply {
    if e.DispatchError? then Reply(false, "rejected", e.code) else Reply(false, "failed", UNEXPECTED)
  }

  /** What `arun` takes for granted: new ids, a running clock, and others keeping to their own tasks. */
  ghost predicate Fresh(q: Request, log: seq<TaskRecord>) {
    && ClockRuns(q) && Before(log, q.clock[0].now)
    && Get(log, q.taskId).None? && q.freshId != q.taskId
    && (q.planned.Returned? && q.planned.value.empty ==> q.planned.value.taskId == "")
    && !Names(q.others, q.taskId)
    && (q.planned.Returned? ==> !Names(q.others, CreatedId(q, q.planned.value)))
  }

  /** No compaction of the request's own can drop the record it has just written. */
  ghost predicate Roomy(q: Request, limits: Limits) {
    (NonNegative(limits) && limits.recent >= 1) || forall t :: t in q.clock ==> !t.oversize
  }

  /** The reply, the session and the task tell the same story. Only a compaction that has no room for the
      record just written can make the task vanish with its last update. */
  ghost predicate Settled(q: Request, reply: Reply, session: S.SessionRecord, log: seq<TaskRecord>, limits: Limits) {
    && session.status == (if reply.success then S.Completed else S.Failed) && session.errorCode == reply.errorCode
    && (if reply.success then reply.status == (if q.dryRun then "dry_run" else "completed") && reply.errorCode == ""
        else reply.status in {"failed", "rejected"})
    && (Roomy(q, limits) ==> Get(log, q.taskId).Some?)
    && (Get(log, q.taskId).Some? ==>
          var task := Get(log, q.taskId).value;
          task.status == reply.status && (!reply.success ==> task.errorCode == reply.errorCode))
  }

  /** A task created under another id than the one `arun` updates is left as planned. */
  ghost predicate Orphan(q: Request, log: seq<TaskRecord>, limits: Limits)
    requires q.planned.Returned?
  {
    var id := if q.planned.value.taskId == "" then q.freshId else q.planned.value.taskId;
    var left := Get(log, id);
    && Get(log, q.taskId).None?
    && (left.Some? ==> left.value.status == "planned")
    && (q.others == [] && Roomy(q, limits) ==> left.Some?)
  }

  /** One update: the clock stays ahead, a task that is gone stays gone, and the task it writes is there in
      its new version unless a compaction had no room for it. */
  lemma UpdatedFacts(q: Request, log: seq<TaskRecord>, op: TaskOp, i: nat, limits: Limits)
    requires |q.clock| == 5 && i < 5 && Before(log, q.clock[i].now)
    ensures var after := Updated(log, op, q.clock[i], limits);
            && Before(after, q.clock[i].now + 1)
            && match NewVersion(log, op, q.clock[i].now)
               case None => after == log
               case Some(r) => Get(after, op.taskId) in {Some(r), None}
                               && (Roomy(q, limits) ==> Get(after, op.taskId) == Some(r))
  {
    var t := q.clock[i];
    NewVersionFacts(log, op, t.now);
    var v := NewVersion(log, op, t.now);
    if v.Some? {
      AppendKeepsOrDrops(log, v.value, t.oversize, limits, op.taskId);
      if NonNegative(limits) {
        NewestSurvivesIff(log, v.value, t.oversize, limits);
      }
      assert t in q.clock;
    }
  }

  lemma CreatedFacts(q: Request, log: seq<TaskRecord>, limits: Limits)
    requires Fresh(q, log) && q.planned.Returned?
    ensures var after := AfterCreate(q, log, limits);
            && Before(after, q.clock[0].now + 1)
            && (Own(q) ==> (Roomy(q, limits) ==> Get(after, q.taskId).Some?))
            && (!Own(q) ==> Orphan(q, after, limits))
  {
    var id := CreatedId(q, q.planned.value);
    UpdatedFacts(q, log, Create(id, q.sessionId), 0, limits);
    var r := NewVersion(log, Create(id, q.sessionId), q.clock[0].now).value;
    if id != q.taskId {
      AppendKeepsOrDrops(log, r, q.clock[0].oversize, limits, q.taskId);
    }
  }

  /** With room for the newest record, only others can drop the task, while the executor runs. */
  lemma OnlyOthersDrop(q: Request, log: seq<TaskRecord>, limits: Limits)
    requires Fresh(q, log) && Created(q) && Own(q) && Roomy(q, limits)
    ensures Dropped(q, log, limits)
       <==> Awaits(q, log, limits) && Get(AfterWait(q, log, limits), q.taskId).None?
    ensures Dropped(q, log, limits) ==> q.others != []
  {
    MarkKeeps(q, log, limits);
    OthersKeep(AfterMark(q, log, limits), q.others, limits, q.taskId, q.clock[2].now);
    if Awaits(q, log, limits) && q.executed.Returned? {
      AttachKeeps(q, Coerced(q.executed.value), AfterWait(q, log, limits), limits);
    }
  }

  lemma MarkKeeps(q: Request, log: seq<TaskRecord>, limits: Limits)
    requires Fresh(q, log) && Created(q) && Own(q) && Roomy(q, limits)
    ensures Get(AfterCreate(q, log, limits), q.taskId).Some?
    ensures Get(AfterMark(q, log, limits), q.taskId).Some? && Before(AfterMark(q, log, limits), q.clock[2].now)
  {
    var (created, op) := (AfterCreate(q, log, limits), MarkRunning(q.taskId, SelectedAgents(q.planned.value.appId)));
    CreatedFacts(q, log, limits);
    NewVersionFacts(created, op, q.clock[1].now);
    UpdatedFacts(q, created, op, 1, limits);
  }

  lemma AttachKeeps(q: Request, app: AppResult, log: seq<TaskRecord>, limits: Limits)
    requires q.planned.Returned? && |q.clock| == 5 && !app.NotADict? && Roomy(q, limits)
    requires Before(log, q.clock[2].now)
    ensures Get(AfterAttach(q, app, log, limits), q.taskId).None? <==> Get(log, q.taskId).None?
  {
    var op := AttachOf(q.taskId, q.planned.value.appId, app.sessionId);
    NewVersionFacts(log, op, q.clock[2].now);
    UpdatedFacts(q, log, op, 2, limits);
  }

  /** The operation that closes the task when nothing is raised. */
  function ClosingOp(q: Request, reply: Reply, reason: string): TaskOp {
    if !reply.success then Fail(q.taskId, reply.errorCode, reason)
    else Complete(q.taskId, if q.dryRun then "dry_run" else if q.showPlan then "completed" else "")
  }

  ghost predicate ClosedBy(q: Request, reply: Reply, seen: seq<TaskRecord>, log: seq<TaskRecord>, limits: Limits)
    requires |q.clock| == 5
  {
    exists reason :: log == Updated(seen, ClosingOp(q, reply, reason), q.clock[3], limits)
  }

  lemma CoercedFacts(a: AppResult, code: string)
    ensures SaysPlainly(Coerced(a), true) <==> SaysPlainly(a, true)
    ensures FailureCode(Coerced(a), code) <==> FailureCode(a, code)
  {
  }

  /** The code of the collaborator that refused. */
  ghost predicate RefusalCode(q: Request, code: string) {
    || (q.validated.Refused? && code == q.validated.code)
    || (q.validated.Returned? && q.executed.Refused? && code == q.executed.code)
  }

  /** A route to an ordinary app, not a built-in one. */
  predicate Ordinary(q: Request) {
    q.planned.Returned? && !("builtin." <= q.planned.value.appId) && q.planned.value.appId != "unsupported"
  }

  /** When the executor is called for an ordinary app, the task, if it is still there, is running with that
      app as its one agent; a built-in route leaves it planned and without agents. */
  lemma MarkedRunning(q: Request, log: seq<TaskRecord>, limits: Limits)
    requires Fresh(q, log) && Created(q) && Own(q)
    ensures var task := Get(AfterMark(q, log, limits), q.taskId);
            task.Some? ==>
              if Ordinary(q)
              then task.value.status == "running"
                   && task.value.selectedAgents == [Agent(q.planned.value.appId, "primary_executor", "", "planned")]
              else task.value.status == "planned" && task.value.selectedAgents == []
  {
    var created := AfterCreate(q, log, limits);
    CreatedFacts(q, log, limits);
    UpdatedFacts(q, log, Create(q.taskId, q.sessionId), 0, limits);
    if Ordinary(q) {
      var op := MarkRunning(q.taskId, SelectedAgents(q.planned.value.appId));
      GetIsNewest(created, q.taskId);
      OperationWrites(created, op, q.clock[1].now);
      UpdatedFacts(q, created, op, 1, limits);
    }
  }

  /** And when the app's result is closed, that agent has the app's session, if the result named one, and is
      running in it. */
  lemma AgentAttached(q: Request, log: seq<TaskRecord>, limits: Limits)
    requires Fresh(q, log) && Awaits(q, log, limits) && Own(q) && Ordinary(q) && q.executed.Returned?
    ensures var task := Get(LastSeen(q, log, limits), q.taskId);
            var session := if q.executed.value.NotADict? then "" else q.executed.value.sessionId;
            var status := if session == "" then "planned" else "running";
            task.Some? ==>
              && task.value.status == "running"
              && task.value.selectedAgents == [Agent(q.planned.value.appId, "primary_executor", session, status)]
  {
    var marked := AfterMark(q, log, limits);
    MarkedBefore(q, log, limits);
    MarkedRunning(q, log, limits);
    OthersKeep(marked, q.others, limits, q.taskId, q.clock[2].now);
    AttachedAgent(q, AfterWait(q, log, limits), limits);
  }

  lemma MarkedBefore(q: Request, log: seq<TaskRecord>, limits: Limits)
    requires Fresh(q, log) && Created(q)
    ensures Before(AfterMark(q, log, limits), q.clock[2].now)
  {
    CreatedFacts(q, log, limits);
    var op := MarkRunning(q.taskId, SelectedAgents(q.planned.value.appId));
    UpdatedFacts(q, AfterCreate(q, log, limits), op, 1, limits);
  }

  lemma AttachedAgent(q: Request, log: seq<TaskRecord>, limits: Limits)
    requires ClockRuns(q) && Ordinary(q) && q.executed.Returned? && Before(log, q.clock[2].now)
    requires Get(log, q.taskId).Some? ==>
               && Get(log, q.taskId).value.status == "running"
               && Get(log, q.taskId).value.selectedAgents
                  == [Agent(q.planned.value.appId, "primary_executor", "", "planned")]
    ensures var task := Get(AfterAttach(q, Coerced(q.executed.value), log, limits), q.taskId);
            var session := if q.executed.value.NotADict? then "" else q.executed.value.sessionId;
            var status := if session == "" then "planned" else "running";
            task.Some? ==>
              && task.value.status == "running"
              && task.value.selectedAgents == [Agent(q.planned.value.appId, "primary_executor", session, status)]
  {
    var op := AttachOf(q.taskId, q.planned.value.appId, Coerced(q.executed.value).sessionId);
    GetIsNewest(log, q.taskId);
    OperationWrites(log, op, q.clock[2].now);
    UpdatedFacts(q, log, op, 2, limits);
  }

  lemma TouchedTwice(
    m: map<string, S.SessionRecord>, m1: map<string, S.SessionRecord>, m2: map<string, S.SessionRecord>, id: string)
    requires id in m1 && m1 == m[id := m1[id]] && id in m2 && m2 == m1[id := m2[id]]
    ensures m2 == m[id := m2[id]]
  {
  }

  class DispatcherAgent {
    const taskLog: TaskLogManager
    const sessions: S.SessionManager

    constructor (taskLog: TaskLogManager, sessions: S.SessionManager)
      ensures this.taskLog == taskLog && this.sessions == sessions
    {
      this.taskLog, this.sessions := taskLog, sessions;
    }

    /** An update at tick `i`: it fails only for an id that is gone. */
    method Update(q: Request, op: TaskOp, i: nat) returns (res: Result<TaskRecord, KeyError>)
      requires taskLog.Valid() && !op.Create? && |q.clock| == 5 && i < 5 && Before(taskLog.log, q.clock[i].now)
      modifies taskLog
      ensures taskLog.Valid() && Before(taskLog.log, q.clock[i].now + 1)
      ensures taskLog.log == Updated(old(taskLog.log), op, q.clock[i], taskLog.limits)
      ensures match Get(old(taskLog.log), op.taskId)
              case None => res.Failure? && taskLog.log == old(taskLog.log)
              case Some(r) =>
                && res == Success(Revise(r, op, q.clock[i].now))
                && Get(taskLog.log, op.taskId) in {Some(res.value), None}
                && (Roomy(q, taskLog.limits) ==> Get(taskLog.log, op.taskId) == Some(res.value))
    {
      NewVersionFacts(taskLog.log, op, q.clock[i].now);
      UpdatedFacts(q, taskLog.log, op, i, taskLog.limits);
      res := taskLog.Update(op, q.clock[i].now, q.clock[i].oversize);
    }

    /** Replays what other requests do while this one waits. */
    method Await(steps: seq<Step>)
      requires taskLog.Valid()
      modifies taskLog
      ensures taskLog.Valid() && taskLog.log == After(old(taskLog.log), steps, taskLog.limits)
    {
      assert steps[..0] == [];
      for i := 0 to |steps|
        invariant taskLog.Valid()
        invariant taskLog.log == After(old(taskLog.log), steps[..i], taskLog.limits)
      {
        assert steps[..i + 1][..i] == steps[..i];
        match steps[i] {
          case ForceCompact =>
            var done := taskLog.Compact(true, false);
          case Do(op, now, oversize) =>
            if op.Create? {
              var r := taskLog.CreateTask(op.taskId, op.dispatcherSession, now, oversize);
            } else {
              var r := taskLog.Update(op, now, oversize);
            }
        }
      }
      assert steps[..|steps|] == steps;
    }

    method CreateTask(q: Request, plan: RoutePlan)
      requires taskLog.Valid() && Fresh(q, taskLog.log) && q.planned == Returned(plan)
      modifies taskLog
      ensures taskLog.Valid() && taskLog.log == AfterCreate(q, old(taskLog.log), taskLog.limits)
    {
      var id := if plan.taskId == "" then q.freshId else plan.taskId;
      var r := taskLog.CreateTask(id, q.sessionId, q.clock[0].now, q.clock[0].oversize);
    }

    /** What the guarded part promises of the state it leaves and of the value or exception it ends with,
        for the log `seen` before the closing update. */
    ghost predicate Ends(q: Request, out: Result<Reply, Raised>, seen: seq<TaskRecord>, refuses: bool)
      requires q.planned.Returned? && |q.clock| == 5
      reads this, taskLog, sessions
    {
      && q.sessionId in sessions.sessions
      && match out
         case Success(reply) =>
           && Own(q) && Get(seen, q.taskId).Some? && !refuses
           && (reply.success <==> GoesWell(q)) && reply.status != "rejected"
           && (!reply.success ==>
                 && q.validated.Returned? && !Preview(q) && q.executed.Returned? && !q.summaryCrashes
                 && FailureCode(q.executed.value, reply.errorCode))
           && ClosedBy(q, reply, seen, taskLog.log, taskLog.limits)
           && Settled(q, reply, sessions.sessions[q.sessionId], taskLog.log, taskLog.limits)
         case Failure(e) =>
           && (e.OtherError? && q.validated.Returned? && (Preview(q) || (q.executed.Returned? && !q.summaryCrashes))
               ==> Get(seen, q.taskId).None?)
           && (e.DispatchError? <==> refuses) && (refuses ==> RefusalCode(q, e.code))
           && taskLog.log == seen && Before(taskLog.log, q.clock[4].now)
           && (!Own(q) ==> Orphan(q, taskLog.log, taskLog.limits))
    }

    /** What becomes of the value the executor returned. */
    method Conclude(q: Request, app: AppResult) returns (out: Result<Reply, Raised>)
      requires taskLog.Valid() && !app.NotADict? && q.planned.Returned? && !Preview(q)
      requires ClockRuns(q) && Before(taskLog.log, q.clock[2].now) && q.sessionId in sessions.sessions
      modifies taskLog, sessions
      ensures taskLog.Valid() && q.sessionId in sessions.sessions
      ensures sessions.sessions == old(sessions.sessions)[q.sessionId := sessions.sessions[q.sessionId]]
      ensures var seen := AfterAttach(q, app, old(taskLog.log), taskLog.limits);
              match out
              case Success(reply) =>
                && Get(seen, q.taskId).Some? && !q.summaryCrashes
                && (reply.success <==> SaysPlainly(app, true)) && reply.status != "rejected"
                && (!reply.success ==> FailureCode(app, reply.errorCode))
                && taskLog.log == Updated(seen, ClosingOp(q, reply, app.reason), q.clock[3], taskLog.limits)
                && Settled(q, reply, sessions.sessions[q.sessionId], taskLog.log, taskLog.limits)
              case Failure(e) =>
                && e == OtherError && (q.summaryCrashes || Get(seen, q.taskId).None?)
                && taskLog.log == seen && Before(seen, q.clock[4].now)
      ensures Get(old(taskLog.log), q.taskId).None? ==> out.Failure? && taskLog.log == old(taskLog.log)
    {
      if app.sessionId != "" && SelectedAgents(q.planned.value.appId) != [] {
        var attached := Update(q, AttachOf(q.taskId, q.planned.value.appId, app.sessionId), 2);
        if attached.Failure? {
          return Failure(OtherError);
        }
      }
      if q.summaryCrashes {
        return Failure(OtherError);
      }
      out := Close(q, app);
    }

    /** The update that closes the task, and the session with it. */
    method Close(q: Request, app: AppResult) returns (out: Result<Reply, Raised>)
      requires taskLog.Valid() && !app.NotADict? && q.planned.Returned? && !Preview(q)
      requires ClockRuns(q) && Before(taskLog.log, q.clock[3].now) && q.sessionId in sessions.sessions
      modifies taskLog, sessions
      ensures taskLog.Valid() && q.sessionId in sessions.sessions
      ensures sessions.sessions == old(sessions.sessions)[q.sessionId := sessions.sessions[q.sessionId]]
      ensures match Get(old(taskLog.log), q.taskId)
              case None => out == Failure(OtherError) && taskLog.log == old(taskLog.log)
              case Some(_) =>
                && out.Success? && (out.value.success <==> SaysPlainly(app, true))
                && out.value.status != "rejected"
                && (!out.value.success ==> FailureCode(app, out.value.errorCode))
                && taskLog.log
                   == Updated(old(taskLog.log), ClosingOp(q, out.value, app.reason), q.clock[3], taskLog.limits)
                && Settled(q, out.value, sessions.sessions[q.sessionId], taskLog.log, taskLog.limits)
    {
      var check := SuccessCheck(app);
      if check == Some(true) {
        var done := Update(q, Complete(q.taskId, ""), 3);
        if done.Failure? {
          return Failure(OtherError);
        }
        var session := sessions.CompleteSession(q.sessionId, q.clock[3].now);
        return Success(Reply(true, "completed", ""));
      }
      var code := if check.None? then INVALID_RESULT else ErrorCode(app);
      var failed := Update(q, Fail(q.taskId, code, app.reason), 3);
      if failed.Failure? {
        return Failure(OtherError);
      }
      var session := sessions.FailSession(q.sessionId, code, q.clock[3].now);
      return Success(Reply(false, "failed", code));
    }

    /** The wait for the executor: others work on the log, and an operator may stop the session. */
    method AwaitExecutor(q: Request)
      requires taskLog.Valid() && q.planned.Returned?
      requires ClockRuns(q) && Before(taskLog.log, q.clock[2].now) && q.sessionId in sessions.sessions
      requires !Names(q.others, q.taskId) && !Names(q.others, CreatedId(q, q.planned.value))
      modifies taskLog, sessions
      ensures taskLog.Valid() && Before(taskLog.log, q.clock[2].now) && q.sessionId in sessions.sessions
      ensures taskLog.log == After(old(taskLog.log), q.others, taskLog.limits)
      ensures Orphan(q, old(taskLog.log), taskLog.limits) ==> Orphan(q, taskLog.log, taskLog.limits)
      ensures sessions.sessions == old(sessions.sessions)[q.sessionId := sessions.sessions[q.sessionId]]
    {
      OthersKeep(taskLog.log, q.others, taskLog.limits, q.taskId, q.clock[2].now);
      OthersKeep(taskLog.log, q.others, taskLog.limits, CreatedId(q, q.planned.value), q.clock[2].now);
      Await(q.others);
      if q.stopped {
        var session := sessions.StopSession(q.sessionId, q.clock[2].now);
      }
    }

    /** The rest of the guarded part once the executor is called. */
    method Finish(q: Request) returns (out: Result<Reply, Raised>)
      requires taskLog.Valid() && Created(q) && q.validated.Returned? && !Preview(q)
      requires ClockRuns(q) && Before(taskLog.log, q.clock[2].now) && q.sessionId in sessions.sessions
      requires !Names(q.others, q.taskId) && !Names(q.others, CreatedId(q, q.planned.value))
      requires !Own(q) ==> Orphan(q, taskLog.log, taskLog.limits)
      modifies taskLog, sessions
      ensures taskLog.Valid()
      ensures var waited := After(old(taskLog.log), q.others, taskLog.limits);
              Ends(q, out, AfterReply(q, waited, taskLog.limits), q.executed.Refused?)
      ensures sessions.sessions == old(sessions.sessions)[q.sessionId := sessions.sessions[q.sessionId]]
    {
      AwaitExecutor(q);
      if !q.executed.Returned? {
        return Failure(RaisedBy(q.executed));
      }
      out := Respond(q);
    }

    /** The executor has returned a value. */
    method Respond(q: Request) returns (out: Result<Reply, Raised>)
      requires taskLog.Valid() && Created(q) && q.validated.Returned? && !Preview(q) && q.executed.Returned?
      requires ClockRuns(q) && Before(taskLog.log, q.clock[2].now) && q.sessionId in sessions.sessions
      requires !Own(q) ==> Orphan(q, taskLog.log, taskLog.limits)
      modifies taskLog, sessions
      ensures taskLog.Valid()
      ensures Ends(q, out, AfterAttach(q, Coerced(q.executed.value), old(taskLog.log), taskLog.limits), false)
      ensures sessions.sessions == old(sessions.sessions)[q.sessionId := sessions.sessions[q.sessionId]]
    {
      var app := Coerced(q.executed.value);
      ghost var seen := AfterAttach(q, app, taskLog.log, taskLog.limits);
      assert !Own(q) ==> Get(taskLog.log, q.taskId).None?;
      out := Conclude(q, app);
      CoercedFacts(q.executed.value, if out.Success? then out.value.errorCode else "");
      if out.Success? {
        assert Own(q);
        assert ClosedBy(q, out.value, seen, taskLog.log, taskLog.limits);
      }
    }

    /** `--show-plan` and `--dry-run`: the task is closed without an executor. */
    method ShowPlan(q: Request) returns (out: Result<Reply, Raised>)
      requires taskLog.Valid() && |q.clock| == 5 && Preview(q)
      requires Before(taskLog.log, q.clock[3].now) && q.sessionId in sessions.sessions
      modifies taskLog, sessions
      ensures taskLog.Valid() && q.sessionId in sessions.sessions
      ensures sessions.sessions == old(sessions.sessions)[q.sessionId := sessions.sessions[q.sessionId]]
      ensures match Get(old(taskLog.log), q.taskId)
              case None => out == Failure(OtherError) && taskLog.log == old(taskLog.log)
              case Some(_) =>
                && out.Success? && out.value.success && out.value.status != "rejected"
                && taskLog.log == Updated(old(taskLog.log), ClosingOp(q, out.value, ""), q.clock[3], taskLog.limits)
                && Settled(q, out.value, sessions.sessions[q.sessionId], taskLog.log, taskLog.limits)
    {
      var status := if q.dryRun then "dry_run" else "completed";
      var record := Update(q, Complete(q.taskId, status), 3);
      if record.Failure? {
        return Failure(OtherError);
      }
      var session := sessions.CompleteSession(q.sessionId, q.clock[3].now);
      return Success(Reply(true, status, ""));
    }

    /** The guarded part of `arun` once there is a plan, up to the exception it raises. */
    method Attempt(q: Request) returns (out: Result<Reply, Raised>)
      requires taskLog.Valid() && Fresh(q, taskLog.log) && Created(q)
      requires q.sessionId in sessions.sessions
      modifies taskLog, sessions
      ensures taskLog.Valid()
      ensures Ends(q, out, LastSeen(q, old(taskLog.log), taskLog.limits), Refuses(q, old(taskLog.log), taskLog.limits))
      ensures sessions.sessions == old(sessions.sessions)[q.sessionId := sessions.sessions[q.sessionId]]
    {
      ghost var log := taskLog.log;
      CreatedFacts(q, log, taskLog.limits);
      CreateTask(q, q.planned.value);
      if !q.validated.Returned? {
        return Failure(RaisedBy(q.validated));
      }
      if q.showPlan || q.dryRun {
        out := ShowPlan(q);
        return;
      }
      var agents := SelectedAgents(q.planned.value.appId);
      if agents != [] {
        var record := Update(q, MarkRunning(q.taskId, agents), 1);
        if record.Failure? {
          return Failure(OtherError);
        }
      }
      out := Finish(q);
    }

    /** The whole guarded part: planning, writing the plan, and the rest. */
    method Guarded(q: Request) returns (out: Result<Reply, Raised>)
      requires taskLog.Valid() && Fresh(q, taskLog.log) && q.sessionId in sessions.sessions
      modifies taskLog, sessions
      ensures taskLog.Valid() && q.sessionId in sessions.sessions
      ensures sessions.sessions == old(sessions.sessions)[q.sessionId := sessions.sessions[q.sessionId]]
      ensures match out
              case Success(reply) => Explains(q, reply, old(taskLog.log), taskLog.log, taskLog.limits)
              case Failure(e) => Explained(q, e, old(taskLog.log), taskLog.limits)
      ensures q.planned.Refused? ==> out.Failure? && out.error == DispatchError(q.planned.code, q.planned.reason)
      ensures if Created(q)
              then Ends(q, out, LastSeen(q, old(taskLog.log), taskLog.limits),
                        Refuses(q, old(taskLog.log), taskLog.limits))
              else out.Failure? && taskLog.log == old(taskLog.log) && (out.error.DispatchError? <==> q.planned.Refused?)
    {
      if !q.planned.Returned? {
        ExplainedException(q, RaisedBy(q.planned), taskLog.log, taskLog.limits);
        return Failure(RaisedBy(q.planned));
      }
      if q.planUnwritable {
        ExplainedException(q, OtherError, taskLog.log, taskLog.limits);
        return Failure(OtherError);
      }
      out := Attempt(q);
      match out {
        case Success(reply) => ExplainsValue(q, reply, old(taskLog.log), taskLog.log, taskLog.limits);
        case Failure(e) => ExplainedException(q, e, old(taskLog.log), taskLog.limits);
      }
    }

    /** `arun`. Success is reported exactly when everything went well and the task was still there to be
        closed; the dispatcher's session, the task and the reply always end alike. The one exception is a
        plan that carries another id than the request's own: its task is left as planned. */
    method Arun(q: Request) returns (reply: Reply)
      requires taskLog.Valid() && Fresh(q, taskLog.log)
      modifies taskLog, sessions
      ensures taskLog.Valid()
      ensures reply.success <==> GoesWell(q) && !Dropped(q, old(taskLog.log), taskLog.limits)
      ensures reply.status == "rejected" <==> Refuses(q, old(taskLog.log), taskLog.limits)
      ensures q.sessionId in sessions.sessions
      ensures sessions.sessions == old(sessions.sessions)[q.sessionId := sessions.sessions[q.sessionId]]
      ensures sessions.sessions[q.sessionId].status == (if reply.success then S.Completed else S.Failed)
      ensures sessions.sessions[q.sessionId].errorCode == reply.errorCode
      ensures Explains(q, reply, old(taskLog.log), taskLog.log, taskLog.limits)
      ensures !Created(q) ==> taskLog.log == old(taskLog.log)
      ensures Created(q) && Own(q) ==>
                if Dropped(q, old(taskLog.log), taskLog.limits) then Get(taskLog.log, q.taskId).None?
                else Settled(q, reply, sessions.sessions[q.sessionId], taskLog.log, taskLog.limits)
      ensures Created(q) && !Own(q) ==> Orphan(q, taskLog.log, taskLog.limits)
    {
      ghost var before := sessions.sessions;
      Begin(q);
      ghost var begun := sessions.sessions;
      var out := Guarded(q);
      ghost var guarded := sessions.sessions;
      TouchedTwice(before, begun, guarded, q.sessionId);
      match out {
        case Success(r) =>
          reply := r;
        case Failure(e) =>
          reply := Handle(q, e);
          TouchedTwice(before, guarded, sessions.sessions, q.sessionId);
      }
    }

    /** The dispatcher's own session. */
    method Begin(q: Request)
      requires |q.clock| == 5
      modifies sessions
      ensures q.sessionId in sessions.sessions
      ensures sessions.sessions == old(sessions.sessions)[q.sessionId := sessions.sessions[q.sessionId]]
    {
      sessions.CreateSession(q.sessionId);
      var started := sessions.StartSession(q.sessionId, q.clock[0].now);
    }

    /** The two exception handlers. A KeyError from the task log is swallowed. */
    method Handle(q: Request, e: Raised) returns (reply: Reply)
      requires taskLog.Valid() && |q.clock| == 5
      requires Before(taskLog.log, q.clock[4].now) && q.sessionId in sessions.sessions
      requires q.planned.Returned? && q.planned.value.empty ==> Get(taskLog.log, q.taskId).None?
      modifies taskLog, sessions
      ensures taskLog.Valid() && q.sessionId in sessions.sessions
      ensures sessions.sessions == old(sessions.sessions)[q.sessionId := sessions.sessions[q.sessionId]]
      ensures reply == if e.DispatchError? then Reply(false, "rejected", e.code) else Reply(false, "failed", UNEXPECTED)
      ensures sessions.sessions[q.sessionId].status == S.Failed
      ensures sessions.sessions[q.sessionId].errorCode == reply.errorCode
      ensures if q.planned.Returned? && Get(old(taskLog.log), q.taskId).Some?
              then Settled(q, reply, sessions.sessions[q.sessionId], taskLog.log, taskLog.limits)
              else taskLog.log == old(taskLog.log)
    {
      reply := if e.DispatchError? then Reply(false, "rejected", e.code) else Reply(false, "failed", UNEXPECTED);
      if q.planned.Returned? && !q.planned.value.empty {
        var op := if e.DispatchError? then Reject(q.taskId, e.code, e.reason) else Fail(q.taskId, UNEXPECTED, "");
        var swallowed := Update(q, op, 4);
      }
      var session := sessions.FailSession(q.sessionId, reply.errorCode, q.clock[4].now);
    }
  }

  function RaisedBy<T>(o: Outcome<T>): Raised
    requires !o.Returned?
  {
    if o.Refused? then DispatchError(o.code, o.reason) else OtherError
  }
}
