/**
 The task log: an append-only file of record versions, its recent-tasks file, and compaction.
 The class follows the Python manager method by method; the functions above it say what one
 operation does to the log, and the lemmas below it speak of whole runs.
 */
module TaskLog {
  import opened Wrappers
  import opened Retention
  import opened RetentionLaws

  /** A task operation with the arguments that matter to the record it writes. */
  datatype TaskOp =
    | Create(taskId: string, dispatcherSession: string)
    | MarkRunning(taskId: string, agents: seq<Agent>)
    | Attach(taskId: string, agentId: string, sessionId: string, role: string)
    | Complete(taskId: string, summaryStatus: string)
    | Fail(taskId: string, errorCode: string, reason: string)
    | Reject(taskId: string, errorCode: string, reason: string)

  predicate Matches(a: Agent, op: TaskOp)
    requires op.Attach?
  {
    a.agentId == op.agentId && a.role == op.role
  }

  function Attached(a: Agent, op: TaskOp): Agent
    requires op.Attach?
  {
    if Matches(a, op) then a.(sessionId := op.sessionId, status := "running") else a
  }

  /** Marks the matching agents as running. */
  function AttachTo(agents: seq<Agent>, op: TaskOp): seq<Agent>
    requires op.Attach?
  {
    if agents == [] then [] else [Attached(agents[0], op)] + AttachTo(agents[1..], op)
  }

  predicate HasAgent(agents: seq<Agent>, op: TaskOp)
    requires op.Attach?
  {
    exists a :: a in agents && Matches(a, op)
  }

  /** Closes an agent whose status is empty or in `open`. */
  function Closed(a: Agent, open: set<string>, status: string): Agent {
    if a.status == "" || a.status in open then a.(status := status) else a
  }

  function Settle(agents: seq<Agent>, open: set<string>, status: string): seq<Agent> {
    if agents == [] then [] else [Closed(agents[0], open, status)] + Settle(agents[1..], open, status)
  }

  /** The new version an operation writes of the record it found. */
  function Revise(r: TaskRecord, op: TaskOp, now: int): TaskRecord
    requires !op.Create?
  {
    match op
    case MarkRunning(_, agents) => r.(status := "running", updatedAt := now, selectedAgents := agents)
    case Attach(_, agentId, sessionId, role) =>
      var agents := AttachTo(r.selectedAgents, op);
      r.(updatedAt := now,
         selectedAgents := if HasAgent(r.selectedAgents, op) then agents
                           else agents + [Agent(agentId, role, sessionId, "running")])
    case Complete(_, summaryStatus) =>
      var status := if summaryStatus == "" then "completed" else summaryStatus;
      r.(status := status, updatedAt := now,
         selectedAgents := Settle(r.selectedAgents, {"planned", "running"}, status))
    case Fail(_, code, reason) =>
      r.(status := "failed", updatedAt := now, errorCode := code, reason := reason,
         selectedAgents := Settle(r.selectedAgents, {"running"}, "failed"))
    case Reject(_, code, reason) =>
      r.(status := "rejected", updatedAt := now, errorCode := code, reason := reason)
  }

  /** The record an operation appends to `log`, or None where the code raises KeyError. */
  function NewVersion(log: seq<TaskRecord>, op: TaskOp, now: int): Option<TaskRecord> {
    match op
    case Create(id, session) => Some(TaskRecord(id, now, now, "planned", session, [], "", ""))
    case _ =>
      match Get(log, op.taskId)
      case None => None
      case Some(r) => Some(Revise(r, op, now))
  }

  /** The agents afterwards are those before, with the ones in an open status closed. */
  ghost predicate ClosesAgents(before: seq<Agent>, after: seq<Agent>, open: set<string>, status: string) {
    && |after| == |before|
    && forall i :: 0 <= i < |before| ==>
         after[i] == if before[i].status in open then before[i].(status := status) else before[i]
  }

  /** What an operation makes of the record it finds. Id, creation time and dispatcher session never change,
      and the time of the update always does. */
  ghost predicate Transition(was: TaskRecord, op: TaskOp, now: int, r: TaskRecord) {
    && r.taskId == was.taskId && r.createdAt == was.createdAt && r.dispatcherSession == was.dispatcherSession
    && r.updatedAt == now
    && match op
       case Create(_, _) => false
       case MarkRunning(_, agents) =>
         && r.status == "running" && r.selectedAgents == agents
         && r.errorCode == was.errorCode && r.reason == was.reason
       case Attach(_, agentId, sessionId, role) =>
         && r.status == was.status && r.errorCode == was.errorCode && r.reason == was.reason
         && var (before, after) := (was.selectedAgents, r.selectedAgents);
            var there := exists i :: 0 <= i < |before| && before[i].agentId == agentId && before[i].role == role;
            && |before| <= |after|
            && (forall i :: 0 <= i < |before| ==>
                  after[i] == if before[i].agentId == agentId && before[i].role == role
                              then Agent(agentId, role, sessionId, "running") else before[i])
            && after[|before|..] == (if there then [] else [Agent(agentId, role, sessionId, "running")])
       case Complete(_, summaryStatus) =>
         && r.status == (if summaryStatus == "" then "completed" else summaryStatus)
         && r.errorCode == was.errorCode && r.reason == was.reason
         && ClosesAgents(was.selectedAgents, r.selectedAgents, {"", "planned", "running"}, r.status)
       case Fail(_, code, reason) =>
         && r.status == "failed" && r.errorCode == code && r.reason == reason
         && ClosesAgents(was.selectedAgents, r.selectedAgents, {"", "running"}, "failed")
       case Reject(_, code, reason) =>
         && r.status == "rejected" && r.errorCode == code && r.reason == reason
         && r.selectedAgents == was.selectedAgents
  }

  lemma ReviseIsTransition(was: TaskRecord, op: TaskOp, now: int)
    requires !op.Create?
    ensures Transition(was, op, now, Revise(was, op, now))
  {
    match op {
      case Attach(_, _, _, _) => AttachIsTransition(was, op, now);
      case Complete(_, _) => SettleCloses(was.selectedAgents, {"planned", "running"}, Revise(was, op, now).status);
      case Fail(_, _, _) => SettleCloses(was.selectedAgents, {"running"}, "failed");
      case _ =>
    }
  }

  lemma AttachIsTransition(was: TaskRecord, op: TaskOp, now: int)
    requires op.Attach?
    ensures Transition(was, op, now, Revise(was, op, now))
  {
    var before := was.selectedAgents;
    AttachAt(before, op);
    assert HasAgent(before, op) <==> exists i :: 0 <= i < |before| && Matches(before[i], op) by {
      if HasAgent(before, op) {
        var a :| a in before && Matches(a, op);
        var i :| 0 <= i < |before| && before[i] == a;
      }
    }
  }

  /** An operation on a task finds the version written last, or raises KeyError; what it appends is that
      version's transition, and a reader of the log then sees it. */
  lemma OperationWrites(log: seq<TaskRecord>, op: TaskOp, now: int)
    requires !op.Create?
    ensures match Newest(log, op.taskId)
            case None => NewVersion(log, op, now) == None
            case Some(was) =>
              && NewVersion(log, op, now).Some?
              && var r := NewVersion(log, op, now).value;
                 Transition(was, op, now, r) && Get(log + [r], op.taskId) == Some(r)
  {
    GetIsNewest(log, op.taskId);
    NewVersionFacts(log, op, now);
    if Newest(log, op.taskId).Some? {
      ReviseIsTransition(Newest(log, op.taskId).value, op, now);
      GetOfAppend(log, NewVersion(log, op, now).value, op.taskId);
    }
  }

  lemma NewVersionFacts(log: seq<TaskRecord>, op: TaskOp, now: int)
    ensures var v := NewVersion(log, op, now); v.Some? ==> v.value.taskId == op.taskId && v.value.updatedAt == now
    ensures !op.Create? ==> (NewVersion(log, op, now).Some? <==> Get(log, op.taskId).Some?)
  {
    RecentFacts(log);
    LookupFacts(Recent(log), op.taskId);
  }

  /** The recent-tasks file that belongs to a log. */
  function RecentFile(log: seq<TaskRecord>, limits: Limits): seq<TaskRecord> {
    Take(Recent(log), limits.recent)
  }

  /** The log after an append; `oversize` says whether the file then exceeds its size limit. */
  function Appended(log: seq<TaskRecord>, r: TaskRecord, oversize: bool, limits: Limits): seq<TaskRecord> {
    if oversize then Select(log + [r], limits) else log + [r]
  }

  datatype KeyError = KeyError(taskId: string)

  class TaskLogManager {
    const limits: Limits
    var log: seq<TaskRecord>
    var recent: seq<TaskRecord>

    /** The materialised recent-tasks file agrees with the log. */
    ghost predicate Valid()
      reads this
    {
      recent == RecentFile(log, limits)
    }

    constructor (limits: Limits)
      ensures Valid() && log == [] && this.limits == limits
    {
      this.limits := limits;
      log, recent := [], [];
      new;
      assert Latest([]) == [];
      assert Recent([]) == [];
    }

    /** Rewrites the recent-tasks file from `records`, whatever order they come in. */
    method WriteRecent(records: seq<TaskRecord>)
      modifies this`recent
      ensures recent == Take(Sort(records, true), limits.recent)
    {
      recent := Take(Sort(records, true), limits.recent);
    }

    /** Appends one record version, then compacts if the file has grown too large. */
    method Append(r: TaskRecord, oversize: bool)
      requires Valid()
      modifies this
      ensures Valid() && log == Appended(old(log), r, oversize, limits)
      ensures log == if oversize then Select(old(log) + [r], limits) else old(log) + [r]
      ensures recent == Take(Recent(log), limits.recent)
    {
      log := log + [r];
      var latest := LatestRecords();
      WriteRecent(latest);
      SortOfSort(Latest(log), true, true);
      if oversize {
        var compacted := Compact(false, oversize);
      }
    }

    method LatestRecords() returns (latest: seq<TaskRecord>)
      ensures latest == Recent(log)
    {
      var dict := PutEach([], log);
      latest := Sort(dict, true);
    }

    /** Compacts when forced or when the file is too large; otherwise changes nothing. */
    method Compact(force: bool, oversize: bool) returns (compacted: bool)
      modifies this
      ensures compacted == (force || oversize)
      ensures log == if compacted then Select(old(log), limits) else old(log)
      ensures compacted || old(Valid()) ==> Valid()
      ensures compacted ==> recent == Take(Recent(log), limits.recent)
    {
      compacted := force || oversize;
      if compacted {
        var retained := SelectRecordsForRetention(log, limits);
        log := retained;
        WriteRecent(retained);
        RewrittenRecent(old(log), limits);
      }
    }

    method ListRecent(k: int) returns (records: seq<TaskRecord>)
      ensures records == Take(Recent(log), k)
    {
      var latest := LatestRecords();
      records := Take(Sort(latest, true), k);
      SortOfSort(Latest(log), true, true);
    }

    /** The first latest record with the id, which is the version written last. */
    method Find(id: string) returns (r: Option<TaskRecord>)
      ensures r == Newest(log, id)
    {
      var latest := LatestRecords();
      for i := 0 to |latest|
        invariant Lookup(latest, id) == Lookup(latest[i..], id)
      {
        if latest[i].taskId == id {
          GetIsNewest(log, id);
          return Some(latest[i]);
        }
      }
      GetIsNewest(log, id);
      return None;
    }

    method CreateTask(id: string, session: string, now: int, oversize: bool) returns (r: TaskRecord)
      requires Valid()
      modifies this
      ensures Valid() && Some(r) == NewVersion(old(log), Create(id, session), now)
      ensures log == Appended(old(log), r, oversize, limits)
      ensures r == TaskRecord(id, now, now, "planned", session, [], "", "")
      ensures log == if oversize then Select(old(log) + [r], limits) else old(log) + [r]
    {
      r := TaskRecord(id, now, now, "planned", session, [], "", "");
      Append(r, oversize);
    }

    /** `require`, edit and append: every operation on an existing task. */
    method Update(op: TaskOp, now: int, oversize: bool) returns (res: Result<TaskRecord, KeyError>)
      requires Valid() && !op.Create?
      modifies this
      ensures Valid()
      ensures match NewVersion(old(log), op, now)
              case None => res == Failure(KeyError(op.taskId)) && log == old(log)
              case Some(r) => res == Success(r) && log == Appended(old(log), r, oversize, limits)
      ensures match Newest(old(log), op.taskId)
              case None => res == Failure(KeyError(op.taskId)) && log == old(log)
              case Some(was) =>
                && res.Success? && Transition(was, op, now, res.value)
                && log == if oversize then Select(old(log) + [res.value], limits) else old(log) + [res.value]
    {
      OperationWrites(log, op, now);
      var found := Find(op.taskId);
      GetIsNewest(log, op.taskId);
      if found.None? {
        return Failure(KeyError(op.taskId));
      }
      var r := found.value;
      match op {
        case MarkRunning(_, agents) =>
          r := r.(status := "running", updatedAt := now, selectedAgents := agents);
        case Attach(_, agentId, sessionId, role) =>
          var agents, updated := AttachAgents(r.selectedAgents, op);
          if !updated {
            agents := agents + [Agent(agentId, role, sessionId, "running")];
          }
          r := r.(updatedAt := now, selectedAgents := agents);
        case Complete(_, summaryStatus) =>
          r := r.(status := if summaryStatus == "" then "completed" else summaryStatus, updatedAt := now);
          var agents := SettleAgents(r.selectedAgents, {"planned", "running"}, r.status);
          r := r.(selectedAgents := agents);
        case Fail(_, code, reason) =>
          r := r.(status := "failed", updatedAt := now, errorCode := code, reason := reason);
          var agents := SettleAgents(r.selectedAgents, {"running"}, "failed");
          r := r.(selectedAgents := agents);
        case Reject(_, code, reason) =>
          r := r.(status := "rejected", updatedAt := now, errorCode := code, reason := reason);
      }
      Append(r, oversize);
      return Success(r);
    }
  }

  method AttachAgents(agents: seq<Agent>, op: TaskOp) returns (out: seq<Agent>, updated: bool)
    requires op.Attach?
    ensures out == AttachTo(agents, op) && updated == HasAgent(agents, op)
  {
    out, updated := [], false;
    for i := 0 to |agents|
      invariant |out| == i && forall k :: 0 <= k < i ==> out[k] == Attached(agents[k], op)
      invariant updated <==> exists k :: 0 <= k < i && Matches(agents[k], op)
    {
      var a := agents[i];
      if a.agentId == op.agentId && a.role == op.role {
        a := a.(sessionId := op.sessionId, status := "running");
        updated := true;
      }
      out := out + [a];
    }
    AttachAt(agents, op);
  }

  method SettleAgents(agents: seq<Agent>, open: set<string>, status: string) returns (out: seq<Agent>)
    ensures out == Settle(agents, open, status)
  {
    out := [];
    for i := 0 to |agents|
      invariant |out| == i && forall k :: 0 <= k < i ==> out[k] == Closed(agents[k], open, status)
    {
      var a := agents[i];
      out := out + [if a.status == "" || a.status in open then a.(status := status) else a];
    }
    SettleCloses(agents, open, status);
  }

  /** Closing touches exactly the agents that were open: each keeps its place and identity, and the
      others keep their status too. */
  lemma {:induction false} SettleCloses(agents: seq<Agent>, open: set<string>, status: string)
    ensures ClosesAgents(agents, Settle(agents, open, status), open + {""}, status)
    ensures var out := Settle(agents, open, status);
            |out| == |agents| && forall i :: 0 <= i < |agents| ==>
              && out[i] == agents[i].(status := out[i].status)
              && var was := agents[i].status; out[i].status == if was == "" || was in open then status else was
  {
    if agents != [] {
      SettleCloses(agents[1..], open, status);
    }
  }

  /** After an attachment the agent runs in the given session in every entry it has, and has one; the
      entries of other agents are unchanged and in place. */
  lemma AttachRuns(r: TaskRecord, op: TaskOp, now: int)
    requires op.Attach?
    ensures var before, after := r.selectedAgents, Revise(r, op, now).selectedAgents;
            && (exists a :: a in after && a == Agent(op.agentId, op.role, op.sessionId, "running"))
            && (forall a :: a in after && a.agentId == op.agentId && a.role == op.role
                  ==> a.sessionId == op.sessionId && a.status == "running")
            && |before| <= |after| <= |before| + 1
            && (forall i :: 0 <= i < |before| && !(before[i].agentId == op.agentId && before[i].role == op.role)
                  ==> after[i] == before[i])
  {
    var before, after := r.selectedAgents, Revise(r, op, now).selectedAgents;
    var done := Agent(op.agentId, op.role, op.sessionId, "running");
    AttachAt(before, op);
    if HasAgent(before, op) {
      var a :| a in before && Matches(a, op);
      var i :| 0 <= i < |before| && before[i] == a;
      assert after[i] == done && done in after;
    } else {
      assert after[|before|] == done && done in after;
    }
  }

  lemma {:induction false} AttachAt(agents: seq<Agent>, op: TaskOp)
    requires op.Attach?
    ensures |AttachTo(agents, op)| == |agents|
    ensures forall i :: 0 <= i < |agents| ==> AttachTo(agents, op)[i] == Attached(agents[i], op)
  {
    if agents != [] {
      AttachAt(agents[1..], op);
    }
  }

  /** The recent file written from the retained records is the one the rewritten log calls for. */
  lemma RewrittenRecent(log: seq<TaskRecord>, limits: Limits)
    ensures Recent(Select(log, limits)) == Sort(Select(log, limits), true)
  {
    RecentFacts(log);
    SelectedIsDict(Recent(log), limits);
    RecentOfRewritten(Selected(Recent(log), limits));
    SortOfSort(Selected(Recent(log), limits), false, true);
  }

  lemma {:induction false} PutAllMembers(d: seq<TaskRecord>, s: seq<TaskRecord>)
    requires UniqueIds(d)
    ensures UniqueIds(PutAll(d, s)) && forall r :: r in PutAll(d, s) ==> r in d || r in s
  {
    if s != [] {
      PutAllMembers(d, s[..|s| - 1]);
      PutFacts(PutAll(d, s[..|s| - 1]), s[|s| - 1]);
    }
  }

  lemma TakeMembers(s: seq<TaskRecord>, n: int)
    ensures forall r :: r in Take(s, n) ==> r in s
  {
  }

  lemma SelectedIsDict(latest: seq<TaskRecord>, limits: Limits)
    ensures UniqueIds(Selected(latest, limits))
    ensures forall r :: r in Selected(latest, limits) ==> r in latest
  {
    var (f, j) := (WithStatus(latest, "failed"), WithStatus(latest, "rejected"));
    var a := PutAll([], Take(latest, limits.recent));
    PutAllMembers([], Take(latest, limits.recent));
    PutAllMembers(a, Take(f, limits.failed));
    PutAllMembers(PutAll(a, Take(f, limits.failed)), Take(j, limits.rejected));
    WithStatusMembers(latest, "failed");
    WithStatusMembers(latest, "rejected");
    TakeMembers(latest, limits.recent);
    TakeMembers(f, limits.failed);
    TakeMembers(j, limits.rejected);
  }

  // ---------- Appending the newest record ----------

  /** A record newer than everything in the log moves to the front of the recent view; the rest
      keeps its order. */
  lemma RecentAfterAppend(log: seq<TaskRecord>, r: TaskRecord)
    requires forall x :: x in Recent(log) ==> x.updatedAt < r.updatedAt
    ensures Recent(log + [r]) == [r] + Without(Recent(log), r.taskId)
  {
    var d := Latest(log);
    var rest := Without(Recent(log), r.taskId);
    assert (log + [r])[..|log + [r]| - 1] == log;
    assert Latest(log + [r]) == Put(d, r);
    RecentFacts(log);
    LatestIsNewest(log);
    OrderedFilters(Recent(log), "", r.taskId, true);
    WithoutMembers(Recent(log), r.taskId);
    SortIsStable(d, true);
    forall v ensures Ties([r] + rest, v) == Ties(Put(d, r), v) {
      TiesConcat([r], rest, v);
      TiesOfWithout(Recent(log), r.taskId, v);
      TiesOfPut(d, r, v);
      TiesOfWithout(d, r.taskId, v);
    }
    SortIsStable(Put(d, r), true);
    StableSortUnique(Put(d, r), Sort(Put(d, r), true), [r] + rest, true);
  }

  lemma {:induction false} TiesOfPut(d: seq<TaskRecord>, r: TaskRecord, v: int)
    requires UniqueIds(d) && forall x :: x in d ==> x.updatedAt < r.updatedAt
    ensures Ties(Put(d, r), v) == Ties([r], v) + Ties(Without(d, r.taskId), v)
  {
    if d == [] {
    } else if d[0].taskId == r.taskId {
      HeadIsOnly(d);
      WithoutAbsent(d[1..], r.taskId);
      assert Without(d, r.taskId) == d[1..];
      TiesConcat([r], d[1..], v);
    } else {
      TiesOfPut(d[1..], r, v);
      TiesConcat([d[0]], Put(d[1..], r), v);
      TiesConcat([d[0]], Without(d[1..], r.taskId), v);
      if v == r.updatedAt {
        assert Ties([d[0]], v) == [];
      } else {
        assert Ties([r], v) == [];
      }
    }
  }

  lemma {:induction false} WithoutAbsent(s: seq<TaskRecord>, id: string)
    requires forall x :: x in s ==> x.taskId != id
    ensures Without(s, id) == s
  {
    if s != [] {
      WithoutAbsent(s[1..], id);
    }
  }

  lemma TakeCons(x: TaskRecord, s: seq<TaskRecord>, n: nat)
    requires n >= 1
    ensures Take([x] + s, n) == [x] + Take(s, n - 1)
  {
  }

  lemma HeadIsOnly(s: seq<TaskRecord>)
    requires UniqueIds(s) && s != []
    ensures forall x :: x in s[1..] ==> x.taskId != s[0].taskId
  {
    forall x | x in s[1..] ensures x.taskId != s[0].taskId {
      var i :| 0 <= i < |s[1..]| && s[1..][i] == x;
      assert s[i + 1] == x;
    }
  }

  lemma TakeWithoutHead(s: seq<TaskRecord>, n: nat)
    requires UniqueIds(s) && 1 <= n < |s|
    ensures Take(Without(s, s[0].taskId), n - 1) == s[1..][..n - 1]
    ensures Take(Without(s[..n], s[0].taskId), n - 1) == s[1..][..n - 1]
  {
    WithoutHead(s);
    WithoutHead(s[..n]);
    assert s[..n][1..] == s[1..][..n - 1] && s[..n][0] == s[0];
  }

  lemma WithoutHead(s: seq<TaskRecord>)
    requires UniqueIds(s) && s != []
    ensures Without(s, s[0].taskId) == s[1..]
  {
    HeadIsOnly(s);
    WithoutAbsent(s[1..], s[0].taskId);
    assert [] + s[1..] == s[1..];
  }

  lemma WithoutCons(x: TaskRecord, s: seq<TaskRecord>, id: string)
    requires x.taskId != id
    ensures Without([x] + s, id) == [x] + Without(s, id)
  {
    assert ([x] + s)[1..] == s;
  }

  lemma TakeWithoutCons(x: TaskRecord, rest: seq<TaskRecord>, n: nat, id: string)
    requires x.taskId != id && 1 < n <= |rest|
    requires Take(Without(rest, id), n - 2) == Take(Without(rest[..n - 1], id), n - 2)
    ensures Take(Without([x] + rest, id), n - 1) == Take(Without(([x] + rest)[..n], id), n - 1)
  {
    assert ([x] + rest)[..n] == [x] + rest[..n - 1];
    WithoutCons(x, rest, id);
    WithoutCons(x, rest[..n - 1], id);
    TakeCons(x, Without(rest, id), n - 1);
    TakeCons(x, Without(rest[..n - 1], id), n - 1);
  }

  /** Removing one id costs at most one place, so the first `n - 1` others are found among the first `n`. */
  lemma {:induction false} TakeWithout(s: seq<TaskRecord>, n: nat, id: string)
    requires UniqueIds(s) && n >= 1
    ensures Take(Without(s, id), n - 1) == Take(Without(Take(s, n), id), n - 1)
  {
    if n < |s| && s[0].taskId == id {
      TakeWithoutHead(s, n);
    } else if 1 < n < |s| {
      TakeWithout(s[1..], n - 1, id);
      TakeWithoutCons(s[0], s[1..], n, id);
      assert [s[0]] + s[1..] == s;
    }
  }

  // ---------- Whole runs ----------

  /** A step of a run: an operation at a time, followed by a compaction or not, or a forced compaction. */
  datatype Step = Do(op: TaskOp, now: int, oversize: bool) | ForceCompact

  /** The log after the steps, or None once an operation has raised KeyError. `compacting` false gives
      the log that never compacts. */
  function Run(steps: seq<Step>, limits: Limits, compacting: bool): Option<seq<TaskRecord>> {
    if steps == [] then Some([])
    else
      match Run(steps[..|steps| - 1], limits, compacting)
      case None => None
      case Some(log) => Next(log, steps[|steps| - 1], limits, compacting)
  }

  function Next(log: seq<TaskRecord>, step: Step, limits: Limits, compacting: bool): Option<seq<TaskRecord>> {
    match step
    case ForceCompact => Some(if compacting then Select(log, limits) else log)
    case Do(op, now, oversize) =>
      match NewVersion(log, op, now)
      case None => None
      case Some(r) => Some(Appended(log, r, oversize && compacting, limits))
  }

  /** The times at which a run's operations take place. */
  function Times(steps: seq<Step>): seq<int> {
    if steps == [] then []
    else Times(steps[..|steps| - 1]) + if steps[|steps| - 1].Do? then [steps[|steps| - 1].now] else []
  }

  /** The clock never runs backwards. */
  ghost predicate NonDecreasing(times: seq<int>) {
    forall i, j :: 0 <= i < j < |times| ==> times[i] <= times[j]
  }

  /** Operations may share an instant only if it is the instant of the very first one. */
  ghost predicate OnlyFirstRepeats(times: seq<int>) {
    forall i :: 0 <= i < |times| - 1 && times[i] == times[i + 1] ==> times[i] == times[0]
  }

  /** What ties the compacted log `a` to the log `b` that never compacts. */
  ghost predicate Agree(a: seq<TaskRecord>, b: seq<TaskRecord>, n: nat) {
    && Take(Recent(a), n) == Take(Recent(b), n)
    && (forall r :: r in Recent(a) ==> r in Recent(b))
  }

  lemma AgreeAfterSelect(a: seq<TaskRecord>, b: seq<TaskRecord>, limits: Limits)
    requires NonNegative(limits) && Agree(a, b, limits.recent)
    ensures Agree(Select(a, limits), b, limits.recent)
  {
    var latest := Recent(a);
    var cut := Cut(latest, limits);
    RecentFacts(a);
    RecentAfterSelect(a, limits);
    RecentFacts(Select(a, limits));
    DictOfUnique(Select(a, limits));
    assert Take(Recent(Select(a, limits)), limits.recent) == latest[..cut] by {
      if cut < limits.recent {
        assert cut == |latest|;
        assert Extras(latest, limits) == [];
      }
    }
    forall r | r in Recent(Select(a, limits)) ensures r in Recent(b) {
      CompactionKeepsExactly(a, limits, r);
    }
  }

  lemma AgreeAfterAppend(a: seq<TaskRecord>, b: seq<TaskRecord>, r: TaskRecord, n: nat)
    requires Agree(a, b, n)
    requires forall x :: x in Recent(b) ==> x.updatedAt < r.updatedAt
    ensures Agree(a + [r], b + [r], n)
  {
    RecentAfterAppend(a, r);
    RecentAfterAppend(b, r);
    WithoutMembers(Recent(a), r.taskId);
    WithoutMembers(Recent(b), r.taskId);
    RecentFacts(a);
    RecentFacts(b);
    if n >= 1 {
      TakeWithout(Recent(a), n, r.taskId);
      TakeWithout(Recent(b), n, r.taskId);
      TakeCons(r, Without(Recent(a), r.taskId), n);
      TakeCons(r, Without(Recent(b), r.taskId), n);
    }
    forall x | x in Recent(a + [r]) ensures x in Recent(b + [r]) {
      assert x == r || x in Without(Recent(a), r.taskId);
    }
  }

  ghost predicate AllAt(log: seq<TaskRecord>, now: int) {
    forall r :: r in log ==> r.updatedAt == now
  }

  /** While all records share one instant, the recent view is the dictionary itself. */
  lemma RecentOfTies(log: seq<TaskRecord>, now: int)
    requires AllAt(log, now)
    ensures Recent(log) == Latest(log)
  {
    LatestIsNewest(log);
    forall i, j | 0 <= i < j < |Latest(log)| ensures Rank(Latest(log)[i], true) <= Rank(Latest(log)[j], true) {
      assert Latest(log)[i] in log && Latest(log)[j] in log;
    }
    SortOfOrdered(Latest(log), true);
  }

  lemma {:induction false} TakeOfPut(d: seq<TaskRecord>, e: seq<TaskRecord>, r: TaskRecord, n: nat)
    requires Take(d, n) == Take(e, n)
    ensures Take(Put(d, r), n) == Take(Put(e, r), n)
  {
    if n == 0 {
    } else if d == [] || e == [] {
      assert d == [] && e == [];
    } else {
      assert d[0] == Take(d, n)[0] == Take(e, n)[0] == e[0];
      assert Take(d[1..], n - 1) == Take(d, n)[1..] == Take(e, n)[1..] == Take(e[1..], n - 1);
      if d[0].taskId == r.taskId {
        TakeCons(r, d[1..], n);
        TakeCons(r, e[1..], n);
      } else {
        TakeOfPut(d[1..], e[1..], r, n - 1);
        TakeCons(d[0], Put(d[1..], r), n);
        TakeCons(e[0], Put(e[1..], r), n);
      }
    }
  }

  /** A record in the same instant as everything before it takes its place in both dictionaries. */
  lemma AgreeAfterTie(a: seq<TaskRecord>, b: seq<TaskRecord>, r: TaskRecord, n: nat)
    requires Agree(a, b, n) && AllAt(a, r.updatedAt) && AllAt(b, r.updatedAt)
    ensures Agree(a + [r], b + [r], n)
  {
    RecentOfTies(a, r.updatedAt);
    RecentOfTies(b, r.updatedAt);
    RecentOfTies(a + [r], r.updatedAt);
    RecentOfTies(b + [r], r.updatedAt);
    assert (a + [r])[..|a|] == a && (b + [r])[..|b|] == b;
    LatestIsNewest(a);
    LatestIsNewest(b);
    TakeOfPut(Latest(a), Latest(b), r, n);
    PutFacts(Latest(a), r);
    PutFacts(Latest(b), r);
  }

  lemma AgreeAfterDo(
    a: seq<TaskRecord>, b: seq<TaskRecord>, op: TaskOp, now: int, oversize: bool, limits: Limits)
    requires NonNegative(limits) && Agree(a, b, limits.recent) && NewVersion(a, op, now).Some?
    requires (forall r :: r in b ==> r.updatedAt < now) || (AllAt(a, now) && AllAt(b, now))
    ensures NewVersion(b, op, now) == NewVersion(a, op, now)
    ensures var r := NewVersion(a, op, now).value;
            Agree(Appended(a, r, oversize, limits), b + [r], limits.recent)
  {
    SameVersion(a, b, limits.recent, op, now);
    var r := NewVersion(a, op, now).value;
    if forall x :: x in b ==> x.updatedAt < now {
      LatestIsNewest(b);
      RecentFacts(b);
      AgreeAfterAppend(a, b, r, limits.recent);
    } else {
      AgreeAfterTie(a, b, r, limits.recent);
    }
    if oversize {
      AgreeAfterSelect(a + [r], b + [r], limits);
    }
  }

  lemma SameVersion(a: seq<TaskRecord>, b: seq<TaskRecord>, n: nat, op: TaskOp, now: int)
    requires Agree(a, b, n) && NewVersion(a, op, now).Some?
    ensures NewVersion(b, op, now) == NewVersion(a, op, now)
  {
    if !op.Create? {
      RecentFacts(a);
      RecentFacts(b);
      LookupFacts(Recent(a), op.taskId);
      LookupFacts(Recent(b), op.taskId);
    }
  }

  /** Whatever the limits, a selection is made of newest versions. */
  lemma SelectWithinRecent(log: seq<TaskRecord>, limits: Limits)
    ensures UniqueIds(Select(log, limits)) && forall r :: r in Select(log, limits) ==> r in Recent(log)
  {
    SelectedIsDict(Recent(log), limits);
    SortIsStable(Selected(Recent(log), limits), false);
    SortKeepsUniqueIds(Selected(Recent(log), limits), false);
  }

  lemma SelectWithinLog(log: seq<TaskRecord>, limits: Limits)
    ensures forall r :: r in Select(log, limits) ==> r in log
  {
    SelectWithinRecent(log, limits);
    RecentFacts(log);
    LatestIsNewest(log);
  }

  /** Whatever the limits, a compaction leaves a task as it was or drops it. */
  lemma CompactionKeepsOrDrops(log: seq<TaskRecord>, limits: Limits, id: string)
    ensures Get(Select(log, limits), id) in {Get(log, id), None}
  {
    var kept := Select(log, limits);
    SelectWithinRecent(log, limits);
    RecentFacts(log);
    RecentFacts(kept);
    DictOfUnique(kept);
    LookupFacts(Recent(kept), id);
    LookupFacts(Recent(log), id);
    if Get(kept, id).Some? {
      assert Get(log, id) == Some(Get(kept, id).value);
    }
  }

  lemma GetOfAppend(log: seq<TaskRecord>, r: TaskRecord, id: string)
    ensures Get(log + [r], id) == if r.taskId == id then Some(r) else Get(log, id)
  {
    GetIsNewest(log, id);
    GetIsNewest(log + [r], id);
    assert (log + [r])[..|log|] == log;
  }

  /** An append leaves every other task as it was, or drops it in the compaction that may follow; and
      the task it writes is then there in its new version or not at all. */
  lemma AppendKeepsOrDrops(log: seq<TaskRecord>, r: TaskRecord, oversize: bool, limits: Limits, id: string)
    ensures var after := Get(Appended(log, r, oversize, limits), id);
            var written := if r.taskId == id then Some(r) else Get(log, id);
            after == written || (oversize && after == None)
    ensures forall x :: x in Appended(log, r, oversize, limits) ==> x == r || x in log
  {
    GetOfAppend(log, r, id);
    CompactionKeepsOrDrops(log + [r], limits, id);
    SelectWithinLog(log + [r], limits);
  }

  /** Every stamp in a log is one of the times of the run that wrote it. */
  lemma {:induction false} StampsAreTimes(steps: seq<Step>, limits: Limits, compacting: bool)
    requires Run(steps, limits, compacting).Some?
    ensures forall r :: r in Run(steps, limits, compacting).value ==> r.updatedAt in Times(steps)
  {
    if steps != [] {
      var n := |steps| - 1;
      StampsAreTimes(steps[..n], limits, compacting);
      var before := Run(steps[..n], limits, compacting).value;
      if steps[n].Do? {
        var r := NewVersion(before, steps[n].op, steps[n].now).value;
        assert r.updatedAt == steps[n].now && Times(steps) == Times(steps[..n]) + [steps[n].now];
        SelectWithinLog(before + [r], limits);
      } else {
        SelectWithinLog(before, limits);
      }
    }
  }

  /** At the next time of such a clock, either everything so far is older or everything so far and the
      next operation share the first instant. */
  lemma NextInstant(times: seq<int>, now: int)
    requires NonDecreasing(times + [now]) && OnlyFirstRepeats(times + [now])
    ensures (forall t :: t in times ==> t < now) || (forall t :: t in times ==> t == now)
    ensures NonDecreasing(times) && OnlyFirstRepeats(times)
  {
    var all := times + [now];
    assert forall i :: 0 <= i < |times| ==> all[i] == times[i];
    if times != [] {
      var last := |times| - 1;
      assert all[last + 1] == now && all[last] <= now;
      forall t | t in times ensures times[0] <= t <= times[last] {
        var i :| 0 <= i < |times| && times[i] == t;
        assert all[0] <= all[i] || i == 0;
        assert all[i] <= all[last] || i == last;
      }
    }
  }

  lemma {:induction false} RunsAgree(steps: seq<Step>, limits: Limits)
    requires NonNegative(limits) && NonDecreasing(Times(steps)) && OnlyFirstRepeats(Times(steps))
    requires Run(steps, limits, true).Some?
    ensures Run(steps, limits, false).Some?
    ensures Agree(Run(steps, limits, true).value, Run(steps, limits, false).value, limits.recent)
  {
    if steps != [] {
      var n := |steps| - 1;
      var before := steps[..n];
      match steps[n] {
        case ForceCompact =>
          assert Times(steps) == Times(before);
          RunsAgree(before, limits);
          AgreeAfterSelect(Run(before, limits, true).value, Run(before, limits, false).value, limits);
        case Do(op, now, oversize) =>
          NextInstant(Times(before), now);
          RunsAgree(before, limits);
          StampsAreTimes(before, limits, true);
          StampsAreTimes(before, limits, false);
          AgreeAfterDo(Run(before, limits, true).value, Run(before, limits, false).value, op, now, oversize, limits);
      }
    }
  }

  /** Listing up to `retain_recent_n` tasks gives what a log that never compacts would give. */
  ghost predicate Invisible(steps: seq<Step>, limits: Limits) {
    Run(steps, limits, true).Some? ==>
      && Run(steps, limits, false).Some?
      && forall k: nat :: k <= limits.recent ==>
           Take(Recent(Run(steps, limits, true).value), k) == Take(Recent(Run(steps, limits, false).value), k)
  }

  /** Compaction is invisible to recent queries: over every run in which no operation names a task that
      is gone and no two operations share an instant other than the first, wherever compactions fall. */
  lemma CompactionInvisible(steps: seq<Step>, limits: Limits)
    requires NonNegative(limits) && NonDecreasing(Times(steps)) && OnlyFirstRepeats(Times(steps))
    ensures Invisible(steps, limits)
  {
    if Run(steps, limits, true).Some? {
      RunsAgree(steps, limits);
      var a, b := Recent(Run(steps, limits, true).value), Recent(Run(steps, limits, false).value);
      forall k: nat | k <= limits.recent ensures Take(a, k) == Take(b, k) {
        assert Take(a, k) == Take(Take(a, limits.recent), k);
        assert Take(b, k) == Take(Take(b, limits.recent), k);
      }
    }
  }

  /** The retention rule has room for the newest record of a log: among the recent ones, or among the
      failed or rejected ones if it is one of these. */
  predicate RoomForNewest(r: TaskRecord, limits: Limits) {
    || limits.recent >= 1
    || (r.status == "failed" && limits.failed >= 1)
    || (r.status == "rejected" && limits.rejected >= 1)
  }

  /** A task just written survives the compaction its own append triggers if and only if the rule has
      room for it; with `retain_recent_n` 0, an active task is gone at once. */
  lemma NewestSurvivesIff(log: seq<TaskRecord>, r: TaskRecord, oversize: bool, limits: Limits)
    requires NonNegative(limits)
    requires forall x :: x in log ==> x.updatedAt < r.updatedAt
    ensures Get(Appended(log, r, oversize, limits), r.taskId)
         == if !oversize || RoomForNewest(r, limits) then Some(r) else None
  {
    var all := log + [r];
    LatestIsNewest(log);
    RecentFacts(log);
    RecentAfterAppend(log, r);
    GetOfAppend(log, r, r.taskId);
    GetAcrossCompaction(all, limits, r.taskId);
    CompactionKeepsExactly(all, limits, r);
    var latest := Recent(all);
    RecentFacts(all);
    assert latest[0] == r && latest[..0] == [];
    assert Kept(latest, 0, limits) <==> RoomForNewest(r, limits);
    assert forall i :: 0 <= i < |latest| && latest[i] == r ==> i == 0;
  }

  /** A task written under a strict clock survives the compaction that may follow at once. */
  lemma NewestSurvives(log: seq<TaskRecord>, r: TaskRecord, oversize: bool, limits: Limits)
    requires NonNegative(limits) && limits.recent >= 1
    requires forall x :: x in log ==> x.updatedAt < r.updatedAt
    ensures Get(Appended(log, r, oversize, limits), r.taskId) == Some(r)
    ensures forall x :: x in Appended(log, r, oversize, limits) ==> x == r || x in log
  {
    NewestSurvivesIff(log, r, oversize, limits);
    SelectWithinLog(log + [r], limits);
  }

  // ---------- Exactly which clocks hide compaction ----------

  function At(id: string, now: int): TaskRecord {
    TaskRecord(id, now, now, "planned", "", [], "", "")
  }

  /** Task b at the first time, then task a up to the time with index `at` and a compaction there, then
      task b again. */
  function RevealingStepAt(k: nat, now: int, at: nat): Step {
    Do(Create(if k == 0 || k > at then "b" else "a", ""), now, k == at)
  }

  function Revealing(times: seq<int>, at: nat): seq<Step> {
    seq(|times|, k requires 0 <= k < |times| => RevealingStepAt(k, times[k], at))
  }

  lemma RevealingPrefix(times: seq<int>, at: nat, n: nat)
    requires n <= |times|
    ensures Revealing(times, at)[..n] == Revealing(times[..n], at)
  {
  }

  lemma {:induction false} RevealingTimes(times: seq<int>, at: nat)
    ensures Times(Revealing(times, at)) == times
  {
    if times != [] {
      var n := |times| - 1;
      var steps := Revealing(times, at);
      RevealingTimes(times[..n], at);
      RevealingPrefix(times, at, n);
      assert times[..n] + [times[n]] == times;
    }
  }

  lemma LatestOfOne(r: TaskRecord)
    ensures Latest([] + [r]) == [r]
  {
    assert [] + [r] == [r] && [r][..0] == [];
    assert Latest([]) == [];
  }

  /** The dictionary of such a run, before its compaction. */
  lemma {:induction false} BeforeCompaction(times: seq<int>, at: nat, limits: Limits, compacting: bool)
    requires 1 <= |times| <= at
    ensures Run(Revealing(times, at), limits, compacting).Some?
    ensures Latest(Run(Revealing(times, at), limits, compacting).value)
         == [At("b", times[0])] + if |times| == 1 then [] else [At("a", times[|times| - 1])]
  {
    var n := |times| - 1;
    if n == 0 {
      assert Run(Revealing(times[..n], at), limits, compacting) == Some([]);
      RevealingStep(times, at, limits, compacting);
      LatestOfOne(At("b", times[0]));
    } else {
      BeforeCompaction(times[..n], at, limits, compacting);
      RevealingStep(times, at, limits, compacting);
      PutSecond(Run(Revealing(times[..n], at), limits, compacting).value, At("a", times[n]));
    }
  }

  lemma RevealingStep(times: seq<int>, at: nat, limits: Limits, compacting: bool)
    requires 1 <= |times| <= at && Run(Revealing(times[..|times| - 1], at), limits, compacting).Some?
    ensures var n := |times| - 1;
            Run(Revealing(times, at), limits, compacting)
            == Some(Run(Revealing(times[..n], at), limits, compacting).value
                    + [At(if n == 0 then "b" else "a", times[n])])
  {
    var n := |times| - 1;
    RevealingPrefix(times, at, n);
  }

  lemma PutSecond(log: seq<TaskRecord>, r: TaskRecord)
    requires 1 <= |Latest(log)| <= 2 && Latest(log)[0].taskId != r.taskId
    requires |Latest(log)| == 2 ==> Latest(log)[1].taskId == r.taskId
    ensures Latest(log + [r]) == [Latest(log)[0], r]
  {
    var d := Latest(log);
    assert (log + [r])[..|log|] == log;
    assert Put(d, r) == [d[0]] + Put(d[1..], r);
    assert Put(d[1..], r) == [r] + if |d| == 2 then d[1..][1..] else [];
  }

  lemma SortPair(x: TaskRecord, y: TaskRecord, desc: bool)
    ensures Sort([x, y], desc) == if Rank(x, desc) <= Rank(y, desc) then [x, y] else [y, x]
  {
    assert [x, y][1..] == [y] && [y][1..] == [];
    assert Sort([y], desc) == [y];
    assert Insert(x, [], desc) == [x];
  }

  /** With room for one recent task, only the newer of two tasks survives. */
  lemma SelectNewer(log: seq<TaskRecord>, x: TaskRecord, y: TaskRecord)
    requires Latest(log) == [x, y] && x.updatedAt < y.updatedAt
    ensures Select(log, Limits(1, 0, 0)) == [y]
  {
    SortPair(x, y, true);
    assert Recent(log) == [y, x] && Take(Recent(log), 1) == [y];
    assert forall s: seq<TaskRecord>, d :: PutAll(d, Take(s, 0)) == d by {
      forall s: seq<TaskRecord>, d ensures PutAll(d, Take(s, 0)) == d {
        assert Take(s, 0) == [];
      }
    }
    assert [y][..0] == [] && PutAll([], [y]) == [y];
    assert [y][1..] == [] && Sort([y], false) == [y];
  }

  /** Whenever two operations share an instant that is not the first, some run with exactly these times
      shows another most recent task than a log that never compacts: the rewritten file has lost the
      order of first appearance that breaks the tie. */
  lemma TiesRevealCompaction(times: seq<int>, at: nat)
    requires NonDecreasing(times) && at + 1 < |times| && times[0] != times[at] == times[at + 1]
    ensures !Invisible(Revealing(times[..at + 2], at), Limits(1, 0, 0))
  {
    RevealingEnd(times[..at + 2], at, true);
    RevealingEnd(times[..at + 2], at, false);
    var (a, b) := (At("a", times[at]), At("b", times[at]));
    assert Take([a, b], 1)[0] != Take([b, a], 1)[0];
  }

  lemma RevealingEnd(times: seq<int>, at: nat, compacting: bool)
    requires 1 <= at && |times| == at + 2 && times[0] < times[at] == times[at + 1]
    ensures var run := Run(Revealing(times, at), Limits(1, 0, 0), compacting);
            var (a, b) := (At("a", times[at]), At("b", times[at]));
            run.Some? && Recent(run.value) == if compacting then [a, b] else [b, a]
  {
    var (first, a, b) := (At("b", times[0]), At("a", times[at]), At("b", times[at]));
    var log := RevealingCompacted(times[..at + 1], at, compacting);
    RevealingPrefix(times, at, at + 1);
    var next := if compacting then [a] else log + [a];
    assert Run(Revealing(times, at), Limits(1, 0, 0), compacting) == Some(next + [b]);
    LatestAgain(log + [a], first, a, b);
    SortPair(b, a, true);
    SortPair(a, b, true);
  }

  lemma RevealingCompacted(times: seq<int>, at: nat, compacting: bool) returns (log: seq<TaskRecord>)
    requires 1 <= at && |times| == at + 1 && times[0] < times[at]
    ensures var a := At("a", times[at]);
            && Run(Revealing(times, at), Limits(1, 0, 0), compacting) == Some(if compacting then [a] else log + [a])
            && Latest(log + [a]) == [At("b", times[0]), a]
  {
    BeforeCompaction(times[..at], at, Limits(1, 0, 0), compacting);
    RevealingPrefix(times, at, at);
    log := Run(Revealing(times[..at], at), Limits(1, 0, 0), compacting).value;
    PutSecond(log, At("a", times[at]));
    SelectNewer(log + [At("a", times[at])], At("b", times[0]), At("a", times[at]));
  }

  lemma LatestAgain(log: seq<TaskRecord>, first: TaskRecord, a: TaskRecord, b: TaskRecord)
    requires Latest(log) == [first, a] && first.taskId == b.taskId != a.taskId
    ensures Latest(log + [b]) == [b, a] && Latest([a] + [b]) == [a, b]
  {
    assert (log + [b])[..|log|] == log && [first, a][1..] == [a];
    assert [a, b][..1] == [a] && [a][..0] == [];
    assert PutAll([], [a][..0]) == [] && Latest([a]) == [a];
    assert Put([a], b) == [a] + Put([], b);
  }

  /** The exact condition on the clock. For times that never run backwards: compaction is invisible in
      every run whose operations take place at a prefix of these times, whatever they do, wherever
      compactions fall and whatever the limits, if and only if no two successive times coincide except
      at the first instant. */
  lemma InvisibleIff(times: seq<int>)
    requires NonDecreasing(times)
    ensures (forall steps, limits :: Times(steps) <= times && NonNegative(limits) ==> Invisible(steps, limits))
       <==> OnlyFirstRepeats(times)
  {
    if OnlyFirstRepeats(times) {
      forall steps, limits | Times(steps) <= times && NonNegative(limits) ensures Invisible(steps, limits) {
        CompactionInvisible(steps, limits);
      }
    } else {
      var i :| 0 <= i < |times| - 1 && times[i] == times[i + 1] && times[i] != times[0];
      TiesRevealCompaction(times, i);
      RevealingTimes(times[..i + 2], i);
    }
  }
}
