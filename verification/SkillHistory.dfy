/**
 What the answers a call was given make of it. `Heard` collects the answers of the gates, the safety
 check and the backend that reached a call, in order; the theorems say, for every run, which outcome
 they force, down to the fields of the audit and syscall records.
 */
module SkillHistory {
  import opened Wrappers
  import opened SkillCalls
  import opened SkillExecution
  import L = Leases
  import C = Cancellation

  /** The inputs that took effect on the call, in order. */
  function Heard(lifecycle: bool, steps: seq<Step>, k: CallKey): seq<Input> {
    if steps == [] then []
    else
      var (front, last) := (steps[..|steps| - 1], steps[|steps| - 1]);
      Heard(lifecycle, front, k)
      + if last.Advance? && last.key == k && Enabled(CallOf(Run(lifecycle, front), k), last.input) then [last.input]
        else []
  }

  /** The call ended with the exception `e`, and its result fields are as given except for the one the
      exception denies. */
  ghost predicate EndedBy(c: Call, e: Raised, permission: string, safety: string, lock: string, executed: bool) {
    && c.phase in {Settled, Returned} && c.result.Some? && !c.result.value.success && c.executing.Some? == executed
    && c.status == (match e
                    case SkillTimeout => "timeout"
                    case Unexpected => "failed"
                    case _ => "rejected")
    && c.result.value.errorCode == (match e
                                    case PermissionDenied(code) => code
                                    case SafetyRejected(code) => code
                                    case ResourceLocked => "RESOURCE_LOCKED"
                                    case SchemaInvalid => "SCHEMA_INVALID"
                                    case SkillTimeout => "SKILL_TIMEOUT"
                                    case Unexpected => "UNEXPECTED_ERROR")
    && c.permission == (if e.PermissionDenied? then "denied" else permission)
    && c.safety == (if e.SafetyRejected? then "denied" else safety)
    && c.lock == (if e.ResourceLocked? then "denied" else lock)
  }

  /** The call was killed from outside while it waited: no result. */
  ghost predicate Stopped(c: Call, executed: bool) {
    c.phase in {Settled, Returned} && c.result.None? && c.executing.Some? == executed
  }

  ghost predicate At(c: Call, phase: Phase, permission: string, safety: string, lock: string) {
    c.phase == phase && c.result.None? && c.permission == permission && c.safety == safety && c.lock == lock
  }

  /** The backend answered: a plain yes succeeds, a plain no fails with the backend's own error code, which
      also decides between cancelled, timeout and failed, and anything else is an invalid result. */
  ghost predicate Answered(c: Call, raw: Raw, safety: string, lock: string) {
    && c.phase in {Settled, Returned} && c.result.Some? && c.executing.Some?
    && c.permission == "allowed" && c.safety == safety && c.lock == lock
    && c.result.value.success == SaysYes(raw)
    && (SaysYes(raw) ==> c.status == "succeeded" && c.result.value.errorCode == "")
    && (SaysNo(raw) ==>
          var code := if raw.errorCode == "" then "SKILL_BACKEND_FAILED" else raw.errorCode;
          && c.result.value.errorCode == code
          && (c.status == "cancelled" <==> code in {"SKILL_CANCELLED", "HUMAN_CANCELLED"})
          && (c.status == "timeout" <==> code in {"SKILL_TIMEOUT", "NAVIGATION_TIMEOUT"})
          && c.status in {"cancelled", "timeout", "failed"})
    && (!SaysYes(raw) && !SaysNo(raw) ==> c.status == "failed" && c.result.value.errorCode == "SKILL_RESULT_INVALID")
  }

  // ---------- The story of a call, stretch by stretch ----------

  /** Once the backend was called. */
  ghost predicate AfterDispatch(heard: seq<Input>, n: nat, c: Call, safety: string, lock: string) {
    && c.executing == Some(SyscallRecord(EXECUTING, "allowed", safety, lock, "", ""))
    && if |heard| <= n then |heard| == n && At(c, Dispatching, "allowed", safety, lock)
       else
         && heard[n].HearsBackend?
         && match heard[n].reply
            case Answer(raw) => Answered(c, raw, safety, lock)
            case Raise(e) => EndedBy(c, e, "allowed", safety, lock, true)
            case Killed => Stopped(c, true)
  }

  /** Once every gate had said yes. */
  ghost predicate AfterGates(heard: seq<Input>, n: nat, c: Call, skill: Skill, safety: string) {
    if |heard| <= n then |heard| == n && At(c, Ready, "allowed", safety, "not_required") && c.executing.None?
    else
      var lock := if skill.locks == [] then "not_required" else "locked";
      && heard[n].Launches?
      && if c.executing.None?
         then
           || EndedBy(c, ResourceLocked, "allowed", safety, "not_required", false)
           || (!heard[n].timeoutValid && EndedBy(c, Unexpected, "allowed", safety, lock, false))
         else heard[n].timeoutValid && AfterDispatch(heard, n + 1, c, safety, lock)
  }

  ghost predicate AfterAccess(heard: seq<Input>, c: Call, skill: Skill)
    requires |heard| >= 2
  {
    if !skill.safetyRequired then AfterGates(heard, 2, c, skill, "not_required")
    else if |heard| == 2
    then At(c, AwaitSafety, "allowed", "not_required", "not_required") && c.executing.None?
    else
      && heard[2].HearsSafety?
      && match heard[2].safety
         case Answer(Success(_)) => AfterGates(heard, 3, c, skill, "allowed")
         case Answer(Failure(code)) =>
           EndedBy(c, SafetyRejected(code), "allowed", "not_required", "not_required", false)
         case Raise(e) => EndedBy(c, e, "allowed", "not_required", "not_required", false)
         case Killed => Stopped(c, false)
  }

  /** The whole story of a call whose skill was found: the first gate that refuses decides its end, and
      otherwise the lock loop, the time limit and the backend do. */
  ghost predicate Story(heard: seq<Input>, c: Call)
    requires c.skill.Some?
  {
    var skill := c.skill.value;
    && |heard| >= 1 && heard[0].Enters? && heard[0].agent == c.agent && heard[0].found == c.skill
    && if |heard| == 1
       then At(c, Queued, "not_checked", "not_required", "not_required") && c.executing.None?
       else
         && heard[1].PassesGates?
         && var gates := heard[1];
            if gates.schema.Some?
            then EndedBy(c, gates.schema.value, "not_checked", "not_required", "not_required", false)
            else if gates.permission.Some?
            then EndedBy(c, gates.permission.value, "not_checked", "not_required", "not_required", false)
            else if skill.accessRequired && gates.access.Some?
            then EndedBy(c, gates.access.value, "allowed", "not_required", "not_required", false)
            else AfterAccess(heard, c, skill)
  }

  lemma GatesTold(sh: Shared, heard: seq<Input>, c: Call, k: CallKey, input: Input)
    requires c.skill.Some? && Story(heard, c) && c.phase == Queued && input.PassesGates?
    ensures var c1 := React(sh, Some(c), k, input).call; c1.skill == c.skill && Story(heard + [input], c1)
  {
    assert |heard| == 1;
  }

  lemma SafetyTold(sh: Shared, heard: seq<Input>, c: Call, k: CallKey, input: Input)
    requires c.skill.Some? && Story(heard, c) && c.phase == AwaitSafety && input.HearsSafety?
    ensures var c1 := React(sh, Some(c), k, input).call; c1.skill == c.skill && Story(heard + [input], c1)
  {
    assert |heard| == 2;
  }

  lemma LaunchTold(sh: Shared, heard: seq<Input>, c: Call, k: CallKey, input: Input)
    requires c.skill.Some? && Story(heard, c) && c.phase == Ready && input.Launches? && L.Agrees(sh.table)
    ensures var c1 := React(sh, Some(c), k, input).call; c1.skill == c.skill && Story(heard + [input], c1)
  {
    var skill := c.skill.value;
    L.AcquireAllFacts(sh.table, skill.locks, k, c.agent);
    assert |heard| == if skill.safetyRequired then 3 else 2;
    assert (heard + [input])[|heard|] == input;
  }

  lemma ReplyAnswered(sh: Shared, c: Call, raw: Raw)
    requires c.permission == "allowed" && c.executing.Some?
    ensures var c1 := DispatchReply(sh, c, Answer(raw)).call;
            c1.skill == c.skill && c1.executing == c.executing && Answered(c1, raw, c.safety, c.lock)
  {
  }

  lemma ReplyRaised(sh: Shared, c: Call, e: Raised)
    requires c.permission == "allowed" && c.executing.Some?
    ensures var c1 := DispatchReply(sh, c, Raise(e)).call;
            && c1.skill == c.skill && c1.executing == c.executing && c1.agent == c.agent
            && EndedBy(c1, e, "allowed", c.safety, c.lock, true)
  {
  }

  lemma ReplyTold(sh: Shared, heard: seq<Input>, c: Call, k: CallKey, input: Input)
    requires c.skill.Some? && Story(heard, c) && c.phase == Dispatching && input.HearsBackend?
    ensures var c1 := React(sh, Some(c), k, input).call; c1.skill == c.skill && Story(heard + [input], c1)
  {
    assert |heard| == if c.skill.value.safetyRequired then 4 else 3;
    assert (heard + [input])[|heard|] == input;
    match input.reply {
      case Answer(raw) => ReplyAnswered(sh, c, raw);
      case Raise(e) => ReplyRaised(sh, c, e);
      case Killed =>
    }
  }

  lemma FinishTold(sh: Shared, heard: seq<Input>, c: Call, k: CallKey, input: Input)
    requires c.skill.Some? && Story(heard, c) && c.phase == Settled && input.Finishes?
    ensures var c1 := React(sh, Some(c), k, input).call; c1.skill == c.skill && Story(heard + [input], c1)
  {
    assert forall i :: 0 <= i < |heard| ==> (heard + [input])[i] == heard[i];
  }

  ghost predicate Told(heard: seq<Input>, c: Option<Call>) {
    match c
    case None => heard == []
    case Some(c) => c.skill.Some? ==> Story(heard, c)
  }

  lemma ReactTold(sh: Shared, heard: seq<Input>, c: Option<Call>, k: CallKey, input: Input)
    requires Enabled(c, input) && Told(heard, c) && L.Agrees(sh.table)
    requires c.Some? && c.value.skill.None? ==> c.value.phase == Returned
    ensures Told(heard + [input], Some(React(sh, c, k, input).call))
  {
    match input {
      case Enters(_, _, _, _) => assert heard + [input] == [input];
      case PassesGates(_, _, _) => GatesTold(sh, heard, c.value, k, input);
      case HearsSafety(_) => SafetyTold(sh, heard, c.value, k, input);
      case Launches(_) => LaunchTold(sh, heard, c.value, k, input);
      case HearsBackend(_) => ReplyTold(sh, heard, c.value, k, input);
      case Finishes => FinishTold(sh, heard, c.value, k, input);
    }
  }

  lemma WorldFacts(w: World, k: CallKey)
    requires Inv(w)
    ensures L.Agrees(w.table)
    ensures k in w.calls && w.calls[k].skill.None? ==> w.calls[k].phase == Returned
  {
    assert k in w.calls ==> CallOf(w, k) == Some(w.calls[k]);
  }

  lemma NextTold(w: World, step: Step, k: CallKey, heard: seq<Input>)
    requires Inv(w) && Told(heard, CallOf(w, k))
    ensures var acts := step.Advance? && step.key == k && Enabled(CallOf(w, k), step.input);
            Told(heard + if acts then [step.input] else [], CallOf(Next(w, step), k))
  {
    if step.Advance? && step.key == k && Enabled(CallOf(w, k), step.input) {
      WorldFacts(w, k);
      ReactTold(SharedOf(w), heard, CallOf(w, k), k, step.input);
      assert CallOf(Next(w, step), k) == Some(React(SharedOf(w), CallOf(w, k), k, step.input).call);
    } else {
      assert heard + [] == heard;
      assert CallOf(Next(w, step), k) == CallOf(w, k);
    }
  }

  lemma {:induction false} RunTold(lifecycle: bool, steps: seq<Step>, k: CallKey)
    ensures Told(Heard(lifecycle, steps, k), CallOf(Run(lifecycle, steps), k))
  {
    if steps != [] {
      var front := steps[..|steps| - 1];
      RunTold(lifecycle, front, k);
      RunInv(lifecycle, front);
      NextTold(Run(lifecycle, front), steps[|steps| - 1], k, Heard(lifecycle, front, k));
    }
  }

  /** In every run, the answers a call has heard decide where it stands, how it ended, and every field of
      its result and of the records made from it. */
  lemma AnswersDecide(lifecycle: bool, steps: seq<Step>, k: CallKey)
    requires var w := Run(lifecycle, steps); k in w.calls && w.calls[k].skill.Some?
    ensures Story(Heard(lifecycle, steps, k), Run(lifecycle, steps).calls[k])
  {
    RunTold(lifecycle, steps, k);
  }

  predicate Allows(input: Input) {
    input.HearsSafety? && input.safety.Answer? && input.safety.value.Success?
  }

  /** No dispatch without every gate's yes: if a call was dispatched, its schema, permission and, where
      required, access check raised nothing, its safety check, where required, answered that it is allowed,
      and its time limit was a number. */
  lemma DispatchNeedsEveryYes(lifecycle: bool, steps: seq<Step>, k: CallKey)
    requires Dispatched in Of(Run(lifecycle, steps).events, k)
    ensures var (w, heard) := (Run(lifecycle, steps), Heard(lifecycle, steps, k));
            && k in w.calls && w.calls[k].skill.Some?
            && var skill := w.calls[k].skill.value;
               var n := if skill.safetyRequired then 3 else 2;
               && |heard| > n && heard[1].PassesGates? && heard[1].schema.None? && heard[1].permission.None?
               && (skill.accessRequired ==> heard[1].access.None?)
               && (skill.safetyRequired ==> Allows(heard[2]))
               && heard[n] == Launches(true)
  {
    DispatchedCall(lifecycle, steps, k);
    RunTold(lifecycle, steps, k);
    ExecutedNeedsEveryYes(Heard(lifecycle, steps, k), Run(lifecycle, steps).calls[k]);
  }

  lemma ExecutedNeedsEveryYes(heard: seq<Input>, c: Call)
    requires c.skill.Some? && Story(heard, c) && c.executing.Some?
    ensures var skill := c.skill.value;
            var n := if skill.safetyRequired then 3 else 2;
            && |heard| > n && heard[1].PassesGates? && heard[1].schema.None? && heard[1].permission.None?
            && (skill.accessRequired ==> heard[1].access.None?)
            && (skill.safetyRequired ==> Allows(heard[2]))
            && heard[n] == Launches(true)
  {
  }

  lemma DispatchedCall(lifecycle: bool, steps: seq<Step>, k: CallKey)
    requires Dispatched in Of(Run(lifecycle, steps).events, k)
    ensures var w := Run(lifecycle, steps);
            k in w.calls && w.calls[k].skill.Some? && w.calls[k].executing.Some?
  {
    var w := Run(lifecycle, steps);
    assert CallsInv(w) by {
      RunInv(lifecycle, steps);
    }
    assert Dispatched in LogsOf(w, k).events;
    assert CallOf(w, k).None? ==> LogsOf(w, k) == NO_LOGS;
    NotDispatchedBefore(w.lifecycle, w.calls[k], LogsOf(w, k));
  }

  lemma NotDispatchedBefore(lifecycle: bool, c: Call, logs: Logs)
    requires CallOk(lifecycle, c, logs) && Dispatched in logs.events
    ensures c.skill.Some? && c.executing.Some?
  {
    if c.skill.Some? {
      assert Dispatched !in Cleared(lifecycle, c, c.skill.value);
    }
  }

  /** Conversely, the first gate that refuses ends the call: with the status and code of its exception, that
      gate marked as denied, and never a dispatch. */
  lemma FirstRefusalEnds(lifecycle: bool, steps: seq<Step>, k: CallKey)
    requires var w := Run(lifecycle, steps); k in w.calls && w.calls[k].skill.Some?
    requires |Heard(lifecycle, steps, k)| > 1
    ensures var (w, heard) := (Run(lifecycle, steps), Heard(lifecycle, steps, k));
            var c := w.calls[k];
            && heard[1].PassesGates?
            && var (schema, permission, access) := (heard[1].schema, heard[1].permission, heard[1].access);
               var denied := c.skill.value.accessRequired && access.Some?;
               && (schema.Some? ==> EndedBy(c, schema.value, "not_checked", "not_required", "not_required", false))
               && (schema.None? && permission.Some? ==>
                     EndedBy(c, permission.value, "not_checked", "not_required", "not_required", false))
               && (schema.None? && permission.None? && denied ==>
                     EndedBy(c, access.value, "allowed", "not_required", "not_required", false))
               && (schema.None? && permission.None? && !denied && c.skill.value.safetyRequired && |heard| > 2 ==>
                     heard[2].HearsSafety? && (heard[2].safety.Answer? && heard[2].safety.value.Failure? ==>
                       EndedBy(c, SafetyRejected(heard[2].safety.value.error),
                               "allowed", "not_required", "not_required", false)))
               && (schema.Some? || permission.Some? || denied ==> Dispatched !in Of(w.events, k))
  {
    var w := Run(lifecycle, steps);
    RunTold(lifecycle, steps, k);
    if Dispatched in Of(w.events, k) {
      DispatchNeedsEveryYes(lifecycle, steps, k);
    }
  }

  // ---------- The lock loop ----------

  /** In every run, a call that has passed its gates is dispatched by its next stretch if and only if its
      time limit is a number and each of its locks is its own already or leased to nobody and held by nobody
      in the arbiter. Otherwise it is refused: as locked if a lock is taken, and else as unexpected. */
  lemma DispatchesIff(lifecycle: bool, steps: seq<Step>, k: CallKey, timeoutValid: bool)
    requires Enabled(CallOf(Run(lifecycle, steps), k), Launches(timeoutValid))
    ensures var (w, w1) := (Run(lifecycle, steps), Next(Run(lifecycle, steps), Advance(k, Launches(timeoutValid))));
            var free := forall r :: r in w.calls[k].skill.value.locks ==>
                          if r in w.table.leases then w.table.leases[r].Key() == k else r !in w.table.arbiter;
            && k in w1.calls
            && (w1.calls[k].phase == Dispatching <==> timeoutValid && free)
            && (!free ==> w1.calls[k].lock == "denied" && w1.calls[k].status == "rejected")
            && (free && !timeoutValid ==> w1.calls[k].lock != "denied" && w1.calls[k].status == "failed")
  {
    var w := Run(lifecycle, steps);
    var c := w.calls[k];
    assert CallOf(w, k) == Some(c);
    RunTold(lifecycle, steps, k);
    ReadyLock(Heard(lifecycle, steps, k), c);
    LaunchOutcome(SharedOf(w), c, k, timeoutValid);
    assert Next(w, Advance(k, Launches(timeoutValid))).calls[k] == Launch(SharedOf(w), c, k, timeoutValid).call;
  }

  lemma LaunchOutcome(sh: Shared, c: Call, k: CallKey, timeoutValid: bool)
    requires c.skill.Some? && c.lock == "not_required"
    ensures var free := forall r :: r in c.skill.value.locks ==>
                          if r in sh.table.leases then sh.table.leases[r].Key() == k else r !in sh.table.arbiter;
            var c1 := Launch(sh, c, k, timeoutValid).call;
            && (c1.phase == Dispatching <==> timeoutValid && free)
            && (!free ==> c1.lock == "denied" && c1.status == "rejected")
            && (free && !timeoutValid ==> c1.lock != "denied" && c1.status == "failed")
  {
    L.GrantedIff(sh.table, c.skill.value.locks, k, c.agent);
  }

  lemma ReadyLock(heard: seq<Input>, c: Call)
    requires c.skill.Some? && Story(heard, c) && c.phase == Ready
    ensures c.lock == "not_required"
  {
  }

  // ---------- The end of a call ----------

  /** In every run, the `finally` block of a call forgets its call event and gives back what it acquired:
      afterwards no event is stored under its key and no lease is its own. */
  lemma FinishForgets(lifecycle: bool, steps: seq<Step>, k: CallKey, r: string)
    requires Enabled(CallOf(Run(lifecycle, steps), k), Finishes)
    ensures var w1 := Next(Run(lifecycle, steps), Advance(k, Finishes));
            && k in w1.calls && w1.calls[k].phase == Returned
            && k !in w1.cancel.calls && !L.Holds(w1.table, r, k)
  {
    var w := Run(lifecycle, steps);
    var more := steps + [Advance(k, Finishes)];
    assert more[..|steps|] == steps;
    assert Run(lifecycle, more) == Next(w, Advance(k, Finishes));
    ApplyClear(w.cancel, k);
    NoLeaseLeft(lifecycle, more, k, r);
  }

  lemma ApplyClear(cs: C.CancelState, k: CallKey)
    ensures k !in C.ApplyAll(cs, [C.ClearCall(k.0, k.1)]).calls
  {
    assert [C.ClearCall(k.0, k.1)][1..] == [];
  }
}
