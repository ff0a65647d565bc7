/**
 The single active-action slot shared by the move, pick and place servers and by the stop service.
 Goals run on several threads; each touches the slot only under the node's lock, in a claim that
 tests and sets and in a `finally` that clears.
 */
module ArmSlot {

  /** The claim under the lock: refused while the slot is taken, otherwise the slot takes the action's name. */
  predicate Free(active: string) {
    active == ""
  }

  // ---------- Every interleaving ----------

  datatype Phase = Arrived | Holding | Busy | Finished

  datatype Goal = Goal(name: string, phase: Phase)

  datatype State = State(active: string, goals: map<nat, Goal>)

  datatype Step =
    | Arrive(g: nat, name: string)   // a goal is accepted on some thread
    | GiveUp(g: nat)                  // it returns before the claim: invalid request, backend missing, nothing to do
    | Claim(g: nat)                   // the locked test-and-set
    | Finally(g: nat)                 // the locked clear, however the motion ended
    | Stop                            // a stop request reads the slot

  const INITIAL := State("", map[])

  predicate Enabled(s: State, step: Step) {
    match step
    case Arrive(g, _) => g !in s.goals
    case GiveUp(g) => g in s.goals && s.goals[g].phase == Arrived
    case Claim(g) => g in s.goals && s.goals[g].phase == Arrived
    case Finally(g) => g in s.goals && s.goals[g].phase == Holding
    case Stop => true
  }

  /** A step that is not enabled changes nothing. */
  function Next(s: State, step: Step): State {
    if !Enabled(s, step) then s
    else
      match step
      case Arrive(g, name) => s.(goals := s.goals[g := Goal(name, Arrived)])
      case GiveUp(g) => s.(goals := s.goals[g := s.goals[g].(phase := Finished)])
      case Claim(g) =>
        if Free(s.active) then State(s.goals[g].name, s.goals[g := s.goals[g].(phase := Holding)])
        else s.(goals := s.goals[g := s.goals[g].(phase := Busy)])
      case Finally(g) => State("", s.goals[g := s.goals[g].(phase := Finished)])
      case Stop => s
  }

  function Run(steps: seq<Step>): State {
    if steps == [] then INITIAL else Next(Run(steps[..|steps| - 1]), steps[|steps| - 1])
  }

  /** The node's slot. Each method is one critical section, and does what the step of the goal that runs it
      does to the slot. */
  class ActionSlot {
    var active: string

    ghost predicate Is(s: State)
      reads this
    {
      active == s.active
    }

    constructor ()
      ensures Is(INITIAL)
    {
      active := "";
    }

    /** The test-and-set; the answer says whether the goal now holds the slot or is refused as busy. */
    method Claim(ghost s: State, ghost g: nat, name: string) returns (claimed: bool)
      requires Is(s) && Enabled(s, Step.Claim(g)) && s.goals[g].name == name
      modifies this
      ensures Is(Next(s, Step.Claim(g)))
      ensures claimed <==> Holds(Next(s, Step.Claim(g)), g)
      ensures !claimed <==> Next(s, Step.Claim(g)).goals[g].phase == Busy
    {
      if active != "" {
        return false;
      }
      active := name;
      return true;
    }

    /** The clear in `finally`. */
    method Clear(ghost s: State, ghost g: nat)
      requires Is(s) && Enabled(s, Finally(g))
      modifies this
      ensures Is(Next(s, Finally(g)))
    {
      active := "";
    }

    /** What the stop service sees: whether there is anything to stop. In an exclusive state that is so
        exactly while some goal holds the slot. */
    method Read(ghost s: State) returns (name: string)
      requires Is(s)
      ensures Is(Next(s, Stop)) && name == s.active
      ensures Exclusive(s) ==> (name != "" <==> exists g :: Holds(s, g))
    {
      return active;
    }
  }

  /** Every goal that arrives runs one of the allowed actions. */
  ghost predicate NamedFrom(steps: seq<Step>, allowed: set<string>) {
    forall i :: 0 <= i < |steps| && steps[i].Arrive? ==> steps[i].name in allowed
  }

  predicate Holds(s: State, g: nat) {
    g in s.goals && s.goals[g].phase == Holding
  }

  /** The slot is non-empty exactly while a goal is between its claim and its `finally`, no two goals
      are there at once, and the slot names the one that is. */
  ghost predicate Exclusive(s: State) {
    && (s.active != "" <==> exists g :: Holds(s, g))
    && (forall g :: Holds(s, g) ==> s.active == s.goals[g].name)
    && (forall g, h :: Holds(s, g) && Holds(s, h) ==> g == h)
  }

  ghost predicate Named(s: State) {
    forall g :: g in s.goals ==> s.goals[g].name != ""
  }

  lemma StepKeepsExclusive(s: State, step: Step)
    requires Exclusive(s) && Named(s)
    requires step.Arrive? ==> step.name != ""
    ensures Exclusive(Next(s, step)) && Named(Next(s, step))
  {
    if Enabled(s, step) {
      var t := Next(s, step);
      forall g ensures Holds(t, g) <==> (Holds(s, g) && step != Finally(g)) || (step == Claim(g) && Free(s.active)) {
      }
      if step.Claim? && Free(s.active) {
        assert Holds(t, step.g);
      }
      if g :| Holds(s, g) {
        assert step == Finally(g) || Holds(t, g);
      }
    }
  }

  lemma {:induction false} RunIsExclusive(steps: seq<Step>, allowed: set<string>)
    requires NamedFrom(steps, allowed) && "" !in allowed
    ensures Exclusive(Run(steps)) && Named(Run(steps))
  {
    if steps != [] {
      RunIsExclusive(steps[..|steps| - 1], allowed);
      StepKeepsExclusive(Run(steps[..|steps| - 1]), steps[|steps| - 1]);
    }
  }

  /** Two goals running an action without a name both pass the claim. */
  lemma NamelessGoalsCollide()
    ensures NamedFrom(Collision(), {""}) && Holds(Run(Collision()), 0) && Holds(Run(Collision()), 1)
  {
    var all := Collision();
    var waiting, holding := Goal("", Arrived), Goal("", Holding);
    assert all[..3][..2] == all[..2] && all[..2][..1] == all[..1] && all[..1][..0] == [];
    assert Run(all[..1]) == State("", map[0 := waiting]);
    assert Run(all[..2]) == State("", map[0 := waiting, 1 := waiting]);
    assert Run(all[..3]) == State("", map[0 := holding, 1 := waiting]);
  }

  function Collision(): seq<Step> {
    [Arrive(0, ""), Arrive(1, ""), Claim(0), Claim(1)]
  }

  /** Over every interleaving, the slot excludes if and only if the empty string is not an allowed action
      name: an action of that name would claim the slot without anybody noticing. */
  lemma ExclusionIff(allowed: set<string>)
    ensures (forall steps :: NamedFrom(steps, allowed) ==> Exclusive(Run(steps))) <==> "" !in allowed
  {
    if "" in allowed {
      NamelessGoalsCollide();
      assert NamedFrom(Collision(), allowed);
      assert !Exclusive(Run(Collision()));
    } else {
      forall steps | NamedFrom(steps, allowed) ensures Exclusive(Run(steps)) {
        RunIsExclusive(steps, allowed);
      }
    }
  }

  /** From its claim to its `finally` a goal keeps the slot: whatever the others and the stop service do
      in between, the slot still names it. */
  lemma {:induction false} HolderKeepsSlot(before: seq<Step>, during: seq<Step>, g: nat, allowed: set<string>)
    requires NamedFrom(before + during, allowed) && "" !in allowed
    requires Holds(Run(before), g) && Finally(g) !in during
    ensures Holds(Run(before + during), g) && Run(before + during).goals[g] == Run(before).goals[g]
    ensures Run(before + during).active == Run(before).active == Run(before).goals[g].name
    decreases |during|
  {
    RunIsExclusive(before + during, allowed);
    if during == [] {
      assert before + during == before;
    } else {
      var n := |during| - 1;
      assert (before + during)[..|before| + n] == before + during[..n];
      HolderKeepsSlot(before, during[..n], g, allowed);
      assert during[n] in during;
    }
  }

  /** A goal that was refused as busy, or is over, stays so: it never clears the slot again. */
  lemma {:induction false} RefusedStaysRefused(before: seq<Step>, after: seq<Step>, g: nat)
    requires g in Run(before).goals && Run(before).goals[g].phase in {Busy, Finished}
    ensures g in Run(before + after).goals && Run(before + after).goals[g] == Run(before).goals[g]
    ensures !Enabled(Run(before + after), Finally(g)) && !Enabled(Run(before + after), Claim(g))
    decreases |after|
  {
    if after == [] {
      assert before + after == before;
    } else {
      var n := |after| - 1;
      assert (before + after)[..|before| + n] == before + after[..n];
      RefusedStaysRefused(before, after[..n], g);
    }
  }

  /** The slot frees up only by the `finally` of the goal that it names. */
  lemma OnlyHolderClears(steps: seq<Step>, step: Step, allowed: set<string>)
    requires NamedFrom(steps, allowed) && "" !in allowed
    requires step.Arrive? ==> step.name in allowed
    requires Run(steps).active != Next(Run(steps), step).active
    ensures step.Claim? || step.Finally?
    ensures step.Finally? ==> Holds(Run(steps), step.g) && Run(steps).goals[step.g].name == Run(steps).active
    ensures step.Claim? ==> Run(steps).active == "" && Next(Run(steps), step).active == Run(steps).goals[step.g].name
  {
    RunIsExclusive(steps, allowed);
  }
}
