/**
 The lease table of the skill executor and the device arbiter behind it.
 The arbiter maps a resource to its owner, grants a resource only while nobody holds it, and releases
 only for the owner. Other clients may share it.
 */
module Leases {
  import opened Wrappers

  datatype Lease = Lease(session: string, call: string, agent: string) {
    function Key(): CallKey { (session, call) }
  }

  datatype Table = Table(leases: map<string, Lease>, arbiter: map<string, string>)

  const EMPTY_TABLE := Table(map[], map[])

  /** The owner name the executor uses with the arbiter. */
  function Owner(key: CallKey): string {
    key.0 + ":" + key.1
  }

  /** The arbiter grants only what nobody holds, not even the same owner. */
  predicate Grants(arbiter: map<string, string>, r: string) {
    r !in arbiter
  }

  function ArbiterRelease(arbiter: map<string, string>, r: string, owner: string): map<string, string> {
    if r in arbiter && arbiter[r] == owner then arbiter - {r} else arbiter
  }

  /** `acquire`: the table afterwards, and whether the resource is now leased to the call. */
  function AcquireIn(t: Table, r: string, key: CallKey, agent: string): (Table, bool) {
    if r in t.leases then (t, t.leases[r].Key() == key)
    else if Grants(t.arbiter, r) then
      (Table(t.leases[r := Lease(key.0, key.1, agent)], t.arbiter[r := Owner(key)]), true)
    else (t, false)
  }

  function ReleaseIn(t: Table, r: string, key: CallKey): Table {
    if r in t.leases && t.leases[r].Key() == key
    then Table(t.leases - {r}, ArbiterRelease(t.arbiter, r, Owner(key)))
    else t
  }

  /** The lock loop of `execute`: the table, the resources acquired before the first refusal, and
      whether all were granted. */
  function AcquireAllIn(t: Table, locks: seq<string>, key: CallKey, agent: string): (Table, seq<string>, bool)
    decreases |locks|
  {
    if locks == [] then (t, [], true)
    else
      var (t1, ok) := AcquireIn(t, locks[0], key, agent);
      if !ok then (t1, [], false)
      else var (t2, got, all) := AcquireAllIn(t1, locks[1..], key, agent); (t2, [locks[0]] + got, all)
  }

  /** The release loop of `execute`'s `finally`. */
  function ReleaseAllIn(t: Table, acquired: seq<string>, key: CallKey): Table
    decreases |acquired|
  {
    if acquired == [] then t else ReleaseAllIn(ReleaseIn(t, acquired[0], key), acquired[1..], key)
  }

  /** Drops the given leases, whoever holds them, and gives their resources back to the arbiter. */
  function Revoke(t: Table, chosen: set<string>): Table {
    Table(t.leases - chosen,
          map r | r in t.arbiter && !(r in chosen && r in t.leases && t.arbiter[r] == Owner(t.leases[r].Key()))
            :: t.arbiter[r])
  }

  function OfSession(t: Table, session: string): set<string> {
    set r | r in t.leases && t.leases[r].session == session
  }

  function OfAgent(t: Table, agent: string): set<string> {
    set r | r in t.leases && t.leases[r].agent == agent
  }

  // ---------- The table agrees with the arbiter ----------

  ghost predicate Agrees(t: Table) {
    forall r :: r in t.leases ==> r in t.arbiter && t.arbiter[r] == Owner(t.leases[r].Key())
  }

  /** Which resources are leased to a call. */
  ghost predicate Holds(t: Table, r: string, key: CallKey) {
    r in t.leases && t.leases[r].Key() == key
  }

  /** What the lock loop does: a prefix of the locks is granted, all of them unless one was refused;
      the granted ones are leased to the call, and no other lease changes. */
  lemma {:induction false} AcquireAllFacts(t: Table, locks: seq<string>, key: CallKey, agent: string)
    requires Agrees(t)
    ensures var (t1, got, all) := AcquireAllIn(t, locks, key, agent);
            && Agrees(t1) && got <= locks && (all <==> got == locks)
            && (forall r :: r in t.leases ==> r in t1.leases && t1.leases[r] == t.leases[r])
            && (forall r :: r in got ==> Holds(t1, r, key))
            && (forall r :: r in t1.leases && r !in t.leases ==> r in got && t1.leases[r] == Lease(key.0, key.1, agent))
    decreases |locks|
  {
    if locks != [] {
      var (t1, ok) := AcquireIn(t, locks[0], key, agent);
      if ok {
        assert Agrees(t1) && Holds(t1, locks[0], key);
        AcquireAllFacts(t1, locks[1..], key, agent);
        assert locks == [locks[0]] + locks[1..];
      }
    }
  }

  /** In the arbiter the lock loop adds the granted resources and changes nothing else. */
  lemma {:induction false} AcquireAllArbiter(t: Table, locks: seq<string>, key: CallKey, agent: string)
    requires Agrees(t)
    ensures var (t1, got, _) := AcquireAllIn(t, locks, key, agent);
            && t.arbiter.Keys <= t1.arbiter.Keys
            && (forall r :: r in t1.arbiter && r !in t.arbiter ==> r in got)
            && (forall r :: r in got && r !in t.leases ==> r !in t.arbiter)
            && (forall r :: r in t.arbiter ==> t1.arbiter[r] == t.arbiter[r])
    decreases |locks|
  {
    if locks != [] {
      var (t1, ok) := AcquireIn(t, locks[0], key, agent);
      if ok {
        AcquireAllArbiter(t1, locks[1..], key, agent);
      }
    }
  }

  /** The lock loop stops only at a resource that someone else has leased or holds in the arbiter. */
  lemma {:induction false} RefusedOnlyIfTaken(t: Table, locks: seq<string>, key: CallKey, agent: string)
    ensures var (t1, got, all) := AcquireAllIn(t, locks, key, agent);
            !all ==> |got| < |locks| && var r := locks[|got|];
                     if r in t1.leases then t1.leases[r].Key() != key else r in t1.arbiter
    decreases |locks|
  {
    if locks != [] {
      var (t1, ok) := AcquireIn(t, locks[0], key, agent);
      if ok {
        RefusedOnlyIfTaken(t1, locks[1..], key, agent);
      }
    }
  }

  /** The lock loop gets everything if and only if each lock is the call's own already, or leased to nobody
      and held by nobody in the arbiter. */
  lemma {:induction false} GrantedIff(t: Table, locks: seq<string>, key: CallKey, agent: string)
    ensures AcquireAllIn(t, locks, key, agent).2
       <==> forall r :: r in locks ==> if r in t.leases then t.leases[r].Key() == key else r !in t.arbiter
    decreases |locks|
  {
    if locks != [] {
      assert forall r :: r in locks <==> r == locks[0] || r in locks[1..];
      var (t1, ok) := AcquireIn(t, locks[0], key, agent);
      if ok {
        GrantedIff(t1, locks[1..], key, agent);
      }
    }
  }

  /** What the release loop does: exactly the call's own leases on the listed resources go. */
  lemma {:induction false} ReleaseAllFacts(t: Table, acquired: seq<string>, key: CallKey)
    requires Agrees(t)
    ensures var t1 := ReleaseAllIn(t, acquired, key);
            && Agrees(t1)
            && (forall r :: r in t1.leases <==> r in t.leases && !(r in acquired && Holds(t, r, key)))
            && (forall r :: r in t1.leases ==> t1.leases[r] == t.leases[r])
            && (forall r :: r in t1.arbiter <==> r in t.arbiter && !(r in acquired && Holds(t, r, key)))
            && (forall r :: r in t1.arbiter ==> t1.arbiter[r] == t.arbiter[r])
    decreases |acquired|
  {
    if acquired != [] {
      ReleaseAllFacts(ReleaseIn(t, acquired[0], key), acquired[1..], key);
      assert forall r :: r in acquired <==> r == acquired[0] || r in acquired[1..];
    }
  }

  lemma RevokeFacts(t: Table, chosen: set<string>)
    requires Agrees(t) && chosen <= t.leases.Keys
    ensures Agrees(Revoke(t, chosen))
    ensures Revoke(t, chosen).arbiter == t.arbiter - chosen
  {
  }

  /** A forced release by session: exactly the leases of that session are gone, and their resources are out
      of the arbiter; every other lease and every other entry of the arbiter is as before. */
  lemma SessionRevoked(t: Table, session: string)
    requires Agrees(t)
    ensures var t1 := Revoke(t, OfSession(t, session));
            && Agrees(t1)
            && (forall r :: r in t1.leases <==> r in t.leases && t.leases[r].session != session)
            && (forall r :: r in t1.leases ==> t1.leases[r] == t.leases[r])
            && (forall r :: r in t1.arbiter <==> r in t.arbiter && !(r in t.leases && t.leases[r].session == session))
            && (forall r :: r in t1.arbiter ==> t1.arbiter[r] == t.arbiter[r])
  {
    RevokeFacts(t, OfSession(t, session));
  }

  /** A forced release by agent, likewise. */
  lemma AgentRevoked(t: Table, agent: string)
    requires Agrees(t)
    ensures var t1 := Revoke(t, OfAgent(t, agent));
            && Agrees(t1)
            && (forall r :: r in t1.leases <==> r in t.leases && t.leases[r].agent != agent)
            && (forall r :: r in t1.leases ==> t1.leases[r] == t.leases[r])
            && (forall r :: r in t1.arbiter <==> r in t.arbiter && !(r in t.leases && t.leases[r].agent == agent))
            && (forall r :: r in t1.arbiter ==> t1.arbiter[r] == t.arbiter[r])
  {
    RevokeFacts(t, OfAgent(t, agent));
  }

  /** A late release by a call that lost its lease never touches the lease of anyone else, nor the
      arbiter's record of it. */
  lemma LateReleaseHarmless(t: Table, acquired: seq<string>, late: CallKey, r: string)
    requires Agrees(t) && r in t.leases && t.leases[r].Key() != late
    ensures var t1 := ReleaseAllIn(t, acquired, late);
            && r in t1.leases && t1.leases[r] == t.leases[r]
            && r in t1.arbiter && t1.arbiter[r] == t.arbiter[r]
  {
    ReleaseAllFacts(t, acquired, late);
  }

  /** Locking and releasing again restores the lease table and the arbiter, however far the lock loop
      got, if and only if the call held none of the granted resources before. */
  lemma LocksConservedIff(t: Table, locks: seq<string>, key: CallKey, agent: string)
    requires Agrees(t)
    ensures var (t1, got, _) := AcquireAllIn(t, locks, key, agent);
            ReleaseAllIn(t1, got, key) == t <==> forall r :: r in got ==> r !in t.leases
  {
    var (t1, got, _) := AcquireAllIn(t, locks, key, agent);
    var t2 := ReleaseAllIn(t1, got, key);
    AcquireAllFacts(t, locks, key, agent);
    ReleaseAllFacts(t1, got, key);
    if forall r :: r in got ==> r !in t.leases {
      LocksRestored(t, t1, t2, got, locks, key, agent);
    } else {
      var r :| r in got && r in t.leases;
      assert r !in t2.leases;
    }
  }

  lemma LocksRestored(t: Table, t1: Table, t2: Table, got: seq<string>, locks: seq<string>, key: CallKey, agent: string)
    requires Agrees(t) && t1 == AcquireAllIn(t, locks, key, agent).0 && got == AcquireAllIn(t, locks, key, agent).1
    requires t2 == ReleaseAllIn(t1, got, key) && forall r :: r in got ==> r !in t.leases
    ensures t2 == t
  {
    AcquireAllFacts(t, locks, key, agent);
    AcquireAllArbiter(t, locks, key, agent);
    ReleaseAllFacts(t1, got, key);
    forall r ensures r in t2.leases <==> r in t.leases {
      assert r in t.leases ==> t1.leases[r] == t.leases[r];
    }
    assert t2.leases == t.leases;
    assert forall r :: r in t2.arbiter <==> r in t1.arbiter && r !in got;
    assert t2.arbiter == t.arbiter;
  }

  /** So a call whose key holds no lease leaves no trace. */
  lemma LocksConserved(t: Table, locks: seq<string>, key: CallKey, agent: string)
    requires Agrees(t) && forall r :: !Holds(t, r, key)
    ensures var (t1, got, _) := AcquireAllIn(t, locks, key, agent);
            ReleaseAllIn(t1, got, key) == t
  {
    var (t1, got, all) := AcquireAllIn(t, locks, key, agent);
    AcquireAllFacts(t, locks, key, agent);
    LocksConservedIff(t, locks, key, agent);
    forall r | r in got ensures r !in t.leases {
      assert Holds(t1, r, key) && !Holds(t, r, key);
    }
  }

  /** The arbiter is shared. A release by another client keeps the table in agreement exactly when it
      does not use the owner name under which the executor leases that resource. */
  lemma ForeignReleaseIff(t: Table, r: string, owner: string)
    requires Agrees(t)
    ensures Agrees(t.(arbiter := ArbiterRelease(t.arbiter, r, owner)))
       <==> !(r in t.leases && Owner(t.leases[r].Key()) == owner)
  {
  }

  /** Two calls under one key share a lease: the first to finish takes it from the other. This is why
      the pairs of session and call id must be distinct. */
  lemma SharedKeyLosesLease(r: string, key: CallKey, agent: string)
    ensures var (t1, first) := AcquireIn(EMPTY_TABLE, r, key, agent);
            var (t2, second) := AcquireIn(t1, r, key, agent);
            first && second && !Holds(ReleaseIn(t2, r, key), r, key)
  {
  }

  // ---------- The classes ----------

  class DeviceArbiter {
    var owners: map<string, string>

    constructor ()
      ensures owners == map[]
    {
      owners := map[];
    }

    method Acquire(r: string, owner: string) returns (success: bool)
      modifies this
      ensures success <==> r !in old(owners)
      ensures owners == if success then old(owners)[r := owner] else old(owners)
    {
      success := r !in owners;
      if success {
        owners := owners[r := owner];
      }
    }

    method Release(r: string, owner: string)
      modifies this
      ensures owners == ArbiterRelease(old(owners), r, owner)
    {
      if r in owners && owners[r] == owner {
        owners := owners - {r};
      }
    }
  }

  datatype ResourceLocked = ResourceLocked(resource: string)

  class ResourceManager {
    const kernel: DeviceArbiter
    var leases: map<string, Lease>

    ghost function State(): Table
      reads this, kernel
    {
      Table(leases, kernel.owners)
    }

    constructor ()
      ensures State() == EMPTY_TABLE && fresh(kernel)
    {
      kernel := new DeviceArbiter();
      leases := map[];
    }

    method Acquire(r: string, session: string, call: string, agent: string) returns (res: Result<Lease, ResourceLocked>)
      modifies this, kernel
      ensures (State(), res.Success?) == AcquireIn(old(State()), r, (session, call), agent)
      ensures res.Success? ==> r in leases && res.value == leases[r]
      ensures res.Success? <==>
                if r in old(leases) then old(leases)[r].session == session && old(leases)[r].call == call
                else r !in old(kernel.owners)
      ensures leases == if r !in old(leases) && res.Success? then old(leases)[r := Lease(session, call, agent)]
                        else old(leases)
      ensures kernel.owners == if r !in old(leases) && res.Success? then old(kernel.owners)[r := session + ":" + call]
                               else old(kernel.owners)
    {
      if r in leases {
        var existing := leases[r];
        if existing.session != session || existing.call != call {
          return Failure(ResourceLocked(r));
        }
        return Success(existing);
      }
      var granted := kernel.Acquire(r, Owner((session, call)));
      if !granted {
        return Failure(ResourceLocked(r));
      }
      var lease := Lease(session, call, agent);
      leases := leases[r := lease];
      return Success(lease);
    }

    method Release(r: string, session: string, call: string)
      modifies this, kernel
      ensures State() == ReleaseIn(old(State()), r, (session, call))
      ensures leases == if r in old(leases) && old(leases)[r].session == session && old(leases)[r].call == call
                        then old(leases) - {r} else old(leases)
    {
      if r in leases && leases[r].session == session && leases[r].call == call {
        kernel.Release(r, Owner((session, call)));
        leases := leases - {r};
      }
    }

    /** The lock loop of `execute`, which stops at the first refusal. */
    method AcquireAll(locks: seq<string>, session: string, call: string, agent: string)
      returns (acquired: seq<string>, refused: bool)
      modifies this, kernel
      ensures (State(), acquired, !refused) == AcquireAllIn(old(State()), locks, (session, call), agent)
    {
      acquired, refused := [], false;
      ghost var key := (session, call);
      ghost var outcome := AcquireAllIn(State(), locks, key, agent);
      assert locks[0..] == locks && [] + outcome.1 == outcome.1;
      for i := 0 to |locks|
        invariant |acquired| == i && !refused
        invariant var (t, got, all) := AcquireAllIn(State(), locks[i..], key, agent);
                  AcquireAllIn(old(State()), locks, key, agent) == (t, acquired + got, all)
      {
        assert locks[i..][1..] == locks[i + 1..];
        var lease := Acquire(locks[i], session, call, agent);
        if lease.Failure? {
          refused := true;
          assert acquired + [] == acquired;
          return;
        }
        ghost var got := AcquireAllIn(State(), locks[i + 1..], key, agent).1;
        assert acquired + ([locks[i]] + got) == (acquired + [locks[i]]) + got;
        acquired := acquired + [locks[i]];
      }
      assert acquired + [] == acquired;
    }

    /** The release loop of `execute`'s `finally`. */
    method ReleaseAll(acquired: seq<string>, session: string, call: string)
      modifies this, kernel
      ensures State() == ReleaseAllIn(old(State()), acquired, (session, call))
    {
      for i := 0 to |acquired|
        invariant ReleaseAllIn(State(), acquired[i..], (session, call))
               == ReleaseAllIn(old(State()), acquired, (session, call))
      {
        assert acquired[i..][1..] == acquired[i + 1..];
        Release(acquired[i], session, call);
      }
    }

    method ReleaseBySession(session: string)
      modifies this, kernel
      ensures State() == Revoke(old(State()), OfSession(old(State()), session))
      ensures forall r :: r in leases <==> r in old(leases) && old(leases)[r].session != session
      ensures forall r :: r in leases ==> leases[r] == old(leases)[r]
      ensures old(Agrees(State())) ==> forall r :: r in kernel.owners <==>
                r in old(kernel.owners) && !(r in old(leases) && old(leases)[r].session == session)
      ensures forall r :: r in kernel.owners ==> r in old(kernel.owners) && kernel.owners[r] == old(kernel.owners[r])
    {
      ghost var chosen := OfSession(State(), session);
      RevokeNothing(State());
      var items := leases;
      var todo := leases.Keys;
      ghost var done: set<string> := {};
      while todo != {}
        invariant todo <= items.Keys && items == old(leases)
        invariant done == chosen - todo
        invariant State() == Revoke(old(State()), done)
        decreases todo
      {
        var r :| r in todo;
        if items[r].session == session {
          RevokeOneMore(old(State()), done, r);
          kernel.Release(r, Owner(items[r].Key()));
          leases := leases - {r};
          done := done + {r};
        }
        todo := todo - {r};
      }
      assert done == chosen;
    }

    method ReleaseByAgent(agent: string)
      modifies this, kernel
      ensures State() == Revoke(old(State()), OfAgent(old(State()), agent))
      ensures forall r :: r in leases <==> r in old(leases) && old(leases)[r].agent != agent
      ensures forall r :: r in leases ==> leases[r] == old(leases)[r]
      ensures old(Agrees(State())) ==> forall r :: r in kernel.owners <==>
                r in old(kernel.owners) && !(r in old(leases) && old(leases)[r].agent == agent)
      ensures forall r :: r in kernel.owners ==> r in old(kernel.owners) && kernel.owners[r] == old(kernel.owners[r])
    {
      ghost var chosen := OfAgent(State(), agent);
      RevokeNothing(State());
      var items := leases;
      var todo := leases.Keys;
      ghost var done: set<string> := {};
      while todo != {}
        invariant todo <= items.Keys && items == old(leases)
        invariant done == chosen - todo
        invariant State() == Revoke(old(State()), done)
        decreases todo
      {
        var r :| r in todo;
        if items[r].agent == agent {
          RevokeOneMore(old(State()), done, r);
          kernel.Release(r, Owner(items[r].Key()));
          leases := leases - {r};
          done := done + {r};
        }
        todo := todo - {r};
      }
      assert done == chosen;
    }
  }

  lemma RevokeNothing(t: Table)
    ensures Revoke(t, {}) == t
  {
    assert Revoke(t, {}).leases == t.leases && Revoke(t, {}).arbiter == t.arbiter;
  }

  lemma RevokeOneMore(t: Table, done: set<string>, r: string)
    requires r in t.leases && r !in done
    ensures var t1 := Revoke(t, done);
            Revoke(t, done + {r}) == Table(t1.leases - {r}, ArbiterRelease(t1.arbiter, r, Owner(t.leases[r].Key())))
  {
    var t1, t2 := Revoke(t, done), Revoke(t, done + {r});
    assert t2.leases == t1.leases - {r};
    assert t2.arbiter == ArbiterRelease(t1.arbiter, r, Owner(t.leases[r].Key()));
  }
}
