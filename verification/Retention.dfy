/**
 Task records, the stable sorts and insertion-ordered dictionaries the task log is built on, and
 the retention rule that decides which records a compaction keeps.
 */
module Retention {
  import opened Wrappers

  datatype Agent = Agent(agentId: string, role: string, sessionId: string, status: string)

  /** The fields of a task record that its transitions or the retention rule read or write.
      Time stamps are abstract integers. */
  datatype TaskRecord = TaskRecord(
    taskId: string,
    createdAt: int,
    updatedAt: int,
    status: string,
    dispatcherSession: string,
    selectedAgents: seq<Agent>,
    errorCode: string,
    reason: string)

  datatype Limits = Limits(recent: int, failed: int, rejected: int)

  ghost predicate NonNegative(limits: Limits) {
    limits.recent >= 0 && limits.failed >= 0 && limits.rejected >= 0
  }

  // ---------- Python's slices and stable sorts ----------

  /** `s[:n]`, which for a negative `n` drops the last `-n` elements. */
  function Take(s: seq<TaskRecord>, n: int): (r: seq<TaskRecord>)
    ensures r <= s
    ensures n >= 0 ==> |r| == if n <= |s| then n else |s|
    ensures n < 0 ==> |r| == if |s| + n >= 0 then |s| + n else 0
  {
    if n >= |s| then s
    else if n >= 0 then s[..n]
    else if |s| + n >= 0 then s[..|s| + n]
    else []
  }

  /** The sort key: `updated_at`, negated for `reverse=True` so that equal keys keep their order. */
  function Rank(r: TaskRecord, desc: bool): int {
    if desc then -r.updatedAt else r.updatedAt
  }

  function Insert(x: TaskRecord, s: seq<TaskRecord>, desc: bool): seq<TaskRecord> {
    if s == [] || Rank(x, desc) <= Rank(s[0], desc) then [x] + s
    else [s[0]] + Insert(x, s[1..], desc)
  }

  /** `sorted(s, key=updated_at, reverse=desc)`. */
  function Sort(s: seq<TaskRecord>, desc: bool): seq<TaskRecord> {
    if s == [] then [] else Insert(s[0], Sort(s[1..], desc), desc)
  }

  ghost predicate Ordered(s: seq<TaskRecord>, desc: bool) {
    forall i, j :: 0 <= i < j < |s| ==> Rank(s[i], desc) <= Rank(s[j], desc)
  }

  /** The records with time stamp `v`, in the order they have in `s`. */
  ghost function Ties(s: seq<TaskRecord>, v: int): seq<TaskRecord> {
    if s == [] then []
    else (if s[0].updatedAt == v then [s[0]] else []) + Ties(s[1..], v)
  }

  /** What a stable sort is, without saying how: ordered, and equal keys keep their relative order. */
  ghost predicate IsStableSort(s: seq<TaskRecord>, t: seq<TaskRecord>, desc: bool) {
    && Ordered(t, desc)
    && forall v :: Ties(t, v) == Ties(s, v)
  }

  function WithStatus(s: seq<TaskRecord>, status: string): seq<TaskRecord> {
    if s == [] then []
    else (if s[0].status == status then [s[0]] else []) + WithStatus(s[1..], status)
  }

  function Without(s: seq<TaskRecord>, id: string): seq<TaskRecord> {
    if s == [] then []
    else (if s[0].taskId == id then [] else [s[0]]) + Without(s[1..], id)
  }

  lemma TiesCons(x: TaskRecord, s: seq<TaskRecord>, v: int)
    ensures Ties([x] + s, v) == (if x.updatedAt == v then [x] else []) + Ties(s, v)
  {
    assert ([x] + s)[1..] == s;
  }

  lemma {:induction false} TiesConcat(a: seq<TaskRecord>, b: seq<TaskRecord>, v: int)
    ensures Ties(a + b, v) == Ties(a, v) + Ties(b, v)
  {
    if a == [] {
      assert a + b == b;
    } else {
      assert (a + b)[1..] == a[1..] + b;
      TiesConcat(a[1..], b, v);
      var head := if a[0].updatedAt == v then [a[0]] else [];
      assert (head + Ties(a[1..], v)) + Ties(b, v) == head + (Ties(a[1..], v) + Ties(b, v));
    }
  }

  lemma {:induction false} WithStatusConcat(a: seq<TaskRecord>, b: seq<TaskRecord>, st: string)
    ensures WithStatus(a + b, st) == WithStatus(a, st) + WithStatus(b, st)
  {
    if a == [] {
      assert a + b == b;
    } else {
      assert (a + b)[1..] == a[1..] + b;
      WithStatusConcat(a[1..], b, st);
      var head := if a[0].status == st then [a[0]] else [];
      assert (head + WithStatus(a[1..], st)) + WithStatus(b, st) == head + (WithStatus(a[1..], st) + WithStatus(b, st));
    }
  }

  lemma {:induction false} WithStatusMembers(s: seq<TaskRecord>, st: string)
    ensures forall r :: r in WithStatus(s, st) <==> r in s && r.status == st
  {
    if s != [] {
      WithStatusMembers(s[1..], st);
    }
  }

  lemma {:induction false} WithoutMembers(s: seq<TaskRecord>, id: string)
    ensures forall r :: r in Without(s, id) <==> r in s && r.taskId != id
  {
    if s != [] {
      WithoutMembers(s[1..], id);
    }
  }

  lemma {:induction false} TiesMembers(s: seq<TaskRecord>, v: int)
    ensures forall r :: r in Ties(s, v) <==> r in s && r.updatedAt == v
  {
    if s != [] {
      TiesMembers(s[1..], v);
    }
  }

  lemma {:induction false} TiesOfStatus(s: seq<TaskRecord>, st: string, v: int)
    ensures Ties(WithStatus(s, st), v) == WithStatus(Ties(s, v), st)
  {
    if s != [] {
      TiesOfStatus(s[1..], st, v);
      TiesConcat(if s[0].status == st then [s[0]] else [], WithStatus(s[1..], st), v);
      WithStatusConcat(if s[0].updatedAt == v then [s[0]] else [], Ties(s[1..], v), st);
    }
  }

  lemma {:induction false} WithoutConcat(a: seq<TaskRecord>, b: seq<TaskRecord>, id: string)
    ensures Without(a + b, id) == Without(a, id) + Without(b, id)
  {
    if a == [] {
      assert a + b == b;
    } else {
      assert (a + b)[1..] == a[1..] + b;
      WithoutConcat(a[1..], b, id);
      var head := if a[0].taskId == id then [] else [a[0]];
      assert (head + Without(a[1..], id)) + Without(b, id) == head + (Without(a[1..], id) + Without(b, id));
    }
  }

  lemma {:induction false} TiesOfWithout(s: seq<TaskRecord>, id: string, v: int)
    ensures Ties(Without(s, id), v) == Without(Ties(s, v), id)
  {
    if s != [] {
      TiesOfWithout(s[1..], id, v);
      TiesConcat(if s[0].taskId == id then [] else [s[0]], Without(s[1..], id), v);
      WithoutConcat(if s[0].updatedAt == v then [s[0]] else [], Ties(s[1..], v), id);
    }
  }

  /** Filtering keeps a sequence ordered. */
  lemma {:induction false} OrderedFilters(s: seq<TaskRecord>, st: string, id: string, desc: bool)
    requires Ordered(s, desc)
    ensures Ordered(WithStatus(s, st), desc) && Ordered(Without(s, id), desc)
  {
    if s != [] {
      OrderedFilters(s[1..], st, id, desc);
      WithStatusMembers(s[1..], st);
      WithoutMembers(s[1..], id);
      forall r | r in s[1..] ensures Rank(s[0], desc) <= Rank(r, desc) {
      }
      OrderedCons(s[0], WithStatus(s[1..], st), desc);
      OrderedCons(s[0], Without(s[1..], id), desc);
      assert [] + WithStatus(s[1..], st) == WithStatus(s[1..], st) && [] + Without(s[1..], id) == Without(s[1..], id);
    }
  }

  lemma OrderedCons(x: TaskRecord, s: seq<TaskRecord>, desc: bool)
    requires Ordered(s, desc) && forall r :: r in s ==> Rank(x, desc) <= Rank(r, desc)
    ensures Ordered([x] + s, desc)
  {
    assert forall i :: 0 < i < |[x] + s| ==> ([x] + s)[i] == s[i - 1] && s[i - 1] in s;
  }

  lemma {:induction false} InsertStable(x: TaskRecord, s: seq<TaskRecord>, desc: bool)
    requires Ordered(s, desc)
    ensures IsStableSort([x] + s, Insert(x, s, desc), desc)
    ensures forall r :: r in Insert(x, s, desc) <==> r == x || r in s
  {
    if s == [] || Rank(x, desc) <= Rank(s[0], desc) {
    } else {
      var rest := Insert(x, s[1..], desc);
      InsertStable(x, s[1..], desc);
      forall v ensures Ties([s[0]] + rest, v) == Ties([x] + s, v) {
        TiesCons(s[0], rest, v);
        TiesCons(x, s[1..], v);
        TiesCons(x, s, v);
        assert [] + Ties(s[1..], v) == Ties(s[1..], v);
      }
      OrderedCons(s[0], rest, desc);
    }
  }

  /** The insertion sort used here is a stable sort. */
  lemma {:induction false} SortIsStable(s: seq<TaskRecord>, desc: bool)
    ensures IsStableSort(s, Sort(s, desc), desc)
    ensures forall r :: r in Sort(s, desc) <==> r in s
  {
    if s != [] {
      var rest := Sort(s[1..], desc);
      SortIsStable(s[1..], desc);
      InsertStable(s[0], rest, desc);
      forall v ensures Ties(Sort(s, desc), v) == Ties(s, v) {
        TiesCons(s[0], rest, v);
      }
    }
  }

  lemma HeadRanksFirst(t: seq<TaskRecord>, u: seq<TaskRecord>, desc: bool)
    requires Ordered(u, desc) && |t| > 0
    requires forall v :: Ties(t, v) == Ties(u, v)
    ensures |u| > 0 && Rank(u[0], desc) <= Rank(t[0], desc)
  {
    var v := t[0].updatedAt;
    assert Ties(t, v)[0] == t[0];
    TiesMembers(u, v);
    assert t[0] in Ties(u, v);
    var i :| 0 <= i < |u| && u[i] == t[0];
  }

  lemma HeadIsLeast(t: seq<TaskRecord>, u: seq<TaskRecord>, desc: bool)
    requires Ordered(t, desc) && Ordered(u, desc) && |t| > 0
    requires forall v :: Ties(t, v) == Ties(u, v)
    ensures |u| > 0 && u[0] == t[0]
  {
    HeadRanksFirst(t, u, desc);
    HeadRanksFirst(u, t, desc);
    var v := t[0].updatedAt;
    assert u[0].updatedAt == v;
    assert Ties(t, v)[0] == t[0] && Ties(u, v)[0] == u[0];
  }

  /** A sequence has only one stable sort, so `Sort` is Python's `sorted`, ties included. */
  lemma {:induction false} StableSortUnique(s: seq<TaskRecord>, t: seq<TaskRecord>, u: seq<TaskRecord>, desc: bool)
    requires IsStableSort(s, t, desc) && IsStableSort(s, u, desc)
    ensures t == u
    decreases |t|
  {
    if t == [] {
      if u != [] {
        HeadIsLeast(u, t, desc);
      }
    } else {
      HeadIsLeast(t, u, desc);
      forall v ensures Ties(t[1..], v) == Ties(u[1..], v) {
        assert Ties(t[1..], v) == Ties(t, v)[if t[0].updatedAt == v then 1 else 0..];
        assert Ties(u[1..], v) == Ties(u, v)[if u[0].updatedAt == v then 1 else 0..];
      }
      StableSortUnique(t[1..], t[1..], u[1..], desc);
    }
  }

  lemma SortOfOrdered(s: seq<TaskRecord>, desc: bool)
    requires Ordered(s, desc)
    ensures Sort(s, desc) == s
  {
    SortIsStable(s, desc);
    StableSortUnique(s, Sort(s, desc), s, desc);
  }

  /** Sorting one way first never changes what sorting another way gives. */
  lemma SortOfSort(s: seq<TaskRecord>, first: bool, desc: bool)
    ensures Sort(Sort(s, first), desc) == Sort(s, desc)
  {
    SortIsStable(s, first);
    SortIsStable(s, desc);
    SortIsStable(Sort(s, first), desc);
    StableSortUnique(s, Sort(Sort(s, first), desc), Sort(s, desc), desc);
  }

  lemma SortOfConcat(a: seq<TaskRecord>, b: seq<TaskRecord>, desc: bool)
    requires Ordered(a, desc)
    requires forall x, y :: x in a && y in b ==> Rank(x, desc) <= Rank(y, desc)
    ensures Sort(a + b, desc) == a + Sort(b, desc)
  {
    SortIsStable(b, desc);
    forall v ensures Ties(a + Sort(b, desc), v) == Ties(a + b, v) {
      TiesConcat(a, b, v);
      TiesConcat(a, Sort(b, desc), v);
    }
    SortIsStable(a + b, desc);
    StableSortUnique(a + b, Sort(a + b, desc), a + Sort(b, desc), desc);
  }

  lemma SortOfStatus(s: seq<TaskRecord>, st: string, desc: bool)
    ensures WithStatus(Sort(s, desc), st) == Sort(WithStatus(s, st), desc)
  {
    SortIsStable(s, desc);
    OrderedFilters(Sort(s, desc), st, "", desc);
    forall v ensures Ties(WithStatus(Sort(s, desc), st), v) == Ties(WithStatus(s, st), v) {
      TiesOfStatus(Sort(s, desc), st, v);
      TiesOfStatus(s, st, v);
    }
    SortIsStable(WithStatus(s, st), desc);
    StableSortUnique(WithStatus(s, st), WithStatus(Sort(s, desc), st), Sort(WithStatus(s, st), desc), desc);
  }

  // ---------- Insertion-ordered dictionaries keyed by task id ----------

  ghost predicate UniqueIds(s: seq<TaskRecord>) {
    forall i, j :: 0 <= i < j < |s| ==> s[i].taskId != s[j].taskId
  }

  predicate HasId(s: seq<TaskRecord>, id: string) {
    exists i :: 0 <= i < |s| && s[i].taskId == id
  }

  /** `d[record.task_id] = record`: a known key keeps its position, a new one goes last. */
  function Put(d: seq<TaskRecord>, r: TaskRecord): seq<TaskRecord> {
    if d == [] then [r]
    else if d[0].taskId == r.taskId then [r] + d[1..]
    else [d[0]] + Put(d[1..], r)
  }

  function PutAll(d: seq<TaskRecord>, s: seq<TaskRecord>): seq<TaskRecord> {
    if s == [] then d else Put(PutAll(d, s[..|s| - 1]), s[|s| - 1])
  }

  /** The latest version of every task, in order of first appearance. */
  function Latest(log: seq<TaskRecord>): seq<TaskRecord> {
    PutAll([], log)
  }

  function Lookup(s: seq<TaskRecord>, id: string): Option<TaskRecord> {
    if s == [] then None
    else if s[0].taskId == id then Some(s[0])
    else Lookup(s[1..], id)
  }

  /** The version of a task that was written last: the one a reader must see. */
  ghost function Newest(log: seq<TaskRecord>, id: string): Option<TaskRecord> {
    if log == [] then None
    else if log[|log| - 1].taskId == id then Some(log[|log| - 1])
    else Newest(log[..|log| - 1], id)
  }

  lemma {:induction false} PutFacts(d: seq<TaskRecord>, r: TaskRecord)
    requires UniqueIds(d)
    ensures UniqueIds(Put(d, r))
    ensures forall x :: x in Put(d, r) <==> x == r || (x in d && x.taskId != r.taskId)
    ensures forall id :: Lookup(Put(d, r), id) == if id == r.taskId then Some(r) else Lookup(d, id)
  {
    if d != [] && d[0].taskId != r.taskId {
      PutFacts(d[1..], r);
    }
  }

  lemma {:induction false} PutNew(d: seq<TaskRecord>, r: TaskRecord)
    requires !HasId(d, r.taskId)
    ensures Put(d, r) == d + [r]
  {
    if d != [] {
      assert d[0].taskId != r.taskId;
      forall i | 0 <= i < |d[1..]| ensures d[1..][i].taskId != r.taskId {
        assert d[1..][i] == d[i + 1];
      }
      PutNew(d[1..], r);
    }
  }

  lemma {:induction false} PutSame(d: seq<TaskRecord>, r: TaskRecord)
    requires UniqueIds(d) && r in d
    ensures Put(d, r) == d
  {
    if d[0].taskId == r.taskId {
      assert d[0] == r;
    } else {
      PutSame(d[1..], r);
    }
  }

  lemma {:induction false} PutAllSame(d: seq<TaskRecord>, s: seq<TaskRecord>)
    requires UniqueIds(d) && forall r :: r in s ==> r in d
    ensures PutAll(d, s) == d
  {
    if s != [] {
      PutAllSame(d, s[..|s| - 1]);
      PutSame(d, s[|s| - 1]);
    }
  }

  lemma {:induction false} PutAllNew(d: seq<TaskRecord>, s: seq<TaskRecord>)
    requires UniqueIds(d + s)
    ensures PutAll(d, s) == d + s
  {
    if s == [] {
      assert d + s == d;
    } else {
      var n := |s| - 1;
      assert d + s == (d + s[..n]) + [s[n]];
      assert d + s[..n] == (d + s)[..|d| + n] && s[n] == (d + s)[|d| + n];
      PutAllNew(d, s[..n]);
      PutNew(d + s[..n], s[n]);
    }
  }

  lemma {:induction false} PutAllConcat(d: seq<TaskRecord>, a: seq<TaskRecord>, b: seq<TaskRecord>)
    ensures PutAll(d, a + b) == PutAll(PutAll(d, a), b)
  {
    if b == [] {
      assert a + b == a;
    } else {
      assert (a + b)[..|a + b| - 1] == a + b[..|b| - 1];
      PutAllConcat(d, a, b[..|b| - 1]);
    }
  }

  /** The dictionary view of a log holds, for every id, exactly the version written last. */
  lemma {:induction false} LatestIsNewest(log: seq<TaskRecord>)
    ensures UniqueIds(Latest(log))
    ensures forall id :: Lookup(Latest(log), id) == Newest(log, id)
    ensures forall r :: r in Latest(log) ==> r in log
  {
    if log != [] {
      LatestIsNewest(log[..|log| - 1]);
      PutFacts(Latest(log[..|log| - 1]), log[|log| - 1]);
    }
  }

  lemma {:induction false} LookupFacts(s: seq<TaskRecord>, id: string)
    requires UniqueIds(s)
    ensures forall r :: Lookup(s, id) == Some(r) <==> r in s && r.taskId == id
  {
    if s != [] && s[0].taskId != id {
      LookupFacts(s[1..], id);
    }
  }

  lemma {:induction false} SortKeepsUniqueIds(s: seq<TaskRecord>, desc: bool)
    requires UniqueIds(s)
    ensures UniqueIds(Sort(s, desc)) && |Sort(s, desc)| == |s|
  {
    if s != [] {
      SortKeepsUniqueIds(s[1..], desc);
      SortIsStable(s[1..], desc);
      InsertKeepsUniqueIds(s[0], Sort(s[1..], desc), desc);
    }
  }

  lemma {:induction false} InsertKeepsUniqueIds(x: TaskRecord, s: seq<TaskRecord>, desc: bool)
    requires UniqueIds(s) && forall r :: r in s ==> r.taskId != x.taskId
    ensures UniqueIds(Insert(x, s, desc)) && |Insert(x, s, desc)| == |s| + 1
    ensures forall r :: r in Insert(x, s, desc) <==> r == x || r in s
  {
    if s != [] && Rank(x, desc) > Rank(s[0], desc) {
      var rest := Insert(x, s[1..], desc);
      InsertKeepsUniqueIds(x, s[1..], desc);
      forall i | 0 <= i < |rest| ensures rest[i].taskId != s[0].taskId {
        assert rest[i] in rest;
      }
    }
  }

  // ---------- The recent view and the retention rule ----------

  /** The latest version of every task, most recently updated first. */
  function Recent(log: seq<TaskRecord>): seq<TaskRecord> {
    Sort(Latest(log), true)
  }

  function Get(log: seq<TaskRecord>, id: string): Option<TaskRecord> {
    Lookup(Recent(log), id)
  }

  lemma RecentFacts(log: seq<TaskRecord>)
    ensures UniqueIds(Recent(log)) && Ordered(Recent(log), true)
    ensures forall r :: r in Recent(log) <==> r in Latest(log)
  {
    LatestIsNewest(log);
    SortIsStable(Latest(log), true);
    SortKeepsUniqueIds(Latest(log), true);
  }

  /** The recent view starts with the task updated last. */
  lemma RecentNewestFirst(log: seq<TaskRecord>, i: nat, j: nat)
    requires i < j < |Recent(log)|
    ensures Recent(log)[i].updatedAt >= Recent(log)[j].updatedAt
  {
    RecentFacts(log);
    assert Rank(Recent(log)[i], true) <= Rank(Recent(log)[j], true);
  }

  /** A reader sees the version written last, never a stale one. */
  lemma GetIsNewest(log: seq<TaskRecord>, id: string)
    ensures Get(log, id) == Newest(log, id)
  {
    RecentFacts(log);
    LatestIsNewest(log);
    LookupFacts(Recent(log), id);
    LookupFacts(Latest(log), id);
    assert forall r :: Get(log, id) == Some(r) <==> Newest(log, id) == Some(r);
    if Get(log, id).Some? {
      assert Newest(log, id) == Some(Get(log, id).value);
    }
  }

  /** The dictionary of selected records, before the final sort. */
  function Selected(latest: seq<TaskRecord>, limits: Limits): seq<TaskRecord> {
    var recent := PutAll([], Take(latest, limits.recent));
    var withFailed := PutAll(recent, Take(WithStatus(latest, "failed"), limits.failed));
    PutAll(withFailed, Take(WithStatus(latest, "rejected"), limits.rejected))
  }

  function Select(log: seq<TaskRecord>, limits: Limits): seq<TaskRecord> {
    Sort(Selected(Recent(log), limits), false)
  }

  /** `select_records_for_retention`, loop by loop. */
  method SelectRecordsForRetention(records: seq<TaskRecord>, limits: Limits) returns (kept: seq<TaskRecord>)
    ensures kept == Select(records, limits)
  {
    var latestById: seq<TaskRecord> := [];
    for i := 0 to |records|
      invariant latestById == PutAll([], records[..i])
    {
      assert records[..i + 1][..i] == records[..i];
      latestById := Put(latestById, records[i]);
    }
    assert records[..|records|] == records;
    var latest := Sort(latestById, true);
    var selected := PutEach([], Take(latest, limits.recent));
    selected := PutEach(selected, Take(WithStatus(latest, "failed"), limits.failed));
    selected := PutEach(selected, Take(WithStatus(latest, "rejected"), limits.rejected));
    kept := Sort(selected, false);
  }

  method PutEach(start: seq<TaskRecord>, records: seq<TaskRecord>) returns (d: seq<TaskRecord>)
    ensures d == PutAll(start, records)
  {
    d := start;
    for i := 0 to |records|
      invariant d == PutAll(start, records[..i])
    {
      assert records[..i + 1][..i] == records[..i];
      d := Put(d, records[i]);
    }
    assert records[..|records|] == records;
  }
}
