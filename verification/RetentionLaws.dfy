/**
 What a compaction keeps: exactly which records survive, that a second compaction changes
 nothing, and what readers see afterwards.
 */
module RetentionLaws {
  import opened Wrappers
  import opened Retention

  /** How many records a take of `n` more leaves once `used` of them were already taken. */
  function Remaining(n: int, used: nat): nat {
    if n <= used then 0 else n - used
  }

  /** The records with a status that the quota reaches although they are not among the recent ones. */
  ghost function Extra(latest: seq<TaskRecord>, cut: nat, status: string, quota: int): seq<TaskRecord>
    requires cut <= |latest|
  {
    Take(WithStatus(latest[cut..], status), Remaining(quota, |WithStatus(latest[..cut], status)|))
  }

  lemma {:induction false} WithStatusKeepsUniqueIds(s: seq<TaskRecord>, st: string)
    requires UniqueIds(s)
    ensures UniqueIds(WithStatus(s, st))
  {
    if s != [] {
      WithStatusKeepsUniqueIds(s[1..], st);
      WithStatusMembers(s[1..], st);
      var rest := WithStatus(s[1..], st);
      forall i | 0 <= i < |rest| ensures rest[i].taskId != s[0].taskId {
        assert rest[i] in rest;
      }
    }
  }

  lemma TakeWithStatus(latest: seq<TaskRecord>, cut: nat, status: string, quota: int)
    requires cut <= |latest| && quota >= 0
    ensures Take(WithStatus(latest, status), quota)
         == Take(WithStatus(latest[..cut], status), quota) + Extra(latest, cut, status, quota)
  {
    assert latest == latest[..cut] + latest[cut..];
    WithStatusConcat(latest[..cut], latest[cut..], status);
    TakeOfConcat(WithStatus(latest[..cut], status), WithStatus(latest[cut..], status), quota);
  }

  lemma TakeOfConcat(a: seq<TaskRecord>, b: seq<TaskRecord>, n: nat)
    ensures Take(a + b, n) == Take(a, n) + Take(b, Remaining(n, |a|))
  {
  }

  lemma UniqueAcross(a: seq<TaskRecord>, b: seq<TaskRecord>)
    requires UniqueIds(a) && UniqueIds(b)
    requires forall x, y :: x in a && y in b ==> x.taskId != y.taskId
    ensures UniqueIds(a + b)
  {
    forall i, j | 0 <= i < j < |a + b| ensures (a + b)[i].taskId != (a + b)[j].taskId {
      if i < |a| <= j {
        assert (a + b)[i] in a && (a + b)[j] in b;
      }
    }
  }

  lemma ExtraFacts(latest: seq<TaskRecord>, cut: nat, status: string, quota: int)
    requires UniqueIds(latest) && Ordered(latest, true) && cut <= |latest|
    ensures UniqueIds(Extra(latest, cut, status, quota)) && Ordered(Extra(latest, cut, status, quota), true)
    ensures forall r :: r in Extra(latest, cut, status, quota) ==> r in latest[cut..] && r.status == status
  {
    WithStatusKeepsUniqueIds(latest[cut..], status);
    WithStatusMembers(latest[cut..], status);
    OrderedFilters(latest[cut..], status, "", true);
    var w := WithStatus(latest[cut..], status);
    forall r | r in Extra(latest, cut, status, quota) ensures r in latest[cut..] && r.status == status {
      assert r in w;
    }
  }

  /** Adding one status group to the selection appends only what the recent cut left out. */
  lemma PutGroup(latest: seq<TaskRecord>, cut: nat, start: seq<TaskRecord>, status: string, quota: int)
    requires UniqueIds(latest) && Ordered(latest, true) && cut <= |latest| && quota >= 0
    requires UniqueIds(start) && latest[..cut] <= start
    requires forall r :: r in start ==> r in latest[..cut] || (r in latest[cut..] && r.status != status)
    ensures PutAll(start, Take(WithStatus(latest, status), quota)) == start + Extra(latest, cut, status, quota)
    ensures UniqueIds(start + Extra(latest, cut, status, quota))
  {
    TakeWithStatus(latest, cut, status, quota);
    ExtraFacts(latest, cut, status, quota);
    var seen := Take(WithStatus(latest[..cut], status), quota);
    var extra := Extra(latest, cut, status, quota);
    PutAllConcat(start, seen, extra);
    WithStatusMembers(latest[..cut], status);
    forall r | r in seen ensures r in start {
      assert r in WithStatus(latest[..cut], status);
    }
    PutAllSame(start, seen);
    forall x, y | x in start && y in extra ensures x.taskId != y.taskId {
      assert y in latest[cut..] && y.status == status;
      if x in latest[..cut] {
        var i :| 0 <= i < cut && latest[i] == x;
        var j :| cut <= j < |latest| && latest[j] == y;
      } else {
        var i :| cut <= i < |latest| && latest[i] == x;
        var j :| cut <= j < |latest| && latest[j] == y;
        assert i != j;
      }
    }
    UniqueAcross(start, extra);
    PutAllNew(start, extra);
  }

  ghost function Cut(latest: seq<TaskRecord>, limits: Limits): nat {
    |Take(latest, limits.recent)|
  }

  /** The three overlapping selections, disentangled: the recent records, then the failed ones and
      then the rejected ones that only their own quota saves. */
  lemma SelectedInGroups(latest: seq<TaskRecord>, limits: Limits)
    requires UniqueIds(latest) && Ordered(latest, true) && NonNegative(limits)
    ensures var cut := Cut(latest, limits);
            Selected(latest, limits) == latest[..cut]
                                        + Extra(latest, cut, "failed", limits.failed)
                                        + Extra(latest, cut, "rejected", limits.rejected)
    ensures UniqueIds(Selected(latest, limits))
  {
    var cut := Cut(latest, limits);
    var recent := latest[..cut];
    assert recent == Take(latest, limits.recent);
    assert [] + recent == recent;
    PutAllNew([], recent);
    PutGroup(latest, cut, recent, "failed", limits.failed);
    var both := recent + Extra(latest, cut, "failed", limits.failed);
    ExtraFacts(latest, cut, "failed", limits.failed);
    forall r | r in both ensures r in latest[..cut] || (r in latest[cut..] && r.status != "rejected") {
      if r !in recent {
        assert r in Extra(latest, cut, "failed", limits.failed);
      }
    }
    PutGroup(latest, cut, both, "rejected", limits.rejected);
  }

  lemma DictOfUnique(s: seq<TaskRecord>)
    requires UniqueIds(s)
    ensures Latest(s) == s
  {
    assert [] + s == s;
    PutAllNew([], s);
  }

  lemma TailRanksLater(latest: seq<TaskRecord>, cut: nat, x: TaskRecord, y: TaskRecord)
    requires Ordered(latest, true) && cut <= |latest| && x in latest[..cut] && y in latest[cut..]
    ensures Rank(x, true) <= Rank(y, true)
  {
    var i :| 0 <= i < cut && latest[i] == x;
    var j :| cut <= j < |latest| && latest[j] == y;
  }

  lemma {:induction false} WithStatusOfOwn(s: seq<TaskRecord>, status: string)
    requires forall r :: r in s ==> r.status == status
    ensures WithStatus(s, status) == s
    decreases |s|
  {
    if s != [] {
      WithStatusOfOwn(s[1..], status);
    }
  }

  lemma {:induction false} WithStatusOfOther(s: seq<TaskRecord>, status: string)
    requires forall r :: r in s ==> r.status != status
    ensures WithStatus(s, status) == []
  {
    if s != [] {
      WithStatusOfOther(s[1..], status);
    }
  }

  lemma SortOfGroups(latest: seq<TaskRecord>, cut: nat, extra: seq<TaskRecord>)
    requires Ordered(latest, true) && cut <= |latest|
    requires forall r :: r in extra ==> r in latest[cut..]
    ensures Sort(latest[..cut] + extra, true) == latest[..cut] + Sort(extra, true)
  {
    forall x, y | x in latest[..cut] && y in extra ensures Rank(x, true) <= Rank(y, true) {
      TailRanksLater(latest, cut, x, y);
    }
    SortOfConcat(latest[..cut], extra, true);
  }

  lemma RecentOfRewritten(chosen: seq<TaskRecord>)
    requires UniqueIds(chosen)
    ensures Recent(Sort(chosen, false)) == Sort(chosen, true)
    ensures UniqueIds(Sort(chosen, false))
    ensures forall r :: r in Sort(chosen, false) <==> r in chosen
  {
    SortIsStable(chosen, false);
    SortKeepsUniqueIds(chosen, false);
    DictOfUnique(Sort(chosen, false));
    SortOfSort(chosen, false, true);
  }

  /** The saved failed and rejected records, in the order they are put into the selection. */
  ghost function Extras(latest: seq<TaskRecord>, limits: Limits): seq<TaskRecord> {
    Extra(latest, Cut(latest, limits), "failed", limits.failed)
    + Extra(latest, Cut(latest, limits), "rejected", limits.rejected)
  }

  lemma SelectedWithExtras(latest: seq<TaskRecord>, limits: Limits)
    requires UniqueIds(latest) && Ordered(latest, true) && NonNegative(limits)
    ensures Selected(latest, limits) == latest[..Cut(latest, limits)] + Extras(latest, limits)
    ensures UniqueIds(Selected(latest, limits))
    ensures forall r :: r in Extras(latest, limits) ==> r in latest[Cut(latest, limits)..]
  {
    var cut := Cut(latest, limits);
    var (f, j) := (Extra(latest, cut, "failed", limits.failed), Extra(latest, cut, "rejected", limits.rejected));
    SelectedInGroups(latest, limits);
    ExtraFacts(latest, cut, "failed", limits.failed);
    ExtraFacts(latest, cut, "rejected", limits.rejected);
    assert latest[..cut] + f + j == latest[..cut] + (f + j);
    forall r | r in f + j ensures r in latest[cut..] {
      assert r in f || r in j;
    }
  }

  /** The recent view after a compaction: the same recent records first, in the same order, then
      the saved failed and rejected ones. */
  lemma RecentAfterSelect(log: seq<TaskRecord>, limits: Limits)
    requires NonNegative(limits)
    ensures var latest := Recent(log);
            Recent(Select(log, limits)) == latest[..Cut(latest, limits)] + Sort(Extras(latest, limits), true)
    ensures UniqueIds(Select(log, limits))
    ensures forall r :: r in Select(log, limits) <==> r in Selected(Recent(log), limits)
  {
    var latest := Recent(log);
    var cut := Cut(latest, limits);
    var extra := Extras(latest, limits);
    RecentFacts(log);
    SelectedWithExtras(latest, limits);
    RecentOfRewritten(Selected(latest, limits));
    SortOfGroups(latest, cut, extra);
  }

  /** The quota of a status group finds the same extra records in the compacted log. */
  lemma ExtraAgain(latest: seq<TaskRecord>, tail: seq<TaskRecord>, cut: nat, status: string, quota: int)
    requires cut <= |latest| && quota >= 0
    requires WithStatus(tail, status) == Extra(latest, cut, status, quota)
    ensures Extra(latest[..cut] + tail, cut, status, quota) == Extra(latest, cut, status, quota)
  {
    assert (latest[..cut] + tail)[..cut] == latest[..cut];
    assert (latest[..cut] + tail)[cut..] == tail;
  }

  lemma StatusOfSortedTail(f: seq<TaskRecord>, j: seq<TaskRecord>, own: seq<TaskRecord>, status: string)
    requires Ordered(own, true)
    requires WithStatus(f, status) + WithStatus(j, status) == own
    ensures WithStatus(Sort(f + j, true), status) == own
  {
    SortOfStatus(f + j, status, true);
    WithStatusConcat(f, j, status);
    SortOfOrdered(own, true);
  }

  lemma StatusesOfTail(f: seq<TaskRecord>, j: seq<TaskRecord>)
    requires Ordered(f, true) && Ordered(j, true)
    requires forall r :: r in f ==> r.status == "failed"
    requires forall r :: r in j ==> r.status == "rejected"
    ensures WithStatus(Sort(f + j, true), "failed") == f && WithStatus(Sort(f + j, true), "rejected") == j
  {
    WithStatusOfOwn(f, "failed");
    WithStatusOfOther(f, "rejected");
    WithStatusOfOwn(j, "rejected");
    WithStatusOfOther(j, "failed");
    assert f + [] == f && [] + j == j;
    StatusOfSortedTail(f, j, f, "failed");
    StatusOfSortedTail(f, j, j, "rejected");
  }

  /** Compacting a compacted log changes nothing, not even the order of records with equal stamps. */
  lemma SelectIdempotent(log: seq<TaskRecord>, limits: Limits)
    requires NonNegative(limits)
    ensures Select(Select(log, limits), limits) == Select(log, limits)
  {
    var latest := Recent(log);
    var cut := Cut(latest, limits);
    var f := Extra(latest, cut, "failed", limits.failed);
    var j := Extra(latest, cut, "rejected", limits.rejected);
    var tail := Sort(f + j, true);
    var again := Recent(Select(log, limits));
    RecentFacts(log);
    RecentFacts(Select(log, limits));
    RecentAfterSelect(log, limits);
    SelectedInGroups(latest, limits);
    SelectedInGroups(again, limits);
    ExtraFacts(latest, cut, "failed", limits.failed);
    ExtraFacts(latest, cut, "rejected", limits.rejected);
    StatusesOfTail(f, j);
    ExtraAgain(latest, tail, cut, "failed", limits.failed);
    ExtraAgain(latest, tail, cut, "rejected", limits.rejected);
    assert again == latest[..cut] + tail;
    if cut < limits.recent {
      assert cut == |latest| && f == [] && j == [] && tail == [];
    }
    assert Cut(again, limits) == cut && again[..cut] == latest[..cut];
  }

  // ---------- Exactly which limits make compaction idempotent ----------

  function Row(k: nat, status: string): TaskRecord {
    TaskRecord(seq(k, _ => 'x'), 0, 0 - k, status, "", [], "", "")
  }

  /** `m` distinct tasks, newest first: the first `n` of them planned, the others in `status`. */
  function Rows(n: nat, m: nat, status: string): (rows: seq<TaskRecord>)
    ensures |rows| == m && forall i :: 0 <= i < m ==> rows[i] == Row(i, if i < n then "planned" else status)
  {
    if m == 0 then [] else Rows(n, m - 1, status) + [Row(m - 1, if m - 1 < n then "planned" else status)]
  }

  /** The rewritten log is in the order of its time stamps, oldest first. */
  lemma SelectOldestFirst(log: seq<TaskRecord>, limits: Limits)
    ensures var kept := Select(log, limits);
            forall i, j :: 0 <= i < j < |kept| ==> kept[i].updatedAt <= kept[j].updatedAt
  {
    SortIsStable(Selected(Recent(log), limits), false);
    assert Ordered(Select(log, limits), false);
    forall i, j | 0 <= i < j < |Select(log, limits)|
      ensures Select(log, limits)[i].updatedAt <= Select(log, limits)[j].updatedAt
    {
      assert Rank(Select(log, limits)[i], false) <= Rank(Select(log, limits)[j], false);
    }
  }

  lemma {:induction false} RowsFacts(n: nat, m: nat, status: string)
    ensures UniqueIds(Rows(n, m, status)) && Ordered(Rows(n, m, status), true)
    ensures Recent(Rows(n, m, status)) == Rows(n, m, status)
  {
    var rows := Rows(n, m, status);
    forall i, j | 0 <= i < j < m ensures rows[i].taskId != rows[j].taskId {
      assert |rows[i].taskId| == i && |rows[j].taskId| == j;
    }
    DictOfUnique(rows);
    SortOfOrdered(rows, true);
  }

  lemma {:induction false} RowsOfStatus(n: nat, m: nat, status: string, other: string)
    requires status != "planned" && other != "planned" && n <= m
    ensures WithStatus(Rows(n, m, status), other) == if other == status then Rows(n, m, status)[n..] else []
  {
    var rows := Rows(n, m, status);
    assert rows == rows[..n] + rows[n..];
    WithStatusConcat(rows[..n], rows[n..], other);
    WithStatusOfOther(rows[..n], other);
    if other == status {
      WithStatusOfOwn(rows[n..], other);
    } else {
      WithStatusOfOther(rows[n..], other);
    }
  }

  /** When the three groups do not overlap, the selection is just their concatenation. */
  lemma SelectedDisjoint(
    latest: seq<TaskRecord>, limits: Limits, r: seq<TaskRecord>, f: seq<TaskRecord>, j: seq<TaskRecord>)
    requires r == Take(latest, limits.recent)
    requires f == Take(WithStatus(latest, "failed"), limits.failed)
    requires j == Take(WithStatus(latest, "rejected"), limits.rejected)
    requires UniqueIds(r + f + j)
    ensures Selected(latest, limits) == r + f + j
  {
    UniquePrefix(r + f, j);
    UniquePrefix(r, f);
    assert [] + r == r;
    PutAllNew([], r);
    PutAllNew(r, f);
    PutAllNew(r + f, j);
  }

  lemma UniquePrefix(a: seq<TaskRecord>, b: seq<TaskRecord>)
    requires UniqueIds(a + b)
    ensures UniqueIds(a)
  {
    forall i, j | 0 <= i < j < |a| ensures a[i].taskId != a[j].taskId {
      assert (a + b)[i] == a[i] && (a + b)[j] == a[j];
    }
  }

  /** Two passes over ordered rows that select ever fewer of them give two different logs. */
  lemma ShrinkingBreaks(rows: seq<TaskRecord>, once: seq<TaskRecord>, twice: seq<TaskRecord>, limits: Limits)
    requires Recent(rows) == rows && UniqueIds(once) && Ordered(once, true) && UniqueIds(twice)
    requires Selected(rows, limits) == once && Selected(once, limits) == twice && |once| != |twice|
    ensures Select(Select(rows, limits), limits) != Select(rows, limits)
  {
    RecentOfRewritten(once);
    SortOfOrdered(once, true);
    SortKeepsUniqueIds(once, false);
    SortKeepsUniqueIds(twice, false);
  }

  lemma RowsGroup(n: nat, m: nat, status: string, q: int, kept: nat)
    requires n <= m && q < 0 && m - n + q <= 1 && kept == if m - n + q == 1 then n + 1 else n
    ensures Take(Rows(n, m, status), n) == Rows(n, m, status)[..n]
    ensures Rows(n, m, status)[..n] + Take(Rows(n, m, status)[n..], q) == Rows(n, kept, status)
  {
    assert |Take(Rows(n, m, status)[n..], q)| == kept - n;
  }

  /** Selecting from such rows keeps the planned ones and what the quota `q` leaves of the others. */
  lemma SelectedRows(n: nat, m: nat, status: string, limits: Limits, q: int)
    requires n <= m && limits.recent == n && status in {"failed", "rejected"}
    requires q == if status == "failed" then limits.failed else limits.rejected
    requires q < 0 && m - n + q <= 1
    ensures Selected(Rows(n, m, status), limits) == Rows(n, if m - n + q == 1 then n + 1 else n, status)
  {
    var rows := Rows(n, m, status);
    var kept := if m - n + q == 1 then n + 1 else n;
    var first, group := rows[..n], Take(rows[n..], q);
    RowsOfStatus(n, m, status, "failed");
    RowsOfStatus(n, m, status, "rejected");
    RowsGroup(n, m, status, q, kept);
    assert UniqueIds(first + group) by { RowsFacts(n, kept, status); }
    if status == "failed" {
      assert first + group + [] == first + group;
      SelectedDisjoint(rows, limits, first, group, []);
    } else {
      assert first + [] == first;
      SelectedDisjoint(rows, limits, first, [], group);
    }
  }

  lemma NegativeQuotaBreaks(limits: Limits, status: string, q: int)
    requires limits.recent >= 0 && status in {"failed", "rejected"}
    requires q == if status == "failed" then limits.failed else limits.rejected
    requires q < 0
    ensures exists log :: Select(Select(log, limits), limits) != Select(log, limits)
  {
    var n := limits.recent;
    var m, k: nat := n + 1 - q, n + 1;
    var log, once, twice := Rows(n, m, status), Rows(n, k, status), Rows(n, n, status);
    assert Recent(log) == log by { RowsFacts(n, m, status); }
    assert UniqueIds(once) && Ordered(once, true) by { RowsFacts(n, k, status); }
    assert UniqueIds(twice) by { RowsFacts(n, n, status); }
    assert Selected(log, limits) == once by { SelectedRows(n, m, status, limits, q); }
    assert Selected(once, limits) == twice by { SelectedRows(n, k, status, limits, q); }
    ShrinkingBreaks(log, once, twice, limits);
  }

  lemma NegativeRecentBreaks(limits: Limits)
    requires limits.recent < 0
    ensures exists log :: Select(Select(log, limits), limits) != Select(log, limits)
  {
    var m := 1 - limits.recent;
    var log := Rows(m, m, "failed");
    var one := Rows(1, 1, "failed");
    RowsFacts(m, m, "failed");
    RowsFacts(1, 1, "failed");
    RowsOfStatus(m, m, "failed", "failed");
    RowsOfStatus(m, m, "failed", "rejected");
    RowsOfStatus(1, 1, "failed", "failed");
    RowsOfStatus(1, 1, "failed", "rejected");
    assert Take(log, limits.recent) == one;
    assert one + [] + [] == one;
    SelectedDisjoint(log, limits, one, [], []);
    SelectedDisjoint(one, limits, [], [], []);
    ShrinkingBreaks(log, one, [], limits);
  }

  /** Compaction is idempotent on every log exactly when no configured limit is negative. */
  lemma IdempotentIffNonNegative(limits: Limits)
    ensures NonNegative(limits) <==> forall log :: Select(Select(log, limits), limits) == Select(log, limits)
  {
    if NonNegative(limits) {
      forall log ensures Select(Select(log, limits), limits) == Select(log, limits) {
        SelectIdempotent(log, limits);
      }
    } else if limits.recent < 0 {
      NegativeRecentBreaks(limits);
    } else if limits.failed < 0 {
      NegativeQuotaBreaks(limits, "failed", limits.failed);
    } else {
      NegativeQuotaBreaks(limits, "rejected", limits.rejected);
    }
  }

  // ---------- Exactly which records survive ----------

  /** The record at position `i` of the recent view is among the newest allowed of its kind. */
  ghost predicate Kept(latest: seq<TaskRecord>, i: nat, limits: Limits)
    requires i < |latest|
  {
    || i < limits.recent
    || (latest[i].status == "failed" && |WithStatus(latest[..i], "failed")| < limits.failed)
    || (latest[i].status == "rejected" && |WithStatus(latest[..i], "rejected")| < limits.rejected)
  }

  lemma PositionInStatus(latest: seq<TaskRecord>, i: nat, status: string)
    requires i < |latest| && latest[i].status == status
    ensures var k := |WithStatus(latest[..i], status)|;
            k < |WithStatus(latest, status)| && WithStatus(latest, status)[k] == latest[i]
  {
    assert latest == latest[..i] + latest[i..];
    WithStatusConcat(latest[..i], latest[i..], status);
  }

  lemma InQuotaIff(latest: seq<TaskRecord>, i: nat, status: string, quota: int)
    requires UniqueIds(latest) && i < |latest| && quota >= 0
    ensures latest[i] in Take(WithStatus(latest, status), quota)
       <==> latest[i].status == status && |WithStatus(latest[..i], status)| < quota
  {
    var all := WithStatus(latest, status);
    WithStatusMembers(latest, status);
    WithStatusKeepsUniqueIds(latest, status);
    if latest[i].status == status {
      PositionInStatus(latest, i, status);
      var k := |WithStatus(latest[..i], status)|;
      if k < quota {
        assert Take(all, quota)[k] == latest[i];
      }
    }
  }

  lemma SelectedMembers(latest: seq<TaskRecord>, limits: Limits, r: TaskRecord)
    requires UniqueIds(latest) && Ordered(latest, true) && NonNegative(limits)
    ensures r in Selected(latest, limits)
       <==> || r in Take(latest, limits.recent)
            || r in Take(WithStatus(latest, "failed"), limits.failed)
            || r in Take(WithStatus(latest, "rejected"), limits.rejected)
  {
    var cut := Cut(latest, limits);
    SelectedInGroups(latest, limits);
    TakeWithStatus(latest, cut, "failed", limits.failed);
    TakeWithStatus(latest, cut, "rejected", limits.rejected);
    WithStatusMembers(latest[..cut], "failed");
    WithStatusMembers(latest[..cut], "rejected");
    assert forall st, q :: r in Take(WithStatus(latest[..cut], st), q) ==> r in WithStatus(latest[..cut], st);
  }

  /** A compaction keeps the newest version of exactly these tasks: the most recent ones, the most
      recent failed ones and the most recent rejected ones, one record each. */
  lemma CompactionKeepsExactly(log: seq<TaskRecord>, limits: Limits, r: TaskRecord)
    requires NonNegative(limits)
    ensures var latest := Recent(log);
            r in Select(log, limits) <==> exists i :: 0 <= i < |latest| && latest[i] == r && Kept(latest, i, limits)
    ensures UniqueIds(Select(log, limits))
    ensures r in Select(log, limits) ==> Newest(log, r.taskId) == Some(r)
  {
    var latest := Recent(log);
    RecentFacts(log);
    RecentAfterSelect(log, limits);
    SelectedMembers(latest, limits, r);
    WithStatusMembers(latest, "failed");
    WithStatusMembers(latest, "rejected");
    forall i | 0 <= i < |latest| && latest[i] == r
      ensures r in Select(log, limits) <==> Kept(latest, i, limits)
    {
      InQuotaIff(latest, i, "failed", limits.failed);
      InQuotaIff(latest, i, "rejected", limits.rejected);
      if r in Take(latest, limits.recent) {
        var k :| 0 <= k < |Take(latest, limits.recent)| && Take(latest, limits.recent)[k] == r;
        assert latest[k] == r;
      }
    }
    if r in Select(log, limits) {
      assert r in latest by {
        assert r in Take(latest, limits.recent) ==> r in latest;
        assert r in WithStatus(latest, "failed") || r in WithStatus(latest, "rejected") ==> r in latest;
      }
      GetIsNewest(log, r.taskId);
      LookupFacts(latest, r.taskId);
    }
  }

  /** What a reader sees across a compaction: the same newest version for a kept task, nothing for a
      dropped one, and never an older version. */
  lemma GetAcrossCompaction(log: seq<TaskRecord>, limits: Limits, id: string)
    requires NonNegative(limits)
    ensures var before := Get(log, id);
            Get(Select(log, limits), id) == if before.Some? && before.value in Select(log, limits) then before else None
  {
    var kept := Select(log, limits);
    RecentAfterSelect(log, limits);
    RecentFacts(log);
    LookupFacts(Recent(log), id);
    DictOfUnique(kept);
    GetIsNewest(kept, id);
    LatestIsNewest(kept);
    LookupFacts(kept, id);
    if Get(kept, id).Some? {
      var r := Get(kept, id).value;
      CompactionKeepsExactly(log, limits, r);
      GetIsNewest(log, id);
    }
  }
}
