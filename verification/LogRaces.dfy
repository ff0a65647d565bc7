/**
 Compaction against concurrent appends. `compact` reads the log, selects, and replaces the file without
 holding the lock that `_append` holds, so other threads may append, or compact, between its read and
 its replace. A schedule says in which order the threads move; what they write is arbitrary.
 */
module LogRaces {
  import opened Wrappers
  import opened Retention
  import opened RetentionLaws
  import opened TaskLog

  /** The append of a task operation, or the read or the replace of the compaction that thread `c` is in. */
  datatype Move = Op | Read(c: nat) | Replace(c: nat)

  /** The file, what each unfinished compaction has read, every version appended so far, and the versions
      that a compaction saw and dropped by the retention rule. */
  datatype World = World(
    file: seq<TaskRecord>,
    pending: map<nat, seq<TaskRecord>>,
    history: seq<TaskRecord>,
    dropped: set<TaskRecord>)

  /** The versions the retention rule drops from what a compaction has read. */
  function DroppedFrom(records: seq<TaskRecord>, limits: Limits): set<TaskRecord> {
    set v | v in records && v !in Select(records, limits)
  }

  /** An operation appends `version`, however and whenever it came by it; a replace without a read changes
      nothing. */
  function Next(w: World, move: Move, version: TaskRecord, limits: Limits): World {
    match move
    case Op => w.(file := w.file + [version], history := w.history + [version])
    case Read(c) => w.(pending := w.pending[c := w.file])
    case Replace(c) =>
      if c !in w.pending then w
      else
        var records := w.pending[c];
        World(Select(records, limits), w.pending - {c}, w.history, w.dropped + DroppedFrom(records, limits))
  }

  /** The world after a schedule; `versions` gives what each operation appends. */
  function Run(moves: seq<Move>, versions: nat -> TaskRecord, limits: Limits): World {
    if moves == [] then World([], map[], [], {})
    else
      var n := |moves| - 1;
      Next(Run(moves[..n], versions, limits), moves[n], versions(n), limits)
  }

  /** Moves that nothing comes between do what TaskLog does in one step: an append, and after it, if the
      file has grown too large, a compaction. */
  lemma UninterruptedIsAppend(w: World, c: nat, version: TaskRecord, limits: Limits)
    ensures var w1 := Next(w, Op, version, limits);
            var w2 := Next(Next(w1, Read(c), version, limits), Replace(c), version, limits);
            && w1.file == Appended(w.file, version, false, limits)
            && w2.file == Appended(w.file, version, true, limits)
            && w2.history == w.history + [version]
            && forall v :: v in w2.dropped <==> v in w.dropped || (v in w1.file && v !in w2.file)
  {
  }

  /** Every version ever appended is still in the file or was dropped by the retention rule. */
  ghost predicate Accounted(w: World) {
    forall v :: v in w.history ==> v in w.file || v in w.dropped
  }

  /** `get` answers with the version appended last, or with None after the retention rule dropped it. */
  ghost predicate Truthful(w: World) {
    forall id :: Honest(Get(w.file, id), Newest(w.history, id), w.dropped)
  }

  predicate Honest(answer: Option<TaskRecord>, newest: Option<TaskRecord>, dropped: set<TaskRecord>) {
    answer == newest || (answer.None? && newest.Some? && newest.value in dropped)
  }

  /** Thread `c` reads at move `i` and next moves at `p`, where it replaces the file or has still to. */
  ghost predicate Window(moves: seq<Move>, c: nat, i: int, p: int) {
    && 0 <= i < p <= |moves| && moves[i] == Read(c)
    && forall m :: i < m < p ==> moves[m] != Read(c) && moves[m] != Replace(c)
  }

  /** No operation falls between the read and the replace of a compaction. */
  ghost predicate NoOverlap(moves: seq<Move>) {
    forall c, i, p :: Window(moves, c, i, p) && p < |moves| && moves[p] == Replace(c)
                      ==> forall j :: i < j < p ==> moves[j] != Op
  }

  // ---------- Without overlap nothing is lost ----------

  /** The file as the last operation left it. */
  function Base(moves: seq<Move>, versions: nat -> TaskRecord, limits: Limits): seq<TaskRecord> {
    if moves == [] then []
    else if moves[|moves| - 1] == Op then Run(moves, versions, limits).file
    else Base(moves[..|moves| - 1], versions, limits)
  }

  /** Thread `c` is in a compaction whose read no operation has followed. */
  predicate Clean(moves: seq<Move>, c: nat)
  {
    moves != [] &&
    var last := moves[|moves| - 1];
    last == Read(c) || (last != Op && last != Replace(c) && Clean(moves[..|moves| - 1], c))
  }

  /** Since the last operation the file has been compacted or not; clean readers have read either, and
      what a compaction would drop is dropped once the file is compacted. */
  ghost predicate Settled(moves: seq<Move>, versions: nat -> TaskRecord, limits: Limits) {
    var (w, base) := (Run(moves, versions, limits), Base(moves, versions, limits));
    && (forall c :: Clean(moves, c) ==> c in w.pending && w.pending[c] in {base, Select(base, limits)})
    && (if w.file == base
        then forall c :: Clean(moves, c) ==> w.pending[c] == base
        else w.file == Select(base, limits) && DroppedFrom(base, limits) <= w.dropped)
  }

  /** Every pending compaction that replaces the file next is clean. */
  lemma {:induction false} WindowOrClean(moves: seq<Move>, versions: nat -> TaskRecord, limits: Limits, c: nat)
    requires c in Run(moves, versions, limits).pending
    ensures exists i ::
              Window(moves, c, i, |moves|) && (Clean(moves, c) || exists j :: i < j < |moves| && moves[j] == Op)
  {
    var n := |moves| - 1;
    if moves[n] == Read(c) {
      assert Window(moves, c, n, n + 1);
    } else {
      var front := moves[..n];
      assert c in Run(front, versions, limits).pending;
      WindowOrClean(front, versions, limits, c);
      var i :| Window(front, c, i, n) && (Clean(front, c) || exists j :: i < j < n && front[j] == Op);
      assert Window(moves, c, i, n + 1);
      if moves[n] == Op {
        assert i < n < n + 1;
      } else if !Clean(front, c) {
        var j :| i < j < n && front[j] == Op;
        assert moves[j] == Op;
      }
    }
  }

  lemma PrefixNoOverlap(moves: seq<Move>, n: nat)
    requires NoOverlap(moves) && n <= |moves|
    ensures NoOverlap(moves[..n])
  {
    forall c, i, p | Window(moves[..n], c, i, p) && p < n && moves[..n][p] == Replace(c)
      ensures forall j :: i < j < p ==> moves[..n][j] != Op
    {
      assert Window(moves, c, i, p);
    }
  }

  /** Without overlap, a compaction that replaces the file is clean. */
  lemma ReplacerIsClean(moves: seq<Move>, versions: nat -> TaskRecord, limits: Limits, c: nat)
    requires moves != [] && NoOverlap(moves) && moves[|moves| - 1] == Replace(c)
    requires c in Run(moves[..|moves| - 1], versions, limits).pending
    ensures Clean(moves[..|moves| - 1], c)
  {
    var n := |moves| - 1;
    WindowOrClean(moves[..n], versions, limits, c);
    var i :| Window(moves[..n], c, i, n)
             && (Clean(moves[..n], c) || exists j :: i < j < n && moves[..n][j] == Op);
    assert Window(moves, c, i, n);
    if j :| i < j < n && moves[..n][j] == Op {
      assert moves[j] == Op;
    }
  }

  lemma {:induction false} RunSettled(moves: seq<Move>, versions: nat -> TaskRecord, limits: Limits)
    requires NonNegative(limits) && NoOverlap(moves)
    ensures Settled(moves, versions, limits)
  {
    if moves != [] {
      var n := |moves| - 1;
      var front := moves[..n];
      var base := Base(front, versions, limits);
      PrefixNoOverlap(moves, n);
      RunSettled(front, versions, limits);
      if moves[n].Replace? && moves[n].c in Run(front, versions, limits).pending {
        ReplacerIsClean(moves, versions, limits, moves[n].c);
        SelectIdempotent(base, limits);
        assert DroppedFrom(Select(base, limits), limits) == {};
      }
    }
  }

  lemma GetFromLog(log: seq<TaskRecord>, id: string)
    ensures Get(log, id).Some? ==> Get(log, id).value in log && Get(log, id).value.taskId == id
  {
    RecentFacts(log);
    LookupFacts(Recent(log), id);
    LatestIsNewest(log);
  }

  lemma AppendIsTruthful(w: World, r: TaskRecord)
    requires Truthful(w)
    ensures Truthful(w.(file := w.file + [r], history := w.history + [r]))
  {
    forall id ensures Honest(Get(w.file + [r], id), Newest(w.history + [r], id), w.dropped) {
      assert Honest(Get(w.file, id), Newest(w.history, id), w.dropped);
      GetIsNewest(w.file, id);
      GetIsNewest(w.file + [r], id);
      assert (w.file + [r])[..|w.file|] == w.file && (w.history + [r])[..|w.history|] == w.history;
    }
  }

  lemma SelectIsTruthful(w: World, limits: Limits, pending: map<nat, seq<TaskRecord>>)
    requires NonNegative(limits) && Truthful(w)
    ensures Truthful(World(Select(w.file, limits), pending, w.history, w.dropped + DroppedFrom(w.file, limits)))
  {
    forall id
      ensures Honest(Get(Select(w.file, limits), id), Newest(w.history, id), w.dropped + DroppedFrom(w.file, limits))
    {
      assert Honest(Get(w.file, id), Newest(w.history, id), w.dropped);
      GetAcrossCompaction(w.file, limits, id);
      GetFromLog(w.file, id);
    }
  }

  /** The move that takes a schedule without overlap one step further loses nothing. */
  lemma MoveIsSafe(moves: seq<Move>, versions: nat -> TaskRecord, limits: Limits)
    requires NonNegative(limits) && NoOverlap(moves) && moves != []
    requires var before := Run(moves[..|moves| - 1], versions, limits); Accounted(before) && Truthful(before)
    ensures Accounted(Run(moves, versions, limits)) && Truthful(Run(moves, versions, limits))
  {
    var n := |moves| - 1;
    var (w, base) := (Run(moves[..n], versions, limits), Base(moves[..n], versions, limits));
    match moves[n] {
      case Op =>
        AppendIsTruthful(w, versions(n));
      case Read(c) =>
        assert forall id :: Honest(Get(w.file, id), Newest(w.history, id), w.dropped);
      case Replace(c) =>
        if c in w.pending {
          CleanIsRead(moves, versions, limits, c);
          ReplaceIsSafe(w, base, c, versions(n), limits);
        }
    }
  }

  lemma CleanIsRead(moves: seq<Move>, versions: nat -> TaskRecord, limits: Limits, c: nat)
    requires NonNegative(limits) && NoOverlap(moves) && moves != [] && moves[|moves| - 1] == Replace(c)
    requires c in Run(moves[..|moves| - 1], versions, limits).pending
    ensures var front := moves[..|moves| - 1];
            var (w, base) := (Run(front, versions, limits), Base(front, versions, limits));
            && w.pending[c] in {base, Select(base, limits)}
            && if w.file == base then w.pending[c] == base
               else w.file == Select(base, limits) && DroppedFrom(base, limits) <= w.dropped
  {
    PrefixNoOverlap(moves, |moves| - 1);
    RunSettled(moves[..|moves| - 1], versions, limits);
    ReplacerIsClean(moves, versions, limits, c);
  }

  lemma ReplaceIsSafe(w: World, base: seq<TaskRecord>, c: nat, version: TaskRecord, limits: Limits)
    requires NonNegative(limits) && Accounted(w) && Truthful(w)
    requires c in w.pending && w.pending[c] in {base, Select(base, limits)}
    requires if w.file == base then w.pending[c] == base
             else w.file == Select(base, limits) && DroppedFrom(base, limits) <= w.dropped
    ensures Accounted(Next(w, Replace(c), version, limits)) && Truthful(Next(w, Replace(c), version, limits))
  {
    var w1 := Next(w, Replace(c), version, limits);
    SelectIdempotent(base, limits);
    if w.file == base {
      SelectIsTruthful(w, limits, w1.pending);
      forall v | v in w1.history ensures v in w1.file || v in w1.dropped {
        assert v in w.file || v in w.dropped;
      }
    } else {
      assert w1.file == w.file;
      forall id ensures Honest(Get(w1.file, id), Newest(w1.history, id), w1.dropped) {
        assert Honest(Get(w.file, id), Newest(w.history, id), w.dropped);
      }
    }
  }

  lemma {:induction false} NoOverlapIsSafe(moves: seq<Move>, versions: nat -> TaskRecord, limits: Limits)
    requires NonNegative(limits) && NoOverlap(moves)
    ensures Accounted(Run(moves, versions, limits)) && Truthful(Run(moves, versions, limits))
  {
    if moves == [] {
      forall id ensures Honest(Get([], id), Newest([], id), {}) {
        GetIsNewest([], id);
      }
    } else {
      PrefixNoOverlap(moves, |moves| - 1);
      NoOverlapIsSafe(moves[..|moves| - 1], versions, limits);
      MoveIsSafe(moves, versions, limits);
    }
  }

  // ---------- With overlap some run loses a version ----------

  function Name(k: nat): string {
    seq(k + 1, _ => 'x')
  }

  /** The version that move `k` appends when every operation is the creation of a task of its own. */
  function Version(k: nat): TaskRecord {
    At(Name(k), k)
  }

  function Creating(): nat -> TaskRecord {
    (k: nat) => Version(k)
  }

  /** Room for every task. */
  function Room(n: nat): Limits {
    Limits(n, 0, 0)
  }

  ghost predicate Plain(log: seq<TaskRecord>, n: nat) {
    UniqueIds(log) && |log| <= n && forall r :: r in log ==> exists m: nat :: m < n && r == Version(m)
  }

  /** With room for all, compaction keeps all. */
  lemma RoomKeepsAll(log: seq<TaskRecord>, n: nat, room: nat)
    requires Plain(log, n) && n <= room
    ensures Plain(Select(log, Room(room)), n)
    ensures forall r :: r in Select(log, Room(room)) <==> r in log
  {
    var limits := Room(room);
    DictOfUnique(log);
    RecentFacts(log);
    SortKeepsUniqueIds(log, true);
    RecentAfterSelect(log, limits);
    forall r ensures r in Select(log, limits) <==> r in log {
      CompactionKeepsExactly(log, limits, r);
      if r in log {
        assert r in Recent(log);
        var i :| 0 <= i < |Recent(log)| && Recent(log)[i] == r;
        assert Kept(Recent(log), i, limits);
      } else {
        assert r !in Recent(log);
      }
    }
    var kept := Select(log, limits);
    DictOfUnique(kept);
    SortKeepsUniqueIds(kept, true);
    assert Cut(Recent(log), limits) == |log| && Extras(Recent(log), limits) == [];
    assert Recent(kept) == Recent(log);
  }

  /** While every operation creates a task of its own and there is room, nothing is ever dropped. */
  lemma {:induction false} RunIsPlain(moves: seq<Move>, room: nat)
    requires |moves| <= room
    ensures var w := Run(moves, Creating(), Room(room));
            && Plain(w.file, |moves|) && w.dropped == {}
            && (forall c :: c in w.pending ==> Plain(w.pending[c], |moves|))
            && (forall v :: v in w.history ==> exists m: nat :: m < |moves| && v == Version(m))
  {
    if moves != [] {
      var n := |moves| - 1;
      RunIsPlain(moves[..n], room);
      var w := Run(moves[..n], Creating(), Room(room));
      match moves[n] {
        case Op => AppendStaysPlain(w.file, n);
        case Read(c) =>
        case Replace(c) =>
          if c in w.pending {
            RoomKeepsAll(w.pending[c], n, room);
            assert DroppedFrom(w.pending[c], Room(room)) == {};
          }
      }
    }
  }

  lemma AppendStaysPlain(log: seq<TaskRecord>, n: nat)
    requires Plain(log, n)
    ensures Plain(log + [Version(n)], n + 1)
  {
    var all := log + [Version(n)];
    forall i, j | 0 <= i < j < |all| ensures all[i].taskId != all[j].taskId {
      if j == |log| {
        assert all[i] == log[i] && log[i] in log;
        var m: nat :| m < n && log[i] == Version(m);
        assert |all[i].taskId| == m + 1 && |all[j].taskId| == n + 1;
      }
    }
    forall r | r in all ensures exists m: nat :: m < n + 1 && r == Version(m) {
      if r == Version(n) {
        assert n < n + 1;
      } else {
        assert r in log;
      }
    }
  }

  ghost predicate ReadBefore(moves: seq<Move>, c: nat, j: nat) {
    exists i :: Window(moves, c, i, |moves|) && i < j
  }

  /** Until the first overlapping replace, the version written at `j` stays in the file and in what
      every later reader has read. */
  ghost predicate Seen(moves: seq<Move>, w: World, j: nat) {
    && Version(j) in w.file && Version(j) in w.history
    && forall c :: c in w.pending ==> Version(j) in w.pending[c] || ReadBefore(moves, c, j)
  }

  lemma WindowGrows(moves: seq<Move>, c: nat, i: int)
    requires moves != [] && moves[|moves| - 1] != Read(c) && moves[|moves| - 1] != Replace(c)
    requires Window(moves[..|moves| - 1], c, i, |moves| - 1)
    ensures Window(moves, c, i, |moves|)
  {
    var front := moves[..|moves| - 1];
    forall m | i < m < |moves| ensures moves[m] != Read(c) && moves[m] != Replace(c) {
      assert m < |front| ==> front[m] == moves[m];
    }
  }

  lemma ReadBeforeStays(moves: seq<Move>, c: nat, j: nat)
    requires moves != [] && moves[|moves| - 1] != Read(c) && moves[|moves| - 1] != Replace(c)
    requires ReadBefore(moves[..|moves| - 1], c, j)
    ensures ReadBefore(moves, c, j)
  {
    var i :| Window(moves[..|moves| - 1], c, i, |moves| - 1) && i < j;
    WindowGrows(moves, c, i);
  }

  lemma PendingReadBefore(moves: seq<Move>, versions: nat -> TaskRecord, limits: Limits, c: nat)
    requires moves != [] && moves[|moves| - 1] == Op && c in Run(moves, versions, limits).pending
    ensures ReadBefore(moves, c, |moves| - 1)
  {
    var n := |moves| - 1;
    WindowOrClean(moves[..n], versions, limits, c);
    var i :| Window(moves[..n], c, i, n) && (Clean(moves[..n], c) || exists k :: i < k < n && moves[..n][k] == Op);
    WindowGrows(moves, c, i);
  }

  lemma NotReadBefore(moves: seq<Move>, c: nat, j: nat)
    requires NoOverlap(moves) && moves != [] && moves[|moves| - 1] == Replace(c)
    requires j < |moves| - 1 && moves[j] == Op
    ensures !ReadBefore(moves[..|moves| - 1], c, j)
  {
    var (n, front) := (|moves| - 1, moves[..|moves| - 1]);
    forall i | Window(front, c, i, n) ensures i >= j {
      assert Window(moves, c, i, n);
    }
  }

  /** One more move, not an overlapping replace, keeps the version in sight. */
  lemma SeenAfter(moves: seq<Move>, w: World, j: nat, room: nat)
    requires moves != [] && |moves| <= room && j < |moves| - 1 && moves[j] == Op && NoOverlap(moves)
    requires Seen(moves[..|moves| - 1], w, j)
    requires forall c :: c in w.pending ==> Plain(w.pending[c], |moves| - 1)
    ensures Seen(moves, Next(w, moves[|moves| - 1], Creating()(|moves| - 1), Room(room)), j)
  {
    var n := |moves| - 1;
    var w1 := Next(w, moves[n], Creating()(n), Room(room));
    if moves[n].Replace? && moves[n].c in w.pending {
      var c := moves[n].c;
      NotReadBefore(moves, c, j);
      RoomKeepsAll(w.pending[c], n, room);
    }
    forall c | c in w1.pending && Version(j) !in w1.pending[c] ensures ReadBefore(moves, c, j) {
      ReadBeforeStays(moves, c, j);
    }
  }

  lemma {:induction false} VersionStays(moves: seq<Move>, j: nat, room: nat)
    requires |moves| <= room && j < |moves| && moves[j] == Op && NoOverlap(moves)
    ensures Seen(moves, Run(moves, Creating(), Room(room)), j)
  {
    var n := |moves| - 1;
    var w := Run(moves[..n], Creating(), Room(room));
    if j == n {
      var w1 := Run(moves, Creating(), Room(room));
      forall c | c in w1.pending ensures ReadBefore(moves, c, j) {
        PendingReadBefore(moves, Creating(), Room(room), c);
      }
    } else {
      PrefixNoOverlap(moves, n);
      VersionStays(moves[..n], j, room);
      RunIsPlain(moves[..n], room);
      SeenAfter(moves, w, j, room);
    }
  }

  lemma PendingStays(w: World, move: Move, version: TaskRecord, limits: Limits, c: nat)
    requires c in w.pending && move != Read(c) && move != Replace(c)
    ensures var w1 := Next(w, move, version, limits); c in w1.pending && w1.pending[c] == w.pending[c]
  {
  }

  /** What a reader has read was read at the beginning of its window. */
  lemma {:induction false} PendingIsRead(moves: seq<Move>, c: nat, i: nat, versions: nat -> TaskRecord, limits: Limits)
    requires Window(moves, c, i, |moves|)
    ensures c in Run(moves, versions, limits).pending
    ensures Run(moves, versions, limits).pending[c] == Run(moves[..i], versions, limits).file
  {
    var n := |moves| - 1;
    if i < n {
      var front := moves[..n];
      assert front[..i] == moves[..i] && Window(front, c, i, n);
      PendingIsRead(front, c, i, versions, limits);
      PendingStays(Run(front, versions, limits), moves[n], versions(n), limits, c);
    }
  }

  lemma PlainLacks(log: seq<TaskRecord>, n: nat, j: nat)
    requires Plain(log, n) && n <= j
    ensures Version(j) !in log
  {
    forall m: nat | m < n ensures Version(m) != Version(j) {
      assert |Name(m)| < |Name(j)|;
    }
  }

  lemma PlainGet(log: seq<TaskRecord>, n: nat, j: nat)
    requires Plain(log, n) && Version(j) !in log
    ensures Get(log, Name(j)) == None
  {
    GetFromLog(log, Name(j));
    forall m: nat | Version(m).taskId == Name(j) ensures m == j {
      assert |Name(m)| == |Name(j)|;
    }
  }

  /** The first overlap of a schedule loses the version written in between, with room for all. */
  lemma OverlapLoses(front: seq<Move>, c: nat, i: nat, j: nat, room: nat)
    requires |front| <= room && NoOverlap(front) && Window(front, c, i, |front|)
    requires i < j < |front| && front[j] == Op
    ensures var w := Run(front + [Replace(c)], Creating(), Room(room)); !Accounted(w) && !Truthful(w)
  {
    var moves := front + [Replace(c)];
    assert moves[..|moves| - 1] == front;
    OverlapReadsOld(front, c, i, j, room);
    LossIsSeen(Run(front, Creating(), Room(room)), c, j, |front|, room);
  }

  lemma OverlapReadsOld(moves: seq<Move>, c: nat, i: nat, j: nat, room: nat)
    requires |moves| <= room && NoOverlap(moves) && Window(moves, c, i, |moves|)
    requires i < j < |moves| && moves[j] == Op
    ensures var w := Run(moves, Creating(), Room(room));
            && c in w.pending && Plain(w.pending[c], |moves|) && w.dropped == {}
            && Version(j) in w.history && Version(j) !in w.pending[c]
  {
    var w := Run(moves, Creating(), Room(room));
    VersionStays(moves, j, room);
    PendingIsRead(moves, c, i, Creating(), Room(room));
    RunIsPlain(moves, room);
    assert Version(j) !in w.pending[c] by {
      RunIsPlain(moves[..i], room);
      PlainLacks(w.pending[c], i, j);
    }
  }

  lemma LossIsSeen(w: World, c: nat, j: nat, n: nat, room: nat)
    requires n <= room && c in w.pending && Plain(w.pending[c], n) && w.dropped == {}
    requires Version(j) in w.history && Version(j) !in w.pending[c]
    ensures var w1 := Next(w, Replace(c), Creating()(n), Room(room)); !Accounted(w1) && !Truthful(w1)
  {
    var w1 := Next(w, Replace(c), Creating()(n), Room(room));
    RoomKeepsAll(w.pending[c], n, room);
    assert DroppedFrom(w.pending[c], Room(room)) == {};
    PlainGet(w1.file, n, j);
    NewestIfAppended(w1.history, Version(j));
    assert !Honest(Get(w1.file, Name(j)), Newest(w1.history, Name(j)), w1.dropped);
  }

  lemma {:induction false} NewestIfAppended(history: seq<TaskRecord>, r: TaskRecord)
    requires r in history
    ensures Newest(history, r.taskId).Some?
  {
    if history[|history| - 1].taskId != r.taskId {
      NewestIfAppended(history[..|history| - 1], r);
    }
  }

  /** A schedule with an overlap has a first one. */
  lemma FirstOverlap(moves: seq<Move>, n: nat) returns (c: nat, i: nat, j: nat, p: nat)
    requires n <= |moves| && !NoOverlap(moves[..n])
    ensures p < n && NoOverlap(moves[..p]) && Window(moves[..p], c, i, p) && i < j < p
    ensures moves[j] == Op && moves[p] == Replace(c)
  {
    if NoOverlap(moves[..n - 1]) {
      forall c, i, p | Window(moves[..n], c, i, p) && p < n - 1 && moves[..n][p] == Replace(c)
        ensures forall j :: i < j < p ==> moves[..n][j] != Op
      {
        assert Window(moves[..n - 1], c, i, p);
      }
      var c0, i0, p0 :| Window(moves[..n], c0, i0, p0) && p0 < n && moves[..n][p0] == Replace(c0)
                        && !(forall j :: i0 < j < p0 ==> moves[..n][j] != Op);
      c, i, p := c0, i0, p0;
      j :| i < j < p && moves[..n][j] == Op;
      assert Window(moves[..p], c, i, p);
    } else {
      c, i, j, p := FirstOverlap(moves, n - 1);
    }
  }

  /** After every move: nothing is lost and no answer is stale. */
  ghost predicate SafeThroughout(moves: seq<Move>, versions: nat -> TaskRecord, limits: Limits) {
    forall n :: 0 <= n <= |moves| ==>
      Accounted(Run(moves[..n], versions, limits)) && Truthful(Run(moves[..n], versions, limits))
  }

  /** The exact condition on the schedule. Whatever the operations append and the limits are, every appended version
      is always in the file or dropped by the retention rule, and every `get` answers with the version
      written last unless that was dropped, if and only if no operation falls between the read and the
      replace of a compaction. Compactions may overlap each other. */
  lemma OverlapLosesIff(moves: seq<Move>)
    ensures (forall versions, limits :: NonNegative(limits) ==> SafeThroughout(moves, versions, limits))
       <==> NoOverlap(moves)
  {
    if NoOverlap(moves) {
      forall versions, limits, n | NonNegative(limits) && 0 <= n <= |moves|
        ensures Accounted(Run(moves[..n], versions, limits)) && Truthful(Run(moves[..n], versions, limits))
      {
        PrefixNoOverlap(moves, n);
        NoOverlapIsSafe(moves[..n], versions, limits);
      }
    } else {
      assert moves[..|moves|] == moves;
      var c, i, j, p := FirstOverlap(moves, |moves|);
      OverlapLoses(moves[..p], c, i, j, p + 1);
      assert moves[..p + 1] == moves[..p] + [Replace(c)];
      assert !SafeThroughout(moves, Creating(), Room(p + 1));
    }
  }

  /** What an overlap does to readers: a task updated while a compaction is between read and replace is
      read in its older version afterwards, if the retention rule keeps that one, and else not at all. */
  lemma OverlapReverts(w: World, c: nat, version: TaskRecord, limits: Limits)
    requires NonNegative(limits) && c in w.pending
    requires forall r :: r in w.pending[c] ==> r.updatedAt < version.updatedAt
    ensures var w1 := Next(Next(w, Op, version, limits), Replace(c), version, limits);
            var (id, was) := (version.taskId, Get(w.pending[c], version.taskId));
            && Newest(w1.history, id) == Some(version)
            && Get(w1.file, id) == (if was.Some? && was.value in Select(w.pending[c], limits) then was else None)
            && was != Some(version)
  {
    GetAcrossCompaction(w.pending[c], limits, version.taskId);
    GetFromLog(w.pending[c], version.taskId);
  }
}
