/** What a finished deletion has done, said without the walk: which rows, runs and objects are
    gone (src/retention.ts 300-502), and how the dry run's figure compares. */
module DeletionEffect {
  import opened Pricing
  import opened Store
  import opened Retention
  import opened Sums

  predicate Used(artifacts: map<Id, Artifact>, key: Key)
  {
    exists o :: o in artifacts && artifacts[o].key == key
  }

  /** Keys that lost their last row. */
  function Orphaned(before: map<Id, Artifact>, after: map<Id, Artifact>): set<Key>
  {
    set id | id in before && !Used(after, before[id].key) :: before[id].key
  }

  /** `after` is `before` without some rows, and without exactly the objects those rows were
      the last to use, `n` of them. */
  ghost predicate Removed(before: Db, after: Db, n: nat)
  {
    match after
    case Db(_, _, artifacts, objects, _) =>
      && KeysOwned(artifacts) && Positive(artifacts)
      && (forall id :: id in artifacts ==> id in before.artifacts && artifacts[id] == before.artifacts[id])
      && Cleared(before.objects, objects, Orphaned(before.artifacts, artifacts), n)
  }

  ghost predicate Cleared(before: map<Key, Blob>, after: map<Key, Blob>, keys: set<Key>, n: nat)
  {
    after == before - keys && n == |keys|
  }

  lemma ClearedOneMore(before: map<Key, Blob>, after: map<Key, Blob>, keys: set<Key>, n: nat, key: Key)
    requires Cleared(before, after, keys, n) && key !in keys
    ensures Cleared(before, after - {key}, keys + {key}, n + 1)
  {}

  lemma NothingRemoved(db: Db)
    requires KeysOwned(db.artifacts) && Positive(db.artifacts)
    ensures Removed(db, db, 0)
  {}

  lemma SharedIsUsed(artifacts: map<Id, Artifact>, id: Id)
    requires id in artifacts && KeysOwned(artifacts)
    ensures Shared(artifacts, id) <==> Used(artifacts - {id}, artifacts[id].key)
  {
    if Used(artifacts - {id}, artifacts[id].key) {
      var o :| o in artifacts - {id} && artifacts[o].key == artifacts[id].key;
      assert o in artifacts && o != id;
    }
    if Shared(artifacts, id) {
      var o :| o in artifacts && o != id && artifacts[o].org == artifacts[id].org && artifacts[o].key == artifacts[id].key;
      assert o in artifacts - {id};
    }
  }

  lemma UsedWithout(artifacts: map<Id, Artifact>, id: Id, k: Key)
    requires id in artifacts && KeysOwned(artifacts)
    ensures Used(artifacts - {id}, k) <==> Used(artifacts, k) && (k == artifacts[id].key ==> Shared(artifacts, id))
  {
    if k == artifacts[id].key {
      SharedIsUsed(artifacts, id);
      assert Used(artifacts, k);
    } else if Used(artifacts, k) {
      var o :| o in artifacts && artifacts[o].key == k;
      assert o in artifacts - {id};
    }
    if Used(artifacts - {id}, k) {
      var o :| o in artifacts - {id} && (artifacts - {id})[o].key == k;
      assert o in artifacts && artifacts[o].key == k;
    }
  }

  lemma OneMoreOrphan(before: map<Id, Artifact>, after: map<Id, Artifact>, id: Id)
    requires forall i :: i in after ==> i in before && after[i] == before[i]
    requires id in after && KeysOwned(after)
    ensures Orphaned(before, after - {id})
         == Orphaned(before, after) + if Shared(after, id) then {} else {after[id].key}
    ensures after[id].key !in Orphaned(before, after)
  {
    forall i | i in before
      ensures !Used(after - {id}, before[i].key)
          <==> !Used(after, before[i].key) || (before[i].key == after[id].key && !Shared(after, id))
    {
      UsedWithout(after, id, before[i].key);
    }
    assert Used(after, after[id].key);
    assert before[id].key == after[id].key;
  }

  lemma RemovedOneMore(before: Db, after: Db, n: nat, id: Id)
    requires Removed(before, after, n) && id in after.artifacts
    ensures Removed(before, OneArtifact(after, id, false).db, n + OneArtifact(after, id, false).counts.objects)
  {
    var orphans := Orphaned(before.artifacts, after.artifacts);
    var key := after.artifacts[id].key;
    OneMoreOrphan(before.artifacts, after.artifacts, id);
    if Shared(after.artifacts, id) {
      assert Orphaned(before.artifacts, after.artifacts - {id}) == orphans;
    } else {
      ClearedOneMore(before.objects, after.objects, orphans, n, key);
    }
  }

  ghost predicate RowsSwept(before: Db, db: Db, n: nat, w: Result, rows: set<Id>)
  {
    match w
    case Result(after, counts) =>
      && Removed(before, after, n + counts.objects)
      && after.artifacts == db.artifacts - rows && after.runs == db.runs && after.repos == db.repos
      && counts.rows == |rows|
  }

  lemma RowsSweptOneMore(before: Db, db: Db, n: nat, id: Id, rest: Result, rows: set<Id>)
    requires id in db.artifacts && id in rows
    requires var one := OneArtifact(db, id, false); RowsSwept(before, one.db, n + one.counts.objects, rest, rows - {id})
    ensures RowsSwept(before, db, n, Then(rest, OneArtifact(db, id, false).counts), rows)
  {
    assert db.artifacts - {id} - (rows - {id}) == db.artifacts - rows;
  }

  lemma {:induction false} WalkRunRemoves(before: Db, db: Db, n: nat, run: Id, at: Id)
    requires Removed(before, db, n)
    ensures RowsSwept(before, db, n, WalkRun(db, run, at, false), Rows(db.artifacts, run, at))
    decreases |Rows(db.artifacts, run, at)|
  {
    var rows := Rows(db.artifacts, run, at);
    if rows == {} {
      NoRows(db, run, at, false);
      assert db.artifacts - rows == db.artifacts;
    } else {
      var id := Least(rows);
      var one := OneArtifact(db, id, false);
      RemovedOneMore(before, db, n, id);
      RowsAfterArtifact(db, run, at, false);
      WalkRunRemoves(before, one.db, n + one.counts.objects, run, id);
      WalkRunStep(db, run, at, false);
      RowsSweptOneMore(before, db, n, id, WalkRun(one.db, run, id, false), rows);
    }
  }

  predicate Gone(db: Db, after: Db, rows: set<Id>, runs: set<Id>)
  {
    && after.artifacts == db.artifacts - rows && after.runs == db.runs - runs && after.repos == db.repos
  }

  /** From `db`, already `n` objects after `before`, a walk removed these rows and runs, and
      its receipt says so. */
  ghost predicate Swept(before: Db, db: Db, n: nat, w: Result, rows: set<Id>, runs: set<Id>)
  {
    match w
    case Result(after, counts) =>
      && Removed(before, after, n + counts.objects)
      && Gone(db, after, rows, runs)
      && counts.rows == |rows| + |runs * db.runs.Keys|
  }

  lemma RunRowGone(before: Db, db: Db, n: nat, arts: Result, rows: set<Id>, run: Id)
    requires RowsSwept(before, db, n, arts, rows)
    ensures Swept(before, db, n, Then(OneRun(arts.db, run, false), arts.counts), rows, {run})
  {
    if run in db.runs {
      assert {run} * db.runs.Keys == {run};
    } else {
      assert {run} * db.runs.Keys == {};
      assert db.runs - {run} == db.runs;
    }
  }

  lemma {:induction false} FinishRunRemoves(before: Db, db: Db, n: nat, run: Id, at: Id)
    requires Removed(before, db, n)
    ensures Swept(before, db, n, FinishRun(db, run, at, false), Rows(db.artifacts, run, at), {run})
  {
    WalkRunRemoves(before, db, n, run, at);
    RunRowGone(before, db, n, WalkRun(db, run, at, false), Rows(db.artifacts, run, at), run);
  }

  lemma GoneTwice(a: Db, b: Db, c: Db, rows: set<Id>, runs: set<Id>, moreRows: set<Id>, moreRuns: set<Id>)
    requires Gone(a, b, rows, runs) && Gone(b, c, moreRows, moreRuns)
    ensures Gone(a, c, rows + moreRows, runs + moreRuns)
  {}

  lemma SweptTwice(
    before: Db, db: Db, n: nat, here: Result, rest: Result, rows: set<Id>, runs: set<Id>, later: set<Id>, more: set<Id>)
    requires Swept(before, db, n, here, rows, runs) && Swept(before, here.db, n + here.counts.objects, rest, later, more)
    requires rows !! later && runs !! more
    ensures Swept(before, db, n, Then(rest, here.counts), rows + later, runs + more)
  {
    GoneTwice(db, here.db, rest.db, rows, runs, later, more);
    var keys := db.runs.Keys;
    assert here.db.runs.Keys == keys - runs;
    assert more * (keys - runs) == more * keys;
    assert (runs + more) * keys == runs * keys + more * keys;
  }

  /** What is left once a run is finished. */
  lemma AfterFinish(db: Db, here: Db, scope: Scope, run: Id, at: Id)
    requires Gone(db, here, Rows(db.artifacts, run, at), {run}) && KeysOwned(db.artifacts) && Positive(db.artifacts)
    ensures KeysOwned(here.artifacts) && Positive(here.artifacts)
    ensures Later(here.artifacts, here.runs, scope, run) == Later(db.artifacts, db.runs, scope, run)
    ensures MatchingRuns(here.runs, scope, run) == MatchingRuns(db.runs, scope, run)
  {}

  lemma NextTodo(here: Db, scope: Scope, run: Id)
    requires NextRun(here.runs, scope, run).Some? && Positive(here.artifacts)
    ensures var next := NextRun(here.runs, scope, run).value;
            && Todo(here, scope, next, 0) == Later(here.artifacts, here.runs, scope, run)
            && {next} + MatchingRuns(here.runs, scope, next) == MatchingRuns(here.runs, scope, run)
            && |MatchingRuns(here.runs, scope, next)| < |MatchingRuns(here.runs, scope, run)|
  {
    LaterSplits(here.artifacts, here.runs, scope, run);
    NextIsNearer(here.runs, scope, run);
  }

  lemma LaterIsElsewhere(artifacts: map<Id, Artifact>, runs: map<Id, Run>, scope: Scope, run: Id, at: Id)
    ensures Rows(artifacts, run, at) !! Later(artifacts, runs, scope, run)
    ensures run !in MatchingRuns(runs, scope, run)
    ensures MatchingRuns(runs, scope, run) == {} ==> Later(artifacts, runs, scope, run) == {}
  {}

  ghost predicate SweptByWalk(before: Db, db: Db, n: nat, scope: Scope, run: Id, at: Id)
  {
    Swept(before, db, n, WalkRuns(db, scope, run, at, false), Todo(db, scope, run, at), {run} + MatchingRuns(db.runs, scope, run))
  }

  lemma {:induction false} LastRun(db: Db, scope: Scope, run: Id, at: Id)
    requires NextRun(FinishRun(db, run, at, false).db.runs, scope, run).None?
    ensures WalkRuns(db, scope, run, at, false) == FinishRun(db, run, at, false)
    ensures Todo(db, scope, run, at) == Rows(db.artifacts, run, at)
    ensures {run} + MatchingRuns(db.runs, scope, run) == {run}
  {
    FinishRunKeeps(db, scope, run, at, false);
    LaterIsElsewhere(db.artifacts, db.runs, scope, run, at);
  }

  lemma {:induction false} SweptAtLast(before: Db, db: Db, n: nat, scope: Scope, run: Id, at: Id)
    requires Removed(before, db, n)
    requires NextRun(FinishRun(db, run, at, false).db.runs, scope, run).None?
    ensures SweptByWalk(before, db, n, scope, run, at)
  {
    FinishRunRemoves(before, db, n, run, at);
    LastRun(db, scope, run, at);
  }

  lemma {:induction false} SweptOnwards(before: Db, db: Db, n: nat, scope: Scope, run: Id, at: Id, here: Result, next: Id)
    requires here == FinishRun(db, run, at, false) && NextRun(here.db.runs, scope, run) == Some(next)
    requires Removed(before, db, n)
    requires SweptByWalk(before, here.db, n + here.counts.objects, scope, next, 0)
    ensures SweptByWalk(before, db, n, scope, run, at)
  {
    FinishRunRemoves(before, db, n, run, at);
    AfterFinish(db, here.db, scope, run, at);
    LaterIsElsewhere(db.artifacts, db.runs, scope, run, at);
    NextTodo(here.db, scope, run);
    SweptTwice(before, db, n, here, WalkRuns(here.db, scope, next, 0, false), Rows(db.artifacts, run, at), {run},
               Later(db.artifacts, db.runs, scope, run), MatchingRuns(db.runs, scope, run));
  }

  lemma {:induction false} NextRunIsReady(before: Db, db: Db, n: nat, scope: Scope, run: Id, at: Id, next: Id)
    requires Removed(before, db, n)
    requires NextRun(FinishRun(db, run, at, false).db.runs, scope, run) == Some(next)
    ensures var here := FinishRun(db, run, at, false);
            && Removed(before, here.db, n + here.counts.objects)
            && |MatchingRuns(here.db.runs, scope, next)| < |MatchingRuns(db.runs, scope, run)|
  {
    FinishRunRemoves(before, db, n, run, at);
    AfterFinish(db, FinishRun(db, run, at, false).db, scope, run, at);
    NextIsNearer(FinishRun(db, run, at, false).db.runs, scope, run);
  }

  lemma {:induction false} WalkRunsRemoves(before: Db, db: Db, n: nat, scope: Scope, run: Id, at: Id)
    requires Removed(before, db, n)
    ensures SweptByWalk(before, db, n, scope, run, at)
    decreases |MatchingRuns(db.runs, scope, run)|
  {
    var here := FinishRun(db, run, at, false);
    var next := NextRun(here.db.runs, scope, run);
    if next.None? {
      SweptAtLast(before, db, n, scope, run, at);
    } else {
      NextRunIsReady(before, db, n, scope, run, at, next.value);
      WalkRunsRemoves(before, here.db, n + here.counts.objects, scope, next.value, 0);
      SweptOnwards(before, db, n, scope, run, at, here, next.value);
    }
  }

  // ---- The finished deletion ---------------------------------------------------

  /** Keys used by a targeted row and by no other row. */
  function Freed(artifacts: map<Id, Artifact>, rows: set<Id>): set<Key>
  {
    set id | id in rows && id in artifacts && (forall o :: o in artifacts && o !in rows ==> artifacts[o].key != artifacts[id].key)
      :: artifacts[id].key
  }

  lemma FreedAreOrphaned(artifacts: map<Id, Artifact>, rows: set<Id>)
    ensures Orphaned(artifacts, artifacts - rows) == Freed(artifacts, rows)
  {
    var after := artifacts - rows;
    forall id | id in artifacts
      ensures !Used(after, artifacts[id].key)
          <==> forall o :: o in artifacts && o !in rows ==> artifacts[o].key != artifacts[id].key
    {
      forall o | o in artifacts && o !in rows ensures o in after {}
    }
    forall id | id in artifacts && id !in rows ensures Used(after, artifacts[id].key) {
      assert id in after;
    }
  }

  lemma WalkIsExact(db: Db, scope: Scope)
    requires WellFormed(db)
    ensures var w := WalkRuns(db, scope, StartRun(scope, Fresh()), 0, false);
            && w.db.artifacts == db.artifacts - Targets(db, scope)
            && w.db.runs == db.runs - TargetRuns(db.runs, scope) && w.db.repos == db.repos
            && w.db.objects == db.objects - Freed(db.artifacts, Targets(db, scope))
            && w.counts.objects == |Freed(db.artifacts, Targets(db, scope))|
            && w.counts.rows == |Targets(db, scope)| + |TargetRuns(db.runs, scope)|
  {
    var run := StartRun(scope, Fresh());
    var runs := {run} + MatchingRuns(db.runs, scope, run);
    NothingRemoved(db);
    WalkRunsRemoves(db, db, 0, scope, run, 0);
    FreshTodo(db, scope);
    FreedAreOrphaned(db.artifacts, Targets(db, scope));
    assert db.runs - runs == db.runs - (runs * db.runs.Keys);
  }

  lemma LastRowIsExact(db: Db, scope: Scope)
    ensures var last := LastRow(db, scope, false);
            var repos := if scope.RepoScope? then {scope.repo} * db.repos else {};
            && last.db == db.(repos := db.repos - repos) && last.counts == Counts(0, |repos|, 0)
  {
    if scope.RepoScope? {
      assert {scope.repo} * db.repos == if scope.repo in db.repos then {scope.repo} else {};
    }
    assert db.repos - {} == db.repos;
  }

  /** Which runs are left, by their columns: for a run job all but that run; for a repository
      job those of other repositories; for a retention job those that are not older than the
      cut-off or belong to an organization other than the one named. */
  ghost predicate RunsLeft(before: Db, scope: Scope, after: Db)
  {
    match scope
    case RunScope(run) => forall r :: r in after.runs <==> r in before.runs && r != run
    case RepoScope(repo) => forall r :: r in after.runs <==> r in before.runs && before.runs[r].repo != repo
    case RetentionScope(cutoff, org) =>
      forall r :: r in after.runs <==>
        r in before.runs && (before.runs[r].createdAt >= cutoff || (org.Some? && before.runs[r].org != org.value))
    case Incomplete => after.runs == before.runs
  }

  /** Everything else follows the runs: the artifact rows left are those of the runs left, no
      row has changed, an object is left exactly when a row left uses its key or no row ever
      did, and of the repositories only a repository job's own is gone. */
  ghost predicate RestLeft(before: Db, scope: Scope, after: Db)
  {
    && (forall r :: r in after.runs ==> r in before.runs && after.runs[r] == before.runs[r])
    && (forall id :: id in after.artifacts <==> id in before.artifacts && before.artifacts[id].run in after.runs)
    && (forall id :: id in after.artifacts ==> after.artifacts[id] == before.artifacts[id])
    && (forall k :: k in after.objects ==> k in before.objects && after.objects[k] == before.objects[k])
    && (forall k :: k in before.objects ==>
          (k in after.objects <==>
             || (exists id :: id in after.artifacts && after.artifacts[id].key == k)
             || (forall id :: id in before.artifacts ==> before.artifacts[id].key != k)))
    && (forall r :: r in after.repos <==> r in before.repos && (scope.RepoScope? ==> r != scope.repo))
  }

  lemma ExactLeavesTheRest(before: Db, scope: Scope, after: Db)
    requires WellFormed(before)
    requires after.artifacts == before.artifacts - Targets(before, scope)
    requires after.runs == before.runs - TargetRuns(before.runs, scope)
    requires after.repos == before.repos - (if scope.RepoScope? then {scope.repo} * before.repos else {})
    requires after.objects == before.objects - Freed(before.artifacts, Targets(before, scope))
    ensures RunsLeft(before, scope, after) && RestLeft(before, scope, after)
  {
    var gone := Targets(before, scope);
    forall k | k in before.objects
      ensures k in after.objects <==>
                || (exists id :: id in after.artifacts && after.artifacts[id].key == k)
                || (forall id :: id in before.artifacts ==> before.artifacts[id].key != k)
    {
      if k in Freed(before.artifacts, gone) {
        var id :| id in gone && id in before.artifacts && before.artifacts[id].key == k;
        forall o | o in after.artifacts ensures after.artifacts[o].key != k { assert o in before.artifacts && o !in gone; }
      } else if id :| id in before.artifacts && before.artifacts[id].key == k {
        var o :| o in before.artifacts && o !in gone && before.artifacts[o].key == k;
        assert o in after.artifacts;
      }
    }
  }

  /** A finished deletion: no targeted row or run is left, everything else is; an object is
      gone exactly when its key was used by a targeted row and by no other; the receipt
      counts what went. */
  lemma {:induction false} DeletionIsExact(db: Db, scope: Scope)
    requires WellFormed(db)
    ensures var r := Outcome(db, scope, Fresh(), false);
            var repos := if scope.RepoScope? then {scope.repo} * db.repos else {};
            && r.db.artifacts == db.artifacts - Targets(db, scope)
            && r.db.runs == db.runs - TargetRuns(db.runs, scope)
            && r.db.repos == db.repos - repos
            && r.db.objects == db.objects - Freed(db.artifacts, Targets(db, scope))
            && r.counts.objects == |Freed(db.artifacts, Targets(db, scope))|
            && r.counts.rows == |Targets(db, scope)| + |TargetRuns(db.runs, scope)| + |repos|
            && RunsLeft(db, scope, r.db) && RestLeft(db, scope, r.db)
  {
    WalkIsExact(db, scope);
    LastRowIsExact(WalkRuns(db, scope, StartRun(scope, Fresh()), 0, false).db, scope);
    ExactLeavesTheRest(db, scope, Outcome(db, scope, Fresh(), false).db);
  }

  // ---- The bytes on the receipt ------------------------------------------------

  /** Rows on one key record one length: that of the bytes the key names. */
  predicate OneLength(artifacts: map<Id, Artifact>, size: Key -> int)
  {
    forall id :: id in artifacts ==> artifacts[id].bytes == size(artifacts[id].key)
  }

  ghost function OrphanBytes(before: map<Id, Artifact>, after: map<Id, Artifact>, size: Key -> int): int
  {
    SetTotal(Orphaned(before, after), size)
  }

  lemma BytesOneMore(before: Db, db: Db, n: nat, id: Id, size: Key -> int)
    requires Removed(before, db, n) && OneLength(before.artifacts, size) && id in db.artifacts
    ensures var one := OneArtifact(db, id, false);
            OrphanBytes(before.artifacts, one.db.artifacts, size)
            == OrphanBytes(before.artifacts, db.artifacts, size) + one.counts.bytes
  {
    var orphans := Orphaned(before.artifacts, db.artifacts);
    OneMoreOrphan(before.artifacts, db.artifacts, id);
    if Shared(db.artifacts, id) {
      assert orphans + {} == orphans;
    } else {
      SetTotalAdd(orphans, size, db.artifacts[id].key);
    }
  }

  lemma {:induction false} WalkRunBytes(before: Db, db: Db, n: nat, run: Id, at: Id, size: Key -> int)
    requires Removed(before, db, n) && OneLength(before.artifacts, size)
    ensures var w := WalkRun(db, run, at, false);
            OrphanBytes(before.artifacts, w.db.artifacts, size)
            == OrphanBytes(before.artifacts, db.artifacts, size) + w.counts.bytes
    decreases |Rows(db.artifacts, run, at)|
  {
    var rows := Rows(db.artifacts, run, at);
    if rows == {} {
      NoRows(db, run, at, false);
    } else {
      var id := Least(rows);
      var one := OneArtifact(db, id, false);
      RowsAfterArtifact(db, run, at, false);
      BytesOneMore(before, db, n, id, size);
      RemovedOneMore(before, db, n, id);
      WalkRunBytes(before, one.db, n + one.counts.objects, run, id, size);
      WalkRunStep(db, run, at, false);
    }
  }

  ghost predicate BytesCounted(before: Db, db: Db, w: Result, size: Key -> int)
  {
    match w
    case Result(after, counts) =>
      OrphanBytes(before.artifacts, after.artifacts, size) == OrphanBytes(before.artifacts, db.artifacts, size) + counts.bytes
  }

  lemma BytesTwice(before: Db, db: Db, here: Result, rest: Result, size: Key -> int)
    requires BytesCounted(before, db, here, size) && BytesCounted(before, here.db, rest, size)
    ensures BytesCounted(before, db, Then(rest, here.counts), size)
  {}

  lemma {:induction false} FinishRunBytes(before: Db, db: Db, n: nat, run: Id, at: Id, size: Key -> int)
    requires Removed(before, db, n) && OneLength(before.artifacts, size)
    ensures BytesCounted(before, db, FinishRun(db, run, at, false), size)
  {
    WalkRunBytes(before, db, n, run, at, size);
  }

  lemma {:induction false} WalkRunsBytes(before: Db, db: Db, n: nat, scope: Scope, run: Id, at: Id, size: Key -> int)
    requires Removed(before, db, n) && OneLength(before.artifacts, size)
    ensures BytesCounted(before, db, WalkRuns(db, scope, run, at, false), size)
    decreases |MatchingRuns(db.runs, scope, run)|
  {
    var here := FinishRun(db, run, at, false);
    var next := NextRun(here.db.runs, scope, run);
    FinishRunBytes(before, db, n, run, at, size);
    if next.Some? {
      NextRunIsReady(before, db, n, scope, run, at, next.value);
      WalkRunsBytes(before, here.db, n + here.counts.objects, scope, next.value, 0, size);
      BytesTwice(before, db, here, WalkRuns(here.db, scope, next.value, 0, false), size);
    }
  }

  /** The bytes on the receipt of a finished deletion are those of the objects that went. */
  lemma ReceiptBytes(db: Db, scope: Scope, size: Key -> int)
    requires WellFormed(db) && OneLength(db.artifacts, size)
    ensures Outcome(db, scope, Fresh(), false).counts.bytes == SetTotal(Freed(db.artifacts, Targets(db, scope)), size)
  {
    var run := StartRun(scope, Fresh());
    NothingRemoved(db);
    WalkRunsBytes(db, db, 0, scope, run, 0, size);
    WalkIsExact(db, scope);
    FreedAreOrphaned(db.artifacts, Targets(db, scope));
    forall id | id in db.artifacts ensures Used(db.artifacts, db.artifacts[id].key) {}
    SetTotalEmpty(Orphaned(db.artifacts, db.artifacts), size);
  }

  // ---- The dry run -------------------------------------------------------------

  /** Targeted rows that no other row shares a key with: the ones a dry run counts. */
  function Unshared(artifacts: map<Id, Artifact>, rows: set<Id>): set<Id>
  {
    set id | id in rows && id in artifacts && !Shared(artifacts, id)
  }

  lemma {:induction false} DryRunWalk(db: Db, run: Id, at: Id)
    ensures var w := WalkRun(db, run, at, true);
            w.db == db && w.counts.rows == 0 && w.counts.objects == |Unshared(db.artifacts, Rows(db.artifacts, run, at))|
    decreases |Rows(db.artifacts, run, at)|
  {
    var rows := Rows(db.artifacts, run, at);
    if rows == {} {
      NoRows(db, run, at, true);
      assert Unshared(db.artifacts, rows) == {};
    } else {
      var id := Least(rows);
      RowsAfterArtifact(db, run, at, true);
      DryRunWalk(db, run, id);
      WalkRunStep(db, run, at, true);
      var rest := Unshared(db.artifacts, rows - {id});
      assert Unshared(db.artifacts, rows) == if Shared(db.artifacts, id) then rest else rest + {id};
    }
  }

  lemma UnsharedOfBoth(artifacts: map<Id, Artifact>, a: set<Id>, b: set<Id>)
    requires a !! b
    ensures |Unshared(artifacts, a + b)| == |Unshared(artifacts, a)| + |Unshared(artifacts, b)|
  {
    assert Unshared(artifacts, a + b) == Unshared(artifacts, a) + Unshared(artifacts, b);
  }

  /** A walk that changed nothing and counted the unshared rows. */
  ghost predicate OnlyCounted(db: Db, w: Result, rows: set<Id>)
  {
    match w
    case Result(after, counts) => after == db && counts.rows == 0 && counts.objects == |Unshared(db.artifacts, rows)|
  }

  lemma CountedTwice(db: Db, here: Result, rest: Result, rows: set<Id>, later: set<Id>)
    requires OnlyCounted(db, here, rows) && OnlyCounted(db, rest, later) && rows !! later
    ensures OnlyCounted(db, Then(rest, here.counts), rows + later)
  {
    UnsharedOfBoth(db.artifacts, rows, later);
  }

  lemma {:induction false} DryFinish(db: Db, run: Id, at: Id)
    ensures OnlyCounted(db, FinishRun(db, run, at, true), Rows(db.artifacts, run, at))
  {
    DryRunWalk(db, run, at);
  }

  lemma {:induction false} DryWalk(db: Db, scope: Scope, run: Id, at: Id)
    requires Positive(db.artifacts)
    ensures OnlyCounted(db, WalkRuns(db, scope, run, at, true), Todo(db, scope, run, at))
    decreases |MatchingRuns(db.runs, scope, run)|
  {
    var here := FinishRun(db, run, at, true);
    DryFinish(db, run, at);
    LaterIsElsewhere(db.artifacts, db.runs, scope, run, at);
    var rows, later := Rows(db.artifacts, run, at), Later(db.artifacts, db.runs, scope, run);
    var next := NextRun(db.runs, scope, run);
    if next.None? {
      assert rows + later == rows;
    } else {
      NextTodo(db, scope, run);
      DryWalk(db, scope, next.value, 0);
      CountedTwice(db, here, WalkRuns(db, scope, next.value, 0, true), rows, later);
    }
  }

  lemma DryRunCounts(db: Db, scope: Scope)
    requires WellFormed(db)
    ensures var r := Outcome(db, scope, Fresh(), true);
            r.db == db && r.counts.rows == 0 && r.counts.objects == |Unshared(db.artifacts, Targets(db, scope))|
  {
    DryWalk(db, scope, StartRun(scope, Fresh()), 0);
    FreshTodo(db, scope);
  }

  function KeysOf(artifacts: map<Id, Artifact>, rows: set<Id>): set<Key>
  {
    set id | id in rows && id in artifacts :: artifacts[id].key
  }

  /** Rows no two of which share a key have as many keys as rows. */
  lemma {:induction false} OneKeyEach(artifacts: map<Id, Artifact>, rows: set<Id>)
    requires rows <= artifacts.Keys
    requires forall i, j :: i in rows && j in rows && i != j ==> artifacts[i].key != artifacts[j].key
    ensures |KeysOf(artifacts, rows)| == |rows|
    decreases |rows|
  {
    if rows == {} {
      assert KeysOf(artifacts, rows) == {};
    } else {
      var id :| id in rows;
      OneKeyEach(artifacts, rows - {id});
      assert KeysOf(artifacts, rows) == KeysOf(artifacts, rows - {id}) + {artifacts[id].key};
    }
  }

  /** A key that goes although two targeted rows use it. */
  ghost predicate FreedTwice(artifacts: map<Id, Artifact>, rows: set<Id>)
  {
    exists i, j :: i in rows && j in rows && i != j && i in artifacts && j in artifacts
                   && artifacts[i].key == artifacts[j].key && artifacts[i].key in Freed(artifacts, rows)
  }

  lemma UnsharedAreFreed(artifacts: map<Id, Artifact>, rows: set<Id>)
    requires rows <= artifacts.Keys && KeysOwned(artifacts)
    ensures KeysOf(artifacts, Unshared(artifacts, rows)) <= Freed(artifacts, rows)
    ensures |KeysOf(artifacts, Unshared(artifacts, rows))| == |Unshared(artifacts, rows)|
  {
    OneKeyEach(artifacts, Unshared(artifacts, rows));
  }

  lemma AllFreedAreUnshared(artifacts: map<Id, Artifact>, rows: set<Id>)
    requires rows <= artifacts.Keys && KeysOwned(artifacts)
    ensures !FreedTwice(artifacts, rows) <==> KeysOf(artifacts, Unshared(artifacts, rows)) == Freed(artifacts, rows)
  {}

  /** The dry run never promises more objects than the real run removes, and promises fewer
      exactly when some freed object was used by two targeted rows. */
  lemma DryRunNeverExceeds(db: Db, scope: Scope)
    requires WellFormed(db)
    ensures Outcome(db, scope, Fresh(), true).counts.objects <= Outcome(db, scope, Fresh(), false).counts.objects
    ensures Outcome(db, scope, Fresh(), true).counts.objects == Outcome(db, scope, Fresh(), false).counts.objects
       <==> !FreedTwice(db.artifacts, Targets(db, scope))
  {
    var rows := Targets(db, scope);
    DryRunCounts(db, scope);
    DeletionIsExact(db, scope);
    UnsharedAreFreed(db.artifacts, rows);
    AllFreedAreUnshared(db.artifacts, rows);
    var keys := KeysOf(db.artifacts, Unshared(db.artifacts, rows));
    SmallerUnlessEqual(keys, Freed(db.artifacts, rows));
  }

  lemma SmallerUnlessEqual(s: set<Key>, t: set<Key>)
    requires s <= t
    ensures |s| <= |t| && (|s| == |t| <==> s == t)
  {
    assert t == s + (t - s);
  }
}
