/** A deletion job whose calls lie hours apart, while other runs are declared, committed, swept
    and deleted (src/retention.ts 174-502): what is true of its target once it is done. */
module DeletionAmongOthers {
  import opened Pricing
  import opened Store
  import opened Retention
  import opened DeletionEffect
  import opened DeletionSteps
  import opened DeletionJobs
  import opened UploadRules
  import opened UploadBooks

  /** Every committed row outside the target has its object. */
  predicate Stocked(db: Db, scope: Scope)
  {
    match db
    case Db(_, runs, artifacts, objects, _) =>
      forall id :: id in artifacts && artifacts[id].state == Committed && artifacts[id].run !in TargetRuns(runs, scope) ==>
        artifacts[id].key in objects
  }

  /** No object under these keys is left without a row. */
  predicate Tidy(db: Db, keys: set<Key>)
  {
    forall k :: k in keys && k in db.objects ==> Used(db.artifacts, k)
  }

  predicate SameTarget(before: Db, after: Db, scope: Scope)
  {
    && TargetRuns(after.runs, scope) == TargetRuns(before.runs, scope)
    && (forall r :: r in TargetRuns(before.runs, scope) ==> after.runs[r] == before.runs[r])
    && Targets(after, scope) == Targets(before, scope)
    && (forall id :: id in Targets(before, scope) ==> after.artifacts[id] == before.artifacts[id])
    && (scope.RepoScope? ==> (scope.repo in after.repos ==> scope.repo in before.repos))
  }

  /** What others do between two calls: anything to other runs that leaves no object without a
      row and no committed row without its object, and gives no new run the id of the one the
      job's cursor stands in. */
  ghost predicate Elsewhere(before: Db, after: Db, scope: Scope, cursor: Cursor)
  {
    && WellFormed(after) && SameTarget(before, after, scope)
    && (cursor.run !in before.runs ==> cursor.run !in after.runs)
    && (forall k :: k in after.objects && !Used(after.artifacts, k) ==> k in before.objects && !Used(before.artifacts, k))
    && (Stocked(before, scope) ==> Stocked(after, scope))
  }

  // ---- Where the job stands does not matter ------------------------------------

  lemma {:induction false} SameFromTheStart(db: Db, scope: Scope, cursor: Cursor)
    requires Startable(db, scope, cursor, false)
    ensures Outcome(db, scope, cursor, false) == Outcome(db, scope, Fresh(), false)
  {
    var run, at := StartRun(scope, cursor), cursor.artifact;
    if scope.RunScope? || run == 0 {
      SameRowsSameWalk(db, scope, run, at, 0, false);
    } else if run in db.runs {
      RestartsWhereItStood(db, scope, run, at, 0, 0);
    } else {
      PassedRun(db, scope, run, at);
    }
  }

  lemma {:induction false} PassedRun(db: Db, scope: Scope, run: Id, at: Id)
    requires Standing(db, scope, run, at, false) && run !in db.runs && 0 !in db.runs
    ensures WalkRuns(db, scope, run, at, false) == WalkRuns(db, scope, 0, 0, false)
  {
    assert MatchingRuns(db.runs, scope, run) == MatchingRuns(db.runs, scope, 0);
    assert Rows(db.artifacts, run, at) == {} && Rows(db.artifacts, 0, 0) == {};
    FinishedRunIsPassed(db, scope, run, at, false);
    FinishedRunIsPassed(db, scope, 0, 0, false);
  }

  // ---- One call ----------------------------------------------------------------

  /** What one call may do: remove targeted rows, runs and objects nobody else uses, and, if it
      is the last, all of them. */
  ghost predicate Progressed(before: Db, after: Db, scope: Scope, done: bool)
  {
    && after.artifacts - Targets(after, scope) == before.artifacts - Targets(before, scope)
    && after.objects - Freed(after.artifacts, Targets(after, scope)) == before.objects - Freed(before.artifacts, Targets(before, scope))
    && after.runs - TargetRuns(after.runs, scope) == before.runs - TargetRuns(before.runs, scope)
    && WellFormed(after)
    && (done ==> Targets(after, scope) == {} && TargetRuns(after.runs, scope) == {} && (scope.RepoScope? ==> scope.repo !in after.repos))
  }

  lemma {:induction false} CallProgresses(before: Db, job: Job, now: nat, after: Db, out: BatchOutcome)
    requires Batched(before, job, now, after, out) && out.claimed && !job.dry && Ready(before, job)
    ensures Progressed(before, after, job.scope, out.job.state == Done)
  {
    SameFromTheStart(before, job.scope, job.cursor);
    DeletionIsExact(before, job.scope);
    if out.job.state == Done {
      LastCall(before, after, job.scope);
    } else {
      SameFromTheStart(after, job.scope, out.job.cursor);
      DeletionIsExact(after, job.scope);
    }
  }

  lemma LastCall(before: Db, after: Db, scope: Scope)
    requires WellFormed(before)
    requires after.artifacts == before.artifacts - Targets(before, scope)
    requires after.runs == before.runs - TargetRuns(before.runs, scope)
    requires after.objects == before.objects - Freed(before.artifacts, Targets(before, scope))
    requires after.repos == before.repos - if scope.RepoScope? then {scope.repo} * before.repos else {}
    ensures Progressed(before, after, scope, true)
  {
    assert Targets(after, scope) == {} && TargetRuns(after.runs, scope) == {};
    assert Freed(after.artifacts, {}) == {};
  }

  lemma ProgressIsTidy(before: Db, after: Db, scope: Scope, done: bool, keys: set<Key>)
    requires Progressed(before, after, scope, done) && Tidy(before, keys)
    ensures Tidy(after, keys)
  {
    forall k | k in keys && k in after.objects ensures Used(after.artifacts, k) {
      if k !in Freed(after.artifacts, Targets(after, scope)) {
        assert k in after.objects - Freed(after.artifacts, Targets(after, scope));
        var o :| o in before.artifacts && before.artifacts[o].key == k;
        SurvivorUses(before, scope, k, o);
        var s :| s in before.artifacts - Targets(before, scope) && before.artifacts[s].key == k;
        assert s in after.artifacts - Targets(after, scope);
      }
    }
  }

  /** A key that is in use and is not to be freed is used by a row outside the target. */
  lemma SurvivorUses(db: Db, scope: Scope, k: Key, o: Id)
    requires o in db.artifacts && db.artifacts[o].key == k && k !in Freed(db.artifacts, Targets(db, scope))
    ensures exists s :: s in db.artifacts - Targets(db, scope) && db.artifacts[s].key == k
  {
    if o !in Targets(db, scope) {
      assert o in db.artifacts - Targets(db, scope);
    } else {
      var s :| s in db.artifacts && s !in Targets(db, scope) && db.artifacts[s].key == k;
      assert s in db.artifacts - Targets(db, scope);
    }
  }

  lemma ProgressKeepsStock(before: Db, after: Db, scope: Scope, done: bool)
    requires Progressed(before, after, scope, done) && Stocked(before, scope)
    requires Spared(before, after, TargetRuns(before.runs, scope))
    ensures Stocked(after, scope)
  {
    forall id | id in after.artifacts && after.artifacts[id].state == Committed && after.artifacts[id].run !in TargetRuns(after.runs, scope)
      ensures after.artifacts[id].key in after.objects
    {
      assert id in after.artifacts - Targets(after, scope);
      assert id in before.artifacts - Targets(before, scope);
    }
  }

  // ---- Any number of calls, with others in between -----------------------------

  /** One stretch of the job's life: a call of it, or what others did meanwhile. */
  ghost predicate Leg(scope: Scope, before: Db, job: Job, after: Db, left: Job)
  {
    || (exists now, out :: Batched(before, job, now, after, out) && out.job == left)
    || (left == job && Elsewhere(before, after, scope, job.cursor))
  }

  ghost predicate Underway(db: Db, job: Job, scope: Scope, keys: set<Key>, stocked: bool)
  {
    match job
    case Job(s, dry, state, _, _, _, _) =>
      && s == scope && !dry && Ready(db, job) && WellFormed(db) && Tidy(db, keys) && (stocked ==> Stocked(db, scope))
      && (state == Done ==> Targets(db, scope) == {} && TargetRuns(db.runs, scope) == {} && (scope.RepoScope? ==> scope.repo !in db.repos))
  }

  lemma CallGoesOn(before: Db, job: Job, now: nat, after: Db, out: BatchOutcome, scope: Scope, keys: set<Key>, stocked: bool)
    requires Underway(before, job, scope, keys, stocked) && Batched(before, job, now, after, out)
    ensures Underway(after, out.job, scope, keys, stocked)
  {
    if out.claimed {
      CallProgresses(before, job, now, after, out);
      ProgressIsTidy(before, after, scope, out.job.state == Done, keys);
      if stocked { ProgressKeepsStock(before, after, scope, out.job.state == Done); }
    }
  }

  /** The job may resume where it stood. */
  lemma StillReady(before: Db, after: Db, job: Job, scope: Scope)
    requires Ready(before, job) && job.scope == scope && !job.dry && WellFormed(before) && Elsewhere(before, after, scope, job.cursor)
    ensures Ready(after, job)
  {
    if job.state != Done {
      var run, at := StartRun(scope, job.cursor), job.cursor.artifact;
      assert run in after.runs ==> Matches(scope, run, after.runs[run]) by {
        if run in after.runs {
          if run in before.runs {
            assert run in TargetRuns(before.runs, scope);
            assert run in TargetRuns(after.runs, scope);
          } else if scope.RunScope? {
            assert run in TargetRuns(after.runs, scope);
          }
        }
      }
      forall r | r in after.runs && Matches(scope, r, after.runs[r]) ensures r >= run {
        assert r in TargetRuns(after.runs, scope);
      }
      SameRowsOfTheRun(before, after, scope, run, at);
    }
  }

  lemma SameRowsOfTheRun(before: Db, after: Db, scope: Scope, run: Id, at: Id)
    requires WellFormed(before) && WellFormed(after) && SameTarget(before, after, scope)
    requires Rows(before.artifacts, run, 0) == Rows(before.artifacts, run, at)
    requires run in before.runs ==> Matches(scope, run, before.runs[run])
    requires run in after.runs ==> Matches(scope, run, after.runs[run])
    ensures Rows(after.artifacts, run, 0) == Rows(after.artifacts, run, at)
  {
    forall id | id in Rows(after.artifacts, run, 0) ensures id > at {
      assert run in TargetRuns(after.runs, scope) && id in Targets(after, scope);
      assert id in Targets(before, scope) && id in Rows(before.artifacts, run, 0);
    }
  }

  lemma OthersGoOn(before: Db, job: Job, after: Db, scope: Scope, keys: set<Key>, stocked: bool)
    requires Underway(before, job, scope, keys, stocked) && Elsewhere(before, after, scope, job.cursor)
    ensures Underway(after, job, scope, keys, stocked)
  {
    StillReady(before, after, job, scope);
  }

  /** A job over the tables `start` after any calls of it, with any batch sizes and through any
      failed deletes, among any writes of others: once it is done, no targeted run or row is
      left, nor the repository; no object under a key that a targeted row used is left without
      a row; and none was taken from a committed row outside the target. */
  lemma {:induction false} FinishedAmongOthers(start: Db, scope: Scope, tables: seq<Db>, jobs: seq<Job>)
    requires |tables| == |jobs| > 0 && WellFormed(start)
    requires tables[0] == start && jobs[0] == Job(scope, false, Queued, 0, 0, Fresh(), Nothing())
    requires forall i :: 0 <= i < |jobs| - 1 ==> Leg(scope, tables[i], jobs[i], tables[i + 1], jobs[i + 1])
    ensures Underway(tables[|tables| - 1], jobs[|jobs| - 1], scope, KeysOf(start.artifacts, Targets(start, scope)), Stocked(start, scope))
    decreases |jobs|
  {
    var keys, stocked := KeysOf(start.artifacts, Targets(start, scope)), Stocked(start, scope);
    var last := |jobs| - 1;
    if last == 0 {
      FreshIsReady(start, scope, false);
    } else {
      FinishedAmongOthers(start, scope, tables[..last], jobs[..last]);
      var before, job, after, left := tables[last - 1], jobs[last - 1], tables[last], jobs[last];
      assert Leg(scope, tables[last - 1], jobs[last - 1], tables[last - 1 + 1], jobs[last - 1 + 1]);
      if now, out :| Batched(before, job, now, after, out) && out.job == left {
        CallGoesOn(before, job, now, after, out, scope, keys, stocked);
      } else {
        OthersGoOn(before, job, after, scope, keys, stocked);
      }
    }
  }

  predicate PendingOn(artifacts: map<Id, Artifact>, key: Key)
  {
    exists id :: id in artifacts && artifacts[id].key == key && artifacts[id].state == Pending
  }

  /** So, once it is done: a targeted key is gone exactly when no row left uses it, but for keys
      that an upload is still pending on. */
  lemma TargetIsGoneAmongOthers(start: Db, scope: Scope, tables: seq<Db>, jobs: seq<Job>)
    requires |tables| == |jobs| > 0 && WellFormed(start) && Stocked(start, scope)
    requires tables[0] == start && jobs[0] == Job(scope, false, Queued, 0, 0, Fresh(), Nothing())
    requires forall i :: 0 <= i < |jobs| - 1 ==> Leg(scope, tables[i], jobs[i], tables[i + 1], jobs[i + 1])
    requires jobs[|jobs| - 1].state == Done
    ensures var db := tables[|tables| - 1];
            && Targets(db, scope) == {} && TargetRuns(db.runs, scope) == {} && (scope.RepoScope? ==> scope.repo !in db.repos)
            && (forall k :: k in KeysOf(start.artifacts, Targets(start, scope)) && !PendingOn(db.artifacts, k) ==>
                  (k !in db.objects <==> !Used(db.artifacts, k)))
            && (forall k :: k in KeysOf(start.artifacts, Targets(start, scope)) && !Used(db.artifacts, k) ==> k !in db.objects)
  {
    FinishedAmongOthers(start, scope, tables, jobs);
    var db := tables[|tables| - 1];
    forall k | k in KeysOf(start.artifacts, Targets(start, scope)) && !PendingOn(db.artifacts, k) && Used(db.artifacts, k)
      ensures k in db.objects
    {
      var o :| o in db.artifacts && db.artifacts[o].key == k;
      assert db.artifacts[o].state == Committed;
    }
  }

  // ---- What others do is of that kind ------------------------------------------

  /** An upload or a deletion outside the target. Declarations deduplicate only onto objects
      that are there, and a failing run waits for no key that a committed row uses. */
  predicate Foreign(db: Db, a: Action, scope: Scope, cursor: Cursor)
  {
    match a
    case Declaring(d, _) =>
      && !Matches(scope, d.run, Run(d.org, d.repo, d.createdAt, Pending)) && d.run != cursor.run
      && (scope.RepoScope? ==> d.repo != scope.repo)
      && (forall item :: item in d.items && item.sha in d.held ==> d.held[item.sha] in db.objects)
    case Transferring(_, _) => true
    case Committing(run, _) => run !in TargetRuns(db.runs, scope)
    case Failing(run) => run !in TargetRuns(db.runs, scope) && WaitsAlone(db, run)
    case BreakingOff(run, _) => run !in TargetRuns(db.runs, scope) && WaitsAlone(db, run)
    case DeletingRow(id) => id !in Targets(db, scope)
    case DeletingRun(run) => run !in TargetRuns(db.runs, scope)
  }

  predicate WaitsAlone(db: Db, run: Id)
  {
    forall id :: id in db.artifacts && db.artifacts[id].state == Committed ==>
      db.artifacts[id].key !in KeysAt(db.artifacts, PendingRows(db.artifacts, run))
  }

  lemma ForeignRow(db: Db, d: Declaration, plan: Plan, scope: Scope, cursor: Cursor, id: Id)
    requires WellFormed(db) && Declarable(db, d, plan) && Foreign(db, Declaring(d, plan), scope, cursor)
    requires id in DeclareRun(db, d).artifacts && id !in db.artifacts
    ensures var a := DeclareRun(db, d).artifacts[id];
            id > 0 && a.run == d.run && a.key.org == a.org && (a.state == Committed ==> a.key in db.objects)
  {
    InsertedRows(db.artifacts, d, |d.items|);
    var i :| 0 <= i < |d.items| && id == d.ids[i] && DeclareRun(db, d).artifacts[id] == RowOf(d, d.items[i]);
    assert d.items[i] in d.items;
    if d.items[i].sha in d.held {
      var o :| o in db.artifacts && db.artifacts[o].org == d.org && db.artifacts[o].state == Committed
               && db.artifacts[o].key == d.held[d.items[i].sha];
    }
  }

  /** Adding rows of one new run outside the target. */
  lemma RowsOfANewRun(db: Db, after: Db, run: Id, row: Run, scope: Scope)
    requires WellFormed(db) && run !in db.runs && run > 0 && !Matches(scope, run, row) && after.runs == db.runs[run := row]
    requires forall id :: id in db.artifacts ==> id in after.artifacts && after.artifacts[id] == db.artifacts[id]
    requires forall id :: id in after.artifacts && id !in db.artifacts ==>
               id > 0 && after.artifacts[id].run == run && after.artifacts[id].key.org == after.artifacts[id].org
    ensures WellFormed(after)
    ensures TargetRuns(after.runs, scope) == TargetRuns(db.runs, scope) && Targets(after, scope) == Targets(db, scope)
    ensures forall k :: Used(db.artifacts, k) ==> Used(after.artifacts, k)
  {
    forall k | Used(db.artifacts, k) ensures Used(after.artifacts, k) {
      var o :| o in db.artifacts && db.artifacts[o].key == k;
      assert after.artifacts[o].key == k;
    }
  }

  /** New committed rows find their objects. */
  lemma StockOfANewRun(db: Db, after: Db, run: Id, row: Run, scope: Scope)
    requires WellFormed(db) && Stocked(db, scope) && run !in db.runs && !Matches(scope, run, row)
    requires after.runs == db.runs[run := row] && after.objects == db.objects
    requires forall id :: id in db.artifacts ==> id in after.artifacts && after.artifacts[id] == db.artifacts[id]
    requires forall id :: id in after.artifacts && id !in db.artifacts ==>
               after.artifacts[id].state == Committed ==> after.artifacts[id].key in db.objects
    ensures Stocked(after, scope)
  {}

  lemma ForeignDeclaration(db: Db, d: Declaration, plan: Plan, scope: Scope, cursor: Cursor)
    requires WellFormed(db) && Declarable(db, d, plan) && Foreign(db, Declaring(d, plan), scope, cursor)
    ensures Elsewhere(db, DeclareRun(db, d), scope, cursor)
  {
    var after, row := DeclareRun(db, d), Run(d.org, d.repo, d.createdAt, Pending);
    InsertedRows(db.artifacts, d, |d.items|);
    forall id | id in after.artifacts && id !in db.artifacts
      ensures id > 0 && after.artifacts[id].run == d.run && after.artifacts[id].key.org == after.artifacts[id].org
      ensures after.artifacts[id].state == Committed ==> after.artifacts[id].key in db.objects
    {
      ForeignRow(db, d, plan, scope, cursor, id);
    }
    RowsOfANewRun(db, after, d.run, row, scope);
    if Stocked(db, scope) { StockOfANewRun(db, after, d.run, row, scope); }
    assert SameTarget(db, after, scope);
  }

  lemma ForeignTransfer(db: Db, key: Key, blob: Blob, scope: Scope, cursor: Cursor)
    requires WellFormed(db) && Enabled(db, Transferring(key, blob))
    ensures Elsewhere(db, db.(objects := db.objects[key := blob]), scope, cursor)
  {
    var after := db.(objects := db.objects[key := blob]);
    assert Targets(after, scope) == Targets(db, scope);
  }

  lemma ForeignCommit(db: Db, run: Id, verifyContent: bool, scope: Scope, cursor: Cursor)
    requires WellFormed(db) && Enabled(db, Committing(run, verifyContent)) && Foreign(db, Committing(run, verifyContent), scope, cursor)
    ensures Elsewhere(db, CommitRun(db, run), scope, cursor)
  {
    var after := CommitRun(db, run);
    forall id | id in PendingRows(db.artifacts, run) ensures Arrived(db.objects, db.artifacts[id], verifyContent) {}
    RunRowRewritten(db, after, run, scope);
    forall k | !Used(after.artifacts, k) ensures !Used(db.artifacts, k) {
      forall o | o in db.artifacts ensures db.artifacts[o].key != k { assert after.artifacts[o].key == db.artifacts[o].key; }
    }
  }

  /** A run outside the target stays outside whatever becomes of its state. */
  lemma RunRowRewritten(db: Db, after: Db, run: Id, scope: Scope)
    requires run in db.runs && run !in TargetRuns(db.runs, scope)
    requires after.runs == db.runs[run := db.runs[run].(state := Committed)]
    requires after.artifacts.Keys == db.artifacts.Keys
    requires forall id :: id in db.artifacts ==> after.artifacts[id].run == db.artifacts[id].run
    ensures TargetRuns(after.runs, scope) == TargetRuns(db.runs, scope) && Targets(after, scope) == Targets(db, scope)
  {}

  lemma ForeignFailure(db: Db, run: Id, scope: Scope, cursor: Cursor)
    requires WellFormed(db) && Enabled(db, Failing(run)) && Foreign(db, Failing(run), scope, cursor)
    ensures Elsewhere(db, FailRun(db, run), scope, cursor)
  {
    var after, rows := FailRun(db, run), PendingRows(db.artifacts, run);
    assert TargetRuns(after.runs, scope) == TargetRuns(db.runs, scope);
    assert Targets(after, scope) == Targets(db, scope);
    forall k | k in after.objects && !Used(after.artifacts, k) ensures !Used(db.artifacts, k) {
      forall o | o in db.artifacts ensures db.artifacts[o].key != k {
        if o !in rows { assert after.artifacts[o] == db.artifacts[o]; }
      }
    }
  }

  lemma ForeignBreakingOff(db: Db, run: Id, keys: set<Key>, scope: Scope, cursor: Cursor)
    requires WellFormed(db) && Enabled(db, BreakingOff(run, keys)) && Foreign(db, BreakingOff(run, keys), scope, cursor)
    ensures Elsewhere(db, db.(objects := db.objects - keys), scope, cursor)
  {
    assert Targets(db.(objects := db.objects - keys), scope) == Targets(db, scope);
  }

  lemma DeletionLeavesUsers(db: Db, id: Id, k: Key)
    requires id in db.artifacts && Used(db.artifacts, k) && k in DeleteArtifact(db, id).objects
    ensures Used(DeleteArtifact(db, id).artifacts, k)
  {
    var after := DeleteArtifact(db, id);
    var o :| o in db.artifacts && db.artifacts[o].key == k;
    if o == id {
      assert Shared(db.artifacts, id);
      var other :| other in db.artifacts && other != id && db.artifacts[other].key == k;
      assert after.artifacts[other].key == k;
    } else {
      assert after.artifacts[o].key == k;
    }
  }

  lemma ForeignDeletion(db: Db, id: Id, scope: Scope, cursor: Cursor)
    requires WellFormed(db) && Enabled(db, DeletingRow(id)) && Foreign(db, DeletingRow(id), scope, cursor)
    ensures Elsewhere(db, DeleteArtifact(db, id), scope, cursor)
  {
    var after := DeleteArtifact(db, id);
    assert Targets(after, scope) == Targets(db, scope);
    forall k | k in after.objects && Used(db.artifacts, k) ensures Used(after.artifacts, k) {
      DeletionLeavesUsers(db, id, k);
    }
  }

  lemma ForeignRunRow(db: Db, run: Id, scope: Scope, cursor: Cursor)
    requires WellFormed(db) && Enabled(db, DeletingRun(run)) && Foreign(db, DeletingRun(run), scope, cursor)
    ensures Elsewhere(db, db.(runs := db.runs - {run}), scope, cursor)
  {
    var after := db.(runs := db.runs - {run});
    assert TargetRuns(after.runs, scope) == TargetRuns(db.runs, scope);
    assert Targets(after, scope) == Targets(db, scope);
  }

  /** Every upload, sweep and deletion outside the target is what the theorem allows others. */
  lemma ForeignStepsAreElsewhere(db: Db, a: Action, scope: Scope, cursor: Cursor)
    requires WellFormed(db) && Enabled(db, a) && Foreign(db, a, scope, cursor)
    ensures Elsewhere(db, Step(db, a), scope, cursor)
  {
    match a
    case Declaring(d, plan) => ForeignDeclaration(db, d, plan, scope, cursor);
    case Transferring(key, blob) => ForeignTransfer(db, key, blob, scope, cursor);
    case Committing(run, verifyContent) => ForeignCommit(db, run, verifyContent, scope, cursor);
    case Failing(run) => ForeignFailure(db, run, scope, cursor);
    case BreakingOff(run, keys) => ForeignBreakingOff(db, run, keys, scope, cursor);
    case DeletingRow(id) => ForeignDeletion(db, id, scope, cursor);
    case DeletingRun(run) => ForeignRunRow(db, run, scope, cursor);
  }
}
