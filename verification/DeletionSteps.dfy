/** What one stretch of the deletion walk may do to the tables, and that such stretches
    compose: the relations the loops of src/retention.ts 300-452 keep. */
module DeletionSteps {
  import opened Pricing
  import opened Store
  import opened Retention

  /** Other runs keep their row and their artifact rows, and those still find every object
      they found before. */
  ghost predicate Spared(before: Db, after: Db, runs: set<Id>)
  {
    && (forall r :: r in before.runs && r !in runs ==> r in after.runs && after.runs[r] == before.runs[r])
    && forall id :: id in before.artifacts && before.artifacts[id].run !in runs ==>
         && id in after.artifacts && after.artifacts[id] == before.artifacts[id]
         && (before.artifacts[id].key in before.objects ==>
               before.artifacts[id].key in after.objects
               && after.objects[before.artifacts[id].key] == before.objects[before.artifacts[id].key])
  }

  /** One run is as it was: its row, its artifact rows, and the objects they have. */
  ghost predicate Intact(before: Db, after: Db, run: Id)
  {
    && run in before.runs && run in after.runs && after.runs[run] == before.runs[run]
    && forall id :: id in before.artifacts && before.artifacts[id].run == run ==>
         && id in after.artifacts && after.artifacts[id] == before.artifacts[id]
         && (before.artifacts[id].key in before.objects ==>
               before.artifacts[id].key in after.objects
               && after.objects[before.artifacts[id].key] == before.objects[before.artifacts[id].key])
  }

  /** What a job must not touch, column by column: a run job every other run, a repository job
      the runs of other repositories, a retention job the runs that are not older than its
      cut-off and, when it names an organization, all runs of the others. */
  ghost predicate KeepsTheRest(scope: Scope, before: Db, after: Db)
  {
    match scope
    case RunScope(run) => forall r :: r in before.runs && r != run ==> Intact(before, after, r)
    case RepoScope(repo) => forall r :: r in before.runs && before.runs[r].repo != repo ==> Intact(before, after, r)
    case RetentionScope(cutoff, org) =>
      forall r :: r in before.runs && (before.runs[r].createdAt >= cutoff || (org.Some? && before.runs[r].org != org.value))
                  ==> Intact(before, after, r)
    case Incomplete => forall r :: r in before.runs ==> Intact(before, after, r)
  }

  lemma SparedKeepsTheRest(before: Db, after: Db, scope: Scope)
    requires Spared(before, after, TargetRuns(before.runs, scope))
    ensures KeepsTheRest(scope, before, after)
  {}

  /** Nothing was added. */
  ghost predicate Shrunk(before: Db, after: Db)
  {
    && (forall id :: id in after.artifacts ==> id in before.artifacts && after.artifacts[id] == before.artifacts[id])
    && (forall r :: r in after.runs ==> r in before.runs && after.runs[r] == before.runs[r])
    && after.repos <= before.repos
  }

  /** From `at` to `to` inside one run: what remains of the run's walk, plus what the receipt
      already holds, is what it was. */
  ghost predicate Advanced(before: Db, at: Id, counts: Counts, after: Db, to: Id, total: Counts, run: Id, dry: bool)
  {
    match after
    case Db(repos, runs, artifacts, _, _) =>
      && Then(WalkRun(after, run, to, dry), total) == Then(WalkRun(before, run, at, dry), counts)
      && runs == before.runs && repos == before.repos && at <= to
      && Shrunk(before, after) && Spared(before, after, {run})
      && (if dry then after == before else Rows(artifacts, run, at) == Rows(artifacts, run, to))
  }

  lemma AdvancedNot(db: Db, at: Id, counts: Counts, run: Id, dry: bool)
    ensures Advanced(db, at, counts, db, at, counts, run, dry)
  {}

  lemma RowsStayGone(before: map<Id, Artifact>, after: map<Id, Artifact>, run: Id, at: Id, to: Id, further: Id)
    requires forall id :: id in after ==> id in before && after[id] == before[id]
    requires Rows(before, run, at) == Rows(before, run, to) && Rows(after, run, to) == Rows(after, run, further)
    ensures Rows(after, run, at) == Rows(after, run, further)
  {
    forall id | id in Rows(after, run, at) ensures id in Rows(after, run, to) {
      assert id in Rows(before, run, at);
    }
    forall id | id in Rows(after, run, to) ensures id in Rows(after, run, at) {
      assert id in Rows(before, run, to);
    }
  }

  lemma AdvancedTwice(
    a: Db, at: Id, counts: Counts, b: Db, to: Id, total: Counts, c: Db, further: Id, final: Counts, run: Id, dry: bool)
    requires Advanced(a, at, counts, b, to, total, run, dry) && Advanced(b, to, total, c, further, final, run, dry)
    ensures Advanced(a, at, counts, c, further, final, run, dry)
  {
    if !dry {
      RowsStayGone(b.artifacts, c.artifacts, run, at, to, further);
    }
  }

  lemma ArtifactSpares(db: Db, id: Id)
    requires KeysOwned(db.artifacts) && id in db.artifacts
    ensures Spared(db, DeleteArtifact(db, id), {db.artifacts[id].run})
  {}

  lemma {:induction false} ArtifactAdvances(db: Db, run: Id, at: Id, counts: Counts, dry: bool)
    requires Rows(db.artifacts, run, at) != {} && KeysOwned(db.artifacts)
    ensures var id := Least(Rows(db.artifacts, run, at));
            var one := OneArtifact(db, id, dry);
            Advanced(db, at, counts, one.db, id, Then(one, counts).counts, run, dry)
  {
    var id := Least(Rows(db.artifacts, run, at));
    var one := OneArtifact(db, id, dry);
    RowsAfterArtifact(db, run, at, dry);
    WalkRunStep(db, run, at, dry);
    ThenThen(WalkRun(one.db, run, id, dry), one.counts, counts);
    if !dry {
      ArtifactSpares(db, id);
      assert Rows(one.db.artifacts, run, at) == Rows(one.db.artifacts, run, id);
    }
  }

  /** The object of the next row went, but its row is still there: the delete threw late. */
  lemma {:induction false} LateThrowAdvances(db: Db, run: Id, at: Id, counts: Counts)
    requires Rows(db.artifacts, run, at) != {} && KeysOwned(db.artifacts)
    requires !Shared(db.artifacts, Least(Rows(db.artifacts, run, at)))
    ensures var id := Least(Rows(db.artifacts, run, at));
            var lost := db.(objects := db.objects - {db.artifacts[id].key});
            Advanced(db, at, counts, lost, at, counts, run, false)
  {
    var id := Least(Rows(db.artifacts, run, at));
    var lost := db.(objects := db.objects - {db.artifacts[id].key});
    WalkRunStep(db, run, at, false);
    WalkRunStep(lost, run, at, false);
    assert DeleteArtifact(lost, id) == DeleteArtifact(db, id);
    ArtifactSpares(db, id);
  }

  // ---- Across runs -------------------------------------------------------------

  /** Everything before this place is gone: no row of the run up to `at`, and no earlier run
      that matches. */
  predicate Clear(db: Db, scope: Scope, run: Id, at: Id)
  {
    && Rows(db.artifacts, run, 0) == Rows(db.artifacts, run, at)
    && forall r :: r in db.runs && Matches(scope, r, db.runs[r]) ==> r >= run
  }

  /** Where a walk may stand. A dry run leaves what is behind it in place. */
  predicate Standing(db: Db, scope: Scope, run: Id, at: Id, dry: bool)
  {
    match db
    case Db(_, runs, _, _, _) =>
      && WellFormed(db)
      && (run in runs ==> Matches(scope, run, runs[run]))
      && (!dry ==> Clear(db, scope, run, at))
  }

  lemma StandingShrinks(before: Db, after: Db, scope: Scope, run: Id, at: Id, dry: bool)
    requires Standing(before, scope, run, at, dry) && Shrunk(before, after) && WellFormed(after)
    ensures Standing(after, scope, run, at, dry)
  {
    if !dry {
      RowsStayGone(before.artifacts, after.artifacts, run, 0, at, at);
    }
  }

  lemma AdvancedStands(
    db: Db, scope: Scope, run: Id, at: Id, counts: Counts, after: Db, to: Id, total: Counts, dry: bool)
    requires Standing(db, scope, run, at, dry) && Advanced(db, at, counts, after, to, total, run, dry)
    ensures Standing(after, scope, run, to, dry)
  {
    if !dry {
      RowsStayGone(db.artifacts, after.artifacts, run, 0, at, to);
    }
  }

  lemma AdvancedWalks(
    db: Db, scope: Scope, run: Id, at: Id, counts: Counts, after: Db, to: Id, total: Counts, dry: bool)
    requires Advanced(db, at, counts, after, to, total, run, dry)
    ensures Then(WalkRuns(after, scope, run, to, dry), total) == Then(WalkRuns(db, scope, run, at, dry), counts)
    ensures |Todo(after, scope, run, to)| == |Todo(db, scope, run, at)| + |Rows(after.artifacts, run, to)| - |Rows(db.artifacts, run, at)|
  {
    Continue(db, at, counts, after, to, total, scope, run, dry);
    LaterStays(db.artifacts, after.artifacts, db.runs, scope, run);
    Disjoint(db, scope, run, at);
    Disjoint(after, scope, run, to);
  }

  lemma Disjoint(db: Db, scope: Scope, run: Id, at: Id)
    ensures |Todo(db, scope, run, at)| == |Rows(db.artifacts, run, at)| + |Later(db.artifacts, db.runs, scope, run)|
  {}

  /** A run without rows left: its own row goes, and the walk goes on to the next one. */
  lemma {:induction false} RunFinishes(db: Db, scope: Scope, run: Id, at: Id, dry: bool)
    requires Rows(db.artifacts, run, at) == {} && Standing(db, scope, run, at, dry)
    ensures var one := OneRun(db, run, dry);
            match NextRun(one.db.runs, scope, run)
            case None => WalkRuns(db, scope, run, at, dry) == one && Todo(db, scope, run, at) == {}
            case Some(next) =>
              && WalkRuns(db, scope, run, at, dry) == Then(WalkRuns(one.db, scope, next, 0, dry), one.counts)
              && Todo(one.db, scope, next, 0) == Todo(db, scope, run, at)
  {
    NoRows(db, run, at, dry);
    TodoAfterRun(db, scope, run, at, dry);
  }

  lemma RunRowGoes(db: Db, scope: Scope, run: Id, at: Id, dry: bool)
    requires Rows(db.artifacts, run, at) == {} && Standing(db, scope, run, at, dry)
    ensures WellFormed(OneRun(db, run, dry).db) && Shrunk(db, OneRun(db, run, dry).db)
    ensures Spared(db, OneRun(db, run, dry).db, TargetRuns(db.runs, scope))
  {
    if !dry {
      forall id | id in db.artifacts ensures db.artifacts[id].run != run {
        assert id !in Rows(db.artifacts, run, 0);
      }
    }
  }

  lemma NextRunStands(db: Db, scope: Scope, run: Id, dry: bool)
    requires WellFormed(db) && NextRun(db.runs, scope, run).Some?
    requires !dry ==> forall r :: r in db.runs && Matches(scope, r, db.runs[r]) ==> r > run
    ensures var next := NextRun(db.runs, scope, run).value;
            next > run && next in db.runs && Standing(db, scope, next, 0, dry)
  {
    NextIsNearer(db.runs, scope, run);
    var next := NextRun(db.runs, scope, run).value;
    assert next in MatchingRuns(db.runs, scope, run);
    forall r | !dry && r in db.runs && Matches(scope, r, db.runs[r]) ensures r >= next {
      assert r in MatchingRuns(db.runs, scope, run);
    }
  }

  /** A batch that failed resumes from where the one before it ended, although the walk is
      further on: what lies between is gone, so both walks are the same. */
  lemma {:induction false} RestartsWhereItStood(db: Db, scope: Scope, run: Id, at: Id, from: Id, after: Id)
    requires Standing(db, scope, run, at, false) && Standing(db, scope, from, after, false)
    requires (from == run && after <= at) || (from < run && run in db.runs)
    ensures WalkRuns(db, scope, from, after, false) == WalkRuns(db, scope, run, at, false)
  {
    if from == run {
      SameRowsSameWalk(db, scope, run, after, at, false);
    } else {
      assert from !in db.runs;
      assert Rows(db.artifacts, from, after) == {};
      assert run in MatchingRuns(db.runs, scope, from);
      FinishedRunIsPassed(db, scope, from, after, false);
      SameRowsSameWalk(db, scope, run, 0, at, false);
    }
  }

  // ---- One batch ---------------------------------------------------------------

  /** A batch that started at `from` and now stands at (`run`, `at`), `used` rows later. */
  ghost predicate Walking(
    start: Db, scope: Scope, from: Cursor, db: Db, run: Id, at: Id, counts: Counts, used: nat, dry: bool)
  {
    match db
    case Db(_, runs, _, _, _) =>
      && Then(WalkRuns(db, scope, run, at, dry), counts) == WalkRuns(start, scope, from.run, from.artifact, dry)
      && Standing(db, scope, run, at, dry)
      && Shrunk(start, db) && Spared(start, db, TargetRuns(start.runs, scope)) && (dry ==> db == start)
      && ((run == from.run && from.artifact <= at) || (from.run < run && run in runs))
      && |Todo(db, scope, run, at)| + used == |Todo(start, scope, from.run, from.artifact)|
  }

  /** The same batch once no run is left. */
  ghost predicate Walked(start: Db, scope: Scope, from: Cursor, db: Db, counts: Counts, used: nat, dry: bool)
  {
    match db
    case Db(_, _, _, _, _) =>
      && Result(db, counts) == WalkRuns(start, scope, from.run, from.artifact, dry)
      && WellFormed(db)
      && Shrunk(start, db) && Spared(start, db, TargetRuns(start.runs, scope)) && (dry ==> db == start)
      && used == |Todo(start, scope, from.run, from.artifact)|
  }

  lemma WalkingStarts(db: Db, scope: Scope, from: Cursor, dry: bool)
    requires Standing(db, scope, from.run, from.artifact, dry)
    ensures Walking(db, scope, from, db, from.run, from.artifact, Nothing(), 0, dry)
  {}

  lemma SparedAlong(start: Db, scope: Scope, db: Db, run: Id, at: Id, after: Db, dry: bool)
    requires Standing(db, scope, run, at, dry) && Shrunk(start, db)
    requires Spared(start, db, TargetRuns(start.runs, scope)) && Spared(db, after, {run})
    ensures Spared(start, after, TargetRuns(start.runs, scope))
  {}

  lemma WalkingOn(
    start: Db, scope: Scope, from: Cursor, db: Db, run: Id, at: Id, counts: Counts, used: nat, dry: bool,
    after: Db, to: Id, total: Counts, more: nat)
    requires Walking(start, scope, from, db, run, at, counts, used, dry)
    requires Advanced(db, at, counts, after, to, total, run, dry)
    requires |Rows(after.artifacts, run, to)| + more == |Rows(db.artifacts, run, at)|
    ensures Walking(start, scope, from, after, run, to, total, used + more, dry)
  {
    AdvancedStands(db, scope, run, at, counts, after, to, total, dry);
    AdvancedWalks(db, scope, run, at, counts, after, to, total, dry);
    SparedAlong(start, scope, db, run, at, after, dry);
  }

  lemma SparedThen(start: Db, scope: Scope, db: Db, after: Db)
    requires Shrunk(start, db) && Shrunk(db, after)
    requires Spared(start, db, TargetRuns(start.runs, scope)) && Spared(db, after, TargetRuns(db.runs, scope))
    ensures Spared(start, after, TargetRuns(start.runs, scope)) && Shrunk(start, after)
  {}

  lemma NextRunIsReady(db: Db, scope: Scope, run: Id, at: Id, dry: bool)
    requires Rows(db.artifacts, run, at) == {} && Standing(db, scope, run, at, dry)
    requires NextRun(OneRun(db, run, dry).db.runs, scope, run).Some?
    ensures var after := OneRun(db, run, dry).db;
            var next := NextRun(after.runs, scope, run).value;
            next > run && next in after.runs && Standing(after, scope, next, 0, dry)
  {
    RunRowGoes(db, scope, run, at, dry);
    NextRunStands(OneRun(db, run, dry).db, scope, run, dry);
  }

  lemma WalkingToNextRun(
    start: Db, scope: Scope, from: Cursor, db: Db, run: Id, at: Id, counts: Counts, used: nat, dry: bool, next: Id)
    requires Walking(start, scope, from, db, run, at, counts, used, dry) && Rows(db.artifacts, run, at) == {}
    requires var one := OneRun(db, run, dry); NextRun(one.db.runs, scope, run) == Some(next)
    ensures var one := OneRun(db, run, dry);
            Walking(start, scope, from, one.db, next, 0, Then(one, counts).counts, used, dry)
  {
    var one := OneRun(db, run, dry);
    RunFinishes(db, scope, run, at, dry);
    ThenThen(WalkRuns(one.db, scope, next, 0, dry), one.counts, counts);
    NextRunIsReady(db, scope, run, at, dry);
    RunRowGoes(db, scope, run, at, dry);
    SparedThen(start, scope, db, one.db);
  }

  lemma WalkingEnds(
    start: Db, scope: Scope, from: Cursor, db: Db, run: Id, at: Id, counts: Counts, used: nat, dry: bool)
    requires Walking(start, scope, from, db, run, at, counts, used, dry) && Rows(db.artifacts, run, at) == {}
    requires NextRun(OneRun(db, run, dry).db.runs, scope, run).None?
    ensures var one := OneRun(db, run, dry);
            Walked(start, scope, from, one.db, Then(one, counts).counts, used, dry)
  {
    RunFinishes(db, scope, run, at, dry);
    RunRowGoes(db, scope, run, at, dry);
    SparedThen(start, scope, db, OneRun(db, run, dry).db);
  }

  /** A delete that threw leaves the batch's starting cursor in the job, and that is as good. */
  lemma WalkingRestarts(
    start: Db, scope: Scope, from: Cursor, db: Db, run: Id, at: Id, counts: Counts, used: nat)
    requires Walking(start, scope, from, db, run, at, counts, used, false)
    requires Standing(start, scope, from.run, from.artifact, false)
    ensures Standing(db, scope, from.run, from.artifact, false)
    ensures Then(WalkRuns(db, scope, from.run, from.artifact, false), counts)
         == WalkRuns(start, scope, from.run, from.artifact, false)
  {
    StandingShrinks(start, db, scope, from.run, from.artifact, false);
    RestartsWhereItStood(db, scope, run, at, from.run, from.artifact);
  }
}
