/** The deletion walk (src/retention.ts 281-502) as a function: what is left to do from a
    cursor, and what it leaves behind. One walk serves the run, repository and retention
    scopes; the dry run is the same walk without its two mutations. */
module Retention {
  import opened Pricing
  import opened Store
  import Order

  datatype Scope =
    | RunScope(run: Id)
    | RepoScope(repo: Id)
    | RetentionScope(cutoff: nat, org: Option<Id>)
    | Incomplete // a job without its target or its cut-off: every batch of it throws

  /** `{runId}\0{artifactId}`; both parts 0 when the job is fresh. A run job uses only the
      second part. */
  datatype Cursor = Cursor(run: Id, artifact: Id)

  datatype Counts = Counts(objects: nat, rows: nat, bytes: nat)

  function Nothing(): Counts { Counts(0, 0, 0) }

  datatype Result = Result(db: Db, counts: Counts)

  // ---- The queries -------------------------------------------------------------

  lemma LeastExists(ids: set<Id>)
    requires ids != {}
    ensures exists least :: least in ids && forall x :: x in ids ==> least <= x
  {
    var least := Order.First(ids, Order.ById());
    assert forall x :: x in ids ==> Order.Le(Order.ById(), least, x);
  }

  /** `ORDER BY id LIMIT 1`. */
  function Least(ids: set<Id>): (least: Id)
    requires ids != {}
    ensures least in ids && forall x :: x in ids ==> least <= x
  {
    LeastExists(ids);
    var least :| least in ids && forall x :: x in ids ==> least <= x;
    least
  }

  /** `WHERE run_id = $1 AND id > $2`. */
  function Rows(artifacts: map<Id, Artifact>, run: Id, after: Id): set<Id>
  {
    set id | id in artifacts && artifacts[id].run == run && id > after
  }

  /** Does a run belong to the deletion? */
  predicate Matches(scope: Scope, id: Id, r: Run)
  {
    match scope
    case RunScope(run) => id == run
    case RepoScope(repo) => r.repo == repo
    case RetentionScope(cutoff, org) => r.createdAt < cutoff && (org.None? || r.org == org.value)
    case Incomplete => false
  }

  function MatchingRuns(runs: map<Id, Run>, scope: Scope, after: Id): set<Id>
  {
    set id | id in runs && Matches(scope, id, runs[id]) && id > after
  }

  /** `... ORDER BY id LIMIT 1`. */
  function NextRun(runs: map<Id, Run>, scope: Scope, after: Id): Option<Id>
  {
    var matching := MatchingRuns(runs, scope, after);
    if matching == {} then None else Some(Least(matching))
  }

  // ---- One artifact, one run row, the repository row ---------------------------

  /** The object first, and only with its last reference; then the row. */
  function DeleteArtifact(db: Db, id: Id): Db
    requires id in db.artifacts
  {
    var a := db.artifacts[id];
    if Shared(db.artifacts, id) then db.(artifacts := db.artifacts - {id})
    else db.(objects := db.objects - {a.key}, quota := Forget(db.quota, a.org, a.bytes),
             artifacts := db.artifacts - {id})
  }

  function OneArtifact(db: Db, id: Id, dry: bool): Result
    requires id in db.artifacts
  {
    var rows := if dry then 0 else 1;
    var counts := if Shared(db.artifacts, id) then Counts(0, rows, 0) else Counts(1, rows, db.artifacts[id].bytes);
    Result(if dry then db else DeleteArtifact(db, id), counts)
  }

  function OneRun(db: Db, run: Id, dry: bool): Result
  {
    if dry || run !in db.runs then Result(db, Nothing())
    else Result(db.(runs := db.runs - {run}), Counts(0, 1, 0))
  }

  function LastRow(db: Db, scope: Scope, dry: bool): Result
  {
    if scope.RepoScope? && !dry && scope.repo in db.repos then
      Result(db.(repos := db.repos - {scope.repo}), Counts(0, 1, 0))
    else Result(db, Nothing())
  }

  // ---- What is left to do ------------------------------------------------------

  ghost function Then(r: Result, counts: Counts): Result
  {
    Result(r.db, Counts(counts.objects + r.counts.objects, counts.rows + r.counts.rows, counts.bytes + r.counts.bytes))
  }

  ghost function WalkRun(db: Db, run: Id, at: Id, dry: bool): (r: Result)
    decreases |Rows(db.artifacts, run, at)|
  {
    var rows := Rows(db.artifacts, run, at);
    if rows == {} then Result(db, Nothing())
    else
      var id := Least(rows);
      var one := OneArtifact(db, id, dry);
      Fewer(Rows(one.db.artifacts, run, id), rows, id);
      Then(WalkRun(one.db, run, id, dry), one.counts)
  }

  lemma Fewer(smaller: set<Id>, larger: set<Id>, x: Id)
    requires smaller <= larger && x in larger && x !in smaller
    ensures |smaller| < |larger|
  {
    Subset(smaller, larger - {x});
  }

  lemma {:induction false} Subset(s: set<Id>, t: set<Id>)
    requires s <= t
    ensures |s| <= |t|
    decreases |s|
  {
    if s != {} {
      var x :| x in s;
      Subset(s - {x}, t - {x});
    }
  }

  lemma {:induction false} WalkRunKeepsRuns(db: Db, run: Id, at: Id, dry: bool)
    ensures WalkRun(db, run, at, dry).db.runs == db.runs && WalkRun(db, run, at, dry).db.repos == db.repos
    decreases |Rows(db.artifacts, run, at)|
  {
    var rows := Rows(db.artifacts, run, at);
    if rows != {} {
      var id := Least(rows);
      Fewer(Rows(OneArtifact(db, id, dry).db.artifacts, run, id), rows, id);
      WalkRunKeepsRuns(OneArtifact(db, id, dry).db, run, id, dry);
    }
  }

  /** Looking past the next run leaves fewer runs. */
  lemma NextIsNearer(runs: map<Id, Run>, scope: Scope, run: Id)
    requires NextRun(runs, scope, run).Some?
    ensures NextRun(runs, scope, run).value > run
    ensures MatchingRuns(runs, scope, NextRun(runs, scope, run).value) == MatchingRuns(runs, scope, run) - {NextRun(runs, scope, run).value}
    ensures |MatchingRuns(runs, scope, NextRun(runs, scope, run).value)| < |MatchingRuns(runs, scope, run)|
  {}

  /** The run's rows and then its own row are gone: the tables the next run starts from. */
  ghost function FinishRun(db: Db, run: Id, at: Id, dry: bool): Result
  {
    var arts := WalkRun(db, run, at, dry);
    Then(OneRun(arts.db, run, dry), arts.counts)
  }

  lemma OneRunKeeps(db: Db, scope: Scope, run: Id, dry: bool)
    ensures MatchingRuns(OneRun(db, run, dry).db.runs, scope, run) == MatchingRuns(db.runs, scope, run)
  {}

  lemma FinishRunKeeps(db: Db, scope: Scope, run: Id, at: Id, dry: bool)
    ensures MatchingRuns(FinishRun(db, run, at, dry).db.runs, scope, run) == MatchingRuns(db.runs, scope, run)
  {
    WalkRunKeepsRuns(db, run, at, dry);
    OneRunKeeps(WalkRun(db, run, at, dry).db, scope, run, dry);
  }

  /** The rest of this run, its row, and every matching run after it. */
  ghost function WalkRuns(db: Db, scope: Scope, run: Id, at: Id, dry: bool): (r: Result)
    decreases |MatchingRuns(db.runs, scope, run)|, 1
  {
    FinishRunKeeps(db, scope, run, at, dry);
    WalkOn(FinishRun(db, run, at, dry), scope, run, dry)
  }

  /** Every matching run after one that is finished. */
  ghost function WalkOn(here: Result, scope: Scope, run: Id, dry: bool): (r: Result)
    decreases |MatchingRuns(here.db.runs, scope, run)|, 0
  {
    var next := NextRun(here.db.runs, scope, run);
    if next.None? then here
    else
      NextIsNearer(here.db.runs, scope, run);
      Then(WalkRuns(here.db, scope, next.value, 0, dry), here.counts)
  }

  /** Which run a cursor stands in. Run 0 does not exist: walking on from it reaches the first
      run that matches. */
  function StartRun(scope: Scope, cursor: Cursor): Id
  {
    if scope.RunScope? then scope.run else cursor.run
  }

  /** The one-shot walk from a cursor: final tables, objects and receipt. */
  ghost function Outcome(db: Db, scope: Scope, cursor: Cursor, dry: bool): Result
  {
    var walked := WalkRuns(db, scope, StartRun(scope, cursor), cursor.artifact, dry);
    Then(LastRow(walked.db, scope, dry), walked.counts)
  }

  function TargetRuns(runs: map<Id, Run>, scope: Scope): set<Id>
  {
    set r | r in runs && Matches(scope, r, runs[r])
  }

  /** The artifact rows a job was enqueued for. */
  function Targets(db: Db, scope: Scope): set<Id>
  {
    set id | id in db.artifacts && db.artifacts[id].run in TargetRuns(db.runs, scope)
  }

  /** The empty cursor of a new job. */
  function Fresh(): Cursor { Cursor(0, 0) }

  // ---- Cutting the walk --------------------------------------------------------

  lemma NothingMore(r: Result)
    ensures Then(r, Nothing()) == r
  {}

  lemma NoRows(db: Db, run: Id, at: Id, dry: bool)
    requires Rows(db.artifacts, run, at) == {}
    ensures WalkRun(db, run, at, dry) == Result(db, Nothing())
    ensures FinishRun(db, run, at, dry) == OneRun(db, run, dry)
  {}

  lemma ThenThen(r: Result, inner: Counts, outer: Counts)
    ensures Then(Then(r, inner), outer) == Then(r, Then(Result(r.db, inner), outer).counts)
  {}

  lemma ContinueRun(db: Db, at: Id, counts: Counts, mid: Db, to: Id, total: Counts, run: Id, dry: bool)
    requires Then(WalkRun(mid, run, to, dry), total) == Then(WalkRun(db, run, at, dry), counts)
    ensures Then(FinishRun(mid, run, to, dry), total) == Then(FinishRun(db, run, at, dry), counts)
  {}

  lemma {:induction false} WalkOnThen(here: Result, counts: Counts, scope: Scope, run: Id, dry: bool)
    ensures WalkOn(Then(here, counts), scope, run, dry) == Then(WalkOn(here, scope, run, dry), counts)
  {}

  /** Whatever splits a run's walk in two splits the whole walk at the same place. */
  lemma {:induction false} Continue(db: Db, at: Id, counts: Counts, mid: Db, to: Id, total: Counts, scope: Scope, run: Id, dry: bool)
    requires Then(WalkRun(mid, run, to, dry), total) == Then(WalkRun(db, run, at, dry), counts)
    ensures Then(WalkRuns(mid, scope, run, to, dry), total) == Then(WalkRuns(db, scope, run, at, dry), counts)
  {
    ContinueRun(db, at, counts, mid, to, total, run, dry);
    WalkOnThen(FinishRun(mid, run, to, dry), total, scope, run, dry);
    WalkOnThen(FinishRun(db, run, at, dry), counts, scope, run, dry);
  }

  lemma SameRowsSameWalk(db: Db, scope: Scope, run: Id, a: Id, b: Id, dry: bool)
    requires Rows(db.artifacts, run, a) == Rows(db.artifacts, run, b)
    ensures WalkRuns(db, scope, run, a, dry) == WalkRuns(db, scope, run, b, dry)
  {}

  /** A run that is gone, or never was, is walked past. */
  lemma FinishedRunIsPassed(db: Db, scope: Scope, gone: Id, at: Id, dry: bool)
    requires Rows(db.artifacts, gone, at) == {} && gone !in db.runs
    ensures NextRun(db.runs, scope, gone).None? ==> WalkRuns(db, scope, gone, at, dry) == Result(db, Nothing())
    ensures NextRun(db.runs, scope, gone).Some? ==>
              WalkRuns(db, scope, gone, at, dry) == WalkRuns(db, scope, NextRun(db.runs, scope, gone).value, 0, dry)
  {}

  /** The rows of every matching run after this one. */
  function Later(artifacts: map<Id, Artifact>, runs: map<Id, Run>, scope: Scope, run: Id): set<Id>
  {
    set id | id in artifacts && artifacts[id].run in MatchingRuns(runs, scope, run)
  }

  /** The artifact rows a walk from here will visit. */
  function Todo(db: Db, scope: Scope, run: Id, at: Id): set<Id>
  {
    Rows(db.artifacts, run, at) + Later(db.artifacts, db.runs, scope, run)
  }

  lemma RowsAfterArtifact(db: Db, run: Id, at: Id, dry: bool)
    requires Rows(db.artifacts, run, at) != {}
    ensures var id := Least(Rows(db.artifacts, run, at));
            && id in db.artifacts
            && OneArtifact(db, id, dry).db.artifacts == (if dry then db.artifacts else db.artifacts - {id})
            && Rows(OneArtifact(db, id, dry).db.artifacts, run, id) == Rows(db.artifacts, run, at) - {id}
            && |Rows(OneArtifact(db, id, dry).db.artifacts, run, id)| < |Rows(db.artifacts, run, at)|
  {}

  /** One turn of the loop. */
  lemma {:induction false} WalkRunStep(db: Db, run: Id, at: Id, dry: bool)
    requires Rows(db.artifacts, run, at) != {}
    ensures var id := Least(Rows(db.artifacts, run, at));
            var one := OneArtifact(db, id, dry);
            WalkRun(db, run, at, dry) == Then(WalkRun(one.db, run, id, dry), one.counts)
  {}

  /** Deleting some rows of a run leaves the rows of later runs alone. */
  lemma LaterStays(artifacts: map<Id, Artifact>, after: map<Id, Artifact>, runs: map<Id, Run>, scope: Scope, run: Id)
    requires forall id :: id in after ==> id in artifacts && after[id] == artifacts[id]
    requires forall id :: id in artifacts && artifacts[id].run != run ==> id in after
    ensures Later(after, runs, scope, run) == Later(artifacts, runs, scope, run)
  {}

  lemma TodoAfterArtifact(db: Db, scope: Scope, run: Id, at: Id, dry: bool)
    requires Rows(db.artifacts, run, at) != {}
    ensures var id := Least(Rows(db.artifacts, run, at));
            Todo(OneArtifact(db, id, dry).db, scope, run, id) == Todo(db, scope, run, at) - {id}
  {
    var rows, later := Rows(db.artifacts, run, at), Later(db.artifacts, db.runs, scope, run);
    var id := Least(rows);
    var after := OneArtifact(db, id, dry).db;
    RowsAfterArtifact(db, run, at, dry);
    LaterAfterArtifact(db, scope, run, id, dry);
    TakeOut(rows, later, id);
  }

  lemma LaterAfterArtifact(db: Db, scope: Scope, run: Id, id: Id, dry: bool)
    requires id in db.artifacts && db.artifacts[id].run == run
    ensures id !in Later(db.artifacts, db.runs, scope, run)
    ensures var after := OneArtifact(db, id, dry).db;
            Later(after.artifacts, after.runs, scope, run) == Later(db.artifacts, db.runs, scope, run)
  {}

  lemma TakeOut(rows: set<Id>, later: set<Id>, id: Id)
    requires id !in later
    ensures (rows - {id}) + later == (rows + later) - {id}
  {}

  lemma LaterSplits(artifacts: map<Id, Artifact>, runs: map<Id, Run>, scope: Scope, run: Id)
    requires NextRun(runs, scope, run).Some? && Positive(artifacts)
    ensures var next := NextRun(runs, scope, run).value;
            && next in runs && next > run
            && Later(artifacts, runs, scope, run) == Rows(artifacts, next, 0) + Later(artifacts, runs, scope, next)
            && Rows(artifacts, next, 0) !! Later(artifacts, runs, scope, next)
            && MatchingRuns(runs, scope, run) == {next} + MatchingRuns(runs, scope, next)
            && next !in MatchingRuns(runs, scope, next)
  {}

  lemma TodoAfterRun(db: Db, scope: Scope, run: Id, at: Id, dry: bool)
    requires Rows(db.artifacts, run, at) == {} && Positive(db.artifacts)
    ensures var after := OneRun(db, run, dry).db;
            match NextRun(after.runs, scope, run)
            case None => Todo(db, scope, run, at) == {}
            case Some(next) => Todo(after, scope, next, 0) == Todo(db, scope, run, at)
  {
    var after := OneRun(db, run, dry).db;
    OneRunKeeps(db, scope, run, dry);
    if NextRun(after.runs, scope, run).Some? {
      LaterSplits(db.artifacts, after.runs, scope, run);
    }
  }

  /** From the empty cursor, the walk has all targeted rows and runs before it. */
  lemma FreshTodo(db: Db, scope: Scope)
    requires WellFormed(db)
    ensures Todo(db, scope, StartRun(scope, Fresh()), 0) == Targets(db, scope)
    ensures ({StartRun(scope, Fresh())} + MatchingRuns(db.runs, scope, StartRun(scope, Fresh()))) * db.runs.Keys
         == TargetRuns(db.runs, scope)
  {}
}
