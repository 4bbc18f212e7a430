/** Deletion jobs (src/retention.ts 174-502, 623-639): claimed, worked on in bounded batches
    over the tables and the bucket, resumed from a cursor after a batch ran out or a delete
    threw. */
module DeletionJobs {
  import opened Pricing
  import opened Store
  import opened Retention
  import opened DeletionSteps

  const CLAIM_TTL: nat := 900_000

  /** Rows read per query. */
  const PAGE: nat := 100

  datatype JobState = Queued | Running | Done | Failed

  datatype Job = Job(
    scope: Scope, dry: bool, state: JobState, claimedAt: nat, claims: nat, cursor: Cursor, counts: Counts)

  datatype BatchOutcome = BatchOutcome(claimed: bool, done: bool, job: Job)

  /** Tables and receipt once the job is done, as they would be if all that is left were done
      at once. */
  ghost function Promised(db: Db, job: Job): Result
  {
    if job.state == Done then Result(db, job.counts)
    else Then(Outcome(db, job.scope, job.cursor, job.dry), job.counts)
  }

  ghost predicate Ready(db: Db, job: Job)
  {
    match job
    case Job(scope, dry, state, _, _, cursor, _) =>
      state != Done ==> Startable(db, scope, cursor, dry)
  }

  predicate Claimable(job: Job, now: nat)
  {
    job.state in {Queued, Failed} || (job.state == Running && job.claimedAt < now - CLAIM_TTL)
  }

  /** Artifact rows the job still has to visit. */
  function Left(db: Db, job: Job): set<Id>
  {
    Todo(db, job.scope, StartRun(job.scope, job.cursor), job.cursor.artifact)
  }

  /** What one batch reports: is the job done, where does it resume, what did it count, how
      many artifact rows did it visit. */
  datatype Batch = Batch(done: bool, threw: bool, cursor: Cursor, counts: Counts, used: nat)

  /** A batch over the tables `start` from `cursor` left `db` behind: what it did and what is
      still to do add up to the whole outcome. */
  ghost predicate Worked(start: Db, scope: Scope, cursor: Cursor, dry: bool, db: Db, out: Batch)
  {
    match out
    case Batch(done, threw, next, counts, used) =>
      && (if done then Result(db, counts) else Then(Outcome(db, scope, next, dry), counts)) == Outcome(start, scope, cursor, dry)
      && (!done ==> Startable(db, scope, next, dry))
      && WellFormed(db) && Shrunk(start, db) && Spared(start, db, TargetRuns(start.runs, scope))
      && (threw ==> !done && next == cursor)
      && (done ==> used == |Todo(start, scope, StartRun(scope, cursor), cursor.artifact)|)
      && (!done && !threw ==>
            |Todo(db, scope, StartRun(scope, next), next.artifact)| + used
            == |Todo(start, scope, StartRun(scope, cursor), cursor.artifact)|)
  }

  /** A job that names no target: every batch of it throws. */
  predicate Broken(scope: Scope)
  {
    scope.Incomplete? || scope == RunScope(0) || scope == RepoScope(0)
  }

  /** A job that can be worked on. */
  ghost predicate NamesATarget(scope: Scope)
  {
    match scope
    case RunScope(run) => run > 0
    case RepoScope(repo) => repo > 0
    case RetentionScope(_, _) => true
    case Incomplete => false
  }

  /** How far a batch that does not throw gets. */
  predicate Sized(out: Batch, batchSize: nat)
  {
    if out.done then out.used < batchSize || batchSize == 0 else out.used == batchSize
  }

  ghost predicate RunsWorked(start: Db, scope: Scope, cursor: Cursor, dry: bool, db: Db, out: Batch)
  {
    match out
    case Batch(done, threw, _, counts, used) =>
      if done then !threw && Walked(start, scope, cursor, db, counts, used, dry)
      else Worked(start, scope, cursor, dry, db, out)
  }

  /** Where a batch may begin. */
  predicate Startable(db: Db, scope: Scope, cursor: Cursor, dry: bool)
  {
    match cursor
    case Cursor(run, at) =>
      Standing(db, scope, StartRun(scope, cursor), at, dry) && (run == 0 && !scope.RunScope? ==> at == 0)
  }

  /** A batch that is over with work left: it threw, or it used its budget up. */
  predicate Cut(out: Batch, batchSize: nat)
  {
    !out.done && (!out.threw ==> out.used == batchSize)
  }

  /** A batch of a repository or retention job between two runs. */
  ghost predicate OnTheWay(
    start: Db, scope: Scope, from: Cursor, db: Db, next: Option<Id>, at: Id, counts: Counts, used: nat, dry: bool)
  {
    match next
    case None => Walked(start, scope, from, db, counts, used, dry)
    case Some(run) => run != 0 && Walking(start, scope, from, db, run, at, counts, used, dry)
  }

  function Ahead(runs: map<Id, Run>, scope: Scope, next: Option<Id>): nat
  {
    match next
    case None => 0
    case Some(run) => 1 + |MatchingRuns(runs, scope, run)|
  }

  function Place(scope: Scope, cursor: Cursor): Cursor
  {
    Cursor(StartRun(scope, cursor), cursor.artifact)
  }

  lemma {:induction false} OutcomeOnwards(start: Db, scope: Scope, cursor: Cursor, db: Db, next: Cursor, counts: Counts, dry: bool)
    requires Then(WalkRuns(db, scope, StartRun(scope, next), next.artifact, dry), counts)
          == WalkRuns(start, scope, StartRun(scope, cursor), cursor.artifact, dry)
    ensures Then(Outcome(db, scope, next, dry), counts) == Outcome(start, scope, cursor, dry)
  {}

  lemma {:induction false} StoppedIsWorked(
    start: Db, scope: Scope, cursor: Cursor, db: Db, next: Cursor, counts: Counts, used: nat, dry: bool)
    requires Walking(start, scope, Place(scope, cursor), db, StartRun(scope, next), next.artifact, counts, used, dry)
    requires !scope.RunScope? ==> next.run != 0
    ensures Worked(start, scope, cursor, dry, db, Batch(false, false, next, counts, used))
  {
    OutcomeOnwards(start, scope, cursor, db, next, counts, dry);
  }

  lemma {:induction false} ThrownIsWorked(
    start: Db, scope: Scope, cursor: Cursor, db: Db, run: Id, at: Id, counts: Counts, used: nat)
    requires Walking(start, scope, Place(scope, cursor), db, run, at, counts, used, false)
    requires Startable(start, scope, cursor, false)
    ensures Worked(start, scope, cursor, false, db, Batch(false, true, cursor, counts, used))
  {
    WalkingRestarts(start, scope, Place(scope, cursor), db, run, at, counts, used);
    OutcomeOnwards(start, scope, cursor, db, cursor, counts, false);
  }

  lemma {:induction false} EndedIsWorked(
    start: Db, scope: Scope, cursor: Cursor, db: Db, next: Cursor, counts: Counts, used: nat, dry: bool)
    requires Walked(start, scope, Place(scope, cursor), db, counts, used, dry)
    ensures var last := LastRow(db, scope, dry);
            Worked(start, scope, cursor, dry, last.db, Batch(true, false, next, Then(last, counts).counts, used))
  {}

  /** One call of `runDeletionJob`: a job it may not claim is left alone; a job it claims still
      promises the same outcome afterwards, and rows outside its target keep their objects. */
  ghost predicate Batched(before: Db, job: Job, now: nat, after: Db, out: BatchOutcome)
  {
    match out
    case BatchOutcome(claimed, done, left) =>
      && claimed == Claimable(job, now) && done == (left.state == Done)
      && if !claimed then after == before && left == job
         else
           && left == job.(state := left.state, claimedAt := now, claims := job.claims + 1, cursor := left.cursor, counts := left.counts)
           && left.state != Running
           && Promised(after, left) == Promised(before, job)
           && Ready(after, left) && Shrunk(before, after) && Spared(before, after, TargetRuns(before.runs, job.scope))
  }

  /** A call claims a job that waits, one that failed, and one whose claim is more than a
      quarter of an hour old; a job that is done is never claimed again. What it must not touch
      is as it was. */
  ghost predicate ClaimedInTime(before: Db, job: Job, now: nat, after: Db, out: BatchOutcome)
  {
    match out
    case BatchOutcome(claimed, _, _) =>
      && KeepsTheRest(job.scope, before, after)
      && (claimed <==>
            match job.state
            case Queued => true
            case Failed => true
            case Running => job.claimedAt + 900_000 < now
            case Done => false)
  }

  lemma {:induction false} BatchedIsClaimed(before: Db, job: Job, now: nat, after: Db, out: BatchOutcome)
    requires Batched(before, job, now, after, out)
    ensures ClaimedInTime(before, job, now, after, out)
  {
    if out.claimed {
      SparedKeepsTheRest(before, after, job.scope);
    }
  }

  /** A call in which nothing throws: the last one when fewer rows than a batch are left, else
      exactly one batch further. */
  ghost predicate OnSchedule(before: Db, job: Job, after: Db, left: Job, batchSize: nat)
  {
    match left
    case Job(scope, _, state, _, _, _, _) =>
      if !NamesATarget(scope) then state == Failed
      else if |Left(before, job)| < batchSize then state == Done
      else state == Queued && |Left(after, left)| + batchSize == |Left(before, job)|
  }

  /** How `runDeletionJob` writes a batch into its job. */
  function Recorded(job: Job, now: nat, batch: Batch): Job
  {
    var counts := Counts(job.counts.objects + batch.counts.objects, job.counts.rows + batch.counts.rows,
                         job.counts.bytes + batch.counts.bytes);
    Job(job.scope, job.dry, if batch.done then Done else if batch.threw then Failed else Queued,
        now, job.claims + 1, batch.cursor, counts)
  }

  lemma {:induction false} RecordedKeepsPromise(before: Db, job: Job, now: nat, after: Db, batch: Batch)
    requires job.state != Done
    requires (if batch.done then Result(after, batch.counts) else Then(Outcome(after, job.scope, batch.cursor, job.dry), batch.counts))
          == Outcome(before, job.scope, job.cursor, job.dry)
    ensures Promised(after, Recorded(job, now, batch)) == Promised(before, job)
  {}

  lemma {:induction false} WorkedIsReady(before: Db, job: Job, now: nat, after: Db, batch: Batch)
    requires Worked(before, job.scope, job.cursor, job.dry, after, batch)
    ensures Ready(after, Recorded(job, now, batch)) && Shrunk(before, after) && Spared(before, after, TargetRuns(before.runs, job.scope))
  {}

  lemma {:induction false} WorkedAddsUp(before: Db, job: Job, now: nat, after: Db, batch: Batch)
    requires job.state != Done && Worked(before, job.scope, job.cursor, job.dry, after, batch)
    ensures Promised(after, Recorded(job, now, batch)) == Promised(before, job)
  {
    RecordedKeepsPromise(before, job, now, after, batch);
  }

  lemma {:induction false} WorkedIsBatched(before: Db, job: Job, now: nat, after: Db, batch: Batch)
    requires Claimable(job, now) && Worked(before, job.scope, job.cursor, job.dry, after, batch)
    ensures Batched(before, job, now, after, BatchOutcome(true, batch.done, Recorded(job, now, batch)))
  {
    WorkedAddsUp(before, job, now, after, batch);
    WorkedIsReady(before, job, now, after, batch);
  }

  lemma SizedIsOnSchedule(before: Db, job: Job, now: nat, after: Db, batch: Batch, batchSize: nat)
    requires Worked(before, job.scope, job.cursor, job.dry, after, batch)
    requires if !NamesATarget(job.scope) then batch.threw else !batch.threw && Sized(batch, batchSize)
    requires batchSize > 0
    ensures OnSchedule(before, job, after, Recorded(job, now, batch), batchSize)
  {}

  lemma TimesAtMost(x: nat, y: nat, b: nat)
    requires x <= y
    ensures x * b <= y * b
  {}

  lemma QuotientAtLeast(a: nat, b: nat, i: nat)
    requires b > 0 && i * b <= a
    ensures a / b >= i
  {
    var q := a / b;
    assert a < (q + 1) * b;
    if q < i { TimesAtMost(q + 1, i, b); }
  }

  lemma QuotientIs(a: nat, b: nat, i: nat)
    requires b > 0 && i * b <= a < i * b + b
    ensures a / b == i
  {
    QuotientAtLeast(a, b, i);
    var q := a / b;
    assert q * b <= a;
    if q > i { TimesAtMost(i + 1, q, b); }
  }

  /** A job on its way from `start`: its promise stands, and so do all rows outside it. */
  ghost predicate Pursued(start: Db, scope: Scope, promise: Result, db: Db, job: Job)
  {
    match job
    case Job(s, _, _, _, _, _, _) =>
      && s == scope && Ready(db, job) && Promised(db, job) == promise
      && Shrunk(start, db) && Spared(start, db, TargetRuns(start.runs, scope))
  }

  lemma PursuedOn(start: Db, scope: Scope, promise: Result, db: Db, job: Job, now: nat, after: Db, out: BatchOutcome)
    requires Pursued(start, scope, promise, db, job) && Batched(db, job, now, after, out)
    ensures Pursued(start, scope, promise, after, out.job)
  {
    if out.claimed {
      SparedThen(start, scope, db, after);
    }
  }

  /** After `i` calls in which nothing threw, of a job over `a` rows. */
  ghost predicate Counted(db: Db, job: Job, batchSize: nat, a: nat, i: nat)
  {
    match job
    case Job(_, _, _, _, claims, _, _) => claims == i && |Left(db, job)| + i * batchSize == a
  }

  /** The next such call ends the job or leaves one batch less. */
  lemma CountedOn(db: Db, job: Job, after: Db, left: Job, batchSize: nat, a: nat, i: nat)
    requires batchSize > 0 && Counted(db, job, batchSize, a, i) && left.claims == job.claims + 1 && NamesATarget(left.scope)
    requires OnSchedule(db, job, after, left, batchSize)
    ensures OnCount(after, left, batchSize, a, i + 1)
  {
    if left.state == Done {
      QuotientIs(a, batchSize, i);
    } else {
      assert (i + 1) * batchSize == i * batchSize + batchSize;
    }
  }

  ghost predicate OnCount(db: Db, job: Job, batchSize: nat, a: nat, i: nat)
    requires batchSize > 0
  {
    match job.state
    case Done => job.claims == i == a / batchSize + 1
    case _ => job.state == Queued && Counted(db, job, batchSize, a, i)
  }

  /** How a job is being worked on: from where, towards what outcome, with which batches over
      how many rows, and whether nothing throws. */
  datatype Pursuit = Pursuit(start: Db, scope: Scope, promise: Result, batchSize: nat, rows: nat, orderly: bool)

  /** The job after `i` calls. */
  ghost predicate Held(p: Pursuit, db: Db, job: Job, i: nat)
  {
    match p
    case Pursuit(start, scope, promise, batchSize, rows, orderly) =>
      && job.state != Running && Pursued(start, scope, promise, db, job)
      && (orderly ==> batchSize > 0 && NamesATarget(scope) && OnCount(db, job, batchSize, rows, i))
  }

  lemma HeldOn(p: Pursuit, db: Db, job: Job, i: nat, now: nat, after: Db, out: BatchOutcome)
    requires Held(p, db, job, i) && job.state == Queued && Batched(db, job, now, after, out)
    requires p.orderly ==> OnSchedule(db, job, after, out.job, p.batchSize)
    ensures Held(p, after, out.job, i + 1)
  {
    PursuedOn(p.start, p.scope, p.promise, db, job, now, after, out);
    if p.orderly {
      CountedOn(db, job, after, out.job, p.batchSize, p.rows, i);
    }
  }

  /** A job over `a` rows takes exactly floor(a / batchSize) + 1 calls, if it gets them. */
  ghost predicate Punctual(job: Job, a: nat, batchSize: nat, maxBatches: nat)
    requires batchSize > 0
  {
    match job
    case Job(_, _, state, _, claims, _, _) =>
      var calls := a / batchSize + 1;
      (state == Done <==> calls <= maxBatches) && claims == if calls <= maxBatches then calls else maxBatches
  }

  lemma OnCountIsPunctual(db: Db, job: Job, batchSize: nat, a: nat, i: nat, maxBatches: nat)
    requires batchSize > 0 && OnCount(db, job, batchSize, a, i) && i <= maxBatches
    requires job.state == Done || i == maxBatches
    ensures Punctual(job, a, batchSize, maxBatches)
  {
    if job.state != Done {
      QuotientAtLeast(a, batchSize, maxBatches);
    }
  }

  lemma Overwritten(jobs: map<Id, Job>, id: Id, old1: Job, new1: Job)
    ensures jobs[id := old1][id := new1] == jobs[id := new1]
  {}

  lemma FreshIsReady(db: Db, scope: Scope, dry: bool)
    requires WellFormed(db)
    ensures Startable(db, scope, Fresh(), dry)
  {}

  lemma {:induction false} FreshPromise(db: Db, scope: Scope, dry: bool)
    ensures Promised(db, Job(scope, dry, Queued, 0, 0, Fresh(), Nothing())) == Outcome(db, scope, Fresh(), dry)
  {}

  /** The first `n` ids, in order: `ORDER BY id LIMIT n`. */
  function Page(ids: set<Id>, n: nat): (page: seq<Id>)
    ensures |page| <= n
    decreases n
  {
    if ids == {} || n == 0 then [] else [Least(ids)] + Page(ids - {Least(ids)}, n - 1)
  }

  lemma PageTail(page: seq<Id>, used: nat, rows: set<Id>, n: nat)
    requires used < |page| && page[used..] == Page(rows, n)
    ensures rows != {} && page[used] == Least(rows) && n > 0
    ensures page[used + 1..] == Page(rows - {Least(rows)}, n - 1)
  {}

  class Deletions {
    var repos: set<Id>
    var runs: map<Id, Run>
    var artifacts: map<Id, Artifact>
    var objects: map<Key, Blob>
    var quota: map<Id, Quota>
    var jobs: map<Id, Job>
    var faults: seq<Fault> // how the coming calls of storage.delete behave; works once they run out

    ghost function View(): Db
      reads this
    {
      Db(repos, runs, artifacts, objects, quota)
    }

    /** One turn of the inner loop: the object first, then the quota, then the row. */
    method DeleteOne(id: Id, dry: bool, counts: Counts) returns (threw: bool, total: Counts)
      requires id in artifacts
      modifies this`objects, this`faults, this`quota, this`artifacts
      ensures !threw ==> View() == OneArtifact(old(View()), id, dry).db
                         && total == Then(OneArtifact(old(View()), id, dry), counts).counts
      ensures threw ==> !dry && !Shared(old(artifacts), id) && total == counts
                        && (View() == old(View())
                            || View() == old(View()).(objects := old(objects) - {old(artifacts)[id].key}))
      ensures old(faults) == [] ==> !threw && faults == []
    {
      threw, total := false, counts;
      var a := artifacts[id];
      var shared := exists o :: o in artifacts && o != id && artifacts[o].org == a.org && artifacts[o].key == a.key;
      if !shared {
        if !dry {
          threw, objects, faults := StorageDelete(objects, faults, a.key);
          if threw { return; }
        }
        total := total.(objects := total.objects + 1, bytes := total.bytes + a.bytes);
        if !dry {
          quota := Forget(quota, a.org, a.bytes);
        }
      }
      if !dry {
        artifacts := artifacts - {id};
        total := total.(rows := total.rows + 1);
      }
    }

    /** One row of a page: the walk moves past it, or the delete threw and it stays. */
    method Advance(ghost rows: set<Id>, run: Id, at: Id, id: Id, dry: bool, counts: Counts)
      returns (threw: bool, total: Counts)
      requires rows == Rows(artifacts, run, at) && rows != {} && id == Least(rows) && KeysOwned(artifacts)
      modifies this`objects, this`faults, this`quota, this`artifacts
      ensures Advanced(old(View()), at, counts, View(), if threw then at else id, total, run, dry)
      ensures !threw ==> Rows(artifacts, run, id) == rows - {id}
      ensures threw ==> Rows(artifacts, run, at) == rows && !dry
      ensures old(faults) == [] ==> !threw && faults == []
    {
      ghost var before := View();
      RowsAfterArtifact(before, run, at, dry);
      threw, total := DeleteOne(id, dry, counts);
      if !threw {
        ArtifactAdvances(before, run, at, counts, dry);
      } else if View() == before {
        AdvancedNot(before, at, counts, run, dry);
      } else {
        LateThrowAdvances(before, run, at, counts);
      }
    }

    method DeletePage(run: Id, dry: bool, n: nat, from: Id, start: Counts)
      returns (threw: bool, at: Id, used: nat, counts: Counts)
      requires KeysOwned(artifacts)
      modifies this`objects, this`faults, this`quota, this`artifacts
      ensures Advanced(old(View()), from, start, View(), at, counts, run, dry)
      ensures |Rows(artifacts, run, at)| + used == |Rows(old(artifacts), run, from)| && used <= n
      ensures n > 0 && !threw ==> (used == 0 <==> Rows(old(artifacts), run, from) == {})
      ensures threw ==> !dry
      ensures old(faults) == [] ==> !threw && faults == []
    {
      ghost var before := View();
      var page := Page(Rows(artifacts, run, from), n);
      threw, at, used, counts := false, from, 0, start;
      AdvancedNot(before, from, start, run, dry);
      while used < |page|
        invariant used <= |page|
        invariant KeysOwned(artifacts)
        invariant page[used..] == Page(Rows(artifacts, run, at), n - used)
        invariant Advanced(before, from, start, View(), at, counts, run, dry)
        invariant |Rows(artifacts, run, at)| + used == |Rows(before.artifacts, run, from)|
        invariant old(faults) == [] ==> faults == []
      {
        ghost var rows := Rows(artifacts, run, at);
        PageTail(page, used, rows, n - used);
        ghost var mid, midAt, midCounts := View(), at, counts;
        threw, counts := Advance(rows, run, at, page[used], dry, counts);
        if threw {
          AdvancedTwice(before, from, start, mid, midAt, midCounts, View(), at, counts, run, dry);
          return;
        }
        at := page[used];
        AdvancedTwice(before, from, start, mid, midAt, midCounts, View(), at, counts, run, dry);
        used := used + 1;
      }
    }

    /** Up to `budget` of one run's artifacts, a page at a time. */
    method DeleteRunArtifacts(run: Id, dry: bool, budget: nat, cursor: Id, start: Counts)
      returns (threw: bool, remaining: bool, at: Id, used: nat, counts: Counts)
      requires KeysOwned(artifacts)
      modifies this`objects, this`faults, this`quota, this`artifacts
      ensures Advanced(old(View()), cursor, start, View(), at, counts, run, dry)
      ensures |Rows(artifacts, run, at)| + used == |Rows(old(artifacts), run, cursor)| && used <= budget
      ensures !threw ==> if remaining then used == budget else used < budget && Rows(artifacts, run, at) == {}
      ensures threw ==> !dry
      ensures old(faults) == [] ==> !threw && faults == []
    {
      ghost var before := View();
      threw, remaining, at, used, counts := false, true, cursor, 0, start;
      AdvancedNot(before, cursor, start, run, dry);
      while used < budget
        invariant used <= budget && !threw
        invariant KeysOwned(artifacts)
        invariant Advanced(before, cursor, start, View(), at, counts, run, dry)
        invariant |Rows(artifacts, run, at)| + used == |Rows(before.artifacts, run, cursor)|
        invariant old(faults) == [] ==> faults == []
      {
        ghost var mid, midAt, midCounts := View(), at, counts;
        var more: nat;
        threw, at, more, counts :=
          DeletePage(run, dry, if budget - used < PAGE then budget - used else PAGE, at, counts);
        AdvancedTwice(before, cursor, start, mid, midAt, midCounts, View(), at, counts, run, dry);
        used := used + more;
        if threw { return; }
        if more == 0 {
          remaining := false;
          return;
        }
      }
    }

    /** `DELETE FROM runs`, unless this is a dry run. */
    method DeleteRunRow(run: Id, dry: bool, counts: Counts) returns (total: Counts)
      modifies this`runs
      ensures View() == OneRun(old(View()), run, dry).db && total == Then(OneRun(old(View()), run, dry), counts).counts
    {
      total := counts;
      if !dry && run in runs {
        runs := runs - {run};
        total := total.(rows := total.rows + 1);
      }
    }

    /** The run's row goes and the next run is looked up. */
    method NextAfter(
      ghost start: Db, scope: Scope, ghost from: Cursor, run: Id, ghost at: Id, dry: bool, counts: Counts, ghost used: nat)
      returns (next: Option<Id>, total: Counts)
      requires Walking(start, scope, from, View(), run, at, counts, used, dry) && Rows(artifacts, run, at) == {}
      modifies this`runs
      ensures OnTheWay(start, scope, from, View(), next, 0, total, used, dry)
      ensures Ahead(runs, scope, next) < Ahead(old(runs), scope, Some(run))
    {
      ghost var before := View();
      total := DeleteRunRow(run, dry, counts);
      next := NextRun(runs, scope, run);
      OneRunKeeps(before, scope, run, dry);
      if next.Some? {
        NextIsNearer(runs, scope, run);
        WalkingToNextRun(start, scope, from, before, run, at, counts, used, dry, next.value);
      } else {
        WalkingEnds(start, scope, from, before, run, at, counts, used, dry);
      }
    }

    /** The run a batch starts in: the cursor's, or the first that matches. */
    method FirstRun(scope: Scope, cursor: Cursor, dry: bool) returns (first: Option<Id>)
      requires !scope.RunScope? && Startable(View(), scope, cursor, dry)
      ensures OnTheWay(View(), scope, cursor, View(), first, cursor.artifact, Nothing(), 0, dry)
    {
      ghost var db := View();
      WalkingStarts(db, scope, cursor, dry);
      if cursor.run != 0 { return Some(cursor.run); }
      first := NextRun(runs, scope, 0);
      assert Rows(artifacts, 0, 0) == {};
      if first.Some? {
        NextIsNearer(runs, scope, 0);
        WalkingToNextRun(db, scope, cursor, db, 0, 0, Nothing(), 0, dry, first.value);
      } else {
        WalkingEnds(db, scope, cursor, db, 0, 0, Nothing(), 0, dry);
      }
    }

    /** The batch goes on in one run. */
    method WalkInRun(
      ghost start: Db, ghost scope: Scope, ghost from: Cursor, run: Id, dry: bool, batchSize: nat, at: Id, counts: Counts,
      used: nat)
      returns (threw: bool, remaining: bool, to: Id, total: Counts, now: nat)
      requires Walking(start, scope, from, View(), run, at, counts, used, dry) && used <= batchSize
      modifies this`objects, this`faults, this`quota, this`artifacts
      ensures Walking(start, scope, from, View(), run, to, total, now, dry)
      ensures !threw ==> if remaining then now == batchSize else now < batchSize && Rows(artifacts, run, to) == {}
      ensures threw ==> !dry
      ensures old(faults) == [] ==> !threw && faults == []
    {
      ghost var mid := View();
      var more;
      threw, remaining, to, more, total := DeleteRunArtifacts(run, dry, batchSize - used, at, counts);
      now := used + more;
      WalkingOn(start, scope, from, mid, run, at, counts, used, dry, View(), to, total, more);
    }

    /** What one batch gets done inside one run: all its rows, or the batch is over. */
    method WorkInRun(
      ghost start: Db, scope: Scope, cursor: Cursor, run: Id, from: Id, dry: bool, batchSize: nat, before: nat, counts: Counts)
      returns (over: Option<Batch>, at: Id, used: nat, total: Counts)
      requires Walking(start, scope, Place(scope, cursor), View(), run, from, counts, before, dry)
      requires Startable(start, scope, cursor, dry)
      requires before <= batchSize && run != 0 && (scope.RunScope? ==> run == scope.run)
      modifies this`objects, this`faults, this`quota, this`artifacts
      ensures match over
              case None =>
                && Walking(start, scope, Place(scope, cursor), View(), run, at, total, used, dry)
                && Rows(artifacts, run, at) == {} && used < batchSize
              case Some(batch) => Worked(start, scope, cursor, dry, View(), batch) && Cut(batch, batchSize)
      ensures old(faults) == [] ==> faults == [] && (over.Some? ==> !over.value.threw)
    {
      var threw, remaining;
      threw, remaining, at, total, used := WalkInRun(start, scope, Place(scope, cursor), run, dry, batchSize, from, counts, before);
      over := None;
      if threw {
        ThrownIsWorked(start, scope, cursor, View(), run, at, total, used);
        over := Some(Batch(false, true, cursor, total, used));
      } else if remaining {
        var next := Cursor(if scope.RunScope? then 0 else run, at);
        StoppedIsWorked(start, scope, cursor, View(), next, total, used, dry);
        over := Some(Batch(false, false, next, total, used));
      }
    }

    /** One turn of the loop over runs: the rest of one run, its row, and the next run's id. */
    method OneMoreRun(
      ghost start: Db, scope: Scope, cursor: Cursor, run: Id, from: Id, dry: bool, batchSize: nat, before: nat, counts: Counts)
      returns (over: Option<Batch>, next: Option<Id>, used: nat, total: Counts)
      requires Walking(start, scope, Place(scope, cursor), View(), run, from, counts, before, dry)
      requires Startable(start, scope, cursor, dry)
      requires before <= batchSize && run != 0 && !scope.RunScope?
      modifies this`objects, this`faults, this`quota, this`artifacts, this`runs
      ensures match over
              case None =>
                && OnTheWay(start, scope, Place(scope, cursor), View(), next, 0, total, used, dry) && used < batchSize
                && Ahead(runs, scope, next) < Ahead(old(runs), scope, Some(run))
              case Some(batch) => Worked(start, scope, cursor, dry, View(), batch) && Cut(batch, batchSize)
      ensures old(faults) == [] ==> faults == [] && (over.Some? ==> !over.value.threw)
    {
      var at;
      next := None;
      over, at, used, total := WorkInRun(start, scope, cursor, run, from, dry, batchSize, before, counts);
      if over.None? {
        next, total := NextAfter(start, scope, Place(scope, cursor), run, at, dry, total, used);
        if used >= batchSize && next.Some? {
          // Cannot happen: with its budget used up, the inner loop reports what remains.
          assert false;
        }
      }
    }

    /** Every run of the scope, each finished before the next is begun. */
    method DeleteRunsOf(scope: Scope, dry: bool, batchSize: nat, cursor: Cursor) returns (out: Batch)
      requires !scope.RunScope? && Startable(View(), scope, cursor, dry)
      modifies this`objects, this`faults, this`quota, this`artifacts, this`runs
      ensures RunsWorked(old(View()), scope, cursor, dry, View(), out)
      ensures KeepsTheRest(scope, old(View()), View())
      ensures !out.threw ==> Sized(out, batchSize)
      ensures old(faults) == [] ==> !out.threw && faults == []
    {
      ghost var start := View();
      assert Place(scope, cursor) == cursor;
      var runId := FirstRun(scope, cursor, dry);
      var at, counts := cursor.artifact, Nothing();
      var used: nat := 0;
      while runId.Some?
        invariant OnTheWay(start, scope, cursor, View(), runId, at, counts, used, dry)
        invariant used == 0 || used < batchSize
        invariant old(faults) == [] ==> faults == []
        decreases Ahead(runs, scope, runId)
      {
        var over;
        over, runId, used, counts := OneMoreRun(start, scope, cursor, runId.value, at, dry, batchSize, used, counts);
        if over.Some? {
          SparedKeepsTheRest(start, View(), scope);
          return over.value;
        }
        at := 0;
      }
      out := Batch(true, false, Cursor(0, 0), counts, used);
      SparedKeepsTheRest(start, View(), scope);
    }

    /** `LastRow`: the repository goes with its last run. */
    method DeleteLastRow(scope: Scope, dry: bool, counts: Counts) returns (total: Counts)
      modifies this`repos
      ensures View() == LastRow(old(View()), scope, dry).db && total == Then(LastRow(old(View()), scope, dry), counts).counts
    {
      total := counts;
      if scope.RepoScope? && !dry && scope.repo in repos {
        repos := repos - {scope.repo};
        total := total.(rows := total.rows + 1);
      }
    }

    /** A run job: one run, and a cursor that is just an artifact id. */
    method DeleteRunWork(scope: Scope, dry: bool, batchSize: nat, cursor: Cursor) returns (out: Batch)
      requires scope.RunScope? && scope.run != 0 && Startable(View(), scope, cursor, dry)
      modifies this`objects, this`faults, this`quota, this`artifacts, this`runs
      ensures Worked(old(View()), scope, cursor, dry, View(), out)
      ensures !out.threw ==> Sized(out, batchSize)
      ensures old(faults) == [] ==> !out.threw && faults == []
    {
      ghost var start := View();
      WalkingStarts(start, scope, Place(scope, cursor), dry);
      var over, at, used, counts :=
        WorkInRun(start, scope, cursor, scope.run, cursor.artifact, dry, batchSize, 0, Nothing());
      if over.Some? { return over.value; }
      var next;
      next, counts := NextAfter(start, scope, Place(scope, cursor), scope.run, at, dry, counts, used);
      out := Batch(true, false, Cursor(0, at), counts, used);
      EndedIsWorked(start, scope, cursor, View(), out.cursor, counts, used, dry);
    }

    /** One batch of a job, whatever its scope. */
    method Work(scope: Scope, dry: bool, batchSize: nat, cursor: Cursor) returns (out: Batch)
      requires Startable(View(), scope, cursor, dry)
      modifies this`objects, this`faults, this`quota, this`artifacts, this`runs, this`repos
      ensures Worked(old(View()), scope, cursor, dry, View(), out)
      ensures Broken(scope) ==> out.threw && View() == old(View())
      ensures !out.threw ==> Sized(out, batchSize)
      ensures old(faults) == [] ==> faults == [] && (out.threw <==> !NamesATarget(scope))
    {
      ghost var start := View();
      if Broken(scope) {
        NothingMore(Outcome(start, scope, cursor, dry));
        return Batch(false, true, cursor, Nothing(), 0);
      }
      if scope.RunScope? {
        out := DeleteRunWork(scope, dry, batchSize, cursor);
      } else {
        out := DeleteRunsOf(scope, dry, batchSize, cursor);
        if out.done {
          EndedIsWorked(start, scope, cursor, View(), out.cursor, out.counts, out.used, dry);
          var total := DeleteLastRow(scope, dry, out.counts);
          out := out.(counts := total);
        }
      }
    }

    /** The work of a call that won its claim. */
    method RunClaimed(job: Job, now: nat, batchSize: nat) returns (batch: Batch)
      requires Claimable(job, now) && Ready(View(), job)
      modifies this`objects, this`faults, this`quota, this`artifacts, this`runs, this`repos
      ensures Batched(old(View()), job, now, View(), BatchOutcome(true, batch.done, Recorded(job, now, batch)))
      ensures old(faults) == [] ==> faults == []
      ensures old(faults) == [] && batchSize > 0 ==> OnSchedule(old(View()), job, View(), Recorded(job, now, batch), batchSize)
    {
      ghost var before := View();
      batch := Work(job.scope, job.dry, batchSize, job.cursor);
      WorkedIsBatched(before, job, now, View(), batch);
      if old(faults) == [] && batchSize > 0 {
        SizedIsOnSchedule(before, job, now, View(), batch, batchSize);
      }
    }

    method RunDeletionJob(id: Id, now: nat, batchSize: nat) returns (out: Option<BatchOutcome>)
      requires id in jobs ==> Ready(View(), jobs[id])
      modifies this
      ensures id !in old(jobs) ==> out.None? && View() == old(View()) && jobs == old(jobs)
      ensures id in old(jobs) ==>
                && out.Some? && jobs == old(jobs)[id := out.value.job]
                && Batched(old(View()), old(jobs)[id], now, View(), out.value)
                && ClaimedInTime(old(View()), old(jobs)[id], now, View(), out.value)
      ensures old(faults) == [] ==> faults == []
      ensures old(faults) == [] && id in old(jobs) && out.value.claimed && batchSize > 0 ==>
                OnSchedule(old(View()), old(jobs)[id], View(), out.value.job, batchSize)
    {
      if id !in jobs { return None; }
      var job := jobs[id];
      if !Claimable(job, now) {
        out := Some(BatchOutcome(false, job.state == Done, job));
        BatchedIsClaimed(old(View()), job, now, View(), out.value);
        return;
      }
      jobs := jobs[id := job.(state := Running, claimedAt := now, claims := job.claims + 1)];
      var batch := RunClaimed(job, now, batchSize);
      jobs := jobs[id := Recorded(job, now, batch)];
      out := Some(BatchOutcome(true, batch.done, jobs[id]));
      BatchedIsClaimed(old(View()), job, now, View(), out.value);
    }

    /** One more call for a queued job. */
    method OneCall(ghost p: Pursuit, id: Id, now: nat, ghost i: nat, batchSize: nat) returns (out: BatchOutcome)
      requires id in jobs && jobs[id].state == Queued && Held(p, View(), jobs[id], i) && p.batchSize == batchSize
      requires p.orderly ==> faults == []
      modifies this
      ensures jobs == old(jobs)[id := out.job] && out.claimed && out.done == (out.job.state == Done)
      ensures Held(p, View(), out.job, i + 1)
      ensures p.orderly ==> faults == []
    {
      ghost var mid := View();
      ghost var job := jobs[id];
      var called := RunDeletionJob(id, now, batchSize);
      out := called.value;
      HeldOn(p, mid, job, i, now, View(), out);
    }

    method EnqueueDeletion(id: Id, scope: Scope, dry: bool)
      requires id !in jobs && WellFormed(View())
      modifies this`jobs
      ensures jobs == old(jobs)[id := Job(scope, dry, Queued, 0, 0, Fresh(), Nothing())]
      ensures Pursued(View(), scope, Outcome(View(), scope, Fresh(), dry), View(), jobs[id])
      ensures forall b: nat :: Counted(View(), jobs[id], b, |Targets(View(), scope)|, 0)
    {
      jobs := jobs[id := Job(scope, dry, Queued, 0, 0, Fresh(), Nothing())];
      FreshIsReady(View(), scope, dry);
      FreshPromise(View(), scope, dry);
      FreshTodo(View(), scope);
    }

    /** Calls until the job is done, fails, or `maxBatches` calls are spent. */
    method RunQueued(ghost p: Pursuit, id: Id, now: nat, batchSize: nat, maxBatches: nat) returns (calls: nat, job: Job)
      requires id in jobs && jobs[id].state == Queued && Held(p, View(), jobs[id], 0) && p.batchSize == batchSize
      requires p.orderly ==> faults == []
      modifies this
      ensures jobs == old(jobs)[id := job] && calls <= maxBatches && (maxBatches > 0 ==> calls > 0)
      ensures Held(p, View(), job, calls) == true && (job.state == Queued ==> calls == maxBatches)
    {
      calls, job := 0, jobs[id];
      while calls < maxBatches
        invariant calls <= maxBatches && job.state == Queued && jobs == old(jobs)[id := job]
        invariant Held(p, View(), job, calls) == true
        invariant p.orderly ==> faults == []
      {
        var outcome := OneCall(p, id, now, calls, batchSize);
        Overwritten(old(jobs), id, job, outcome.job);
        job := outcome.job;
        calls := calls + 1;
        if outcome.done || job.state == Failed || !outcome.claimed { break; }
      }
    }

    /** Enqueues a job and works on it. */
    method EnqueueAndRun(id: Id, scope: Scope, dry: bool, now: nat, batchSize: nat, maxBatches: nat)
      returns (out: Option<BatchOutcome>)
      requires id !in jobs && WellFormed(View())
      modifies this
      ensures id in jobs && jobs == old(jobs)[id := jobs[id]]
      ensures out == (if maxBatches == 0 then None else Some(BatchOutcome(true, jobs[id].state == Done, jobs[id])))
      ensures Pursued(old(View()), scope, Outcome(old(View()), scope, Fresh(), dry), View(), jobs[id])
      ensures old(faults) == [] && batchSize > 0 && NamesATarget(scope) ==>
                Punctual(jobs[id], |Targets(old(View()), scope)|, batchSize, maxBatches)
    {
      EnqueueDeletion(id, scope, dry);
      assert View() == old(View());
      ghost var p := Pursuit(View(), scope, Outcome(View(), scope, Fresh(), dry), batchSize, |Targets(View(), scope)|,
                             faults == [] && batchSize > 0 && NamesATarget(scope));
      ghost var queued := jobs[id];
      var calls, job := RunQueued(p, id, now, batchSize, maxBatches);
      Overwritten(old(jobs), id, queued, job);
      out := if calls == 0 then None else Some(BatchOutcome(true, job.state == Done, job));
      if p.orderly {
        OnCountIsPunctual(View(), job, batchSize, p.rows, calls, maxBatches);
      }
    }

    /** Any number of later calls, at any times and with any batch sizes, through any failures
        of `storage.delete`, for a job enqueued over the tables `start`: its outcome is still the
        one promised then, and no row outside its target has lost its object, whether or not
        the job is done yet. */
    method Resume(ghost start: Db, ghost promise: Result, id: Id, calls: seq<(nat, nat)>)
      requires id in jobs && Pursued(start, jobs[id].scope, promise, View(), jobs[id])
      modifies this
      ensures id in jobs && Pursued(start, old(jobs)[id].scope, promise, View(), jobs[id])
      ensures jobs[id].state == Done ==> Result(View(), jobs[id].counts) == promise
    {
      ghost var scope := jobs[id].scope;
      for i := 0 to |calls|
        invariant id in jobs && Pursued(start, scope, promise, View(), jobs[id])
      {
        ghost var mid := View();
        ghost var job := jobs[id];
        var out := RunDeletionJob(id, calls[i].0, calls[i].1);
        PursuedOn(start, scope, promise, mid, job, calls[i].0, View(), out.value);
      }
    }
  }
}
