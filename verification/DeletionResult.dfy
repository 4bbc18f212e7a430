/** What a finished deletion job has done, however it was cut into calls. */
module DeletionResult {
  import opened Pricing
  import opened Store
  import opened Sums
  import opened Retention
  import opened DeletionEffect
  import opened DeletionJobs

  /** A job enqueued over the tables `start` and done by now, after any number of calls, with
      any batch sizes and through any failed deletes: exactly the targeted rows and runs are
      gone; an object is gone exactly when every row using its key was a target; the receipt
      holds each of them once, and their bytes, where rows on one key record one length. A dry
      run has changed nothing. */
  lemma FinishedJobIsExact(start: Db, scope: Scope, db: Db, job: Job, size: Key -> int)
    requires WellFormed(start) && job.state == Done
    requires Pursued(start, scope, Outcome(start, scope, Fresh(), job.dry), db, job)
    ensures job.dry ==> db == start && job.counts.objects == |Unshared(start.artifacts, Targets(start, scope))|
    ensures !job.dry ==>
              var repos := if scope.RepoScope? then {scope.repo} * start.repos else {};
              && db.artifacts == start.artifacts - Targets(start, scope)
              && db.runs == start.runs - TargetRuns(start.runs, scope)
              && db.repos == start.repos - repos
              && db.objects == start.objects - Freed(start.artifacts, Targets(start, scope))
              && job.counts.objects == |Freed(start.artifacts, Targets(start, scope))|
              && job.counts.rows == |Targets(start, scope)| + |TargetRuns(start.runs, scope)| + |repos|
    ensures !job.dry && OneLength(start.artifacts, size) ==>
              job.counts.bytes == SetTotal(Freed(start.artifacts, Targets(start, scope)), size)
    ensures !job.dry ==> RunsLeft(start, scope, db) && RestLeft(start, scope, db)
  {
    assert Promised(db, job) == Result(db, job.counts);
    if job.dry {
      DryRunCounts(start, scope);
    } else {
      DeletionIsExact(start, scope);
      if OneLength(start.artifacts, size) {
        ReceiptBytes(start, scope, size);
      }
    }
  }
}
