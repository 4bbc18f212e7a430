/** What a refused commit leaves behind, and what a second attempt then finds
    (src/artifactUploads.ts 623-735, 752-773). */
module UploadRetries {
  import opened Pricing
  import opened Store
  import opened Sums
  import opened UploadRules
  import opened Retention
  import opened UploadBooks
  import opened UploadIntegrity

  /** A refused commit leaves nothing of the run exactly when the run has no deduplicated row;
      with one, the run stays pending without the rows that failed. */
  lemma RefusalLeavesNothingExactlyWhen(db: Db, run: Id)
    requires run in db.runs && db.runs[run].state == Pending
    ensures var after := Step(db, Failing(run));
            var bare := forall id :: id in RowsOf(db.artifacts, run) ==> db.artifacts[id].state == Pending;
            && (run !in after.runs && RowsOf(after.artifacts, run) == {} <==> bare)
            && (!bare ==> run in after.runs && after.runs[run].state == Pending && RowsOf(after.artifacts, run) != {})
            && PendingRows(after.artifacts, run) == {}
  {
    var after := Step(db, Failing(run));
    assert after == FailRun(db, run);
    var left := db.artifacts - PendingRows(db.artifacts, run);
    assert after.artifacts == left;
    if kept :| kept in RowsOf(db.artifacts, run) && db.artifacts[kept].state == Committed {
      assert kept in RowsOf(left, run);
    } else {
      forall id | id in left ensures left[id].run != run {
        assert id !in PendingRows(db.artifacts, run);
      }
    }
  }

  /** Such a run can be committed by a second attempt, which has nothing left to verify. */
  lemma SecondAttemptVerifiesNothing(db: Db, run: Id, kept: Id, verifyContent: bool)
    requires run in db.runs && db.runs[run].state == Pending
    requires kept in RowsOf(db.artifacts, run) && db.artifacts[kept].state == Committed
    ensures var after := Step(db, Failing(run));
            && Enabled(after, Committing(run, verifyContent))
            && Step(after, Committing(run, verifyContent)).runs[run].state == Committed
            && Step(after, Committing(run, verifyContent)).artifacts == after.artifacts
  {
    var after := Step(db, Failing(run));
    RefusalLeavesNothingExactlyWhen(db, run);
    assert Enabled(after, Committing(run, verifyContent));
    assert CommitRows(after.artifacts, {}) == after.artifacts;
  }

  // ---- A run in which it happens -----------------------------------------------

  /** One screenshot the organization holds by then, and one it has never uploaded. */
  function MixedDeclaration(): Declaration
  {
    Declaration(1, 1, 2, 0, 0, [SharedItem(), Item(2, Build, 8, 10, Png)], [2, 3], map[7 := SharedKey()])
  }

  function MissingRow(): Artifact { Artifact(1, 2, 2, Build, Key(1, 8, Png), 8, 0, 10, Pending) }

  /** One run is committed; a second declares its screenshot and a new one, uploads nothing,
      and asks for its commit, which is refused; it asks again. */
  function Retried(): seq<Action>
  {
    [Declaring(RunDeclaring(1), OnePlan()), Transferring(SharedKey(), Blob(7, 10)), Committing(1, true),
     Declaring(MixedDeclaration(), OnePlan()), Failing(2), Committing(2, true)]
  }

  predicate IsRetried(actions: seq<Action>)
  {
    |actions| == 6 && forall i :: 0 <= i < 6 ==> actions[i] == Retried()[i]
  }

  // The tables after each step.

  predicate Mixed(db: Db)
  {
    match db
    case Db(_, runs, artifacts, objects, _) =>
      && artifacts == map[1 := HeldRow(1), 2 := HeldRow(2), 3 := MissingRow()] && objects == map[SharedKey() := Blob(7, 10)]
      && 2 in runs && runs[2] == Run(1, 1, 0, Pending)
  }

  lemma DeclaresMixed(db: Db)
    requires FirstHeld(db, map[SharedKey() := Blob(7, 10)])
    ensures Mixed(Step(db, Declaring(MixedDeclaration(), OnePlan())))
  {
    var d := MixedDeclaration();
    assert d.items[..0] == [] && d.items[..1] == [d.items[0]] && d.items[..2] == d.items;
    assert [d.items[0]][..0] == [] && d.items[..|d.items| - 1] == [d.items[0]];
    assert d.items[0].sha in d.held && d.items[1].sha !in d.held;
    assert FreshBytes([d.items[0]], d.held) == 0;
    assert FreshBytes(d.items, d.held) == FreshBytes([d.items[0]], d.held) + d.items[1].bytes;
    assert Bytes([d.items[0]]) == 10;
    assert Bytes(d.items) == Bytes([d.items[0]]) + d.items[1].bytes;
    assert db.artifacts[1].key in CommittedKeys(db.artifacts, 1);
    assert Insert(db.artifacts, d, 1) == Insert(db.artifacts, d, 0)[2 := RowOf(d, d.items[0])];
    assert Insert(db.artifacts, d, 2) == Insert(db.artifacts, d, 1)[3 := RowOf(d, d.items[1])];
    assert Declarable(db, d, OnePlan());
  }

  lemma RefusesMixed(db: Db)
    requires Mixed(db)
    ensures !AllArrived(db, 2, true)
    ensures var after := Step(Step(db, Failing(2)), Committing(2, true));
            2 in after.runs && after.runs[2].state == Committed && 3 !in after.artifacts
  {
    assert 3 in PendingRows(db.artifacts, 2) && !Arrived(db.objects, db.artifacts[3], true);
    assert 2 in RowsOf(db.artifacts, 2);
    SecondAttemptVerifiesNothing(db, 2, 2, true);
    RefusalLeavesNothingExactlyWhen(db, 2);
    assert Step(db, Failing(2)) == FailRun(db, 2);
  }

  lemma {:induction false} RetriedBegins(db: Db, all: seq<Action>)
    requires db == NoTables() && |all| == 6
    requires all[0] == Declaring(RunDeclaring(1), OnePlan()) && all[1] == Transferring(SharedKey(), Blob(7, 10))
    ensures FirstSent(RunAll(db, all[..2]), map[SharedKey() := Blob(7, 10)])
  {
    assert all[..0] == [];
    OneStep(db, all, 0);
    FirstDeclares(db);
    OneStep(db, all, 1);
    FirstSends(RunAll(db, all[..1]));
  }

  lemma {:induction false} RetriedDeclares(db: Db, all: seq<Action>)
    requires |all| == 6 && FirstSent(RunAll(db, all[..2]), map[SharedKey() := Blob(7, 10)])
    requires all[2] == Committing(1, true) && all[3] == Declaring(MixedDeclaration(), OnePlan())
    ensures Mixed(RunAll(db, all[..4]))
  {
    FirstCommits(RunAll(db, all[..2]));
    OneStep(db, all, 2);
    DeclaresMixed(RunAll(db, all[..3]));
    OneStep(db, all, 3);
  }

  /** From empty tables: the first commit of the second run is refused, and its second commit
      succeeds although the promised screenshot never arrived. */
  lemma {:induction false} RetrySkipsWhatFailed(db: Db, actions: seq<Action>)
    requires db == NoTables() && IsRetried(actions)
    ensures 2 in PendingRuns(RunAll(db, actions[..4])) && !AllArrived(RunAll(db, actions[..4]), 2, true)
    ensures var after := RunAll(db, actions); 2 in after.runs && after.runs[2].state == Committed && 3 !in after.artifacts
  {
    RetriedBegins(db, actions);
    RetriedDeclares(db, actions);
    RefusesMixed(RunAll(db, actions[..4]));
    OneStep(db, actions, 4);
    OneStep(db, actions, 5);
    assert actions[..6] == actions;
  }

  function PendingRuns(db: Db): set<Id> { set r | r in db.runs && db.runs[r].state == Pending }
}
