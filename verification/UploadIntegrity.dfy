/** What committed rows point at (src/artifactUploads.ts 415-472, 682-773), when no two runs
    are ever pending on one key at once, and what goes wrong when two are. */
module UploadIntegrity {
  import opened Pricing
  import opened Store
  import opened Sums
  import opened UploadRules
  import opened Retention
  import opened UploadBooks

  /** Every committed row points at a present object whose bytes hash to the row's sha256. */
  predicate Intact(db: Db)
  {
    match db
    case Db(_, _, artifacts, objects, _) =>
      forall id :: id in artifacts && artifacts[id].state == Committed ==>
        artifacts[id].key in objects && objects[artifacts[id].key].sha == artifacts[id].sha
  }

  /** Keys name their hash and organization, committed runs have no pending rows, and a pending
      row's key is its run's alone. */
  predicate Separate(db: Db)
  {
    match db
    case Db(_, runs, artifacts, _, _) =>
      && (forall id :: id in artifacts ==>
            var a := artifacts[id];
            a.key.org == a.org && a.key.sha == a.sha && a.run in runs
            && (runs[a.run].state == Committed ==> a.state == Committed))
      && (forall i, j :: i in artifacts && j in artifacts && artifacts[i].key == artifacts[j].key && artifacts[i].state == Pending
            ==> artifacts[j].state == Pending && artifacts[j].run == artifacts[i].run)
  }

  /** The proviso: a declaration names no new key that another run is still pending on. And a
      commit reads the bytes back, as it does unless told otherwise. */
  predicate Careful(db: Db, a: Action)
  {
    match a
    case Declaring(d, _) =>
      forall item, id :: item in d.items && item.sha !in d.held && id in db.artifacts && db.artifacts[id].state == Pending
        ==> db.artifacts[id].key != Key(d.org, item.sha, item.contentType)
    case Committing(_, verifyContent) => verifyContent
    case _ => true
  }

  ghost predicate AllCareful(db: Db, actions: seq<Action>)
  {
    forall i :: 0 <= i < |actions| ==> Careful(RunAll(db, actions[..i]), actions[i])
  }

  // ---- Declare -----------------------------------------------------------------

  /** A declared row: either a committed one on a held key, or a pending one on a key no row
      outside the run uses. */
  lemma DeclaredRow(db: Db, d: Declaration, plan: Plan, id: Id)
    requires Separate(db) && Declarable(db, d, plan) && Careful(db, Declaring(d, plan))
    requires id in DeclareRun(db, d).artifacts && id !in db.artifacts
    ensures var a := DeclareRun(db, d).artifacts[id];
            && a.key.org == a.org == d.org && a.key.sha == a.sha && a.run == d.run
            && (a.state == Committed ==> a.key in CommittedKeys(db.artifacts, d.org))
            && (a.state == Pending ==> forall o :: o in db.artifacts ==> db.artifacts[o].key != a.key)
  {
    InsertedRows(db.artifacts, d, |d.items|);
    var a := DeclareRun(db, d).artifacts[id];
    var i :| 0 <= i < |d.items| && id == d.ids[i] && a == RowOf(d, d.items[i]);
    assert d.items[i] in d.items;
    if a.state == Pending {
      forall o | o in db.artifacts ensures db.artifacts[o].key != a.key {
        if db.artifacts[o].state == Committed {
          assert Holds(db.artifacts[o], d.org, a.sha) <==> db.artifacts[o].org == d.org && db.artifacts[o].sha == a.sha;
        }
      }
    }
  }

  lemma DeclaredKeysApart(db: Db, d: Declaration, plan: Plan, i: Id, j: Id)
    requires Separate(db) && Declarable(db, d, plan) && Careful(db, Declaring(d, plan))
    requires var after := DeclareRun(db, d).artifacts;
             i in after && j in after && after[i].key == after[j].key && after[i].state == Pending
    ensures var after := DeclareRun(db, d).artifacts; after[j].state == Pending && after[j].run == after[i].run
  {
    InsertedRows(db.artifacts, d, |d.items|);
    if i !in db.artifacts { DeclaredRow(db, d, plan, i); }
    if j !in db.artifacts { DeclaredRow(db, d, plan, j); }
  }

  lemma DeclareSeparates(db: Db, d: Declaration, plan: Plan)
    requires Separate(db) && Declarable(db, d, plan) && Careful(db, Declaring(d, plan))
    ensures Separate(DeclareRun(db, d))
  {
    var after := DeclareRun(db, d).artifacts;
    InsertedRows(db.artifacts, d, |d.items|);
    forall id | id in after && id !in db.artifacts
      ensures var a := after[id]; a.key.org == a.org && a.key.sha == a.sha && a.run == d.run
    {
      DeclaredRow(db, d, plan, id);
    }
    forall i, j | i in after && j in after && after[i].key == after[j].key && after[i].state == Pending
      ensures after[j].state == Pending && after[j].run == after[i].run
    {
      DeclaredKeysApart(db, d, plan, i, j);
    }
  }

  lemma DeclareKeepsIntact(db: Db, d: Declaration, plan: Plan)
    requires Separate(db) && Intact(db) && Declarable(db, d, plan) && Careful(db, Declaring(d, plan))
    ensures Intact(DeclareRun(db, d))
  {
    var after := DeclareRun(db, d).artifacts;
    InsertedRows(db.artifacts, d, |d.items|);
    forall id | id in after && after[id].state == Committed && id !in db.artifacts
      ensures after[id].key in db.objects && db.objects[after[id].key].sha == after[id].sha
    {
      DeclaredRow(db, d, plan, id);
      var o :| o in db.artifacts && db.artifacts[o].state == Committed && db.artifacts[o].key == after[id].key;
    }
  }

  // ---- The other steps ---------------------------------------------------------

  lemma TransferKeepsIntact(db: Db, key: Key, blob: Blob)
    requires Separate(db) && Intact(db) && Enabled(db, Transferring(key, blob))
    ensures Intact(db.(objects := db.objects[key := blob]))
  {}

  lemma CommitKeeps(db: Db, run: Id)
    requires Separate(db) && Intact(db) && run in db.runs && AllArrived(db, run, true)
    ensures Separate(CommitRun(db, run)) && Intact(CommitRun(db, run))
  {
    var after := CommitRun(db, run);
    forall id | id in db.artifacts && db.artifacts[id].run == run ensures after.artifacts[id].state == Committed {
      assert id in PendingRows(db.artifacts, run) || db.artifacts[id].state == Committed;
    }
    forall id | id in PendingRows(db.artifacts, run) ensures Arrived(db.objects, db.artifacts[id], true) {}
  }

  /** When a failed run's objects and rows go with nothing in between, committed rows keep
      their objects exactly if none of them uses a key that run was pending on. */
  lemma FailureIsSafeExactlyWhen(db: Db, run: Id)
    requires Intact(db) && run in db.runs
    ensures Intact(FailRun(db, run))
       <==> forall id :: id in db.artifacts && db.artifacts[id].state == Committed ==>
              db.artifacts[id].key !in KeysAt(db.artifacts, PendingRows(db.artifacts, run))
  {
    var after := FailRun(db, run);
    forall id | id in db.artifacts && db.artifacts[id].state == Committed
      ensures id in after.artifacts && after.artifacts[id] == db.artifacts[id] {}
  }

  lemma FailureKeeps(db: Db, run: Id)
    requires Separate(db) && Intact(db) && run in db.runs
    ensures Separate(FailRun(db, run)) && Intact(FailRun(db, run))
  {}

  lemma BreakingOffKeeps(db: Db, run: Id, keys: set<Key>)
    requires Separate(db) && Intact(db) && keys <= KeysAt(db.artifacts, PendingRows(db.artifacts, run))
    ensures Intact(db.(objects := db.objects - keys))
  {}

  lemma DeletionKeeps(db: Db, id: Id)
    requires Separate(db) && Intact(db) && id in db.artifacts
    ensures Separate(DeleteArtifact(db, id)) && Intact(DeleteArtifact(db, id))
  {}

  lemma StepKeeps(db: Db, a: Action)
    requires Separate(db) && Intact(db) && Careful(db, a)
    ensures Separate(Step(db, a)) && Intact(Step(db, a))
  {
    if !Enabled(db, a) {
    } else if a.Declaring? {
      DeclareSeparates(db, a.d, a.plan);
      DeclareKeepsIntact(db, a.d, a.plan);
    } else if a.Transferring? {
      TransferKeepsIntact(db, a.key, a.blob);
    } else if a.Committing? {
      CommitKeeps(db, a.run);
    } else if a.Failing? {
      FailureKeeps(db, a.run);
    } else if a.BreakingOff? {
      BreakingOffKeeps(db, a.run, a.keys);
    } else if a.DeletingRow? {
      DeletionKeeps(db, a.id);
    }
  }

  /** On every run of whole operations in which no two runs are pending on one key at once, each
      committed row points at a present object with the content it names. */
  lemma {:induction false} CommittedRowsAreIntact(actions: seq<Action>)
    requires AllCareful(NoTables(), actions)
    ensures Intact(RunAll(NoTables(), actions)) && Separate(RunAll(NoTables(), actions))
  {
    if actions != [] {
      var last := |actions| - 1;
      var before := actions[..last];
      forall i | 0 <= i < last ensures Careful(RunAll(NoTables(), before[..i]), before[i]) {
        assert before[..i] == actions[..i];
      }
      CommittedRowsAreIntact(before);
      StepKeeps(RunAll(NoTables(), before), actions[last]);
    }
  }

  // ---- The proviso is needed ---------------------------------------------------

  function SharedItem(): Item { Item(1, Build, 7, 10, Png) }

  function SharedKey(): Key { Key(1, 7, Png) }

  function RunDeclaring(run: Id): Declaration { Declaration(1, 1, run, 0, 0, [SharedItem()], [run], map[]) }

  function OnePlan(): Plan { Plan(true, 10, 10, 100, 100) }

  /** Two runs of one organization declare the same screenshot before either commits; the
      bytes arrive, the first run commits, the second is swept. */
  function Collision(): seq<Action>
  {
    [Declaring(RunDeclaring(1), OnePlan()), Declaring(RunDeclaring(2), OnePlan()), Transferring(SharedKey(), Blob(7, 10)),
     Committing(1, true), Failing(2)]
  }

  function PendingRow(run: Id): Artifact { Artifact(1, run, 1, Build, SharedKey(), 7, 0, 10, Pending) }

  lemma DeclaresOne(db: Db, run: Id)
    requires run > 0 && run !in db.runs && run !in db.artifacts && CommittedKeys(db.artifacts, 1) == {}
    requires Room(Counters(db.quota, 1, 0), OnePlan(), 10)
    ensures Enabled(db, Declaring(RunDeclaring(run), OnePlan()))
    ensures var after := Step(db, Declaring(RunDeclaring(run), OnePlan()));
            && after.artifacts == db.artifacts[run := PendingRow(run)] && after.objects == db.objects
            && after.runs == db.runs[run := Run(1, 1, 0, Pending)]
            && after.quota == db.quota[1 := ReserveBytes(Counters(db.quota, 1, 0), 10)]
  {
    var d := RunDeclaring(run);
    assert d.items[..0] == [] && d.items[..1] == d.items;
    assert FreshBytes(d.items, d.held) == 10 && Bytes(d.items) == 10;
    forall id | id in db.artifacts && db.artifacts[id].org == 1 ensures db.artifacts[id].state != Committed {
      assert db.artifacts[id].key !in CommittedKeys(db.artifacts, 1);
    }
    assert Insert(db.artifacts, d, 1) == Insert(db.artifacts, d, 0)[run := RowOf(d, d.items[0])];
    assert Declarable(db, d, OnePlan());
  }

  // One run's upload, from empty tables.

  /** The committed row a run has on the shared key. */
  function HeldRow(run: Id): Artifact { PendingRow(run).(bytes := 10, state := Committed) }

  predicate FirstSent(db: Db, sent: map<Key, Blob>)
  {
    match db
    case Db(_, runs, artifacts, objects, quota) =>
      && artifacts == map[1 := PendingRow(1)] && objects == sent && runs == map[1 := Run(1, 1, 0, Pending)]
      && quota == map[1 := Quota(0, 10, 1, 0)]
  }

  predicate FirstHeld(db: Db, sent: map<Key, Blob>)
  {
    match db
    case Db(_, runs, artifacts, objects, quota) =>
      && artifacts == map[1 := HeldRow(1)] && objects == sent && runs == map[1 := Run(1, 1, 0, Committed)]
      && quota == map[1 := Quota(10, 0, 1, 0)]
  }

  lemma FirstDeclares(db: Db)
    requires db == NoTables()
    ensures FirstSent(Step(db, Declaring(RunDeclaring(1), OnePlan())), map[])
  {
    DeclaresOne(db, 1);
  }

  lemma FirstSends(db: Db)
    requires FirstSent(db, map[])
    ensures FirstSent(Step(db, Transferring(SharedKey(), Blob(7, 10))), map[SharedKey() := Blob(7, 10)])
  {
    assert db.artifacts[1].state == Pending;
  }

  lemma FirstCommits(db: Db)
    requires FirstSent(db, map[SharedKey() := Blob(7, 10)])
    ensures FirstHeld(Step(db, Committing(1, true)), map[SharedKey() := Blob(7, 10)])
  {
    var rows := PendingRows(db.artifacts, 1);
    assert rows == {1};
    assert Enabled(db, Committing(1, true));
    var none: set<Id> := {};
    SetTotalEmpty(none, DeclaredAt(db.artifacts));
    SetTotalAdd(none, DeclaredAt(db.artifacts), 1);
    assert none + {1} == rows;
  }

  // The tables after each of the next steps of the collision.

  predicate BothDeclared(db: Db, sent: map<Key, Blob>)
  {
    match db
    case Db(_, runs, artifacts, objects, _) =>
      && artifacts == map[1 := PendingRow(1), 2 := PendingRow(2)] && objects == sent
      && runs == map[1 := Run(1, 1, 0, Pending), 2 := Run(1, 1, 0, Pending)]
  }

  predicate FirstCommitted(db: Db)
  {
    match db
    case Db(_, runs, artifacts, objects, _) =>
      && artifacts == map[1 := HeldRow(1), 2 := PendingRow(2)]
      && objects == map[SharedKey() := Blob(7, 10)]
      && 2 in runs && runs[2] == Run(1, 1, 0, Pending)
  }

  lemma SecondStep(db: Db)
    requires FirstSent(db, map[])
    ensures BothDeclared(Step(db, Declaring(RunDeclaring(2), OnePlan())), map[])
  {
    assert CommittedKeys(db.artifacts, 1) == {};
    DeclaresOne(db, 2);
  }

  lemma ThirdStep(db: Db)
    requires BothDeclared(db, map[])
    ensures BothDeclared(Step(db, Transferring(SharedKey(), Blob(7, 10))), map[SharedKey() := Blob(7, 10)])
  {
    assert db.artifacts[1].state == Pending;
  }

  lemma FourthStep(db: Db)
    requires BothDeclared(db, map[SharedKey() := Blob(7, 10)])
    ensures FirstCommitted(Step(db, Committing(1, true)))
  {
    assert PendingRows(db.artifacts, 1) == {1};
    assert Enabled(db, Committing(1, true));
  }

  lemma LastStep(db: Db)
    requires FirstCommitted(db)
    ensures !Intact(Step(db, Failing(2)))
  {
    assert 2 in PendingRows(db.artifacts, 2);
    assert db.artifacts[1].key in KeysAt(db.artifacts, PendingRows(db.artifacts, 2)) && db.artifacts[1].state == Committed;
    var after := Step(db, Failing(2));
    assert after == FailRun(db, 2);
    assert 1 in after.artifacts && after.artifacts[1].key !in after.objects;
  }

  lemma {:induction false} OneStep(db: Db, actions: seq<Action>, n: nat)
    requires n < |actions|
    ensures RunAll(db, actions[..n + 1]) == Step(RunAll(db, actions[..n]), actions[n])
  {
    assert actions[..n + 1][..n] == actions[..n];
  }

  /** Without the proviso the promise breaks: the second run's failure deletes the object that
      the first run's committed row points at. */
  lemma {:induction false} TwoPendingRunsHurt(actions: seq<Action>)
    requires actions == Collision()
    ensures !Intact(RunAll(NoTables(), actions))
  {
    CollisionHurts(NoTables(), actions);
  }

  lemma {:induction false} CollisionBegins(db: Db, all: seq<Action>)
    requires db == NoTables() && |all| > 0 && all[0] == Declaring(RunDeclaring(1), OnePlan())
    ensures FirstSent(RunAll(db, all[..1]), map[])
  {
    assert all[..0] == [];
    OneStep(db, all, 0);
    FirstDeclares(db);
  }

  lemma {:induction false} CollisionDeclared(db: Db, all: seq<Action>)
    requires db == NoTables() && |all| == 5
    requires all[0] == Declaring(RunDeclaring(1), OnePlan()) && all[1] == Declaring(RunDeclaring(2), OnePlan())
    ensures BothDeclared(RunAll(db, all[..2]), map[])
  {
    CollisionBegins(db, all);
    SecondStep(RunAll(db, all[..1]));
    OneStep(db, all, 1);
  }

  lemma {:induction false} CollisionCommitted(db: Db, all: seq<Action>)
    requires db == NoTables() && |all| == 5
    requires forall i :: 0 <= i < 5 ==> all[i] == Collision()[i]
    ensures FirstCommitted(RunAll(db, all[..4]))
  {
    CollisionDeclared(db, all);
    ThirdStep(RunAll(db, all[..2]));
    OneStep(db, all, 2);
    FourthStep(RunAll(db, all[..3]));
    OneStep(db, all, 3);
  }

  lemma {:induction false} CollisionHurts(db: Db, all: seq<Action>)
    requires db == NoTables() && |all| == 5
    requires forall i :: 0 <= i < 5 ==> all[i] == Collision()[i]
    ensures !Intact(RunAll(db, all))
  {
    CollisionCommitted(db, all);
    LastStep(RunAll(db, all[..4]));
    OneStep(db, all, 4);
    assert all[..5] == all;
  }
}
