/** The storage quota balances on every run of declare, transfer, commit, failure, sweep and
    deletion of committed runs (src/artifactUploads.ts 223-295; src/retention.ts 341-373). */
module UploadAccounts {
  import opened Pricing
  import opened Store
  import opened Sums
  import opened UploadRules
  import opened Retention
  import opened UploadBooks

  // ---- Declare -----------------------------------------------------------------

  /** Under the hypothesis of one length per hash, and a plan limit that does not change. */
  predicate Fits(a: Action, len: Hash -> nat, max: Id -> int)
  {
    match a
    case Declaring(d, plan) =>
      plan.bytesStoredMax == max(d.org) && forall i :: i in d.items ==> i.bytes == len(i.sha)
    case _ => true
  }

  lemma DeclaredRowsTied(db: Db, d: Declaration, plan: Plan, len: Hash -> nat, max: Id -> int)
    requires RowsTied(db.artifacts, db.runs, len) && Declarable(db, d, plan) && Fits(Declaring(d, plan), len, max)
    ensures RowsTied(DeclareRun(db, d).artifacts, DeclareRun(db, d).runs, len)
  {
    var after := DeclareRun(db, d);
    InsertedRows(db.artifacts, d, |d.items|);
    forall id | id in after.artifacts && id !in db.artifacts
      ensures var a := after.artifacts[id];
              a.key.org == a.org == d.org && a.key.sha == a.sha && a.declared == len(a.sha) && a.run == d.run
              && (a.state == Committed ==> a.bytes == a.declared)
    {
      var i :| 0 <= i < |d.items| && id == d.ids[i] && after.artifacts[id] == RowOf(d, d.items[i]);
      assert d.items[i] in d.items;
      if d.items[i].sha in d.held {
        assert d.held[d.items[i].sha] in CommittedKeys(db.artifacts, d.org);
      }
    }
  }

  lemma DeclaredAccount(db: Db, d: Declaration, plan: Plan, o: Id, len: Hash -> nat, max: Id -> int)
    requires Declarable(db, d, plan) && Fits(Declaring(d, plan), len, max)
    requires o in db.quota ==> Account(db.artifacts, db.quota[o], o, len, max)
    requires o !in db.quota ==> PendingTotal(db.artifacts, o) == 0 && CommittedKeys(db.artifacts, o) == {}
    requires o in DeclareRun(db, d).quota
    ensures Account(DeclareRun(db, d).artifacts, DeclareRun(db, d).quota[o], o, len, max)
  {
    InsertedTotal(db.artifacts, d, |d.items|, o);
    InsertedKeys(db.artifacts, d, |d.items|, o);
    assert d.items[..|d.items|] == d.items;
    if o !in db.quota {
      SetTotalEmpty(CommittedKeys(db.artifacts, o), SizeOf(len));
    }
  }

  lemma NoRowsNoBytes(artifacts: map<Id, Artifact>, o: Id)
    requires forall id :: id in artifacts ==> artifacts[id].org != o
    ensures PendingTotal(artifacts, o) == 0 && CommittedKeys(artifacts, o) == {}
  {
    TotalZero(artifacts, PendingBytes(o));
  }

  lemma DeclareBalances(db: Db, d: Declaration, plan: Plan, len: Hash -> nat, max: Id -> int)
    requires Balanced(db, len, max) && Declarable(db, d, plan) && Fits(Declaring(d, plan), len, max)
    ensures Balanced(DeclareRun(db, d), len, max)
  {
    var after := DeclareRun(db, d);
    DeclaredRowsTied(db, d, plan, len, max);
    forall o | o in after.quota ensures Account(after.artifacts, after.quota[o], o, len, max) {
      if o !in db.quota {
        NoRowsNoBytes(db.artifacts, o);
      }
      DeclaredAccount(db, d, plan, o, len, max);
    }
  }

  // ---- Commit ------------------------------------------------------------------

  predicate PendingOf(artifacts: map<Id, Artifact>, rows: set<Id>, org: Id, len: Hash -> nat)
  {
    forall id :: id in rows ==>
      && id in artifacts && artifacts[id].state == Pending && artifacts[id].org == org
      && artifacts[id].declared == len(artifacts[id].sha) && artifacts[id].key.sha == artifacts[id].sha
  }

  lemma CommitOneMore(artifacts: map<Id, Artifact>, rows: set<Id>, id: Id, org: Id, o: Id, len: Hash -> nat)
    requires PendingOf(artifacts, rows, org, len) && id in rows
    ensures var before := CommitRows(artifacts, rows - {id});
            var a := artifacts[id];
            && CommitRows(artifacts, rows) == before[id := a.(bytes := a.declared, state := Committed)]
            && id in before && before[id] == a
            && CommittedKeys(CommitRows(artifacts, rows), o) == CommittedKeys(before, o) + (if o == org then {a.key} else {})
  {}

  lemma {:induction false} CommitTotals(artifacts: map<Id, Artifact>, rows: set<Id>, org: Id, o: Id, len: Hash -> nat)
    requires PendingOf(artifacts, rows, org, len)
    ensures var moved := if o == org then DeclaredBytes(artifacts, rows) else 0;
            var after := CommitRows(artifacts, rows);
            && PendingTotal(after, o) == PendingTotal(artifacts, o) - moved
            && KeysTotal(after, o, len) <= KeysTotal(artifacts, o, len) + moved
    decreases |rows|
  {
    if rows == {} {
      assert CommitRows(artifacts, rows) == artifacts;
      SetTotalEmpty(rows, DeclaredAt(artifacts));
    } else {
      var id :| id in rows;
      CommitTotals(artifacts, rows - {id}, org, o, len);
      CommitOneTotal(artifacts, rows, id, org, o, len);
    }
  }

  lemma CommitOneTotal(artifacts: map<Id, Artifact>, rows: set<Id>, id: Id, org: Id, o: Id, len: Hash -> nat)
    requires PendingOf(artifacts, rows, org, len) && id in rows
    ensures var before, after := CommitRows(artifacts, rows - {id}), CommitRows(artifacts, rows);
            var moved := if o == org then artifacts[id].declared else 0;
            && PendingTotal(after, o) == PendingTotal(before, o) - moved
            && KeysTotal(after, o, len) <= KeysTotal(before, o, len) + moved
            && DeclaredBytes(artifacts, rows) == DeclaredBytes(artifacts, rows - {id}) + artifacts[id].declared
  {
    var before, after := CommitRows(artifacts, rows - {id}), CommitRows(artifacts, rows);
    var a := artifacts[id];
    CommitOneMore(artifacts, rows, id, org, o, len);
    TotalUpdate(before, PendingBytes(o), id, a.(bytes := a.declared, state := Committed));
    SetTotalTake(rows, DeclaredAt(artifacts), id);
    var keys := CommittedKeys(before, o);
    if o == org {
      OneMoreKey(keys, a.key, len);
    } else {
      assert keys + {} == keys;
    }
  }

  lemma OneMoreKey(keys: set<Key>, key: Key, len: Hash -> nat)
    ensures SetTotal(keys + {key}, SizeOf(len)) <= SetTotal(keys, SizeOf(len)) + len(key.sha)
  {
    if key in keys {
      assert keys + {key} == keys;
    } else {
      SetTotalAdd(keys, SizeOf(len), key);
    }
  }

  // ---- Failure -----------------------------------------------------------------

  lemma {:induction false} DropTotals(artifacts: map<Id, Artifact>, rows: set<Id>, org: Id, o: Id, len: Hash -> nat)
    requires PendingOf(artifacts, rows, org, len)
    ensures PendingTotal(artifacts - rows, o)
         == PendingTotal(artifacts, o) - (if o == org then DeclaredBytes(artifacts, rows) else 0)
    decreases |rows|
  {
    if rows == {} {
      assert artifacts - rows == artifacts;
      SetTotalEmpty(rows, DeclaredAt(artifacts));
    } else {
      var id :| id in rows;
      var less := rows - {id};
      DropTotals(artifacts, less, org, o, len);
      DropOneTotal(artifacts, rows, id, o);
    }
  }

  lemma DropOneTotal(artifacts: map<Id, Artifact>, rows: set<Id>, id: Id, o: Id)
    requires id in rows && id in artifacts && artifacts[id].state == Pending
    ensures PendingTotal(artifacts - rows, o)
         == PendingTotal(artifacts - (rows - {id}), o) - (if o == artifacts[id].org then artifacts[id].declared else 0)
    ensures DeclaredBytes(artifacts, rows) == DeclaredBytes(artifacts, rows - {id}) + artifacts[id].declared
  {
    var less := rows - {id};
    TotalRemove(artifacts - less, PendingBytes(o), id);
    SetTotalTake(rows, DeclaredAt(artifacts), id);
    assert artifacts - less - {id} == artifacts - rows;
  }

  lemma DroppedKeys(artifacts: map<Id, Artifact>, rows: set<Id>, org: Id, o: Id, len: Hash -> nat)
    requires PendingOf(artifacts, rows, org, len)
    ensures CommittedKeys(artifacts - rows, o) == CommittedKeys(artifacts, o)
  {
    forall k | k in CommittedKeys(artifacts, o) ensures k in CommittedKeys(artifacts - rows, o) {
      var id :| id in artifacts && artifacts[id].org == o && artifacts[id].state == Committed && artifacts[id].key == k;
      assert id in artifacts - rows;
    }
  }

  // ---- Deletion ----------------------------------------------------------------

  lemma DeletedKeys(artifacts: map<Id, Artifact>, id: Id, o: Id, len: Hash -> nat)
    requires id in artifacts && artifacts[id].state == Committed && KeysOwned(artifacts)
    ensures KeysTotal(artifacts - {id}, o, len) <= KeysTotal(artifacts, o, len)
    ensures o == artifacts[id].org && !Shared(artifacts, id) ==>
              KeysTotal(artifacts - {id}, o, len) == KeysTotal(artifacts, o, len) - len(artifacts[id].key.sha)
    ensures o == artifacts[id].org ==> KeysTotal(artifacts, o, len) >= len(artifacts[id].key.sha)
  {
    var keys, left := CommittedKeys(artifacts, o), CommittedKeys(artifacts - {id}, o);
    var key := artifacts[id].key;
    assert left <= keys;
    SetTotalSubset(left, keys, SizeOf(len));
    if o == artifacts[id].org {
      assert key in keys;
      SetTotalTake(keys, SizeOf(len), key);
      SetTotalSubset({}, keys - {key}, SizeOf(len));
      SetTotalEmpty({}, SizeOf(len));
      if !Shared(artifacts, id) {
        forall k | k in keys - {key} ensures k in left {
          var i :| i in artifacts && artifacts[i].org == o && artifacts[i].state == Committed && artifacts[i].key == k;
          assert i in artifacts - {id};
        }
        assert left == keys - {key};
      }
    }
  }

  // ---- Every step --------------------------------------------------------------

  /** A run's pending bytes are reserved: settling or releasing them never meets the floor. */
  lemma ReservationCovers(artifacts: map<Id, Artifact>, rows: set<Id>, q: Quota, org: Id, len: Hash -> nat, max: Id -> int)
    requires PendingOf(artifacts, rows, org, len) && Account(artifacts, q, org, len, max)
    ensures 0 <= DeclaredBytes(artifacts, rows) <= q.reserved
  {
    DropTotals(artifacts, rows, org, org, len);
    TotalNonNegative(artifacts - rows, PendingBytes(org));
    var none: set<Id> := {};
    SetTotalSubset(none, rows, DeclaredAt(artifacts));
    SetTotalEmpty(none, DeclaredAt(artifacts));
  }

  /** An object's bytes are stored: giving them back never meets the floor. */
  lemma StoredCovers(artifacts: map<Id, Artifact>, id: Id, q: Quota, len: Hash -> nat, max: Id -> int)
    requires id in artifacts && artifacts[id].state == Committed && KeysOwned(artifacts)
    requires artifacts[id].bytes == len(artifacts[id].key.sha) && Account(artifacts, q, artifacts[id].org, len, max)
    ensures artifacts[id].bytes <= q.stored
  {
    DeletedKeys(artifacts, id, artifacts[id].org, len);
  }

  lemma SettledAccount(
    artifacts: map<Id, Artifact>, rows: set<Id>, q: Quota, org: Id, o: Id, len: Hash -> nat, max: Id -> int)
    requires PendingOf(artifacts, rows, org, len) && Account(artifacts, q, o, len, max)
    ensures Account(CommitRows(artifacts, rows), if o == org then SettleBytes(q, DeclaredBytes(artifacts, rows)) else q, o, len, max)
  {
    if o == org { ReservationCovers(artifacts, rows, q, org, len, max); }
    CommitTotals(artifacts, rows, org, o, len);
  }

  lemma ReleasedAccount(
    artifacts: map<Id, Artifact>, rows: set<Id>, q: Quota, org: Id, o: Id, len: Hash -> nat, max: Id -> int)
    requires PendingOf(artifacts, rows, org, len) && Account(artifacts, q, o, len, max)
    ensures Account(artifacts - rows, if o == org then ReleaseBytes(q, DeclaredBytes(artifacts, rows)) else q, o, len, max)
  {
    if o == org { ReservationCovers(artifacts, rows, q, org, len, max); }
    DropTotals(artifacts, rows, org, o, len);
    DroppedKeys(artifacts, rows, org, o, len);
  }

  lemma ForgottenAccount(artifacts: map<Id, Artifact>, id: Id, q: Quota, o: Id, len: Hash -> nat, max: Id -> int)
    requires id in artifacts && artifacts[id].state == Committed && KeysOwned(artifacts)
    requires artifacts[id].bytes == len(artifacts[id].key.sha) && Account(artifacts, q, o, len, max)
    ensures var freed := o == artifacts[id].org && !Shared(artifacts, id);
            Account(artifacts - {id}, if freed then q.(stored := AtLeastZero(q.stored - artifacts[id].bytes)) else q, o, len, max)
  {
    TotalRemove(artifacts, PendingBytes(o), id);
    DeletedKeys(artifacts, id, o, len);
  }

  lemma RunRowsPending(artifacts: map<Id, Artifact>, runs: map<Id, Run>, run: Id, len: Hash -> nat)
    requires RowsTied(artifacts, runs, len) && run in runs
    ensures PendingOf(artifacts, PendingRows(artifacts, run), runs[run].org, len)
  {}

  lemma CommitTied(artifacts: map<Id, Artifact>, runs: map<Id, Run>, run: Id, len: Hash -> nat)
    requires RowsTied(artifacts, runs, len) && run in runs
    ensures RowsTied(CommitRows(artifacts, PendingRows(artifacts, run)), runs[run := runs[run].(state := Committed)], len)
  {}

  lemma FailTied(artifacts: map<Id, Artifact>, runs: map<Id, Run>, run: Id, len: Hash -> nat)
    requires RowsTied(artifacts, runs, len)
    ensures var left := artifacts - PendingRows(artifacts, run); RowsTied(left, DropRun(runs, left, run), len)
  {}

  lemma CommitAccount(db: Db, run: Id, o: Id, len: Hash -> nat, max: Id -> int)
    requires Balanced(db, len, max) && run in db.runs && o in db.quota
    ensures o in CommitRun(db, run).quota && Account(CommitRun(db, run).artifacts, CommitRun(db, run).quota[o], o, len, max)
  {
    var org, rows := db.runs[run].org, PendingRows(db.artifacts, run);
    RunRowsPending(db.artifacts, db.runs, run, len);
    SettledAccount(db.artifacts, rows, db.quota[o], org, o, len, max);
  }

  lemma CommitBalances(db: Db, run: Id, len: Hash -> nat, max: Id -> int)
    requires Balanced(db, len, max) && run in db.runs
    ensures Balanced(CommitRun(db, run), len, max)
  {
    var after := CommitRun(db, run);
    CommitTied(db.artifacts, db.runs, run, len);
    forall o | o in db.quota ensures o in after.quota && Account(after.artifacts, after.quota[o], o, len, max) {
      CommitAccount(db, run, o, len, max);
    }
  }

  lemma FailAccount(db: Db, run: Id, o: Id, len: Hash -> nat, max: Id -> int)
    requires Balanced(db, len, max) && run in db.runs && o in db.quota
    ensures o in FailRun(db, run).quota && Account(FailRun(db, run).artifacts, FailRun(db, run).quota[o], o, len, max)
  {
    var org, rows := db.runs[run].org, PendingRows(db.artifacts, run);
    RunRowsPending(db.artifacts, db.runs, run, len);
    ReleasedAccount(db.artifacts, rows, db.quota[o], org, o, len, max);
  }

  lemma FailBalances(db: Db, run: Id, len: Hash -> nat, max: Id -> int)
    requires Balanced(db, len, max) && run in db.runs
    ensures Balanced(FailRun(db, run), len, max)
  {
    var after := FailRun(db, run);
    FailTied(db.artifacts, db.runs, run, len);
    forall o | o in db.quota ensures o in after.quota && Account(after.artifacts, after.quota[o], o, len, max) {
      FailAccount(db, run, o, len, max);
    }
  }

  /** The quota table after a deletion. */
  lemma DeletionQuota(db: Db, id: Id)
    requires id in db.artifacts
    ensures var a := db.artifacts[id];
            var after := DeleteArtifact(db, id);
            && after.artifacts == db.artifacts - {id} && after.runs == db.runs && after.quota.Keys == db.quota.Keys
            && forall o :: o in db.quota ==>
                 after.quota[o] == if o == a.org && !Shared(db.artifacts, id)
                                   then db.quota[o].(stored := AtLeastZero(db.quota[o].stored - a.bytes)) else db.quota[o]
  {}

  lemma DeletionBalances(db: Db, id: Id, len: Hash -> nat, max: Id -> int)
    requires Balanced(db, len, max) && id in db.artifacts && db.artifacts[id].state == Committed
    ensures Balanced(DeleteArtifact(db, id), len, max)
  {
    var after := DeleteArtifact(db, id);
    DeletionQuota(db, id);
    assert RowsTied(after.artifacts, after.runs, len);
    assert KeysOwned(db.artifacts) && db.artifacts[id].bytes == len(db.artifacts[id].key.sha);
    forall o | o in after.quota ensures Account(after.artifacts, after.quota[o], o, len, max) {
      ForgottenAccount(db.artifacts, id, db.quota[o], o, len, max);
    }
  }

  lemma SameBooks(db: Db, after: Db, len: Hash -> nat, max: Id -> int)
    requires Balanced(db, len, max) && after.artifacts == db.artifacts && after.quota == db.quota
    requires forall r :: r in after.runs ==> r in db.runs && after.runs[r] == db.runs[r]
    requires forall id :: id in db.artifacts ==> db.artifacts[id].run in after.runs
    ensures Balanced(after, len, max)
  {}

  lemma StepDeclares(db: Db, d: Declaration, plan: Plan)
    requires Enabled(db, Declaring(d, plan))
    ensures Declarable(db, d, plan) && Step(db, Declaring(d, plan)) == DeclareRun(db, d)
  {}

  lemma StepCommits(db: Db, run: Id, verifyContent: bool)
    requires Enabled(db, Committing(run, verifyContent))
    ensures run in db.runs && Step(db, Committing(run, verifyContent)) == CommitRun(db, run)
  {}

  lemma StepFails(db: Db, run: Id)
    requires Enabled(db, Failing(run))
    ensures run in db.runs && Step(db, Failing(run)) == FailRun(db, run)
  {}

  lemma StepDeletes(db: Db, id: Id, len: Hash -> nat, max: Id -> int)
    requires Balanced(db, len, max) && Enabled(db, DeletingRow(id))
    ensures id in db.artifacts && db.artifacts[id].state == Committed && Step(db, DeletingRow(id)) == DeleteArtifact(db, id)
  {}

  lemma StepTransfers(db: Db, key: Key, blob: Blob, len: Hash -> nat, max: Id -> int)
    requires Balanced(db, len, max) && Enabled(db, Transferring(key, blob))
    ensures Balanced(Step(db, Transferring(key, blob)), len, max)
  {
    SameBooks(db, db.(objects := db.objects[key := blob]), len, max);
  }

  lemma StepBreaksOff(db: Db, run: Id, keys: set<Key>, len: Hash -> nat, max: Id -> int)
    requires Balanced(db, len, max) && Enabled(db, BreakingOff(run, keys))
    ensures Balanced(Step(db, BreakingOff(run, keys)), len, max)
  {}

  lemma StepDropsRun(db: Db, run: Id, len: Hash -> nat, max: Id -> int)
    requires Balanced(db, len, max) && Enabled(db, DeletingRun(run))
    ensures Balanced(Step(db, DeletingRun(run)), len, max)
  {
    SameBooks(db, db.(runs := db.runs - {run}), len, max);
  }

  lemma StepBalances(db: Db, a: Action, len: Hash -> nat, max: Id -> int)
    requires Balanced(db, len, max) && Fits(a, len, max)
    ensures Balanced(Step(db, a), len, max)
  {
    if !Enabled(db, a) {
    } else if a.Declaring? {
      StepDeclares(db, a.d, a.plan);
      DeclareBalances(db, a.d, a.plan, len, max);
    } else if a.Committing? {
      StepCommits(db, a.run, a.verifyContent);
      CommitBalances(db, a.run, len, max);
    } else if a.Failing? {
      StepFails(db, a.run);
      FailBalances(db, a.run, len, max);
    } else if a.DeletingRow? {
      StepDeletes(db, a.id, len, max);
      DeletionBalances(db, a.id, len, max);
    } else if a.Transferring? {
      StepTransfers(db, a.key, a.blob, len, max);
    } else if a.BreakingOff? {
      StepBreaksOff(db, a.run, a.keys, len, max);
    } else {
      StepDropsRun(db, a.run, len, max);
    }
  }

  /** After any run: reserved bytes are the declared bytes of pending rows, stored bytes are at
      least the total size of the distinct committed keys, and together they are within the
      plan. */
  lemma {:induction false} QuotaIsConserved(actions: seq<Action>, len: Hash -> nat, max: Id -> int)
    requires forall a :: a in actions ==> Fits(a, len, max)
    ensures Balanced(RunAll(NoTables(), actions), len, max)
  {
    if actions != [] {
      var last := |actions| - 1;
      QuotaIsConserved(actions[..last], len, max);
      assert actions[last] in actions;
      StepBalances(RunAll(NoTables(), actions[..last]), actions[last], len, max);
    }
  }

  // The subtractions, had they no floor at zero.

  function PlainSettle(q: Quota, n: int): Quota { q.(reserved := q.reserved - n, stored := q.stored + n) }

  function PlainRelease(q: Quota, n: int): Quota { q.(reserved := q.reserved - n) }

  lemma RunReservationCovers(db: Db, run: Id, len: Hash -> nat, max: Id -> int)
    requires Balanced(db, len, max) && run in db.runs
    ensures var org := db.runs[run].org;
            org in db.quota && 0 <= DeclaredBytes(db.artifacts, PendingRows(db.artifacts, run)) <= db.quota[org].reserved
  {
    var org := db.runs[run].org;
    RunRowsPending(db.artifacts, db.runs, run, len);
    ReservationCovers(db.artifacts, PendingRows(db.artifacts, run), db.quota[org], org, len, max);
  }

  lemma RowStoredCovers(db: Db, id: Id, len: Hash -> nat, max: Id -> int)
    requires Balanced(db, len, max) && id in db.artifacts && db.artifacts[id].state == Committed
    ensures var a := db.artifacts[id]; a.org in db.quota && a.bytes <= db.quota[a.org].stored
  {
    var a := db.artifacts[id];
    assert db.runs[a.run].org == a.org;
    assert KeysOwned(db.artifacts) && a.bytes == len(a.key.sha);
    StoredCovers(db.artifacts, id, db.quota[a.org], len, max);
  }

  ghost predicate RunUnfloored(quota: map<Id, Quota>, org: Id, n: int)
  {
    && org in quota
    && SettleBytes(quota[org], n) == PlainSettle(quota[org], n)
    && ReleaseBytes(quota[org], n) == PlainRelease(quota[org], n)
  }

  ghost predicate RowUnfloored(quota: map<Id, Quota>, a: Artifact)
  {
    a.org in quota && AtLeastZero(quota[a.org].stored - a.bytes) == quota[a.org].stored - a.bytes
  }

  /** Whichever commit, failure or deletion of a committed row comes next, it subtracts exactly
      what it means to. */
  ghost predicate Unfloored(db: Db)
  {
    match db
    case Db(_, runs, artifacts, _, quota) =>
      && (forall run :: run in runs ==>
            RunUnfloored(quota, runs[run].org, DeclaredBytes(artifacts, PendingRows(artifacts, run))))
      && (forall id :: id in artifacts && artifacts[id].state == Committed ==> RowUnfloored(quota, artifacts[id]))
  }

  lemma AnyRun(db: Db, run: Id, len: Hash -> nat, max: Id -> int)
    requires Balanced(db, len, max) && run in db.runs
    ensures RunUnfloored(db.quota, db.runs[run].org, DeclaredBytes(db.artifacts, PendingRows(db.artifacts, run)))
  {
    RunReservationCovers(db, run, len, max);
  }

  lemma AnyRow(db: Db, id: Id, len: Hash -> nat, max: Id -> int)
    requires Balanced(db, len, max) && id in db.artifacts && db.artifacts[id].state == Committed
    ensures RowUnfloored(db.quota, db.artifacts[id])
  {
    RowStoredCovers(db, id, len, max);
  }

  lemma BalancedIsUnfloored(db: Db, len: Hash -> nat, max: Id -> int)
    requires Balanced(db, len, max)
    ensures Unfloored(db)
  {
    forall run | run in db.runs
      ensures RunUnfloored(db.quota, db.runs[run].org, DeclaredBytes(db.artifacts, PendingRows(db.artifacts, run)))
    {
      AnyRun(db, run, len, max);
    }
    forall id | id in db.artifacts && db.artifacts[id].state == Committed ensures RowUnfloored(db.quota, db.artifacts[id]) {
      AnyRow(db, id, len, max);
    }
  }

  /** On every run of whole operations, no `GREATEST(..., 0)` ever changes a value. */
  lemma {:induction false} NoFloorIsMet(actions: seq<Action>, len: Hash -> nat, max: Id -> int)
    requires forall b :: b in actions ==> Fits(b, len, max)
    ensures Unfloored(RunAll(NoTables(), actions))
  {
    QuotaIsConserved(actions, len, max);
    BalancedIsUnfloored(RunAll(NoTables(), actions), len, max);
  }

  // ---- A sweep that races a commit ---------------------------------------------

  lemma SettledTwice(q: Quota, others: int, bytes: int)
    requires q.reserved == others >= 0 && bytes >= 0
    ensures SettleBytes(q, bytes).reserved == Max(0, others - bytes)
    ensures SettleBytes(q, bytes).reserved == others <==> bytes == 0 || others == 0
  {}

  /** A commit that had verified its rows when the sweep took them settles bytes the sweep has
      already given back. The floor keeps the count from going negative, but what it takes is
      the reservation of other uploads: that count stays right exactly if there was nothing to
      settle or nothing else was pending. The stored count rises by bytes no row stands for. */
  lemma CommitAfterSweep(artifacts: map<Id, Artifact>, runs: map<Id, Run>, run: Id, q: Quota, len: Hash -> nat, max: Id -> int)
    requires RowsTied(artifacts, runs, len) && run in runs && Account(artifacts, q, runs[run].org, len, max)
    ensures var rows := PendingRows(artifacts, run);
            var bytes, others := DeclaredBytes(artifacts, rows), PendingTotal(artifacts - rows, runs[run].org);
            var after := SettleBytes(ReleaseBytes(q, bytes), bytes);
            && after.reserved == Max(0, others - bytes) && after.stored == q.stored + bytes
            && (after.reserved == others <==> bytes == 0 || others == 0)
  {
    var org, rows := runs[run].org, PendingRows(artifacts, run);
    RunRowsPending(artifacts, runs, run, len);
    ReservationCovers(artifacts, rows, q, org, len, max);
    ReleasedAccount(artifacts, rows, q, org, org, len, max);
    TotalNonNegative(artifacts - rows, PendingBytes(org));
    SettledTwice(ReleaseBytes(q, DeclaredBytes(artifacts, rows)), PendingTotal(artifacts - rows, org), DeclaredBytes(artifacts, rows));
  }
}
