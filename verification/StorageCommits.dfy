/** What a commit needs while it is under way: if no other commit of its run settles, no failure
    of it begins and no other bytes arrive under its keys, it may settle. */
module StorageCommits {
  import opened Pricing
  import opened Store
  import opened UploadRules
  import opened Retention
  import opened UploadBooks
  import opened UploadIntegrity
  import opened StorageSteps
  import opened StorageSound

  predicate Undisturbed(s: Scene, m: Move, run: Id, rows: map<Id, Artifact>)
  {
    match m
    case Settle(o) => o in s.callers && s.callers[o].Commit? ==> s.callers[o].run != run
    case Abandon(_, r) => r != run
    case Transfer(key, blob) => blob.sha == key.sha || forall id :: id in rows ==> rows[id].key != key
    case _ => true
  }

  ghost predicate AllUndisturbed(s: Scene, moves: seq<Move>, run: Id, rows: map<Id, Artifact>)
  {
    moves == []
    || (AllUndisturbed(s, moves[..|moves| - 1], run, rows)
        && Undisturbed(PlayAll(s, moves[..|moves| - 1]), moves[|moves| - 1], run, rows))
  }

  /** Pending rows of the run, in place, on present objects, held by no failure. */
  predicate Standing(s: Scene, run: Id, rows: map<Id, Artifact>)
  {
    && (forall id :: id in rows ==> rows[id].state == Pending && rows[id].run == run && rows[id].key.sha == rows[id].sha)
    && StillStands(s, rows) && Unthreatened(s, rows)
  }

  lemma SameRowsStand(s: Scene, t: Scene, run: Id, rows: map<Id, Artifact>)
    requires Standing(s, run, rows)
    requires forall id :: id in rows ==> id in t.db.artifacts && t.db.artifacts[id] == rows[id]
    requires forall id :: id in rows ==> Present(t.db.objects, rows[id])
    requires forall o :: o in t.callers && t.callers[o].Failure? ==>
               o in s.callers && s.callers[o].Failure? && s.callers[o].rows == t.callers[o].rows
    ensures Standing(t, run, rows)
  {}

  lemma DeclareStands(s: Scene, d: Declaration, plan: Plan, run: Id, rows: map<Id, Artifact>)
    requires Standing(s, run, rows) && Possible(s, Declare(d, plan))
    ensures Standing(Play(s, Declare(d, plan)), run, rows)
  {
    OldRowsStay(s.db, d);
    SameRowsStand(s, Play(s, Declare(d, plan)), run, rows);
  }

  lemma OldRowsStay(db: Db, d: Declaration)
    requires IdsFresh(db.artifacts, d)
    ensures forall id :: id in db.artifacts ==>
              id in DeclareRun(db, d).artifacts && DeclareRun(db, d).artifacts[id] == db.artifacts[id]
  {
    InsertedRows(db.artifacts, d, |d.items|);
  }

  lemma TransferStands(s: Scene, key: Key, blob: Blob, run: Id, rows: map<Id, Artifact>)
    requires Standing(s, run, rows) && Possible(s, Transfer(key, blob)) && Undisturbed(s, Transfer(key, blob), run, rows)
    ensures Standing(Play(s, Transfer(key, blob)), run, rows)
  {}

  lemma SettleStands(s: Scene, o: nat, run: Id, rows: map<Id, Artifact>)
    requires Steady(s) && Standing(s, run, rows) && Possible(s, Settle(o)) && Undisturbed(s, Settle(o), run, rows)
    ensures Standing(SettleCaller(s, o), run, rows)
  {
    assert PcKnown(s, s.callers[o]);
    SameRowsStand(s, SettleCaller(s, o), run, rows);
  }

  lemma AbandonStands(s: Scene, o: nat, r: Id, run: Id, rows: map<Id, Artifact>)
    requires Standing(s, run, rows) && Possible(s, Abandon(o, r)) && r != run
    ensures Standing(Play(s, Abandon(o, r)), run, rows)
  {}

  /** A failure of the run would hold them. */
  lemma NoFailureOfRun(s: Scene, o: nat, run: Id, rows: map<Id, Artifact>, id: Id)
    requires Steady(s) && Standing(s, run, rows) && o in s.callers && s.callers[o].Failure? && id in rows
    ensures s.callers[o].run != run
  {
    assert s.callers[o].rows == Snapshot(s.db.artifacts, s.callers[o].run);
    assert id in Snapshot(s.db.artifacts, run);
  }

  lemma RemoveStands(s: Scene, o: nat, other: Id, run: Id, rows: map<Id, Artifact>)
    requires Steady(s) && Standing(s, run, rows) && Possible(s, Remove(o, other))
    ensures Standing(Play(s, Remove(o, other)), run, rows)
  {
    assert s.callers[o].rows == Snapshot(s.db.artifacts, s.callers[o].run);
    forall id | id in rows ensures rows[id].key != s.callers[o].rows[other].key {
      NoFailureOfRun(s, o, run, rows, id);
    }
    SameRowsStand(s, Play(s, Remove(o, other)), run, rows);
  }

  lemma FinishStands(s: Scene, o: nat, run: Id, rows: map<Id, Artifact>)
    requires Steady(s) && Standing(s, run, rows) && Possible(s, Finish(o))
    ensures Standing(FinishCaller(s, o), run, rows)
  {
    forall id | id in rows ensures s.callers[o].run != run {
      NoFailureOfRun(s, o, run, rows, id);
    }
    SameRowsStand(s, FinishCaller(s, o), run, rows);
  }

  lemma EraseStands(s: Scene, o: nat, run: Id, rows: map<Id, Artifact>)
    requires Steady(s) && Standing(s, run, rows) && Possible(s, Erase(o))
    ensures Standing(Play(s, Erase(o)), run, rows)
  {
    assert PcKnown(s, s.callers[o]);
    assert DeletionHolds(s.db.artifacts, s.erased, s.freed, s.callers[o].id, Counted);
    SameRowsStand(s, Play(s, Erase(o)), run, rows);
  }

  lemma DropStands(s: Scene, o: nat, run: Id, rows: map<Id, Artifact>)
    requires Steady(s) && Standing(s, run, rows) && Possible(s, Drop(o))
    ensures Standing(Play(s, Drop(o)), run, rows)
  {
    assert PcKnown(s, s.callers[o]);
    SameRowsStand(s, Play(s, Drop(o)), run, rows);
  }

  lemma QuietStands(s: Scene, m: Move, run: Id, rows: map<Id, Artifact>)
    requires Standing(s, run, rows) && Possible(s, m)
    requires m.Read? || m.Check? || m.List? || m.Spare? || m.Count? || m.ForgetBytes? || m.DropRunRow? || m.Stop?
    ensures Standing(Play(s, m), run, rows)
  {
    SameRowsStand(s, Play(s, m), run, rows);
  }

  lemma MoveStands(s: Scene, m: Move, run: Id, rows: map<Id, Artifact>)
    requires Steady(s) && Standing(s, run, rows) && Undisturbed(s, m, run, rows)
    ensures Standing(Play(s, m), run, rows)
  {
    if !Possible(s, m) {
    } else if m.Declare? {
      DeclareStands(s, m.d, m.plan, run, rows);
    } else if m.Transfer? {
      TransferStands(s, m.key, m.blob, run, rows);
    } else if m.Settle? {
      SettleStands(s, m.c, run, rows);
    } else if m.Abandon? {
      AbandonStands(s, m.c, m.run, run, rows);
    } else if m.Remove? {
      RemoveStands(s, m.c, m.id, run, rows);
    } else if m.Finish? {
      FinishStands(s, m.c, run, rows);
    } else if m.Erase? {
      EraseStands(s, m.c, run, rows);
    } else if m.Drop? {
      DropStands(s, m.c, run, rows);
    } else {
      QuietStands(s, m, run, rows);
    }
  }

  lemma {:induction false} RowsStand(s: Scene, moves: seq<Move>, run: Id, rows: map<Id, Artifact>)
    requires Steady(s) && AllOrderly(s, moves) && AllUndisturbed(s, moves, run, rows) && Standing(s, run, rows)
    ensures Standing(PlayAll(s, moves), run, rows)
  {
    if moves != [] {
      var before, last := moves[..|moves| - 1], moves[|moves| - 1];
      RowsStand(s, before, run, rows);
      CommittedRowsKeepTheirObjects(s, before);
      MoveStands(PlayAll(s, before), last, run, rows);
    }
  }

  /** A commit whose rows stood when it verified them may settle at the end of any orderly run
      that leaves its own run alone. */
  lemma UndisturbedCommitMaySettle(s: Scene, moves: seq<Move>, c: nat)
    requires Steady(s) && c in s.callers && s.callers[c].Commit? && MaySettle(s, c)
    requires AllOrderly(s, moves) && AllUndisturbed(s, moves, s.callers[c].run, s.callers[c].rows)
    ensures var t := PlayAll(s, moves);
            c in t.callers && t.callers[c].Commit? && t.callers[c].rows == s.callers[c].rows ==> MaySettle(t, c)
  {
    assert PcKnown(s, s.callers[c]);
    RowsStand(s, moves, s.callers[c].run, s.callers[c].rows);
  }
}
