/** Run without interruption, the statements of an operation are the whole operation that
    UploadBooks has in one step. */
module StorageWhole {
  import opened Pricing
  import opened Store
  import opened Sums
  import opened UploadRules
  import opened Retention
  import opened UploadBooks
  import opened StorageSteps
  import opened StorageSound
  import opened StorageBooks

  lemma SnapshotKeys(artifacts: map<Id, Artifact>, run: Id)
    ensures Snapshot(artifacts, run).Keys == PendingRows(artifacts, run)
    ensures forall id :: id in Snapshot(artifacts, run) ==> Snapshot(artifacts, run)[id] == artifacts[id]
    ensures Promised(Snapshot(artifacts, run)) == DeclaredBytes(artifacts, PendingRows(artifacts, run))
  {
    PromisedIsDeclared(artifacts, Snapshot(artifacts, run));
    assert Snapshot(artifacts, run).Keys == PendingRows(artifacts, run);
  }

  lemma CallerBack(callers: map<nat, Pc>, c: nat, pc: Pc)
    requires c !in callers
    ensures callers[c := pc] - {c} == callers
  {}

  // ---- Commit ------------------------------------------------------------------

  lemma {:induction false} ChecksEach(s: Scene, begun: seq<Move>, c: nat, todo: set<Id>, verifyContent: bool)
    returns (moves: seq<Move>)
    requires var t := PlayAll(s, begun);
             c in t.callers && t.callers[c].Commit? && todo <= t.callers[c].rows.Keys
             && forall id :: id in todo ==> Arrived(t.db.objects, t.callers[c].rows[id], verifyContent)
    ensures var t := PlayAll(s, begun);
            PlayAll(s, moves) == t.(callers := t.callers[c := t.callers[c].(checked := t.callers[c].checked + todo)])
    decreases |todo|
  {
    var t := PlayAll(s, begun);
    var pc := t.callers[c];
    if todo == {} {
      moves := begun;
      assert pc.checked + todo == pc.checked && t.callers[c := pc] == t.callers;
    } else {
      var id :| id in todo;
      moves := ChecksEach(s, begun, c, todo - {id}, verifyContent);
      PlayOn(s, moves, Check(c, id, verifyContent));
      moves := moves + [Check(c, id, verifyContent)];
      assert pc.checked + (todo - {id}) + {id} == pc.checked + todo;
    }
  }

  lemma ReadsWhole(s: Scene, c: nat, run: Id) returns (moves: seq<Move>)
    requires c !in s.callers && run in s.db.runs
    ensures PlayAll(s, moves) == s.(callers := s.callers[c := Commit(s.db.runs[run].org, run, Snapshot(s.db.artifacts, run), {})])
  {
    moves := [];
    PlayOn(s, moves, Read(c, run));
    moves := moves + [Read(c, run)];
  }

  /** A commit that finds everything in order. */
  lemma UninterruptedCommit(s: Scene, c: nat, run: Id, verifyContent: bool) returns (moves: seq<Move>)
    requires c !in s.callers && Enabled(s.db, Committing(run, verifyContent))
    ensures PlayAll(s, moves).db == Step(s.db, Committing(run, verifyContent)) && PlayAll(s, moves).callers == s.callers
  {
    var rows := Snapshot(s.db.artifacts, run);
    SnapshotKeys(s.db.artifacts, run);
    moves := ReadsWhole(s, c, run);
    moves := ChecksEach(s, moves, c, rows.Keys, verifyContent);
    SettlesWhole(s, PlayAll(s, moves), c, run);
    PlayOn(s, moves, Settle(c));
    moves := moves + [Settle(c)];
  }

  lemma SettlesWhole(s: Scene, t: Scene, c: nat, run: Id)
    requires c !in s.callers && run in s.db.runs && s.db.runs[run].state == Pending && t.db == s.db
    requires var rows := Snapshot(s.db.artifacts, run);
             t.callers == s.callers[c := Commit(s.db.runs[run].org, run, rows, {} + rows.Keys)]
    ensures Play(t, Settle(c)).db == CommitRun(s.db, run) && Play(t, Settle(c)).callers == s.callers
  {
    SnapshotKeys(s.db.artifacts, run);
    CallerBack(s.callers, c, t.callers[c]);
  }

  // ---- Failure -----------------------------------------------------------------

  lemma {:induction false} RemovesEach(s: Scene, begun: seq<Move>, c: nat, todo: set<Id>) returns (moves: seq<Move>)
    requires var t := PlayAll(s, begun);
             c in t.callers && t.callers[c].Failure? && todo <= t.callers[c].rows.Keys && t.callers[c].removed == {}
    ensures var t := PlayAll(s, begun);
            PlayAll(s, moves) == t.(db := t.db.(objects := t.db.objects - KeysAt(t.callers[c].rows, todo)),
                                    callers := t.callers[c := t.callers[c].(removed := todo)])
    decreases |todo|
  {
    var t := PlayAll(s, begun);
    var pc := t.callers[c];
    if todo == {} {
      moves := begun;
      assert t.callers[c := pc] == t.callers && t.db.objects - KeysAt(pc.rows, todo) == t.db.objects;
    } else {
      var id :| id in todo;
      moves := RemovesEach(s, begun, c, todo - {id});
      PlayOn(s, moves, Remove(c, id));
      moves := moves + [Remove(c, id)];
      KeysLess(t.db.objects, pc.rows, todo, id);
      assert (todo - {id}) + {id} == todo;
    }
  }

  lemma KeysLess(objects: map<Key, Blob>, rows: map<Id, Artifact>, todo: set<Id>, id: Id)
    requires id in todo && todo <= rows.Keys
    ensures objects - KeysAt(rows, todo - {id}) - {rows[id].key} == objects - KeysAt(rows, todo)
  {
    assert KeysAt(rows, todo) == KeysAt(rows, todo - {id}) + {rows[id].key};
  }

  /** A failure none of whose deletes throws. */
  lemma UninterruptedFailure(s: Scene, c: nat, run: Id) returns (moves: seq<Move>)
    requires c !in s.callers && Enabled(s.db, Failing(run))
    ensures PlayAll(s, moves).db == Step(s.db, Failing(run)) && PlayAll(s, moves).callers == s.callers
  {
    var rows := Snapshot(s.db.artifacts, run);
    SnapshotKeys(s.db.artifacts, run);
    var none: seq<Move> := [];
    PlayOn(s, none, Abandon(c, run));
    var t := PlayAll(s, none + [Abandon(c, run)]);
    assert t.callers[c] == Failure(s.db.runs[run].org, run, rows, {});
    moves := RemovesEach(s, none + [Abandon(c, run)], c, rows.Keys);
    FinishesWhole(s, PlayAll(s, moves), c, run);
    PlayOn(s, moves, Finish(c));
    moves := moves + [Finish(c)];
  }

  lemma FinishesWhole(s: Scene, t: Scene, c: nat, run: Id)
    requires c !in s.callers && run in s.db.runs && s.db.runs[run].state == Pending
    requires var rows := Snapshot(s.db.artifacts, run);
             && t.db == s.db.(objects := s.db.objects - KeysAt(rows, rows.Keys))
             && t.callers == s.callers[c := Failure(s.db.runs[run].org, run, rows, rows.Keys)]
    ensures Play(t, Finish(c)).db == FailRun(s.db, run) && Play(t, Finish(c)).callers == s.callers
  {
    var rows := Snapshot(s.db.artifacts, run);
    SnapshotKeys(s.db.artifacts, run);
    CallerBack(s.callers, c, t.callers[c]);
    assert KeysAt(rows, rows.Keys) == KeysAt(s.db.artifacts, PendingRows(s.db.artifacts, run));
  }

  // ---- Deletion ----------------------------------------------------------------

  /** The deletion of a committed row: the object, the bytes and the row, or the row alone. */
  lemma UninterruptedDeletion(s: Scene, c: nat, id: Id) returns (moves: seq<Move>)
    requires c !in s.callers && Enabled(s.db, DeletingRow(id))
    ensures PlayAll(s, moves).db == Step(s.db, DeletingRow(id)) && PlayAll(s, moves).callers == s.callers
  {
    var a := s.db.artifacts[id];
    moves := [];
    PlayOn(s, moves, List(c, id));
    moves := moves + [List(c, id)];
    var t := PlayAll(s, moves);
    assert t == s.(callers := s.callers[c := Deletion(id, a, Listed)]);
    assert Others(s.db.artifacts, id, a) <==> Shared(s.db.artifacts, id);
    if Shared(s.db.artifacts, id) {
      DeletesRow(s, t, c, id, a);
      PlayOn(s, moves, Spare(c));
      moves := moves + [Spare(c)];
    } else {
      DeletesObject(s, t, c, id, a);
      PlayOn(s, moves, Count(c));
      moves := moves + [Count(c)];
      PlayOn(s, moves, Erase(c));
      moves := moves + [Erase(c)];
      PlayOn(s, moves, ForgetBytes(c));
      moves := moves + [ForgetBytes(c)];
    }
    PlayOn(s, moves, Drop(c));
    moves := moves + [Drop(c)];
  }

  lemma DeletesRow(s: Scene, t: Scene, c: nat, id: Id, a: Artifact)
    requires c !in s.callers && id in s.db.artifacts && s.db.artifacts[id] == a && Others(s.db.artifacts, id, a)
    requires t == s.(callers := s.callers[c := Deletion(id, a, Listed)])
    ensures var u := Play(Play(t, Spare(c)), Drop(c));
            u.db == s.db.(artifacts := s.db.artifacts - {id}) && u.callers == s.callers
  {
    assert Play(t, Spare(c)).callers == s.callers[c := Deletion(id, a, Spared)];
    CallerBack(s.callers, c, Deletion(id, a, Spared));
  }

  lemma DeletesObject(s: Scene, t: Scene, c: nat, id: Id, a: Artifact)
    requires c !in s.callers && id in s.db.artifacts && s.db.artifacts[id] == a && !Others(s.db.artifacts, id, a)
    requires t == s.(callers := s.callers[c := Deletion(id, a, Listed)])
    ensures var u := Play(Play(Play(Play(t, Count(c)), Erase(c)), ForgetBytes(c)), Drop(c));
            && u.db == s.db.(objects := s.db.objects - {a.key}, quota := Forget(s.db.quota, a.org, a.bytes),
                             artifacts := s.db.artifacts - {id})
            && u.callers == s.callers
  {
    ErasesObject(s, t, c, id, a);
    var u := Play(Play(t, Count(c)), Erase(c));
    ForgetsAndDrops(u, s.callers, c, id, a);
  }

  lemma ErasesObject(s: Scene, t: Scene, c: nat, id: Id, a: Artifact)
    requires c !in s.callers && !Others(s.db.artifacts, id, a)
    requires t == s.(callers := s.callers[c := Deletion(id, a, Listed)])
    ensures var u := Play(Play(t, Count(c)), Erase(c));
            u.db == s.db.(objects := s.db.objects - {a.key}) && u.callers == s.callers[c := Deletion(id, a, Erased)]
  {
    assert Play(t, Count(c)).callers == s.callers[c := Deletion(id, a, Counted)];
  }

  lemma ForgetsAndDrops(u: Scene, callers: map<nat, Pc>, c: nat, id: Id, a: Artifact)
    requires c !in callers && u.callers == callers[c := Deletion(id, a, Erased)]
    ensures var v := Play(Play(u, ForgetBytes(c)), Drop(c));
            && v.db == u.db.(quota := Forget(u.db.quota, a.org, a.bytes), artifacts := u.db.artifacts - {id})
            && v.callers == callers
  {
    assert Play(u, ForgetBytes(c)).callers == callers[c := Deletion(id, a, Forgotten)];
    CallerBack(callers, c, Deletion(id, a, Forgotten));
  }
}
