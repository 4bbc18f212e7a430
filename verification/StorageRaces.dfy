/** When is a move of an upload, a failure or a deletion safe, whatever happens afterwards?
    Exactly when it waits for what StorageSteps.Orderly says it must wait for. */
module StorageRaces {
  import opened Pricing
  import opened Store
  import opened Sums
  import opened UploadRules
  import opened Retention
  import opened UploadBooks
  import opened UploadIntegrity
  import opened UploadAccounts
  import opened StorageSteps
  import opened StorageSound
  import opened StorageBooks

  /** Every orderly continuation leaves everything right. */
  ghost predicate Safe(s: Scene, len: Hash -> nat, max: Id -> int)
  {
    forall moves :: AllOrderly(s, moves) && AllProper(moves, len, max) ==> Right(PlayAll(s, moves))
  }

  lemma GoodIsSafe(s: Scene, len: Hash -> nat, max: Id -> int)
    requires Good(s, len, max)
    ensures Safe(s, len, max)
  {
    forall moves | AllOrderly(s, moves) && AllProper(moves, len, max) ensures Right(PlayAll(s, moves)) {
      OrderlyRunsAreGood(s, moves, len, max);
      GoodIsRight(PlayAll(s, moves), len, max);
    }
  }

  // ---- Following a continuation ------------------------------------------------

  lemma SafeIsRight(s: Scene, len: Hash -> nat, max: Id -> int)
    requires Safe(s, len, max)
    ensures Right(s)
  {
    var none: seq<Move> := [];
    assert AllOrderly(s, none) && AllProper(none, len, max);
    assert PlayAll(s, none) == s;
  }

  lemma {:induction false} MoveFirst(s: Scene, m: Move, moves: seq<Move>)
    requires Orderly(s, m) && AllOrderly(Play(s, m), moves)
    ensures PlayAll(s, [m] + moves) == PlayAll(Play(s, m), moves)
    ensures AllOrderly(s, [m] + moves)
  {
    var all := [m] + moves;
    if moves == [] {
      assert all[..0] == [];
    } else {
      var before := moves[..|moves| - 1];
      MoveFirst(s, m, before);
      assert all[..|all| - 1] == [m] + before;
    }
  }

  lemma SafeNext(s: Scene, m: Move, len: Hash -> nat, max: Id -> int)
    requires Safe(s, len, max) && Orderly(s, m) && Proper(m, len, max)
    ensures Safe(Play(s, m), len, max) && Right(Play(s, m))
  {
    var next := Play(s, m);
    forall moves | AllOrderly(next, moves) && AllProper(moves, len, max) ensures Right(PlayAll(next, moves)) {
      MoveFirst(s, m, moves);
      assert AllProper([m] + moves, len, max);
    }
    SafeIsRight(next, len, max);
  }

  // ---- Giving back twice -------------------------------------------------------

  /** A failure that ends when its run has nothing pending any more. */
  lemma FinishesTwice(s: Scene, c: nat)
    requires Right(s) && c in s.callers && s.callers[c].Failure? && s.callers[c].org in s.db.quota
    requires Promised(s.callers[c].rows) > 0 && PendingRows(s.db.artifacts, s.callers[c].run) == {}
    ensures !Right(FinishCaller(s, c))
  {
    var after := FinishCaller(s, c);
    var org := s.callers[c].org;
    assert after.db.artifacts == s.db.artifacts;
    assert CountsExact(s, org);
    assert after.clamped || !CountsExact(after, org);
  }

  /** A deletion that forgets bytes already forgotten, or of a row that is gone. */
  lemma ForgetsTwice(s: Scene, c: nat)
    requires Right(s) && Deletes(s, c, Erased) && s.callers[c].row.bytes > 0 && s.callers[c].row.org in s.db.quota
    requires s.callers[c].id in s.db.artifacts ==> s.callers[c].id in s.freed && s.freed[s.callers[c].id] == s.callers[c].row
    ensures !Right(ForgetCaller(s, c))
  {
    var after := ForgetCaller(s, c);
    var org := s.callers[c].row.org;
    assert after.freed == s.freed;
    assert CountsExact(s, org);
    assert after.clamped || !CountsExact(after, org);
  }

  lemma {:induction false} SomePromised(rows: map<Id, Artifact>, id: Id)
    requires id in rows && forall i :: i in rows ==> rows[i].declared > 0
    ensures Promised(rows) > Promised(rows - {id}) >= 0
  {
    TotalRemove(rows, DeclaredSize(), id);
    TotalNonNegative(rows - {id}, DeclaredSize());
  }

  // ---- Settle ------------------------------------------------------------------

  lemma StoredTells(s: Scene, c: nat)
    requires Right(s) && c in s.callers && s.callers[c].Commit? && s.callers[c].org in s.db.quota
    requires Right(SettleCaller(s, c)) && StillPending(s.db.artifacts, s.callers[c].rows).Keys !! s.settled.Keys
    requires forall id :: id in s.callers[c].rows ==> s.callers[c].rows[id].org == s.callers[c].org
    ensures Promised(s.callers[c].rows) == Promised(StillPending(s.db.artifacts, s.callers[c].rows))
  {
    var org, rows := s.callers[c].org, s.callers[c].rows;
    var still := StillPending(s.db.artifacts, rows);
    assert CountsExact(s, org) && CountsExact(SettleCaller(s, c), org);
    TotalJoin(s.settled, still, DeclaredOf(org));
    PromisedOf(still, org, org);
  }

  lemma AllStillPending(artifacts: map<Id, Artifact>, rows: map<Id, Artifact>)
    requires Promised(rows) == Promised(StillPending(artifacts, rows)) && forall i :: i in rows ==> rows[i].declared > 0
    ensures StillPending(artifacts, rows) == rows
  {
    var still := StillPending(artifacts, rows);
    if id :| id in rows && id !in still {
      SomePromised(rows, id);
      TotalGrows(rows - {id}, still, DeclaredSize());
    }
  }

  lemma CommitRowsKnown(s: Scene, c: nat)
    requires Steady(s) && Paid(s) && c in s.callers && s.callers[c].Commit?
    ensures var pc := s.callers[c];
            && pc.org in s.db.quota
            && forall id :: id in pc.rows ==>
                 && pc.rows[id].org == pc.org && pc.rows[id].declared > 0
                 && (id in s.db.artifacts && s.db.artifacts[id].state == Pending ==>
                       s.db.artifacts[id] == pc.rows[id] && id !in s.settled && id !in s.erased)
  {
    assert PcKnown(s, s.callers[c]) && CallerPaid(s.db.quota, s.callers[c]);
    ErasedAreCommitted(s);
  }

  lemma SettleFindsItsRows(s: Scene, c: nat)
    requires Steady(s) && Paid(s) && Right(s) && Possible(s, Settle(c)) && Right(SettleCaller(s, c))
    ensures forall id :: id in s.callers[c].rows ==> id in s.db.artifacts && s.db.artifacts[id] == s.callers[c].rows[id]
  {
    var rows := s.callers[c].rows;
    CommitRowsKnown(s, c);
    StoredTells(s, c);
    AllStillPending(s.db.artifacts, rows);
    forall id | id in rows ensures id in s.db.artifacts && s.db.artifacts[id] == rows[id] {
      assert id in StillPending(s.db.artifacts, rows);
    }
  }

  lemma SettleFindsItsObjects(s: Scene, c: nat, id: Id)
    requires c in s.callers && s.callers[c].Commit? && Sound(SettleCaller(s, c)) && id in s.callers[c].rows
    requires id in s.db.artifacts && s.db.artifacts[id] == s.callers[c].rows[id] && id !in s.erased
    ensures Present(s.db.objects, s.callers[c].rows[id])
  {
    assert SettleCaller(s, c).db.artifacts[id] == Settled(s.db.artifacts[id]);
  }

  lemma SettleStands(s: Scene, c: nat)
    requires Steady(s) && Paid(s) && Right(s) && Possible(s, Settle(c)) && Right(SettleCaller(s, c))
    ensures StillStands(s, s.callers[c].rows)
  {
    SettleFindsItsRows(s, c);
    CommitRowsKnown(s, c);
    assert PcKnown(s, s.callers[c]);
    forall id | id in s.callers[c].rows ensures Present(s.db.objects, s.callers[c].rows[id]) {
      SettleFindsItsObjects(s, c, id);
    }
  }

  /** Once one of them is settled, all rows a failure holds are, and its run has none pending. */
  lemma FailureSettled(s: Scene, c: nat, o: nat, id: Id)
    requires c in s.callers && s.callers[c].Commit? && o in s.callers && s.callers[o].Failure? && s.callers[o].org in s.db.quota
    requires InHand(s, s.callers[c].org, s.callers[c].run, s.callers[c].rows)
    requires InHand(s, s.callers[o].org, s.callers[o].run, s.callers[o].rows)
    requires id in s.callers[o].rows && id in s.callers[c].rows
    ensures var after := SettleCaller(s, c);
            && o in after.callers && after.callers[o] == s.callers[o] && s.callers[o].org in after.db.quota
            && PendingRows(after.db.artifacts, s.callers[o].run) == {}
            && (forall i :: i in s.callers[o].rows ==>
                  && i !in s.erased && i in after.db.artifacts
                  && after.db.artifacts[i].state == Committed && after.db.artifacts[i].key == s.callers[o].rows[i].key)
  {}

  lemma RemoveUnsettles(s: Scene, o: nat, id: Id)
    requires Possible(s, Remove(o, id)) && id in s.db.artifacts && s.db.artifacts[id].state == Committed && id !in s.erased
    requires s.db.artifacts[id].key == s.callers[o].rows[id].key
    ensures !Right(Play(s, Remove(o, id)))
  {
    var after := Play(s, Remove(o, id));
    assert after.db.artifacts[id].key !in after.db.objects;
  }

  /** A failure that still holds rows when they are settled. */
  lemma SettleUnderFailure(after: Scene, o: nat, id: Id, len: Hash -> nat, max: Id -> int)
    requires o in after.callers && after.callers[o].Failure? && after.callers[o].org in after.db.quota
    requires PendingRows(after.db.artifacts, after.callers[o].run) == {}
    requires after.callers[o].removed <= after.callers[o].rows.Keys && id in after.callers[o].rows
    requires forall i :: i in after.callers[o].rows ==>
               && after.callers[o].rows[i].declared > 0 && i !in after.erased && i in after.db.artifacts
               && after.db.artifacts[i].state == Committed && after.db.artifacts[i].key == after.callers[o].rows[i].key
    ensures !Safe(after, len, max)
  {
    if Safe(after, len, max) {
      SafeIsRight(after, len, max);
      var pc := after.callers[o];
      if left :| left in pc.rows && left !in pc.removed {
        SafeNext(after, Remove(o, left), len, max);
        RemoveUnsettles(after, o, left);
      } else {
        SafeNext(after, Finish(o), len, max);
        SomePromised(pc.rows, id);
        FinishesTwice(after, o);
      }
    }
  }

  lemma SettleUnthreatened(s: Scene, c: nat, o: nat, id: Id, len: Hash -> nat, max: Id -> int)
    requires Steady(s) && Paid(s) && Possible(s, Settle(c)) && StillStands(s, s.callers[c].rows)
    requires o in s.callers && s.callers[o].Failure? && id in s.callers[o].rows && id in s.callers[c].rows
    ensures !Safe(SettleCaller(s, c), len, max)
  {
    CommitInHand(s, c);
    FailureInHand(s, o);
    FailureSettled(s, c, o, id);
    assert PcKnown(s, s.callers[o]);
    SettleUnderFailure(SettleCaller(s, c), o, id, len, max);
  }

  lemma SettleMustWait(s: Scene, c: nat, len: Hash -> nat, max: Id -> int)
    requires Good(s, len, max) && Possible(s, Settle(c)) && Safe(SettleCaller(s, c), len, max)
    ensures MaySettle(s, c)
  {
    SafeIsRight(SettleCaller(s, c), len, max);
    GoodIsRight(s, len, max);
    SettleStands(s, c);
    forall o, id | o in s.callers && s.callers[o].Failure? && id in s.callers[o].rows ensures id !in s.callers[c].rows {
      if id in s.callers[c].rows { SettleUnthreatened(s, c, o, id, len, max); }
    }
  }

  // ---- Abandon -----------------------------------------------------------------

  /** A failure that has deleted all its objects. */
  function Cleared(s: Scene, c: nat, t: Scene): bool
    requires c in s.callers && s.callers[c].Failure?
  {
    && t == s.(db := s.db.(objects := t.db.objects), callers := t.callers)
    && t.callers == s.callers[c := s.callers[c].(removed := s.callers[c].rows.Keys)]
  }

  lemma {:induction false} RemovesAll(s: Scene, c: nat, len: Hash -> nat, max: Id -> int) returns (t: Scene)
    requires Safe(s, len, max) && c in s.callers && s.callers[c].Failure? && s.callers[c].removed <= s.callers[c].rows.Keys
    ensures Safe(t, len, max) && Cleared(s, c, t)
    decreases s.callers[c].rows.Keys - s.callers[c].removed
  {
    var pc := s.callers[c];
    if left :| left in pc.rows && left !in pc.removed {
      SafeNext(s, Remove(c, left), len, max);
      var next := Play(s, Remove(c, left));
      assert pc.rows.Keys - (pc.removed + {left}) < pc.rows.Keys - pc.removed;
      t := RemovesAll(next, c, len, max);
      assert next.callers[c := pc.(removed := pc.rows.Keys)] == s.callers[c := pc.(removed := pc.rows.Keys)];
    } else {
      t := s;
      assert pc.removed == pc.rows.Keys;
      assert s.callers[c := pc] == s.callers;
    }
  }

  /** Two failures that hold the same rows. */
  lemma BothFinish(s: Scene, c: nat, o: nat, id: Id, len: Hash -> nat, max: Id -> int)
    requires c in s.callers && s.callers[c].Failure? && o in s.callers && s.callers[o].Failure? && c != o
    requires s.callers[o].run == s.callers[c].run && s.callers[c].removed <= s.callers[c].rows.Keys
    requires s.callers[o].removed <= s.callers[o].rows.Keys && s.callers[c].org in s.db.quota
    requires id in s.callers[c].rows && forall i :: i in s.callers[c].rows ==> s.callers[c].rows[i].declared > 0
    ensures !Safe(s, len, max)
  {
    if Safe(s, len, max) {
      var t := RemovesAll(s, o, len, max);
      var u := RemovesAll(t, c, len, max);
      SafeNext(u, Finish(o), len, max);
      var v := Play(u, Finish(o));
      assert v == FinishCaller(u, o);
      assert PendingRows(v.db.artifacts, s.callers[c].run) == {};
      SafeNext(v, Finish(c), len, max);
      SomePromised(s.callers[c].rows, id);
      FinishesTwice(v, c);
    }
  }

  lemma AbandonedTwice(s: Scene, c: nat, run: Id, o: nat, id: Id, len: Hash -> nat, max: Id -> int)
    requires Steady(s) && Paid(s) && Possible(s, Abandon(c, run)) && s.db.runs[run].org in s.db.quota
    requires o in s.callers && s.callers[o].Failure? && id in s.callers[o].rows && id in Snapshot(s.db.artifacts, run)
    ensures !Safe(Play(s, Abandon(c, run)), len, max)
  {
    FailureInHand(s, o);
    assert PcKnown(s, s.callers[o]);
    BothFinish(Play(s, Abandon(c, run)), c, o, id, len, max);
  }

  lemma AbandonMustWait(s: Scene, c: nat, run: Id, len: Hash -> nat, max: Id -> int)
    requires Good(s, len, max) && Possible(s, Abandon(c, run)) && Safe(Play(s, Abandon(c, run)), len, max)
    ensures Unthreatened(s, Snapshot(s.db.artifacts, run))
  {
    BooksParts(s, len, max);
    forall o, id | o in s.callers && s.callers[o].Failure? && id in s.callers[o].rows
      ensures id !in Snapshot(s.db.artifacts, run)
    {
      if id in Snapshot(s.db.artifacts, run) { AbandonedTwice(s, c, run, o, id, len, max); }
    }
  }

  // ---- Count -------------------------------------------------------------------

  /** A deletion that has counted no other users of an object whose bytes are given back
      already, or of a row that is gone. */
  lemma CountedInVain(s: Scene, c: nat, len: Hash -> nat, max: Id -> int)
    requires Deletes(s, c, Counted) && s.callers[c].row.bytes > 0 && s.callers[c].row.org in s.db.quota
    requires s.callers[c].id in s.db.artifacts ==> s.callers[c].id in s.freed && s.freed[s.callers[c].id] == s.callers[c].row
    ensures !Safe(s, len, max)
  {
    if Safe(s, len, max) {
      SafeNext(s, Erase(c), len, max);
      var t := Play(s, Erase(c));
      SafeNext(t, ForgetBytes(c), len, max);
      ForgetsTwice(t, c);
    }
  }

  /** Another deletion of the row gets there first. */
  lemma CountedTwice(s: Scene, c: nat, o: nat, len: Hash -> nat, max: Id -> int)
    requires Deletes(s, c, Counted) && s.callers[c].row.bytes > 0 && s.callers[c].row.org in s.db.quota
    requires o in s.callers && o != c && s.callers[o].Deletion? && s.callers[o].id == s.callers[c].id
    requires s.callers[o].row == s.callers[c].row && s.callers[o].stage in {Spared, Counted, Erased}
    ensures !Safe(s, len, max)
    decreases s.callers[o].stage == Counted
  {
    if Safe(s, len, max) {
      if s.callers[o].stage == Spared {
        SafeNext(s, Drop(o), len, max);
        CountedInVain(Play(s, Drop(o)), c, len, max);
      } else if s.callers[o].stage == Counted {
        SafeNext(s, Erase(o), len, max);
        CountedTwice(Play(s, Erase(o)), c, o, len, max);
      } else {
        SafeNext(s, ForgetBytes(o), len, max);
        CountedInVain(Play(s, ForgetBytes(o)), c, len, max);
      }
    }
  }

  lemma DeletionFacts(s: Scene, c: nat)
    requires Steady(s) && Paid(s) && c in s.callers && s.callers[c].Deletion?
    ensures var pc := s.callers[c];
            && pc.row.bytes > 0 && pc.row.org in s.db.quota
            && (pc.id in s.db.artifacts ==> s.db.artifacts[pc.id] == pc.row)
            && (pc.id in s.db.artifacts && pc.id in s.freed ==> s.freed[pc.id] == pc.row)
            && (pc.stage == Forgotten ==> pc.id in s.freed)
  {
    assert PcKnown(s, s.callers[c]) && CallerPaid(s.db.quota, s.callers[c]);
    assert Dooms(s.callers[c]) ==> DeletionHolds(s.db.artifacts, s.erased, s.freed, s.callers[c].id, s.callers[c].stage);
  }

  lemma CountFindsItsRow(s: Scene, c: nat, len: Hash -> nat, max: Id -> int)
    requires Steady(s) && Paid(s) && Possible(s, Count(c)) && Safe(Play(s, Count(c)), len, max)
    ensures s.callers[c].id in s.db.artifacts && s.callers[c].id !in s.freed
  {
    DeletionFacts(s, c);
    var id := s.callers[c].id;
    if id in s.db.artifacts ==> id in s.freed { CountedInVain(Play(s, Count(c)), c, len, max); }
  }

  lemma CountIsAlone(s: Scene, c: nat, o: nat, len: Hash -> nat, max: Id -> int)
    requires Steady(s) && Paid(s) && Possible(s, Count(c)) && Safe(Play(s, Count(c)), len, max)
    requires o in s.callers && o != c && s.callers[o].Deletion? && s.callers[o].id == s.callers[c].id
    ensures s.callers[o].stage == Listed
  {
    CountFindsItsRow(s, c, len, max);
    DeletionFacts(s, c);
    DeletionFacts(s, o);
    if s.callers[o].stage != Listed { CountedTwice(Play(s, Count(c)), c, o, len, max); }
  }

  lemma CountMustWait(s: Scene, c: nat, len: Hash -> nat, max: Id -> int)
    requires Steady(s) && Paid(s) && Possible(s, Count(c)) && Safe(Play(s, Count(c)), len, max)
    ensures MayCount(s, c)
  {
    CountFindsItsRow(s, c, len, max);
    forall o | o in s.callers && o != c && s.callers[o].Deletion? && s.callers[o].id == s.callers[c].id
      ensures s.callers[o].stage == Listed
    {
      CountIsAlone(s, c, o, len, max);
    }
  }

  // ---- Declare -----------------------------------------------------------------

  /** The row a declaration writes for one of its items. */
  lemma DeclaredItem(s: Scene, d: Declaration, plan: Plan, i: nat)
    requires Declarable(s.db, d, plan) && i < |d.items|
    ensures d.ids[i] in DeclareRun(s.db, d).artifacts && DeclareRun(s.db, d).artifacts[d.ids[i]] == RowOf(d, d.items[i])
    ensures forall id :: id in s.db.artifacts ==>
              id in DeclareRun(s.db, d).artifacts && DeclareRun(s.db, d).artifacts[id] == s.db.artifacts[id]
  {
    InsertedRows(s.db.artifacts, d, |d.items|);
    var after := Insert(s.db.artifacts, d, |d.items|);
    var k :| 0 <= k < |d.items| && d.ids[i] == d.ids[k] && after[d.ids[i]] == RowOf(d, d.items[k]);
  }

  lemma WrongIsUnsafe(s: Scene, len: Hash -> nat, max: Id -> int)
    requires !Right(s)
    ensures !Safe(s, len, max)
  {
    if Safe(s, len, max) { SafeIsRight(s, len, max); }
  }

  lemma UnsafeNext(s: Scene, m: Move, len: Hash -> nat, max: Id -> int)
    requires Orderly(s, m) && Proper(m, len, max) && !Safe(Play(s, m), len, max)
    ensures !Safe(s, len, max)
  {
    if Safe(s, len, max) { SafeNext(s, m, len, max); }
  }

  lemma OrphanIsWrong(s: Scene, id: Id)
    requires Orphan(s.db, id) && id !in s.erased
    ensures !Right(s)
  {}

  /** The row a declaration deduplicates onto an object that is being deleted. */
  predicate Taken(s: Scene, id: Id, a: Artifact)
  {
    a.state == Committed && id !in s.erased && id in s.db.artifacts && s.db.artifacts[id] == a
  }

  lemma TakenGone(s: Scene, after: Scene, new1: Id, a: Artifact, id: Id, len: Hash -> nat, max: Id -> int)
    requires id in s.erased && id in s.db.artifacts && ErasedHold(s.db.runs, s.db.artifacts, s.db.objects, s.erased, s.freed)
    requires Taken(after, new1, a) && after.db.objects == s.db.objects && a.key == s.db.artifacts[id].key
    ensures !Safe(after, len, max)
  {
    assert Gone(s.db.runs, s.db.artifacts, s.db.objects, id);
    OrphanIsWrong(after, new1);
    WrongIsUnsafe(after, len, max);
  }

  lemma TakenGoing(after: Scene, new1: Id, a: Artifact, c: nat, len: Hash -> nat, max: Id -> int)
    requires Taken(after, new1, a) && Deletes(after, c, Counted) && after.callers[c].row.key == a.key && after.callers[c].id != new1
    ensures !Safe(after, len, max)
  {
    var next := Play(after, Erase(c));
    OrphanIsWrong(next, new1);
    WrongIsUnsafe(next, len, max);
    UnsafeNext(after, Erase(c), len, max);
  }

  lemma TakerIsLost(s: Scene, d: Declaration, plan: Plan, i: nat, id: Id, len: Hash -> nat, max: Id -> int)
    requires Steady(s) && Possible(s, Declare(d, plan)) && i < |d.items| && d.items[i].sha in d.held
    requires id in s.db.artifacts && Doomed(s, id) && d.held[d.items[i].sha] == s.db.artifacts[id].key
    ensures !Safe(Play(s, Declare(d, plan)), len, max)
  {
    var after := Play(s, Declare(d, plan));
    var a := RowOf(d, d.items[i]);
    DeclaredItem(s, d, plan, i);
    assert d.ids[i] !in s.ids;
    if id in s.erased {
      TakenGone(s, after, d.ids[i], a, id, len, max);
    } else {
      var c :| c in s.callers && Dooms(s.callers[c]) && s.callers[c].id == id;
      assert PcKnown(s, s.callers[c]) && DeletionHolds(s.db.artifacts, s.erased, s.freed, id, s.callers[c].stage);
      TakenGoing(after, d.ids[i], a, c, len, max);
    }
  }

  // A declaration that names a new key another run is pending on: the new run can be committed
  // whole, and the other one's failure then takes its object.

  /** These rows arrived as declared. */
  predicate Sent(s: Scene, todo: set<Id>)
  {
    forall id :: id in todo && id in s.db.artifacts ==> Arrived(s.db.objects, s.db.artifacts[id], true)
  }

  /** Rows of one hash length, keyed by their hash, that are pending. */
  predicate Sendable(s: Scene, todo: set<Id>, len: Hash -> nat)
  {
    forall id :: id in todo ==>
      && id in s.db.artifacts && s.db.artifacts[id].state == Pending && s.db.artifacts[id].key.sha == s.db.artifacts[id].sha
      && s.db.artifacts[id].declared == len(s.db.artifacts[id].sha)
  }

  lemma {:induction false} Sends(s: Scene, todo: set<Id>, len: Hash -> nat, max: Id -> int) returns (t: Scene)
    requires Safe(s, len, max) && Sendable(s, todo, len)
    ensures Safe(t, len, max) && t == s.(db := s.db.(objects := t.db.objects)) && Sent(t, todo)
    decreases |todo|
  {
    if todo == {} {
      t := s;
    } else {
      var id :| id in todo;
      var u := Sends(s, todo - {id}, len, max);
      var a := s.db.artifacts[id];
      var m := Transfer(a.key, Blob(a.sha, a.declared));
      SafeNext(u, m, len, max);
      t := Play(u, m);
      assert Possible(u, m);
    }
  }

  lemma {:induction false} Checks(s: Scene, c: nat, todo: set<Id>, len: Hash -> nat, max: Id -> int) returns (t: Scene)
    requires Safe(s, len, max) && c in s.callers && s.callers[c].Commit? && todo <= s.callers[c].rows.Keys
    requires forall id :: id in todo ==> Arrived(s.db.objects, s.callers[c].rows[id], true)
    ensures Safe(t, len, max)
    ensures t == s.(callers := s.callers[c := s.callers[c].(checked := s.callers[c].checked + todo)])
    decreases |todo|
  {
    var pc := s.callers[c];
    if todo == {} {
      t := s;
      assert pc.checked + todo == pc.checked && s.callers[c := pc] == s.callers;
    } else {
      var id :| id in todo;
      var u := Checks(s, c, todo - {id}, len, max);
      SafeNext(u, Check(c, id, true), len, max);
      t := Play(u, Check(c, id, true));
      assert pc.checked + (todo - {id}) + {id} == pc.checked + todo;
    }
  }

  lemma {:induction false} Bound(taken: set<nat>) returns (n: nat)
    ensures forall x: nat :: x in taken ==> x < n
    decreases |taken|
  {
    if taken == {} {
      n := 0;
    } else {
      var x: nat :| x in taken;
      var m := Bound(taken - {x});
      n := if m <= x then x + 1 else m;
      forall y: nat | y in taken ensures y < n { assert y == x || y in taken - {x}; }
    }
  }

  /** A run nobody else is at work on can be committed. */
  lemma CommitsWhole(s: Scene, c: nat, run: Id, len: Hash -> nat, max: Id -> int) returns (t: Scene)
    requires Safe(s, len, max) && c !in s.callers && run in s.db.runs
    requires Sendable(s, Snapshot(s.db.artifacts, run).Keys, len) && Unthreatened(s, Snapshot(s.db.artifacts, run))
    ensures Safe(t, len, max) && t.callers == s.callers && t.erased == s.erased && t.db.runs.Keys == s.db.runs.Keys
    ensures t.db.artifacts == CommitRows(s.db.artifacts, Snapshot(s.db.artifacts, run).Keys)
  {
    var rows := Snapshot(s.db.artifacts, run);
    var u := Sends(s, rows.Keys, len, max);
    var w := ChecksWhole(u, c, run, len, max);
    SettlesWhole(s, w, c, run);
    SafeNext(w, Settle(c), len, max);
    t := Play(w, Settle(c));
    assert s.callers[c := w.callers[c]] - {c} == s.callers;
  }

  lemma ChecksWhole(u: Scene, c: nat, run: Id, len: Hash -> nat, max: Id -> int) returns (w: Scene)
    requires Safe(u, len, max) && c !in u.callers && run in u.db.runs && Sent(u, Snapshot(u.db.artifacts, run).Keys)
    ensures var rows := Snapshot(u.db.artifacts, run);
            Safe(w, len, max) && w == u.(callers := u.callers[c := Commit(u.db.runs[run].org, run, rows, {} + rows.Keys)])
  {
    var rows := Snapshot(u.db.artifacts, run);
    SafeNext(u, Read(c, run), len, max);
    var v := Play(u, Read(c, run));
    assert v.callers[c] == Commit(u.db.runs[run].org, run, rows, {});
    w := Checks(v, c, rows.Keys, len, max);
  }

  lemma SettlesWhole(s: Scene, w: Scene, c: nat, run: Id)
    requires c !in s.callers && run in s.db.runs && w.db == s.db.(objects := w.db.objects)
    requires var rows := Snapshot(s.db.artifacts, run);
             w.callers == s.callers[c := Commit(s.db.runs[run].org, run, rows, {} + rows.Keys)]
             && Sent(w, rows.Keys) && Unthreatened(s, rows)
    ensures Orderly(w, Settle(c)) && Possible(w, Settle(c))
  {}

  /** A failure of another run that is pending on a committed row's key. */
  lemma AbandonsAndRemoves(t: Scene, c: nat, run: Id, id: Id, new1: Id, len: Hash -> nat, max: Id -> int)
    requires c !in t.callers && run in t.db.runs && id in Snapshot(t.db.artifacts, run)
    requires Unthreatened(t, Snapshot(t.db.artifacts, run))
    requires new1 in t.db.artifacts && Taken(t, new1, t.db.artifacts[new1]) && t.db.artifacts[new1].key == t.db.artifacts[id].key
    ensures !Safe(t, len, max)
  {
    var u := Play(t, Abandon(c, run));
    var v := Play(u, Remove(c, id));
    OrphanIsWrong(v, new1);
    WrongIsUnsafe(v, len, max);
    UnsafeNext(u, Remove(c, id), len, max);
    UnsafeNext(t, Abandon(c, run), len, max);
  }

  /** A failure that holds a row of a run holds all its pending rows. */
  lemma HoldsWholeRun(artifacts: map<Id, Artifact>, callers: map<nat, Pc>, q: nat, id: Id, other: Id)
    requires FailuresHold(artifacts, callers) && q in callers && callers[q].Failure? && other in callers[q].rows
    requires id in artifacts && artifacts[id].state == Pending && other in Snapshot(artifacts, artifacts[id].run)
    ensures id in callers[q].rows
  {
    assert callers[q].rows == Snapshot(artifacts, callers[q].run);
  }

  lemma RivalRemoves(s: Scene, t: Scene, c: nat, id: Id, new1: Id, len: Hash -> nat, max: Id -> int)
    requires FailuresHold(s.db.artifacts, s.callers) && t.callers == s.callers && c !in t.callers
    requires id in s.db.artifacts && s.db.artifacts[id].state == Pending && s.db.artifacts[id].run in t.db.runs
    requires Snapshot(t.db.artifacts, s.db.artifacts[id].run) == Snapshot(s.db.artifacts, s.db.artifacts[id].run)
    requires new1 in t.db.artifacts && Taken(t, new1, t.db.artifacts[new1]) && t.db.artifacts[new1].key == s.db.artifacts[id].key
    ensures !Safe(t, len, max)
  {
    var run := s.db.artifacts[id].run;
    var rows := Snapshot(s.db.artifacts, run);
    assert id in rows && id in Snapshot(t.db.artifacts, run);
    if o :| o in s.callers && s.callers[o].Failure? && id in s.callers[o].rows {
      var u := Play(t, Stop(o));
      forall q, other | q in u.callers && u.callers[q].Failure? && other in u.callers[q].rows ensures other !in rows {
        if other in rows { HoldsWholeRun(s.db.artifacts, s.callers, q, id, other); }
      }
      AbandonsAndRemoves(u, o, run, id, new1, len, max);
      UnsafeNext(t, Stop(o), len, max);
    } else {
      forall q, other | q in s.callers && s.callers[q].Failure? && other in s.callers[q].rows ensures other !in rows {
        if other in rows { HoldsWholeRun(s.db.artifacts, s.callers, q, id, other); }
      }
      AbandonsAndRemoves(t, c, run, id, new1, len, max);
    }
  }

  /** Rows a declaration adds belong to its run; the pending ones are keyed by their hashes. */
  lemma AddedRows(artifacts: map<Id, Artifact>, d: Declaration, len: Hash -> nat)
    requires IdsFresh(artifacts, d) && forall item :: item in d.items ==> item.bytes == len(item.sha)
    ensures var after := Insert(artifacts, d, |d.items|);
            forall id :: id in after && id !in artifacts ==>
              && after[id].run == d.run && (exists i :: 0 <= i < |d.ids| && id == d.ids[i])
              && (after[id].state == Pending ==> after[id].key.sha == after[id].sha && after[id].declared == len(after[id].sha))
  {
    var after := Insert(artifacts, d, |d.items|);
    InsertedRows(artifacts, d, |d.items|);
    forall id | id in after && id !in artifacts
      ensures after[id].run == d.run && exists i :: 0 <= i < |d.ids| && id == d.ids[i]
      ensures after[id].state == Pending ==> after[id].key.sha == after[id].sha && after[id].declared == len(after[id].sha)
    {
      var i :| 0 <= i < |d.items| && id == d.ids[i] && after[id] == RowOf(d, d.items[i]);
      assert d.items[i] in d.items;
    }
  }

  lemma NoOldRows(s: Scene, run: Id)
    requires TablesTame(s) && run !in s.runIds
    ensures forall id :: id in s.db.artifacts ==> s.db.artifacts[id].run != run
  {}

  /** What a declaration's new run is pending on. */
  lemma NewRunPending(s: Scene, d: Declaration, plan: Plan, len: Hash -> nat, max: Id -> int)
    requires TablesTame(s) && Possible(s, Declare(d, plan)) && Proper(Declare(d, plan), len, max)
    ensures var after := DeclareRun(s.db, d);
            && Sendable(Play(s, Declare(d, plan)), Snapshot(after.artifacts, d.run).Keys, len)
            && forall id :: id in Snapshot(after.artifacts, d.run) ==> id !in s.ids
  {
    NoOldRows(s, d.run);
    InsertedRows(s.db.artifacts, d, |d.items|);
    AddedRows(s.db.artifacts, d, len);
  }

  /** No failure under way holds rows with new ids. */
  lemma NewRowsUnthreatened(s: Scene, rows: map<Id, Artifact>)
    requires CallersTame(s) && forall id :: id in rows ==> id !in s.ids
    ensures Unthreatened(s, rows)
  {
    forall o, id | o in s.callers && s.callers[o].Failure? && id in s.callers[o].rows ensures id !in rows {
      assert PcKnown(s, s.callers[o]);
    }
  }

  /** Committing the new run leaves the other one's pending rows as they were. */
  lemma RivalUntouched(artifacts: map<Id, Artifact>, after: map<Id, Artifact>, run: Id, other: Id)
    requires forall id :: id in artifacts ==> id in after && after[id] == artifacts[id] && artifacts[id].run != run
    requires forall id :: id in after && id !in artifacts ==> after[id].run == run
    requires other != run
    ensures Snapshot(CommitRows(after, Snapshot(after, run).Keys), other) == Snapshot(artifacts, other)
  {}

  /** The new run can be committed whole at once. */
  lemma NewRunCommits(s: Scene, d: Declaration, plan: Plan, len: Hash -> nat, max: Id -> int) returns (c: nat, t: Scene)
    requires Tame(s) && Possible(s, Declare(d, plan)) && Proper(Declare(d, plan), len, max)
    requires Safe(Play(s, Declare(d, plan)), len, max)
    ensures Safe(t, len, max) && c !in t.callers && t.callers == s.callers && t.erased == s.erased && s.db.runs.Keys <= t.db.runs.Keys
    ensures var after := DeclareRun(s.db, d).artifacts; t.db.artifacts == CommitRows(after, Snapshot(after, d.run).Keys)
  {
    var after := Play(s, Declare(d, plan));
    NewRunPending(s, d, plan, len, max);
    NewRowsUnthreatened(s, Snapshot(after.db.artifacts, d.run));
    c := Bound(s.callers.Keys);
    t := CommitsWhole(after, c, d.run, len, max);
  }

  lemma PendingRivalHurts(s: Scene, d: Declaration, plan: Plan, i: nat, id: Id, len: Hash -> nat, max: Id -> int)
    requires Steady(s) && Possible(s, Declare(d, plan)) && Proper(Declare(d, plan), len, max)
    requires i < |d.items| && d.items[i].sha !in d.held && id in s.db.artifacts && s.db.artifacts[id].state == Pending
    requires s.db.artifacts[id].key == Key(d.org, d.items[i].sha, d.items[i].contentType)
    ensures !Safe(Play(s, Declare(d, plan)), len, max)
  {
    if Safe(Play(s, Declare(d, plan)), len, max) {
      var c, t := NewRunCommits(s, d, plan, len, max);
      DeclaredItem(s, d, plan, i);
      NoOldRows(s, d.run);
      AddedRows(s.db.artifacts, d, len);
      RivalUntouched(s.db.artifacts, DeclareRun(s.db, d).artifacts, d.run, s.db.artifacts[id].run);
      RivalRemoves(s, t, c, id, d.ids[i], len, max);
    }
  }

  lemma DeclareMustWait(s: Scene, d: Declaration, plan: Plan, len: Hash -> nat, max: Id -> int)
    requires Steady(s) && Possible(s, Declare(d, plan)) && Proper(Declare(d, plan), len, max)
    requires Safe(Play(s, Declare(d, plan)), len, max)
    ensures NamesNoPending(s, d) && TakesNoDoomed(s, d)
  {
    forall item, id | item in d.items && item.sha !in d.held && id in s.db.artifacts && s.db.artifacts[id].state == Pending
      ensures s.db.artifacts[id].key != Key(d.org, item.sha, item.contentType)
    {
      var i :| 0 <= i < |d.items| && d.items[i] == item;
      if s.db.artifacts[id].key == Key(d.org, item.sha, item.contentType) { PendingRivalHurts(s, d, plan, i, id, len, max); }
    }
    forall item, id | item in d.items && item.sha in d.held && id in s.db.artifacts && Doomed(s, id)
      ensures d.held[item.sha] != s.db.artifacts[id].key
    {
      var i :| 0 <= i < |d.items| && d.items[i] == item;
      if d.held[item.sha] == s.db.artifacts[id].key { TakerIsLost(s, d, plan, i, id, len, max); }
    }
  }

  // ---- The condition is exact --------------------------------------------------

  lemma SafeMeansOrderly(s: Scene, m: Move, len: Hash -> nat, max: Id -> int)
    requires Good(s, len, max) && Possible(s, m) && Proper(m, len, max) && Safe(Play(s, m), len, max)
    ensures Orderly(s, m)
  {
    match m
    case Declare(d, plan) => DeclareMustWait(s, d, plan, len, max);
    case Settle(c) => SettleMustWait(s, c, len, max);
    case Abandon(c, run) => AbandonMustWait(s, c, run, len, max);
    case Count(c) => CountMustWait(s, c, len, max);
    case _ =>
  }

  /** Whatever happens after a move, as long as every later move waits its turn, everything
      stays right: committed rows have their objects, both counts are exact, no floor is met.
      That is so exactly when the move itself waited its turn. */
  lemma SafeExactlyWhen(s: Scene, m: Move, len: Hash -> nat, max: Id -> int)
    requires Good(s, len, max) && Proper(m, len, max)
    ensures Safe(Play(s, m), len, max) <==> Orderly(s, m)
  {
    if Orderly(s, m) {
      MoveGood(s, m, len, max);
      GoodIsSafe(Play(s, m), len, max);
    } else {
      if Safe(Play(s, m), len, max) { SafeMeansOrderly(s, m, len, max); }
    }
  }

  /** At no point of the run has anything gone wrong for good. */
  ghost predicate SafeThroughout(s: Scene, moves: seq<Move>, len: Hash -> nat, max: Id -> int)
  {
    Safe(PlayAll(s, moves), len, max) && (moves == [] || SafeThroughout(s, moves[..|moves| - 1], len, max))
  }

  /** A run from empty tables is safe at every point exactly when every move of it waits its
      turn. */
  lemma {:induction false} RunIsSafeExactlyWhen(moves: seq<Move>, len: Hash -> nat, max: Id -> int)
    requires AllProper(moves, len, max)
    ensures SafeThroughout(Start(), moves, len, max) <==> AllOrderly(Start(), moves)
  {
    StartIsGood(len, max);
    RunFromGood(Start(), moves, len, max);
  }

  lemma {:induction false} RunFromGood(s: Scene, moves: seq<Move>, len: Hash -> nat, max: Id -> int)
    requires Good(s, len, max) && AllProper(moves, len, max)
    ensures SafeThroughout(s, moves, len, max) <==> AllOrderly(s, moves)
  {
    if moves == [] {
      GoodIsSafe(s, len, max);
    } else {
      var before, last := moves[..|moves| - 1], moves[|moves| - 1];
      RunFromGood(s, before, len, max);
      if AllOrderly(s, before) {
        OrderlyRunsAreGood(s, before, len, max);
        SafeExactlyWhen(PlayAll(s, before), last, len, max);
      }
    }
  }
}
