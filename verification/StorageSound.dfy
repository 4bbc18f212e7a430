/** What committed rows point at while uploads, failures and deletions interleave statement by
    statement. */
module StorageSound {
  import opened Pricing
  import opened Store
  import opened UploadRules
  import opened Retention
  import opened UploadBooks
  import opened UploadIntegrity
  import opened StorageSteps

  // ---- What any run keeps, orderly or not --------------------------------------

  /** What a commit or a failure has read: all pending rows the run still has, as they were. */
  predicate Known(s: Scene, org: Id, run: Id, rows: map<Id, Artifact>)
  {
    && run in s.runIds && (run in s.db.runs ==> s.db.runs[run].org == org)
    && (forall id :: id in s.db.artifacts && s.db.artifacts[id].run == run && s.db.artifacts[id].state == Pending ==>
          id in rows && s.db.artifacts[id] == rows[id])
    && (forall id :: id in rows ==>
          && id in s.ids && rows[id].state == Pending && rows[id].run == run
          && rows[id].key.org == rows[id].org == org && rows[id].key.sha == rows[id].sha
          && (id in s.db.artifacts ==>
                s.db.artifacts[id].run == run
                && s.db.artifacts[id].(bytes := rows[id].bytes, state := Pending) == rows[id]))
  }

  predicate PcKnown(s: Scene, pc: Pc)
  {
    match pc
    case Commit(org, run, rows, checked) => Known(s, org, run, rows) && checked <= rows.Keys
    case Failure(org, run, rows, removed) => Known(s, org, run, rows) && removed <= rows.Keys
    case Deletion(id, a, _) =>
      && id in s.ids && a.state == Committed && a.key.org == a.org && a.key.sha == a.sha
      && (id in s.db.artifacts ==> s.db.artifacts[id] == a && Deletable(s.db, id))
  }

  predicate TablesTame(s: Scene)
  {
    && Separate(s.db)
    && s.db.artifacts.Keys <= s.ids && s.db.runs.Keys <= s.runIds && s.erased <= s.ids && s.freed.Keys <= s.ids
    && (forall id :: id in s.db.artifacts ==> s.db.runs[s.db.artifacts[id].run].org == s.db.artifacts[id].org)
    && (forall id :: id in s.db.artifacts && s.db.artifacts[id].state == Committed ==>
          s.db.artifacts[id].bytes == s.db.artifacts[id].declared)
  }

  predicate CallersTame(s: Scene)
  {
    forall c :: c in s.callers ==> PcKnown(s, s.callers[c])
  }

  predicate Tame(s: Scene) { TablesTame(s) && CallersTame(s) }

  /** The rows and the run a declaration adds. */
  lemma DeclaredNew(s: Scene, d: Declaration, plan: Plan)
    requires Tame(s) && Possible(s, Declare(d, plan)) && NamesNoPending(s, d)
    ensures var after := DeclareRun(s.db, d);
            && (forall id :: id in s.db.artifacts ==> id in after.artifacts && after.artifacts[id] == s.db.artifacts[id])
            && (forall id :: id in after.artifacts && id !in s.db.artifacts ==> NewRow(s, d, id, after.artifacts[id]))
            && after.runs == s.db.runs[d.run := Run(d.org, d.repo, d.createdAt, Pending)]
  {
    var after := DeclareRun(s.db, d);
    InsertedRows(s.db.artifacts, d, |d.items|);
    forall id | id in after.artifacts && id !in s.db.artifacts ensures NewRow(s, d, id, after.artifacts[id]) {
      DeclaredRow(s.db, d, plan, id);
      var i :| 0 <= i < |d.items| && id == d.ids[i] && after.artifacts[id] == RowOf(d, d.items[i]);
    }
  }

  predicate NewRow(s: Scene, d: Declaration, id: Id, a: Artifact)
  {
    && id !in s.ids && (exists i :: 0 <= i < |d.ids| && id == d.ids[i])
    && a.key.org == a.org == d.org && a.key.sha == a.sha && a.run == d.run
    && (a.state == Committed ==> a.bytes == a.declared)
    && (a.state == Committed ==> a.key in CommittedKeys(s.db.artifacts, d.org))
    && (a.state == Pending ==> forall o :: o in s.db.artifacts ==> s.db.artifacts[o].key != a.key)
  }

  lemma KnownStays(s: Scene, after: Scene, run: Id, org: Id, rows: map<Id, Artifact>)
    requires Known(s, org, run, rows) && s.ids <= after.ids && s.runIds <= after.runIds
    requires forall r :: r in after.db.runs && r in s.runIds ==> r in s.db.runs && after.db.runs[r].org == s.db.runs[r].org
    requires forall id :: id in after.db.artifacts && id in s.ids ==>
               id in s.db.artifacts && after.db.artifacts[id] == s.db.artifacts[id]
    requires forall id :: id in after.db.artifacts && id !in s.ids ==> after.db.artifacts[id].run !in s.runIds
    ensures Known(after, org, run, rows)
  {}

  lemma PcStays(s: Scene, after: Scene, pc: Pc)
    requires PcKnown(s, pc) && s.ids <= after.ids && s.runIds <= after.runIds
    requires forall r :: r in after.db.runs && r in s.runIds ==> r in s.db.runs && after.db.runs[r].org == s.db.runs[r].org
    requires forall r :: r in s.db.runs && s.db.runs[r].state == Committed && r in after.db.runs ==> after.db.runs[r].state == Committed
    requires forall id :: id in after.db.artifacts && id in s.ids ==>
               id in s.db.artifacts && after.db.artifacts[id] == s.db.artifacts[id] && after.db.artifacts[id].run in after.db.runs
    requires forall id :: id in after.db.artifacts && id !in s.ids ==> after.db.artifacts[id].run !in s.runIds
    ensures PcKnown(after, pc)
  {
    match pc
    case Commit(org, run, rows, _) => KnownStays(s, after, run, org, rows);
    case Failure(org, run, rows, _) => KnownStays(s, after, run, org, rows);
    case Deletion(_, _, _) =>
  }

  lemma DeclareCallers(s: Scene, d: Declaration, plan: Plan)
    requires Tame(s) && Possible(s, Declare(d, plan)) && NamesNoPending(s, d)
    ensures CallersTame(Play(s, Declare(d, plan)))
  {
    var after := Play(s, Declare(d, plan));
    DeclaredNew(s, d, plan);
    forall c | c in s.callers ensures PcKnown(after, s.callers[c]) {
      PcStays(s, after, s.callers[c]);
    }
  }

  lemma DeclareTame(s: Scene, d: Declaration, plan: Plan)
    requires Tame(s) && Possible(s, Declare(d, plan)) && NamesNoPending(s, d)
    ensures Tame(Play(s, Declare(d, plan)))
  {
    DeclareCallers(s, d, plan);
    DeclaredNew(s, d, plan);
    DeclareSeparates(s.db, d, plan);
  }

  /** No row or run comes, none changes but from pending to committed, and no run a row still
      has goes. */
  predicate Onwards(db: Db, after: Db)
  {
    && (forall r :: r in after.runs ==>
          r in db.runs && after.runs[r].org == db.runs[r].org && (db.runs[r].state == Committed ==> after.runs[r].state == Committed))
    && (forall id :: id in after.artifacts ==>
          && id in db.artifacts && after.artifacts[id].run in after.runs
          && (after.artifacts[id] == db.artifacts[id]
              || (db.artifacts[id].state == Pending && after.artifacts[id] == Settled(db.artifacts[id]))))
  }

  function Settled(a: Artifact): Artifact { a.(bytes := a.declared, state := Committed) }

  lemma KnownOnwards(s: Scene, after: Scene, org: Id, run: Id, rows: map<Id, Artifact>)
    requires Known(s, org, run, rows) && Onwards(s.db, after.db) && s.ids == after.ids && s.runIds == after.runIds
    ensures Known(after, org, run, rows)
  {}

  lemma PcOnwards(s: Scene, after: Scene, pc: Pc)
    requires PcKnown(s, pc) && Onwards(s.db, after.db) && s.ids == after.ids && s.runIds == after.runIds
    ensures PcKnown(after, pc)
  {
    match pc
    case Commit(org, run, rows, _) => KnownOnwards(s, after, org, run, rows);
    case Failure(org, run, rows, _) => KnownOnwards(s, after, org, run, rows);
    case Deletion(_, _, _) =>
  }

  lemma TablesOnwards(s: Scene, after: Scene)
    requires TablesTame(s) && Onwards(s.db, after.db) && s.ids == after.ids && s.runIds == after.runIds
    requires after.erased <= s.ids && after.freed.Keys <= s.ids
    requires forall id :: id in after.db.artifacts && after.db.runs[after.db.artifacts[id].run].state == Committed ==>
               after.db.artifacts[id].state == Committed
    requires forall i, j | i in after.db.artifacts && j in after.db.artifacts ::
               after.db.artifacts[i].state == Pending && after.db.artifacts[i].key == after.db.artifacts[j].key ==>
                 after.db.artifacts[j] == s.db.artifacts[j]
    ensures TablesTame(after)
  {}

  lemma OnwardsTame(s: Scene, after: Scene)
    requires Tame(s) && Onwards(s.db, after.db) && s.ids == after.ids && s.runIds == after.runIds && TablesTame(after)
    requires forall c :: c in after.callers ==> PcKnown(s, after.callers[c])
    ensures Tame(after)
  {
    forall c | c in after.callers ensures PcKnown(after, after.callers[c]) {
      PcOnwards(s, after, after.callers[c]);
    }
  }

  /** Callers that are still there are as known as before. */
  lemma CallersLess(s: Scene, callers: map<nat, Pc>)
    requires CallersTame(s) && forall c :: c in callers ==> c in s.callers && callers[c] == s.callers[c]
    ensures forall c :: c in callers ==> PcKnown(s, callers[c])
  {}

  lemma CallersMore(s: Scene, c: nat, pc: Pc, callers: map<nat, Pc>)
    requires CallersTame(s) && PcKnown(s, pc) && callers == s.callers[c := pc]
    ensures forall o :: o in callers ==> PcKnown(s, callers[o])
  {}

  lemma SettleOnwards(s: Scene, c: nat)
    requires Tame(s) && Possible(s, Settle(c))
    ensures Onwards(s.db, SettleCaller(s, c).db)
  {
    assert PcKnown(s, s.callers[c]);
  }

  lemma SettleTables(s: Scene, c: nat)
    requires Tame(s) && Possible(s, Settle(c))
    ensures TablesTame(SettleCaller(s, c))
  {
    var after := SettleCaller(s, c);
    assert PcKnown(s, s.callers[c]);
    SettleOnwards(s, c);
    TablesOnwards(s, after);
  }

  lemma SettleTame(s: Scene, c: nat)
    requires Tame(s) && Possible(s, Settle(c))
    ensures Tame(SettleCaller(s, c))
  {
    SettleOnwards(s, c);
    SettleTables(s, c);
    CallersLess(s, s.callers - {c});
    OnwardsTame(s, SettleCaller(s, c));
  }

  lemma FinishOnwards(s: Scene, c: nat)
    requires Tame(s) && Possible(s, Finish(c))
    ensures Onwards(s.db, FinishCaller(s, c).db) && TablesTame(FinishCaller(s, c))
  {
    TablesOnwards(s, FinishCaller(s, c));
  }

  lemma FinishTame(s: Scene, c: nat)
    requires Tame(s) && Possible(s, Finish(c))
    ensures Tame(FinishCaller(s, c))
  {
    FinishOnwards(s, c);
    CallersLess(s, s.callers - {c});
    OnwardsTame(s, FinishCaller(s, c));
  }

  lemma ForgetTame(s: Scene, c: nat)
    requires Tame(s) && Possible(s, ForgetBytes(c))
    ensures Tame(ForgetCaller(s, c))
  {
    var pc := s.callers[c];
    assert PcKnown(s, pc);
    assert PcKnown(s, pc.(stage := Forgotten));
    CallersMore(s, c, pc.(stage := Forgotten), ForgetCaller(s, c).callers);
    OnwardsTame(s, ForgetCaller(s, c));
  }

  /** Moves that change callers and objects alone. */
  lemma CallerTame(s: Scene, after: Scene)
    requires Tame(s) && after.db == s.db.(objects := after.db.objects) && after.ids == s.ids && after.runIds == s.runIds
    requires after.erased <= s.ids && after.freed == s.freed
    requires forall c :: c in after.callers ==> PcKnown(s, after.callers[c])
    ensures Tame(after)
  {
    OnwardsTame(s, after);
  }

  lemma RowGoneTame(s: Scene, after: Scene, id: Id)
    requires Tame(s) && after.ids == s.ids && after.runIds == s.runIds && after.erased == s.erased && after.freed == s.freed
    requires after.db.artifacts == s.db.artifacts - {id} && after.db.runs == s.db.runs
    requires forall c :: c in after.callers ==> c in s.callers && after.callers[c] == s.callers[c]
    ensures Tame(after)
  {
    CallersLess(s, after.callers);
    OnwardsTame(s, after);
  }

  lemma RunRowGoneTame(s: Scene, run: Id)
    requires Tame(s) && Possible(s, DropRunRow(run))
    ensures Tame(Play(s, DropRunRow(run)))
  {
    CallersLess(s, s.callers);
    OnwardsTame(s, Play(s, DropRunRow(run)));
  }

  /** Moves that touch one caller and at most objects. */
  predicate CallerOnly(m: Move)
  {
    m.Read? || m.Abandon? || m.Check? || m.Remove? || m.List? || m.Spare? || m.Count? || m.Erase?
  }

  lemma CallerMoveTame(s: Scene, m: Move)
    requires Tame(s) && Possible(s, m) && CallerOnly(m)
    ensures Tame(Play(s, m))
  {
    var pc := Play(s, m).callers[m.c];
    assert m.c in s.callers ==> PcKnown(s, s.callers[m.c]);
    assert PcKnown(s, pc);
    CallersMore(s, m.c, pc, Play(s, m).callers);
    CallerTame(s, Play(s, m));
  }

  lemma RowMoveTame(s: Scene, m: Move)
    requires Tame(s) && Possible(s, m) && (m.Drop? || m.DropRunRow? || m.Stop? || m.Transfer?)
    ensures Tame(Play(s, m))
  {
    match m
    case Drop(c) => RowGoneTame(s, Play(s, m), s.callers[c].id);
    case DropRunRow(run) => RunRowGoneTame(s, run);
    case Transfer(_, _) => CallerTame(s, Play(s, m));
    case Stop(_) => CallerTame(s, Play(s, m));
  }

  /** What any run keeps in which no two runs are pending on one key. */
  lemma MoveTame(s: Scene, m: Move)
    requires Tame(s) && (m.Declare? ==> NamesNoPending(s, m.d))
    ensures Tame(Play(s, m))
  {
    if !Possible(s, m) {
    } else if m.Declare? {
      DeclareTame(s, m.d, m.plan);
    } else if m.Settle? {
      SettleTame(s, m.c);
    } else if m.Finish? {
      FinishTame(s, m.c);
    } else if m.ForgetBytes? {
      ForgetTame(s, m.c);
    } else if CallerOnly(m) {
      CallerMoveTame(s, m);
    } else {
      RowMoveTame(s, m);
    }
  }

  // ---- What orderly runs keep --------------------------------------------------

  predicate Present(objects: map<Key, Blob>, a: Artifact)
  {
    a.key in objects && objects[a.key].sha == a.sha
  }

  /** Every committed row but these points at a present object whose bytes hash to its sha256. */
  predicate AllPresent(artifacts: map<Id, Artifact>, objects: map<Key, Blob>, erased: set<Id>)
  {
    forall id :: id in artifacts && artifacts[id].state == Committed && id !in erased ==> Present(objects, artifacts[id])
  }

  /** The promise: a committed row has its object unless its own deletion has taken it. */
  predicate Sound(s: Scene) { AllPresent(s.db.artifacts, s.db.objects, s.erased) }

  /** A failure holds exactly the rows its run is still pending on, and nobody else's. */
  predicate FailuresHold(artifacts: map<Id, Artifact>, callers: map<nat, Pc>)
  {
    && (forall c :: c in callers && callers[c].Failure? ==> callers[c].rows == Snapshot(artifacts, callers[c].run))
    && (forall c, o :: c in callers && o in callers && c != o && callers[c].Failure? && callers[o].Failure? ==>
          callers[c].rows.Keys !! callers[o].rows.Keys)
  }

  /** No other row has this one's key. */
  predicate Alone(artifacts: map<Id, Artifact>, id: Id)
  {
    id in artifacts && forall o :: o in artifacts && o != id ==> artifacts[o].key != artifacts[id].key
  }

  predicate DeletionHolds(artifacts: map<Id, Artifact>, erased: set<Id>, freed: map<Id, Artifact>, id: Id, stage: Stage)
  {
    Alone(artifacts, id) && (stage == Forgotten <==> id in freed) && (stage != Counted ==> id in erased)
  }

  /** A deletion that has found no other users may rely on it, and no other deletion that has
      counted is at work on its row. */
  predicate DeletionsHold(artifacts: map<Id, Artifact>, callers: map<nat, Pc>, erased: set<Id>, freed: map<Id, Artifact>)
  {
    && (forall c :: c in callers && Dooms(callers[c]) ==>
          DeletionHolds(artifacts, erased, freed, callers[c].id, callers[c].stage))
    && (forall c, o :: c in callers && o in callers && c != o && Dooms(callers[c]) && callers[o].Deletion? ==>
          callers[o].stage == Listed || callers[c].id != callers[o].id)
  }

  predicate Gone(runs: map<Id, Run>, artifacts: map<Id, Artifact>, objects: map<Key, Blob>, id: Id)
  {
    && Alone(artifacts, id) && artifacts[id].state == Committed && artifacts[id].key !in objects
    && artifacts[id].run in runs && runs[artifacts[id].run].state == Committed
  }

  predicate ErasedHold(
    runs: map<Id, Run>, artifacts: map<Id, Artifact>, objects: map<Key, Blob>, erased: set<Id>, freed: map<Id, Artifact>)
  {
    && (forall id :: id in erased && id in artifacts ==> Gone(runs, artifacts, objects, id))
    && (forall id :: id in freed && id in artifacts ==> id in erased && freed[id] == artifacts[id])
  }

  predicate Steady(s: Scene)
  {
    match s
    case Scene(Db(_, runs, artifacts, objects, _), callers, _, _, _, erased, freed, _) =>
      && Tame(s) && AllPresent(artifacts, objects, erased) && FailuresHold(artifacts, callers)
      && DeletionsHold(artifacts, callers, erased, freed) && ErasedHold(runs, artifacts, objects, erased, freed)
  }

  // ---- One caller more or less -------------------------------------------------

  lemma FailuresSet(artifacts: map<Id, Artifact>, callers: map<nat, Pc>, c: nat, pc: Pc)
    requires FailuresHold(artifacts, callers)
    requires pc.Failure? ==> pc.rows == Snapshot(artifacts, pc.run)
    requires pc.Failure? ==> forall o :: o in callers && o != c && callers[o].Failure? ==> callers[o].rows.Keys !! pc.rows.Keys
    ensures FailuresHold(artifacts, callers[c := pc])
  {}

  lemma FailuresLess(artifacts: map<Id, Artifact>, callers: map<nat, Pc>, c: nat)
    requires FailuresHold(artifacts, callers)
    ensures FailuresHold(artifacts, callers - {c})
  {}

  lemma DeletionsSet(artifacts: map<Id, Artifact>, callers: map<nat, Pc>, erased: set<Id>, freed: map<Id, Artifact>, c: nat, pc: Pc)
    requires DeletionsHold(artifacts, callers, erased, freed)
    requires Dooms(pc) ==> DeletionHolds(artifacts, erased, freed, pc.id, pc.stage)
    requires Dooms(pc) ==> forall o :: o in callers && o != c && callers[o].Deletion? && callers[o].stage != Listed ==>
                             callers[o].id != pc.id
    requires pc.Deletion? && pc.stage != Listed ==> forall o :: o in callers && o != c && Dooms(callers[o]) ==> callers[o].id != pc.id
    ensures DeletionsHold(artifacts, callers[c := pc], erased, freed)
  {}

  lemma DeletionsLess(artifacts: map<Id, Artifact>, callers: map<nat, Pc>, erased: set<Id>, freed: map<Id, Artifact>, c: nat)
    requires DeletionsHold(artifacts, callers, erased, freed)
    ensures DeletionsHold(artifacts, callers - {c}, erased, freed)
  {}

  lemma CommitterSteady(s: Scene, after: Scene, c: nat, pc: Pc)
    requires Steady(s) && Tame(after) && after == s.(callers := s.callers[c := pc]) && pc.Commit?
    ensures Steady(after)
  {
    FailuresSet(s.db.artifacts, s.callers, c, pc);
    DeletionsSet(s.db.artifacts, s.callers, s.erased, s.freed, c, pc);
  }

  lemma StopSteady(s: Scene, c: nat)
    requires Steady(s) && Possible(s, Stop(c))
    ensures Steady(Play(s, Stop(c)))
  {
    MoveTame(s, Stop(c));
    FailuresLess(s.db.artifacts, s.callers, c);
    DeletionsLess(s.db.artifacts, s.callers, s.erased, s.freed, c);
  }

  lemma AbandonSteady(s: Scene, c: nat, run: Id)
    requires Steady(s) && Possible(s, Abandon(c, run)) && Unthreatened(s, Snapshot(s.db.artifacts, run))
    ensures Steady(Play(s, Abandon(c, run)))
  {
    MoveTame(s, Abandon(c, run));
    var pc := Play(s, Abandon(c, run)).callers[c];
    FailuresSet(s.db.artifacts, s.callers, c, pc);
    DeletionsSet(s.db.artifacts, s.callers, s.erased, s.freed, c, pc);
  }

  lemma ListSteady(s: Scene, c: nat, id: Id)
    requires Steady(s) && Possible(s, List(c, id))
    ensures Steady(Play(s, List(c, id)))
  {
    MoveTame(s, List(c, id));
    var pc := Play(s, List(c, id)).callers[c];
    FailuresSet(s.db.artifacts, s.callers, c, pc);
    DeletionsSet(s.db.artifacts, s.callers, s.erased, s.freed, c, pc);
  }

  lemma SpareSteady(s: Scene, c: nat)
    requires Steady(s) && Possible(s, Spare(c))
    ensures Steady(Play(s, Spare(c)))
  {
    MoveTame(s, Spare(c));
    var pc := s.callers[c].(stage := Spared);
    assert PcKnown(s, s.callers[c]);
    FailuresSet(s.db.artifacts, s.callers, c, pc);
    forall o | o in s.callers && o != c && Dooms(s.callers[o]) ensures s.callers[o].id != pc.id {
      assert DeletionHolds(s.db.artifacts, s.erased, s.freed, s.callers[o].id, s.callers[o].stage);
    }
    DeletionsSet(s.db.artifacts, s.callers, s.erased, s.freed, c, pc);
  }

  lemma CountSteady(s: Scene, c: nat)
    requires Steady(s) && Possible(s, Count(c)) && MayCount(s, c)
    ensures Steady(Play(s, Count(c)))
  {
    MoveTame(s, Count(c));
    var pc := s.callers[c].(stage := Counted);
    assert PcKnown(s, s.callers[c]);
    FailuresSet(s.db.artifacts, s.callers, c, pc);
    assert Alone(s.db.artifacts, pc.id);
    DeletionsSet(s.db.artifacts, s.callers, s.erased, s.freed, c, pc);
  }

  // ---- Objects come and go -----------------------------------------------------

  /** An object goes: harmless if no committed row but erased ones uses it. */
  lemma ObjectGone(
    runs: map<Id, Run>, artifacts: map<Id, Artifact>, objects: map<Key, Blob>, erased: set<Id>, freed: map<Id, Artifact>, key: Key)
    requires AllPresent(artifacts, objects, erased) && ErasedHold(runs, artifacts, objects, erased, freed)
    requires forall id :: id in artifacts && artifacts[id].state == Committed && id !in erased ==> artifacts[id].key != key
    ensures AllPresent(artifacts, objects - {key}, erased) && ErasedHold(runs, artifacts, objects - {key}, erased, freed)
  {}

  lemma RemoveSteady(s: Scene, c: nat, id: Id)
    requires Steady(s) && Possible(s, Remove(c, id))
    ensures Steady(Play(s, Remove(c, id)))
  {
    MoveTame(s, Remove(c, id));
    var pc := Play(s, Remove(c, id)).callers[c];
    var row := s.callers[c].rows[id];
    assert id in Snapshot(s.db.artifacts, s.callers[c].run) && s.db.artifacts[id] == row;
    ObjectGone(s.db.runs, s.db.artifacts, s.db.objects, s.erased, s.freed, row.key);
    FailuresSet(s.db.artifacts, s.callers, c, pc);
    DeletionsSet(s.db.artifacts, s.callers, s.erased, s.freed, c, pc);
  }

  lemma OneErased(
    runs: map<Id, Run>, artifacts: map<Id, Artifact>, objects: map<Key, Blob>, erased: set<Id>, freed: map<Id, Artifact>, id: Id)
    requires AllPresent(artifacts, objects, erased) && ErasedHold(runs, artifacts, objects, erased, freed)
    requires Alone(artifacts, id) && artifacts[id].state == Committed
    requires artifacts[id].run in runs && runs[artifacts[id].run].state == Committed
    ensures var left := objects - {artifacts[id].key};
            AllPresent(artifacts, left, erased + {id}) && ErasedHold(runs, artifacts, left, erased + {id}, freed)
  {}

  lemma ErasedSet(artifacts: map<Id, Artifact>, callers: map<nat, Pc>, erased: set<Id>, freed: map<Id, Artifact>, c: nat)
    requires DeletionsHold(artifacts, callers, erased, freed) && c in callers && callers[c].Deletion? && callers[c].stage == Counted
    ensures DeletionsHold(artifacts, callers[c := callers[c].(stage := Erased)], erased + {callers[c].id}, freed)
  {}

  lemma EraseSteady(s: Scene, c: nat)
    requires Steady(s) && Possible(s, Erase(c))
    ensures Steady(Play(s, Erase(c)))
  {
    MoveTame(s, Erase(c));
    assert PcKnown(s, s.callers[c]);
    var pc := s.callers[c];
    assert DeletionHolds(s.db.artifacts, s.erased, s.freed, pc.id, Counted);
    OneErased(s.db.runs, s.db.artifacts, s.db.objects, s.erased, s.freed, pc.id);
    FailuresSet(s.db.artifacts, s.callers, c, pc.(stage := Erased));
    ErasedSet(s.db.artifacts, s.callers, s.erased, s.freed, c);
  }

  lemma FreedSet(artifacts: map<Id, Artifact>, callers: map<nat, Pc>, erased: set<Id>, freed: map<Id, Artifact>, c: nat, a: Artifact)
    requires DeletionsHold(artifacts, callers, erased, freed) && c in callers && callers[c].Deletion? && callers[c].stage == Erased
    ensures DeletionsHold(artifacts, callers[c := callers[c].(stage := Forgotten)], erased, freed[callers[c].id := a])
  {}

  lemma ForgetSteady(s: Scene, c: nat)
    requires Steady(s) && Possible(s, ForgetBytes(c))
    ensures Steady(Play(s, ForgetBytes(c)))
  {
    ForgetTame(s, c);
    assert PcKnown(s, s.callers[c]);
    var pc := s.callers[c];
    assert DeletionHolds(s.db.artifacts, s.erased, s.freed, pc.id, Erased);
    assert ErasedHold(s.db.runs, s.db.artifacts, s.db.objects, s.erased, s.freed[pc.id := pc.row]);
    FailuresSet(s.db.artifacts, s.callers, c, pc.(stage := Forgotten));
    FreedSet(s.db.artifacts, s.callers, s.erased, s.freed, c, pc.row);
  }

  lemma TransferSteady(s: Scene, key: Key, blob: Blob)
    requires Steady(s) && Possible(s, Transfer(key, blob))
    ensures Steady(Play(s, Transfer(key, blob)))
  {
    MoveTame(s, Transfer(key, blob));
  }

  // ---- Rows come and go --------------------------------------------------------

  lemma RowGone(
    runs: map<Id, Run>, artifacts: map<Id, Artifact>, objects: map<Key, Blob>, callers: map<nat, Pc>, erased: set<Id>,
    freed: map<Id, Artifact>, id: Id)
    requires AllPresent(artifacts, objects, erased) && FailuresHold(artifacts, callers)
    requires DeletionsHold(artifacts, callers, erased, freed) && ErasedHold(runs, artifacts, objects, erased, freed)
    requires id in artifacts && artifacts[id].state == Committed
    requires forall c :: c in callers && Dooms(callers[c]) ==> callers[c].id != id
    ensures AllPresent(artifacts - {id}, objects, erased) && ErasedHold(runs, artifacts - {id}, objects, erased, freed)
    ensures FailuresHold(artifacts - {id}, callers) && DeletionsHold(artifacts - {id}, callers, erased, freed)
  {
    forall run ensures Snapshot(artifacts - {id}, run) == Snapshot(artifacts, run) {}
  }

  lemma DropSteady(s: Scene, c: nat)
    requires Steady(s) && Possible(s, Drop(c))
    ensures Steady(Play(s, Drop(c)))
  {
    MoveTame(s, Drop(c));
    assert PcKnown(s, s.callers[c]);
    var id := s.callers[c].id;
    FailuresLess(s.db.artifacts, s.callers, c);
    DeletionsLess(s.db.artifacts, s.callers, s.erased, s.freed, c);
    if id in s.db.artifacts {
      RowGone(s.db.runs, s.db.artifacts, s.db.objects, s.callers - {c}, s.erased, s.freed, id);
    } else {
      assert s.db.artifacts - {id} == s.db.artifacts;
    }
  }

  lemma DropRunRowSteady(s: Scene, run: Id)
    requires Steady(s) && Possible(s, DropRunRow(run))
    ensures Steady(Play(s, DropRunRow(run)))
  {
    RunRowGoneTame(s, run);
  }

  // ---- Declare, settle, finish -------------------------------------------------

  lemma NewRowIsApart(s: Scene, d: Declaration, id: Id, a: Artifact)
    requires Steady(s) && NewRow(s, d, id, a) && (exists i :: 0 <= i < |d.items| && a == RowOf(d, d.items[i])) && TakesNoDoomed(s, d)
    ensures forall o :: o in s.db.artifacts && Doomed(s, o) ==> a.key != s.db.artifacts[o].key
    ensures a.state == Committed ==> Present(s.db.objects, a)
  {
    var i :| 0 <= i < |d.items| && a == RowOf(d, d.items[i]);
    assert d.items[i] in d.items;
    if a.state == Committed {
      var o :| o in s.db.artifacts && s.db.artifacts[o].state == Committed && s.db.artifacts[o].key == a.key;
      assert o !in s.erased;
    }
  }

  lemma FailuresGrow(artifacts: map<Id, Artifact>, after: map<Id, Artifact>, callers: map<nat, Pc>, run: Id)
    requires FailuresHold(artifacts, callers)
    requires forall id :: id in artifacts ==> id in after && after[id] == artifacts[id]
    requires forall id :: id in after && id !in artifacts ==> after[id].run == run
    requires forall c :: c in callers && callers[c].Failure? ==> callers[c].run != run
    ensures FailuresHold(after, callers)
  {
    forall other | other != run ensures Snapshot(after, other) == Snapshot(artifacts, other) {}
  }

  lemma DeclareFailures(s: Scene, d: Declaration, plan: Plan)
    requires Steady(s) && Possible(s, Declare(d, plan)) && NamesNoPending(s, d)
    ensures FailuresHold(DeclareRun(s.db, d).artifacts, s.callers)
  {
    DeclaredNew(s, d, plan);
    forall c | c in s.callers && s.callers[c].Failure? ensures s.callers[c].run != d.run {
      assert PcKnown(s, s.callers[c]);
    }
    FailuresGrow(s.db.artifacts, DeclareRun(s.db, d).artifacts, s.callers, d.run);
  }

  lemma DeclareApart(s: Scene, d: Declaration, plan: Plan, id: Id)
    requires Steady(s) && Possible(s, Declare(d, plan)) && NamesNoPending(s, d) && TakesNoDoomed(s, d)
    requires id in DeclareRun(s.db, d).artifacts && id !in s.db.artifacts
    ensures var a := DeclareRun(s.db, d).artifacts[id];
            && (forall o :: o in s.db.artifacts && Doomed(s, o) ==> a.key != s.db.artifacts[o].key)
            && (a.state == Committed ==> Present(s.db.objects, a)) && id !in s.ids
  {
    DeclaredNew(s, d, plan);
    InsertedRows(s.db.artifacts, d, |d.items|);
    var i :| 0 <= i < |d.items| && id == d.ids[i] && DeclareRun(s.db, d).artifacts[id] == RowOf(d, d.items[i]);
    NewRowIsApart(s, d, id, DeclareRun(s.db, d).artifacts[id]);
  }

  /** Rows added on other keys than these leave them alone. */
  lemma StillAlone(artifacts: map<Id, Artifact>, after: map<Id, Artifact>, id: Id)
    requires Alone(artifacts, id)
    requires forall o :: o in artifacts ==> o in after && after[o] == artifacts[o]
    requires forall o :: o in after && o !in artifacts ==> after[o].key != artifacts[id].key
    ensures Alone(after, id)
  {}

  lemma DeclareDeletions(s: Scene, d: Declaration, plan: Plan)
    requires Steady(s) && Possible(s, Declare(d, plan)) && NamesNoPending(s, d) && TakesNoDoomed(s, d)
    ensures DeletionsHold(DeclareRun(s.db, d).artifacts, s.callers, s.erased, s.freed)
  {
    var after := DeclareRun(s.db, d).artifacts;
    DeclaredNew(s, d, plan);
    forall c | c in s.callers && Dooms(s.callers[c])
      ensures DeletionHolds(after, s.erased, s.freed, s.callers[c].id, s.callers[c].stage)
    {
      var id := s.callers[c].id;
      assert DeletionHolds(s.db.artifacts, s.erased, s.freed, id, s.callers[c].stage);
      assert Doomed(s, id);
      forall o | o in after && o !in s.db.artifacts ensures after[o].key != s.db.artifacts[id].key {
        DeclareApart(s, d, plan, o);
      }
      StillAlone(s.db.artifacts, after, id);
    }
  }

  lemma DeclareErased(s: Scene, d: Declaration, plan: Plan)
    requires Steady(s) && Possible(s, Declare(d, plan)) && NamesNoPending(s, d) && TakesNoDoomed(s, d)
    ensures var after := DeclareRun(s.db, d);
            && AllPresent(after.artifacts, after.objects, s.erased)
            && ErasedHold(after.runs, after.artifacts, after.objects, s.erased, s.freed)
  {
    var after := DeclareRun(s.db, d);
    DeclaredNew(s, d, plan);
    forall o | o in after.artifacts && o !in s.db.artifacts
      ensures after.artifacts[o].state == Committed ==> Present(s.db.objects, after.artifacts[o])
      ensures o !in s.erased && o !in s.freed
    {
      DeclareApart(s, d, plan, o);
    }
    forall id | id in s.erased && id in after.artifacts ensures Gone(after.runs, after.artifacts, after.objects, id) {
      assert Gone(s.db.runs, s.db.artifacts, s.db.objects, id) && Doomed(s, id);
      forall o | o in after.artifacts && o !in s.db.artifacts ensures after.artifacts[o].key != s.db.artifacts[id].key {
        DeclareApart(s, d, plan, o);
      }
      StillAlone(s.db.artifacts, after.artifacts, id);
    }
  }

  lemma DeclareSteady(s: Scene, d: Declaration, plan: Plan)
    requires Steady(s) && Possible(s, Declare(d, plan)) && NamesNoPending(s, d) && TakesNoDoomed(s, d)
    ensures Steady(Play(s, Declare(d, plan)))
  {
    DeclareTame(s, d, plan);
    DeclareFailures(s, d, plan);
    DeclareDeletions(s, d, plan);
    DeclareErased(s, d, plan);
  }

  /** Settling rows that stand on present objects. */
  lemma SettledPresent(
    runs: map<Id, Run>, artifacts: map<Id, Artifact>, objects: map<Key, Blob>, erased: set<Id>, freed: map<Id, Artifact>,
    rows: set<Id>)
    requires AllPresent(artifacts, objects, erased) && ErasedHold(runs, artifacts, objects, erased, freed)
    requires forall id :: id in rows ==> id in artifacts && artifacts[id].state == Pending && Present(objects, artifacts[id])
    ensures var after := CommitRows(artifacts, rows);
            AllPresent(after, objects, erased) && ErasedHold(runs, after, objects, erased, freed)
  {
    var after := CommitRows(artifacts, rows);
    forall id | id in artifacts && Alone(artifacts, id) ensures Alone(after, id) {}
    forall id | id in artifacts && id in erased ensures Gone(runs, artifacts, objects, id) {}
  }

  /** ...of which no failure holds any. */
  lemma SettledFailures(artifacts: map<Id, Artifact>, callers: map<nat, Pc>, rows: set<Id>)
    requires FailuresHold(artifacts, callers)
    requires forall c, id :: c in callers && callers[c].Failure? && id in callers[c].rows ==> id !in rows
    ensures FailuresHold(CommitRows(artifacts, rows), callers)
  {
    var after := CommitRows(artifacts, rows);
    forall c | c in callers && callers[c].Failure? ensures callers[c].rows == Snapshot(after, callers[c].run) {
      assert callers[c].rows == Snapshot(artifacts, callers[c].run);
      forall id | id in Snapshot(artifacts, callers[c].run) ensures id !in rows {}
    }
  }

  lemma SettledDeletions(
    artifacts: map<Id, Artifact>, callers: map<nat, Pc>, erased: set<Id>, freed: map<Id, Artifact>, rows: set<Id>)
    requires DeletionsHold(artifacts, callers, erased, freed)
    ensures DeletionsHold(CommitRows(artifacts, rows), callers, erased, freed)
  {
    forall id | id in artifacts && Alone(artifacts, id) ensures Alone(CommitRows(artifacts, rows), id) {}
  }

  lemma RunsOnwards(
    runs: map<Id, Run>, after: map<Id, Run>, artifacts: map<Id, Artifact>, objects: map<Key, Blob>, erased: set<Id>,
    freed: map<Id, Artifact>)
    requires ErasedHold(runs, artifacts, objects, erased, freed)
    requires forall r :: r in runs && runs[r].state == Committed ==> r in after && after[r].state == Committed
    ensures ErasedHold(after, artifacts, objects, erased, freed)
  {}

  lemma SettleSteady(s: Scene, c: nat)
    requires Steady(s) && Possible(s, Settle(c)) && MaySettle(s, c)
    ensures Steady(SettleCaller(s, c))
  {
    var after := SettleCaller(s, c);
    var rows := s.callers[c].rows;
    SettleTame(s, c);
    assert PcKnown(s, s.callers[c]);
    FailuresLess(s.db.artifacts, s.callers, c);
    DeletionsLess(s.db.artifacts, s.callers, s.erased, s.freed, c);
    SettledPresent(s.db.runs, s.db.artifacts, s.db.objects, s.erased, s.freed, rows.Keys);
    SettledFailures(s.db.artifacts, s.callers - {c}, rows.Keys);
    SettledDeletions(s.db.artifacts, s.callers - {c}, s.erased, s.freed, rows.Keys);
    RunsOnwards(s.db.runs, after.db.runs, after.db.artifacts, s.db.objects, s.erased, s.freed);
  }

  lemma DroppedHold(
    runs: map<Id, Run>, artifacts: map<Id, Artifact>, objects: map<Key, Blob>, callers: map<nat, Pc>, erased: set<Id>,
    freed: map<Id, Artifact>, run: Id)
    requires AllPresent(artifacts, objects, erased) && DeletionsHold(artifacts, callers, erased, freed)
    requires ErasedHold(runs, artifacts, objects, erased, freed)
    requires forall c :: c in callers && callers[c].Deletion? && callers[c].id in artifacts ==> artifacts[callers[c].id].state == Committed
    ensures var left := artifacts - PendingRows(artifacts, run);
            && AllPresent(left, objects, erased) && DeletionsHold(left, callers, erased, freed)
            && ErasedHold(runs, left, objects, erased, freed)
  {
    var left := artifacts - PendingRows(artifacts, run);
    forall id | id in left && Alone(artifacts, id) ensures Alone(left, id) {}
    forall c | c in callers && Dooms(callers[c])
      ensures DeletionHolds(left, erased, freed, callers[c].id, callers[c].stage)
    {
      assert DeletionHolds(artifacts, erased, freed, callers[c].id, callers[c].stage);
    }
  }

  lemma FinishFailures(artifacts: map<Id, Artifact>, callers: map<nat, Pc>, c: nat)
    requires FailuresHold(artifacts, callers) && c in callers && callers[c].Failure?
    ensures FailuresHold(artifacts - PendingRows(artifacts, callers[c].run), callers - {c})
  {
    var run := callers[c].run;
    var left := artifacts - PendingRows(artifacts, run);
    forall o | o in callers && o != c && callers[o].Failure? ensures callers[o].rows == Snapshot(left, callers[o].run) {
      assert callers[o].rows == Snapshot(artifacts, callers[o].run);
      if callers[o].run == run {
        assert callers[o].rows == callers[c].rows;
        assert callers[o].rows.Keys !! callers[c].rows.Keys;
        assert callers[o].rows == map[];
      }
    }
  }

  lemma FinishSteady(s: Scene, c: nat)
    requires Steady(s) && Possible(s, Finish(c))
    ensures Steady(FinishCaller(s, c))
  {
    var after := FinishCaller(s, c);
    FinishTame(s, c);
    forall o | o in s.callers && s.callers[o].Deletion? && s.callers[o].id in s.db.artifacts
      ensures s.db.artifacts[s.callers[o].id].state == Committed
    {
      assert PcKnown(s, s.callers[o]);
    }
    DeletionsLess(s.db.artifacts, s.callers, s.erased, s.freed, c);
    FinishFailures(s.db.artifacts, s.callers, c);
    DroppedHold(s.db.runs, s.db.artifacts, s.db.objects, s.callers - {c}, s.erased, s.freed, s.callers[c].run);
    RunsOnwards(s.db.runs, after.db.runs, after.db.artifacts, s.db.objects, s.erased, s.freed);
  }

  lemma ReadSteady(s: Scene, m: Move)
    requires Steady(s) && Possible(s, m) && (m.Read? || m.Check?)
    ensures Steady(Play(s, m))
  {
    MoveTame(s, m);
    CommitterSteady(s, Play(s, m), m.c, Play(s, m).callers[m.c]);
  }

  lemma DeletionMoveSteady(s: Scene, m: Move)
    requires Steady(s) && Possible(s, m) && Orderly(s, m)
    requires m.List? || m.Spare? || m.Count? || m.Erase? || m.ForgetBytes? || m.Drop? || m.DropRunRow?
    ensures Steady(Play(s, m))
  {
    match m
    case List(c, id) => ListSteady(s, c, id);
    case Spare(c) => SpareSteady(s, c);
    case Count(c) => CountSteady(s, c);
    case Erase(c) => EraseSteady(s, c);
    case ForgetBytes(c) => ForgetSteady(s, c);
    case Drop(c) => DropSteady(s, c);
    case DropRunRow(run) => DropRunRowSteady(s, run);
  }

  lemma UploadMoveSteady(s: Scene, m: Move)
    requires Steady(s) && Possible(s, m) && Orderly(s, m) && (m.Declare? || m.Transfer? || m.Settle?)
    ensures Steady(Play(s, m))
  {
    match m
    case Declare(d, plan) => DeclareSteady(s, d, plan);
    case Transfer(key, blob) => TransferSteady(s, key, blob);
    case Settle(c) => SettleSteady(s, c);
  }

  lemma FailureMoveSteady(s: Scene, m: Move)
    requires Steady(s) && Possible(s, m) && Orderly(s, m) && (m.Abandon? || m.Remove? || m.Finish? || m.Stop?)
    ensures Steady(Play(s, m))
  {
    match m
    case Abandon(c, run) => AbandonSteady(s, c, run);
    case Remove(c, id) => RemoveSteady(s, c, id);
    case Finish(c) => FinishSteady(s, c);
    case Stop(c) => StopSteady(s, c);
  }

  lemma MoveSteady(s: Scene, m: Move)
    requires Steady(s) && Orderly(s, m)
    ensures Steady(Play(s, m))
  {
    if !Possible(s, m) {
    } else if m.Declare? || m.Transfer? || m.Settle? {
      UploadMoveSteady(s, m);
    } else if m.Read? || m.Check? {
      ReadSteady(s, m);
    } else if m.Abandon? || m.Remove? || m.Finish? || m.Stop? {
      FailureMoveSteady(s, m);
    } else {
      DeletionMoveSteady(s, m);
    }
  }

  /** However uploads, failures, sweeps and deletions interleave and wherever they stop: on
      orderly runs every committed row keeps its object until its own deletion takes it. */
  lemma {:induction false} CommittedRowsKeepTheirObjects(s: Scene, moves: seq<Move>)
    requires Steady(s) && AllOrderly(s, moves)
    ensures Steady(PlayAll(s, moves)) && Sound(PlayAll(s, moves))
  {
    if moves != [] {
      var before, last := moves[..|moves| - 1], moves[|moves| - 1];
      CommittedRowsKeepTheirObjects(s, before);
      MoveSteady(PlayAll(s, before), last);
    }
  }

  // ---- Lost for good -----------------------------------------------------------

  /** A committed row without its object. */
  predicate Orphan(db: Db, id: Id)
  {
    id in db.artifacts && db.artifacts[id].state == Committed && db.artifacts[id].key !in db.objects
  }

  lemma StaysOrphan(s: Scene, m: Move, id: Id)
    requires Tame(s) && (m.Declare? ==> NamesNoPending(s, m.d)) && Orphan(s.db, id)
    ensures id in Play(s, m).db.artifacts ==> Orphan(Play(s, m).db, id)
  {
    if m.Declare? && Possible(s, m) { InsertedRows(s.db.artifacts, m.d, |m.d.items|); }
  }

  /** No two runs become pending on one key, and the row stands all the while. */
  ghost predicate Stands(s: Scene, moves: seq<Move>, id: Id)
  {
    && id in PlayAll(s, moves).db.artifacts
    && (moves == [] ||
        (var before, m := moves[..|moves| - 1], moves[|moves| - 1];
         Stands(s, before, id) && (m.Declare? ==> NamesNoPending(PlayAll(s, before), m.d))))
  }

  /** A committed row that has lost its object never gets it back: uploading the same bytes
      again deduplicates instead. */
  lemma {:induction false} LostForGood(s: Scene, moves: seq<Move>, id: Id)
    requires Tame(s) && Orphan(s.db, id) && Stands(s, moves, id)
    ensures Tame(PlayAll(s, moves)) && Orphan(PlayAll(s, moves).db, id)
  {
    if moves != [] {
      var before, m := moves[..|moves| - 1], moves[|moves| - 1];
      LostForGood(s, before, id);
      MoveTame(PlayAll(s, before), m);
      StaysOrphan(PlayAll(s, before), m, id);
    }
  }
}
