/** What goes wrong, from empty tables, when a move does not wait its turn. Each lemma builds a
    run statement by statement. */
module StorageMishaps {
  import opened Pricing
  import opened Store
  import opened Sums
  import opened UploadRules
  import opened Retention
  import opened UploadBooks
  import opened UploadIntegrity
  import opened StorageSteps
  import opened StorageSound
  import opened StorageBooks

  // ---- One upload of ten bytes, verified and not yet settled ---------------------

  function Sent(): map<Key, Blob> { map[SharedKey() := Blob(7, 10)] }

  function Rows(): map<Id, Artifact> { map[1 := PendingRow(1)] }

  /** The tables as given, these callers, and nothing in the past but the one declaration. */
  predicate Young(s: Scene, callers: map<nat, Pc>)
  {
    s.callers == callers && s.settled == map[] && s.erased == {} && s.freed == map[] && !s.clamped && s.ids == {1} && s.runIds == {1}
  }

  lemma OnePromised()
    ensures Promised(Rows()) == 10
  {
    var none: map<Id, Artifact> := map[];
    TotalUpdate(none, DeclaredSize(), 1, PendingRow(1));
    assert none[1 := PendingRow(1)] == Rows();
  }

  /** What settling the upload's one row does, whatever has become of it. */
  lemma SettlesTen(s: Scene, c: nat)
    requires c in s.callers && s.callers[c] == Commit(1, 1, Rows(), {1})
    ensures Play(s, Settle(c))
         == s.(db := SettleRun(s.db, 1, 1, {1}, 10), callers := s.callers - {c},
               settled := s.settled + StillPending(s.db.artifacts, Rows()),
               clamped := s.clamped || (1 in s.db.quota && s.db.quota[1].reserved < 10))
  {
    OnePromised();
    assert Rows().Keys == {1};
  }

  predicate Declared(s: Scene) { FirstSent(s.db, map[]) && Young(s, map[]) }

  predicate Arrives(s: Scene) { FirstSent(s.db, Sent()) && Young(s, map[]) }

  predicate Verified(s: Scene, checked: set<Id>)
  {
    FirstSent(s.db, Sent()) && Young(s, map[0 := Commit(1, 1, Rows(), checked)])
  }

  /** A declaration of the machine of whole operations is one here, under fresh ids. */
  lemma DeclaresAsWhole(s: Scene, d: Declaration, plan: Plan, id: Id)
    requires Enabled(s.db, Declaring(d, plan)) && AsksForItsOwn(d) && d.run !in s.runIds
    requires |d.ids| == 1 && d.ids[0] == id && id !in s.ids
    ensures Play(s, Declare(d, plan)) == s.(db := Step(s.db, Declaring(d, plan)), ids := s.ids + {id}, runIds := s.runIds + {d.run})
  {
    var ids: set<Id> := set i | 0 <= i < |d.ids| :: d.ids[i];
    assert d.ids[0] in ids;
    assert ids == {id};
  }

  lemma Declares(s: Scene, d: Declaration, plan: Plan)
    requires s == Start() && d == RunDeclaring(1) && plan == OnePlan()
    ensures Declared(Play(s, Declare(d, plan)))
  {
    DeclaresDb(s, d, plan);
    DeclaredFrom(s, Play(s, Declare(d, plan)));
  }

  lemma DeclaresDb(s: Scene, d: Declaration, plan: Plan)
    requires s == Start() && d == RunDeclaring(1) && plan == OnePlan()
    ensures var t := Play(s, Declare(d, plan));
            FirstSent(t.db, map[]) && t == s.(db := t.db, ids := s.ids + {1}, runIds := s.runIds + {1})
  {
    EmptyTablesAllow(s.db);
    FirstDeclares(s.db);
    assert d.ids == [1];
    DeclaresAsWhole(s, d, plan, 1);
  }

  lemma DeclaredFrom(s: Scene, t: Scene)
    requires s == Start() && FirstSent(t.db, map[]) && t == s.(db := t.db, ids := s.ids + {1}, runIds := s.runIds + {1})
    ensures Declared(t)
  {}

  lemma EmptyTablesAllow(db: Db)
    requires db == NoTables()
    ensures Enabled(db, Declaring(RunDeclaring(1), OnePlan()))
  {
    DeclaresOne(db, 1);
  }

  lemma Transfers(s: Scene)
    requires Declared(s)
    ensures Arrives(Play(s, Transfer(SharedKey(), Blob(7, 10))))
  {
    assert s.db.artifacts[1].state == Pending;
  }

  lemma Reads(s: Scene)
    requires Arrives(s)
    ensures Verified(Play(s, Read(0, 1)), {})
  {
    assert Snapshot(s.db.artifacts, 1) == Rows();
  }

  lemma Checks(s: Scene)
    requires Verified(s, {})
    ensures Verified(Play(s, Check(0, 1, true)), {1})
  {
    assert Arrived(s.db.objects, s.callers[0].rows[1], true);
    var none: set<Id> := {};
    assert none + {1} == {1};
    assert Play(s, Check(0, 1, true)).callers == map[0 := Commit(1, 1, Rows(), none + {1})];
  }

  lemma Uploads() returns (moves: seq<Move>)
    ensures Verified(PlayAll(Start(), moves), {1})
  {
    var s := Start();
    moves := [];
    var d, plan := RunDeclaring(1), OnePlan();
    Declares(s, d, plan);
    PlayOn(s, moves, Declare(d, plan));
    moves := moves + [Declare(d, plan)];
    Transfers(PlayAll(s, moves));
    PlayOn(s, moves, Transfer(SharedKey(), Blob(7, 10)));
    moves := moves + [Transfer(SharedKey(), Blob(7, 10))];
    Reads(PlayAll(s, moves));
    PlayOn(s, moves, Read(0, 1));
    moves := moves + [Read(0, 1)];
    Checks(PlayAll(s, moves));
    PlayOn(s, moves, Check(0, 1, true));
    moves := moves + [Check(0, 1, true)];
  }

  // ---- A commit lands inside a sweep -------------------------------------------

  predicate Sweeping(s: Scene, sent: map<Key, Blob>, removed: set<Id>)
  {
    FirstSent(s.db, sent) && Young(s, map[0 := Commit(1, 1, Rows(), {1}), 1 := Failure(1, 1, Rows(), removed)])
  }

  lemma Abandons(s: Scene)
    requires Verified(s, {1})
    ensures Sweeping(Play(s, Abandon(1, 1)), Sent(), {})
  {
    assert Snapshot(s.db.artifacts, 1) == Rows();
  }

  lemma Removes(s: Scene)
    requires Sweeping(s, Sent(), {})
    ensures Sweeping(Play(s, Remove(1, 1)), map[], {1})
  {
    var none: set<Id> := {};
    assert none + {1} == {1};
    assert Play(s, Remove(1, 1)).callers == map[0 := Commit(1, 1, Rows(), {1}), 1 := Failure(1, 1, Rows(), none + {1})];
    assert Play(s, Remove(1, 1)).db.objects == map[];
  }

  lemma Sweeps() returns (moves: seq<Move>)
    ensures Sweeping(PlayAll(Start(), moves), map[], {1})
  {
    moves := Uploads();
    Abandons(PlayAll(Start(), moves));
    PlayOn(Start(), moves, Abandon(1, 1));
    moves := moves + [Abandon(1, 1)];
    Removes(PlayAll(Start(), moves));
    PlayOn(Start(), moves, Remove(1, 1));
    moves := moves + [Remove(1, 1)];
  }

  /** The row is committed, these objects are left, and these are the counts. */
  predicate Held(s: Scene, callers: map<nat, Pc>, objects: map<Key, Blob>, stored: int, clamped: bool)
  {
    match s
    case Scene(Db(_, runs, artifacts, held, quota), cs, _, _, settled, erased, freed, c) =>
      && artifacts == map[1 := HeldRow(1)] && held == objects && runs == map[1 := Run(1, 1, 0, Committed)]
      && quota == map[1 := Quota(stored, 0, 1, 0)] && settled == Rows() && erased == {} && freed == map[]
      && cs == callers && c == clamped
  }

  lemma SettlesUnder(s: Scene)
    requires Sweeping(s, map[], {1})
    ensures Held(Play(s, Settle(0)), map[1 := Failure(1, 1, Rows(), {1})], map[], 10, false)
  {
    SettlesTen(s, 0);
    assert StillPending(s.db.artifacts, Rows()) == Rows();
  }

  lemma FinishesUnder(s: Scene)
    requires Held(s, map[1 := Failure(1, 1, Rows(), {1})], map[], 10, false)
    ensures Held(Play(s, Finish(1)), map[], map[], 10, true)
  {
    OnePromised();
    assert s.callers[1].removed == s.callers[1].rows.Keys;
    assert PendingRows(s.db.artifacts, 1) == {};
  }

  /** A commit has verified its rows; a sweep of the run deletes their objects; the commit
      settles; the sweep's transaction finds no pending row. The committed row has lost its
      object for good, and the reservation was given back twice. */
  lemma CommitInsideSweep() returns (moves: seq<Move>)
    ensures var s := PlayAll(Start(), moves);
            Orphan(s.db, 1) && s.erased == {} && s.callers == map[] && s.clamped && !Sound(s)
  {
    moves := Sweeps();
    SettlesUnder(PlayAll(Start(), moves));
    PlayOn(Start(), moves, Settle(0));
    moves := moves + [Settle(0)];
    FinishesUnder(PlayAll(Start(), moves));
    PlayOn(Start(), moves, Finish(1));
    moves := moves + [Finish(1)];
  }

  // ---- A sweep ends before a commit settles ------------------------------------

  /** No row and no object is left, nothing was ever settled, and these are the counts. */
  predicate Swept(s: Scene, callers: map<nat, Pc>, stored: int, clamped: bool)
  {
    match s
    case Scene(Db(_, _, artifacts, objects, quota), cs, _, _, settled, _, freed, c) =>
      && artifacts == map[] && objects == map[] && quota == map[1 := Quota(stored, 0, 1, 0)] && settled == map[] && freed == map[]
      && cs == callers && c == clamped
  }

  lemma FinishesFirst(s: Scene)
    requires Sweeping(s, map[], {1})
    ensures Swept(Play(s, Finish(1)), map[0 := Commit(1, 1, Rows(), {1})], 0, false)
  {
    OnePromised();
    assert s.callers[1].removed == s.callers[1].rows.Keys;
    assert PendingRows(s.db.artifacts, 1) == {1};
  }

  lemma SettlesNothing(s: Scene)
    requires Swept(s, map[0 := Commit(1, 1, Rows(), {1})], 0, false)
    ensures Swept(Play(s, Settle(0)), map[], 10, true)
  {
    SettlesTen(s, 0);
    assert StillPending(s.db.artifacts, Rows()) == map[];
  }

  /** The other order: the sweep's transaction first. Ten bytes stay stored of which there is
      no row and no object. */
  lemma CommitAfterTheSweep() returns (moves: seq<Move>)
    ensures Swept(PlayAll(Start(), moves), map[], 10, true)
  {
    moves := Sweeps();
    FinishesFirst(PlayAll(Start(), moves));
    PlayOn(Start(), moves, Finish(1));
    moves := moves + [Finish(1)];
    SettlesNothing(PlayAll(Start(), moves));
    PlayOn(Start(), moves, Settle(0));
    moves := moves + [Settle(0)];
  }

  // ---- Two commits of one run --------------------------------------------------

  predicate Twice(s: Scene, checked: set<Id>)
  {
    FirstSent(s.db, Sent()) && Young(s, map[0 := Commit(1, 1, Rows(), {1}), 1 := Commit(1, 1, Rows(), checked)])
  }

  lemma ReadsAgain(s: Scene)
    requires Verified(s, {1})
    ensures Twice(Play(s, Read(1, 1)), {})
  {
    assert Snapshot(s.db.artifacts, 1) == Rows();
  }

  lemma ChecksAgain(s: Scene)
    requires Twice(s, {})
    ensures Twice(Play(s, Check(1, 1, true)), {1})
  {
    assert Arrived(s.db.objects, s.callers[1].rows[1], true);
    var none: set<Id> := {};
    assert none + {1} == {1};
    assert Play(s, Check(1, 1, true)).callers == map[0 := Commit(1, 1, Rows(), {1}), 1 := Commit(1, 1, Rows(), none + {1})];
  }

  lemma SettlesFirst(s: Scene)
    requires Twice(s, {1})
    ensures Held(Play(s, Settle(0)), map[1 := Commit(1, 1, Rows(), {1})], Sent(), 10, false)
  {
    SettlesTen(s, 0);
    assert StillPending(s.db.artifacts, Rows()) == Rows();
  }

  lemma SettlesAgain(s: Scene)
    requires Held(s, map[1 := Commit(1, 1, Rows(), {1})], Sent(), 10, false)
    ensures Held(Play(s, Settle(1)), map[], Sent(), 20, true)
  {
    SettlesTen(s, 1);
    assert StillPending(s.db.artifacts, Rows()) == map[];
  }

  /** A repeated commit that starts before the first one settles: twenty bytes are stored for
      the ten that arrived. */
  lemma OverlappingCommits() returns (moves: seq<Move>)
    ensures Held(PlayAll(Start(), moves), map[], Sent(), 20, true)
  {
    moves := Uploads();
    ReadsAgain(PlayAll(Start(), moves));
    PlayOn(Start(), moves, Read(1, 1));
    moves := moves + [Read(1, 1)];
    ChecksAgain(PlayAll(Start(), moves));
    PlayOn(Start(), moves, Check(1, 1, true));
    moves := moves + [Check(1, 1, true)];
    SettlesFirst(PlayAll(Start(), moves));
    PlayOn(Start(), moves, Settle(0));
    moves := moves + [Settle(0)];
    SettlesAgain(PlayAll(Start(), moves));
    PlayOn(Start(), moves, Settle(1));
    moves := moves + [Settle(1)];
  }

  // ---- A deletion stops and is retried -----------------------------------------

  /** The run is committed; these are the deletion's traces. */
  predicate Deleting(
    s: Scene, objects: map<Key, Blob>, stored: int, callers: map<nat, Pc>, erased: set<Id>, freed: map<Id, Artifact>)
  {
    match s
    case Scene(Db(_, runs, artifacts, held, quota), cs, ids, runIds, settled, gone, given, c) =>
      && artifacts == map[1 := HeldRow(1)] && held == objects && runs == map[1 := Run(1, 1, 0, Committed)]
      && quota == map[1 := Quota(stored, 0, 1, 0)] && settled == Rows() && gone == erased && given == freed
      && cs == callers && !c && ids == {1} && runIds == {1}
  }

  function OneDeletion(stage: Stage): map<nat, Pc> { map[0 := Deletion(1, HeldRow(1), stage)] }

  lemma Settles(s: Scene)
    requires Verified(s, {1})
    ensures Deleting(Play(s, Settle(0)), Sent(), 10, map[], {}, map[])
  {
    SettlesTen(s, 0);
    assert StillPending(s.db.artifacts, Rows()) == Rows();
  }

  lemma ListsAndCounts(s: Scene, objects: map<Key, Blob>, stored: int, erased: set<Id>, freed: map<Id, Artifact>)
    requires Deleting(s, objects, stored, map[], erased, freed)
    ensures var t := Play(s, List(0, 1));
            Deleting(t, objects, stored, OneDeletion(Listed), erased, freed)
            && Deleting(Play(t, Count(0)), objects, stored, OneDeletion(Counted), erased, freed)
  {}

  lemma Erases(s: Scene, objects: map<Key, Blob>, stored: int, erased: set<Id>, freed: map<Id, Artifact>)
    requires Deleting(s, objects, stored, OneDeletion(Counted), erased, freed)
    ensures Deleting(Play(s, Erase(0)), objects - {SharedKey()}, stored, OneDeletion(Erased), erased + {1}, freed)
  {}

  lemma Commits() returns (moves: seq<Move>)
    ensures Deleting(PlayAll(Start(), moves), Sent(), 10, map[], {}, map[])
  {
    moves := Uploads();
    Settles(PlayAll(Start(), moves));
    PlayOn(Start(), moves, Settle(0));
    moves := moves + [Settle(0)];
  }

  lemma CountsAndErases(begun: seq<Move>, objects: map<Key, Blob>, stored: int, erased: set<Id>, freed: map<Id, Artifact>)
    returns (moves: seq<Move>)
    requires Deleting(PlayAll(Start(), begun), objects, stored, map[], erased, freed)
    ensures Deleting(PlayAll(Start(), moves), objects - {SharedKey()}, stored, OneDeletion(Erased), erased + {1}, freed)
  {
    moves := begun;
    ListsAndCounts(PlayAll(Start(), moves), objects, stored, erased, freed);
    PlayOn(Start(), moves, List(0, 1));
    moves := moves + [List(0, 1)];
    PlayOn(Start(), moves, Count(0));
    moves := moves + [Count(0)];
    Erases(PlayAll(Start(), moves), objects, stored, erased, freed);
    PlayOn(Start(), moves, Erase(0));
    moves := moves + [Erase(0)];
  }

  lemma ForgetsAndStops(s: Scene, erased: set<Id>)
    requires Deleting(s, map[], 10, OneDeletion(Erased), erased, map[])
    ensures var t := Play(s, ForgetBytes(0));
            && Deleting(t, map[], 0, OneDeletion(Forgotten), erased, HeldRows())
            && Deleting(Play(t, Stop(0)), map[], 0, map[], erased, HeldRows())
  {}

  function HeldRows(): map<Id, Artifact> { map[1 := HeldRow(1)] }

  lemma ForgetsOnce() returns (moves: seq<Move>)
    ensures Deleting(PlayAll(Start(), moves), map[], 0, map[], {1}, HeldRows())
  {
    var s := Start();
    var none: set<Id> := {};
    moves := Commits();
    moves := CountsAndErases(moves, Sent(), 10, none, map[]);
    assert Sent() - {SharedKey()} == map[] && none + {1} == {1};
    ForgetsAndStops(PlayAll(s, moves), none + {1});
    PlayOn(s, moves, ForgetBytes(0));
    moves := moves + [ForgetBytes(0)];
    PlayOn(s, moves, Stop(0));
    moves := moves + [Stop(0)];
  }

  lemma ForgetsMore(s: Scene, erased: set<Id>)
    requires Deleting(s, map[], 0, OneDeletion(Erased), erased, HeldRows())
    ensures Play(s, ForgetBytes(0)).clamped
  {}

  /** A deletion stops between giving back the bytes and deleting the row; the retry finds the
      row and gives them back again. */
  lemma StoppedDeletionForgetsTwice() returns (moves: seq<Move>)
    ensures PlayAll(Start(), moves).clamped && !Right(PlayAll(Start(), moves))
  {
    var s := Start();
    var one: set<Id> := {1};
    var none: map<Key, Blob> := map[];
    moves := ForgetsOnce();
    moves := CountsAndErases(moves, none, 0, one, HeldRows());
    assert none - {SharedKey()} == none;
    ForgetsMore(PlayAll(s, moves), one + {1});
    PlayOn(s, moves, ForgetBytes(0));
    moves := moves + [ForgetBytes(0)];
  }

  /** A row listed and counted. */
  function Counting(s: Scene, c: nat, id: Id): Scene
    requires id in s.db.artifacts
  {
    s.(callers := s.callers[c := Deletion(id, s.db.artifacts[id], Counted)])
  }

  lemma RetryCounts(s: Scene, c: nat, id: Id)
    requires c !in s.callers && Gone(s.db.runs, s.db.artifacts, s.db.objects, id)
    ensures Play(Play(s, List(c, id)), Count(c)) == Counting(s, c, id)
  {
    var t := Play(s, List(c, id));
    assert t.callers[c] == Deletion(id, s.db.artifacts[id], Listed);
    assert t.callers[c := Deletion(id, s.db.artifacts[id], Counted)] == s.callers[c := Deletion(id, s.db.artifacts[id], Counted)];
  }

  lemma RetryForgets(s: Scene, c: nat, id: Id)
    requires id in s.db.artifacts && id in s.freed && s.freed[id] == s.db.artifacts[id] && c !in s.callers
    ensures var a := s.db.artifacts[id];
            var t := Play(Play(Counting(s, c, id), Erase(c)), ForgetBytes(c));
            && t.db.artifacts == s.db.artifacts && t.freed == s.freed && t.settled == s.settled
            && t.db.quota == Forget(s.db.quota, a.org, a.bytes) && t.callers == s.callers[c := Deletion(id, a, Forgotten)]
  {
    var u := Play(Counting(s, c, id), Erase(c));
    assert u.callers[c] == Deletion(id, s.db.artifacts[id], Erased);
    assert s.freed[id := s.db.artifacts[id]] == s.freed;
  }

  lemma RetryDrops(t: Scene, callers: map<nat, Pc>, c: nat, id: Id, a: Artifact)
    requires c !in callers && t.callers == callers[c := Deletion(id, a, Forgotten)]
    ensures Play(t, Drop(c)) == t.(db := t.db.(artifacts := t.db.artifacts - {id}), callers := callers)
  {
    assert t.callers - {c} == callers;
  }

  /** Whatever else is stored: the retry takes the row's bytes from the count a second time. */
  lemma RetryForgetsAgain(s: Scene, c: nat, id: Id)
    requires Steady(s) && id in s.freed && id in s.db.artifacts && c !in s.callers
    ensures var a := s.db.artifacts[id];
            var t := Play(Play(Play(Play(Play(s, List(c, id)), Count(c)), Erase(c)), ForgetBytes(c)), Drop(c));
            && t.db.artifacts == s.db.artifacts - {id} && t.callers == s.callers && t.freed == s.freed && t.settled == s.settled
            && t.db.quota == Forget(s.db.quota, a.org, a.bytes)
  {
    assert Gone(s.db.runs, s.db.artifacts, s.db.objects, id);
    RetryCounts(s, c, id);
    RetryForgets(s, c, id);
    RetryDrops(Play(Play(Counting(s, c, id), Erase(c)), ForgetBytes(c)), s.callers, c, id, s.db.artifacts[id]);
  }

  // ---- An object goes and its delete throws ------------------------------------

  /** The second run's declaration of the screenshot the organization already holds. */
  function TakingDeclaration(): Declaration { RunDeclaring(2).(held := map[7 := SharedKey()]) }

  lemma ThrowsLate() returns (moves: seq<Move>)
    ensures Deleting(PlayAll(Start(), moves), map[], 10, map[], {1}, map[])
  {
    var s := Start();
    var none: set<Id> := {};
    moves := Commits();
    moves := CountsAndErases(moves, Sent(), 10, none, map[]);
    assert Sent() - {SharedKey()} == map[] && none + {1} == {1};
    PlayOn(s, moves, Stop(0));
    moves := moves + [Stop(0)];
  }

  /** Both runs' rows are committed, and there is no object. */
  predicate BothHeld(s: Scene, callers: map<nat, Pc>)
  {
    match s
    case Scene(Db(_, runs, artifacts, objects, _), cs, _, _, _, erased, _, _) =>
      && artifacts == map[1 := HeldRow(1), 2 := HeldRow(2)] && objects == map[] && erased == {1} && cs == callers
      && 1 in runs && runs[1] == Run(1, 1, 0, Committed)
  }

  lemma TakesIt(db: Db, d: Declaration, plan: Plan)
    requires db.artifacts == map[1 := HeldRow(1)] && db.quota == map[1 := Quota(10, 0, 1, 0)] && 2 !in db.runs
    requires d == TakingDeclaration() && plan == OnePlan()
    ensures Enabled(db, Declaring(d, plan))
    ensures Step(db, Declaring(d, plan)).artifacts == map[1 := HeldRow(1), 2 := HeldRow(2)]
  {
    assert d.items[..0] == [] && d.items[..1] == d.items;
    assert FreshBytes(d.items, d.held) == 0 && Bytes(d.items) == 10;
    assert db.artifacts[1].key in CommittedKeys(db.artifacts, 1);
    assert Insert(db.artifacts, d, 1) == Insert(db.artifacts, d, 0)[2 := RowOf(d, d.items[0])];
    assert Declarable(db, d, plan);
  }

  lemma DeclaresAgain(s: Scene, d: Declaration, plan: Plan)
    requires Deleting(s, map[], 10, map[], {1}, map[]) && d == TakingDeclaration() && plan == OnePlan()
    ensures BothHeld(Play(s, Declare(d, plan)), map[])
  {
    TakesIt(s.db, d, plan);
    assert d.ids == [2] && d.items[0].sha == 7;
    DeclaresAsWhole(s, d, plan, 2);
  }

  lemma RetriesSpared(s: Scene)
    requires BothHeld(s, map[])
    ensures var t := Play(s, List(0, 1));
            BothHeld(t, OneDeletion(Listed)) && BothHeld(Play(t, Spare(0)), OneDeletion(Spared))
  {
    assert s.db.artifacts[2].key == HeldRow(1).key && s.db.artifacts[2].org == HeldRow(1).org;
    assert Others(s.db.artifacts, 1, HeldRow(1));
  }

  lemma DropsSpared(s: Scene)
    requires BothHeld(s, OneDeletion(Spared))
    ensures var t := Play(s, Drop(0)); Orphan(t.db, 2) && t.callers == map[] && t.erased == {1}
  {
    assert s.db.artifacts[2].key !in s.db.objects;
  }

  /** A deletion's object goes and the delete throws; a second run deduplicates onto it; the
      retry finds the row shared and deletes just the row. The second run's committed row is
      left without its object, although no deletion is under way any more. */
  lemma LateThrowLosesAnObject() returns (moves: seq<Move>)
    ensures var s := PlayAll(Start(), moves); Orphan(s.db, 2) && s.callers == map[] && 2 !in s.erased && !Sound(s)
  {
    var s := Start();
    var d, plan := TakingDeclaration(), OnePlan();
    moves := ThrowsLate();
    DeclaresAgain(PlayAll(s, moves), d, plan);
    PlayOn(s, moves, Declare(d, plan));
    moves := moves + [Declare(d, plan)];
    RetriesSpared(PlayAll(s, moves));
    PlayOn(s, moves, List(0, 1));
    moves := moves + [List(0, 1)];
    PlayOn(s, moves, Spare(0));
    moves := moves + [Spare(0)];
    DropsSpared(PlayAll(s, moves));
    PlayOn(s, moves, Drop(0));
    moves := moves + [Drop(0)];
  }

  // ---- Two deletions spare each other ------------------------------------------

  /** An object no row points at. */
  predicate Stray(db: Db, key: Key)
  {
    key in db.objects && forall id :: id in db.artifacts ==> db.artifacts[id].key != key
  }

  /** A deletion that found other users leaves its object stray exactly when they are gone by
      the time it deletes its row. */
  lemma SparedIsStrayExactlyWhen(s: Scene, c: nat)
    requires Tame(s) && Deletes(s, c, Spared) && s.callers[c].id in s.db.artifacts && s.callers[c].row.key in s.db.objects
    ensures Stray(Play(s, Drop(c)).db, s.callers[c].row.key) <==> !Others(s.db.artifacts, s.callers[c].id, s.callers[c].row)
  {
    assert PcKnown(s, s.callers[c]);
    var t := Play(s, Drop(c)).db;
    var key := s.callers[c].row.key;
    forall o | o in s.db.artifacts && s.db.artifacts[o].key == key ensures s.db.artifacts[o].org == s.callers[c].row.org {}
    if Others(s.db.artifacts, s.callers[c].id, s.callers[c].row) {
      var o :| o in s.db.artifacts && o != s.callers[c].id && s.db.artifacts[o].key == key;
      assert o in t.artifacts && t.artifacts[o].key == key;
    }
  }

  lemma Spares(s: Scene, c: nat, id: Id, other: Id)
    requires c !in s.callers && Deletable(s.db, id) && other in s.db.artifacts && other != id
    requires s.db.artifacts[other].org == s.db.artifacts[id].org && s.db.artifacts[other].key == s.db.artifacts[id].key
    ensures Play(Play(s, List(c, id)), Spare(c)) == s.(callers := s.callers[c := Deletion(id, s.db.artifacts[id], Spared)])
  {
    var t := Play(s, List(c, id));
    assert t.callers[c] == Deletion(id, s.db.artifacts[id], Listed);
    assert Others(s.db.artifacts, id, s.db.artifacts[id]);
    assert t.callers[c := Deletion(id, s.db.artifacts[id], Spared)] == s.callers[c := Deletion(id, s.db.artifacts[id], Spared)];
  }

  lemma DropsOne(s: Scene, c: nat)
    requires Deletes(s, c, Spared)
    ensures Play(s, Drop(c)) == s.(db := s.db.(artifacts := s.db.artifacts - {s.callers[c].id}), callers := s.callers - {c})
  {}

  /** Two jobs each count the other's row before either deletes its own: the object stays, and
      no row points at it any more. */
  lemma TwoDeletionsSpareEachOther(s: Scene, c: nat, o: nat, i: Id, j: Id)
    requires c != o && c !in s.callers && o !in s.callers && i != j && Deletable(s.db, i) && Deletable(s.db, j)
    requires s.db.artifacts[i].org == s.db.artifacts[j].org && s.db.artifacts[i].key == s.db.artifacts[j].key
    requires forall id :: id in s.db.artifacts && id != i && id != j ==> s.db.artifacts[id].key != s.db.artifacts[i].key
    requires s.db.artifacts[i].key in s.db.objects
    ensures var counted := Play(Play(Play(Play(s, List(c, i)), Spare(c)), List(o, j)), Spare(o));
            Stray(Play(Play(counted, Drop(c)), Drop(o)).db, s.db.artifacts[i].key)
  {
    Spares(s, c, i, j);
    var t := s.(callers := s.callers[c := Deletion(i, s.db.artifacts[i], Spared)]);
    Spares(t, o, j, i);
    var u := t.(callers := t.callers[o := Deletion(j, s.db.artifacts[j], Spared)]);
    DropsOne(u, c);
    DropsOne(Play(u, Drop(c)), o);
  }
}
