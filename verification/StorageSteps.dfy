/** Uploads, failures and deletions statement by statement (src/artifactUploads.ts 412-476,
    682-773; src/retention.ts 324-373). A commit verifies outside its transaction; a failure
    deletes objects outside its own; the deletion of a committed row is no transaction at all.
    Any number of callers interleave, and each may stop anywhere. */
module StorageSteps {
  import opened Pricing
  import opened Store
  import opened Sums
  import opened UploadRules
  import opened Retention
  import opened UploadBooks
  import opened UploadIntegrity

  /** Where the deletion of a committed row stands: its batch lists the row; it has found other
      rows that use the object, and only the row is to go; it has found none; the object is
      gone; its bytes are forgotten. */
  datatype Stage = Listed | Spared | Counted | Erased | Forgotten

  /** A commit has read its pending rows and verified some of them. A failure, of a refused
      commit or a sweep, has read them and deleted some of their objects. */
  datatype Pc =
    | Commit(org: Id, run: Id, rows: map<Id, Artifact>, checked: set<Id>)
    | Failure(org: Id, run: Id, rows: map<Id, Artifact>, removed: set<Id>)
    | Deletion(id: Id, row: Artifact, stage: Stage)

  /** Besides the tables: the callers under way. The rest is history: every id ever given to a
      row and to a run, the rows settled while they were pending, those whose own deletion took
      their object and those whose bytes it forgot while they stood, and whether a floor at zero
      ever changed a count. */
  datatype Scene = Scene(
    db: Db, callers: map<nat, Pc>, ids: set<Id>, runIds: set<Id>,
    settled: map<Id, Artifact>, erased: set<Id>, freed: map<Id, Artifact>, clamped: bool)

  datatype Move =
    | Declare(d: Declaration, plan: Plan)
    | Transfer(key: Key, blob: Blob)
    | Read(c: nat, run: Id)                         // commitUpload: the run's pending rows
    | Check(c: nat, id: Id, verifyContent: bool)    // one of them is there as declared
    | Settle(c: nat)                                // the transaction of the commit
    | Abandon(c: nat, run: Id)                      // failRun: the run's pending rows
    | Remove(c: nat, id: Id)                        // storage.delete took effect, whatever it reports
    | Finish(c: nat)                                // the transaction of the failure
    | List(c: nat, id: Id)                          // a deletion reads a row of a committed run
    | Spare(c: nat)                                 // it counts other users of the object
    | Count(c: nat)                                 // it counts none
    | Erase(c: nat)                                 // storage.delete took effect, whatever it reports
    | ForgetBytes(c: nat)
    | Drop(c: nat)
    | DropRunRow(run: Id)
    | Stop(c: nat)                                  // a caller throws or dies wherever it stands

  function Start(): Scene { Scene(NoTables(), map[], {}, {}, map[], {}, map[], false) }

  function Snapshot(artifacts: map<Id, Artifact>, run: Id): map<Id, Artifact>
  {
    artifacts - (artifacts.Keys - PendingRows(artifacts, run))
  }

  function DeclaredSize(): Artifact -> int { (a: Artifact) => a.declared }

  ghost function Promised(rows: map<Id, Artifact>): int { Total(rows, DeclaredSize()) }

  /** Rows of these that are pending still. */
  function StillPending(artifacts: map<Id, Artifact>, rows: map<Id, Artifact>): map<Id, Artifact>
  {
    rows - set id | id in rows && !(id in artifacts && artifacts[id].state == Pending)
  }

  /** `sha256 = ANY($2)`: only declared hashes are looked up. */
  predicate AsksForItsOwn(d: Declaration)
  {
    forall h :: h in d.held ==> exists i :: 0 <= i < |d.items| && d.items[i].sha == h
  }

  predicate Deletable(db: Db, id: Id)
  {
    id in db.artifacts && db.artifacts[id].run in db.runs && db.runs[db.artifacts[id].run].state == Committed
  }

  predicate Deletes(s: Scene, c: nat, stage: Stage)
  {
    c in s.callers && s.callers[c].Deletion? && s.callers[c].stage == stage
  }

  /** Does another row of the organization, whatever its state, use the object? */
  predicate Others(artifacts: map<Id, Artifact>, id: Id, a: Artifact)
  {
    exists o :: o in artifacts && o != id && artifacts[o].org == a.org && artifacts[o].key == a.key
  }

  predicate Possible(s: Scene, m: Move)
  {
    match m
    case Declare(d, plan) =>
      && Declarable(s.db, d, plan) && AsksForItsOwn(d) && d.run !in s.runIds
      && forall i :: 0 <= i < |d.ids| ==> d.ids[i] !in s.ids
    case Transfer(key, blob) => Enabled(s.db, Transferring(key, blob))
    case Read(c, run) => c !in s.callers && run in s.db.runs
    case Check(c, id, verifyContent) =>
      c in s.callers && s.callers[c].Commit? && id in s.callers[c].rows
      && Arrived(s.db.objects, s.callers[c].rows[id], verifyContent)
    case Settle(c) => c in s.callers && s.callers[c].Commit? && s.callers[c].checked == s.callers[c].rows.Keys
    case Abandon(c, run) => c !in s.callers && run in s.db.runs
    case Remove(c, id) =>
      c in s.callers && s.callers[c].Failure? && id in s.callers[c].rows && id !in s.callers[c].removed
    case Finish(c) => c in s.callers && s.callers[c].Failure? && s.callers[c].removed == s.callers[c].rows.Keys
    case List(c, id) => c !in s.callers && Deletable(s.db, id)
    case Spare(c) => Deletes(s, c, Listed) && Others(s.db.artifacts, s.callers[c].id, s.callers[c].row)
    case Count(c) => Deletes(s, c, Listed) && !Others(s.db.artifacts, s.callers[c].id, s.callers[c].row)
    case Erase(c) => Deletes(s, c, Counted)
    case ForgetBytes(c) => Deletes(s, c, Erased)
    case Drop(c) => Deletes(s, c, Spared) || Deletes(s, c, Forgotten)
    case DropRunRow(run) => Enabled(s.db, DeletingRun(run))
    case Stop(c) => c in s.callers
  }

  /** `WHERE id = $1`, whatever state the rows and the run are in by now. */
  function SettleRun(db: Db, org: Id, run: Id, rows: set<Id>, bytes: int): Db
  {
    db.(artifacts := CommitRows(db.artifacts, rows),
        runs := if run in db.runs then db.runs[run := db.runs[run].(state := Committed)] else db.runs,
        quota := if org in db.quota then db.quota[org := SettleBytes(db.quota[org], bytes)] else db.quota)
  }

  ghost function SettleCaller(s: Scene, c: nat): Scene
    requires c in s.callers && s.callers[c].Commit?
  {
    match s.callers[c]
    case Commit(org, run, rows, _) =>
      var bytes := Promised(rows);
      s.(db := SettleRun(s.db, org, run, rows.Keys, bytes), callers := s.callers - {c},
         settled := s.settled + StillPending(s.db.artifacts, rows),
         clamped := s.clamped || (org in s.db.quota && s.db.quota[org].reserved < bytes))
  }

  /** The rows still pending go, and the bytes of those read before. */
  function ReleaseRun(db: Db, org: Id, run: Id, bytes: int): Db
  {
    var left := db.artifacts - PendingRows(db.artifacts, run);
    db.(artifacts := left, runs := DropRun(db.runs, left, run),
        quota := if org in db.quota then db.quota[org := ReleaseBytes(db.quota[org], bytes)] else db.quota)
  }

  ghost function FinishCaller(s: Scene, c: nat): Scene
    requires c in s.callers && s.callers[c].Failure?
  {
    match s.callers[c]
    case Failure(org, run, rows, _) =>
      var bytes := Promised(rows);
      s.(db := ReleaseRun(s.db, org, run, bytes), callers := s.callers - {c},
         clamped := s.clamped || (org in s.db.quota && s.db.quota[org].reserved < bytes))
  }

  function ForgetCaller(s: Scene, c: nat): Scene
    requires Deletes(s, c, Erased)
  {
    match s.callers[c]
    case Deletion(id, a, _) =>
      s.(db := s.db.(quota := Forget(s.db.quota, a.org, a.bytes)),
         callers := s.callers[c := Deletion(id, a, Forgotten)],
         freed := if id in s.db.artifacts then s.freed[id := a] else s.freed,
         clamped := s.clamped || (a.org in s.db.quota && s.db.quota[a.org].stored < a.bytes))
  }

  ghost function Play(s: Scene, m: Move): Scene
  {
    if !Possible(s, m) then s
    else
      match m
      case Declare(d, _) =>
        s.(db := DeclareRun(s.db, d), ids := s.ids + (set i | 0 <= i < |d.ids| :: d.ids[i]), runIds := s.runIds + {d.run})
      case Transfer(key, blob) => s.(db := s.db.(objects := s.db.objects[key := blob]))
      case Read(c, run) =>
        s.(callers := s.callers[c := Commit(s.db.runs[run].org, run, Snapshot(s.db.artifacts, run), {})])
      case Check(c, id, _) => s.(callers := s.callers[c := s.callers[c].(checked := s.callers[c].checked + {id})])
      case Settle(c) => SettleCaller(s, c)
      case Abandon(c, run) =>
        s.(callers := s.callers[c := Failure(s.db.runs[run].org, run, Snapshot(s.db.artifacts, run), {})])
      case Remove(c, id) =>
        s.(db := s.db.(objects := s.db.objects - {s.callers[c].rows[id].key}),
           callers := s.callers[c := s.callers[c].(removed := s.callers[c].removed + {id})])
      case Finish(c) => FinishCaller(s, c)
      case List(c, id) => s.(callers := s.callers[c := Deletion(id, s.db.artifacts[id], Listed)])
      case Spare(c) => s.(callers := s.callers[c := s.callers[c].(stage := Spared)])
      case Count(c) => s.(callers := s.callers[c := s.callers[c].(stage := Counted)])
      case Erase(c) =>
        var pc := s.callers[c];
        s.(db := s.db.(objects := s.db.objects - {pc.row.key}), callers := s.callers[c := pc.(stage := Erased)],
           erased := s.erased + {pc.id})
      case ForgetBytes(c) => ForgetCaller(s, c)
      case Drop(c) => s.(db := s.db.(artifacts := s.db.artifacts - {s.callers[c].id}), callers := s.callers - {c})
      case DropRunRow(run) => s.(db := s.db.(runs := s.db.runs - {run}))
      case Stop(c) => s.(callers := s.callers - {c})
  }

  ghost function PlayAll(s: Scene, moves: seq<Move>): Scene
  {
    if moves == [] then s else Play(PlayAll(s, moves[..|moves| - 1]), moves[|moves| - 1])
  }

  lemma {:induction false} PlayOn(s: Scene, moves: seq<Move>, m: Move)
    ensures PlayAll(s, moves + [m]) == Play(PlayAll(s, moves), m)
  {
    assert (moves + [m])[..|moves|] == moves;
  }

  // ---- What each move must wait for --------------------------------------------

  /** A deletion that has found no other users, whatever it has done since. */
  predicate Dooms(pc: Pc) { pc.Deletion? && (pc.stage == Counted || pc.stage == Erased || pc.stage == Forgotten) }

  /** The row's object is gone by its own deletion, or about to go. */
  predicate Doomed(s: Scene, id: Id)
  {
    id in s.erased || exists c :: c in s.callers && Dooms(s.callers[c]) && s.callers[c].id == id
  }

  /** A declaration names no new key that another run is still pending on. */
  predicate NamesNoPending(s: Scene, d: Declaration)
  {
    forall item, id :: item in d.items && item.sha !in d.held && id in s.db.artifacts && s.db.artifacts[id].state == Pending
      ==> s.db.artifacts[id].key != Key(d.org, item.sha, item.contentType)
  }

  /** And deduplicates onto no object that is being deleted. */
  predicate TakesNoDoomed(s: Scene, d: Declaration)
  {
    forall item, id :: item in d.items && item.sha in d.held && id in s.db.artifacts && Doomed(s, id)
      ==> d.held[item.sha] != s.db.artifacts[id].key
  }

  /** What the commit verified still stands: its rows are pending, their objects are there. */
  predicate StillStands(s: Scene, rows: map<Id, Artifact>)
  {
    forall id :: id in rows ==>
      && id in s.db.artifacts && s.db.artifacts[id] == rows[id]
      && rows[id].key in s.db.objects && s.db.objects[rows[id].key].sha == rows[id].sha
  }

  /** No failure under way holds any of these rows. */
  predicate Unthreatened(s: Scene, rows: map<Id, Artifact>)
  {
    forall o, id :: o in s.callers && s.callers[o].Failure? && id in s.callers[o].rows ==> id !in rows
  }

  predicate MaySettle(s: Scene, c: nat)
    requires c in s.callers && s.callers[c].Commit?
  {
    StillStands(s, s.callers[c].rows) && Unthreatened(s, s.callers[c].rows)
  }

  /** The row is still there, no deletion has forgotten its bytes, and no other has counted its
      users and not ended. */
  predicate MayCount(s: Scene, c: nat)
    requires c in s.callers && s.callers[c].Deletion?
  {
    var id := s.callers[c].id;
    && id in s.db.artifacts && id !in s.freed
    && forall o :: o in s.callers && o != c && s.callers[o].Deletion? && s.callers[o].id == id ==> s.callers[o].stage == Listed
  }

  /** The move waits for what it must wait for. */
  predicate Orderly(s: Scene, m: Move)
  {
    Possible(s, m) ==>
      match m
      case Declare(d, _) => NamesNoPending(s, d) && TakesNoDoomed(s, d)
      case Settle(c) => MaySettle(s, c)
      case Abandon(_, run) => Unthreatened(s, Snapshot(s.db.artifacts, run))
      case Count(c) => MayCount(s, c)
      case _ => true
  }

  ghost predicate AllOrderly(s: Scene, moves: seq<Move>)
  {
    moves == [] || (AllOrderly(s, moves[..|moves| - 1]) && Orderly(PlayAll(s, moves[..|moves| - 1]), moves[|moves| - 1]))
  }
}
