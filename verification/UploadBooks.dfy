/** The tables and the bucket under uploads (src/artifactUploads.ts 223-295, 375-476, 628-773,
    795-825) and deletions of committed runs (src/retention.ts 328-373), as a state machine.
    What every run of it keeps of the byte accounting. */
module UploadBooks {
  import opened Pricing
  import opened Store
  import opened Sums
  import opened UploadRules
  import opened Retention

  // ---- Declare -----------------------------------------------------------------

  /** A declaration about to be written: its items, the ids its rows will get, and which
      hashes the organization already holds, under which key. */
  datatype Declaration = Declaration(
    org: Id, repo: Id, run: Id, createdAt: nat, today: nat, items: seq<Item>, ids: seq<Id>, held: map<Hash, Key>)

  function RowOf(d: Declaration, a: Item): Artifact
  {
    if a.sha in d.held then Artifact(d.org, d.run, a.frame, a.kind, d.held[a.sha], a.sha, a.bytes, a.bytes, Committed)
    else Artifact(d.org, d.run, a.frame, a.kind, Key(d.org, a.sha, a.contentType), a.sha, 0, a.bytes, Pending)
  }

  /** The first `n` rows written. */
  function Insert(artifacts: map<Id, Artifact>, d: Declaration, n: nat): map<Id, Artifact>
    requires n <= |d.items| == |d.ids|
  {
    if n == 0 then artifacts else Insert(artifacts, d, n - 1)[d.ids[n - 1] := RowOf(d, d.items[n - 1])]
  }

  /** The counter row, created if absent and rolled over to today. */
  function Counters(quota: map<Id, Quota>, org: Id, today: nat): Quota
  {
    if org !in quota then Quota(0, 0, 0, today)
    else if quota[org].runsDay != today then quota[org].(runsToday := 0, runsDay := today)
    else quota[org]
  }

  function ReserveBytes(q: Quota, bytes: int): Quota { q.(reserved := q.reserved + bytes, runsToday := q.runsToday + 1) }

  function SettleBytes(q: Quota, bytes: int): Quota
  {
    q.(reserved := AtLeastZero(q.reserved - bytes), stored := q.stored + bytes)
  }

  function ReleaseBytes(q: Quota, bytes: int): Quota { q.(reserved := AtLeastZero(q.reserved - bytes)) }

  function DeclareRun(db: Db, d: Declaration): Db
    requires |d.items| == |d.ids|
  {
    var q := Counters(db.quota, d.org, d.today);
    Db(db.repos + {d.repo}, db.runs[d.run := Run(d.org, d.repo, d.createdAt, Pending)],
       Insert(db.artifacts, d, |d.items|), db.objects, db.quota[d.org := ReserveBytes(q, FreshBytes(d.items, d.held))])
  }

  // ---- Commit and failure ------------------------------------------------------

  /** `WHERE run_id = $1 AND state = 'pending'`. */
  function PendingRows(artifacts: map<Id, Artifact>, run: Id): set<Id>
  {
    set id | id in artifacts && artifacts[id].run == run && artifacts[id].state == Pending
  }

  function RowsOf(artifacts: map<Id, Artifact>, run: Id): set<Id>
  {
    set id | id in artifacts && artifacts[id].run == run
  }

  function DeclaredAt(artifacts: map<Id, Artifact>): Id -> int
  {
    (id: Id) => if id in artifacts then artifacts[id].declared else 0
  }

  ghost function DeclaredBytes(artifacts: map<Id, Artifact>, rows: set<Id>): int
  {
    SetTotal(rows, DeclaredAt(artifacts))
  }

  /** `bytes = declared_bytes, state = 'committed'` for some rows. */
  function CommitRows(artifacts: map<Id, Artifact>, rows: set<Id>): map<Id, Artifact>
  {
    map id | id in artifacts ::
      if id in rows then artifacts[id].(bytes := artifacts[id].declared, state := Committed) else artifacts[id]
  }

  ghost function CommitRun(db: Db, run: Id): Db
    requires run in db.runs
  {
    var rows := PendingRows(db.artifacts, run);
    var org := db.runs[run].org;
    db.(artifacts := CommitRows(db.artifacts, rows), runs := db.runs[run := db.runs[run].(state := Committed)],
        quota := if org in db.quota then db.quota[org := SettleBytes(db.quota[org], DeclaredBytes(db.artifacts, rows))]
                 else db.quota)
  }

  function KeysAt(artifacts: map<Id, Artifact>, rows: set<Id>): set<Key>
  {
    set id | id in rows && id in artifacts :: artifacts[id].key
  }

  /** The run row goes only if it is pending and no artifact row is left. */
  function DropRun(runs: map<Id, Run>, artifacts: map<Id, Artifact>, run: Id): map<Id, Run>
  {
    if run in runs && runs[run].state == Pending && (forall id :: id in artifacts ==> artifacts[id].run != run)
    then runs - {run} else runs
  }

  ghost function FailRun(db: Db, run: Id): Db
    requires run in db.runs
  {
    var rows := PendingRows(db.artifacts, run);
    var org := db.runs[run].org;
    db.(objects := db.objects - KeysAt(db.artifacts, rows), artifacts := db.artifacts - rows,
        runs := DropRun(db.runs, db.artifacts - rows, run),
        quota := if org in db.quota then db.quota[org := ReleaseBytes(db.quota[org], DeclaredBytes(db.artifacts, rows))]
                 else db.quota)
  }

  // ---- The machine -------------------------------------------------------------

  datatype Action =
    | Declaring(d: Declaration, plan: Plan)
    | Transferring(key: Key, blob: Blob)       // a signed PUT arrives, of the signed length
    | Committing(run: Id, verifyContent: bool) // a commit that found everything in order
    | Failing(run: Id)                         // a refused commit, or the sweep of an abandoned run
    | BreakingOff(run: Id, keys: set<Key>)     // the same, but storage.delete threw after these
    | DeletingRow(id: Id)                      // retention, of a committed run
    | DeletingRun(run: Id)

  /** What `declareUpload` checks before it writes, and what the database guarantees: fresh
      ids, and `held` read from the committed rows. */
  predicate Declarable(db: Db, d: Declaration, plan: Plan)
  {
    && plan.uploadAllowed && Bytes(d.items) <= plan.bytesPerRun
    && Room(Counters(db.quota, d.org, d.today), plan, FreshBytes(d.items, d.held))
    && d.run > 0 && d.run !in db.runs && IdsFresh(db.artifacts, d) && HeldBy(db.artifacts, d)
  }

  predicate Room(q: Quota, plan: Plan, bytes: int)
  {
    q.runsToday < plan.runsPerDay && q.stored + q.reserved + bytes <= plan.bytesStoredMax
  }

  predicate IdsFresh(artifacts: map<Id, Artifact>, d: Declaration)
  {
    && |d.items| == |d.ids|
    && (forall i :: 0 <= i < |d.ids| ==> d.ids[i] > 0 && d.ids[i] !in artifacts)
    && (forall i, j :: 0 <= i < j < |d.ids| ==> d.ids[i] != d.ids[j])
  }

  /** Keys of an organization's committed rows. */
  function CommittedKeys(artifacts: map<Id, Artifact>, org: Id): set<Key>
  {
    set id | id in artifacts && artifacts[id].org == org && artifacts[id].state == Committed :: artifacts[id].key
  }

  /** A committed row of the organization with this hash. */
  predicate Holds(a: Artifact, org: Id, sha: Hash)
  {
    a.org == org && a.state == Committed && a.sha == sha
  }

  predicate HeldBy(artifacts: map<Id, Artifact>, d: Declaration)
  {
    && (forall h :: h in d.held ==> d.held[h].sha == h && d.held[h] in CommittedKeys(artifacts, d.org))
    && (forall id, a :: id in artifacts && a in d.items && Holds(artifacts[id], d.org, a.sha) ==> a.sha in d.held)
  }

  /** What the loop of `commitUpload` asks of one pending row. */
  predicate Arrived(objects: map<Key, Blob>, a: Artifact, verifyContent: bool)
  {
    a.key in objects && objects[a.key].size == a.declared && (verifyContent ==> objects[a.key].sha == a.sha)
  }

  predicate AllArrived(db: Db, run: Id, verifyContent: bool)
  {
    forall id :: id in PendingRows(db.artifacts, run) ==> Arrived(db.objects, db.artifacts[id], verifyContent)
  }

  predicate Enabled(db: Db, a: Action)
  {
    match a
    case Declaring(d, plan) => Declarable(db, d, plan)
    case Transferring(key, blob) =>
      exists id :: id in db.artifacts && db.artifacts[id].state == Pending && db.artifacts[id].key == key
                   && db.artifacts[id].declared == blob.size
    case Committing(run, verify) => run in db.runs && db.runs[run].state == Pending && AllArrived(db, run, verify)
    case Failing(run) => run in db.runs && db.runs[run].state == Pending
    case BreakingOff(run, keys) =>
      run in db.runs && db.runs[run].state == Pending && keys <= KeysAt(db.artifacts, PendingRows(db.artifacts, run))
    case DeletingRow(id) => id in db.artifacts && db.artifacts[id].run in db.runs && db.runs[db.artifacts[id].run].state == Committed
    case DeletingRun(run) =>
      run in db.runs && db.runs[run].state == Committed && forall id :: id in db.artifacts ==> db.artifacts[id].run != run
  }

  ghost function Step(db: Db, a: Action): Db
  {
    if !Enabled(db, a) then db
    else
      match a
      case Declaring(d, _) => DeclareRun(db, d)
      case Transferring(key, blob) => db.(objects := db.objects[key := blob])
      case Committing(run, _) => CommitRun(db, run)
      case Failing(run) => FailRun(db, run)
      case BreakingOff(_, keys) => db.(objects := db.objects - keys)
      case DeletingRow(id) => DeleteArtifact(db, id)
      case DeletingRun(run) => db.(runs := db.runs - {run})
  }

  ghost function RunAll(db: Db, actions: seq<Action>): Db
  {
    if actions == [] then db else Step(RunAll(db, actions[..|actions| - 1]), actions[|actions| - 1])
  }

  function NoTables(): Db { Db({}, map[], map[], map[], map[]) }

  // ---- The accounts ------------------------------------------------------------

  function PendingBytes(org: Id): Artifact -> int
  {
    (a: Artifact) => if a.org == org && a.state == Pending then a.declared else 0
  }

  ghost function PendingTotal(artifacts: map<Id, Artifact>, org: Id): int
  {
    Total(artifacts, PendingBytes(org))
  }

  function SizeOf(len: Hash -> nat): Key -> int
  {
    (k: Key) => len(k.sha)
  }

  ghost function KeysTotal(artifacts: map<Id, Artifact>, org: Id, len: Hash -> nat): int
  {
    SetTotal(CommittedKeys(artifacts, org), SizeOf(len))
  }

  /** What ties a row to its key, its run and its hash's length. */
  predicate RowsTied(artifacts: map<Id, Artifact>, runs: map<Id, Run>, len: Hash -> nat)
  {
    forall id :: id in artifacts ==>
      var a := artifacts[id];
      && a.key.org == a.org && a.key.sha == a.sha && a.declared == len(a.sha) && a.run in runs && runs[a.run].org == a.org
      && (a.state == Committed ==> a.bytes == a.declared)
      && (runs[a.run].state == Committed ==> a.state == Committed)
  }

  ghost predicate Account(artifacts: map<Id, Artifact>, q: Quota, org: Id, len: Hash -> nat, max: Id -> int)
  {
    && q.reserved == PendingTotal(artifacts, org)
    && KeysTotal(artifacts, org, len) <= q.stored
    && q.stored + q.reserved <= max(org)
  }

  ghost predicate Balanced(db: Db, len: Hash -> nat, max: Id -> int)
  {
    match db
    case Db(_, runs, artifacts, _, quota) =>
      && RowsTied(artifacts, runs, len)
      && (forall r :: r in runs ==> runs[r].org in quota)
      && (forall o :: o in quota ==> Account(artifacts, quota[o], o, len, max))
  }

  // ---- Declare keeps them ------------------------------------------------------

  lemma {:induction false} InsertedRows(artifacts: map<Id, Artifact>, d: Declaration, n: nat)
    requires IdsFresh(artifacts, d) && n <= |d.items|
    ensures forall id :: id in artifacts ==> id in Insert(artifacts, d, n) && Insert(artifacts, d, n)[id] == artifacts[id]
    ensures forall id :: id in Insert(artifacts, d, n) && id !in artifacts ==>
              exists i :: 0 <= i < n && id == d.ids[i] && Insert(artifacts, d, n)[id] == RowOf(d, d.items[i])
    ensures forall i :: 0 <= i < n ==> d.ids[i] in Insert(artifacts, d, n)
    ensures forall i :: n <= i < |d.ids| ==> d.ids[i] !in Insert(artifacts, d, n)
  {
    if n > 0 {
      var before, after := Insert(artifacts, d, n - 1), Insert(artifacts, d, n);
      InsertedRows(artifacts, d, n - 1);
      assert after == before[d.ids[n - 1] := RowOf(d, d.items[n - 1])];
      forall id | id in after && id !in artifacts
        ensures exists i :: 0 <= i < n && id == d.ids[i] && after[id] == RowOf(d, d.items[i])
      {
        if id != d.ids[n - 1] {
          var i :| 0 <= i < n - 1 && id == d.ids[i] && before[id] == RowOf(d, d.items[i]);
        }
      }
    }
  }

  lemma {:induction false} InsertedTotal(artifacts: map<Id, Artifact>, d: Declaration, n: nat, org: Id)
    requires IdsFresh(artifacts, d) && n <= |d.items|
    ensures PendingTotal(Insert(artifacts, d, n), org)
         == PendingTotal(artifacts, org) + (if org == d.org then FreshBytes(d.items[..n], d.held) else 0)
  {
    if n > 0 {
      InsertedTotal(artifacts, d, n - 1, org);
      InsertedRows(artifacts, d, n - 1);
      InsertedOne(Insert(artifacts, d, n - 1), d, n, org);
    }
  }

  lemma InsertedOne(artifacts: map<Id, Artifact>, d: Declaration, n: nat, org: Id)
    requires 0 < n <= |d.items| == |d.ids| && d.ids[n - 1] !in artifacts
    ensures PendingTotal(artifacts[d.ids[n - 1] := RowOf(d, d.items[n - 1])], org)
         == PendingTotal(artifacts, org)
            + (if org == d.org then FreshBytes(d.items[..n], d.held) - FreshBytes(d.items[..n - 1], d.held) else 0)
  {
    TotalUpdate(artifacts, PendingBytes(org), d.ids[n - 1], RowOf(d, d.items[n - 1]));
    assert d.items[..n][..n - 1] == d.items[..n - 1];
  }

  lemma InsertedKeys(artifacts: map<Id, Artifact>, d: Declaration, n: nat, org: Id)
    requires IdsFresh(artifacts, d) && HeldBy(artifacts, d) && n <= |d.items|
    ensures CommittedKeys(Insert(artifacts, d, n), org) == CommittedKeys(artifacts, org)
  {
    InsertedRows(artifacts, d, n);
    var after := Insert(artifacts, d, n);
    forall id | id in after && id !in artifacts && after[id].org == org && after[id].state == Committed
      ensures after[id].key in CommittedKeys(artifacts, org)
    {
      var i :| 0 <= i < n && id == d.ids[i] && after[id] == RowOf(d, d.items[i]);
    }
    forall k | k in CommittedKeys(artifacts, org) ensures k in CommittedKeys(after, org) {
      var id :| id in artifacts && artifacts[id].org == org && artifacts[id].state == Committed && artifacts[id].key == k;
      assert after[id] == artifacts[id];
    }
  }
}
