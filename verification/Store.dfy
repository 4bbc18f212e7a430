/** The artifact tables and the bucket (migrations/015_artifact_uploads.sql, src/storage.ts 63-95).
    Ids are positive numbers, so 0 can stand for the empty text a fresh cursor holds. */
module Store {
  import opened Pricing

  type Id = nat

  /** A sha256, as an opaque value. */
  type Hash = nat

  datatype Kind = Build | Reference | Diff | Summary | Thumbnail | Report | Regions | Crops

  /** The content types an artifact may have; each gives its keys their extension. */
  datatype ContentType = Png | Jpeg | Json | Html

  /** `org/{orgId}/blob/{sha256}.{ext}`. */
  datatype Key = Key(org: Id, sha: Hash, ext: ContentType)

  /** What is stored under a key: the hash and the length its bytes really have. */
  datatype Blob = Blob(sha: Hash, size: nat)

  datatype State = Pending | Committed

  datatype Artifact = Artifact(
    org: Id, run: Id, frame: nat, kind: Kind, key: Key, sha: Hash, bytes: nat, declared: nat, state: State)

  datatype Run = Run(org: Id, repo: Id, createdAt: nat, state: State)

  /** One `org_storage` row. */
  datatype Quota = Quota(stored: int, reserved: int, runsToday: nat, runsDay: nat)

  datatype Db = Db(
    repos: set<Id>, runs: map<Id, Run>, artifacts: map<Id, Artifact>,
    objects: map<Key, Blob>, quota: map<Id, Quota>)

  predicate Positive(artifacts: map<Id, Artifact>)
  {
    forall id :: id in artifacts ==> id > 0
  }

  /** Every key lies under its own organization's prefix. */
  predicate KeysOwned(artifacts: map<Id, Artifact>)
  {
    forall id :: id in artifacts ==> artifacts[id].key.org == artifacts[id].org
  }

  /** What the key layout and the foreign key to `runs` guarantee of every row. */
  predicate WellFormed(db: Db)
  {
    match db
    case Db(_, runs, artifacts, _, _) =>
      && Positive(artifacts) && KeysOwned(artifacts)
      && (forall id :: id in artifacts ==> artifacts[id].run in runs)
      && (forall r :: r in runs ==> r > 0)
  }

  function AtLeastZero(x: int): int { if x >= 0 then x else 0 }

  /** `UPDATE org_storage SET bytes_stored = GREATEST(bytes_stored - n, 0)`. */
  function Forget(quota: map<Id, Quota>, org: Id, bytes: nat): map<Id, Quota>
  {
    if org in quota then quota[org := quota[org].(stored := AtLeastZero(quota[org].stored - bytes))] else quota
  }

  /** Does any other row of the organization point at the same object? */
  predicate Shared(artifacts: map<Id, Artifact>, id: Id)
    requires id in artifacts
  {
    exists o :: o in artifacts && o != id && artifacts[o].org == artifacts[id].org && artifacts[o].key == artifacts[id].key
  }

  /** How `storage.delete` behaves on one call: it works, or it throws before or after the
      object is gone. */
  datatype Fault = Works | ThrowsBefore | ThrowsAfter

  /** `storage.delete(key)` on a bucket, as the script of faults has it. */
  method StorageDelete(objects: map<Key, Blob>, faults: seq<Fault>, key: Key)
    returns (threw: bool, left: map<Key, Blob>, later: seq<Fault>)
    ensures !threw ==> left == objects - {key}
    ensures threw ==> left == objects || left == objects - {key}
    ensures faults == [] ==> !threw && later == []
  {
    var fault := if faults == [] then Works else faults[0];
    later := if faults == [] then [] else faults[1..];
    threw := fault != Works;
    left := if fault != ThrowsBefore then objects - {key} else objects;
  }
}
