/** The three-phase upload (src/artifactUploads.ts 375-476, 628-773, 795-825) over the tables
    and the bucket, each operation proved to take the steps of UploadBooks. */
module Uploads {
  import opened Pricing
  import opened Store
  import opened Sums
  import opened UploadRules
  import opened Retention
  import opened UploadBooks
  import Order

  datatype DeclareOutcome =
    | Refused(reason: Reason)
    | Accepted(uploads: seq<Key>, deduplicated: seq<nat>, bytesReserved: int)

  datatype CommitOutcome = NotAllowed(reason: Reason) | Rejected | CommitResult(artifacts: nat, bytes: int)

  datatype SweepResult = SweepResult(runs: nat, artifacts: nat, bytes: int)

  function ItemsOf(artifacts: seq<Declared>): seq<Item>
    requires forall a :: a in artifacts ==> WellDeclared(a)
  {
    seq(|artifacts|, i requires 0 <= i < |artifacts| => ItemOf(artifacts[i]))
  }

  /** Keys of the items that must be uploaded, in order. */
  function ToSign(d: Declaration, n: nat): seq<Key>
    requires n <= |d.items|
  {
    if n == 0 then []
    else ToSign(d, n - 1) + if d.items[n - 1].sha in d.held then [] else [Key(d.org, d.items[n - 1].sha, d.items[n - 1].contentType)]
  }

  /** Positions of the items the organization already holds. */
  function AlreadyHeld(d: Declaration, n: nat): seq<nat>
    requires n <= |d.items|
  {
    if n == 0 then [] else AlreadyHeld(d, n - 1) + if d.items[n - 1].sha in d.held then [n - 1] else []
  }

  // ---- What a declaration and a commit write, column by column ---------------------

  /** Does the organization hold this hash already, in a committed row? */
  predicate HeldIn(artifacts: map<Id, Artifact>, org: Id, sha: Hash)
  {
    exists id :: id in artifacts && artifacts[id].org == org && artifacts[id].state == Committed && artifacts[id].sha == sha
  }

  /** The row of one declared artifact. What is held already is committed at once, under the key
      of a row that holds it; the rest waits, with nothing stored, under a key of its own. */
  ghost predicate RowFor(before: map<Id, Artifact>, a: Declared, org: Id, run: Id, row: Artifact)
  {
    && row.org == org && row.run == run && row.frame == a.frame
    && a.kind == Some(row.kind) && a.sha == Some(row.sha) && row.declared == a.bytes
    && if HeldIn(before, org, row.sha) then
         && row.state == Committed && row.bytes == a.bytes
         && exists id :: id in before && before[id].org == org && before[id].state == Committed && before[id].key == row.key && row.key.sha == row.sha
       else
         && row.state == Pending && row.bytes == 0
         && row.key.org == org && row.key.sha == row.sha && StoredAs(a, row.key.ext)
  }

  ghost predicate DeclaredByColumns(
    before: Db, after: Db, org: Id, repo: Id, run: Id, ids: seq<Id>, now: nat, declared: seq<Declared>)
  {
    match after
    case Db(repos, runs, artifacts, objects, _) =>
      && repos == before.repos + {repo} && objects == before.objects
      && runs == before.runs[run := Run(org, repo, now, Pending)]
      && RowsDeclared(before.artifacts, artifacts, org, run, ids, declared)
  }

  /** The run counts against today's, the first of a day starting from none, and the organization
      is within what its plan allows. */
  ghost predicate CountedToday(before: map<Id, Quota>, after: map<Id, Quota>, org: Id, today: nat, plan: Plan)
  {
    match plan
    case Plan(_, runsPerDay, _, _, bytesStoredMax) =>
      && org in after && after[org].runsDay == today
      && after[org].runsToday == 1 + (if org in before && before[org].runsDay == today then before[org].runsToday else 0)
      && after[org].runsToday <= runsPerDay && after[org].stored + after[org].reserved <= bytesStoredMax
  }

  lemma {:induction false} DeclarationCounts(db: Db, d: Declaration, plan: Plan)
    requires Declarable(db, d, plan)
    ensures CountedToday(db.quota, DeclareRun(db, d).quota, d.org, d.today, plan)
  {}

  ghost predicate RowsDeclared(
    before: map<Id, Artifact>, after: map<Id, Artifact>, org: Id, run: Id, ids: seq<Id>, declared: seq<Declared>)
  {
    && |ids| == |declared|
    && (forall id :: id in after <==> id in before || id in ids)
    && (forall id :: id in before ==> id in after && after[id] == before[id])
    && (forall i :: 0 <= i < |ids| ==> ids[i] in after && RowFor(before, declared[i], org, run, after[ids[i]]))
  }

  lemma HeldIsHeldIn(artifacts: map<Id, Artifact>, d: Declaration, a: Item)
    requires HeldBy(artifacts, d) && a in d.items && forall id :: id in artifacts ==> artifacts[id].key.sha == artifacts[id].sha
    ensures a.sha in d.held <==> HeldIn(artifacts, d.org, a.sha)
  {
    if a.sha in d.held {
      var id :| id in artifacts && artifacts[id].org == d.org && artifacts[id].state == Committed && artifacts[id].key == d.held[a.sha];
      assert artifacts[id].sha == a.sha;
    }
    if HeldIn(artifacts, d.org, a.sha) {
      var id :| id in artifacts && artifacts[id].org == d.org && artifacts[id].state == Committed && artifacts[id].sha == a.sha;
      assert Holds(artifacts[id], d.org, a.sha);
    }
  }

  lemma RowIsFor(artifacts: map<Id, Artifact>, d: Declaration, a: Declared)
    requires HeldBy(artifacts, d) && WellDeclared(a) && ItemOf(a) in d.items
    requires forall id :: id in artifacts ==> artifacts[id].key.sha == artifacts[id].sha
    ensures RowFor(artifacts, a, d.org, d.run, RowOf(d, ItemOf(a)))
  {
    var item := ItemOf(a);
    HeldIsHeldIn(artifacts, d, item);
    WellDeclaredIs(a);
    if item.sha in d.held {
      assert d.held[item.sha] in CommittedKeys(artifacts, d.org);
    }
  }

  lemma {:induction false} InsertedAt(artifacts: map<Id, Artifact>, d: Declaration, i: nat)
    requires IdsFresh(artifacts, d) && i < |d.ids|
    ensures d.ids[i] in Insert(artifacts, d, |d.items|)
    ensures Insert(artifacts, d, |d.items|)[d.ids[i]] == RowOf(d, d.items[i])
  {
    InsertedRows(artifacts, d, |d.items|);
    var j :| 0 <= j < |d.items| && d.ids[i] == d.ids[j] && Insert(artifacts, d, |d.items|)[d.ids[i]] == RowOf(d, d.items[j]);
  }

  lemma {:induction false} InsertedIsFor(artifacts: map<Id, Artifact>, d: Declaration, declared: seq<Declared>, i: nat)
    requires IdsFresh(artifacts, d) && HeldBy(artifacts, d) && i < |declared| == |d.ids|
    requires (forall a :: a in declared ==> WellDeclared(a)) && d.items == ItemsOf(declared)
    requires forall id :: id in artifacts ==> artifacts[id].key.sha == artifacts[id].sha
    ensures d.ids[i] in Insert(artifacts, d, |d.items|)
    ensures RowFor(artifacts, declared[i], d.org, d.run, Insert(artifacts, d, |d.items|)[d.ids[i]])
  {
    InsertedAt(artifacts, d, i);
    assert declared[i] in declared && d.items[i] == ItemOf(declared[i]);
    RowIsFor(artifacts, d, declared[i]);
  }

  lemma {:induction false} InsertedIds(artifacts: map<Id, Artifact>, d: Declaration, id: Id)
    requires IdsFresh(artifacts, d)
    ensures id in Insert(artifacts, d, |d.items|) <==> id in artifacts || id in d.ids
    ensures id in artifacts ==> Insert(artifacts, d, |d.items|)[id] == artifacts[id]
  {
    InsertedRows(artifacts, d, |d.items|);
    if id in d.ids {
      var i :| 0 <= i < |d.ids| && d.ids[i] == id;
    }
  }

  lemma {:induction false} RowsAreDeclared(artifacts: map<Id, Artifact>, d: Declaration, declared: seq<Declared>)
    requires IdsFresh(artifacts, d) && HeldBy(artifacts, d) && |d.ids| == |declared|
    requires (forall a :: a in declared ==> WellDeclared(a)) && d.items == ItemsOf(declared)
    requires forall id :: id in artifacts ==> artifacts[id].key.sha == artifacts[id].sha
    ensures RowsDeclared(artifacts, Insert(artifacts, d, |d.items|), d.org, d.run, d.ids, declared)
  {
    forall i | 0 <= i < |d.ids|
      ensures d.ids[i] in Insert(artifacts, d, |d.items|)
      ensures RowFor(artifacts, declared[i], d.org, d.run, Insert(artifacts, d, |d.items|)[d.ids[i]]) {
      InsertedIsFor(artifacts, d, declared, i);
    }
    forall id
      ensures id in Insert(artifacts, d, |d.items|) <==> id in artifacts || id in d.ids
      ensures id in artifacts ==> Insert(artifacts, d, |d.items|)[id] == artifacts[id] {
      InsertedIds(artifacts, d, id);
    }
  }

  lemma {:induction false} DeclareIsByColumns(before: Db, d: Declaration, declared: seq<Declared>)
    requires IdsFresh(before.artifacts, d) && HeldBy(before.artifacts, d) && |d.ids| == |declared|
    requires (forall a :: a in declared ==> WellDeclared(a)) && d.items == ItemsOf(declared)
    requires forall id :: id in before.artifacts ==> before.artifacts[id].key.sha == before.artifacts[id].sha
    ensures DeclaredByColumns(before, DeclareRun(before, d), d.org, d.repo, d.run, d.ids, d.createdAt, declared)
  {
    RowsAreDeclared(before.artifacts, d, declared);
  }

  /** Everything a run waits for is there: under the row's key, of the declared length and,
      where the content is verified, with the declared hash. */
  ghost predicate AllThere(db: Db, run: Id, verifyContent: bool)
  {
    forall id :: id in db.artifacts && db.artifacts[id].run == run && db.artifacts[id].state == Pending ==>
      var a := db.artifacts[id];
      && a.key in db.objects && db.objects[a.key].size == a.declared
      && (verifyContent ==> db.objects[a.key].sha == a.sha)
  }

  /** A commit makes the run and each of its waiting rows committed, a row holding what it
      declared, and changes no other row and no object. */
  ghost predicate CommittedByColumns(before: Db, after: Db, run: Id)
  {
    match after
    case Db(repos, runs, artifacts, objects, _) =>
      && repos == before.repos && objects == before.objects
      && run in before.runs && runs == before.runs[run := before.runs[run].(state := Committed)]
      && artifacts.Keys == before.artifacts.Keys
      && forall id :: id in artifacts ==>
           artifacts[id] == if before.artifacts[id].run == run && before.artifacts[id].state == Pending
                            then before.artifacts[id].(state := Committed, bytes := before.artifacts[id].declared)
                            else before.artifacts[id]
  }

  lemma CommitIsByColumns(before: Db, run: Id)
    requires run in before.runs
    ensures CommittedByColumns(before, CommitRun(before, run), run)
  {}

  lemma {:induction false} FailUndoes(before: Db, run: Id)
    requires run in before.runs && before.runs[run].state == Pending
    ensures Undone(before, UploadBooks.FailRun(before, run), {run})
  {
    var none: set<Id> := {};
    assert none + {run} == {run};
    RowsOneMore(before, before, none, run);
    ObjectsOneMore(before, before, none, run);
    RunsOneMore(before, before, none, run);
  }

  /** A commit that may go ahead is decided by what is there: it commits the run or, unless a
      delete threw, undoes it. */
  ghost predicate DecidedByWhatIsThere(before: Db, run: Id, verifyContent: bool, threw: bool, out: CommitOutcome, after: Db)
  {
    match out
    case NotAllowed(_) => false
    case CommitResult(_, _) => !threw && AllThere(before, run, verifyContent) && CommittedByColumns(before, after, run)
    case Rejected => !AllThere(before, run, verifyContent) && (!threw ==> Undone(before, after, {run}))
  }

  lemma {:induction false} CommitIsDecided(before: Db, run: Id, verifyContent: bool, threw: bool, out: CommitOutcome, after: Db)
    requires run in before.runs && before.runs[run].state == Pending
    requires if AllArrived(before, run, verifyContent) then !threw && after == CommitRun(before, run) && out.CommitResult?
             else out == Rejected && (!threw ==> after == UploadBooks.FailRun(before, run))
    ensures DecidedByWhatIsThere(before, run, verifyContent, threw, out, after)
  {
    CommitIsByColumns(before, run);
    FailUndoes(before, run);
  }

  /** `SUM(bytes) ... WHERE run_id = $1`, row by row. */
  lemma BytesOfRun(artifacts: map<Id, Artifact>, run: Id)
    ensures SetTotal(RowsOf(artifacts, run), BytesAt(artifacts))
         == Total(artifacts, (a: Artifact) => if a.run == run then a.bytes else 0)
  {
    var f := (a: Artifact) => if a.run == run then a.bytes else 0;
    var rows := RowsOf(artifacts, run);
    var own := artifacts - (artifacts.Keys - rows);
    TotalRestrict(artifacts, own, f);
    var ids: map<Id, Id> := map id | id in rows :: id;
    TotalSame(own, f, ids, BytesAt(artifacts));
  }

  /** A failed run's storage.delete threw: some of its objects are gone, no row is. */
  ghost predicate BrokenOff(before: Db, after: Db, run: Id)
  {
    exists keys :: keys <= KeysAt(before.artifacts, PendingRows(before.artifacts, run))
                   && after == before.(objects := before.objects - keys)
  }

  function SetOf(rows: seq<Id>): set<Id>
  {
    set id | id in rows
  }

  lemma PrefixAdds(rows: seq<Id>, i: nat)
    requires i < |rows|
    ensures SetOf(rows[..i + 1]) == SetOf(rows[..i]) + {rows[i]}
  {}

  function BytesAt(artifacts: map<Id, Artifact>): Id -> int
  {
    (id: Id) => if id in artifacts then artifacts[id].bytes else 0
  }

  lemma SomeGone(before: Db, after: Db, run: Id, keys: set<Key>, key: Key)
    requires keys + {key} <= KeysAt(before.artifacts, PendingRows(before.artifacts, run))
    requires after == before.(objects := after.objects)
    requires after.objects == before.objects - keys || after.objects == before.objects - keys - {key}
    ensures BrokenOff(before, after, run)
  {}

  lemma KeysOneMore(artifacts: map<Id, Artifact>, rows: seq<Id>, i: nat, run: Id)
    requires i < |rows| && SetOf(rows) == PendingRows(artifacts, run)
    ensures rows[i] in artifacts
    ensures KeysAt(artifacts, SetOf(rows[..i + 1])) == KeysAt(artifacts, SetOf(rows[..i])) + {artifacts[rows[i]].key}
    ensures KeysAt(artifacts, SetOf(rows[..i + 1])) <= KeysAt(artifacts, PendingRows(artifacts, run))
  {
    assert rows[i] in SetOf(rows);
    PrefixAdds(rows, i);
    assert SetOf(rows[..i + 1]) <= SetOf(rows);
  }

  // ---- The sweep ---------------------------------------------------------------

  function CreatedAt(runs: map<Id, Run>): nat -> nat
  {
    (r: nat) => if r in runs then runs[r].createdAt else 0
  }

  /** `WHERE state = 'pending' AND created_at < $1 ORDER BY created_at LIMIT $2`. */
  function Stale(runs: map<Id, Run>, cutoff: nat, limit: nat): seq<Id>
  {
    var all := Order.Sorted((set r | r in runs && runs[r].state == Pending && runs[r].createdAt < cutoff), CreatedAt(runs));
    if |all| <= limit then all else all[..limit]
  }

  predicate Listed(runs: map<Id, Run>, list: seq<Id>)
  {
    && (forall i :: 0 <= i < |list| ==> list[i] in runs)
    && (forall i, j :: 0 <= i < j < |list| ==> list[i] != list[j])
  }

  /** Failing the first `n` runs of a list one after the other. */
  ghost function FailAll(db: Db, list: seq<Id>, n: nat): (after: Db)
    requires n <= |list| && Listed(db.runs, list)
    ensures forall i :: n <= i < |list| ==> list[i] in after.runs && after.runs[list[i]] == db.runs[list[i]]
  {
    if n == 0 then db else UploadBooks.FailRun(FailAll(db, list, n - 1), list[n - 1])
  }

  /** The bytes they had reserved. */
  ghost function ReleasedBy(db: Db, list: seq<Id>, n: nat): int
    requires n <= |list| && Listed(db.runs, list)
  {
    if n == 0 then 0
    else
      var before := FailAll(db, list, n - 1);
      ReleasedBy(db, list, n - 1) + DeclaredBytes(before.artifacts, PendingRows(before.artifacts, list[n - 1]))
  }

  /** The rows they lose. */
  ghost function DroppedBy(db: Db, list: seq<Id>, n: nat): nat
    requires n <= |list| && Listed(db.runs, list)
  {
    if n == 0 then 0 else DroppedBy(db, list, n - 1) + |PendingRows(FailAll(db, list, n - 1).artifacts, list[n - 1])|
  }

  // ---- What a sweep undoes, by the runs' columns -----------------------------------

  /** The runs a sweep takes: pending since before the cut-off, at most `limit` of them, and
      none younger than one it leaves; it leaves such a run only when it has its number. */
  ghost predicate TakenByAge(runs: map<Id, Run>, cutoff: nat, limit: nat, swept: set<Id>)
  {
    && |swept| <= limit
    && (forall r :: r in swept ==> r in runs && runs[r].state == Pending && runs[r].createdAt < cutoff)
    && (forall q :: q in runs && runs[q].state == Pending && runs[q].createdAt < cutoff && q !in swept ==>
          |swept| == limit && forall r :: r in swept ==> runs[r].createdAt <= runs[q].createdAt)
  }

  /** Their pending rows are gone and no other row, and with them the objects under the keys of
      those rows; a run's own row goes with its last artifact row. */
  ghost predicate Undone(before: Db, after: Db, swept: set<Id>)
  {
    && RowsUndone(before.artifacts, after.artifacts, swept)
    && RunsUndone(before, after.runs, swept)
    && ObjectsUndone(before, after.objects, swept)
  }

  ghost predicate RowsUndone(before: map<Id, Artifact>, after: map<Id, Artifact>, swept: set<Id>)
  {
    && (forall id :: id in after <==> id in before && !(before[id].run in swept && before[id].state == Pending))
    && (forall id :: id in after ==> after[id] == before[id])
  }

  ghost predicate RunsUndone(before: Db, after: map<Id, Run>, swept: set<Id>)
  {
    && (forall r :: r in after <==>
          r in before.runs && !(r in swept && forall id :: id in before.artifacts && before.artifacts[id].run == r ==> before.artifacts[id].state == Pending))
    && (forall r :: r in after ==> after[r] == before.runs[r])
  }

  ghost predicate ObjectsUndone(before: Db, after: map<Key, Blob>, swept: set<Id>)
  {
    && (forall k :: k in after <==>
          k in before.objects && forall id :: id in before.artifacts && before.artifacts[id].run in swept && before.artifacts[id].state == Pending ==> before.artifacts[id].key != k)
    && (forall k :: k in after ==> after[k] == before.objects[k])
  }

  lemma {:induction false} RowsOneMore(before: Db, mid: Db, swept: set<Id>, run: Id)
    requires RowsUndone(before.artifacts, mid.artifacts, swept) && run in mid.runs
    ensures RowsUndone(before.artifacts, UploadBooks.FailRun(mid, run).artifacts, swept + {run})
  {}

  lemma {:induction false} ObjectsOneMore(before: Db, mid: Db, swept: set<Id>, run: Id)
    requires RowsUndone(before.artifacts, mid.artifacts, swept) && ObjectsUndone(before, mid.objects, swept)
    requires run in mid.runs && run !in swept
    ensures ObjectsUndone(before, UploadBooks.FailRun(mid, run).objects, swept + {run})
  {
    var after := UploadBooks.FailRun(mid, run).objects;
    var keys := KeysAt(mid.artifacts, PendingRows(mid.artifacts, run));
    forall k ensures k in keys <==>
        exists id :: id in before.artifacts && before.artifacts[id].run == run && before.artifacts[id].state == Pending && before.artifacts[id].key == k {
      if id :| id in before.artifacts && before.artifacts[id].run == run && before.artifacts[id].state == Pending && before.artifacts[id].key == k {
        assert id in PendingRows(mid.artifacts, run);
      }
    }
  }

  lemma {:induction false} RunsOneMore(before: Db, mid: Db, swept: set<Id>, run: Id)
    requires RowsUndone(before.artifacts, mid.artifacts, swept) && RunsUndone(before, mid.runs, swept)
    requires run in mid.runs && run !in swept && mid.runs[run].state == Pending
    ensures RunsUndone(before, UploadBooks.FailRun(mid, run).runs, swept + {run})
  {
    var left := mid.artifacts - PendingRows(mid.artifacts, run);
    assert (forall id :: id in left ==> left[id].run != run)
      <==> forall id :: id in before.artifacts && before.artifacts[id].run == run ==> before.artifacts[id].state == Pending by {
      forall id | id in before.artifacts && before.artifacts[id].run == run && before.artifacts[id].state != Pending
        ensures id in left && left[id].run == run {}
      forall id | id in left && left[id].run == run
        ensures id in before.artifacts && before.artifacts[id].run == run && before.artifacts[id].state != Pending {}
    }
  }

  lemma {:induction false} FailAllUndoes(before: Db, list: seq<Id>, n: nat)
    requires n <= |list| && Listed(before.runs, list) && forall i :: 0 <= i < |list| ==> before.runs[list[i]].state == Pending
    ensures Undone(before, FailAll(before, list, n), SetOf(list[..n]))
  {
    if n > 0 {
      var mid, run, swept := FailAll(before, list, n - 1), list[n - 1], SetOf(list[..n - 1]);
      FailAllUndoes(before, list, n - 1);
      PrefixAdds(list, n - 1);
      assert run !in swept;
      RowsOneMore(before, mid, swept, run);
      ObjectsOneMore(before, mid, swept, run);
      RunsOneMore(before, mid, swept, run);
    }
  }

  lemma {:induction false} DistinctNumber(list: seq<Id>)
    requires forall i, j :: 0 <= i < j < |list| ==> list[i] != list[j]
    ensures |SetOf(list)| == |list|
  {
    if list != [] {
      var n := |list| - 1;
      DistinctNumber(list[..n]);
      PrefixAdds(list, n);
      assert list[..n + 1] == list;
    }
  }

  lemma {:induction false} StaleAreListed(runs: map<Id, Run>, cutoff: nat, limit: nat)
    ensures var stale := Stale(runs, cutoff, limit);
            && Listed(runs, stale) && |SetOf(stale)| == |stale| <= limit
            && (forall i :: 0 <= i < |stale| ==> runs[stale[i]].state == Pending && runs[stale[i]].createdAt < cutoff)
  {
    var due := set r | r in runs && runs[r].state == Pending && runs[r].createdAt < cutoff;
    var all := Order.Sorted(due, CreatedAt(runs));
    var stale := Stale(runs, cutoff, limit);
    forall i | 0 <= i < |stale| ensures stale[i] in due { assert stale[i] == all[i] && all[i] in all; }
    DistinctNumber(stale);
  }

  lemma {:induction false} StaleAreOldest(runs: map<Id, Run>, cutoff: nat, limit: nat)
    ensures TakenByAge(runs, cutoff, limit, SetOf(Stale(runs, cutoff, limit)))
  {
    var due := set r | r in runs && runs[r].state == Pending && runs[r].createdAt < cutoff;
    var all := Order.Sorted(due, CreatedAt(runs));
    var stale := Stale(runs, cutoff, limit);
    StaleAreListed(runs, cutoff, limit);
    forall q | q in due && q !in stale
      ensures |stale| == limit && forall r :: r in stale ==> runs[r].createdAt <= runs[q].createdAt {
      assert q in all;
      var j :| 0 <= j < |all| && all[j] == q;
      assert j >= |stale|;
      forall r | r in stale ensures runs[r].createdAt <= runs[q].createdAt {
        var i :| 0 <= i < |stale| && stale[i] == r;
        assert Order.Le(CreatedAt(runs), all[i], all[j]);
      }
    }
  }

  ghost predicate SweptExactly(before: Db, cutoff: nat, limit: nat, after: Db, out: SweepResult, swept: set<Id>)
  {
    match out
    case SweepResult(number, _, _) =>
      TakenByAge(before.runs, cutoff, limit, swept) && Undone(before, after, swept) && number == |swept|
  }

  ghost predicate SweptByAge(before: Db, cutoff: nat, limit: nat, after: Db, out: SweepResult)
  {
    exists swept: set<Id> :: SweptExactly(before, cutoff, limit, after, out, swept)
  }

  lemma {:induction false} SweepIsByAge(before: Db, cutoff: nat, limit: nat, out: SweepResult)
    requires out.runs == |Stale(before.runs, cutoff, limit)| && Listed(before.runs, Stale(before.runs, cutoff, limit))
    ensures SweptByAge(before, cutoff, limit, FailAll(before, Stale(before.runs, cutoff, limit), out.runs), out)
  {
    var stale := Stale(before.runs, cutoff, limit);
    StaleAreListed(before.runs, cutoff, limit);
    StaleAreOldest(before.runs, cutoff, limit);
    FailAllUndoes(before, stale, |stale|);
    assert stale[..|stale|] == stale;
    assert SweptExactly(before, cutoff, limit, FailAll(before, stale, |stale|), out, SetOf(stale));
  }

  lemma SumNone(rows: seq<Id>, f: Id -> int)
    ensures SetTotal(SetOf(rows[..0]), f) == 0
  {}

  lemma SumOneMore(rows: seq<Id>, i: nat, f: Id -> int)
    requires i < |rows| && forall j, k :: 0 <= j < k < |rows| ==> rows[j] != rows[k]
    ensures SetTotal(SetOf(rows[..i + 1]), f) == SetTotal(SetOf(rows[..i]), f) + f(rows[i])
  {
    PrefixAdds(rows, i);
    SetTotalAdd(SetOf(rows[..i]), f, rows[i]);
  }

  /** A sum over the rows of a query. */
  method SumOf(rows: seq<Id>, f: Id -> int) returns (sum: int)
    requires forall j, k :: 0 <= j < k < |rows| ==> rows[j] != rows[k]
    ensures sum == SetTotal(SetOf(rows), f)
  {
    sum := 0;
    SumNone(rows, f);
    for i := 0 to |rows|
      invariant sum == SetTotal(SetOf(rows[..i]), f)
    {
      SumOneMore(rows, i, f);
      sum := sum + f(rows[i]);
    }
    assert rows[..|rows|] == rows;
  }

  /** A run's rows in a given state, in id order. */
  method Select(ids: set<Id>) returns (rows: seq<Id>)
    ensures SetOf(rows) == ids && |rows| == |ids|
    ensures forall i, j :: 0 <= i < j < |rows| ==> rows[i] != rows[j]
  {
    rows := Order.Sorted(ids, Order.ById());
  }

  class UploadService {
    var plans: map<Id, Plan>
    var repos: set<Id>
    var runs: map<Id, Run>
    var artifacts: map<Id, Artifact>
    var objects: map<Key, Blob>
    var quota: map<Id, Quota>
    var faults: seq<Fault>

    ghost function View(): Db
      reads this
    {
      Db(repos, runs, artifacts, objects, quota)
    }

    /** Which of these hashes does the organization already hold, and under which key? */
    method ReadHeld(ghost d: Declaration, org: Id, items: seq<Item>) returns (held: map<Hash, Key>)
      requires forall id :: id in artifacts ==> artifacts[id].key.sha == artifacts[id].sha
      requires d.org == org && d.items == items
      ensures HeldBy(artifacts, d.(held := held))
    {
      held := map[];
      for i := 0 to |items|
        invariant forall h :: h in held ==> held[h].sha == h && held[h] in CommittedKeys(artifacts, org)
        invariant forall id, j :: id in artifacts && 0 <= j < i && Holds(artifacts[id], org, items[j].sha) ==> items[j].sha in held
      {
        var sha := items[i].sha;
        if id :| id in artifacts && Holds(artifacts[id], org, sha) {
          held := held[sha := artifacts[id].key];
        }
      }
    }

    /** Writes the rows of a declaration that passed every check. */
    method WriteDeclaration(d: Declaration, ghost plan: Plan, ghost declared: seq<Declared>)
      returns (uploads: seq<Key>, deduplicated: seq<nat>)
      requires Declarable(View(), d, plan) && |declared| == |d.ids|
      requires (forall a :: a in declared ==> WellDeclared(a)) && d.items == ItemsOf(declared)
      requires forall id :: id in artifacts ==> artifacts[id].key.sha == artifacts[id].sha
      modifies this`repos, this`runs, this`artifacts, this`quota
      ensures CountedToday(old(quota), quota, d.org, d.today, plan)
      ensures DeclaredByColumns(old(View()), View(), d.org, d.repo, d.run, d.ids, d.createdAt, declared)
      ensures View() == DeclareRun(old(View()), d)
      ensures uploads == ToSign(d, |d.items|) && deduplicated == AlreadyHeld(d, |d.items|)
    {
      uploads, deduplicated := InsertRows(d, plan);
      DeclareIsByColumns(old(View()), d, declared);
      DeclarationCounts(old(View()), d, plan);
    }

    /** The statements of the transaction. */
    method InsertRows(d: Declaration, ghost plan: Plan) returns (uploads: seq<Key>, deduplicated: seq<nat>)
      requires Declarable(View(), d, plan)
      modifies this`repos, this`runs, this`artifacts, this`quota
      ensures View() == DeclareRun(old(View()), d)
      ensures uploads == ToSign(d, |d.items|) && deduplicated == AlreadyHeld(d, |d.items|)
    {
      repos := repos + {d.repo};
      runs := runs[d.run := Run(d.org, d.repo, d.createdAt, Pending)];
      uploads, deduplicated := [], [];
      for i := 0 to |d.items|
        invariant artifacts == Insert(old(artifacts), d, i)
        invariant quota == old(quota) && repos == old(repos) + {d.repo}
        invariant runs == old(runs)[d.run := Run(d.org, d.repo, d.createdAt, Pending)]
        invariant uploads == ToSign(d, i) && deduplicated == AlreadyHeld(d, i)
      {
        var a := d.items[i];
        if a.sha in d.held {
          artifacts := artifacts[d.ids[i] := Artifact(d.org, d.run, a.frame, a.kind, d.held[a.sha], a.sha, a.bytes, a.bytes, Committed)];
          deduplicated := deduplicated + [i];
        } else {
          var key := Key(d.org, a.sha, a.contentType);
          artifacts := artifacts[d.ids[i] := Artifact(d.org, d.run, a.frame, a.kind, key, a.sha, 0, a.bytes, Pending)];
          uploads := uploads + [key];
        }
      }
      quota := quota[d.org := ReserveBytes(Counters(quota, d.org, d.today), FreshBytes(d.items, d.held))];
    }

    /** The organization may upload, and what it declares is few enough and well formed. */
    predicate Shaped(org: Id, declared: seq<Declared>)
      reads this`plans
    {
      && org in plans && plans[org].uploadAllowed && |declared| <= plans[org].artifactsPerRun
      && NoneTwice(declared) && forall a :: a in declared ==> WellDeclared(a)
    }

    /** Entitlement, then shape, then quota; a refusal leaves everything as it was. `ids` and
        `run` are fresh identifiers. */
    method DeclareUpload(org: Id, repo: Id, run: Id, ids: seq<Id>, now: nat, today: nat, declared: seq<Declared>)
      returns (out: DeclareOutcome, ghost d: Declaration)
      requires WellFormed(View()) && forall id :: id in artifacts ==> artifacts[id].key.sha == artifacts[id].sha
      requires run > 0 && run !in runs && |ids| == |declared|
      requires forall i :: 0 <= i < |ids| ==> ids[i] > 0 && ids[i] !in artifacts
      requires forall i, j :: 0 <= i < j < |ids| ==> ids[i] != ids[j]
      modifies this`repos, this`runs, this`artifacts, this`quota
      ensures out.Refused? ==> View() == old(View())
      ensures org !in plans ==> out == Refused(Malformed)
      ensures out == Refused(NotEntitled) <==> org in plans && !plans[org].uploadAllowed
      ensures out == Refused(ArtifactsPerRun) <==>
                org in plans && plans[org].uploadAllowed && |declared| > plans[org].artifactsPerRun
      ensures org in plans && plans[org].uploadAllowed && |declared| <= plans[org].artifactsPerRun ==>
                (out == Refused(Malformed) <==> !(NoneTwice(declared) && forall a :: a in declared ==> WellDeclared(a)))
      ensures Shaped(org, declared) ==> d == Declaration(org, repo, run, now, today, ItemsOf(declared), ids, d.held)
      ensures out == Refused(BytesPerRun) <==> Shaped(org, declared) && SizesOf(declared) > plans[org].bytesPerRun
      ensures out == Refused(RunsPerDay) <==>
                && Shaped(org, declared) && SizesOf(declared) <= plans[org].bytesPerRun
                && (if org in old(quota) && old(quota)[org].runsDay == today then old(quota)[org].runsToday else 0)
                   >= plans[org].runsPerDay
      ensures out == Refused(BytesStoredMax) ==>
                var q := Counters(old(quota), org, today);
                HeldBy(old(artifacts), d) && q.stored + q.reserved + FreshBytes(d.items, d.held) > plans[org].bytesStoredMax
      ensures out.Accepted? <==> Shaped(org, declared) && Declarable(old(View()), d, plans[org])
      ensures out.Accepted? ==>
                && View() == Step(old(View()), Declaring(d, plans[org]))
                && out == Accepted(ToSign(d, |d.items|), AlreadyHeld(d, |d.items|), FreshBytes(d.items, d.held))
                && CountedToday(old(quota), quota, org, today, plans[org])
                && DeclaredByColumns(old(View()), View(), org, repo, run, ids, now, declared)
    {
      d := Declaration(org, repo, run, now, today, [], [], map[]);
      if org !in plans { return Refused(Malformed), d; }
      var plan := plans[org];
      if !plan.uploadAllowed { return Refused(NotEntitled), d; }
      var bad := Validate(declared, plan);
      if bad.Some? { return Refused(bad.value), d; }
      var items := ItemsOf(declared);
      d := d.(items := items, ids := ids);
      BytesAreTheSizes(declared, items);
      if Bytes(items) > plan.bytesPerRun { return Refused(BytesPerRun), d; }
      var before := Counters(quota, org, today);
      if before.runsToday >= plan.runsPerDay { return Refused(RunsPerDay), d; }
      var held := ReadHeld(d, org, items);
      d := d.(held := held);
      var freshBytes := FreshBytes(items, held);
      if before.stored + before.reserved + freshBytes > plan.bytesStoredMax { return Refused(BytesStoredMax), d; }
      var uploads, deduplicated :=
        WriteDeclaration(Declaration(org, repo, run, now, today, items, ids, held), plan, declared);
      out := Accepted(uploads, deduplicated, freshBytes);
    }

    /** One `storage.delete` of a failing run, the earlier ones having worked. */
    method DeleteNext(ghost before: Db, run: Id, rows: seq<Id>, i: nat) returns (threw: bool)
      requires i < |rows| && SetOf(rows) == PendingRows(before.artifacts, run)
      requires View() == before.(objects := before.objects - KeysAt(before.artifacts, SetOf(rows[..i])))
      modifies this`objects, this`faults
      ensures !threw ==> View() == before.(objects := before.objects - KeysAt(before.artifacts, SetOf(rows[..i + 1])))
      ensures threw ==> BrokenOff(before, View(), run)
      ensures old(faults) == [] ==> !threw && faults == []
    {
      KeysOneMore(before.artifacts, rows, i, run);
      ghost var keys := KeysAt(before.artifacts, SetOf(rows[..i]));
      var key := artifacts[rows[i]].key;
      threw, objects, faults := StorageDelete(objects, faults, key);
      if threw {
        SomeGone(before, View(), run, keys, key);
      } else {
        assert before.objects - keys - {key} == before.objects - (keys + {key});
      }
    }

    /** The objects a run was still waiting for, and what they had reserved. */
    method DeleteObjects(run: Id, rows: seq<Id>) returns (threw: bool, released: int)
      requires SetOf(rows) == PendingRows(artifacts, run)
      requires forall i, j :: 0 <= i < j < |rows| ==> rows[i] != rows[j]
      modifies this`objects, this`faults
      ensures !threw ==> objects == old(objects) - KeysAt(artifacts, SetOf(rows)) && released == SetTotal(SetOf(rows), DeclaredAt(artifacts))
      ensures threw ==> BrokenOff(old(View()), View(), run)
      ensures old(faults) == [] ==> !threw && faults == []
    {
      ghost var before := View();
      threw, released := false, 0;
      SumNone(rows, DeclaredAt(artifacts));
      for i := 0 to |rows|
        invariant View() == before.(objects := before.objects - KeysAt(before.artifacts, SetOf(rows[..i])))
        invariant released == SetTotal(SetOf(rows[..i]), DeclaredAt(artifacts))
        invariant old(faults) == [] ==> faults == []
      {
        assert rows[i] in SetOf(rows);
        SumOneMore(rows, i, DeclaredAt(artifacts));
        threw := DeleteNext(before, run, rows, i);
        if threw { return; }
        released := released + artifacts[rows[i]].declared;
      }
      assert rows[..|rows|] == rows;
    }

    /** Undoes a declared run: its objects, then its pending rows, its reservation, and the run
        row unless committed rows are left. */
    method FailRun(org: Id, run: Id) returns (threw: bool)
      requires run in runs && runs[run].org == org
      modifies this`objects, this`faults, this`artifacts, this`runs, this`quota
      ensures !threw ==> View() == UploadBooks.FailRun(old(View()), run)
      ensures threw ==> BrokenOff(old(View()), View(), run)
      ensures old(faults) == [] ==> !threw && faults == []
    {
      var rows := Select(PendingRows(artifacts, run));
      var released;
      threw, released := DeleteObjects(run, rows);
      if threw { return; }
      artifacts := artifacts - PendingRows(artifacts, run);
      if org in quota {
        quota := quota[org := ReleaseBytes(quota[org], released)];
      }
      runs := DropRun(runs, artifacts, run);
    }

    /** The checks of one commit: `true` when every promised object is there as declared. */
    method Verify(rows: seq<Id>, run: Id, verifyContent: bool) returns (ok: bool)
      requires SetOf(rows) == PendingRows(artifacts, run)
      ensures ok <==> AllArrived(View(), run, verifyContent)
    {
      for i := 0 to |rows|
        invariant forall id :: id in SetOf(rows[..i]) ==> id in artifacts && Arrived(objects, artifacts[id], verifyContent)
      {
        assert rows[i] in SetOf(rows);
        var a := artifacts[rows[i]];
        if a.key !in objects || objects[a.key].size != a.declared || (verifyContent && objects[a.key].sha != a.sha) {
          assert !Arrived(objects, a, verifyContent);
          return false;
        }
        PrefixAdds(rows, i);
      }
      assert rows[..|rows|] == rows;
      ok := true;
    }

    method CommitAll(rows: seq<Id>)
      requires forall id :: id in rows ==> id in artifacts
      modifies this`artifacts
      ensures artifacts == CommitRows(old(artifacts), SetOf(rows))
    {
      for i := 0 to |rows|
        invariant artifacts == CommitRows(old(artifacts), SetOf(rows[..i]))
      {
        var id := rows[i];
        PrefixAdds(rows, i);
        artifacts := artifacts[id := artifacts[id].(bytes := artifacts[id].declared, state := Committed)];
      }
      assert rows[..|rows|] == rows;
    }

    /** The commit of a pending run of an organization that may upload. */
    method CommitPending(org: Id, run: Id, verifyContent: bool) returns (threw: bool, out: CommitOutcome)
      requires run in runs && runs[run].org == org
      modifies this`objects, this`faults, this`artifacts, this`runs, this`quota
      ensures old(faults) == [] ==> !threw && faults == []
      ensures threw ==> BrokenOff(old(View()), View(), run)
      ensures if AllArrived(old(View()), run, verifyContent) then
                && !threw && View() == CommitRun(old(View()), run)
                && out == CommitResult(|RowsOf(old(artifacts), run)|, DeclaredBytes(old(artifacts), PendingRows(old(artifacts), run)))
              else out == Rejected && (!threw ==> View() == UploadBooks.FailRun(old(View()), run))
    {
      threw, out := false, Rejected;
      var rows := Select(PendingRows(artifacts, run));
      assert forall id :: id in rows ==> id in SetOf(rows);
      var ok := Verify(rows, run, verifyContent);
      if !ok {
        threw := FailRun(org, run);
        return;
      }
      var bytes := SumOf(rows, DeclaredAt(artifacts));
      CommitAll(rows);
      if org in quota {
        quota := quota[org := SettleBytes(quota[org], bytes)];
      }
      runs := runs[run := runs[run].(state := Committed)];
      assert RowsOf(artifacts, run) == RowsOf(old(artifacts), run);
      out := CommitResult(|RowsOf(artifacts, run)|, bytes);
    }

    /** Phase 3. A run that is already committed answers the same again; a pending one is
        committed if all its objects arrived as declared, and undone otherwise. */
    method CommitUpload(org: Id, run: Id, verifyContent: bool) returns (threw: bool, out: CommitOutcome)
      modifies this`objects, this`faults, this`artifacts, this`runs, this`quota
      ensures old(faults) == [] ==> !threw && faults == []
      ensures threw ==> run in old(runs) && BrokenOff(old(View()), View(), run)
      ensures !(run in old(runs) && old(runs)[run].org == org) ==> !threw && out == Rejected && View() == old(View())
      ensures run in old(runs) && old(runs)[run].org == org && old(runs)[run].state == Committed ==>
                && !threw && View() == old(View())
                && out == CommitResult(|RowsOf(artifacts, run)|, Total(artifacts, (a: Artifact) => if a.run == run then a.bytes else 0))
      ensures run in old(runs) && old(runs)[run].org == org && old(runs)[run].state == Pending ==>
                if org !in plans then !threw && out == NotAllowed(Malformed) && View() == old(View())
                else if !plans[org].uploadAllowed then !threw && out == NotAllowed(NotEntitled) && View() == old(View())
                else if AllArrived(old(View()), run, verifyContent) then
                  && !threw && View() == Step(old(View()), Committing(run, verifyContent))
                  && out == CommitResult(|RowsOf(old(artifacts), run)|, DeclaredBytes(old(artifacts), PendingRows(old(artifacts), run)))
                else !threw ==> out == Rejected && View() == Step(old(View()), Failing(run))
      ensures run in old(runs) && old(runs)[run].org == org && old(runs)[run].state == Pending
              && org in plans && plans[org].uploadAllowed ==>
                DecidedByWhatIsThere(old(View()), run, verifyContent, threw, out, View())
    {
      threw, out := false, Rejected;
      if run !in runs || runs[run].org != org { return; }
      if runs[run].state == Committed {
        var rows := Select(RowsOf(artifacts, run));
        var bytes := SumOf(rows, BytesAt(artifacts));
        BytesOfRun(artifacts, run);
        return false, CommitResult(|rows|, bytes);
      }
      if org !in plans { return false, NotAllowed(Malformed); }
      if !plans[org].uploadAllowed { return false, NotAllowed(NotEntitled); }
      threw, out := CommitPending(org, run, verifyContent);
      CommitIsDecided(old(View()), run, verifyContent, threw, out, View());
    }

    /** One run of the sweep. */
    method SweepOne(ghost start: Db, stale: seq<Id>, i: nat) returns (threw: bool, dropped: nat, bytes: int)
      requires Listed(start.runs, stale) && i < |stale| && View() == FailAll(start, stale, i)
      modifies this`objects, this`faults, this`artifacts, this`runs, this`quota
      ensures if threw then BrokenOff(FailAll(start, stale, i), View(), stale[i]) else View() == FailAll(start, stale, i + 1)
      ensures dropped == DroppedBy(start, stale, i + 1) - DroppedBy(start, stale, i)
      ensures bytes == ReleasedBy(start, stale, i + 1) - ReleasedBy(start, stale, i)
      ensures old(faults) == [] ==> !threw && faults == []
    {
      var run := stale[i];
      var rows := Select(PendingRows(artifacts, run));
      bytes := SumOf(rows, DeclaredAt(artifacts));
      dropped := |rows|;
      threw := FailRun(runs[run].org, run);
    }

    /** The loop over the runs a sweep takes. */
    method SweepEach(stale: seq<Id>) returns (threw: bool, out: SweepResult)
      requires Listed(runs, stale)
      modifies this`objects, this`faults, this`artifacts, this`runs, this`quota
      ensures old(faults) == [] ==> !threw && faults == []
      ensures !threw ==>
                && View() == FailAll(old(View()), stale, |stale|)
                && out == SweepResult(|stale|, DroppedBy(old(View()), stale, |stale|), ReleasedBy(old(View()), stale, |stale|))
      ensures threw ==> exists i :: 0 <= i < |stale| && BrokenOff(FailAll(old(View()), stale, i), View(), stale[i])
    {
      ghost var start := View();
      threw := false;
      var i, n, bytes := 0, 0, 0;
      while i < |stale|
        invariant 0 <= i <= |stale| && Listed(start.runs, stale)
        invariant View() == FailAll(start, stale, i)
        invariant n == DroppedBy(start, stale, i) && bytes == ReleasedBy(start, stale, i)
        invariant old(faults) == [] ==> faults == []
      {
        var dropped, released;
        threw, dropped, released := SweepOne(start, stale, i);
        n, bytes, i := n + dropped, bytes + released, i + 1;
        if threw { return threw, SweepResult(i, n, bytes); }
      }
      out := SweepResult(|stale|, n, bytes);
    }

    /** Undoes up to `limit` runs that have been pending since before the cut-off, oldest
        first. */
    method SweepAbandonedUploads(cutoff: nat, limit: nat) returns (threw: bool, out: SweepResult)
      modifies this`objects, this`faults, this`artifacts, this`runs, this`quota
      ensures old(faults) == [] ==> !threw && faults == []
      ensures Listed(old(runs), Stale(old(runs), cutoff, limit))
      ensures !threw ==>
                var stale := Stale(old(runs), cutoff, limit);
                && View() == FailAll(old(View()), stale, |stale|)
                && out == SweepResult(|stale|, DroppedBy(old(View()), stale, |stale|), ReleasedBy(old(View()), stale, |stale|))
      ensures threw ==>
                var stale := Stale(old(runs), cutoff, limit);
                exists i :: 0 <= i < |stale| && BrokenOff(FailAll(old(View()), stale, i), View(), stale[i])
      ensures !threw ==> SweptByAge(old(View()), cutoff, limit, View(), out)
    {
      ghost var start := View();
      StaleAreListed(runs, cutoff, limit);
      threw, out := SweepEach(Stale(runs, cutoff, limit));
      if !threw { SweepIsByAge(start, cutoff, limit, out); }
    }
  }
}
