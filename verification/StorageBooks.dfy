/** The quota while uploads, failures and deletions interleave statement by statement: on
    orderly runs no floor is met, reserved bytes are those of pending rows, and stored bytes
    are those settled less those forgotten, each once. */
module StorageBooks {
  import opened Pricing
  import opened Store
  import opened Sums
  import opened UploadRules
  import opened Retention
  import opened UploadBooks
  import opened UploadIntegrity
  import opened UploadAccounts
  import opened StorageSteps
  import opened StorageSound

  function DeclaredOf(org: Id): Artifact -> int { (a: Artifact) => if a.org == org then a.declared else 0 }

  function BytesOf(org: Id): Artifact -> int { (a: Artifact) => if a.org == org then a.bytes else 0 }

  /** Stored bytes are what commits settled less what deletions gave back. */
  ghost predicate StoredExact(settled: map<Id, Artifact>, freed: map<Id, Artifact>, stored: int, org: Id)
  {
    stored == Total(settled, DeclaredOf(org)) - Total(freed, BytesOf(org))
  }

  /** Both counts of one organization are right. */
  ghost predicate CountsExact(s: Scene, org: Id)
    requires org in s.db.quota
  {
    && s.db.quota[org].reserved == PendingTotal(s.db.artifacts, org)
    && StoredExact(s.settled, s.freed, s.db.quota[org].stored, org)
  }

  /** Every committed row has its object, both counts are right, and no floor changed any. */
  ghost predicate Right(s: Scene)
  {
    Sound(s) && !s.clamped && forall org :: org in s.db.quota ==> CountsExact(s, org)
  }

  /** One length per hash, no empty artifact, and a plan limit that does not change. */
  predicate Proper(m: Move, len: Hash -> nat, max: Id -> int)
  {
    match m
    case Declare(d, plan) => Fits(Declaring(d, plan), len, max) && forall i :: i in d.items ==> i.bytes > 0
    case _ => true
  }

  /** The tables without the rows whose bytes are already given back. */
  function Ledger(s: Scene): Db { s.db.(artifacts := s.db.artifacts - s.freed.Keys) }

  predicate CallerPaid(quota: map<Id, Quota>, pc: Pc)
  {
    match pc
    case Commit(org, _, rows, _) => org in quota && forall id :: id in rows ==> rows[id].declared > 0
    case Failure(org, _, rows, _) => org in quota && forall id :: id in rows ==> rows[id].declared > 0
    case Deletion(_, a, _) => a.org in quota && a.bytes > 0
  }

  /** Whatever has left a trace belongs to an organization with a counter row. */
  predicate Paid(s: Scene)
  {
    && (forall id :: id in s.db.artifacts ==> s.db.artifacts[id].declared > 0)
    && (forall c :: c in s.callers ==> CallerPaid(s.db.quota, s.callers[c]))
    && (forall id :: id in s.settled ==> s.settled[id].org in s.db.quota && id in s.ids)
    && (forall id :: id in s.freed ==> s.freed[id].org in s.db.quota)
    && (forall id :: id in s.settled && id in s.db.artifacts ==> s.db.artifacts[id].state == Committed)
  }

  ghost predicate AllStoredExact(quota: map<Id, Quota>, settled: map<Id, Artifact>, freed: map<Id, Artifact>)
  {
    forall org :: org in quota ==> StoredExact(settled, freed, quota[org].stored, org)
  }

  ghost predicate Books(s: Scene, len: Hash -> nat, max: Id -> int)
  {
    match s
    case Scene(db, _, _, _, settled, _, freed, clamped) =>
      Balanced(Ledger(s), len, max) && Paid(s) && AllStoredExact(db.quota, settled, freed) && !clamped
  }

  /** Everything orderly runs keep. */
  ghost predicate Good(s: Scene, len: Hash -> nat, max: Id -> int) { Steady(s) && Books(s, len, max) }

  // ---- Good scenes are right ---------------------------------------------------

  lemma LedgerPending(s: Scene, org: Id)
    requires Steady(s)
    ensures PendingTotal(Ledger(s).artifacts, org) == PendingTotal(s.db.artifacts, org)
  {
    TotalRestrict(s.db.artifacts, Ledger(s).artifacts, PendingBytes(org));
  }

  lemma GoodIsRight(s: Scene, len: Hash -> nat, max: Id -> int)
    requires Good(s, len, max)
    ensures Right(s)
  {
    forall org | org in s.db.quota ensures CountsExact(s, org) {
      LedgerPending(s, org);
    }
  }

  lemma StartIsGood(len: Hash -> nat, max: Id -> int)
    ensures Good(Start(), len, max)
  {}

  // ---- Sums over rows ----------------------------------------------------------

  lemma JoinLess<K, V>(m: map<K, V>, n: map<K, V>, k: K)
    requires m.Keys !! n.Keys && k in n
    ensures k in m + n && (m + n)[k] == n[k] && (m + n) - {k} == m + (n - {k})
  {}

  lemma {:induction false} TotalJoin<K, V>(m: map<K, V>, n: map<K, V>, f: V -> int)
    requires m.Keys !! n.Keys
    ensures Total(m + n, f) == Total(m, f) + Total(n, f)
    decreases |n|
  {
    if n == map[] {
      assert m + n == m;
    } else {
      var k :| k in n;
      JoinLess(m, n, k);
      TotalJoin(m, n - {k}, f);
      TotalRemove(n, f, k);
      TotalRemove(m + n, f, k);
    }
  }

  /** What a caller adds up from the rows it read is what the table declares. */
  lemma PromisedIsDeclared(artifacts: map<Id, Artifact>, rows: map<Id, Artifact>)
    requires forall id :: id in rows ==> id in artifacts && artifacts[id].declared == rows[id].declared
    ensures Promised(rows) == DeclaredBytes(artifacts, rows.Keys)
  {
    var ids: map<Id, Id> := map id: Id | id in rows.Keys :: id;
    TotalSame<Id, Artifact, Id>(rows, DeclaredSize(), ids, DeclaredAt(artifacts));
  }

  lemma PromisedOf(rows: map<Id, Artifact>, org: Id, o: Id)
    requires forall id :: id in rows ==> rows[id].org == org
    ensures Total(rows, DeclaredOf(o)) == if o == org then Promised(rows) else 0
  {
    if o == org {
      TotalSame(rows, DeclaredOf(o), rows, DeclaredSize());
    } else {
      TotalZero(rows, DeclaredOf(o));
    }
  }

  // ---- Declare -----------------------------------------------------------------

  lemma {:induction false} InsertWithout(artifacts: map<Id, Artifact>, gone: set<Id>, d: Declaration, n: nat)
    requires n <= |d.items| == |d.ids| && forall i :: 0 <= i < |d.ids| ==> d.ids[i] !in gone
    ensures Insert(artifacts - gone, d, n) == Insert(artifacts, d, n) - gone
  {
    if n > 0 { InsertWithout(artifacts, gone, d, n - 1); }
  }

  /** Only doomed rows are forgotten, so what a declaration takes is on the ledger. */
  lemma LedgerHolds(s: Scene, d: Declaration, h: Hash)
    requires Steady(s) && HeldBy(s.db.artifacts, d) && AsksForItsOwn(d) && TakesNoDoomed(s, d) && h in d.held
    ensures d.held[h] in CommittedKeys(Ledger(s).artifacts, d.org)
  {
    var i :| 0 <= i < |d.items| && d.items[i].sha == h;
    assert d.items[i] in d.items;
    var id :| id in s.db.artifacts && s.db.artifacts[id].org == d.org && s.db.artifacts[id].state == Committed
              && s.db.artifacts[id].key == d.held[h];
    assert id in s.freed ==> Doomed(s, id);
    assert id in Ledger(s).artifacts;
  }

  lemma LedgerDeclarable(s: Scene, d: Declaration, plan: Plan)
    requires Steady(s) && Possible(s, Declare(d, plan)) && TakesNoDoomed(s, d)
    ensures Declarable(Ledger(s), d, plan)
  {
    forall h | h in d.held ensures d.held[h] in CommittedKeys(Ledger(s).artifacts, d.org) {
      LedgerHolds(s, d, h);
    }
  }

  lemma DeclareLedger(s: Scene, d: Declaration, plan: Plan, len: Hash -> nat, max: Id -> int)
    requires Good(s, len, max) && Possible(s, Declare(d, plan)) && TakesNoDoomed(s, d) && Proper(Declare(d, plan), len, max)
    ensures Balanced(Ledger(Play(s, Declare(d, plan))), len, max)
  {
    LedgerDeclarable(s, d, plan);
    DeclareBalances(Ledger(s), d, plan, len, max);
    InsertWithout(s.db.artifacts, s.freed.Keys, d, |d.items|);
  }

  lemma NewRowsDeclared(artifacts: map<Id, Artifact>, d: Declaration)
    requires IdsFresh(artifacts, d) && forall i :: i in d.items ==> i.bytes > 0
    ensures forall id :: id in Insert(artifacts, d, |d.items|) && id !in artifacts ==> Insert(artifacts, d, |d.items|)[id].declared > 0
  {
    var after := Insert(artifacts, d, |d.items|);
    InsertedRows(artifacts, d, |d.items|);
    forall id | id in after && id !in artifacts ensures after[id].declared > 0 {
      var i :| 0 <= i < |d.items| && id == d.ids[i] && after[id] == RowOf(d, d.items[i]);
      assert d.items[i] in d.items;
    }
  }

  lemma CallersPaid(s: Scene, quota: map<Id, Quota>)
    requires Paid(s) && s.db.quota.Keys <= quota.Keys
    ensures forall c :: c in s.callers ==> CallerPaid(quota, s.callers[c])
  {
    forall c | c in s.callers ensures CallerPaid(quota, s.callers[c]) {
      assert CallerPaid(s.db.quota, s.callers[c]);
    }
  }

  lemma DeclarePaid(s: Scene, d: Declaration, plan: Plan, len: Hash -> nat, max: Id -> int)
    requires Paid(s) && s.settled.Keys <= s.ids && Possible(s, Declare(d, plan)) && Proper(Declare(d, plan), len, max)
    ensures Paid(Play(s, Declare(d, plan)))
  {
    NewRowsDeclared(s.db.artifacts, d);
    InsertedRows(s.db.artifacts, d, |d.items|);
    CallersPaid(s, Play(s, Declare(d, plan)).db.quota);
  }

  lemma NothingStored(s: Scene, org: Id)
    requires Paid(s) && org !in s.db.quota
    ensures StoredExact(s.settled, s.freed, 0, org)
  {
    TotalZero(s.settled, DeclaredOf(org));
    TotalZero(s.freed, BytesOf(org));
  }

  lemma DeclareStored(s: Scene, d: Declaration)
    requires Paid(s) && AllStoredExact(s.db.quota, s.settled, s.freed) && |d.items| == |d.ids|
    ensures AllStoredExact(DeclareRun(s.db, d).quota, s.settled, s.freed)
  {
    var quota := DeclareRun(s.db, d).quota;
    forall org | org in quota ensures StoredExact(s.settled, s.freed, quota[org].stored, org) {
      if org !in s.db.quota { NothingStored(s, org); }
    }
  }

  lemma DeclareBooks(s: Scene, d: Declaration, plan: Plan, len: Hash -> nat, max: Id -> int)
    requires Good(s, len, max) && Possible(s, Declare(d, plan)) && TakesNoDoomed(s, d) && Proper(Declare(d, plan), len, max)
    ensures Books(Play(s, Declare(d, plan)), len, max)
  {
    DeclareLedger(s, d, plan, len, max);
    DeclarePaid(s, d, plan, len, max);
    DeclareStored(s, d);
  }

  // ---- Settle ------------------------------------------------------------------

  /** Rows whose object or bytes are gone are committed. */
  lemma ErasedAreCommitted(s: Scene)
    requires Steady(s)
    ensures forall id :: id in s.db.artifacts && (id in s.erased || id in s.freed) ==> s.db.artifacts[id].state == Committed
  {
    forall id | id in s.db.artifacts && (id in s.erased || id in s.freed) ensures s.db.artifacts[id].state == Committed {
      assert Gone(s.db.runs, s.db.artifacts, s.db.objects, id);
    }
  }

  lemma SettledRun(db: Db, org: Id, run: Id, rows: set<Id>, len: Hash -> nat)
    requires RowsTied(db.artifacts, db.runs, len)
    requires forall id :: id in db.artifacts && db.artifacts[id].run == run && db.artifacts[id].state == Pending ==> id in rows
    ensures var after := SettleRun(db, org, run, rows, DeclaredBytes(db.artifacts, rows)); RowsTied(after.artifacts, after.runs, len)
  {}

  lemma SettledAccounts(
    artifacts: map<Id, Artifact>, quota: map<Id, Quota>, org: Id, rows: set<Id>, o: Id, len: Hash -> nat, max: Id -> int)
    requires PendingOf(artifacts, rows, org, len) && org in quota && o in quota && Account(artifacts, quota[o], o, len, max)
    ensures var after := quota[org := SettleBytes(quota[org], DeclaredBytes(artifacts, rows))];
            Account(CommitRows(artifacts, rows), after[o], o, len, max)
  {
    SettledAccount(artifacts, rows, quota[o], org, o, len, max);
  }

  lemma SettleBalanced(db: Db, org: Id, run: Id, rows: set<Id>, len: Hash -> nat, max: Id -> int)
    requires Balanced(db, len, max) && PendingOf(db.artifacts, rows, org, len) && org in db.quota
    requires forall id :: id in db.artifacts && db.artifacts[id].run == run && db.artifacts[id].state == Pending ==> id in rows
    ensures Balanced(SettleRun(db, org, run, rows, DeclaredBytes(db.artifacts, rows)), len, max)
  {
    var after := SettleRun(db, org, run, rows, DeclaredBytes(db.artifacts, rows));
    SettledRun(db, org, run, rows, len);
    forall o | o in after.quota ensures Account(after.artifacts, after.quota[o], o, len, max) {
      SettledAccounts(db.artifacts, db.quota, org, rows, o, len, max);
    }
    AccountsBalance(after, len, max);
  }

  lemma AccountsBalance(db: Db, len: Hash -> nat, max: Id -> int)
    requires RowsTied(db.artifacts, db.runs, len) && forall r :: r in db.runs ==> db.runs[r].org in db.quota
    requires forall o :: o in db.quota ==> Account(db.artifacts, db.quota[o], o, len, max)
    ensures Balanced(db, len, max)
  {}

  /** What a commit that may settle has in hand. */
  predicate InHand(s: Scene, org: Id, run: Id, rows: map<Id, Artifact>)
  {
    && (forall id :: id in rows ==>
          && id in s.db.artifacts && s.db.artifacts[id] == rows[id] && rows[id].org == org && rows[id].run == run
          && rows[id].state == Pending && rows[id].declared > 0 && id !in s.erased && id !in s.freed && id !in s.settled)
    && (forall id :: id in s.db.artifacts && s.db.artifacts[id].run == run && s.db.artifacts[id].state == Pending ==> id in rows)
  }

  lemma CommitInHand(s: Scene, c: nat)
    requires Steady(s) && Paid(s) && c in s.callers && s.callers[c].Commit? && StillStands(s, s.callers[c].rows)
    ensures InHand(s, s.callers[c].org, s.callers[c].run, s.callers[c].rows) && s.callers[c].org in s.db.quota
  {
    assert PcKnown(s, s.callers[c]) && CallerPaid(s.db.quota, s.callers[c]);
    ErasedAreCommitted(s);
  }

  lemma FailureInHand(s: Scene, c: nat)
    requires Steady(s) && Paid(s) && c in s.callers && s.callers[c].Failure?
    ensures InHand(s, s.callers[c].org, s.callers[c].run, s.callers[c].rows) && s.callers[c].org in s.db.quota
  {
    assert PcKnown(s, s.callers[c]) && CallerPaid(s.db.quota, s.callers[c]);
    assert s.callers[c].rows == Snapshot(s.db.artifacts, s.callers[c].run);
    ErasedAreCommitted(s);
  }

  lemma HandIsPending(s: Scene, org: Id, run: Id, rows: map<Id, Artifact>, len: Hash -> nat)
    requires InHand(s, org, run, rows) && RowsTied(Ledger(s).artifacts, s.db.runs, len)
    ensures PendingOf(Ledger(s).artifacts, rows.Keys, org, len)
  {}

  lemma CommitLess(artifacts: map<Id, Artifact>, gone: set<Id>, rows: set<Id>)
    ensures CommitRows(artifacts, rows) - gone == CommitRows(artifacts - gone, rows)
  {}

  lemma HandOnLedger(s: Scene, org: Id, run: Id, rows: map<Id, Artifact>)
    requires InHand(s, org, run, rows)
    ensures Promised(rows) == DeclaredBytes(Ledger(s).artifacts, rows.Keys)
    ensures StillPending(s.db.artifacts, rows) == rows
  {
    PromisedIsDeclared(Ledger(s).artifacts, rows);
  }

  lemma SettleLedgerIs(s: Scene, c: nat)
    requires c in s.callers && s.callers[c].Commit? && InHand(s, s.callers[c].org, s.callers[c].run, s.callers[c].rows)
    ensures var pc := s.callers[c];
            Ledger(SettleCaller(s, c))
            == SettleRun(Ledger(s), pc.org, pc.run, pc.rows.Keys, DeclaredBytes(Ledger(s).artifacts, pc.rows.Keys))
  {
    var pc := s.callers[c];
    HandOnLedger(s, pc.org, pc.run, pc.rows);
    CommitLess(s.db.artifacts, s.freed.Keys, pc.rows.Keys);
  }

  lemma SettleLedger(s: Scene, c: nat, len: Hash -> nat, max: Id -> int)
    requires c in s.callers && s.callers[c].Commit? && s.callers[c].org in s.db.quota && !s.clamped
    requires Balanced(Ledger(s), len, max) && InHand(s, s.callers[c].org, s.callers[c].run, s.callers[c].rows)
    ensures Balanced(Ledger(SettleCaller(s, c)), len, max) && !SettleCaller(s, c).clamped
  {
    var pc := s.callers[c];
    HandIsPending(s, pc.org, pc.run, pc.rows, len);
    HandOnLedger(s, pc.org, pc.run, pc.rows);
    SettleLedgerIs(s, c);
    ReservationCovers(Ledger(s).artifacts, pc.rows.Keys, s.db.quota[pc.org], pc.org, len, max);
    SettleBalanced(Ledger(s), pc.org, pc.run, pc.rows.Keys, len, max);
  }

  lemma SettlePaid(s: Scene, c: nat)
    requires Paid(s) && c in s.callers && s.callers[c].Commit? && s.callers[c].org in s.db.quota
    requires InHand(s, s.callers[c].org, s.callers[c].run, s.callers[c].rows) && s.callers[c].rows.Keys <= s.ids
    ensures Paid(SettleCaller(s, c))
  {
    CallersPaid(s, SettleCaller(s, c).db.quota);
  }

  lemma SettleStored(s: Scene, c: nat)
    requires AllStoredExact(s.db.quota, s.settled, s.freed) && c in s.callers && s.callers[c].Commit?
    requires InHand(s, s.callers[c].org, s.callers[c].run, s.callers[c].rows)
    ensures AllStoredExact(SettleCaller(s, c).db.quota, SettleCaller(s, c).settled, s.freed)
  {
    var pc := s.callers[c];
    var after := SettleCaller(s, c);
    assert StillPending(s.db.artifacts, pc.rows) == pc.rows;
    forall org | org in after.db.quota ensures StoredExact(after.settled, s.freed, after.db.quota[org].stored, org) {
      TotalJoin(s.settled, pc.rows, DeclaredOf(org));
      PromisedOf(pc.rows, pc.org, org);
    }
  }

  lemma SettleBooks(s: Scene, c: nat, len: Hash -> nat, max: Id -> int)
    requires Good(s, len, max) && Possible(s, Settle(c)) && MaySettle(s, c)
    ensures Books(SettleCaller(s, c), len, max)
  {
    CommitInHand(s, c);
    assert s.callers[c].rows.Keys <= s.ids by { assert PcKnown(s, s.callers[c]); }
    SettleLedger(s, c, len, max);
    SettlePaid(s, c);
    SettleStored(s, c);
  }

  // ---- Finish ------------------------------------------------------------------

  lemma ReleaseBalanced(db: Db, after: Db, org: Id, run: Id, rows: set<Id>, len: Hash -> nat, max: Id -> int)
    requires Balanced(db, len, max) && PendingOf(db.artifacts, rows, org, len) && org in db.quota
    requires after.artifacts == db.artifacts - rows
    requires after.quota == db.quota[org := ReleaseBytes(db.quota[org], DeclaredBytes(db.artifacts, rows))]
    requires forall r :: r in after.runs ==> r in db.runs && after.runs[r] == db.runs[r]
    requires forall id :: id in after.artifacts ==> after.artifacts[id].run in after.runs
    ensures DeclaredBytes(db.artifacts, rows) <= db.quota[org].reserved
    ensures Balanced(after, len, max)
  {
    ReservationCovers(db.artifacts, rows, db.quota[org], org, len, max);
    forall o | o in after.quota ensures Account(after.artifacts, after.quota[o], o, len, max) {
      ReleasedAccount(db.artifacts, rows, db.quota[o], org, o, len, max);
    }
  }

  lemma RunsLess(s: Scene, c: nat)
    requires c in s.callers && s.callers[c].Failure? && forall id :: id in s.db.artifacts ==> s.db.artifacts[id].run in s.db.runs
    ensures var after := FinishCaller(s, c).db;
            && (forall r :: r in after.runs ==> r in s.db.runs && after.runs[r] == s.db.runs[r])
            && (forall id :: id in after.artifacts ==> after.artifacts[id].run in after.runs)
  {}

  lemma LessIsLess(artifacts: map<Id, Artifact>, gone: set<Id>, rows: set<Id>)
    ensures artifacts - rows - gone == artifacts - gone - rows
  {}

  lemma FinishLedger(s: Scene, c: nat, len: Hash -> nat, max: Id -> int)
    requires c in s.callers && s.callers[c].Failure? && s.callers[c].org in s.db.quota && !s.clamped
    requires Balanced(Ledger(s), len, max) && InHand(s, s.callers[c].org, s.callers[c].run, s.callers[c].rows)
    requires s.callers[c].rows.Keys == PendingRows(s.db.artifacts, s.callers[c].run)
    requires forall id :: id in s.db.artifacts ==> s.db.artifacts[id].run in s.db.runs
    ensures Balanced(Ledger(FinishCaller(s, c)), len, max) && !FinishCaller(s, c).clamped
  {
    var pc := s.callers[c];
    HandIsPending(s, pc.org, pc.run, pc.rows, len);
    HandOnLedger(s, pc.org, pc.run, pc.rows);
    RunsLess(s, c);
    LessIsLess(s.db.artifacts, s.freed.Keys, pc.rows.Keys);
    ReleaseBalanced(Ledger(s), Ledger(FinishCaller(s, c)), pc.org, pc.run, pc.rows.Keys, len, max);
  }

  lemma FinishPaid(s: Scene, c: nat)
    requires Paid(s) && c in s.callers && s.callers[c].Failure?
    ensures Paid(FinishCaller(s, c))
  {
    CallersPaid(s, FinishCaller(s, c).db.quota);
  }

  lemma FinishBooks(s: Scene, c: nat, len: Hash -> nat, max: Id -> int)
    requires Good(s, len, max) && Possible(s, Finish(c))
    ensures Books(FinishCaller(s, c), len, max)
  {
    FailureInHand(s, c);
    FailureHoldsAll(s, c);
    FinishLedger(s, c, len, max);
    FinishPaid(s, c);
  }

  lemma FailureHoldsAll(s: Scene, c: nat)
    requires Steady(s) && c in s.callers && s.callers[c].Failure?
    ensures s.callers[c].rows.Keys == PendingRows(s.db.artifacts, s.callers[c].run)
    ensures forall id :: id in s.db.artifacts ==> s.db.artifacts[id].run in s.db.runs
  {
    assert s.callers[c].rows == Snapshot(s.db.artifacts, s.callers[c].run);
  }

  // ---- Deletion ----------------------------------------------------------------

  lemma ForgetBalanced(db: Db, id: Id, len: Hash -> nat, max: Id -> int)
    requires Balanced(db, len, max) && id in db.artifacts && db.artifacts[id].state == Committed && !Shared(db.artifacts, id)
    ensures var a := db.artifacts[id];
            && a.org in db.quota && a.bytes <= db.quota[a.org].stored
            && Balanced(db.(artifacts := db.artifacts - {id}, quota := Forget(db.quota, a.org, a.bytes)), len, max)
  {
    RowStoredCovers(db, id, len, max);
    DeletionBalances(db, id, len, max);
    SameBooks(DeleteArtifact(db, id), DeleteArtifact(db, id).(objects := db.objects), len, max);
  }

  lemma AloneOnLedger(s: Scene, id: Id, a: Artifact)
    requires id in s.db.artifacts && id !in s.freed && s.db.artifacts[id] == a && Alone(s.db.artifacts, id)
    ensures id in Ledger(s).artifacts && Ledger(s).artifacts[id] == a && !Shared(Ledger(s).artifacts, id)
    ensures s.db.artifacts - s.freed[id := a].Keys == Ledger(s).artifacts - {id}
  {}

  lemma ForgetLedger(s: Scene, c: nat, len: Hash -> nat, max: Id -> int)
    requires Deletes(s, c, Erased) && Balanced(Ledger(s), len, max) && !s.clamped
    requires var pc := s.callers[c];
             pc.id in s.db.artifacts && pc.id !in s.freed && s.db.artifacts[pc.id] == pc.row && pc.row.state == Committed
             && Alone(s.db.artifacts, pc.id)
    ensures Balanced(Ledger(ForgetCaller(s, c)), len, max) && !ForgetCaller(s, c).clamped
  {
    var id := s.callers[c].id;
    AloneOnLedger(s, id, s.callers[c].row);
    ForgetBalanced(Ledger(s), id, len, max);
  }

  lemma ForgetPaid(s: Scene, c: nat)
    requires Paid(s) && Deletes(s, c, Erased)
    ensures Paid(ForgetCaller(s, c))
  {
    CallersPaid(s, ForgetCaller(s, c).db.quota);
  }

  lemma ForgetStored(s: Scene, c: nat)
    requires Deletes(s, c, Erased) && AllStoredExact(s.db.quota, s.settled, s.freed) && !ForgetCaller(s, c).clamped
    requires s.callers[c].id in s.db.artifacts && s.callers[c].id !in s.freed && s.callers[c].row.org in s.db.quota
    ensures AllStoredExact(ForgetCaller(s, c).db.quota, s.settled, ForgetCaller(s, c).freed)
  {
    var pc, after := s.callers[c], ForgetCaller(s, c);
    forall org | org in after.db.quota ensures StoredExact(s.settled, after.freed, after.db.quota[org].stored, org) {
      TotalUpdate(s.freed, BytesOf(org), pc.id, pc.row);
    }
  }

  lemma ForgetBooks(s: Scene, c: nat, len: Hash -> nat, max: Id -> int)
    requires Good(s, len, max) && Possible(s, ForgetBytes(c))
    ensures Books(ForgetCaller(s, c), len, max)
  {
    assert PcKnown(s, s.callers[c]) && CallerPaid(s.db.quota, s.callers[c]);
    assert DeletionHolds(s.db.artifacts, s.erased, s.freed, s.callers[c].id, Erased);
    ForgetLedger(s, c, len, max);
    ForgetPaid(s, c);
    ForgetStored(s, c);
  }

  /** A committed row leaves the ledger and nothing is given back. */
  lemma RowOffLedger(l: map<Id, Artifact>, id: Id, q: Quota, org: Id, len: Hash -> nat, max: Id -> int)
    requires Account(l, q, org, len, max) && KeysOwned(l) && (id in l ==> l[id].state == Committed)
    ensures Account(l - {id}, q, org, len, max)
  {
    if id in l {
      TotalRemove(l, PendingBytes(org), id);
      DeletedKeys(l, id, org, len);
    } else {
      assert l - {id} == l;
    }
  }

  lemma DropBalanced(db: Db, id: Id, len: Hash -> nat, max: Id -> int)
    requires Balanced(db, len, max) && (id in db.artifacts ==> db.artifacts[id].state == Committed)
    ensures Balanced(db.(artifacts := db.artifacts - {id}), len, max)
  {
    assert KeysOwned(db.artifacts);
    forall o | o in db.quota ensures Account(db.artifacts - {id}, db.quota[o], o, len, max) {
      RowOffLedger(db.artifacts, id, db.quota[o], o, len, max);
    }
  }

  lemma DropLedger(s: Scene, c: nat, len: Hash -> nat, max: Id -> int)
    requires Balanced(Ledger(s), len, max) && Possible(s, Drop(c)) && PcKnown(s, s.callers[c])
    ensures Balanced(Ledger(Play(s, Drop(c))), len, max)
  {
    var id := s.callers[c].id;
    DropBalanced(Ledger(s), id, len, max);
    LessIsLess(s.db.artifacts, s.freed.Keys, {id});
  }

  lemma DropPaid(s: Scene, c: nat)
    requires Paid(s) && Possible(s, Drop(c))
    ensures Paid(Play(s, Drop(c)))
  {
    CallersPaid(s, s.db.quota);
  }

  lemma DropBooks(s: Scene, c: nat, len: Hash -> nat, max: Id -> int)
    requires Good(s, len, max) && Possible(s, Drop(c))
    ensures Books(Play(s, Drop(c)), len, max)
  {
    assert PcKnown(s, s.callers[c]);
    DropLedger(s, c, len, max);
    DropPaid(s, c);
  }

  // ---- Every move --------------------------------------------------------------

  /** Moves that touch neither rows nor counts. */
  lemma CallerBooks(s: Scene, after: Scene, len: Hash -> nat, max: Id -> int)
    requires Books(s, len, max)
    requires after.db == s.db.(objects := after.db.objects, runs := after.db.runs) && after.ids == s.ids
    requires after.settled == s.settled && after.freed == s.freed && after.clamped == s.clamped
    requires forall r :: r in after.db.runs ==> r in s.db.runs && after.db.runs[r] == s.db.runs[r]
    requires forall id :: id in s.db.artifacts ==> s.db.artifacts[id].run in after.db.runs
    requires forall c :: c in after.callers ==> CallerPaid(s.db.quota, after.callers[c])
    ensures Books(after, len, max)
  {
    SameBooks(Ledger(s), Ledger(after), len, max);
  }

  lemma ReaderReady(s: Scene, m: Move)
    requires Steady(s) && Possible(s, m) && CallerOnly(m)
    ensures forall id :: id in s.db.artifacts ==> s.db.artifacts[id].run in s.db.runs
    ensures m.List? ==> s.db.artifacts[m.id].state == Committed && s.db.artifacts[m.id].bytes == s.db.artifacts[m.id].declared
    ensures m.List? ==> s.db.runs[s.db.artifacts[m.id].run].org == s.db.artifacts[m.id].org
  {}

  lemma ReaderPaid(s: Scene, m: Move)
    requires Paid(s) && Possible(s, m) && CallerOnly(m) && forall r :: r in s.db.runs ==> s.db.runs[r].org in s.db.quota
    requires m.List? ==> s.db.artifacts[m.id].bytes == s.db.artifacts[m.id].declared
    requires m.List? ==> s.db.runs[s.db.artifacts[m.id].run].org == s.db.artifacts[m.id].org
    ensures m.c in Play(s, m).callers && CallerPaid(s.db.quota, Play(s, m).callers[m.c])
  {
    CallersPaid(s, s.db.quota);
  }

  lemma BooksParts(s: Scene, len: Hash -> nat, max: Id -> int)
    requires Books(s, len, max)
    ensures Paid(s) && forall r :: r in s.db.runs ==> s.db.runs[r].org in s.db.quota
  {
    assert Ledger(s).runs == s.db.runs && Ledger(s).quota == s.db.quota;
  }

  lemma ReadersPaid(s: Scene, m: Move)
    requires Steady(s) && Paid(s) && Possible(s, m) && CallerOnly(m) && forall r :: r in s.db.runs ==> s.db.runs[r].org in s.db.quota
    ensures forall c :: c in Play(s, m).callers ==> CallerPaid(s.db.quota, Play(s, m).callers[c])
    ensures forall id :: id in s.db.artifacts ==> s.db.artifacts[id].run in s.db.runs
  {
    ReaderReady(s, m);
    CallersPaid(s, s.db.quota);
    ReaderPaid(s, m);
    ReaderKeeps(s, m);
  }

  lemma ReaderBooks(s: Scene, m: Move, len: Hash -> nat, max: Id -> int)
    requires Steady(s) && Books(s, len, max) && Possible(s, m) && CallerOnly(m)
    ensures Books(Play(s, m), len, max)
  {
    BooksParts(s, len, max);
    ReadersPaid(s, m);
    ReaderKeeps(s, m);
    CallerBooks(s, Play(s, m), len, max);
  }

  lemma ReaderKeeps(s: Scene, m: Move)
    requires Possible(s, m) && CallerOnly(m)
    ensures var after := Play(s, m);
            && after.db == s.db.(objects := after.db.objects) && after.ids == s.ids && after.settled == s.settled
            && after.freed == s.freed && after.clamped == s.clamped
            && forall c :: c in after.callers && c != m.c ==> c in s.callers && after.callers[c] == s.callers[c]
  {}

  lemma OtherKeeps(s: Scene, m: Move)
    requires Possible(s, m) && (m.Transfer? || m.DropRunRow? || m.Stop?)
    ensures var after := Play(s, m);
            && after.db == s.db.(objects := after.db.objects, runs := after.db.runs) && after.ids == s.ids && after.settled == s.settled
            && after.freed == s.freed && after.clamped == s.clamped
            && (forall r :: r in after.db.runs ==> r in s.db.runs && after.db.runs[r] == s.db.runs[r])
            && (forall id :: id in s.db.artifacts && s.db.artifacts[id].run in s.db.runs ==> s.db.artifacts[id].run in after.db.runs)
            && forall c :: c in after.callers ==> c in s.callers && after.callers[c] == s.callers[c]
  {}

  lemma OtherBooks(s: Scene, m: Move, len: Hash -> nat, max: Id -> int)
    requires Good(s, len, max) && Possible(s, m) && (m.Transfer? || m.DropRunRow? || m.Stop?)
    ensures Books(Play(s, m), len, max)
  {
    CallersPaid(s, s.db.quota);
    OtherKeeps(s, m);
    CallerBooks(s, Play(s, m), len, max);
  }

  lemma MoveBooks(s: Scene, m: Move, len: Hash -> nat, max: Id -> int)
    requires Good(s, len, max) && Orderly(s, m) && Proper(m, len, max)
    ensures Books(Play(s, m), len, max)
  {
    if !Possible(s, m) {
    } else if m.Declare? {
      DeclareBooks(s, m.d, m.plan, len, max);
    } else if m.Settle? {
      SettleBooks(s, m.c, len, max);
    } else if m.Finish? {
      FinishBooks(s, m.c, len, max);
    } else if m.ForgetBytes? {
      ForgetBooks(s, m.c, len, max);
    } else if m.Drop? {
      DropBooks(s, m.c, len, max);
    } else if CallerOnly(m) {
      ReaderBooks(s, m, len, max);
    } else {
      OtherBooks(s, m, len, max);
    }
  }

  lemma MoveGood(s: Scene, m: Move, len: Hash -> nat, max: Id -> int)
    requires Good(s, len, max) && Orderly(s, m) && Proper(m, len, max)
    ensures Good(Play(s, m), len, max)
  {
    MoveSteady(s, m);
    MoveBooks(s, m, len, max);
  }

  ghost predicate AllProper(moves: seq<Move>, len: Hash -> nat, max: Id -> int)
  {
    forall i :: 0 <= i < |moves| ==> Proper(moves[i], len, max)
  }

  lemma {:induction false} OrderlyRunsAreGood(s: Scene, moves: seq<Move>, len: Hash -> nat, max: Id -> int)
    requires Good(s, len, max) && AllOrderly(s, moves) && AllProper(moves, len, max)
    ensures Good(PlayAll(s, moves), len, max)
  {
    if moves != [] {
      var before, last := moves[..|moves| - 1], moves[|moves| - 1];
      OrderlyRunsAreGood(s, before, len, max);
      MoveGood(PlayAll(s, before), last, len, max);
    }
  }

  /** From empty tables, however uploads, failures, sweeps and deletions interleave statement by
      statement: on orderly runs committed rows have their objects, both counts are exact, and
      no floor ever changes one. */
  lemma {:induction false} OrderlyRunsAreRight(moves: seq<Move>, len: Hash -> nat, max: Id -> int)
    requires AllOrderly(Start(), moves) && AllProper(moves, len, max)
    ensures Right(PlayAll(Start(), moves)) && Balanced(Ledger(PlayAll(Start(), moves)), len, max)
  {
    StartIsGood(len, max);
    OrderlyRunsAreGood(Start(), moves, len, max);
    GoodIsRight(PlayAll(Start(), moves), len, max);
  }
}
