/** CI batches (src/ciBatch.ts 113-367): reservations taken at enqueue, one per frame, and
    settled or given back when the batch is collected, minutes or hours later. */
module CiBatch {
  import opened Pricing
  import opened Sums
  import opened Tables
  import opened Ledger
  import opened CreditBooks
  import opened ProviderBudget
  import opened EconomicPath
  import opened Usage

  /** A flagged frame: is it in the result cache, does its evidence hold a credential,
      and the id its reservation will get. */
  datatype Frame = Frame(name: Id, cached: bool, secret: bool, reservationId: Id)

  datatype Entry = Entry(frame: Id, req: CallRequest, handle: Handle)

  datatype Status = Pending | Collected

  datatype Batch = Batch(status: Status, entries: seq<Entry>)

  datatype SkipReason =
    | Paused | OverCap | SecretFound
    | ModelUnpriced | SpendUnderReview | TooFewCredits // what `reserveBoth` refused for
    | SubmissionFailed

  datatype EnqueueOutcome = EnqueueOutcome(batch: Option<Id>, cached: seq<Id>, skipped: seq<(Id, SkipReason)>)

  datatype CollectOutcome = UnknownBatch | CollectOutcome(done: bool, findings: seq<Id>, failures: seq<Id>)

  /** What became of one flagged frame. */
  datatype Verdict = Served | Batched | Skipped(reason: SkipReason)

  /** The frames of a batch, in order. */
  function BatchOf(frames: seq<Frame>, verdicts: seq<Verdict>): seq<Frame>
    requires |verdicts| <= |frames|
  {
    if verdicts == [] then []
    else
      var n := |verdicts| - 1;
      BatchOf(frames, verdicts[..n]) + if verdicts[n] == Batched then [frames[n]] else []
  }

  function ServedOf(frames: seq<Frame>, verdicts: seq<Verdict>): seq<Id>
    requires |verdicts| <= |frames|
  {
    if verdicts == [] then []
    else
      var n := |verdicts| - 1;
      ServedOf(frames, verdicts[..n]) + if verdicts[n] == Served then [frames[n].name] else []
  }

  function SkippedOf(frames: seq<Frame>, verdicts: seq<Verdict>): seq<(Id, SkipReason)>
    requires |verdicts| <= |frames|
  {
    if verdicts == [] then []
    else
      var n := |verdicts| - 1;
      SkippedOf(frames, verdicts[..n]) + if verdicts[n].Skipped? then [(frames[n].name, verdicts[n].reason)] else []
  }

  function ReasonFor(refusal: Admission): SkipReason
    requires !refusal.Held?
  {
    match refusal
    case ModelNotPriced => ModelUnpriced
    case ProviderBudgetExhausted(_, _) => SpendUnderReview
    case InsufficientCredits => TooFewCredits
  }

  /** A reason that speaks of money is true of what is left: no price, a ceiling the call would
      break, too few credits. */
  ghost predicate TrueReason(m: Means, monthOf: nat -> nat, req: CallRequest, r: SkipReason)
  {
    var max := HardMaxCost(req.model, req.batch);
    match r
    case ModelUnpriced => max.None?
    case SpendUnderReview => max.Some? && Full(m.db, m.usage, monthOf, BudgetRequest(req), max.value)
    case TooFewCredits => max.Some? && req.credits > 0 && BalanceOf(m.grants, req.org, req.now) < req.credits
    case _ => true
  }

  /** The first of the three checks that fails gives the reason; if none does the frame is in. */
  ghost predicate Judged(m: Means, monthOf: nat -> nat, req: CallRequest, v: Verdict)
  {
    var max := HardMaxCost(req.model, req.batch);
    && (v == Skipped(ModelUnpriced) <==> max.None?)
    && (v == Skipped(SpendUnderReview) <==> max.Some? && Full(m.db, m.usage, monthOf, BudgetRequest(req), max.value))
    && (v == Skipped(TooFewCredits) <==>
          && max.Some? && !Full(m.db, m.usage, monthOf, BudgetRequest(req), max.value)
          && req.credits > 0 && BalanceOf(m.grants, req.org, req.now) < req.credits)
    && (v == Batched <==> !Unaffordable(m, monthOf, req))
  }

  lemma StillTrue(before: Means, after: Means, monthOf: nat -> nat, req: CallRequest, r: SkipReason)
    requires Tighter(before, after) && TrueReason(before, monthOf, req, r)
    ensures TrueReason(after, monthOf, req, r)
  {
    var max := HardMaxCost(req.model, req.batch);
    match r
    case SpendUnderReview =>
      var s: Scope :| Breaks(before.db, before.usage, monthOf, BudgetRequest(req), s, max.value);
      BreaksStill(before, after, monthOf, BudgetRequest(req), s, max.value);
    case TooFewCredits => TotalLe(after.grants, Balances(req.org, req.now), before.grants, Balances(req.org, req.now));
    case _ =>
  }

  /** A cached frame is served, even over the cap; a full batch turns the others away before
      their evidence is looked at; a credential in it keeps the frame out. */
  predicate Fair(f: Frame, taken: nat, v: Verdict)
  {
    && (v == Served <==> f.cached)
    && (v == Skipped(OverCap) <==> !f.cached && taken >= 5)
    && (v == Skipped(SecretFound) <==> !f.cached && taken < 5 && f.secret)
    && v != Skipped(Paused) && v != Skipped(SubmissionFailed)
  }

  ghost predicate AllFair(frames: seq<Frame>, verdicts: seq<Verdict>)
    requires |verdicts| <= |frames|
  {
    verdicts == [] ||
    (var n := |verdicts| - 1;
     AllFair(frames, verdicts[..n]) && Fair(frames[n], |BatchOf(frames, verdicts[..n])|, verdicts[n]))
  }

  function RequestFor(f: Frame, template: CallRequest): CallRequest
  {
    template.(reservationId := f.reservationId, batch := true)
  }

  ghost predicate MadeFrom(entries: seq<Entry>, frames: seq<Frame>, template: CallRequest)
  {
    && |entries| == |frames|
    && forall k :: 0 <= k < |entries| ==> entries[k].frame == frames[k].name && entries[k].req == RequestFor(frames[k], template)
  }

  /** The lists that are handed out tell what became of the frames so far. */
  ghost predicate Told(
    frames: seq<Frame>, template: CallRequest, verdicts: seq<Verdict>,
    entries: seq<Entry>, cached: seq<Id>, skipped: seq<(Id, SkipReason)>)
  {
    && |verdicts| <= |frames|
    && AllFair(frames, verdicts)
    && cached == ServedOf(frames, verdicts) && skipped == SkippedOf(frames, verdicts)
    && MadeFrom(entries, BatchOf(frames, verdicts), template)
  }

  lemma TellOne(
    frames: seq<Frame>, template: CallRequest, verdicts: seq<Verdict>,
    entries: seq<Entry>, cached: seq<Id>, skipped: seq<(Id, SkipReason)>, v: Verdict, more: seq<Entry>)
    requires Told(frames, template, verdicts, entries, cached, skipped) && |verdicts| < |frames|
    requires Fair(frames[|verdicts|], |entries|, v) && |more| == (if v == Batched then 1 else 0)
    requires more != [] ==> MadeFrom(more, [frames[|verdicts|]], template)
    ensures var f := frames[|verdicts|];
            Told(frames, template, verdicts + [v], entries + more,
              if v == Served then cached + [f.name] else cached,
              if v.Skipped? then skipped + [(f.name, v.reason)] else skipped)
  {
    var all := verdicts + [v];
    assert all[..|verdicts|] == verdicts;
    assert MadeFrom(entries + more, BatchOf(frames, verdicts) + if v == Batched then [frames[|verdicts|]] else [], template);
  }

  /** Every frame of a batch that could not be submitted is reported as such, in order. */
  function NotSubmitted(entries: seq<Entry>): (skipped: seq<(Id, SkipReason)>)
    ensures |skipped| == |entries|
    ensures forall k :: 0 <= k < |entries| ==> skipped[k].0 == entries[k].frame && skipped[k].1 == SubmissionFailed
  {
    seq(|entries|, k requires 0 <= k < |entries| => (entries[k].frame, SubmissionFailed))
  }

  /** What the caller of an enqueue is told, frame by frame. */
  ghost predicate Enqueued(
    frames: seq<Frame>, template: CallRequest, submits: bool,
    verdicts: seq<Verdict>, accepted: seq<Entry>, out: EnqueueOutcome)
  {
    && |verdicts| == |frames|
    && Told(frames, template, verdicts, accepted, out.cached, SkippedOf(frames, verdicts))
    && (out.batch.Some? <==> submits && accepted != [])
    && out.skipped == SkippedOf(frames, verdicts) + if out.batch.Some? then [] else NotSubmitted(accepted)
  }

  function IdOf(e: Entry): Id { e.handle.reservationId }

  /** Each frame is to have a reservation of its own... */
  predicate OwnReservations(frames: seq<Frame>)
  {
    forall i, j :: 0 <= i < j < |frames| ==> frames[i].reservationId != frames[j].reservationId
  }

  /** ...which those from `n` on do not have yet. */
  ghost predicate Ahead(frames: seq<Frame>, n: nat, rows: map<Id, Reservation>)
  {
    forall j :: n <= j < |frames| ==> frames[j].reservationId !in rows
  }

  lemma OneLessAhead(frames: seq<Frame>, i: nat, before: map<Id, Reservation>, after: map<Id, Reservation>)
    requires i < |frames| && OwnReservations(frames) && Ahead(frames, i, before)
    requires after.Keys <= before.Keys + {frames[i].reservationId}
    ensures Ahead(frames, i + 1, after)
  {}

  ghost predicate Holding(calls: map<Id, Call>, e: Entry)
  {
    && IdOf(e) in calls && calls[IdOf(e)] == Call(e.handle.credit, e.req.credits, InFlight)
    && e.req.reservationId == IdOf(e)
  }

  ghost predicate AllHolding(calls: map<Id, Call>, entries: seq<Entry>)
  {
    && (forall i :: 0 <= i < |entries| ==> Holding(calls, entries[i]))
    && (forall i, j :: 0 <= i < j < |entries| ==> IdOf(entries[i]) != IdOf(entries[j]))
  }

  ghost predicate PendingHold(calls: map<Id, Call>, batches: map<Id, Batch>)
  {
    && (forall b :: b in batches && batches[b].status == Pending ==> AllHolding(calls, batches[b].entries))
    && (forall b, c, i, j :: b in batches && c in batches && b != c
          && batches[b].status == Pending && batches[c].status == Pending
          && 0 <= i < |batches[b].entries| && 0 <= j < |batches[c].entries|
          ==> IdOf(batches[b].entries[i]) != IdOf(batches[c].entries[j]))
  }

  /** The same grants, with some credits moved. */
  ghost predicate SameGrants(before: Grants, after: Grants)
  {
    && before.Keys == after.Keys
    && forall g :: g in before ==> after[g] == before[g].(remaining := after[g].remaining)
  }

  /** Between two good states that differ only by calls that were refunded, every grant
      holds exactly what it held. */
  lemma OnlyRefundedCallsAdded(b: Books, c: Books)
    requires Good(b) && Good(c) && SameGrants(b.grants, c.grants)
    requires forall id :: id in b.calls ==> id in c.calls && c.calls[id] == b.calls[id]
    requires forall id :: id in c.calls && id !in b.calls ==> c.calls[id].status == Returned
    ensures b.grants == c.grants
  {
    forall g | g in b.grants ensures c.grants[g] == b.grants[g] {
      assert GrantConserved(b, g) && GrantConserved(c, g);
      TotalRestrict(c.calls, b.calls, TakenIf(InFlight, g));
      TotalRestrict(c.calls, b.calls, TakenIf(Paid, g));
    }
  }

  ghost predicate Succeeds(results: map<Id, ProviderResult>, e: Entry)
  {
    e.frame in results && results[e.frame].Accepted?
  }

  /** An entry's call once its batch is collected. */
  ghost predicate Finished(calls: map<Id, Call>, results: map<Id, ProviderResult>, e: Entry)
  {
    && IdOf(e) in calls
    && calls[IdOf(e)] == Call(e.handle.credit, e.req.credits, if Succeeds(results, e) then Paid else Returned)
  }

  /** The frames that succeeded, in order. */
  ghost function Findings(entries: seq<Entry>, results: map<Id, ProviderResult>): seq<Id>
  {
    if entries == [] then []
    else
      var n := |entries| - 1;
      Findings(entries[..n], results) + if Succeeds(results, entries[n]) then [entries[n].frame] else []
  }

  /** And those that did not. */
  ghost function Failures(entries: seq<Entry>, results: map<Id, ProviderResult>): seq<Id>
  {
    if entries == [] then []
    else
      var n := |entries| - 1;
      Failures(entries[..n], results) + if Succeeds(results, entries[n]) then [] else [entries[n].frame]
  }

  ghost predicate Reported(
    entries: seq<Entry>, results: map<Id, ProviderResult>, findings: seq<Id>, failures: seq<Id>)
  {
    findings == Findings(entries, results) && failures == Failures(entries, results)
  }

  /** A batch call whose model lost its price is booked at nothing. */
  ghost function BatchCost(e: Entry, results: map<Id, ProviderResult>): int
    requires Succeeds(results, e)
  {
    match ComputeCost(e.req.model, results[e.frame].usage, true)
    case None => 0
    case Some(cost) => cost
  }

  ghost function FinishRow(db: Db, e: Entry, results: map<Id, ProviderResult>, now: Time): Db
  {
    if Succeeds(results, e) then SettleRow(db, IdOf(e), BatchCost(e, results), now) else ReleaseRow(db, IdOf(e))
  }

  /** What collecting does to the provider's dollars. */
  ghost function FinishRows(db: Db, entries: seq<Entry>, results: map<Id, ProviderResult>, now: Time): Db
  {
    if entries == [] then db
    else
      var n := |entries| - 1;
      FinishRow(FinishRows(db, entries[..n], results, now), entries[n], results, now)
  }

  /** What finishing one entry writes to the meter: a charged event with the rows that say who
      paid, or an event of a failed call that costs nothing. */
  ghost predicate MeteredOne(
    before: map<Id, Metered>, after: map<Id, Metered>, e: Entry, results: map<Id, ProviderResult>, now: Time, grants: Grants)
  {
    match e
    case Entry(_, req, handle) =>
      if Succeeds(results, e) then
        RecordsCharge(before, after, UsageEvent(req.org, req.key, Charged, BatchCost(e, results), req.credits, now), handle.credit, grants)
      else RecordsFree(before, after, UsageEvent(req.org, req.key, FailedNoCharge, 0, 0, now))
  }

  /** And collecting a batch: one row for each entry, in order, and no other. */
  ghost predicate MeteredEach(
    before: map<Id, Metered>, after: map<Id, Metered>, entries: seq<Entry>, results: map<Id, ProviderResult>, now: Time,
    grants: Grants)
    decreases |entries|
  {
    if entries == [] then after == before
    else
      var n := |entries| - 1;
      exists mid: map<Id, Metered> ::
        MeteredEach(before, mid, entries[..n], results, now, grants) && MeteredOne(mid, after, entries[n], results, now, grants)
  }

  /** Giving credits back changes no grant's kind. */
  predicate SameKinds(a: Grants, b: Grants)
  {
    a.Keys == b.Keys && forall g :: g in a ==> b[g].kind == a[g].kind
  }

  lemma PaidWhateverRemains(sources: map<Id, Source>, list: seq<Consumption>, a: Grants, b: Grants, cost: int)
    requires PaidBy(sources, list, a, cost) && SameKinds(a, b)
    ensures PaidBy(sources, list, b, cost)
  {}

  lemma MeteredWhateverRemains(
    before: map<Id, Metered>, after: map<Id, Metered>, e: Entry, results: map<Id, ProviderResult>, now: Time, a: Grants, b: Grants)
    requires MeteredOne(before, after, e, results, now, a) && SameKinds(a, b)
    ensures MeteredOne(before, after, e, results, now, b)
  {
    if Succeeds(results, e) {
      var event := UsageEvent(e.req.org, e.req.key, Charged, BatchCost(e, results), e.req.credits, now);
      var id :| id !in before && id in after && after == before[id := after[id]]
                && after[id].event == event && PaidBy(after[id].sources, e.handle.credit, a, event.cost);
      PaidWhateverRemains(after[id].sources, e.handle.credit, a, b, event.cost);
      assert RecordsCharge(before, after, event, e.handle.credit, b);
    }
  }

  lemma {:induction false} MeteredOneMore(
    before: map<Id, Metered>, mid: map<Id, Metered>, after: map<Id, Metered>, entries: seq<Entry>, i: nat,
    results: map<Id, ProviderResult>, now: Time, grants: Grants, left: Grants)
    requires i < |entries| && MeteredEach(before, mid, entries[..i], results, now, grants)
    requires MeteredOne(mid, after, entries[i], results, now, left) && SameKinds(left, grants)
    ensures MeteredEach(before, after, entries[..i + 1], results, now, grants)
  {
    MeteredWhateverRemains(mid, after, entries[i], results, now, left, grants);
    assert entries[..i + 1][..i] == entries[..i];
  }

  lemma OneMore(db: Db, entries: seq<Entry>, i: nat, results: map<Id, ProviderResult>, now: Time)
    requires i < |entries|
    ensures FinishRows(db, entries[..i + 1], results, now)
            == FinishRow(FinishRows(db, entries[..i], results, now), entries[i], results, now)
    ensures Findings(entries[..i + 1], results)
            == if Succeeds(results, entries[i]) then Findings(entries[..i], results) + [entries[i].frame]
               else Findings(entries[..i], results)
    ensures Failures(entries[..i + 1], results)
            == if Succeeds(results, entries[i]) then Failures(entries[..i], results)
               else Failures(entries[..i], results) + [entries[i].frame]
  {
    assert entries[..i + 1][..i] == entries[..i];
  }

  /** Nothing about this entry is left to do. */
  ghost predicate Done(db: Db, e: Entry, results: map<Id, ProviderResult>)
  {
    IdOf(e) in db.rows ==>
      if Succeeds(results, e) then !Settleable(db.rows[IdOf(e)]) else db.rows[IdOf(e)].state != Reserved
  }

  lemma DoneStays(db: Db, d: Entry, e: Entry, results: map<Id, ProviderResult>, now: Time)
    requires d == e || Done(db, d, results)
    ensures Done(FinishRow(db, e, results, now), d, results)
  {}

  lemma {:induction false} AllDone(db: Db, entries: seq<Entry>, results: map<Id, ProviderResult>, now: Time)
    ensures forall e :: e in entries ==> Done(FinishRows(db, entries, results, now), e, results)
  {
    if entries != [] {
      var n := |entries| - 1;
      AllDone(db, entries[..n], results, now);
      forall e | e in entries ensures Done(FinishRows(db, entries, results, now), e, results) {
        assert e in entries[..n] || e == entries[n];
        DoneStays(FinishRows(db, entries[..n], results, now), e, entries[n], results, now);
      }
    }
  }

  lemma {:induction false} NothingLeftToDo(db: Db, entries: seq<Entry>, results: map<Id, ProviderResult>, now: Time)
    requires forall e :: e in entries ==> Done(db, e, results)
    ensures FinishRows(db, entries, results, now) == db
  {
    if entries != [] {
      var n := |entries| - 1;
      NothingLeftToDo(db, entries[..n], results, now);
      assert entries[n] in entries;
    }
  }

  /** A second collector of the same results, whenever it comes, books nothing more. */
  lemma CollectingTwiceBooksOnce(db: Db, entries: seq<Entry>, results: map<Id, ProviderResult>, now: Time, later: Time)
    ensures var once := FinishRows(db, entries, results, now);
            FinishRows(once, entries, results, later) == once
  {
    AllDone(db, entries, results, now);
    NothingLeftToDo(FinishRows(db, entries, results, now), entries, results, later);
  }

  function Ids(entries: seq<Entry>): set<Id>
  {
    set i | 0 <= i < |entries| :: IdOf(entries[i])
  }

  lemma IdsAppend(entries: seq<Entry>, e: Entry)
    ensures Ids(entries + [e]) == Ids(entries) + {IdOf(e)}
  {
    forall x | x in Ids(entries) ensures x in Ids(entries + [e]) {
      var i :| 0 <= i < |entries| && IdOf(entries[i]) == x;
      assert (entries + [e])[i] == entries[i];
    }
    assert (entries + [e])[|entries|] == e;
  }

  /** The state of the enqueue loop: exactly the accepted entries were added to the calls,
      they hold their reservations, and no other new reservation is live. */
  ghost predicate Accepting(
    before: Books, oldRows: map<Id, Reservation>, b: Books, rows: map<Id, Reservation>, entries: seq<Entry>)
  {
    && SameGrants(before.grants, b.grants)
    && AllHolding(b.calls, entries)
    && before.calls.Keys !! Ids(entries) && b.calls.Keys == before.calls.Keys + Ids(entries)
    && (forall c :: c in before.calls ==> c in b.calls && b.calls[c] == before.calls[c])
    && oldRows.Keys !! Ids(entries) && Ids(entries) <= rows.Keys
    && (forall id :: id in rows && id !in oldRows ==>
          rows[id].state == (if id in Ids(entries) then Reserved else Released))
  }

  lemma AcceptMore(
    before: Books, oldRows: map<Id, Reservation>, b: Books, rows: map<Id, Reservation>, entries: seq<Entry>,
    grants: Grants, e: Entry, row: Reservation)
    requires Accepting(before, oldRows, b, rows, entries)
    requires SameGrants(b.grants, grants) && row.state == Reserved
    requires IdOf(e) !in rows && IdOf(e) !in oldRows && IdOf(e) !in b.calls && e.req.reservationId == IdOf(e)
    ensures Accepting(before, oldRows,
              CreditBooks.Books(grants, b.calls[IdOf(e) := Call(e.handle.credit, e.req.credits, InFlight)]),
              rows[IdOf(e) := row], entries + [e])
  {
    IdsAppend(entries, e);
    forall i | 0 <= i < |entries| ensures IdOf(entries[i]) in b.calls {}
  }

  lemma RefuseMore(
    before: Books, oldRows: map<Id, Reservation>, b: Books, rows: map<Id, Reservation>, entries: seq<Entry>,
    after: map<Id, Reservation>)
    requires Accepting(before, oldRows, b, rows, entries)
    requires forall id :: id in rows ==> id in after && after[id] == rows[id]
    requires forall id :: id in after && id !in rows ==> after[id].state == Released
    ensures Accepting(before, oldRows, b, after, entries)
  {}

  /** Which reservation id a call is given plays no part in whether it can be held. */
  function VerdictOf(out: Admission): Verdict
  {
    if out.Held? then Batched else Skipped(ReasonFor(out))
  }

  lemma AllStillTrue(before: Means, after: Means, monthOf: nat -> nat, req: CallRequest, verdicts: seq<Verdict>, v: Verdict, judged: bool)
    requires Tighter(before, after) && forall r :: Skipped(r) in verdicts ==> TrueReason(before, monthOf, req, r)
    requires if judged then Judged(before, monthOf, req, v) else v in {Served, Skipped(OverCap), Skipped(SecretFound)}
    ensures forall r :: Skipped(r) in verdicts + [v] ==> TrueReason(after, monthOf, req, r)
  {
    forall r | Skipped(r) in verdicts + [v] ensures TrueReason(after, monthOf, req, r) {
      StillTrue(before, after, monthOf, req, r);
    }
  }

  lemma AnyFrameAlike(m: Means, monthOf: nat -> nat, f: Frame, template: CallRequest, max: int)
    ensures Full(m.db, m.usage, monthOf, BudgetRequest(RequestFor(f, template)), max)
         == Full(m.db, m.usage, monthOf, BudgetRequest(template.(batch := true)), max)
  {
    var r, t := RequestFor(f, template), template.(batch := true);
    forall s: Scope
      ensures Breaks(m.db, m.usage, monthOf, BudgetRequest(r), s, max) == Breaks(m.db, m.usage, monthOf, BudgetRequest(t), s, max) {
    }
  }

  /** What `reserveBoth` says of one frame is the verdict on it. */
  lemma AdmissionJudges(m: Means, monthOf: nat -> nat, f: Frame, template: CallRequest, out: Admission)
    requires var req := RequestFor(f, template);
             && (out.Held? <==> !Unaffordable(m, monthOf, req))
             && (out.ModelNotPriced? <==> HardMaxCost(req.model, req.batch).None?)
             && (out.ProviderBudgetExhausted? ==> Full(m.db, m.usage, monthOf, BudgetRequest(req), HardMaxCost(req.model, req.batch).value))
             && (out.InsufficientCredits? ==>
                   && req.credits > 0 && BalanceOf(m.grants, req.org, req.now) < req.credits
                   && !Full(m.db, m.usage, monthOf, BudgetRequest(req), HardMaxCost(req.model, req.batch).value))
    ensures Judged(m, monthOf, template.(batch := true), VerdictOf(out))
  {
    var req := RequestFor(f, template);
    if HardMaxCost(req.model, req.batch).Some? { AnyFrameAlike(m, monthOf, f, template, HardMaxCost(req.model, req.batch).value); }
  }

  /** The state of the unwinding: the first `i` entries have been given back. */
  ghost predicate Unwinding(
    before: Books, oldRows: map<Id, Reservation>, b: Books, rows: map<Id, Reservation>, entries: seq<Entry>, i: nat)
    requires i <= |entries|
  {
    && SameGrants(before.grants, b.grants)
    && AllHolding(b.calls, entries[i..])
    && before.calls.Keys !! Ids(entries) && b.calls.Keys == before.calls.Keys + Ids(entries)
    && (forall c :: c in before.calls ==> b.calls[c] == before.calls[c])
    && (forall c :: c in b.calls && c !in before.calls && c !in Ids(entries[i..]) ==> b.calls[c].status == Returned)
    && oldRows.Keys !! Ids(entries) && Ids(entries) <= rows.Keys
    && (forall id :: id in rows && id !in oldRows ==>
          rows[id].state == (if id in Ids(entries[i..]) then Reserved else Released))
  }

  lemma IdsDrop(entries: seq<Entry>, i: nat)
    requires i < |entries|
    requires forall j, k :: 0 <= j < k < |entries| ==> IdOf(entries[j]) != IdOf(entries[k])
    ensures Ids(entries[i + 1..]) == Ids(entries[i..]) - {IdOf(entries[i])}
    ensures IdOf(entries[i]) in Ids(entries[i..]) && Ids(entries[i..]) <= Ids(entries)
  {}

  lemma UnwindOne(
    before: Books, oldRows: map<Id, Reservation>, b: Books, rows: map<Id, Reservation>, entries: seq<Entry>, i: nat,
    grants: Grants, row: Reservation)
    requires i < |entries| && Unwinding(before, oldRows, b, rows, entries, i)
    requires forall j, k :: 0 <= j < k < |entries| ==> IdOf(entries[j]) != IdOf(entries[k])
    requires SameGrants(b.grants, grants) && row.state == Released
    ensures var e := entries[i];
            Unwinding(before, oldRows,
              CreditBooks.Books(grants, b.calls[IdOf(e) := Call(e.handle.credit, e.req.credits, Returned)]),
              rows[IdOf(e) := row], entries, i + 1)
  {
    IdsDrop(entries, i);
    var rest, later := entries[i..], entries[i + 1..];
    assert rest[1..] == later && rest[0] == entries[i];
    forall k | 0 <= k < |later| ensures IdOf(later[k]) != IdOf(entries[i]) && later[k] == rest[1..][k] {
      assert later[k] == entries[i + 1 + k];
    }
  }

  class CiBatches {
    const path: MoneyPath
    var batches: map<Id, Batch>

    constructor (path: MoneyPath)
      requires path.Valid()
      ensures Valid() && batches == map[] && this.path == path
    {
      this.path := path;
      batches := map[];
    }

    ghost predicate Valid()
      reads this, path, path.budget, path.ledger, path.meter
    {
      path.Valid() && PendingHold(path.calls, batches)
    }

    /** Reserves for at most five uncached, unblocked frames, submits them as one batch, and
        keeps the reservations with it; or, if nothing was accepted or submission failed,
        leaves every grant as it was and nothing reserved. Each frame is served from the
        cache, skipped with a reason, or in the batch. */
    method Enqueue(frames: seq<Frame>, template: CallRequest, batchId: Id, submits: bool)
      returns (out: EnqueueOutcome, ghost verdicts: seq<Verdict>, ghost accepted: seq<Entry>)
      requires Valid() && batchId !in batches
      requires OwnReservations(frames) && Ahead(frames, 0, path.budget.rows)
      modifies this, path, path.budget, path.ledger, path.meter
      ensures Valid()
      ensures old(path.tripped) ==>
                && out == EnqueueOutcome(None, [], seq(|frames|, i requires 0 <= i < |frames| => (frames[i].name, Paused)))
                && path.Books() == old(path.Books()) && path.Standing() == old(path.Standing())
      ensures !old(path.tripped) ==> Enqueued(frames, template, submits, verdicts, accepted, out)
      ensures !old(path.tripped) && submits ==>
                forall r :: Skipped(r) in verdicts ==>
                  TrueReason(path.Standing(), path.budget.monthOf, template.(batch := true), r)
      ensures path.budget.spend == old(path.budget.spend)
      ensures forall c :: c in old(path.calls) ==> c in path.calls && path.calls[c] == old(path.calls)[c]
      ensures out.batch.None? ==>
                && batches == old(batches) && path.ledger.grants == old(path.ledger.grants)
                && (forall id :: id in path.budget.rows && id !in old(path.budget.rows) ==>
                      path.budget.rows[id].state == Released)
      ensures out.batch.Some? ==>
                && out.batch == Some(batchId) && batches == old(batches)[batchId := Batch(Pending, accepted)]
                && |accepted| <= 5
                && path.calls.Keys == old(path.calls).Keys + Ids(accepted)
    {
      verdicts, accepted := [], [];
      if path.tripped {
        var skipped := seq(|frames|, i requires 0 <= i < |frames| => (frames[i].name, Paused));
        return EnqueueOutcome(None, [], skipped), [], [];
      }
      ghost var before := path.Books();
      ghost var oldRows := path.budget.rows;
      var entries, cached, skipped;
      entries, cached, skipped, verdicts := Admit(frames, template);
      accepted := entries;
      if entries == [] {
        OnlyRefundedCallsAdded(before, path.Books());
        return EnqueueOutcome(None, cached, skipped), verdicts, accepted;
      }
      StillPending(before.calls, path.calls, batches);
      if !submits {
        Undo(before, oldRows, entries);
        return EnqueueOutcome(None, cached, skipped + NotSubmitted(entries)), verdicts, accepted;
      }
      NewBatchHolds(before.calls, path.calls, batches, batchId, entries);
      batches := batches[batchId := Batch(Pending, entries)];
      out := EnqueueOutcome(Some(batchId), cached, skipped);
    }

    /** Submission failed: nothing was analysed, so nothing may stay held. */
    method Undo(ghost before: Books, ghost oldRows: map<Id, Reservation>, entries: seq<Entry>)
      requires path.Valid() && Good(before) && PendingHold(before.calls, batches)
      requires Accepting(before, oldRows, path.Books(), path.budget.rows, entries)
      modifies path, path.budget, path.ledger, path.meter
      ensures Valid() && path.budget.spend == old(path.budget.spend)
      ensures path.ledger.grants == before.grants
      ensures forall c :: c in before.calls ==> c in path.calls && path.calls[c] == before.calls[c]
      ensures forall id :: id in path.budget.rows && id !in oldRows ==> path.budget.rows[id].state == Released
    {
      GiveBack(before, oldRows, entries);
      assert entries[|entries|..] == [];
      OnlyRefundedCallsAdded(before, path.Books());
      StillPending(before.calls, path.calls, batches);
    }

    /** The loop over the flagged frames, worst first. A frame is turned away only when what
        is left afterwards would still not pay for one. */
    method Admit(frames: seq<Frame>, template: CallRequest)
      returns (entries: seq<Entry>, cached: seq<Id>, skipped: seq<(Id, SkipReason)>, ghost verdicts: seq<Verdict>)
      requires path.Valid()
      requires OwnReservations(frames) && Ahead(frames, 0, path.budget.rows)
      modifies path, path.budget, path.ledger, path.meter
      ensures path.Valid() && path.budget.spend == old(path.budget.spend)
      ensures Accepting(old(path.Books()), old(path.budget.rows), path.Books(), path.budget.rows, entries)
      ensures |verdicts| == |frames| && Told(frames, template, verdicts, entries, cached, skipped)
      ensures |entries| <= AUTO_EXPLAIN_PER_RUN_CAP
      ensures forall r :: Skipped(r) in verdicts ==>
                TrueReason(path.Standing(), path.budget.monthOf, template.(batch := true), r)
    {
      ghost var before := path.Books();
      ghost var oldRows := path.budget.rows;
      entries, cached, skipped, verdicts := [], [], [], [];
      var i := 0;
      while i < |frames|
        invariant 0 <= i <= |frames|
        invariant path.Valid() && path.budget.spend == old(path.budget.spend)
        invariant Accepting(before, oldRows, path.Books(), path.budget.rows, entries)
        invariant |verdicts| == i && Told(frames, template, verdicts, entries, cached, skipped)
        invariant |entries| <= AUTO_EXPLAIN_PER_RUN_CAP
        invariant forall r :: Skipped(r) in verdicts ==>
                    TrueReason(path.Standing(), path.budget.monthOf, template.(batch := true), r)
        invariant Ahead(frames, i, path.budget.rows) && Ahead(frames, i, oldRows)
      {
        ghost var standing := path.Standing();
        var v, more := Consider(before, oldRows, entries, frames, i, template);
        AllStillTrue(standing, path.Standing(), path.budget.monthOf, template.(batch := true), verdicts, v,
                     !frames[i].cached && |entries| < AUTO_EXPLAIN_PER_RUN_CAP && !frames[i].secret);
        TellOne(frames, template, verdicts, entries, cached, skipped, v, more);
        entries, verdicts := entries + more, verdicts + [v];
        if v == Served {
          cached := cached + [frames[i].name];
        } else if v.Skipped? {
          skipped := skipped + [(frames[i].name, v.reason)];
        }
        i := i + 1;
      }
    }

    /** One frame: the cache, the cap, the secret scan, then the money. */
    method Consider(
      ghost before: Books, ghost oldRows: map<Id, Reservation>, entries: seq<Entry>,
      frames: seq<Frame>, i: nat, template: CallRequest)
      returns (v: Verdict, more: seq<Entry>)
      requires path.Valid() && Accepting(before, oldRows, path.Books(), path.budget.rows, entries)
      requires i < |frames| && Ahead(frames, i, path.budget.rows) && Ahead(frames, i, oldRows)
      requires OwnReservations(frames)
      modifies path, path.budget, path.ledger, path.meter
      ensures path.Valid() && path.budget.spend == old(path.budget.spend)
      ensures Accepting(before, oldRows, path.Books(), path.budget.rows, entries + more)
      ensures Ahead(frames, i + 1, path.budget.rows) && Ahead(frames, i + 1, oldRows)
      ensures Fair(frames[i], |entries|, v) && |more| == (if v == Batched then 1 else 0)
      ensures more != [] ==> MadeFrom(more, [frames[i]], template)
      ensures !frames[i].cached && |entries| < AUTO_EXPLAIN_PER_RUN_CAP && !frames[i].secret ==>
                Judged(old(path.Standing()), path.budget.monthOf, template.(batch := true), v)
      ensures Tighter(old(path.Standing()), path.Standing())
    {
      var f := frames[i];
      assert entries + [] == entries;
      if f.cached {
        RecordFree(template, CacheHit);
        return Served, [];
      }
      if |entries| >= AUTO_EXPLAIN_PER_RUN_CAP {
        return Skipped(OverCap), [];
      }
      if f.secret {
        RecordFree(template, BlockedNoCharge);
        return Skipped(SecretFound), [];
      }
      var admission := AdmitOne(before, oldRows, entries, f, template);
      OneLessAhead(frames, i, old(path.budget.rows), path.budget.rows);
      if !admission.Held? {
        return Skipped(ReasonFor(admission)), [];
      }
      v, more := Batched, [Entry(f.name, RequestFor(f, template), admission.handle)];
    }

    /** A frame that costs nothing leaves what the others need as it is. */
    method RecordFree(template: CallRequest, status: UsageStatus)
      requires path.Valid()
      modifies path.meter
      ensures path.Valid() && Tighter(old(path.Standing()), path.Standing())
    {
      path.RecordNoCharge(template, status);
    }

    method AdmitOne(
      ghost before: Books, ghost oldRows: map<Id, Reservation>, ghost entries: seq<Entry>, f: Frame, template: CallRequest)
      returns (out: Admission)
      requires path.Valid() && Accepting(before, oldRows, path.Books(), path.budget.rows, entries)
      requires f.reservationId !in path.budget.rows && f.reservationId !in oldRows
      modifies path, path.budget, path.ledger, path.meter
      ensures path.Valid() && path.budget.spend == old(path.budget.spend)
      ensures Accepting(before, oldRows, path.Books(), path.budget.rows,
                if out.Held? then entries + [Entry(f.name, RequestFor(f, template), out.handle)] else entries)
      ensures path.budget.rows.Keys <= old(path.budget.rows).Keys + {f.reservationId}
      ensures Judged(old(path.Standing()), path.budget.monthOf, template.(batch := true), VerdictOf(out))
      ensures Tighter(old(path.Standing()), path.Standing())
    {
      ghost var b, rows, standing := path.Books(), path.budget.rows, path.Standing();
      var req := RequestFor(f, template);
      out := path.ReserveBoth(req);
      AdmissionJudges(standing, path.budget.monthOf, f, template, out);
      if out.Held? {
        AcceptMore(before, oldRows, b, rows, entries, path.ledger.grants, Entry(f.name, req, out.handle),
                   path.budget.rows[req.reservationId]);
      } else {
        RefuseMore(before, oldRows, b, rows, entries, path.budget.rows);
      }
    }

    /** Submission failed: both reservations of every entry go back. */
    method GiveBack(ghost before: Books, ghost oldRows: map<Id, Reservation>, entries: seq<Entry>)
      requires path.Valid() && Accepting(before, oldRows, path.Books(), path.budget.rows, entries)
      modifies path, path.budget, path.ledger, path.meter
      ensures path.Valid() && path.budget.spend == old(path.budget.spend)
      ensures Unwinding(before, oldRows, path.Books(), path.budget.rows, entries, |entries|)
    {
      assert entries[0..] == entries;
      var i := 0;
      while i < |entries|
        invariant 0 <= i <= |entries|
        invariant path.Valid() && path.budget.spend == old(path.budget.spend)
        invariant Unwinding(before, oldRows, path.Books(), path.budget.rows, entries, i)
      {
        GiveBackOne(before, oldRows, entries, i);
        i := i + 1;
      }
    }

    method ReleaseHeld(e: Entry)
      requires path.Valid() && Holding(path.calls, e) && path.budget.rows[IdOf(e)].state == Reserved
      modifies path, path.budget, path.ledger, path.meter
      ensures path.Valid() && path.budget.spend == old(path.budget.spend)
      ensures SameGrants(old(path.ledger.grants), path.ledger.grants)
      ensures path.calls == old(path.calls)[IdOf(e) := Call(e.handle.credit, e.req.credits, Returned)]
      ensures IdOf(e) in path.budget.rows && path.budget.rows[IdOf(e)].state == Released
      ensures path.budget.rows == old(path.budget.rows)[IdOf(e) := path.budget.rows[IdOf(e)]]
    {
      path.ReleaseBoth(e.req, e.handle);
    }

    method GiveBackOne(ghost before: Books, ghost oldRows: map<Id, Reservation>, entries: seq<Entry>, i: nat)
      requires path.Valid() && i < |entries|
      requires Unwinding(before, oldRows, path.Books(), path.budget.rows, entries, i)
      requires forall j, k :: 0 <= j < k < |entries| ==> IdOf(entries[j]) != IdOf(entries[k])
      modifies path, path.budget, path.ledger, path.meter
      ensures path.Valid() && path.budget.spend == old(path.budget.spend)
      ensures Unwinding(before, oldRows, path.Books(), path.budget.rows, entries, i + 1)
    {
      ghost var b := path.Books();
      ghost var rows := path.budget.rows;
      var e := entries[i];
      assert entries[i..][0] == e;
      IdsDrop(entries, i);
      assert Holding(b.calls, e);
      ReleaseHeld(e);
      UnwindOne(before, oldRows, b, rows, entries, i, path.ledger.grants, path.budget.rows[IdOf(e)]);
    }

    /** Finishes every entry of a pending batch exactly once, charging the good results and
        giving the rest back; on a collected batch, or before the results are in, nothing
        happens. */
    method Collect(batchId: Id, results: Option<map<Id, ProviderResult>>, now: Time) returns (out: CollectOutcome)
      requires Valid()
      modifies this, path, path.budget, path.ledger, path.meter
      ensures Valid()
      ensures out.UnknownBatch? <==> batchId !in old(batches)
      ensures batchId in old(batches) && old(batches)[batchId].status == Pending && results.Some? ==>
                && batches == old(batches)[batchId := Batch(Collected, old(batches)[batchId].entries)]
                && FinishedUpTo(old(path.calls), path.calls, results.value, old(batches)[batchId].entries,
                                |old(batches)[batchId].entries|)
                && path.budget.View() == FinishRows(old(path.budget.View()), old(batches)[batchId].entries, results.value, now)
                && MeteredEach(old(path.meter.rows), path.meter.rows, old(batches)[batchId].entries, results.value, now,
                               old(path.ledger.grants))
                && out == CollectOutcome(true, Findings(old(batches)[batchId].entries, results.value),
                                         Failures(old(batches)[batchId].entries, results.value))
      ensures !(batchId in old(batches) && old(batches)[batchId].status == Pending && results.Some?) ==>
                && batches == old(batches) && path.Books() == old(path.Books()) && path.Standing() == old(path.Standing())
                && (batchId in batches ==> out == CollectOutcome(batches[batchId].status == Collected, [], []))
    {
      if batchId !in batches {
        return UnknownBatch;
      }
      if batches[batchId].status == Collected {
        return CollectOutcome(true, [], []);
      }
      if results.None? {
        return CollectOutcome(false, [], []);
      }
      var entries := batches[batchId].entries;
      var findings, failures := FinishAll(entries, results.value, now);
      CollectedAll(old(Stage()), Stage(), entries, results.value, now, findings, failures);
      OthersStillPending(old(path.calls), path.calls, batches, batchId, results.value);
      batches := batches[batchId := Batch(Collected, entries)];
      out := CollectOutcome(true, findings, failures);
    }

    ghost function Stage(): Progress
      reads path, path.budget, path.ledger, path.meter
    {
      Progress(path.calls, path.budget.View(), path.meter.rows, path.ledger.grants)
    }

    method FinishAll(entries: seq<Entry>, results: map<Id, ProviderResult>, now: Time)
      returns (findings: seq<Id>, failures: seq<Id>)
      requires path.Valid() && AllHolding(path.calls, entries)
      modifies path, path.budget, path.ledger, path.meter
      ensures path.Valid()
      ensures CollectedUpTo(old(Stage()), Stage(), entries, |entries|, results, now, findings, failures)
    {
      findings, failures := [], [];
      var i := 0;
      while i < |entries|
        invariant 0 <= i <= |entries|
        invariant path.Valid()
        invariant CollectedUpTo(old(Stage()), Stage(), entries, i, results, now, findings, failures)
      {
        findings, failures := FinishNth(old(Stage()), entries, i, results, now, findings, failures);
        i := i + 1;
      }
    }

    method FinishNth(
      ghost start: Progress, entries: seq<Entry>, i: nat, results: map<Id, ProviderResult>, now: Time,
      findings: seq<Id>, failures: seq<Id>)
      returns (found: seq<Id>, failed: seq<Id>)
      requires path.Valid() && i < |entries| && AllHolding(start.calls, entries)
      requires CollectedUpTo(start, Stage(), entries, i, results, now, findings, failures)
      modifies path, path.budget, path.ledger, path.meter
      ensures path.Valid()
      ensures CollectedUpTo(start, Stage(), entries, i + 1, results, now, found, failed)
    {
      ghost var before := Stage();
      StillHeld(start.calls, before.calls, results, entries, i);
      var failure := FinishEntry(entries[i], results, now);
      CollectedOneMore(start, before, Stage(), entries, i, results, now, findings, failures);
      found, failed := findings, failures;
      if failure {
        failed := failed + [entries[i].frame];
      } else {
        found := found + [entries[i].frame];
      }
    }

    /** One entry: charged and metered at its cost, or given back. */
    method FinishEntry(e: Entry, results: map<Id, ProviderResult>, now: Time) returns (failed: bool)
      requires path.Valid() && Holding(path.calls, e)
      modifies path, path.budget, path.ledger, path.meter
      ensures path.Valid()
      ensures failed <==> !Succeeds(results, e)
      ensures Finished(path.calls, results, e)
      ensures path.calls == old(path.calls)[IdOf(e) := path.calls[IdOf(e)]]
      ensures path.budget.View() == FinishRow(old(path.budget.View()), e, results, now)
      ensures MeteredOne(old(path.meter.rows), path.meter.rows, e, results, now, path.ledger.grants)
      ensures SameKinds(old(path.ledger.grants), path.ledger.grants)
    {
      var req := e.req.(now := now);
      if e.frame !in results || results[e.frame].Rejected? {
        path.ReleaseBoth(req, e.handle);
        return true;
      }
      CostNonNegative(req.model, results[e.frame].usage, true);
      var cost := ComputeCost(req.model, results[e.frame].usage, true);
      path.SettleCharged(req, e.handle, if cost.Some? then cost.value else 0);
      failed := false;
    }
  }

  /** All that collecting a batch changes but its own row. */
  datatype Progress = Progress(calls: map<Id, Call>, db: Db, meter: map<Id, Metered>, grants: Grants)

  /** The first `n` entries are finished, booked, metered and reported. */
  ghost predicate CollectedUpTo(
    start: Progress, at: Progress, entries: seq<Entry>, n: nat, results: map<Id, ProviderResult>, now: Time,
    findings: seq<Id>, failures: seq<Id>)
    requires n <= |entries|
  {
    match at
    case Progress(calls, db, meter, grants) =>
      && FinishedUpTo(start.calls, calls, results, entries, n)
      && db == FinishRows(start.db, entries[..n], results, now)
      && Reported(entries[..n], results, findings, failures)
      && MeteredEach(start.meter, meter, entries[..n], results, now, start.grants)
      && SameKinds(grants, start.grants)
  }

  /** One entry is finished, booked and metered, and nothing else has changed. */
  ghost predicate FinishedOne(before: Progress, after: Progress, e: Entry, results: map<Id, ProviderResult>, now: Time)
  {
    match after
    case Progress(calls, db, meter, grants) =>
      && Finished(calls, results, e)
      && calls == before.calls[IdOf(e) := calls[IdOf(e)]]
      && db == FinishRow(before.db, e, results, now)
      && MeteredOne(before.meter, meter, e, results, now, grants)
      && SameKinds(before.grants, grants)
  }

  lemma {:induction false} CollectedOneMore(
    start: Progress, mid: Progress, after: Progress, entries: seq<Entry>, i: nat, results: map<Id, ProviderResult>, now: Time,
    findings: seq<Id>, failures: seq<Id>)
    requires i < |entries| && AllHolding(start.calls, entries)
    requires CollectedUpTo(start, mid, entries, i, results, now, findings, failures)
    requires FinishedOne(mid, after, entries[i], results, now)
    ensures Succeeds(results, entries[i]) ==>
              CollectedUpTo(start, after, entries, i + 1, results, now, findings + [entries[i].frame], failures)
    ensures !Succeeds(results, entries[i]) ==>
              CollectedUpTo(start, after, entries, i + 1, results, now, findings, failures + [entries[i].frame])
  {
    OneMore(start.db, entries, i, results, now);
    FinishedOneMore(start.calls, mid.calls, after.calls, results, entries, i);
    MeteredOneMore(start.meter, mid.meter, after.meter, entries, i, results, now, start.grants, after.grants);
  }

  lemma CollectedAll(
    start: Progress, at: Progress, entries: seq<Entry>, results: map<Id, ProviderResult>, now: Time,
    findings: seq<Id>, failures: seq<Id>)
    requires CollectedUpTo(start, at, entries, |entries|, results, now, findings, failures)
    ensures FinishedUpTo(start.calls, at.calls, results, entries, |entries|)
    ensures at.db == FinishRows(start.db, entries, results, now)
    ensures findings == Findings(entries, results) && failures == Failures(entries, results)
    ensures MeteredEach(start.meter, at.meter, entries, results, now, start.grants)
  {
    assert entries[..|entries|] == entries;
  }

  /** The first `n` entries are finished; every other call is as it was. */
  ghost predicate FinishedUpTo(
    before: map<Id, Call>, after: map<Id, Call>, results: map<Id, ProviderResult>, entries: seq<Entry>, n: nat)
    requires n <= |entries|
  {
    && after.Keys == before.Keys
    && (forall k :: 0 <= k < n ==> Finished(after, results, entries[k]))
    && (forall c :: c in before ==> after[c] == before[c] || exists k :: 0 <= k < n && IdOf(entries[k]) == c)
  }

  lemma StillHeld(
    before: map<Id, Call>, after: map<Id, Call>, results: map<Id, ProviderResult>, entries: seq<Entry>, n: nat)
    requires n < |entries| && AllHolding(before, entries) && FinishedUpTo(before, after, results, entries, n)
    ensures Holding(after, entries[n])
  {}

  lemma FinishedOneMore(
    before: map<Id, Call>, mid: map<Id, Call>, after: map<Id, Call>,
    results: map<Id, ProviderResult>, entries: seq<Entry>, n: nat)
    requires n < |entries| && AllHolding(before, entries) && FinishedUpTo(before, mid, results, entries, n)
    requires IdOf(entries[n]) in after && after == mid[IdOf(entries[n]) := after[IdOf(entries[n])]]
    requires Finished(after, results, entries[n])
    ensures FinishedUpTo(before, after, results, entries, n + 1)
  {
    assert Holding(before, entries[n]);
    forall k | 0 <= k < n ensures Finished(after, results, entries[k]) {
      assert Finished(mid, results, entries[k]);
    }
  }

  lemma StillPending(before: map<Id, Call>, after: map<Id, Call>, batches: map<Id, Batch>)
    requires PendingHold(before, batches)
    requires forall c :: c in before ==> c in after && after[c] == before[c]
    ensures PendingHold(after, batches)
  {}

  lemma NewBatchHolds(
    before: map<Id, Call>, after: map<Id, Call>, batches: map<Id, Batch>, batchId: Id, entries: seq<Entry>)
    requires PendingHold(before, batches) && PendingHold(after, batches) && batchId !in batches
    requires AllHolding(after, entries) && before.Keys !! Ids(entries)
    ensures PendingHold(after, batches[batchId := Batch(Pending, entries)])
  {}

  lemma OthersStillPending(
    before: map<Id, Call>, after: map<Id, Call>, batches: map<Id, Batch>, batchId: Id, results: map<Id, ProviderResult>)
    requires PendingHold(before, batches) && batchId in batches && batches[batchId].status == Pending
    requires FinishedUpTo(before, after, results, batches[batchId].entries, |batches[batchId].entries|)
    ensures PendingHold(after, batches[batchId := Batch(Collected, batches[batchId].entries)])
  {}
}
