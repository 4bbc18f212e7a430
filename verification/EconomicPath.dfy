/** The points where both ledgers move (src/economicPath.ts) and the interactive call that
    goes through them (src/explainService.ts 241-379). */
module EconomicPath {
  import opened Pricing
  import opened Sums
  import opened Tables
  import opened Usage
  import opened Ledger
  import opened CreditBooks
  import opened ProviderBudget

  const RESERVATION_TTL: nat := 900_000

  datatype CallRequest = CallRequest(
    reservationId: Id, org: Id, key: Option<Id>, model: Model, batch: bool,
    credits: int, limits: Limits, now: Time)

  /** What `reserveBoth` hands back, and settling or releasing needs. */
  datatype Handle = Handle(reservationId: Id, credit: seq<Consumption>)

  datatype Admission =
    | Held(handle: Handle)
    | ModelNotPriced
    | ProviderBudgetExhausted(scope: Scope, breakerTripped: bool)
    | InsufficientCredits

  /** What the provider made of the call, after schema validation. */
  datatype ProviderResult = Accepted(usage: TokenUsage) | Rejected

  /** What the checks before the reservations may say. */
  datatype HostedOutcome =
    | ExplainPaused
    | FromCache
    | NoVerifiedPrice
    | RunCapReached
    | AgentBudgetExhausted(used: int)
    | Called(outcome: ExplainOutcome)

  const AUTO_EXPLAIN_PER_RUN_CAP: nat := 5

  datatype ExplainOutcome = Explained(creditsCharged: int) | Refused(why: Admission) | AnalysisFailed

  function BudgetRequest(req: CallRequest): Request
  {
    Request(req.reservationId, req.org, req.key, req.model, req.batch, req.limits, req.now, RESERVATION_TTL)
  }

  /** The row of a call in flight: it holds the call's maximum for its organization and key, on
      the day and in the month of the call, for a quarter of an hour. */
  ghost function HeldRow(req: CallRequest, max: int, monthOf: nat -> nat): Reservation
  {
    Reservation(req.org, req.key, max, Reserved, req.now / MS_PER_DAY, monthOf(req.now / MS_PER_DAY), req.now + 900_000)
  }

  lemma RowOfCall(req: CallRequest, max: int, monthOf: nat -> nat)
    ensures NewRow(BudgetRequest(req), max, monthOf) == HeldRow(req, max, monthOf)
  {}

  /** What an admission reads. */
  datatype Means = Means(db: Db, usage: map<Id, Metered>, grants: Grants)

  /** The call cannot be held: no price, a ceiling it would break, or too few credits. */
  ghost predicate Unaffordable(m: Means, monthOf: nat -> nat, req: CallRequest)
  {
    match HardMaxCost(req.model, req.batch)
    case None => true
    case Some(max) =>
      || Full(m.db, m.usage, monthOf, BudgetRequest(req), max)
      || (req.credits > 0 && BalanceOf(m.grants, req.org, req.now) < req.credits)
  }

  ghost predicate RowsAdded(before: map<Id, Reservation>, after: map<Id, Reservation>)
  {
    && (forall id :: id in before ==> id in after && after[id] == before[id])
    && (forall id :: id in after && id !in before && after[id].state == Reserved ==> after[id].max >= 0)
  }

  ghost predicate EventsAdded(before: map<Id, Metered>, after: map<Id, Metered>)
  {
    && (forall id :: id in before ==> id in after && after[id] == before[id])
    && (forall id :: id in after && id !in before ==> after[id].event.cost >= 0)
  }

  /** The same grants, with no more on any of them. */
  ghost predicate OnlySpent(before: Grants, after: Grants)
  {
    && before.Keys == after.Keys
    && forall g :: g in before ==> after[g] == before[g].(remaining := after[g].remaining) && after[g].remaining <= before[g].remaining
  }

  /** Nothing has been settled or given back in between. */
  ghost predicate Tighter(before: Means, after: Means)
  {
    && after.db.spend == before.db.spend && RowsAdded(before.db.rows, after.db.rows)
    && EventsAdded(before.usage, after.usage) && OnlySpent(before.grants, after.grants)
  }

  lemma BreaksStill(before: Means, after: Means, monthOf: nat -> nat, req: Request, s: Scope, max: int)
    requires Tighter(before, after) && Breaks(before.db, before.usage, monthOf, req, s, max)
    ensures Breaks(after.db, after.usage, monthOf, req, s, max)
  {
    var month := monthOf(DayOf(req.now));
    match s
    case GlobalDay => TotalGrows(after.db.rows, before.db.rows, LiveOn(DayOf(req.now), req.now));
    case OrgMonth =>
      TotalGrows(after.usage, before.usage, OrgCost(req.org, month, monthOf));
      TotalGrows(after.db.rows, before.db.rows, LiveForOrg(req.org, month, req.now));
    case KeyMonth =>
      TotalGrows(after.usage, before.usage, KeyCost(req.key.value, month, monthOf));
      TotalGrows(after.db.rows, before.db.rows, LiveForKey(req.key.value, month, req.now));
  }

  /** What could not be afforded cannot be afforded with less. */
  lemma StillUnaffordable(before: Means, after: Means, monthOf: nat -> nat, req: CallRequest)
    requires Tighter(before, after) && Unaffordable(before, monthOf, req)
    ensures Unaffordable(after, monthOf, req)
  {
    match HardMaxCost(req.model, req.batch)
    case None =>
    case Some(max) =>
      if s: Scope :| Breaks(before.db, before.usage, monthOf, BudgetRequest(req), s, max) {
        BreaksStill(before, after, monthOf, BudgetRequest(req), s, max);
      }
      TotalLe(after.grants, Balances(req.org, req.now), before.grants, Balances(req.org, req.now));
  }

  /** The three checks together decide. */
  lemma ChecksDecide(m: Means, monthOf: nat -> nat, req: CallRequest, outcome: ReserveOutcome, held: bool)
    requires !outcome.DuplicateId? && (outcome.NotPriced? <==> HardMaxCost(req.model, req.batch).None?)
    requires outcome.Exhausted? ==>
               Breaks(m.db, m.usage, monthOf, BudgetRequest(req), outcome.scope, HardMaxCost(req.model, req.batch).value)
    requires outcome.Admitted? ==> !Full(m.db, m.usage, monthOf, BudgetRequest(req), HardMaxCost(req.model, req.batch).value)
    requires held <==> outcome.Admitted? && (req.credits <= 0 || BalanceOf(m.grants, req.org, req.now) >= req.credits)
    ensures held <==> !Unaffordable(m, monthOf, req)
  {}

  /** The same by the columns the three checks read: no price, no room under a configured ceiling
      beside what the day, the organization's month or the key's month has spent and holds, or
      not the credits. */
  lemma UnaffordableByColumns(m: Means, monthOf: nat -> nat, req: CallRequest)
    ensures Unaffordable(m, monthOf, req) <==>
              match HardMaxCost(req.model, req.batch)
              case None => true
              case Some(max) =>
                || !Room(DayFigures(m.db.spend, m.db.rows, req.now), max, Some(req.limits.globalDaily))
                || !Room(OrgFigures(m.usage, m.db.rows, monthOf, req.org, req.now), max, req.limits.orgMonthly)
                || (req.key.Some? && !Room(KeyFigures(m.usage, m.db.rows, monthOf, req.key.value, req.now), max, req.limits.keyMonthly))
                || (req.credits > 0
                    && Total(m.grants, (g: Ledger.Grant) => if g.org == req.org && g.expiresAt > req.now then g.remaining else 0) < req.credits)
  {
    BalanceIsTheSum(m.grants, req.org, req.now);
    if HardMaxCost(req.model, req.batch).Some? {
      FullIsNoRoom(m.db, m.usage, monthOf, BudgetRequest(req), HardMaxCost(req.model, req.batch).value);
    }
  }

  lemma DebitOnlySpends(grants: Grants, list: seq<Consumption>)
    requires forall i :: 0 <= i < |list| ==> list[i].amount > 0
    ensures OnlySpent(grants, Debit(grants, list))
  {
    forall g ensures Ledger.Taken(list, g) >= 0 { TakenNonNegative(list, g); }
  }

  function Event(req: CallRequest, status: UsageStatus, cost: int, credits: int): UsageEvent
  {
    UsageEvent(req.org, req.key, status, cost, credits, req.now)
  }

  /** Consumptions whose grant still exists, with the grant's kind. */
  function ResolveGrantKinds(list: seq<Consumption>, grants: Grants): seq<Funding>
  {
    if list == [] then []
    else
      var c := list[|list| - 1];
      ResolveGrantKinds(list[..|list| - 1], grants)
      + (if c.grant in grants then [Funding(c.grant, grants[c.grant].kind, c.amount)] else [])
  }

  lemma {:induction false} ResolvedIsWhole(list: seq<Consumption>, grants: Grants)
    requires forall i :: 0 <= i < |list| ==> list[i].grant in grants
    ensures var f := ResolveGrantKinds(list, grants);
            && |f| == |list| && CreditsOf(f) == Amount(list)
            && (forall i :: 0 <= i < |f| ==>
                  f[i].grant == list[i].grant && f[i].kind == grants[list[i].grant].kind && f[i].credits == list[i].amount)
  {
    if list != [] {
      var n := |list| - 1;
      var before, last := ResolveGrantKinds(list[..n], grants), Funding(list[n].grant, grants[list[n].grant].kind, list[n].amount);
      ResolvedIsWhole(list[..n], grants);
      assert ResolveGrantKinds(list, grants) == before + [last];
      CreditsAppend(before, last);
    }
  }

  ghost predicate AllExact(rows: map<Id, Metered>)
  {
    forall id :: id in rows ==> Exact(rows[id])
  }

  /** The first of the entries that took the most. */
  ghost predicate FirstMost(list: seq<Consumption>, k: int)
  {
    && 0 <= k < |list|
    && (forall j :: 0 <= j < k ==> list[j].amount < list[k].amount)
    && (forall j :: k < j < |list| ==> list[j].amount <= list[k].amount)
  }

  /** One row for each grant the reservation drew on and no other, under that grant's own kind
      and with the credits drawn from it. */
  ghost predicate DrawnOn(sources: map<Id, Source>, list: seq<Consumption>, grants: Grants)
  {
    && (forall g :: g in sources ==> exists i :: 0 <= i < |list| && list[i].grant == g)
    && (forall i :: 0 <= i < |list| ==>
          && list[i].grant in sources && list[i].grant in grants
          && sources[list[i].grant].kind == grants[list[i].grant].kind
          && sources[list[i].grant].credits == list[i].amount)
  }

  /** All of the cost, each row its proportional share rounded down; the first that gave most
      carries what rounding left over. */
  ghost predicate Shared(sources: map<Id, Source>, list: seq<Consumption>, cost: int)
  {
    && Amount(list) > 0
    && Total(sources, SourceCost) == cost
    && exists k :: FirstMost(list, k) && forall i :: 0 <= i < |list| && i != k ==>
         list[i].grant in sources && sources[list[i].grant].cost == (cost * list[i].amount) / Amount(list)
  }

  /** The rows written for a charge. */
  ghost predicate PaidBy(sources: map<Id, Source>, list: seq<Consumption>, grants: Grants, cost: int)
  {
    DrawnOn(sources, list, grants) && (list != [] ==> Shared(sources, list, cost))
  }

  lemma {:induction false} AmountIsPositive(list: seq<Consumption>)
    requires forall i :: 0 <= i < |list| ==> list[i].amount > 0
    ensures Amount(list) >= 0 && (Amount(list) == 0 <==> list == [])
  {
    if list != [] { AmountIsPositive(list[..|list| - 1]); }
  }

  /** What the attribution returns, read off the reservation. */
  ghost predicate PartsOf(parts: seq<Attribution>, largest: int, list: seq<Consumption>, grants: Grants, cost: int)
  {
    && |parts| == |list| && Amount(list) > 0 && CostOf(parts) == cost && DistinctParts(parts)
    && FirstMost(list, largest)
    && (forall i :: 0 <= i < |list| ==>
          && list[i].grant in grants && parts[i].grant == list[i].grant
          && parts[i].kind == grants[list[i].grant].kind && parts[i].credits == list[i].amount
          && (i != largest ==> parts[i].cost == (cost * list[i].amount) / Amount(list)))
  }

  lemma {:induction false} PartsAreDrawnOn(parts: seq<Attribution>, largest: int, list: seq<Consumption>, grants: Grants, cost: int)
    requires PartsOf(parts, largest, list, grants, cost)
    ensures DrawnOn(WithSources(map[], parts), list, grants)
  {
    forall g ensures g in WithSources(map[], parts) ==> exists i :: 0 <= i < |list| && list[i].grant == g {
      SourcesAreParts(parts, g);
      if i :| 0 <= i < |parts| && parts[i].grant == g {
        assert list[i].grant == g;
      }
    }
    forall i | 0 <= i < |list|
      ensures list[i].grant in WithSources(map[], parts) {
      PartIsARow(parts, largest, list, grants, cost, i);
    }
    forall i | 0 <= i < |list|
      ensures WithSources(map[], parts)[list[i].grant].kind == grants[list[i].grant].kind
           && WithSources(map[], parts)[list[i].grant].credits == list[i].amount {
      PartIsARow(parts, largest, list, grants, cost, i);
    }
  }

  lemma {:induction false} PartIsARow(parts: seq<Attribution>, largest: int, list: seq<Consumption>, grants: Grants, cost: int, i: nat)
    requires PartsOf(parts, largest, list, grants, cost) && i < |list|
    ensures list[i].grant in WithSources(map[], parts)
    ensures WithSources(map[], parts)[list[i].grant] == Source(grants[list[i].grant].kind, list[i].amount, parts[i].cost)
  {
    SourcesAreParts(parts, parts[i].grant);
  }

  lemma {:induction false} PartsAreShared(parts: seq<Attribution>, largest: int, list: seq<Consumption>, grants: Grants, cost: int)
    requires PartsOf(parts, largest, list, grants, cost)
    ensures Shared(WithSources(map[], parts), list, cost)
  {
    var sources := WithSources(map[], parts);
    SourcesCarryTheCost(parts);
    forall i | 0 <= i < |list| && i != largest
      ensures list[i].grant in sources && sources[list[i].grant].cost == (cost * list[i].amount) / Amount(list) {
      PartIsARow(parts, largest, list, grants, cost, i);
    }
    assert FirstMost(list, largest);
  }

  lemma {:induction false} NothingPays(grants: Grants, cost: int)
    ensures PaidBy(map[], [], grants, cost)
  {}

  /** A charge of a good reservation is attributed exactly: to the grants it drew on, each under
      its own kind with its own credits and share. */
  method AttributeReservation(event: UsageEvent, grants: Grants, list: seq<Consumption>) returns (parts: seq<Attribution>)
    requires event.cost >= 0
    requires forall i :: 0 <= i < |list| ==> list[i].grant in grants && list[i].amount > 0
    requires DistinctGrants(list)
    ensures Exact(Metered(event, WithSources(map[], parts)))
    ensures PaidBy(WithSources(map[], parts), list, grants, event.cost)
  {
    var funding := ResolveGrantKinds(list, grants);
    ResolvedIsWhole(list, grants);
    AmountIsPositive(list);
    var largest;
    parts, largest := AttributeCost(event.cost, funding);
    if CreditsOf(funding) > 0 {
      forall i | 0 <= i < |parts| ensures parts[i].cost >= 0 {
        SharesNonNegative(event.cost, funding[i], CreditsOf(funding));
      }
      forall i, j | 0 <= i < j < |parts| ensures parts[i].grant != parts[j].grant {
        assert parts[i].grant == list[i].grant && parts[j].grant == list[j].grant;
      }
      PartsAreDrawnOn(parts, largest, list, grants, event.cost);
      PartsAreShared(parts, largest, list, grants, event.cost);
    } else {
      NothingPays(grants, event.cost);
    }
    AttributedIsExact(event, parts);
  }

  class MoneyPath {
    const budget: Reservations
    const ledger: CreditLedger
    const meter: Meter
    /** The circuit breaker. */
    var tripped: bool
    /** Every call that ever reserved, by its provider reservation. */
    ghost var calls: map<Id, Call>

    constructor (budget: Reservations, ledger: CreditLedger, meter: Meter)
      requires ledger.grants == map[] && meter.rows == map[] && meter.Valid()
      ensures Valid() && calls == map[] && !tripped
      ensures this.budget == budget && this.ledger == ledger && this.meter == meter
    {
      this.budget, this.ledger, this.meter := budget, ledger, meter;
      tripped, calls := false, map[];
      new;
      CreditsConserved([]);
    }

    ghost function Books(): Books reads this, ledger
    {
      CreditBooks.Books(ledger.grants, calls)
    }

    ghost function Standing(): Means reads budget, ledger, meter
    {
      Means(budget.View(), meter.rows, ledger.grants)
    }

    /** Credits are conserved, every attribution is exact, and each call has a reservation. */
    ghost predicate Valid() reads this, budget, ledger, meter
    {
      && CreditBooks.Good(Books())
      && meter.Valid() && AllExact(meter.rows)
      && calls.Keys <= budget.rows.Keys
    }

    ghost predicate Issued(h: Handle) reads this
    {
      h.reservationId in calls && calls[h.reservationId].reservation == h.credit
    }

    /** An event that moved no money. */
    method RecordNoCharge(req: CallRequest, status: UsageStatus)
      requires meter.Valid() && AllExact(meter.rows)
      modifies meter
      ensures meter.Valid() && AllExact(meter.rows)
      ensures RecordsFree(old(meter.rows), meter.rows, Event(req, status, 0, 0))
    {
      var _ := meter.RecordUsage(Event(req, status, 0, 0));
    }

    /** A charged event and the rows that say who paid for it. */
    method RecordCharge(req: CallRequest, list: seq<Consumption>, cost: int)
      requires meter.Valid() && AllExact(meter.rows) && cost >= 0
      requires forall i :: 0 <= i < |list| ==> list[i].grant in ledger.grants && list[i].amount > 0
      requires DistinctGrants(list)
      modifies meter
      ensures meter.Valid() && AllExact(meter.rows)
      ensures RecordsCharge(old(meter.rows), meter.rows, Event(req, Charged, cost, req.credits), list, ledger.grants)
    {
      var event := Event(req, Charged, cost, req.credits);
      var id := meter.RecordUsage(event);
      var parts := AttributeReservation(event, ledger.grants, list);
      meter.RecordCostAttribution(id, parts);
      assert meter.rows == old(meter.rows)[id := Metered(event, WithSources(map[], parts))];
    }

    /** Credits come into existence here and nowhere else. */
    method GrantCredits(id: Id, g: Ledger.Grant)
      requires Valid() && id !in ledger.grants && g.remaining == g.credits > 0
      modifies ledger
      ensures Valid()
      ensures Books() == Step(old(Books()), Action.Grant(id, g))
    {
      ghost var before := Books();
      var _ := ledger.GrantCredits(id, g);
      if Grantable(before.grants, id, g) {
        GrantKeeps(before, id, g);
      }
    }

    /** No dollars: the refusal is metered, and at the global ceiling the breaker trips. */
    method Block(req: CallRequest, outcome: ReserveOutcome) returns (out: Admission)
      requires Valid() && (outcome.NotPriced? || outcome.Exhausted?)
      modifies this`tripped, meter
      ensures Valid()
      ensures out == if outcome.NotPriced? then ModelNotPriced
                     else ProviderBudgetExhausted(outcome.scope, outcome.scope == GlobalDay && !old(tripped))
      ensures tripped == (old(tripped) || (outcome.Exhausted? && outcome.scope == GlobalDay))
      ensures RecordsFree(old(meter.rows), meter.rows, Event(req, BlockedNoCharge, 0, 0))
    {
      RecordNoCharge(req, BlockedNoCharge);
      if outcome.NotPriced? {
        return ModelNotPriced;
      }
      if outcome.scope == GlobalDay {
        var first := !tripped;
        tripped := true;
        return ProviderBudgetExhausted(GlobalDay, first);
      }
      out := ProviderBudgetExhausted(outcome.scope, false);
    }

    /** The dollars are held: take the credits too, or give the dollars back. */
    method HoldCredits(req: CallRequest, ghost before: Db, ghost max: int) returns (out: Admission)
      requires Good(Books()) && meter.Valid() && AllExact(meter.rows) && calls.Keys <= before.rows.Keys
      requires req.reservationId !in before.rows
      requires budget.View() == before.(rows := before.rows[req.reservationId := HeldRow(req, max, budget.monthOf)])
      modifies this`calls, budget, ledger
      ensures Valid() && OnlySpent(old(ledger.grants), ledger.grants)
      ensures out.Held? || out.InsufficientCredits?
      ensures out.Held? <==> req.credits <= 0 || BalanceOf(old(ledger.grants), req.org, req.now) >= req.credits
      ensures out.Held? ==>
                && out.handle.reservationId == req.reservationId
                && Books() == Step(old(Books()), Reserve(req.reservationId, req.org, req.credits, req.now))
                && req.reservationId in calls
                && calls[req.reservationId] == Call(out.handle.credit, req.credits, InFlight)
                && Amount(out.handle.credit) == Max(0, req.credits)
                && ledger.grants == Debit(old(ledger.grants), out.handle.credit)
                && budget.View() == old(budget.View())
      ensures !out.Held? ==>
                && Books() == old(Books()) && budget.View() == ReleaseRow(old(budget.View()), req.reservationId)
    {
      ghost var books := Books();
      var consumed := ledger.ConsumeCredits(req.org, req.credits, req.now);
      ConsumeTakesExactly(books.grants, req.org, req.credits, req.now);
      if consumed.Insufficient? {
        var _ := budget.Release(req.reservationId);
        return InsufficientCredits;
      }
      ReserveKeeps(books, req.reservationId, req.org, req.credits, req.now);
      DebitOnlySpends(books.grants, consumed.list);
      calls := calls[req.reservationId := Call(consumed.list, req.credits, InFlight)];
      out := Held(Handle(req.reservationId, consumed.list));
    }

    /** The dollars, then the credits; without the credits the dollars go back. */
    method ReserveBoth(req: CallRequest) returns (out: Admission)
      requires Valid() && req.reservationId !in budget.rows
      modifies this, budget, ledger, meter
      ensures Valid()
      ensures out.Held? ==>
                && out.handle.reservationId == req.reservationId
                && HardMaxCost(req.model, req.batch).Some?
                && Books() == Step(old(Books()), Reserve(req.reservationId, req.org, req.credits, req.now))
                && req.reservationId in calls
                && calls[req.reservationId] == Call(out.handle.credit, req.credits, InFlight)
                && Amount(out.handle.credit) == Max(0, req.credits)
                && ledger.grants == Debit(old(ledger.grants), out.handle.credit)
                && budget.View() == old(budget.View()).(rows := old(budget.rows)[req.reservationId :=
                     HeldRow(req, HardMaxCost(req.model, req.batch).value, budget.monthOf)])
      ensures !out.Held? ==>
                && Books() == old(Books())
                && (forall id :: id in budget.rows && id !in old(budget.rows) ==>
                      id == req.reservationId && budget.rows[id].state == Released)
      ensures Tighter(old(Standing()), Standing())
      ensures out.Held? <==> !Unaffordable(old(Standing()), budget.monthOf, req)
      ensures out.ModelNotPriced? <==> HardMaxCost(req.model, req.batch).None?
      ensures out.ProviderBudgetExhausted? ==>
                && out.breakerTripped == (out.scope == GlobalDay && !old(tripped))
                && Breaks(old(budget.View()), old(meter.rows), budget.monthOf, BudgetRequest(req), out.scope,
                          HardMaxCost(req.model, req.batch).value)
      ensures out.InsufficientCredits? ==>
                && req.credits > 0 && BalanceOf(ledger.grants, req.org, req.now) < req.credits
                && !Full(old(budget.View()), old(meter.rows), budget.monthOf, BudgetRequest(req), HardMaxCost(req.model, req.batch).value)
      ensures if out.Held? || out.InsufficientCredits? then meter.rows == old(meter.rows)
              else RecordsFree(old(meter.rows), meter.rows, Event(req, BlockedNoCharge, 0, 0))
      ensures tripped == (old(tripped) || (out.ProviderBudgetExhausted? && out.scope == GlobalDay))
    {
      var outcome := budget.Reserve(BudgetRequest(req), meter.rows);
      if outcome.Admitted? {
        MaximumIsNonNegative(req.model, req.batch);
        RowOfCall(req, outcome.max, budget.monthOf);
        out := HoldCredits(req, old(budget.View()), outcome.max);
      } else {
        out := Block(req, outcome);
      }
      ChecksDecide(old(Standing()), budget.monthOf, req, outcome, out.Held?);
    }

    /** The call happened: book its cost, meter it, and record who paid. */
    method SettleCharged(req: CallRequest, h: Handle, cost: int)
      requires Valid() && Issued(h) && cost >= 0
      modifies this, budget, meter
      ensures old(calls[h.reservationId].status) != Returned ==> Valid()
      ensures Books() == Step(old(Books()), Charge(h.reservationId))
      ensures budget.View() == SettleRow(old(budget.View()), h.reservationId, cost, req.now)
      ensures tripped == (old(tripped) || SpendOn(budget.View(), DayOf(req.now)) >= req.limits.globalDaily)
      ensures meter.Valid() && AllExact(meter.rows)
      ensures RecordsCharge(old(meter.rows), meter.rows, Event(req, Charged, cost, req.credits), h.credit, ledger.grants)
    {
      ghost var before := Books();
      assert GoodCall(before.grants, before.calls[h.reservationId]);
      var _ := budget.Settle(h.reservationId, cost, req.now);
      tripped := tripped || SpendOn(budget.View(), DayOf(req.now)) >= req.limits.globalDaily;
      RecordCharge(req, h.credit, cost);
      ChargeKeeps(before, h.reservationId);
      calls := calls[h.reservationId := calls[h.reservationId].(status := Paid)];
    }

    /** The call did not happen or was not accepted: give both reservations back. */
    method ReleaseBoth(req: CallRequest, h: Handle)
      requires Valid() && Issued(h)
      modifies this, budget, ledger, meter
      ensures old(calls[h.reservationId].status) != Returned ==> Valid()
      ensures Books() == Step(old(Books()), Return(h.reservationId))
      ensures budget.View() == ReleaseRow(old(budget.View()), h.reservationId)
      ensures tripped == old(tripped)
      ensures meter.Valid() && AllExact(meter.rows)
      ensures RecordsFree(old(meter.rows), meter.rows, Event(req, FailedNoCharge, 0, 0))
    {
      ghost var before := Books();
      var _ := budget.Release(h.reservationId);
      ledger.RefundCredits(h.credit);
      RecordNoCharge(req, FailedNoCharge);
      ReturnKeeps(before, h.reservationId);
      calls := calls[h.reservationId := calls[h.reservationId].(status := Returned)];
    }

    /** The provider answered, or did not: settle or release what the call holds. */
    method Conclude(req: CallRequest, h: Handle, result: ProviderResult, ghost before: Db, ghost grants: Grants)
      returns (explained: bool)
      requires Valid() && Issued(h) && h.reservationId == req.reservationId && calls[req.reservationId].status == InFlight
      requires HardMaxCost(req.model, req.batch).Some? && ledger.grants == Debit(grants, h.credit)
      requires req.reservationId !in before.rows
      requires budget.View() == before.(rows := before.rows[req.reservationId :=
                 HeldRow(req, HardMaxCost(req.model, req.batch).value, budget.monthOf)])
      modifies this, budget, ledger, meter
      ensures Valid() && req.reservationId in budget.rows && Terminal(budget.rows[req.reservationId])
      ensures explained <==> result.Accepted?
      ensures Books() == Step(old(Books()), if explained then Charge(req.reservationId) else Return(req.reservationId))
      ensures !explained ==> ledger.grants == grants && budget.spend == before.spend
      ensures explained ==>
                && req.reservationId in calls && calls[req.reservationId] == old(calls[req.reservationId]).(status := Paid)
                && ledger.grants == old(ledger.grants)
                && ComputeCost(req.model, result.usage, req.batch).Some?
                && budget.spend == AddSpend(before, ComputeCost(req.model, result.usage, req.batch).value, req.now).spend
                && RecordsCharge(old(meter.rows), meter.rows,
                     Event(req, Charged, ComputeCost(req.model, result.usage, req.batch).value, req.credits), h.credit, ledger.grants)
    {
      ghost var row := budget.rows[req.reservationId];
      if result.Rejected? {
        FreshRelease(before, req.reservationId, row);
        ReleaseBoth(req, h);
        RefundRestores(grants, h.credit);
        return false;
      }
      CostNonNegative(req.model, result.usage, req.batch);
      var cost := ComputeCost(req.model, result.usage, req.batch).value;
      FreshSettle(before, req.reservationId, row, cost, req.now);
      SettleCharged(req, h, cost);
      explained := true;
    }

    /** One interactive call, from both reservations to its outcome. It is charged in full
        and books its cost, or leaves every grant and the day's spend as they were. */
    method Explain(req: CallRequest, result: ProviderResult) returns (out: ExplainOutcome)
      requires Valid() && req.reservationId !in budget.rows
      modifies this, budget, ledger, meter
      ensures Valid()
      ensures out.Refused? <==> Unaffordable(old(Standing()), budget.monthOf, req)
      ensures !out.Refused? ==> (out.Explained? <==> result.Accepted?)
      ensures !out.Explained? ==> ledger.grants == old(ledger.grants) && budget.spend == old(budget.spend)
      ensures out.Explained? ==>
                && out.creditsCharged == req.credits
                && req.reservationId in calls && calls[req.reservationId].status == Paid
                && Amount(calls[req.reservationId].reservation) == Max(0, req.credits)
                && ledger.grants == Debit(old(ledger.grants), calls[req.reservationId].reservation)
                && ComputeCost(req.model, result.usage, req.batch).Some?
                && budget.spend == AddSpend(old(budget.View()), ComputeCost(req.model, result.usage, req.batch).value, req.now).spend
                && RecordsCharge(old(meter.rows), meter.rows,
                     Event(req, Charged, ComputeCost(req.model, result.usage, req.batch).value, req.credits),
                     calls[req.reservationId].reservation, ledger.grants)
      ensures req.reservationId in budget.rows ==> Terminal(budget.rows[req.reservationId])
    {
      var admission := ReserveBoth(req);
      if !admission.Held? {
        return Refused(admission);
      }
      var explained := Conclude(req, admission.handle, result, old(budget.View()), old(ledger.grants));
      out := if explained then Explained(req.credits) else AnalysisFailed;
    }

    /** The whole request, check by check. `cached` is what the result cache answers, `already`
        how many frames of a CI run have been charged, `agentBudget` the monthly credits of an
        agent key. A request stopped by a check moves nothing; a cached result is metered free. */
    method HostedExplain(req: CallRequest, result: ProviderResult, cached: bool, already: Option<nat>, agentBudget: Option<int>)
      returns (out: HostedOutcome)
      requires Valid() && req.reservationId !in budget.rows
      modifies this, budget, ledger, meter
      ensures Valid()
      ensures out.ExplainPaused? <==> old(tripped)
      ensures out.FromCache? <==> !old(tripped) && cached
      ensures out.NoVerifiedPrice? <==> !old(tripped) && !cached && req.model == Unpriced
      ensures out.RunCapReached? <==>
                && !old(tripped) && !cached && req.model != Unpriced
                && already.Some? && already.value >= 5
      ensures out.AgentBudgetExhausted? <==>
                && !old(tripped) && !cached && req.model != Unpriced
                && !(already.Some? && already.value >= 5)
                && OverAgentBudget(old(meter.rows), budget.monthOf, req, agentBudget)
      ensures !out.Called? ==>
                && Books() == old(Books()) && budget.View() == old(budget.View()) && tripped == old(tripped)
                && if out.FromCache? then RecordsFree(old(meter.rows), meter.rows, Event(req, CacheHit, 0, 0))
                   else meter.rows == old(meter.rows)
      ensures out.Called? ==>
                && (out.outcome.Refused? <==> Unaffordable(old(Standing()), budget.monthOf, req))
                && (out.outcome.Explained? <==> !out.outcome.Refused? && result.Accepted?)
                && (out.outcome.Explained? ==> !OverAgentBudget(meter.rows, budget.monthOf, req.(credits := 0), agentBudget))
    {
      if tripped { return ExplainPaused; }
      if cached {
        RecordNoCharge(req, CacheHit);
        return FromCache;
      }
      if req.model == Unpriced { return NoVerifiedPrice; }
      if already.Some? && already.value >= AUTO_EXPLAIN_PER_RUN_CAP { return RunCapReached; }
      if req.key.Some? && agentBudget.Some? {
        var used := SumQuery(meter.rows, KeyCredits(req.key.value, budget.monthOf(DayOf(req.now)), budget.monthOf));
        KeyCreditsAreTheSum(meter.rows, budget.monthOf, req);
        if used + req.credits > agentBudget.value { return AgentBudgetExhausted(used); }
      }
      ghost var rows := meter.rows;
      var outcome := Explain(req, result);
      if outcome.Explained? {
        ChargeCountsOnce(rows, meter.rows, req, ComputeCost(req.model, result.usage, req.batch).value,
                         calls[req.reservationId].reservation, ledger.grants, budget.monthOf);
        if req.key.Some? { KeyCreditsAreTheSum(meter.rows, budget.monthOf, req.(credits := 0)); }
      }
      out := Called(outcome);
    }
  }

  /** Credits charged to a key in a month. */
  function KeyCredits(key: Id, month: nat, monthOf: nat -> nat): Metered -> int
  {
    (r: Metered) => if r.event.key == Some(key) && monthOf(DayOf(r.event.createdAt)) == month then r.event.credits else 0
  }

  /** With this call's credits an agent key would pass its budget of the month. */
  ghost predicate OverAgentBudget(usage: map<Id, Metered>, monthOf: nat -> nat, req: CallRequest, agentBudget: Option<int>)
  {
    && req.key.Some? && agentBudget.Some?
    && Total(usage, (r: Metered) =>
         if r.event.key == req.key && monthOf(r.event.createdAt / MS_PER_DAY) == monthOf(req.now / MS_PER_DAY) then r.event.credits else 0)
       + req.credits > agentBudget.value
  }

  lemma KeyCreditsAreTheSum(usage: map<Id, Metered>, monthOf: nat -> nat, req: CallRequest)
    requires req.key.Some?
    ensures Total(usage, KeyCredits(req.key.value, monthOf(DayOf(req.now)), monthOf))
         == Total(usage, (r: Metered) =>
              if r.event.key == req.key && monthOf(r.event.createdAt / MS_PER_DAY) == monthOf(req.now / MS_PER_DAY) then r.event.credits else 0)
  {
    forall id | id in usage ensures DayOf(usage[id].event.createdAt) == usage[id].event.createdAt / MS_PER_DAY {}
    TotalSame(usage, KeyCredits(req.key.value, monthOf(DayOf(req.now)), monthOf), usage, (r: Metered) =>
      if r.event.key == req.key && monthOf(r.event.createdAt / MS_PER_DAY) == monthOf(req.now / MS_PER_DAY) then r.event.credits else 0);
  }

  /** A charge adds exactly its credits to what its key has used, so a key that had room before
      is within its budget after. */
  lemma ChargeCountsOnce(before: map<Id, Metered>, after: map<Id, Metered>, req: CallRequest, cost: int,
                         list: seq<Consumption>, grants: Grants, monthOf: nat -> nat)
    requires RecordsCharge(before, after, Event(req, Charged, cost, req.credits), list, grants)
    ensures req.key.Some? ==>
              var f := KeyCredits(req.key.value, monthOf(DayOf(req.now)), monthOf);
              Total(after, f) == Total(before, f) + req.credits
  {
    if req.key.Some? {
      var id :| id !in before && id in after && after == before[id := after[id]]
                && after[id].event == Event(req, Charged, cost, req.credits);
      TotalUpdate(before, KeyCredits(req.key.value, monthOf(DayOf(req.now)), monthOf), id, after[id]);
    }
  }

  /** Exactly one new row, for this event, with the rows that say what paid for it. */
  ghost predicate RecordsCharge(
    before: map<Id, Metered>, after: map<Id, Metered>, event: UsageEvent, list: seq<Consumption>, grants: Grants)
  {
    match event
    case UsageEvent(_, _, _, cost, _, _) =>
      exists id :: id !in before && id in after && after == before[id := after[id]]
        && after[id].event == event && PaidBy(after[id].sources, list, grants, cost)
  }

  /** Exactly one new row, for an event nobody paid for. */
  ghost predicate RecordsFree(before: map<Id, Metered>, after: map<Id, Metered>, event: UsageEvent)
  {
    exists id: Id :: id !in before && after == before[id := Metered(event, map[])]
  }

  /** What finishing a reservation that was just made does. */
  lemma FreshRelease(db: Db, id: Id, r: Reservation)
    requires id !in db.rows && r.state == Reserved
    ensures var done := ReleaseRow(db.(rows := db.rows[id := r]), id);
            done.spend == db.spend && id in done.rows && done.rows[id].state == Released
  {}

  lemma FreshSettle(db: Db, id: Id, r: Reservation, cost: int, now: Time)
    requires id !in db.rows && r.state == Reserved
    ensures var done := SettleRow(db.(rows := db.rows[id := r]), id, cost, now);
            done.spend == AddSpend(db, cost, now).spend && id in done.rows && done.rows[id].state.Settled?
  {}

  lemma CostNonNegative(model: Model, u: TokenUsage, batch: bool)
    ensures ComputeCost(model, u, batch).None? <==> model == Unpriced
    ensures ComputeCost(model, u, batch).Some? ==> ComputeCost(model, u, batch).value >= 0
  {}
}
