/** Monthly reconciliation (src/reconcile.ts 141-287): what was earned, what it cost, and
    which pot the cost came out of. Reads only. */
module Reconcile {
  import opened Pricing
  import opened Sums
  import opened Tables
  import opened Usage
  import opened Ledger
  import opened EconomicPath

  /** A subscription period or a sold pack, as the report reads it. */
  datatype Sale = Sale(at: Time, price: int, refunded: int, fee: int, feeRecorded: bool)

  datatype RevenueLine = RevenueLine(gross: int, refunded: int, fees: int, net: int, missingFees: int)

  datatype Report = Report(
    subscription: RevenueLine, packs: RevenueLine,
    allotmentCogs: int, packCogs: int, goodwillCogs: int, unattributedCogs: int, totalCogs: int,
    storage: int,
    subscriptionContribution: int, packContribution: int, totalContribution: int,
    netRevenue: int, grossMargin: Option<real>, feesComplete: bool, alerted: bool)

  /** A UTC month of the calendar `of`. */
  datatype Month = Month(month: nat, of: nat -> nat)

  function In(m: Month, t: Time): bool { (m.of)(DayOf(t)) == m.month }

  function PriceIn(m: Month): Sale -> int { (s: Sale) => if In(m, s.at) then s.price else 0 }

  function RefundIn(m: Month): Sale -> int { (s: Sale) => if In(m, s.at) then s.refunded else 0 }

  function FeeIn(m: Month): Sale -> int { (s: Sale) => if In(m, s.at) then s.fee else 0 }

  function MissingIn(m: Month): Sale -> int { (s: Sale) => if In(m, s.at) && !s.feeRecorded then 1 else 0 }

  ghost function LineFor(sales: map<Id, Sale>, m: Month): RevenueLine
  {
    var gross, refunded, fees := Total(sales, PriceIn(m)), Total(sales, RefundIn(m)), Total(sales, FeeIn(m));
    RevenueLine(gross, refunded, fees, gross - refunded - fees, Total(sales, MissingIn(m)))
  }

  function KindCost(kind: GrantKind): Source -> int
  {
    (s: Source) => if s.kind == kind then s.cost else 0
  }

  /** SUM(s.cost) over sources joined to events of the month, for one kind of grant. */
  ghost function RowFunded(m: Month, kind: GrantKind): Metered -> int
  {
    (r: Metered) => if In(m, r.event.createdAt) then Total(r.sources, KindCost(kind)) else 0
  }

  ghost function Funded(meter: map<Id, Metered>, m: Month, kind: GrantKind): int
  {
    Total(meter, RowFunded(m, kind))
  }

  function RowCost(m: Month): Metered -> int
  {
    (r: Metered) => if In(m, r.event.createdAt) then r.event.cost else 0
  }

  ghost function ReconcileMonth(
    m: Month, subscriptions: map<Id, Sale>, packsSold: map<Id, Sale>, meter: map<Id, Metered>, storage: int): Report
  {
    var subscription, packs := LineFor(subscriptions, m), LineFor(packsSold, m);
    var allotment, pack, goodwill :=
      Funded(meter, m, PlanAllotment), Funded(meter, m, PackPurchase), Funded(meter, m, Goodwill);
    var total := Total(meter, RowCost(m));
    var unattributed := Max(0, total - allotment - pack - goodwill);
    var subscriptionContribution := subscription.net - allotment;
    var packContribution := packs.net - pack;
    var totalContribution := subscriptionContribution - goodwill - unattributed - storage + packContribution;
    var netRevenue := subscription.net + packs.net;
    var margin := if netRevenue > 0 then Some(totalContribution as real / netRevenue as real) else None;
    Report(subscription, packs, allotment, pack, goodwill, unattributed, total, storage,
           subscriptionContribution, packContribution, totalContribution, netRevenue, margin,
           subscription.missingFees == 0 && packs.missingFees == 0,
           margin.Some? && margin.value < 0.5)
  }

  // ---- What the report means ---------------------------------------------------

  /** Charged spend that nothing records the funding of. */
  ghost function RowUnfunded(m: Month): Metered -> int
  {
    (r: Metered) => if In(m, r.event.createdAt) && r.sources == map[] then r.event.cost else 0
  }

  /** The three kinds partition an event's sources. */
  lemma {:induction false} KindsPartition(sources: map<Id, Source>)
    ensures Total(sources, SourceCost)
            == Total(sources, KindCost(PlanAllotment)) + Total(sources, KindCost(PackPurchase))
               + Total(sources, KindCost(Goodwill))
    decreases |sources|
  {
    if sources != map[] {
      var g :| g in sources;
      TotalRemove(sources, SourceCost, g);
      TotalRemove(sources, KindCost(PlanAllotment), g);
      TotalRemove(sources, KindCost(PackPurchase), g);
      TotalRemove(sources, KindCost(Goodwill), g);
      KindsPartition(sources - {g});
    }
  }

  lemma RowSplits(r: Metered, m: Month)
    requires Exact(r)
    ensures RowCost(m)(r)
            == RowFunded(m, PlanAllotment)(r) + RowFunded(m, PackPurchase)(r) + RowFunded(m, Goodwill)(r)
               + RowUnfunded(m)(r)
  {
    KindsPartition(r.sources);
  }

  /** Every microdollar the meter recorded is in exactly one of the four pots. */
  lemma {:induction false} FourPots(meter: map<Id, Metered>, m: Month)
    requires forall id :: id in meter ==> Exact(meter[id])
    ensures Total(meter, RowCost(m))
            == Funded(meter, m, PlanAllotment) + Funded(meter, m, PackPurchase) + Funded(meter, m, Goodwill)
               + Total(meter, RowUnfunded(m))
    decreases |meter|
  {
    if meter != map[] {
      var id :| id in meter;
      TotalRemove(meter, RowCost(m), id);
      TotalRemove(meter, RowFunded(m, PlanAllotment), id);
      TotalRemove(meter, RowFunded(m, PackPurchase), id);
      TotalRemove(meter, RowFunded(m, Goodwill), id);
      TotalRemove(meter, RowUnfunded(m), id);
      RowSplits(meter[id], m);
      FourPots(meter - {id}, m);
    }
  }

  /** On a meter whose attributions are exact the clamp never acts: the unattributed line
      is the cost of the month's events without funding records, and the whole
      contribution is net revenue less everything spent. The alert is that, halved. */
  lemma ContributionReconciles(
    m: Month, subscriptions: map<Id, Sale>, packsSold: map<Id, Sale>, meter: map<Id, Metered>, storage: int)
    requires forall id :: id in meter ==> Exact(meter[id])
    ensures var r := ReconcileMonth(m, subscriptions, packsSold, meter, storage);
            && r.unattributedCogs == r.totalCogs - r.allotmentCogs - r.packCogs - r.goodwillCogs
            && r.unattributedCogs == Total(meter, RowUnfunded(m)) >= 0
            && r.totalContribution == r.netRevenue - r.totalCogs - storage
            && (r.alerted <==> r.netRevenue > 0 && 2 * (r.totalCogs + storage) > r.netRevenue)
  {
    FourPots(meter, m);
    TotalNonNegative(meter, RowUnfunded(m));
    var r := ReconcileMonth(m, subscriptions, packsSold, meter, storage);
    if r.netRevenue > 0 {
      HalfIff(r.totalContribution, r.netRevenue);
    }
  }

  lemma HalfOfReal(p: real, w: real)
    requires w > 0.0
    ensures p / w < 0.5 <==> 2.0 * p < w
  {}

  lemma HalfIff(part: int, whole: int)
    requires whole > 0
    ensures part as real / whole as real < 0.5 <==> 2 * part < whole
  {
    HalfOfReal(part as real, whole as real);
  }

  /** What one sale of the month earned. */
  function Earned(m: Month): Sale -> int
  {
    (s: Sale) => if (m.of)(s.at / MS_PER_DAY) == m.month then s.price - s.refunded - s.fee else 0
  }

  lemma {:induction false} NetIsPerSale(sales: map<Id, Sale>, m: Month)
    ensures LineFor(sales, m).net == Total(sales, Earned(m))
    decreases |sales|
  {
    if sales != map[] {
      var k :| k in sales;
      TotalRemove(sales, PriceIn(m), k);
      TotalRemove(sales, RefundIn(m), k);
      TotalRemove(sales, FeeIn(m), k);
      TotalRemove(sales, Earned(m), k);
      NetIsPerSale(sales - {k}, m);
      assert Earned(m)(sales[k]) == PriceIn(m)(sales[k]) - RefundIn(m)(sales[k]) - FeeIn(m)(sales[k]);
    }
  }

  /** The month's sales without a recorded fee. */
  function WithoutFee(sales: map<Id, Sale>, m: Month): set<Id>
  {
    set k | k in sales && (m.of)(sales[k].at / MS_PER_DAY) == m.month && !sales[k].feeRecorded
  }

  lemma WithoutOne(sales: map<Id, Sale>, m: Month, k: Id)
    requires k in sales
    ensures |WithoutFee(sales, m)| == |WithoutFee(sales - {k}, m)| + if k in WithoutFee(sales, m) then 1 else 0
    ensures MissingIn(m)(sales[k]) == if k in WithoutFee(sales, m) then 1 else 0
  {
    assert WithoutFee(sales - {k}, m) == WithoutFee(sales, m) - {k};
  }

  lemma {:induction false} MissingAreCounted(sales: map<Id, Sale>, m: Month)
    ensures Total(sales, MissingIn(m)) == |WithoutFee(sales, m)|
    decreases |sales|
  {
    if sales == map[] {
      assert WithoutFee(sales, m) == {};
    } else {
      var k :| k in sales;
      TotalRemove(sales, MissingIn(m), k);
      MissingAreCounted(sales - {k}, m);
      WithoutOne(sales, m, k);
    }
  }

  /** A line of the report, over the month's sales. */
  lemma {:induction false} LineIsTheMonths(sales: map<Id, Sale>, m: Month)
    ensures var line := LineFor(sales, m);
            && line.gross == Total(sales, (s: Sale) => if (m.of)(s.at / MS_PER_DAY) == m.month then s.price else 0)
            && line.refunded == Total(sales, (s: Sale) => if (m.of)(s.at / MS_PER_DAY) == m.month then s.refunded else 0)
            && line.fees == Total(sales, (s: Sale) => if (m.of)(s.at / MS_PER_DAY) == m.month then s.fee else 0)
            && line.net == Total(sales, Earned(m)) && line.net == line.gross - line.refunded - line.fees
            && line.missingFees == |WithoutFee(sales, m)|
  {
    NetIsPerSale(sales, m);
    MissingAreCounted(sales, m);
    TotalSame(sales, PriceIn(m), sales, (s: Sale) => if (m.of)(s.at / MS_PER_DAY) == m.month then s.price else 0);
    TotalSame(sales, RefundIn(m), sales, (s: Sale) => if (m.of)(s.at / MS_PER_DAY) == m.month then s.refunded else 0);
    TotalSame(sales, FeeIn(m), sales, (s: Sale) => if (m.of)(s.at / MS_PER_DAY) == m.month then s.fee else 0);
  }

  /** The two lines of the report, sale by sale and source by source: subscriptions earn their
      prices less refunds and fees and pay for the allotment's cost, packs for the packs' cost;
      goodwill, what nobody paid for and storage come off the whole. The fees are complete
      when each of the month's sales has its fee recorded. */
  lemma LinesAreTheMonths(
    m: Month, subscriptions: map<Id, Sale>, packsSold: map<Id, Sale>, meter: map<Id, Metered>, storage: int)
    ensures var r := ReconcileMonth(m, subscriptions, packsSold, meter, storage);
            && r.subscriptionContribution == Total(subscriptions, Earned(m)) - Funded(meter, m, PlanAllotment)
            && r.packContribution == Total(packsSold, Earned(m)) - Funded(meter, m, PackPurchase)
            && r.totalContribution == r.subscriptionContribution + r.packContribution
                                      - Funded(meter, m, Goodwill) - r.unattributedCogs - storage
            && r.netRevenue == Total(subscriptions, Earned(m)) + Total(packsSold, Earned(m))
            && (r.feesComplete <==> WithoutFee(subscriptions, m) == {} && WithoutFee(packsSold, m) == {})
            && r.subscription == LineFor(subscriptions, m) && r.packs == LineFor(packsSold, m)
            && r.allotmentCogs == Funded(meter, m, PlanAllotment) && r.packCogs == Funded(meter, m, PackPurchase)
            && r.goodwillCogs == Funded(meter, m, Goodwill)
  {
    NetIsPerSale(subscriptions, m);
    NetIsPerSale(packsSold, m);
    MissingAreCounted(subscriptions, m);
    MissingAreCounted(packsSold, m);
  }

  /** When every charged event has funding records, nothing is unattributed. */
  lemma AllFundedMeansNoneUnattributed(
    m: Month, subscriptions: map<Id, Sale>, packsSold: map<Id, Sale>, meter: map<Id, Metered>, storage: int)
    requires forall id :: id in meter ==> Exact(meter[id]) && (meter[id].sources == map[] ==> meter[id].event.cost == 0)
    ensures ReconcileMonth(m, subscriptions, packsSold, meter, storage).unattributedCogs == 0
  {
    ContributionReconciles(m, subscriptions, packsSold, meter, storage);
    TotalZero(meter, RowUnfunded(m));
  }

  /** A charge in the month raises each kind's cost by what the grants of that kind carry of
      it: nothing when the reservation drew on none of them, all of it when it drew on no
      others. A charge outside the month raises nothing. */
  lemma {:induction false} ChargeFallsOnItsKinds(
    before: map<Id, Metered>, after: map<Id, Metered>, event: UsageEvent, list: seq<Consumption>, grants: Grants,
    m: Month, kind: GrantKind)
    requires RecordsCharge(before, after, event, list, grants)
    ensures exists sources: map<Id, Source> ::
              && PaidBy(sources, list, grants, event.cost)
              && Funded(after, m, kind) == Funded(before, m, kind)
                 + if (m.of)(event.createdAt / MS_PER_DAY) == m.month
                   then Total(sources, (s: Source) => if s.kind == kind then s.cost else 0) else 0
    ensures (forall i :: 0 <= i < |list| ==> grants[list[i].grant].kind != kind) ==>
              Funded(after, m, kind) == Funded(before, m, kind)
    ensures list != [] && (forall i :: 0 <= i < |list| ==> grants[list[i].grant].kind == kind) ==>
              Funded(after, m, kind) == Funded(before, m, kind)
                + if (m.of)(event.createdAt / MS_PER_DAY) == m.month then event.cost else 0
  {
    var id :| id !in before && id in after && after == before[id := after[id]]
              && after[id].event == event && PaidBy(after[id].sources, list, grants, event.cost);
    var sources := after[id].sources;
    TotalUpdate(before, RowFunded(m, kind), id, after[id]);
    TotalSame(sources, KindCost(kind), sources, (s: Source) => if s.kind == kind then s.cost else 0);
    if forall i :: 0 <= i < |list| ==> grants[list[i].grant].kind != kind {
      TotalZero(sources, KindCost(kind));
    }
    if list != [] && forall i :: 0 <= i < |list| ==> grants[list[i].grant].kind == kind {
      TotalSame(sources, KindCost(kind), sources, SourceCost);
    }
  }

  /** Rows appear one at a time, each written as a call writes it: free, or charged and funded. */
  ghost predicate WrittenByCalls(meters: seq<map<Id, Metered>>)
  {
    && |meters| > 0 && meters[0] == map[]
    && forall i :: 0 < i < |meters| ==> WrittenByOne(meters[i - 1], meters[i])
  }

  ghost predicate WrittenByOne(before: map<Id, Metered>, after: map<Id, Metered>)
  {
    || (exists event: UsageEvent :: event.cost == 0 && RecordsFree(before, after, event))
    || (exists event: UsageEvent, list: seq<Consumption>, grants: Grants :: list != [] && RecordsCharge(before, after, event, list, grants))
  }

  lemma {:induction false} CallsFundTheirCost(meters: seq<map<Id, Metered>>)
    requires WrittenByCalls(meters)
    ensures var meter := meters[|meters| - 1];
            forall id :: id in meter && meter[id].sources == map[] ==> meter[id].event.cost == 0
  {
    var last := |meters| - 1;
    if last > 0 {
      CallsFundTheirCost(meters[..last]);
      assert WrittenByOne(meters[last - 1], meters[last]);
      OneCallFundsItsCost(meters[last - 1], meters[last]);
    }
  }

  lemma OneCallFundsItsCost(before: map<Id, Metered>, after: map<Id, Metered>)
    requires WrittenByOne(before, after)
    requires forall id :: id in before && before[id].sources == map[] ==> before[id].event.cost == 0
    ensures forall id :: id in after && after[id].sources == map[] ==> after[id].event.cost == 0
  {
    if event: UsageEvent, list: seq<Consumption>, grants: Grants :|
      list != [] && RecordsCharge(before, after, event, list, grants) {
      var id :| id !in before && id in after && after == before[id := after[id]]
                && after[id].event == event && PaidBy(after[id].sources, list, grants, event.cost);
      assert list[0].grant in after[id].sources;
    }
  }

  /** So of what calls that hold credits have cost in a month nothing is unattributed, and the
      report adds up to what was earned less what was spent. */
  lemma CallsLeaveNothingUnattributed(
    m: Month, subscriptions: map<Id, Sale>, packsSold: map<Id, Sale>, meters: seq<map<Id, Metered>>, storage: int)
    requires WrittenByCalls(meters) && AllExact(meters[|meters| - 1])
    ensures var r := ReconcileMonth(m, subscriptions, packsSold, meters[|meters| - 1], storage);
            && r.unattributedCogs == 0
            && r.allotmentCogs + r.packCogs + r.goodwillCogs == r.totalCogs
            && r.totalContribution == r.netRevenue - r.totalCogs - storage
  {
    CallsFundTheirCost(meters);
    AllFundedMeansNoneUnattributed(m, subscriptions, packsSold, meters[|meters| - 1], storage);
    ContributionReconciles(m, subscriptions, packsSold, meters[|meters| - 1], storage);
  }
}
