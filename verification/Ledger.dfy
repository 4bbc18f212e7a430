/** The prepaid credits ledger (src/ledger.ts). */
module Ledger {
  import opened Pricing
  import opened Sums
  import opened Tables
  import Order

  datatype Grant = Grant(
    org: Id, kind: GrantKind, credits: nat, remaining: int, expiresAt: Time, source: Option<nat>)

  type Grants = map<Id, Grant>

  // ---- What a consumption takes from each grant --------------------------------

  /** How much a list of consumptions names one grant for. */
  function Taken(list: seq<Consumption>, id: Id): int
  {
    if list == [] then 0
    else
      var last := list[|list| - 1];
      Taken(list[..|list| - 1], id) + (if last.grant == id then last.amount else 0)
  }

  function Amount(list: seq<Consumption>): int
  {
    if list == [] then 0 else Amount(list[..|list| - 1]) + list[|list| - 1].amount
  }

  function Debit(grants: Grants, list: seq<Consumption>): Grants
  {
    grants + map id | id in grants :: grants[id].(remaining := grants[id].remaining - Taken(list, id))
  }

  function Credit(grants: Grants, list: seq<Consumption>): Grants
  {
    grants + map id | id in grants :: grants[id].(remaining := grants[id].remaining + Taken(list, id))
  }

  predicate DistinctGrants(list: seq<Consumption>)
  {
    forall i, j :: 0 <= i < j < |list| ==> list[i].grant != list[j].grant
  }

  lemma TakenAppend(list: seq<Consumption>, c: Consumption, id: Id)
    ensures Taken(list + [c], id) == Taken(list, id) + (if c.grant == id then c.amount else 0)
    ensures Amount(list + [c]) == Amount(list) + c.amount
  {}

  lemma {:induction false} TakenAbsent(list: seq<Consumption>, id: Id)
    requires forall i :: 0 <= i < |list| ==> list[i].grant != id
    ensures Taken(list, id) == 0
  {
    if list != [] { TakenAbsent(list[..|list| - 1], id); }
  }

  // ---- Expiry-first order ------------------------------------------------------

  /** `ORDER BY expires_at ASC, id ASC`. */
  function ByExpiry(grants: Grants): Id -> nat
  {
    (id: Id) => if id in grants then grants[id].expiresAt else 0
  }

  predicate Usable(g: Grant, org: Id, now: Time)
  {
    g.org == org && g.expiresAt > now
  }

  function Spendable(grants: Grants, org: Id, now: Time): set<Id>
  {
    set id | id in grants && Usable(grants[id], org, now) && grants[id].remaining > 0
  }

  /** The grants a consumption may draw on, in the order it draws on them. */
  function SpendOrder(grants: Grants, org: Id, now: Time): (order: seq<Id>)
    ensures forall x :: x in order <==> x in Spendable(grants, org, now)
    ensures forall i, j :: 0 <= i < j < |order| ==> order[i] != order[j]
    ensures forall i, j :: 0 <= i < j < |order| ==> Order.Le(ByExpiry(grants), order[i], order[j])
  {
    Order.Sorted(Spendable(grants, org, now), ByExpiry(grants))
  }

  function Unspent(g: Grant): int { g.remaining }

  function Balances(org: Id, now: Time): Grant -> int
  {
    (g: Grant) => if Usable(g, org, now) then g.remaining else 0
  }

  /** SUM(remaining_credits) over the organization's unexpired grants. */
  ghost function BalanceOf(grants: Grants, org: Id, now: Time): int
  {
    Total(grants, Balances(org, now))
  }

  /** The balance, over the grants' columns. */
  lemma BalanceIsTheSum(grants: Grants, org: Id, now: Time)
    ensures BalanceOf(grants, org, now)
         == Total(grants, (g: Grant) => if g.org == org && g.expiresAt > now then g.remaining else 0)
  {
    TotalSame(grants, Balances(org, now), grants, (g: Grant) => if g.org == org && g.expiresAt > now then g.remaining else 0);
  }

  function RemainingOf(grants: Grants, id: Id): int
  {
    if id in grants then grants[id].remaining else 0
  }

  function Available(grants: Grants, order: seq<Id>): int
  {
    if order == [] then 0 else RemainingOf(grants, order[0]) + Available(grants, order[1..])
  }

  function Rows(grants: Grants, ids: set<Id>): Grants
  {
    grants - (grants.Keys - ids)
  }

  lemma {:induction false} AvailableIsTotal(grants: Grants, order: seq<Id>, ids: set<Id>)
    requires ids <= grants.Keys
    requires forall x :: x in order <==> x in ids
    requires forall i, j :: 0 <= i < j < |order| ==> order[i] != order[j]
    ensures Available(grants, order) == Total(Rows(grants, ids), Unspent)
    decreases |order|
  {
    if order != [] {
      var f, rest := order[0], order[1..];
      TotalRemove(Rows(grants, ids), Unspent, f);
      assert Rows(grants, ids) - {f} == Rows(grants, ids - {f});
      forall x ensures x in rest <==> x in ids - {f} {
        if x in rest {
          var i :| 0 <= i < |rest| && rest[i] == x;
          assert order[i + 1] == x;
        }
      }
      AvailableIsTotal(grants, rest, ids - {f});
    } else {
      assert Rows(grants, ids) == map[];
    }
  }

  lemma AvailableIsBalance(grants: Grants, org: Id, now: Time)
    requires forall id :: id in grants ==> grants[id].remaining >= 0
    ensures Available(grants, SpendOrder(grants, org, now)) == BalanceOf(grants, org, now)
  {
    var ids := Spendable(grants, org, now);
    AvailableIsTotal(grants, SpendOrder(grants, org, now), ids);
    SpendableIsUnspent(grants, org, now);
    OthersAddNothing(grants, org, now);
  }

  lemma OthersAddNothing(grants: Grants, org: Id, now: Time)
    requires forall id :: id in grants ==> grants[id].remaining >= 0
    ensures Total(Rows(grants, Spendable(grants, org, now)), Balances(org, now)) == BalanceOf(grants, org, now)
  {
    TotalRestrict(grants, Rows(grants, Spendable(grants, org, now)), Balances(org, now));
  }

  lemma SpendableIsUnspent(grants: Grants, org: Id, now: Time)
    ensures var m := Rows(grants, Spendable(grants, org, now));
            Total(m, Unspent) == Total(m, Balances(org, now))
  {
    var m := Rows(grants, Spendable(grants, org, now));
    TotalSame(m, Unspent, m, Balances(org, now));
  }

  // ---- The walk ----------------------------------------------------------------

  /** What the walk takes: each grant in turn until nothing is left to cover. */
  function Take(grants: Grants, order: seq<Id>, left: nat): seq<Consumption>
    requires forall x :: x in order ==> RemainingOf(grants, x) > 0
  {
    if left == 0 || order == [] then []
    else
      var take := Min(left, RemainingOf(grants, order[0]));
      [Consumption(order[0], take)] + Take(grants, order[1..], left - take)
  }

  lemma {:induction false} AmountCons(c: Consumption, rest: seq<Consumption>)
    ensures Amount([c] + rest) == c.amount + Amount(rest)
  {
    if rest == [] {
      assert [c] + rest == [c] && [c][..0] == [];
    } else {
      AmountCons(c, rest[..|rest| - 1]);
      assert ([c] + rest)[..|[c] + rest| - 1] == [c] + rest[..|rest| - 1];
    }
  }

  lemma TakeStep(grants: Grants, order: seq<Id>, i: nat, left: nat)
    requires forall x :: x in order ==> RemainingOf(grants, x) > 0
    requires i < |order| && left > 0
    ensures var take := Min(left, RemainingOf(grants, order[i]));
            Take(grants, order[i..], left)
            == [Consumption(order[i], take)] + Take(grants, order[i + 1..], left - take)
  {}

  /** The same with what was taken before. */
  lemma TakeOn(grants: Grants, order: seq<Id>, i: nat, left: nat, taken: seq<Consumption>, whole: seq<Consumption>)
    requires forall x :: x in order ==> RemainingOf(grants, x) > 0
    requires i < |order| && left > 0 && taken + Take(grants, order[i..], left) == whole
    ensures var take := Min(left, RemainingOf(grants, order[i]));
            taken + [Consumption(order[i], take)] + Take(grants, order[i + 1..], left - take) == whole
  {
    TakeStep(grants, order, i, left);
  }

  /** The walk takes as much as it can... */
  lemma {:induction false} TakeAmount(grants: Grants, order: seq<Id>, left: nat)
    requires forall x :: x in order ==> RemainingOf(grants, x) > 0
    ensures Amount(Take(grants, order, left)) == Min(left, Available(grants, order))
    ensures Available(grants, order) >= 0
  {
    if order != [] {
      var take := Min(left, RemainingOf(grants, order[0]));
      TakeAmount(grants, order[1..], left - take);
      AmountCons(Consumption(order[0], take), Take(grants, order[1..], left - take));
    }
  }

  /** ...in order, draining every grant it touches but possibly the last. */
  lemma {:induction false} TakeShape(grants: Grants, order: seq<Id>, left: nat)
    requires forall x :: x in order ==> RemainingOf(grants, x) > 0
    ensures var t := Take(grants, order, left);
            && |t| <= |order|
            && (forall i :: 0 <= i < |t| ==> t[i].grant == order[i] && 0 < t[i].amount <= RemainingOf(grants, order[i]))
            && (forall i :: 0 <= i < |t| - 1 ==> t[i].amount == RemainingOf(grants, order[i]))
  {
    if order != [] && left > 0 {
      var take := Min(left, RemainingOf(grants, order[0]));
      TakeShape(grants, order[1..], left - take);
      var rest := Take(grants, order[1..], left - take);
      var t := Take(grants, order, left);
      assert t == [Consumption(order[0], take)] + rest;
      forall i | 1 <= i < |t|
        ensures t[i].grant == order[i] && 0 < t[i].amount <= RemainingOf(grants, order[i])
        ensures i < |t| - 1 ==> t[i].amount == RemainingOf(grants, order[i]) {
        assert t[i] == rest[i - 1] && order[1..][i - 1] == order[i];
      }
    }
  }

  /** A consumption can be given back exactly: refunding it restores every grant. */
  lemma RefundRestores(grants: Grants, list: seq<Consumption>)
    ensures Credit(Debit(grants, list), list) == grants
  {
    forall id | id in grants ensures Credit(Debit(grants, list), list)[id] == grants[id] {
    }
  }

  // ---- The object --------------------------------------------------------------

  datatype ConsumeOutcome =
    | Consumed(list: seq<Consumption>)
    | Insufficient(balance: int, needed: int)

  /** What `consumeCredits` returns for a table, in closed form. */
  ghost function ConsumeResult(grants: Grants, org: Id, amount: int, now: Time): ConsumeOutcome
  {
    if amount <= 0 then Consumed([])
    else
      var order := SpendOrder(grants, org, now);
      if Available(grants, order) >= amount then Consumed(Take(grants, order, amount))
      else Insufficient(Available(grants, order), amount)
  }

  /** A grant comes before another: it expires sooner, or at the same time with a smaller id. */
  predicate Sooner(grants: Grants, g: Id, h: Id)
  {
    && g in grants && h in grants
    && (grants[g].expiresAt < grants[h].expiresAt || (grants[g].expiresAt == grants[h].expiresAt && g < h))
  }

  /** A consumption's list, by the grants' columns: only unexpired grants of the organization
      are drawn on, in order of expiry, and none of them while one that comes before it still
      holds anything. */
  ghost predicate SoonestFirst(grants: Grants, org: Id, now: Time, out: ConsumeOutcome)
  {
    match out
    case Insufficient(_, _) => true
    case Consumed(list) =>
      && (forall i :: 0 <= i < |list| ==>
            && list[i].grant in grants
            && grants[list[i].grant].org == org && grants[list[i].grant].expiresAt > now
            && 0 < list[i].amount == Taken(list, list[i].grant) <= grants[list[i].grant].remaining)
      && (forall i, j :: 0 <= i < j < |list| ==> Sooner(grants, list[i].grant, list[j].grant))
      && (forall i, g :: 0 <= i < |list| && g in grants
                         && grants[g].org == org && grants[g].expiresAt > now && grants[g].remaining > 0
                         && Sooner(grants, g, list[i].grant)
                         ==> Taken(list, g) == grants[g].remaining)
  }

  lemma {:induction false} TakenDistinct(list: seq<Consumption>, i: nat)
    requires i < |list| && DistinctGrants(list)
    ensures Taken(list, list[i].grant) == list[i].amount
  {
    var n := |list| - 1;
    if i == n {
      TakenAbsent(list[..n], list[n].grant);
    } else {
      TakenDistinct(list[..n], i);
    }
  }

  /** The shape of a walk: a prefix of the order, everything before its end taken whole. */
  ghost predicate Prefixed(grants: Grants, order: seq<Id>, t: seq<Consumption>)
  {
    && |t| <= |order|
    && (forall i :: 0 <= i < |t| ==> t[i].grant == order[i] && 0 < t[i].amount <= RemainingOf(grants, order[i]))
    && (forall i :: 0 <= i < |t| - 1 ==> t[i].amount == RemainingOf(grants, order[i]))
  }

  lemma {:induction false} OrderIsSooner(grants: Grants, order: seq<Id>, i: nat, j: nat)
    requires i < j < |order| && order[i] in grants && order[j] in grants && order[i] != order[j]
    requires Order.Le(ByExpiry(grants), order[i], order[j])
    ensures Sooner(grants, order[i], order[j]) && !Sooner(grants, order[j], order[i])
  {}

  lemma {:induction false} SoonerIsTakenWhole(grants: Grants, org: Id, now: Time, t: seq<Consumption>, i: nat, g: Id)
    requires Prefixed(grants, SpendOrder(grants, org, now), t) && DistinctGrants(t)
    requires i < |t| && g in Spendable(grants, org, now) && Sooner(grants, g, t[i].grant)
    ensures Taken(t, g) == grants[g].remaining
  {
    var order := SpendOrder(grants, org, now);
    assert g in order && order[i] in order;
    var j :| 0 <= j < |order| && order[j] == g;
    if j > i { OrderIsSooner(grants, order, i, j); }
    TakenDistinct(t, j);
  }

  lemma {:induction false} ListedIsUsable(grants: Grants, org: Id, now: Time, t: seq<Consumption>, i: nat)
    requires Prefixed(grants, SpendOrder(grants, org, now), t) && DistinctGrants(t) && i < |t|
    ensures t[i].grant in grants && grants[t[i].grant].org == org && grants[t[i].grant].expiresAt > now
    ensures 0 < t[i].amount == Taken(t, t[i].grant) <= grants[t[i].grant].remaining
    ensures forall j :: i < j < |t| ==> Sooner(grants, t[i].grant, t[j].grant)
  {
    var order := SpendOrder(grants, org, now);
    assert order[i] in order;
    TakenDistinct(t, i);
    forall j | i < j < |t| ensures Sooner(grants, t[i].grant, t[j].grant) {
      assert order[j] in order;
      OrderIsSooner(grants, order, i, j);
    }
  }

  lemma {:induction false} PrefixIsSoonestFirst(grants: Grants, org: Id, now: Time, t: seq<Consumption>)
    requires Prefixed(grants, SpendOrder(grants, org, now), t) && DistinctGrants(t)
    ensures SoonestFirst(grants, org, now, Consumed(t))
  {
    forall i | 0 <= i < |t|
      ensures t[i].grant in grants && grants[t[i].grant].org == org && grants[t[i].grant].expiresAt > now
      ensures 0 < t[i].amount == Taken(t, t[i].grant) <= grants[t[i].grant].remaining
      ensures forall j :: i < j < |t| ==> Sooner(grants, t[i].grant, t[j].grant) {
      ListedIsUsable(grants, org, now, t, i);
    }
    forall i, g | 0 <= i < |t| && g in Spendable(grants, org, now) && Sooner(grants, g, t[i].grant)
      ensures Taken(t, g) == grants[g].remaining {
      SoonerIsTakenWhole(grants, org, now, t, i, g);
    }
  }

  lemma {:induction false} WalkIsSoonestFirst(grants: Grants, org: Id, amount: nat, now: Time)
    ensures SoonestFirst(grants, org, now, Consumed(Take(grants, SpendOrder(grants, org, now), amount)))
  {
    var order := SpendOrder(grants, org, now);
    TakeShape(grants, order, amount);
    PrefixIsSoonestFirst(grants, org, now, Take(grants, order, amount));
  }

  /** Whatever is asked for, the soonest to expire go first. */
  lemma {:induction false} ConsumesSoonestFirst(grants: Grants, org: Id, amount: int, now: Time)
    ensures SoonestFirst(grants, org, now, ConsumeResult(grants, org, amount, now))
  {
    if amount > 0 {
      WalkIsSoonestFirst(grants, org, amount, now);
    }
  }

  /** Success is exactly having the balance, and takes exactly the amount: from distinct
      grants, in the order they are drawn on, draining all of them but the last. */
  lemma ConsumeTakesExactly(grants: Grants, org: Id, amount: int, now: Time)
    requires forall id :: id in grants ==> grants[id].remaining >= 0
    ensures var r := ConsumeResult(grants, org, amount, now);
            && (r.Consumed? <==> amount <= 0 || BalanceOf(grants, org, now) >= amount)
            && (r.Insufficient? ==> r.balance == BalanceOf(grants, org, now) && r.needed == amount)
            && (r.Consumed? ==>
                  var order := SpendOrder(grants, org, now);
                  && Amount(r.list) == Max(0, amount)
                  && DistinctGrants(r.list)
                  && |r.list| <= |order|
                  && (forall i :: 0 <= i < |r.list| ==>
                        r.list[i].grant == order[i] && 0 < r.list[i].amount <= RemainingOf(grants, order[i]))
                  && (forall i :: 0 <= i < |r.list| - 1 ==> r.list[i].amount == RemainingOf(grants, order[i])))
  {
    AvailableIsBalance(grants, org, now);
    if amount > 0 {
      TakeShape(grants, SpendOrder(grants, org, now), amount);
      TakeAmount(grants, SpendOrder(grants, org, now), amount);
    }
  }

  /** A consumption succeeds exactly if what the organization's unexpired grants still hold, column
      by column, covers it; otherwise that is the balance it reports. */
  ghost predicate DecidedByBalance(grants: Grants, org: Id, amount: int, now: Time, out: ConsumeOutcome)
  {
    match out
    case Consumed(list) =>
      (forall id :: id in grants ==> grants[id].remaining >= 0) ==>
        && Amount(list) == (if amount >= 0 then amount else 0)
        && (amount <= 0 || Total(grants, (g: Grant) => if g.org == org && g.expiresAt > now then g.remaining else 0) >= amount)
    case Insufficient(balance, needed) =>
      (forall id :: id in grants ==> grants[id].remaining >= 0) ==>
        && balance == Total(grants, (g: Grant) => if g.org == org && g.expiresAt > now then g.remaining else 0)
        && balance < amount == needed
  }

  lemma {:induction false} DecidedByTheBalance(grants: Grants, org: Id, amount: int, now: Time)
    ensures DecidedByBalance(grants, org, amount, now, ConsumeResult(grants, org, amount, now))
  {
    if forall id :: id in grants ==> grants[id].remaining >= 0 {
      BalanceIsTheSum(grants, org, now);
      ConsumeTakesExactly(grants, org, amount, now);
    }
  }

  /** The loop over the locked rows, `i` of them done: what was taken is the walk so far. */
  ghost predicate OnWalk(
    before: Grants, order: seq<Id>, amount: nat, grants: Grants, i: int, consumed: seq<Consumption>, left: int)
  {
    && 0 <= i <= |order| && left >= 0
    && (forall x :: x in order ==> RemainingOf(before, x) > 0)
    && (forall j, k :: 0 <= j < k < |order| ==> order[j] != order[k])
    && consumed + Take(before, order[i..], left) == Take(before, order, amount)
    && left + Amount(consumed) == amount
    && grants == Debit(before, consumed)
    && forall j :: i <= j < |order| ==> Taken(consumed, order[j]) == 0
  }

  lemma {:induction false} WalkEnds(
    before: Grants, order: seq<Id>, amount: nat, grants: Grants, i: int, consumed: seq<Consumption>, left: int)
    requires OnWalk(before, order, amount, grants, i, consumed, left) && (i == |order| || left == 0)
    ensures consumed == Take(before, order, amount)
  {
    assert Take(before, order[i..], left) == [];
  }

  lemma {:induction false} WalkStarts(before: Grants, order: seq<Id>, amount: nat)
    requires forall x :: x in order ==> RemainingOf(before, x) > 0
    requires forall i, j :: 0 <= i < j < |order| ==> order[i] != order[j]
    ensures OnWalk(before, order, amount, before, 0, [], amount)
  {
    DebitNothing(before);
    assert order[0..] == order;
    assert [] + Take(before, order, amount) == Take(before, order, amount);
  }

  lemma {:induction false} OneGrantOn(
    before: Grants, order: seq<Id>, amount: nat, grants: Grants, i: int, consumed: seq<Consumption>, left: int)
    requires OnWalk(before, order, amount, grants, i, consumed, left) && i < |order| && left != 0
    ensures var id := order[i];
            && id in grants && grants[id].remaining == RemainingOf(before, id) > 0
            && var take := Min(left, grants[id].remaining);
               OnWalk(before, order, amount, grants[id := grants[id].(remaining := grants[id].remaining - take)], i + 1,
                      consumed + [Consumption(id, take)], left - take)
  {
    var id := order[i];
    var take := Min(left, RemainingOf(before, id));
    TakeOn(before, order, i, left, consumed, Take(before, order, amount));
    DebitOne(before, consumed, id, take);
    RestUntouched(consumed, order, i, take);
  }

  class CreditLedger {
    var grants: Grants

    constructor ()
      ensures grants == map[]
    {
      grants := map[];
    }

    /** `ON CONFLICT (source_ref) DO NOTHING`: one grant per payment event. */
    method GrantCredits(id: Id, g: Grant) returns (granted: Option<Id>)
      requires id !in grants && g.remaining == g.credits > 0
      modifies this
      ensures granted.None? <==> g.source.Some? && exists o :: o in old(grants) && old(grants)[o].source == g.source
      ensures granted.Some? ==> granted == Some(id) && grants == old(grants)[id := g]
      ensures granted.None? ==> grants == old(grants)
    {
      if g.source.Some? && exists o :: o in grants && grants[o].source == g.source {
        return None;
      }
      grants := grants[id := g];
      granted := Some(id);
    }

    method Balance(org: Id, now: Time) returns (total: int)
      ensures total == BalanceOf(grants, org, now)
      ensures total == Total(grants, (g: Grant) => if g.org == org && g.expiresAt > now then g.remaining else 0)
    {
      BalanceIsTheSum(grants, org, now);
      total := SumQuery(grants, Balances(org, now));
    }

    /** All of `amount`, or the transaction is rolled back. */
    method ConsumeCredits(org: Id, amount: int, now: Time) returns (out: ConsumeOutcome)
      modifies this
      ensures out == ConsumeResult(old(grants), org, amount, now)
      ensures out.Insufficient? ==> grants == old(grants)
      ensures out.Consumed? ==> grants == Debit(old(grants), out.list)
      ensures SoonestFirst(old(grants), org, now, out)
    {
      if amount <= 0 {
        DebitNothing(grants);
        return Consumed([]);
      }
      var saved := grants;
      var order := SpendOrder(grants, org, now);
      var consumed, left := DebitInOrder(order, amount);
      TakeAmount(saved, order, amount);
      if left > 0 {
        grants := saved;
        return Insufficient(amount - left, amount);
      }
      ConsumesSoonestFirst(saved, org, amount, now);
      out := Consumed(consumed);
    }

    /** The loop over the locked rows. */
    method DebitInOrder(order: seq<Id>, amount: nat) returns (consumed: seq<Consumption>, left: nat)
      requires forall x :: x in order ==> RemainingOf(grants, x) > 0
      requires forall i, j :: 0 <= i < j < |order| ==> order[i] != order[j]
      modifies this
      ensures consumed == Take(old(grants), order, amount)
      ensures grants == Debit(old(grants), consumed)
      ensures left == amount - Amount(consumed)
    {
      ghost var before := grants;
      consumed, left := [], amount;
      var i := 0;
      WalkStarts(before, order, amount);
      while i < |order| && left != 0
        invariant OnWalk(before, order, amount, grants, i, consumed, left)
      {
        var id := order[i];
        OneGrantOn(before, order, amount, grants, i, consumed, left);
        var take := Min(left, grants[id].remaining);
        if grants[id].remaining >= take {
          grants := grants[id := grants[id].(remaining := grants[id].remaining - take)];
          consumed := consumed + [Consumption(id, take)];
          left := left - take;
        }
        i := i + 1;
      }
      WalkEnds(before, order, amount, grants, i, consumed, left);
    }

    /** Adds every entry back. Nothing marks the entries as refunded: calling it twice
        credits twice. */
    method RefundCredits(list: seq<Consumption>)
      modifies this
      ensures grants == Credit(old(grants), list)
    {
      ghost var before := grants;
      var i := 0;
      assert grants == Credit(before, list[..0]);
      while i < |list|
        invariant 0 <= i <= |list|
        invariant grants == Credit(before, list[..i])
      {
        assert list[..i + 1] == list[..i] + [list[i]];
        CreditOne(before, list[..i], list[i]);
        if list[i].grant in grants {
          var g := grants[list[i].grant];
          grants := grants[list[i].grant := g.(remaining := g.remaining + list[i].amount)];
        }
        i := i + 1;
      }
      assert list[..i] == list;
    }
  }

  lemma RestUntouched(consumed: seq<Consumption>, order: seq<Id>, i: nat, take: int)
    requires i < |order| && forall j :: i < j < |order| ==> order[j] != order[i] && Taken(consumed, order[j]) == 0
    ensures forall j :: i < j < |order| ==> Taken(consumed + [Consumption(order[i], take)], order[j]) == 0
  {
    forall j | i < j < |order| ensures Taken(consumed + [Consumption(order[i], take)], order[j]) == 0 {
      TakenAppend(consumed, Consumption(order[i], take), order[j]);
    }
  }

  lemma DebitNothing(grants: Grants)
    ensures Debit(grants, []) == grants
  {}

  lemma DebitOne(grants: Grants, list: seq<Consumption>, id: Id, amount: int)
    requires id in grants
    ensures var g := Debit(grants, list)[id];
            Debit(grants, list + [Consumption(id, amount)])
            == Debit(grants, list)[id := g.(remaining := g.remaining - amount)]
  {}

  lemma CreditOne(grants: Grants, list: seq<Consumption>, c: Consumption)
    ensures Credit(grants, list + [c])
            == if c.grant in grants then
                 var g := Credit(grants, list)[c.grant];
                 Credit(grants, list)[c.grant := g.(remaining := g.remaining + c.amount)]
               else Credit(grants, list)
  {}
}
