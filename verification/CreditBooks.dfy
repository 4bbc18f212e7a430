/** Credit conservation (src/economicPath.ts 95-332, src/ciBatch.ts 113-367): where every
    credit that was ever granted is, over any run of grants, reservations, charges and
    refunds. A call is one reservation, made interactively or for one frame of a batch. */
module CreditBooks {
  import opened Pricing
  import opened Sums
  import opened Tables
  import opened Ledger

  datatype Status = InFlight | Paid | Returned

  datatype Call = Call(reservation: seq<Consumption>, price: int, status: Status)

  datatype Books = Books(grants: Grants, calls: map<Id, Call>)

  datatype Action =
    | Grant(id: Id, grant: Ledger.Grant)
    | Reserve(call: Id, org: Id, price: int, now: Time)
    | Charge(call: Id)
    | Return(call: Id)

  predicate Grantable(grants: Grants, id: Id, g: Ledger.Grant)
  {
    && id !in grants && g.remaining == g.credits > 0
    && (g.source.Some? ==> forall o :: o in grants ==> grants[o].source != g.source)
  }

  /** What each operation does to the books. Charging and refunding look at nothing but
      the call: the code keeps no record that a call has already been finished. */
  ghost function Step(b: Books, action: Action): Books
  {
    match action
    case Grant(id, g) => if Grantable(b.grants, id, g) then b.(grants := b.grants[id := g]) else b
    case Reserve(c, org, price, now) =>
      if c in b.calls then b
      else
        (match ConsumeResult(b.grants, org, price, now)
         case Consumed(list) => Books(Debit(b.grants, list), b.calls[c := Call(list, price, InFlight)])
         case Insufficient(_, _) => b)
    case Charge(c) => if c in b.calls then b.(calls := b.calls[c := b.calls[c].(status := Paid)]) else b
    case Return(c) =>
      if c in b.calls then
        Books(Credit(b.grants, b.calls[c].reservation), b.calls[c := b.calls[c].(status := Returned)])
      else b
  }

  ghost function Run(b: Books, actions: seq<Action>): Books
  {
    if actions == [] then b else Step(Run(b, actions[..|actions| - 1]), actions[|actions| - 1])
  }

  function Empty(): Books { Books(map[], map[]) }

  // ---- Conservation ------------------------------------------------------------

  function TakenIf(status: Status, g: Id): Call -> int
  {
    (c: Call) => if c.status == status then Taken(c.reservation, g) else 0
  }

  function PriceIf(status: Status): Call -> int
  {
    (c: Call) => if c.status == status then Max(0, c.price) else 0
  }

  function Granted(g: Ledger.Grant): int { g.credits }

  /** Each grant's credits are still there, held by calls in flight, or paid. */
  ghost predicate GrantConserved(b: Books, g: Id)
  {
    g in b.grants ==>
      b.grants[g].credits
      == b.grants[g].remaining + Total(b.calls, TakenIf(InFlight, g)) + Total(b.calls, TakenIf(Paid, g))
  }

  /** And so in total, at the calls' full prices. */
  ghost predicate AllConserved(b: Books)
  {
    Total(b.grants, Granted)
    == Total(b.grants, Unspent) + Total(b.calls, PriceIf(InFlight)) + Total(b.calls, PriceIf(Paid))
  }

  ghost predicate Conserved(b: Books)
  {
    AllConserved(b) && forall g :: GrantConserved(b, g)
  }

  ghost predicate GoodCall(grants: Grants, c: Call)
  {
    && Amount(c.reservation) == Max(0, c.price)
    && DistinctGrants(c.reservation)
    && (forall i :: 0 <= i < |c.reservation| ==> c.reservation[i].grant in grants && c.reservation[i].amount > 0)
  }

  ghost predicate Good(b: Books)
  {
    && (forall g :: g in b.grants ==> b.grants[g].remaining >= 0)
    && (forall c :: c in b.calls ==> GoodCall(b.grants, b.calls[c]))
    && Conserved(b)
  }

  lemma {:induction false} TakenNonNegative(list: seq<Consumption>, g: Id)
    requires forall i :: 0 <= i < |list| ==> list[i].amount > 0
    ensures Taken(list, g) >= 0
  {
    if list != [] { TakenNonNegative(list[..|list| - 1], g); }
  }

  lemma {:induction false} DebitTotal(grants: Grants, list: seq<Consumption>)
    requires forall i :: 0 <= i < |list| ==> list[i].grant in grants
    ensures Total(Debit(grants, list), Unspent) == Total(grants, Unspent) - Amount(list)
  {
    if list == [] {
      DebitNothing(grants);
    } else {
      var n := |list| - 1;
      var c := list[n];
      var before: Grants := Debit(grants, list[..n]);
      DebitTotal(grants, list[..n]);
      assert list == list[..n] + [Consumption(c.grant, c.amount)];
      DebitOne(grants, list[..n], c.grant, c.amount);
      var row := before[c.grant].(remaining := before[c.grant].remaining - c.amount);
      assert Debit(grants, list) == before[c.grant := row];
      TotalUpdate(before, Unspent, c.grant, row);
    }
  }

  lemma CreditTotal(grants: Grants, list: seq<Consumption>)
    requires forall i :: 0 <= i < |list| ==> list[i].grant in grants
    ensures Total(Credit(grants, list), Unspent) == Total(grants, Unspent) + Amount(list)
  {
    DebitTotal(Credit(grants, list), list);
    assert Debit(Credit(grants, list), list) == grants;
  }

  lemma GrantedUnmoved(grants: Grants, list: seq<Consumption>)
    ensures Total(Debit(grants, list), Granted) == Total(grants, Granted)
    ensures Total(Credit(grants, list), Granted) == Total(grants, Granted)
  {
    TotalSame(Debit(grants, list), Granted, grants, Granted);
    TotalSame(Credit(grants, list), Granted, grants, Granted);
  }

  /** What changing one call's row does to the sums over calls. */
  lemma CallMoves(calls: map<Id, Call>, c: Id, row: Call, status: Status, g: Id)
    ensures Total(calls[c := row], TakenIf(status, g))
            == Total(calls, TakenIf(status, g)) + TakenIf(status, g)(row)
               - (if c in calls then TakenIf(status, g)(calls[c]) else 0)
    ensures Total(calls[c := row], PriceIf(status))
            == Total(calls, PriceIf(status)) + PriceIf(status)(row)
               - (if c in calls then PriceIf(status)(calls[c]) else 0)
  {
    TotalUpdate(calls, TakenIf(status, g), c, row);
    TotalUpdate(calls, PriceIf(status), c, row);
  }

  lemma GrantKeeps(b: Books, id: Id, g: Ledger.Grant)
    requires Good(b) && Grantable(b.grants, id, g)
    ensures Good(Step(b, Action.Grant(id, g)))
  {
    var n := Step(b, Action.Grant(id, g));
    TotalUpdate(b.grants, Granted, id, g);
    TotalUpdate(b.grants, Unspent, id, g);
    forall x ensures GrantConserved(n, x) {
      assert GrantConserved(b, x);
      if x == id {
        forall c | c in b.calls ensures Taken(b.calls[c].reservation, id) == 0 {
          TakenAbsent(b.calls[c].reservation, id);
        }
        TotalZero(b.calls, TakenIf(InFlight, id));
        TotalZero(b.calls, TakenIf(Paid, id));
      }
    }
  }

  lemma ReserveKeeps(b: Books, c: Id, org: Id, price: int, now: Time)
    requires Good(b)
    ensures Good(Step(b, Reserve(c, org, price, now)))
  {
    var r := ConsumeResult(b.grants, org, price, now);
    if c !in b.calls && r.Consumed? {
      ConsumeIsGood(b.grants, org, price, now);
      ReservationKeeps(b, Step(b, Reserve(c, org, price, now)), c, r.list, price);
    }
  }

  lemma {:induction false} ReservationConservesAll(b: Books, n: Books, c: Id, list: seq<Consumption>, price: int)
    requires AllConserved(b) && c !in b.calls && GoodCall(b.grants, Call(list, price, InFlight))
    requires n == Books(Debit(b.grants, list), b.calls[c := Call(list, price, InFlight)])
    ensures AllConserved(n)
  {
    var row := Call(list, price, InFlight);
    DebitTotal(b.grants, list);
    GrantedUnmoved(b.grants, list);
    CallMoves(b.calls, c, row, InFlight, 0);
    CallMoves(b.calls, c, row, Paid, 0);
  }

  lemma {:induction false} ReservationKeeps(b: Books, n: Books, c: Id, list: seq<Consumption>, price: int)
    requires Good(b) && c !in b.calls && GoodCall(b.grants, Call(list, price, InFlight))
    requires n == Books(Debit(b.grants, list), b.calls[c := Call(list, price, InFlight)])
    requires forall g :: g in b.grants ==> n.grants[g].remaining >= 0
    ensures Good(n)
  {
    ReservationConservesAll(b, n, c, list, price);
    forall g ensures GrantConserved(n, g) {
      assert GrantConserved(b, g);
      ReserveConserves(b, c, list, price, g);
    }
    forall x | x in n.calls ensures GoodCall(n.grants, n.calls[x]) {
      if x != c { assert GoodCall(b.grants, b.calls[x]); }
    }
  }

  lemma ReserveConserves(b: Books, c: Id, list: seq<Consumption>, price: int, g: Id)
    requires GrantConserved(b, g) && c !in b.calls
    ensures GrantConserved(Books(Debit(b.grants, list), b.calls[c := Call(list, price, InFlight)]), g)
  {
    CallMoves(b.calls, c, Call(list, price, InFlight), InFlight, g);
    CallMoves(b.calls, c, Call(list, price, InFlight), Paid, g);
  }

  /** A successful consumption is a good reservation, and leaves no grant negative. */
  lemma ConsumeIsGood(grants: Grants, org: Id, price: int, now: Time)
    requires forall g :: g in grants ==> grants[g].remaining >= 0
    requires ConsumeResult(grants, org, price, now).Consumed?
    ensures var list := ConsumeResult(grants, org, price, now).list;
            && GoodCall(Debit(grants, list), Call(list, price, InFlight))
            && (forall i :: 0 <= i < |list| ==> list[i].grant in grants)
            && (forall g :: g in grants ==> Debit(grants, list)[g].remaining >= 0)
  {
    ConsumeTakesExactly(grants, org, price, now);
    var list := ConsumeResult(grants, org, price, now).list;
    forall i | 0 <= i < |list|
      ensures list[i].grant in grants && 0 < list[i].amount <= grants[list[i].grant].remaining {
    }
    forall g | g in grants ensures Taken(list, g) <= grants[g].remaining {
      TakenOnce(list, g);
    }
  }

  lemma {:induction false} TakenOnce(list: seq<Consumption>, g: Id)
    requires DistinctGrants(list)
    ensures Taken(list, g) == 0 || exists i :: 0 <= i < |list| && list[i].grant == g && Taken(list, g) == list[i].amount
  {
    if list != [] {
      var n := |list| - 1;
      TakenOnce(list[..n], g);
      if list[n].grant == g {
        TakenAbsent(list[..n], g);
      } else if Taken(list[..n], g) != 0 {
        var i :| 0 <= i < n && list[..n][i].grant == g && Taken(list[..n], g) == list[..n][i].amount;
        assert list[i].grant == g;
      }
    }
  }

  /** A call that holds nothing took nothing from any grant. */
  lemma {:induction false} NothingHeld(list: seq<Consumption>, g: Id)
    requires Amount(list) <= 0 && forall i :: 0 <= i < |list| ==> list[i].amount > 0
    ensures list == [] && Taken(list, g) == 0
  {
    AmountAtLeast(list);
  }

  lemma {:induction false} AmountAtLeast(list: seq<Consumption>)
    requires forall i :: 0 <= i < |list| ==> list[i].amount > 0
    ensures Amount(list) >= |list|
  {
    if list != [] { AmountAtLeast(list[..|list| - 1]); }
  }

  lemma ChargeTotals(b: Books, c: Id)
    requires Good(b) && c in b.calls
    ensures AllConserved(Step(b, Charge(c))) <==> b.calls[c].status != Returned || b.calls[c].price <= 0
  {
    var row := b.calls[c].(status := Paid);
    CallMoves(b.calls, c, row, InFlight, 0);
    CallMoves(b.calls, c, row, Paid, 0);
    assert AllConserved(b) && Step(b, Charge(c)) == Books(b.grants, b.calls[c := row]);
  }

  lemma ChargeOneGrant(b: Books, c: Id, g: Id)
    requires Good(b) && c in b.calls && (b.calls[c].status != Returned || b.calls[c].price <= 0)
    ensures GrantConserved(Step(b, Charge(c)), g)
  {
    var row := b.calls[c].(status := Paid);
    assert GrantConserved(b, g) && GoodCall(b.grants, b.calls[c]);
    if b.calls[c].price <= 0 { NothingHeld(b.calls[c].reservation, g); }
    CallMoves(b.calls, c, row, InFlight, g);
    CallMoves(b.calls, c, row, Paid, g);
  }

  /** Charging a call keeps the books straight exactly when the call has not been refunded, or
      held nothing to begin with. */
  lemma ChargeKeeps(b: Books, c: Id)
    requires Good(b) && c in b.calls
    ensures Good(Step(b, Charge(c))) <==> b.calls[c].status != Returned || b.calls[c].price <= 0
  {
    var n := Step(b, Charge(c));
    ChargeTotals(b, c);
    if b.calls[c].status != Returned || b.calls[c].price <= 0 {
      forall g ensures GrantConserved(n, g) { ChargeOneGrant(b, c, g); }
    }
  }

  /** And so does refunding it: in flight or charged before, the credits go back; a second
      refund creates credits. */
  lemma ReturnKeeps(b: Books, c: Id)
    requires Good(b) && c in b.calls
    ensures Good(Step(b, Return(c))) <==> b.calls[c].status != Returned || b.calls[c].price <= 0
  {
    var n := Step(b, Return(c));
    ReturnTotals(b, c);
    if b.calls[c].status != Returned || b.calls[c].price <= 0 {
      forall g ensures GrantConserved(n, g) && (g in n.grants ==> n.grants[g].remaining >= 0) {
        ReturnOneGrant(b, c, g);
      }
      forall x | x in n.calls ensures GoodCall(n.grants, n.calls[x]) {
        assert GoodCall(b.grants, b.calls[x]);
      }
    }
  }

  lemma ReturnTotals(b: Books, c: Id)
    requires Good(b) && c in b.calls
    ensures AllConserved(Step(b, Return(c))) <==> b.calls[c].status != Returned || b.calls[c].price <= 0
  {
    var list, row, price := b.calls[c].reservation, b.calls[c].(status := Returned), Max(0, b.calls[c].price);
    assert GoodCall(b.grants, b.calls[c]);
    CreditTotal(b.grants, list);
    GrantedUnmoved(b.grants, list);
    CallMoves(b.calls, c, row, InFlight, 0);
    CallMoves(b.calls, c, row, Paid, 0);
    var n := Step(b, Return(c));
    assert n == Books(Credit(b.grants, list), b.calls[c := row]);
    assert Total(n.grants, Unspent) == Total(b.grants, Unspent) + price;
    assert AllConserved(b);
  }

  lemma ReturnOneGrant(b: Books, c: Id, g: Id)
    requires Good(b) && c in b.calls && (b.calls[c].status != Returned || b.calls[c].price <= 0)
    ensures GrantConserved(Step(b, Return(c)), g)
    ensures g in b.grants ==> Step(b, Return(c)).grants[g].remaining >= 0
  {
    var row := b.calls[c].(status := Returned);
    assert GrantConserved(b, g) && GoodCall(b.grants, b.calls[c]);
    TakenNonNegative(b.calls[c].reservation, g);
    if b.calls[c].price <= 0 { NothingHeld(b.calls[c].reservation, g); }
    CallMoves(b.calls, c, row, InFlight, g);
    CallMoves(b.calls, c, row, Paid, g);
  }

  // ---- Every run ---------------------------------------------------------------

  /** Only calls in flight are finished: one collector per batch, one outcome per call. */
  predicate Proper(b: Books, action: Action)
  {
    (action.Charge? || action.Return?) && action.call in b.calls ==> b.calls[action.call].status == InFlight
  }

  ghost predicate AllProper(b: Books, actions: seq<Action>)
  {
    forall i :: 0 <= i < |actions| ==> Proper(Run(b, actions[..i]), actions[i])
  }

  /** Credits granted are remaining, held in flight or charged, grant by grant and in
      total, after every run in which each call is finished at most once. */
  lemma {:induction false} CreditsConserved(actions: seq<Action>)
    requires AllProper(Empty(), actions)
    ensures Good(Run(Empty(), actions))
  {
    if actions == [] {
      forall g ensures GrantConserved(Empty(), g) {}
    } else {
      var before, last := actions[..|actions| - 1], actions[|actions| - 1];
      assert forall i :: 0 <= i < |before| ==> before[..i] == actions[..i];
      CreditsConserved(before);
      var b := Run(Empty(), before);
      match last
      case Grant(id, g) => if Grantable(b.grants, id, g) { GrantKeeps(b, id, g); }
      case Reserve(c, org, price, now) => ReserveKeeps(b, c, org, price, now);
      case Charge(c) => if c in b.calls { ChargeKeeps(b, c); }
      case Return(c) => if c in b.calls { ReturnKeeps(b, c); }
    }
  }

  // ---- The life of a call ------------------------------------------------------

  /** The call was reserved by this action, which took exactly `list` from the grants. */
  ghost predicate ReservedAt(actions: seq<Action>, c: Id, list: seq<Consumption>, i: nat)
  {
    && i < |actions| && actions[i].Reserve? && actions[i].call == c && c !in Run(Empty(), actions[..i]).calls
    && Run(Empty(), actions[..i + 1]).grants == Debit(Run(Empty(), actions[..i]).grants, list)
  }

  /** The call was finished by this action: charged, which moves no grant, or refunded, which
      gives each grant back exactly what `list` names it for. */
  ghost predicate FinishedAt(actions: seq<Action>, c: Id, list: seq<Consumption>, status: Status, j: nat)
  {
    && j < |actions| && actions[j] == (if status == Paid then Charge(c) else Return(c))
    && Run(Empty(), actions[..j + 1]).grants
       == if status == Paid then Run(Empty(), actions[..j]).grants else Credit(Run(Empty(), actions[..j]).grants, list)
  }

  predicate Finishes(action: Action, c: Id) { action == Charge(c) || action == Return(c) }

  /** Reserved once, then finished once if at all, with the same list both times. */
  ghost predicate Lived(actions: seq<Action>, c: Id, call: Call, i: nat, j: nat)
  {
    && ReservedAt(actions, c, call.reservation, i) && Amount(call.reservation) == Max(0, call.price)
    && (call.status == InFlight ==> forall k :: i < k < |actions| ==> !Finishes(actions[k], c))
    && (call.status != InFlight ==>
          && i < j && FinishedAt(actions, c, call.reservation, call.status, j)
          && forall k :: i < k < |actions| && k != j ==> !Finishes(actions[k], c))
  }

  /** One more action that leaves the call's row alone leaves its story alone. */
  lemma LivesOn(actions: seq<Action>, c: Id, call: Call, i: nat, j: nat)
    requires actions != [] && Lived(actions[..|actions| - 1], c, call, i, j) && !Finishes(actions[|actions| - 1], c)
    ensures Lived(actions, c, call, i, j)
  {
    var before := actions[..|actions| - 1];
    assert before[..i] == actions[..i] && before[..i + 1] == actions[..i + 1];
    if call.status != InFlight {
      assert before[..j] == actions[..j] && before[..j + 1] == actions[..j + 1];
    }
    forall k | i < k < |actions| && (call.status != InFlight ==> k != j) ensures !Finishes(actions[k], c) {
      if k < |before| { assert actions[k] == before[k]; }
    }
  }

  lemma IsFinished(actions: seq<Action>, c: Id, call: Call, i: nat, j: nat)
    requires actions != [] && Lived(actions[..|actions| - 1], c, call, i, j) && call.status == InFlight
    requires Finishes(actions[|actions| - 1], c)
    requires c in Run(Empty(), actions[..|actions| - 1]).calls && Run(Empty(), actions[..|actions| - 1]).calls[c] == call
    ensures var status := if actions[|actions| - 1] == Charge(c) then Paid else Returned;
            Lived(actions, c, call.(status := status), i, |actions| - 1)
  {
    var last := |actions| - 1;
    var before := actions[..last];
    assert before[..i] == actions[..i] && before[..i + 1] == actions[..i + 1] && actions[..last + 1] == actions;
    forall k | i < k < last ensures !Finishes(actions[k], c) { assert actions[k] == before[k]; }
  }

  /** Every call of a proper run was reserved by one action, for exactly its price, and
      finished by at most one later action: charged that price, or with each grant given back
      exactly what the reservation took from it. */
  lemma {:induction false} EveryCallLives(actions: seq<Action>, c: Id)
    requires AllProper(Empty(), actions) && c in Run(Empty(), actions).calls
    ensures exists i, j :: Lived(actions, c, Run(Empty(), actions).calls[c], i, j)
  {
    var before := actions[..|actions| - 1];
    assert forall i :: 0 <= i < |before| ==> before[..i] == actions[..i];
    var b := Run(Empty(), before);
    if c in b.calls {
      EveryCallLives(before, c);
      var i, j :| Lived(before, c, b.calls[c], i, j);
      var k := NextAction(actions, c, i, j);
    } else {
      CreditsConserved(before);
      IsReserved(actions, c);
    }
  }

  lemma {:induction false} RunOn(b: Books, actions: seq<Action>, action: Action)
    ensures Run(b, actions + [action]) == Step(Run(b, actions), action)
  {
    assert (actions + [action])[..|actions|] == actions;
  }

  /** With one grant a consumption is one entry. */
  lemma {:induction false} OneEntry(grants: Grants, org: Id, price: nat, now: Time)
    requires grants.Keys == {0} && grants[0].org == org && grants[0].expiresAt > now && 0 < price <= grants[0].remaining
    ensures ConsumeResult(grants, org, price, now) == Consumed([Consumption(0, price)])
  {
    TotalRemove(grants, Balances(org, now), 0);
    assert grants - {0} == map[];
    ConsumeTakesExactly(grants, org, price, now);
    var list := ConsumeResult(grants, org, price, now).list;
    AllOfOne(list);
    assert list[..0] == [] && list == [list[0]];
  }

  lemma AllOfOne(list: seq<Consumption>)
    requires DistinctGrants(list) && forall i :: 0 <= i < |list| ==> list[i].grant == 0
    ensures |list| <= 1
  {
    FirstTwoDiffer(list);
  }

  lemma FirstTwoDiffer(list: seq<Consumption>)
    requires DistinctGrants(list)
    ensures |list| > 1 ==> list[0].grant != list[1].grant
  {}

  /** Credits do move: whatever a grant holds and a call costs, if it covers the call, reserving
      takes the price from it, charging leaves it taken, and returning gives it back. */
  lemma {:induction false} CreditsMove(id: Id, g: Ledger.Grant, price: nat, now: Time, start: seq<Action>)
    requires 0 < price <= g.credits == g.remaining && g.expiresAt > now && start == [Action.Grant(0, g)]
    ensures var held := Run(Empty(), start + [Reserve(id, g.org, price, now)]);
            && 0 in held.grants && held.grants[0].remaining == g.credits - price
            && id in held.calls && held.calls[id] == Call([Consumption(0, price)], price, InFlight)
    ensures var paid := Run(Empty(), start + [Reserve(id, g.org, price, now)] + [Charge(id)]);
            && 0 in paid.grants && paid.grants[0].remaining == g.credits - price
            && id in paid.calls && paid.calls[id].status == Paid
    ensures var back := Run(Empty(), start + [Reserve(id, g.org, price, now)] + [Return(id)]);
            && 0 in back.grants && back.grants[0].remaining == g.credits
            && id in back.calls && back.calls[id].status == Returned
  {
    var granted := Run(Empty(), start);
    RunOn(Empty(), [], start[0]);
    assert [] + [start[0]] == start;
    OneEntry(granted.grants, g.org, price, now);
    TakenDistinct([Consumption(0, price)], 0);
    RunOn(Empty(), start, Reserve(id, g.org, price, now));
    RunOn(Empty(), start + [Reserve(id, g.org, price, now)], Charge(id));
    RunOn(Empty(), start + [Reserve(id, g.org, price, now)], Return(id));
  }

  lemma RowAfter(b: Books, action: Action, c: Id)
    requires c in b.calls
    ensures c in Step(b, action).calls
    ensures Step(b, action).calls[c]
            == if action == Charge(c) then b.calls[c].(status := Paid)
               else if action == Return(c) then b.calls[c].(status := Returned) else b.calls[c]
  {}

  lemma NextAction(actions: seq<Action>, c: Id, i: nat, j: nat) returns (k: nat)
    requires actions != [] && c in Run(Empty(), actions[..|actions| - 1]).calls
    requires Proper(Run(Empty(), actions[..|actions| - 1]), actions[|actions| - 1])
    requires Lived(actions[..|actions| - 1], c, Run(Empty(), actions[..|actions| - 1]).calls[c], i, j)
    ensures c in Run(Empty(), actions).calls && Lived(actions, c, Run(Empty(), actions).calls[c], i, k)
  {
    var b := Run(Empty(), actions[..|actions| - 1]);
    RowAfter(b, actions[|actions| - 1], c);
    assert Run(Empty(), actions) == Step(b, actions[|actions| - 1]);
    if Finishes(actions[|actions| - 1], c) {
      k := |actions| - 1;
      IsFinished(actions, c, b.calls[c], i, j);
    } else {
      k := j;
      LivesOn(actions, c, b.calls[c], i, j);
    }
  }

  lemma IsReserved(actions: seq<Action>, c: Id)
    requires actions != [] && Good(Run(Empty(), actions[..|actions| - 1]))
    requires c !in Run(Empty(), actions[..|actions| - 1]).calls && c in Run(Empty(), actions).calls
    ensures Lived(actions, c, Run(Empty(), actions).calls[c], |actions| - 1, 0)
  {
    var last := |actions| - 1;
    var b, action := Run(Empty(), actions[..last]), actions[last];
    assert actions[..last + 1] == actions;
    ConsumeIsGood(b.grants, action.org, action.price, action.now);
  }
}
