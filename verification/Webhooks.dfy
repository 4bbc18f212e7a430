/** Subscription events of the payment processor (src/webhooks.ts 77-95, 108-176, 205-300),
    which arrive in any order and more than once. */
module Webhooks {
  import opened Pricing
  import Store

  type Id = nat
  type Time = nat

  datatype Status = NoneYet | Active | PastDue | Lapsed | Refunded

  /** The processor's own words; `Other` stands for every word without a mapping. */
  datatype Word = ActiveWord | TrialingWord | PastDueWord | PausedWord | CanceledWord | CancelledWord | OtherWord

  function StatusMap(word: Option<Word>): Option<Status>
  {
    match word
    case Some(ActiveWord) | Some(TrialingWord) => Some(Active)
    case Some(PastDueWord) => Some(PastDue)
    case Some(PausedWord) | Some(CanceledWord) | Some(CancelledWord) => Some(Lapsed)
    case _ => None
  }

  datatype Org = Org(status: Status, statusAt: Option<Time>, subscription: Option<Id>, customer: Option<Id>)

  /** `subscriptionEvent` is false for a type no subscription handler takes. */
  datatype Event = Event(
    id: Id, subscriptionEvent: bool, org: Option<Id>, word: Option<Word>, occurredAt: Option<Time>,
    subscription: Option<Id>, customer: Option<Id>)

  datatype Outcome = Processing | Applied | Duplicate | Ignored | UnknownOrg | UnknownType | Stale | Error

  datatype Tables = Tables(orgs: map<Id, Org>, events: map<Id, Outcome>)

  /** May an event of this stamp set the status? Checked before, and again by the UPDATE. */
  predicate InOrder(org: Org, at: Option<Time>)
  {
    org.statusAt.None? || at.None? || org.statusAt.value <= at.value
  }

  predicate BoundElsewhere(orgs: map<Id, Org>, org: Id, subscription: Option<Id>)
  {
    subscription.Some? && exists o :: o in orgs && o != org && orgs[o].subscription == subscription
  }

  function Coalesce(a: Option<Id>, b: Option<Id>): Option<Id> { if a.Some? then a else b }

  function SetStatus(org: Org, e: Event, status: Status): Org
  {
    Org(status, e.occurredAt, Coalesce(e.subscription, org.subscription), Coalesce(e.customer, org.customer))
  }

  /** What one delivery does to the organizations, and what is recorded of it. */
  function Apply(orgs: map<Id, Org>, e: Event): (map<Id, Org>, Outcome)
  {
    if !e.subscriptionEvent then (orgs, UnknownType)
    else if e.org.None? || e.org.value !in orgs then (orgs, UnknownOrg)
    else if StatusMap(e.word).None? then (orgs, Ignored)
    else if !InOrder(orgs[e.org.value], e.occurredAt) then (orgs, Stale)
    else if BoundElsewhere(orgs, e.org.value, e.subscription) then (orgs, Ignored)
    else (orgs[e.org.value := SetStatus(orgs[e.org.value], e, StatusMap(e.word).value)], Applied)
  }

  /** A delivery whose event id was claimed before is a duplicate and changes nothing. */
  function Deliver(t: Tables, e: Event): Tables
  {
    if e.id in t.events then t
    else Tables(Apply(t.orgs, e).0, t.events[e.id := Apply(t.orgs, e).1])
  }

  /** The same when applying it may throw, before or after its write took effect: the claim is
      marked, and stands. */
  function DeliverUnder(t: Tables, e: Event, fault: Store.Fault): Tables
  {
    if e.id in t.events || fault == Store.Works then Deliver(t, e)
    else Tables(if fault == Store.ThrowsBefore then t.orgs else Apply(t.orgs, e).0, t.events[e.id := Error])
  }

  /** What an applied event leaves in its organization's row: the status its word stands for, a
      trial being an active subscription and a paused one a lapsed one; the event's stamp; and
      the ids it names, or the ones the row had where it names none. */
  ghost predicate SetByWord(before: Org, after: Org, e: Event)
  {
    && (e.word in [Some(ActiveWord), Some(TrialingWord)] ==> after.status == Active)
    && (e.word == Some(PastDueWord) ==> after.status == PastDue)
    && (e.word in [Some(PausedWord), Some(CanceledWord), Some(CancelledWord)] ==> after.status == Lapsed)
    && e.word != None && e.word != Some(OtherWord)
    && after.statusAt == e.occurredAt
    && after.subscription == (match e.subscription case Some(_) => e.subscription case None => before.subscription)
    && after.customer == (match e.customer case Some(_) => e.customer case None => before.customer)
  }

  class BillingWebhook {
    var orgs: map<Id, Org>
    var events: map<Id, Outcome>

    ghost function View(): Tables
      reads this
    {
      Tables(orgs, events)
    }

    method ApplySubscriptionState(e: Event) returns (out: Outcome)
      requires e.subscriptionEvent
      modifies this`orgs
      ensures (orgs, out) == Apply(old(orgs), e)
      ensures out == Applied ==>
                && e.org.Some? && e.org.value in old(orgs) && e.org.value in orgs
                && orgs == old(orgs)[e.org.value := orgs[e.org.value]]
                && SetByWord(old(orgs)[e.org.value], orgs[e.org.value], e)
      ensures out != Applied ==> orgs == old(orgs)
      ensures e.org.Some? && e.org.value in old(orgs) && e.word in [None, Some(OtherWord)] ==> out == Ignored
    {
      if e.org.None? || e.org.value !in orgs { return UnknownOrg; }
      var org := e.org.value;
      var status := StatusMap(e.word);
      if status.None? { return Ignored; }
      if e.occurredAt.Some? && orgs[org].statusAt.Some? && orgs[org].statusAt.value > e.occurredAt.value { return Stale; }
      if e.subscription.Some? {
        var bound := exists o :: o in orgs && o != org && orgs[o].subscription == e.subscription;
        if bound { return Ignored; }
      }
      if InOrder(orgs[org], e.occurredAt) {
        orgs := orgs[org := SetStatus(orgs[org], e, status.value)];
        out := Applied;
      } else {
        assert false; // the same guard, and nothing ran in between
      }
    }

    /** Claims the event id, applies the event, amends the claim; an exception marks the claim
        and is thrown on. */
    method HandleWebhook(e: Event, fault: Store.Fault) returns (threw: bool, out: Outcome)
      modifies this
      ensures View() == DeliverUnder(old(View()), e, fault)
      ensures threw <==> e.id !in old(events) && fault != Store.Works
      ensures out == if e.id in old(events) then Duplicate else if threw then Error else Apply(old(orgs), e).1
    {
      if e.id in events { return false, Duplicate; }
      events := events[e.id := Processing];
      if fault == Store.ThrowsBefore {
        events := events[e.id := Error];
        return true, Error;
      }
      if e.subscriptionEvent {
        out := ApplySubscriptionState(e);
      } else {
        out := UnknownType;
      }
      threw := fault != Store.Works;
      if threw { out := Error; }
      events := events[e.id := out];
    }
  }

  // ---- The latest stamp wins ---------------------------------------------------

  /** A mapped event of an organization, stamped or not, on a subscription no other has. */
  predicate Mapped(orgs: map<Id, Org>, e: Event, org: Id)
  {
    && e.subscriptionEvent && e.org == Some(org) && StatusMap(e.word).Some?
    && !BoundElsewhere(orgs, org, e.subscription)
  }

  predicate Suitable(orgs: map<Id, Org>, e: Event, org: Id)
  {
    Mapped(orgs, e, org) && e.occurredAt.Some?
  }

  /** After some events, an organization that stood at `before`: its stamp is the latest of
      them and its status is that of an event so stamped; if all were older, nothing moved. */
  predicate Settled(before: Org, after: Org, seen: set<Event>)
    requires forall e :: e in seen ==> e.occurredAt.Some?
  {
    && (forall e :: e in seen ==> after.statusAt.Some? && e.occurredAt.value <= after.statusAt.value)
    && (before.statusAt.Some? ==> after.statusAt.Some? && before.statusAt.value <= after.statusAt.value)
    && ((after.status == before.status && after.statusAt == before.statusAt
           && forall e :: e in seen ==> !InOrder(before, e.occurredAt))
        || exists e :: e in seen && e.occurredAt == after.statusAt && StatusMap(e.word) == Some(after.status))
  }

  function DeliverAll(t: Tables, deliveries: seq<Event>): Tables
  {
    if deliveries == [] then t else Deliver(DeliverAll(t, deliveries[..|deliveries| - 1]), deliveries[|deliveries| - 1])
  }

  function Members(deliveries: seq<Event>): set<Event> { set e | e in deliveries }

  /** Deliveries of new events, each id naming one event. */
  predicate Proper(t: Tables, deliveries: seq<Event>, org: Id)
  {
    && org in t.orgs
    && (forall e :: e in deliveries ==> Suitable(t.orgs, e, org) && e.id !in t.events)
    && (forall d, e :: d in deliveries && e in deliveries && d.id == e.id ==> d == e)
  }

  lemma OneMoreEvent(before: Org, org: Org, seen: set<Event>, e: Event)
    requires (forall d :: d in seen ==> d.occurredAt.Some?) && e.occurredAt.Some? && StatusMap(e.word).Some?
    requires Settled(before, org, seen)
    ensures var after := if InOrder(org, e.occurredAt) then SetStatus(org, e, StatusMap(e.word).value) else org;
            Settled(before, after, seen + {e})
  {}

  /** What one organization's events leave alone: every other organization. */
  lemma {:induction false} RunSettles(t: Tables, deliveries: seq<Event>, org: Id)
    requires Proper(t, deliveries, org)
    ensures var after := DeliverAll(t, deliveries);
            && org in after.orgs && Settled(t.orgs[org], after.orgs[org], Members(deliveries))
            && after.orgs.Keys == t.orgs.Keys && (forall o :: o in t.orgs && o != org ==> after.orgs[o] == t.orgs[o])
            && (forall id :: id in after.events <==> id in t.events || exists e :: e in deliveries && e.id == id)
  {
    if deliveries != [] {
      var before := deliveries[..|deliveries| - 1];
      var e := deliveries[|deliveries| - 1];
      assert Members(deliveries) == Members(before) + {e};
      RunSettles(t, before, org);
      var mid := DeliverAll(t, before);
      if e.id in mid.events {
        var d :| d in before && d.id == e.id;
        assert d == e;
        assert Members(deliveries) == Members(before);
      } else {
        OneMoreEvent(t.orgs[org], mid.orgs[org], Members(before), e);
        assert !BoundElsewhere(mid.orgs, org, e.subscription);
      }
    }
  }

  /** Delivered in any order and any number of times, stamped events of one organization end in
      the status of a latest-stamped one, unless the organization already stood at a later
      stamp, which none of them moves. */
  lemma LatestStampWins(t: Tables, deliveries: seq<Event>, org: Id)
    requires Proper(t, deliveries, org) && deliveries != []
    ensures var before, after := t.orgs[org], DeliverAll(t, deliveries).orgs;
            && org in after
            && if forall e :: e in deliveries ==> !InOrder(before, e.occurredAt) then
                 after[org].status == before.status && after[org].statusAt == before.statusAt
               else
                 && after[org].statusAt.Some?
                 && (forall e :: e in deliveries ==> e.occurredAt.value <= after[org].statusAt.value)
                 && exists e :: e in deliveries && e.occurredAt == after[org].statusAt
                                && StatusMap(e.word) == Some(after[org].status)
  {
    RunSettles(t, deliveries, org);
    var before, final := t.orgs[org], DeliverAll(t, deliveries).orgs[org];
    var seen := Members(deliveries);
    if d :| d in deliveries && InOrder(before, d.occurredAt) {
      assert d in seen;
      var e :| e in seen && e.occurredAt == final.statusAt && StatusMap(e.word) == Some(final.status);
      assert e in deliveries;
    } else {
      forall e | e in seen ensures !InOrder(before, e.occurredAt) {}
    }
  }

  predicate DistinctStamps(deliveries: seq<Event>)
  {
    forall d, e :: d in deliveries && e in deliveries && d.occurredAt == e.occurredAt ==> d == e
  }

  lemma SettledIsOne(before: Org, a: Org, b: Org, seen: set<Event>)
    requires forall e :: e in seen ==> e.occurredAt.Some?
    requires forall d, e :: d in seen && e in seen && d.occurredAt == e.occurredAt ==> d == e
    requires Settled(before, a, seen) && Settled(before, b, seen)
    ensures a.status == b.status && a.statusAt == b.statusAt
  {}

  /** With distinct stamps the order of deliveries does not matter at all. */
  lemma OrderDoesNotMatter(t: Tables, one: seq<Event>, other: seq<Event>, org: Id)
    requires Proper(t, one, org) && Proper(t, other, org) && Members(one) == Members(other) && DistinctStamps(one)
    ensures var a, b := DeliverAll(t, one).orgs, DeliverAll(t, other).orgs;
            && org in a && org in b && a[org].status == b[org].status && a[org].statusAt == b[org].statusAt
  {
    RunSettles(t, one, org);
    RunSettles(t, other, org);
    var seen := Members(one);
    forall d, e | d in seen && e in seen && d.occurredAt == e.occurredAt ensures d == e {
      assert d in one && e in one;
    }
    SettledIsOne(t.orgs[org], DeliverAll(t, one).orgs[org], DeliverAll(t, other).orgs[org], seen);
  }

  // ---- Deliveries in flight at once --------------------------------------------

  datatype Phase = Claimed | Passed | Finished

  /** One organization, and how far each of its events has come. */
  datatype Flight = Flight(org: Org, phases: map<Event, Phase>)

  /** The next step of one delivery: claim its id, look at the current stamp, or write under
      the guard of the UPDATE. A second delivery of the same event finds the id claimed. */
  function Progress(f: Flight, e: Event): Flight
  {
    if e !in f.phases then f.(phases := f.phases[e := Claimed])
    else
      match f.phases[e]
      case Claimed => f.(phases := f.phases[e := if InOrder(f.org, e.occurredAt) then Passed else Finished])
      case Passed =>
        Flight(if InOrder(f.org, e.occurredAt) && StatusMap(e.word).Some? then SetStatus(f.org, e, StatusMap(e.word).value) else f.org,
               f.phases[e := Finished])
      case Finished => f
  }

  function Fly(f: Flight, steps: seq<Event>): Flight
  {
    if steps == [] then f else Progress(Fly(f, steps[..|steps| - 1]), steps[|steps| - 1])
  }

  function Done(phases: map<Event, Phase>): set<Event>
  {
    set e | e in phases && phases[e] == Finished
  }

  /** Does this step bring the event to its end, written or found too old? */
  predicate Finishes(f: Flight, e: Event)
  {
    e in f.phases && (f.phases[e] == Passed || (f.phases[e] == Claimed && !InOrder(f.org, e.occurredAt)))
  }

  /** The events finished since the last one without a stamp was written; all of them, if each
      has one. */
  function FlownSince(org: Org, steps: seq<Event>): set<Event>
  {
    if steps == [] then {}
    else
      var before, e := steps[..|steps| - 1], steps[|steps| - 1];
      if !Finishes(Fly(Flight(org, map[]), before), e) then FlownSince(org, before)
      else if e.occurredAt.None? then {}
      else FlownSince(org, before) + {e}
  }

  /** Where that event left the organization; where it stood at first, if there is none. */
  function FlownFrom(org: Org, steps: seq<Event>): Org
  {
    if steps == [] then org
    else
      var before, e := steps[..|steps| - 1], steps[|steps| - 1];
      if Finishes(Fly(Flight(org, map[]), before), e) && e.occurredAt.None? then Fly(Flight(org, map[]), steps).org
      else FlownFrom(org, before)
  }

  /** What one step does to where the organization stands. */
  lemma StepSettles(from: Org, f: Flight, since: set<Event>, e: Event)
    requires (forall d :: d in since ==> d.occurredAt.Some?) && Settled(from, f.org, since) && StatusMap(e.word).Some?
    ensures var g := Progress(f, e);
            if !Finishes(f, e) then g.org == f.org
            else if e.occurredAt.None? then Settled(g.org, g.org, {})
            else Settled(from, g.org, since + {e})
  {
    if e.occurredAt.Some? { OneMoreEvent(from, f.org, since, e); }
  }

  lemma StepFinishes(f: Flight, e: Event)
    ensures Done(Progress(f, e).phases) == if Finishes(f, e) then Done(f.phases) + {e} else Done(f.phases)
  {}

  /** However the steps of all deliveries interleave, the organization stands where the events
      finished since the last unstamped one put it: the check before the write may be out of
      date, the guard in the write is not. */
  lemma {:induction false} InterleavingSettles(org: Org, steps: seq<Event>)
    requires forall e :: e in steps ==> StatusMap(e.word).Some?
    ensures var f := Fly(Flight(org, map[]), steps);
            && (forall e :: e in f.phases ==> e in steps)
            && (forall e :: e in FlownSince(org, steps) ==> e.occurredAt.Some? && e in Done(f.phases))
            && Settled(FlownFrom(org, steps), f.org, FlownSince(org, steps))
            && ((forall e :: e in steps ==> e.occurredAt.Some?) ==>
                  FlownFrom(org, steps) == org && FlownSince(org, steps) == Done(f.phases))
  {
    if steps != [] {
      var before := steps[..|steps| - 1];
      var e := steps[|steps| - 1];
      InterleavingSettles(org, before);
      var f := Fly(Flight(org, map[]), before);
      assert Fly(Flight(org, map[]), steps) == Progress(f, e);
      StepSettles(FlownFrom(org, before), f, FlownSince(org, before), e);
      StepFinishes(f, e);
    }
  }

  // ---- Unstamped events --------------------------------------------------------

  predicate Mixed(t: Tables, deliveries: seq<Event>, org: Id)
  {
    && org in t.orgs
    && (forall e :: e in deliveries ==> Mapped(t.orgs, e, org) && e.id !in t.events)
    && (forall d, e :: d in deliveries && e in deliveries && d.id == e.id ==> d == e)
  }

  /** The events delivered since the last one without a stamp was first delivered; all of them,
      if each has one. */
  function Since(deliveries: seq<Event>): set<Event>
  {
    if deliveries == [] then {}
    else
      var before, e := deliveries[..|deliveries| - 1], deliveries[|deliveries| - 1];
      if e in before then Since(before)
      else if e.occurredAt.None? then {}
      else Since(before) + {e}
  }

  /** Where the organization stood when it began to be ordered again: as it was, or as that
      event without a stamp left it. */
  function Base(org: Org, deliveries: seq<Event>): Org
  {
    if deliveries == [] then org
    else
      var before, e := deliveries[..|deliveries| - 1], deliveries[|deliveries| - 1];
      if e !in before && e.occurredAt.None? && StatusMap(e.word).Some? then
        org.(status := StatusMap(e.word).value, statusAt := None)
      else Base(org, before)
  }

  lemma {:induction false} SinceIsStamped(deliveries: seq<Event>)
    ensures forall e :: e in Since(deliveries) ==> e in deliveries && e.occurredAt.Some?
  {
    if deliveries != [] { SinceIsStamped(deliveries[..|deliveries| - 1]); }
  }

  /** Whatever is delivered, stamped or not: the organization stands where the events since the
      last unstamped one put it, from where that one left it. */
  lemma {:induction false} MixedSettles(t: Tables, deliveries: seq<Event>, org: Id)
    requires Mixed(t, deliveries, org)
    ensures (forall e :: e in Since(deliveries) ==> e.occurredAt.Some?)
    ensures var after := DeliverAll(t, deliveries);
            && org in after.orgs && Settled(Base(t.orgs[org], deliveries), after.orgs[org], Since(deliveries))
            && after.orgs.Keys == t.orgs.Keys && (forall o :: o in t.orgs && o != org ==> after.orgs[o] == t.orgs[o])
            && (forall id :: id in after.events <==> id in t.events || exists e :: e in deliveries && e.id == id)
  {
    SinceIsStamped(deliveries);
    if deliveries != [] {
      var before, e := deliveries[..|deliveries| - 1], deliveries[|deliveries| - 1];
      MixedSettles(t, before, org);
      var mid := DeliverAll(t, before);
      if e.id in mid.events {
        var d :| d in before && d.id == e.id;
        assert d == e;
      } else {
        assert e !in before;
        assert !BoundElsewhere(mid.orgs, org, e.subscription);
        if e.occurredAt.Some? {
          OneMoreEvent(Base(t.orgs[org], before), mid.orgs[org], Since(before), e);
        }
      }
    }
  }

  /** The latest stamp among some events. */
  predicate IsLatest(deliveries: seq<Event>, stamp: Time)
  {
    && (exists e :: e in deliveries && e.occurredAt == Some(stamp))
    && (forall e :: e in deliveries && e.occurredAt.Some? ==> e.occurredAt.value <= stamp)
  }

  /** The organization has the latest stamp, and the status of an event so stamped. */
  predicate HasLatest(org: Org, deliveries: seq<Event>, stamp: Time)
  {
    org.statusAt == Some(stamp) && exists e :: e in deliveries && e.occurredAt == Some(stamp) && StatusMap(e.word) == Some(org.status)
  }

  /** Either the organization was left without a stamp, or no unstamped event was delivered. */
  lemma {:induction false} BaseIsBare(org: Org, deliveries: seq<Event>)
    requires forall e :: e in deliveries ==> StatusMap(e.word).Some?
    ensures Base(org, deliveries).statusAt == None
            || (Base(org, deliveries) == org && forall e :: e in deliveries && e.occurredAt.Some? ==> e in Since(deliveries))
  {
    if deliveries != [] {
      var before, e := deliveries[..|deliveries| - 1], deliveries[|deliveries| - 1];
      assert forall d :: d in deliveries ==> d in before || d == e;
      BaseIsBare(org, before);
    }
  }

  lemma SettledHasLatest(base: Org, final: Org, since: set<Event>, deliveries: seq<Event>, stamp: Time)
    requires forall e :: e in since ==> e in deliveries && e.occurredAt.Some?
    requires IsLatest(deliveries, stamp) && Settled(base, final, since)
    requires (exists e :: e in since && e.occurredAt == Some(stamp)) && InOrder(base, Some(stamp))
    ensures HasLatest(final, deliveries, stamp)
  {
    var e :| e in since && e.occurredAt == Some(stamp);
    assert !(forall d :: d in since ==> !InOrder(base, d.occurredAt));
    var w :| w in since && w.occurredAt == final.statusAt && StatusMap(w.word) == Some(final.status);
    assert w in deliveries;
  }

  lemma SettledMissesLatest(base: Org, final: Org, since: set<Event>, deliveries: seq<Event>, stamp: Time)
    requires forall e :: e in since ==> e in deliveries && e.occurredAt.Some?
    requires IsLatest(deliveries, stamp) && Settled(base, final, since)
    requires base.statusAt == None || forall e :: e in deliveries && e.occurredAt.Some? ==> e in since
    requires !((exists e :: e in since && e.occurredAt == Some(stamp)) && InOrder(base, Some(stamp)))
    ensures final.statusAt != Some(stamp)
  {
    var latest :| latest in deliveries && latest.occurredAt == Some(stamp);
    if InOrder(base, Some(stamp)) {
      assert base.statusAt == None;
    }
  }

  /** With unstamped events among them, the latest stamp wins exactly when an event so stamped is
      first delivered after the last unstamped one (and the organization did not already stand
      at a later stamp). Otherwise the organization has another stamp or none, and its status is
      that of the last unstamped event or of the latest-stamped event since. */
  lemma LatestStampWinsExactlyWhen(t: Tables, deliveries: seq<Event>, org: Id, stamp: Time)
    requires Mixed(t, deliveries, org) && IsLatest(deliveries, stamp)
    ensures org in DeliverAll(t, deliveries).orgs
    ensures var base, final := Base(t.orgs[org], deliveries), DeliverAll(t, deliveries).orgs[org];
            var wins := (exists e :: e in Since(deliveries) && e.occurredAt == Some(stamp)) && InOrder(base, Some(stamp));
            && (HasLatest(final, deliveries, stamp) <==> wins)
            && (!wins ==> final.statusAt != Some(stamp))
            && (!wins ==> final.status == base.status
                          || exists e :: e in Since(deliveries) && e.occurredAt == final.statusAt && StatusMap(e.word) == Some(final.status))
  {
    MixedSettles(t, deliveries, org);
    SinceIsStamped(deliveries);
    BaseIsBare(t.orgs[org], deliveries);
    var base, final, since := Base(t.orgs[org], deliveries), DeliverAll(t, deliveries).orgs[org], Since(deliveries);
    if (exists e :: e in since && e.occurredAt == Some(stamp)) && InOrder(base, Some(stamp)) {
      SettledHasLatest(base, final, since, deliveries, stamp);
    } else {
      SettledMissesLatest(base, final, since, deliveries, stamp);
    }
  }

  /** For instance: after any event without a stamp, an older event undoes a newer one. */
  lemma UnstampedEventsLoseTheOrder(t: Tables, newer: Event, unstamped: Event, older: Event, org: Id)
    requires Mixed(t, [newer, unstamped, older], org) && newer.id != unstamped.id && unstamped.id != older.id && newer.id != older.id
    requires newer.occurredAt.Some? && unstamped.occurredAt == None && older.occurredAt.Some?
    requires older.occurredAt.value < newer.occurredAt.value
    ensures var after := DeliverAll(t, [newer, unstamped, older]).orgs;
            org in after && Some(after[org].status) == StatusMap(older.word) && after[org].statusAt == older.occurredAt
  {
    var all := [newer, unstamped, older];
    MixedSettles(t, all, org);
    assert all[..2] == [newer, unstamped] && all[..2][..1] == [newer] && [newer][..0] == [];
    assert newer in all && unstamped in all && older in all;
    assert Since([newer, unstamped]) == {};
    assert Since(all) == {older};
    assert Base(t.orgs[org], [newer, unstamped]).statusAt == None;
    assert Base(t.orgs[org], all) == Base(t.orgs[org], [newer, unstamped]);
  }

  // ---- Deliveries that throw ---------------------------------------------------

  datatype Delivery = Delivery(event: Event, fault: Store.Fault)

  function DeliverAllUnder(t: Tables, deliveries: seq<Delivery>): Tables
  {
    if deliveries == [] then t
    else
      var last := deliveries[|deliveries| - 1];
      DeliverUnder(DeliverAllUnder(t, deliveries[..|deliveries| - 1]), last.event, last.fault)
  }

  predicate Sent(deliveries: seq<Delivery>, id: Id)
  {
    exists i :: 0 <= i < |deliveries| && deliveries[i].event.id == id
  }

  /** The events whose first delivery reached its write. */
  function Reaching(deliveries: seq<Delivery>): seq<Event>
  {
    if deliveries == [] then []
    else
      var before, last := deliveries[..|deliveries| - 1], deliveries[|deliveries| - 1];
      Reaching(before) + if Sent(before, last.event.id) || last.fault == Store.ThrowsBefore then [] else [last.event]
  }

  lemma {:induction false} ReachingWereSent(deliveries: seq<Delivery>)
    ensures forall e :: e in Reaching(deliveries) ==> Sent(deliveries, e.id)
  {
    if deliveries != [] {
      var before, last := deliveries[..|deliveries| - 1], deliveries[|deliveries| - 1];
      ReachingWereSent(before);
      assert deliveries[|before|].event.id == last.event.id;
      forall e | e in Reaching(before) ensures Sent(deliveries, e.id) {
        var i :| 0 <= i < |before| && before[i].event.id == e.id;
        assert deliveries[i] == before[i];
      }
    }
  }

  /** Every id that was sent is claimed, and nothing else is. */
  lemma {:induction false} ClaimedAreSent(t: Tables, deliveries: seq<Delivery>)
    ensures forall id :: id in DeliverAllUnder(t, deliveries).events <==> id in t.events || Sent(deliveries, id)
  {
    if deliveries != [] {
      ClaimedAreSent(t, deliveries[..|deliveries| - 1]);
      SentOneMore(deliveries);
    }
  }

  /** An event takes effect exactly if its first delivery reaches its write: one that throws
      before is lost, and redelivering it, however often, changes nothing. */
  lemma {:induction false} FirstDeliveryDecides(t: Tables, deliveries: seq<Delivery>)
    ensures DeliverAllUnder(t, deliveries).orgs == DeliverAll(t, Reaching(deliveries)).orgs
  {
    if deliveries != [] {
      var before, last := deliveries[..|deliveries| - 1], deliveries[|deliveries| - 1];
      FirstDeliveryDecides(t, before);
      ClaimedAreSent(t, before);
      if !Sent(before, last.event.id) && last.fault != Store.ThrowsBefore {
        assert (Reaching(before) + [last.event])[..|Reaching(before)|] == Reaching(before);
        ReachingKeepsIds(t, before, last.event.id);
      } else {
        assert Reaching(deliveries) == Reaching(before);
      }
    }
  }

  lemma SentOneMore(deliveries: seq<Delivery>)
    requires deliveries != []
    ensures var before, last := deliveries[..|deliveries| - 1], deliveries[|deliveries| - 1];
            forall id :: Sent(deliveries, id) <==> Sent(before, id) || id == last.event.id
  {
    var before, last := deliveries[..|deliveries| - 1], deliveries[|deliveries| - 1];
    assert deliveries[|before|] == last;
    forall id | Sent(before, id) ensures Sent(deliveries, id) {
      var i :| 0 <= i < |before| && before[i].event.id == id;
      assert deliveries[i] == before[i];
    }
    forall id | Sent(deliveries, id) && id != last.event.id ensures Sent(before, id) {
      var i :| 0 <= i < |deliveries| && deliveries[i].event.id == id;
      assert before[i] == deliveries[i];
    }
  }

  lemma {:induction false} DeliveredIds(t: Tables, events: seq<Event>)
    ensures forall id :: id in DeliverAll(t, events).events <==> id in t.events || exists e :: e in events && e.id == id
  {
    if events != [] { DeliveredIds(t, events[..|events| - 1]); }
  }

  lemma ReachingKeepsIds(t: Tables, deliveries: seq<Delivery>, id: Id)
    requires !Sent(deliveries, id)
    ensures id in DeliverAll(t, Reaching(deliveries)).events <==> id in t.events
  {
    DeliveredIds(t, Reaching(deliveries));
    ReachingWereSent(deliveries);
  }

  /** So among deliveries of which some throw, the latest stamp among the events that reached
      their write wins. */
  lemma LatestReachingStampWins(t: Tables, deliveries: seq<Delivery>, org: Id)
    requires Proper(t, Reaching(deliveries), org) && Reaching(deliveries) != []
    ensures var before, after, events := t.orgs[org], DeliverAllUnder(t, deliveries).orgs, Reaching(deliveries);
            && org in after
            && if forall e :: e in events ==> !InOrder(before, e.occurredAt) then
                 after[org].status == before.status && after[org].statusAt == before.statusAt
               else
                 && after[org].statusAt.Some?
                 && (forall e :: e in events ==> e.occurredAt.value <= after[org].statusAt.value)
                 && exists e :: e in events && e.occurredAt == after[org].statusAt && StatusMap(e.word) == Some(after[org].status)
  {
    FirstDeliveryDecides(t, deliveries);
    LatestStampWins(t, Reaching(deliveries), org);
  }
}
