/** Fixed-window counters (src/rateLimit.ts 91-213, src/authThrottle.ts 211-400): one call takes
    a slot from each of several ceilings, or from none. What the counters of every run of such
    calls say about the calls that were let through. */
module Ceilings {
  import opened Pricing
  import opened Sums

  type Id = nat

  datatype Scope =
    | Organization | ApiKey
    | GlobalDay | SubnetHour | IpHour | AddressDay | AddressCooldown | InviteOrgDay | InviteAddressDay | OauthStartIpHour

  /** A ceiling for one subject. Times and lengths in milliseconds; `keep` is how long expired
      rows are kept, for a table that drops them. */
  datatype Bucket = Bucket(scope: Scope, subject: Id, window: nat, limit: int, keep: Option<nat>)

  /** Primary key of a counter row. */
  datatype Slot = Slot(scope: Scope, subject: Id, start: nat)

  datatype Counter = Counter(used: nat, rejected: nat)

  function WindowStart(now: nat, window: nat): nat
    requires window > 0
  {
    now / window * window
  }

  function SlotOf(b: Bucket, now: nat): Slot
    requires b.window > 0
  {
    Slot(b.scope, b.subject, WindowStart(now, b.window))
  }

  function Used(counters: map<Slot, Counter>, slot: Slot): nat
  {
    if slot in counters then counters[slot].used else 0
  }

  predicate Expired(b: Bucket, now: nat, slot: Slot)
    requires b.window > 0
  {
    b.keep.Some? && slot.scope == b.scope && slot.subject == b.subject && slot.start + b.keep.value < WindowStart(now, b.window)
  }

  /** The first call of a new window drops the subject's expired rows. */
  function Purge(counters: map<Slot, Counter>, b: Bucket, now: nat): map<Slot, Counter>
    requires b.window > 0
  {
    counters - set slot | slot in counters && Expired(b, now, slot)
  }

  function Moved(counters: map<Slot, Counter>, slot: Slot): map<Slot, Counter>
  {
    counters[slot := if slot in counters then counters[slot].(used := counters[slot].used + 1) else Counter(1, 0)]
  }

  /** The conditional upsert: below the limit, or a new row. A limit under one lets nothing
      through. */
  predicate Open(counters: map<Slot, Counter>, b: Bucket, now: nat)
    requires b.window > 0
  {
    b.limit >= 1 && (SlotOf(b, now) !in counters || counters[SlotOf(b, now)].used < b.limit)
  }

  function TakeOne(counters: map<Slot, Counter>, b: Bucket, now: nat): map<Slot, Counter>
    requires b.window > 0
  {
    var slot := SlotOf(b, now);
    var moved := Moved(counters, slot);
    if moved[slot].used == 1 then Purge(moved, b, now) else moved
  }

  predicate Timed(buckets: seq<Bucket>)
  {
    forall i :: 0 <= i < |buckets| ==> buckets[i].window > 0
  }

  /** The first `n` ceilings, one after the other. */
  function Take(counters: map<Slot, Counter>, buckets: seq<Bucket>, now: nat, n: nat): map<Slot, Counter>
    requires n <= |buckets| && Timed(buckets)
  {
    if n == 0 then counters else TakeOne(Take(counters, buckets, now, n - 1), buckets[n - 1], now)
  }

  /** Do the first `n` let the call through? */
  predicate Passes(counters: map<Slot, Counter>, buckets: seq<Bucket>, now: nat, n: nat)
    requires n <= |buckets| && Timed(buckets)
  {
    n == 0 || (Passes(counters, buckets, now, n - 1) && Open(Take(counters, buckets, now, n - 1), buckets[n - 1], now))
  }

  /** The ceiling that refuses, after the rollback, records the refusal on its own. */
  function Refuse(counters: map<Slot, Counter>, b: Bucket, now: nat): map<Slot, Counter>
    requires b.window > 0
  {
    var slot := SlotOf(b, now);
    counters[slot := if slot in counters then counters[slot].(rejected := counters[slot].rejected + 1) else Counter(0, 1)]
  }

  function FirstClosed(counters: map<Slot, Counter>, buckets: seq<Bucket>, now: nat, n: nat): (i: nat)
    requires n <= |buckets| && Timed(buckets) && !Passes(counters, buckets, now, n)
    ensures i < n && Passes(counters, buckets, now, i) && !Passes(counters, buckets, now, i + 1)
  {
    if !Passes(counters, buckets, now, n - 1) then FirstClosed(counters, buckets, now, n - 1) else n - 1
  }

  datatype Call = Call(buckets: seq<Bucket>, now: nat)

  predicate Admitted(counters: map<Slot, Counter>, c: Call)
    requires Timed(c.buckets)
  {
    Passes(counters, c.buckets, c.now, |c.buckets|)
  }

  /** What a call leaves behind. */
  function After(counters: map<Slot, Counter>, c: Call): map<Slot, Counter>
    requires Timed(c.buckets)
  {
    if Admitted(counters, c) then Take(counters, c.buckets, c.now, |c.buckets|)
    else Refuse(counters, c.buckets[FirstClosed(counters, c.buckets, c.now, |c.buckets|)], c.now)
  }

  /** `Math.max(1, Math.ceil((windowStart + window - now) / 1000))`. */
  function RetryAfter(now: nat, window: nat): int
    requires window > 0
  {
    Max(1, (WindowStart(now, window) + window - now + 999) / 1000)
  }

  /** Waiting that long, but not a second less, reaches the next window. */
  lemma RetryReachesTheNextWindow(now: nat, window: nat)
    requires window > 0
    ensures WindowStart(now, window) <= now < WindowStart(now, window) + window
    ensures now + RetryAfter(now, window) * 1000 >= WindowStart(now, window) + window
    ensures RetryAfter(now, window) > 1 ==> now + (RetryAfter(now, window) - 1) * 1000 < WindowStart(now, window) + window
  {
    StartBounds(now, window);
  }

  lemma StartBounds(now: nat, window: nat)
    requires window > 0
    ensures WindowStart(now, window) <= now < WindowStart(now, window) + window
  {}

  /** A refusal is all that is written: one more in the refusing ceiling's row of the window. */
  predicate RefusalRecorded(before: map<Slot, Counter>, b: Bucket, now: nat, after: map<Slot, Counter>)
    requires b.window > 0
  {
    var slot := Slot(b.scope, b.subject, now - now % b.window);
    && slot in after && after == before[slot := after[slot]]
    && after[slot].used == (if slot in before then before[slot].used else 0)
    && after[slot].rejected == 1 + (if slot in before then before[slot].rejected else 0)
  }

  lemma RefuseRecords(before: map<Slot, Counter>, b: Bucket, now: nat)
    requires b.window > 0
    ensures RefusalRecorded(before, b, now, Refuse(before, b, now))
  {
    assert now / b.window * b.window == now - now % b.window;
  }

  /** A transaction over the ceilings in their fixed order: it counts in all of them or, once
      one refuses, in none. */
  method TakeAll(before: map<Slot, Counter>, buckets: seq<Bucket>, now: nat)
    returns (after: map<Slot, Counter>, refusedBy: Option<nat>)
    requires Timed(buckets)
    ensures after == After(before, Call(buckets, now))
    ensures refusedBy == None <==> Admitted(before, Call(buckets, now))
    ensures refusedBy.Some? ==>
              refusedBy.value < |buckets| && Passes(before, buckets, now, refusedBy.value)
              && !Passes(before, buckets, now, refusedBy.value + 1)
              && RefusalRecorded(before, buckets[refusedBy.value], now, after)
  {
    var tx := before;
    var i := 0;
    while i < |buckets|
      invariant 0 <= i <= |buckets| && tx == Take(before, buckets, now, i) && Passes(before, buckets, now, i)
    {
      var b := buckets[i];
      var slot := SlotOf(b, now);
      if b.limit < 1 || (slot in tx && tx[slot].used >= b.limit) {
        FirstClosedIs(before, buckets, now, |buckets|, i);
        RefuseRecords(before, b, now);
        return Refuse(before, b, now), Some(i);
      }
      tx := tx[slot := if slot in tx then tx[slot].(used := tx[slot].used + 1) else Counter(1, 0)];
      if tx[slot].used == 1 {
        tx := Purge(tx, b, now);
      }
      i := i + 1;
    }
    after, refusedBy := tx, None;
  }

  lemma {:induction false} FirstClosedIs(counters: map<Slot, Counter>, buckets: seq<Bucket>, now: nat, n: nat, i: nat)
    requires i < n <= |buckets| && Timed(buckets)
    requires Passes(counters, buckets, now, i) && !Passes(counters, buckets, now, i + 1)
    ensures !Passes(counters, buckets, now, n) && FirstClosed(counters, buckets, now, n) == i
    decreases n
  {
    if n > i + 1 { FirstClosedIs(counters, buckets, now, n - 1, i); }
  }

  // ---- Fixed rules and histories -----------------------------------------------

  /** Limits, window lengths and row retention that do not change during a run. */
  datatype Rules = Rules(limitOf: (Scope, Id) -> int, windowOf: Scope -> nat, keepOf: Scope -> Option<nat>)

  predicate Follows(c: Call, rules: Rules)
  {
    && (forall i :: 0 <= i < |c.buckets| ==>
          var b := c.buckets[i];
          && b.window > 0 && b.limit == rules.limitOf(b.scope, b.subject) && b.window == rules.windowOf(b.scope)
          && b.keep == rules.keepOf(b.scope))
    && (forall i, j :: 0 <= i < j < |c.buckets| ==> c.buckets[i].scope != c.buckets[j].scope)
  }

  predicate Covers(c: Call, slot: Slot)
    requires Timed(c.buckets)
  {
    exists i :: 0 <= i < |c.buckets| && SlotOf(c.buckets[i], c.now) == slot
  }

  predicate AllTimed(history: seq<Call>)
  {
    forall i :: 0 <= i < |history| ==> Timed(history[i].buckets)
  }

  /** How many of these calls a counter covers. */
  function Count(history: seq<Call>, slot: Slot): nat
    requires AllTimed(history)
  {
    if history == [] then 0
    else Count(history[..|history| - 1], slot) + if Covers(history[|history| - 1], slot) then 1 else 0
  }

  /** What happens to the table: a call, or a sweep of all rows of windows that began before a
      cut-off. */
  datatype Event = Asking(call: Call) | Sweeping(cutoff: nat)

  function Sweep(counters: map<Slot, Counter>, cutoff: nat): map<Slot, Counter>
  {
    counters - set slot | slot in counters && slot.start < cutoff
  }

  /** The counters, the calls that were admitted, and the highest cut-off swept so far. */
  datatype Run = Run(counters: map<Slot, Counter>, history: seq<Call>, floor: nat)

  predicate EventsTimed(events: seq<Event>)
  {
    forall i :: 0 <= i < |events| && events[i].Asking? ==> Timed(events[i].call.buckets)
  }

  function Next(r: Run, e: Event): Run
    requires e.Asking? ==> Timed(e.call.buckets)
  {
    match e
    case Asking(c) => Run(After(r.counters, c), if Admitted(r.counters, c) then r.history + [c] else r.history, r.floor)
    case Sweeping(cutoff) => Run(Sweep(r.counters, cutoff), r.history, if r.floor <= cutoff then cutoff else r.floor)
  }

  /** From an empty table. */
  function RunAll(events: seq<Event>): (r: Run)
    requires EventsTimed(events)
    ensures AllTimed(r.history)
    ensures forall h :: h in r.history ==> Asking(h) in events
  {
    if events == [] then Run(map[], [], 0) else Next(RunAll(events[..|events| - 1]), events[|events| - 1])
  }

  /** Is this slot's row still kept at a time? */
  predicate Kept(rules: Rules, slot: Slot, now: nat)
  {
    var window := rules.windowOf(slot.scope);
    match rules.keepOf(slot.scope)
    case None => true
    case Some(keep) => window > 0 && slot.start + keep >= WindowStart(now, window)
  }

  /** Does the call take a slot from this ceiling of this subject? */
  predicate Takes(c: Call, scope: Scope, subject: Id)
  {
    exists i :: 0 <= i < |c.buckets| && c.buckets[i].scope == scope && c.buckets[i].subject == subject
  }

  /** The latest stamp among the calls that took from a ceiling of a subject, whatever the order
      they commit in: only those drop its rows. */
  function Newest(events: seq<Event>, scope: Scope, subject: Id): (t: nat)
    ensures forall i :: 0 <= i < |events| && events[i].Asking? && Takes(events[i].call, scope, subject) ==> events[i].call.now <= t
  {
    if events == [] then 0
    else
      var earlier, last := Newest(events[..|events| - 1], scope, subject), events[|events| - 1];
      if last.Asking? && Takes(last.call, scope, subject) && earlier <= last.call.now then last.call.now else earlier
  }

  predicate StillKept(events: seq<Event>, rules: Rules, slot: Slot)
  {
    Kept(rules, slot, Newest(events, slot.scope, slot.subject))
  }

  /** Counters and history agree, and no counter ever passed its limit. */
  ghost predicate Faithful(events: seq<Event>, rules: Rules)
    requires EventsTimed(events)
  {
    var r := RunAll(events);
    && (forall slot :: StillKept(events, rules, slot) && slot.start >= r.floor ==> Used(r.counters, slot) == Count(r.history, slot))
    && (forall slot :: Count(r.history, slot) <= Max(0, rules.limitOf(slot.scope, slot.subject)))
  }

  // ---- One call ----------------------------------------------------------------

  predicate CoversEarly(c: Call, slot: Slot, n: nat)
    requires n <= |c.buckets| && Timed(c.buckets)
  {
    exists i :: 0 <= i < n && SlotOf(c.buckets[i], c.now) == slot
  }

  lemma TakeOneCounts(counters: map<Slot, Counter>, b: Bucket, now: nat, slot: Slot)
    requires b.window > 0 && !Expired(b, now, slot)
    ensures Used(TakeOne(counters, b, now), slot) == Used(counters, slot) + if slot == SlotOf(b, now) then 1 else 0
  {}

  lemma KeptIsNotExpired(c: Call, rules: Rules, i: nat, slot: Slot)
    requires Follows(c, rules) && i < |c.buckets| && (Takes(c, slot.scope, slot.subject) ==> Kept(rules, slot, c.now))
    ensures !Expired(c.buckets[i], c.now, slot)
  {}

  lemma {:induction false} TakeCounts(counters: map<Slot, Counter>, c: Call, rules: Rules, n: nat, slot: Slot)
    requires Follows(c, rules) && n <= |c.buckets| && (Takes(c, slot.scope, slot.subject) ==> Kept(rules, slot, c.now))
    ensures Used(Take(counters, c.buckets, c.now, n), slot) == Used(counters, slot) + if CoversEarly(c, slot, n) then 1 else 0
  {
    if n > 0 {
      TakeCounts(counters, c, rules, n - 1, slot);
      KeptIsNotExpired(c, rules, n - 1, slot);
      TakeOneCounts(Take(counters, c.buckets, c.now, n - 1), c.buckets[n - 1], c.now, slot);
      if SlotOf(c.buckets[n - 1], c.now) == slot {
        forall i | 0 <= i < n - 1 ensures SlotOf(c.buckets[i], c.now) != slot {
          assert c.buckets[i].scope != c.buckets[n - 1].scope;
        }
      }
    }
  }

  lemma {:induction false} PassedEach(counters: map<Slot, Counter>, buckets: seq<Bucket>, now: nat, n: nat, i: nat)
    requires i < n <= |buckets| && Timed(buckets) && Passes(counters, buckets, now, n)
    ensures Open(Take(counters, buckets, now, i), buckets[i], now)
    decreases n
  {
    if i < n - 1 { PassedEach(counters, buckets, now, n - 1, i); }
  }

  lemma OwnSlotIsKept(c: Call, rules: Rules, i: nat)
    requires Follows(c, rules) && i < |c.buckets|
    ensures Kept(rules, SlotOf(c.buckets[i], c.now), c.now)
  {}

  /** A counter that an admitted call covers was below its limit. */
  lemma AdmittedWasBelow(counters: map<Slot, Counter>, c: Call, rules: Rules, slot: Slot)
    requires Follows(c, rules) && Admitted(counters, c) && Covers(c, slot)
    ensures Kept(rules, slot, c.now) && Used(counters, slot) < rules.limitOf(slot.scope, slot.subject)
  {
    var i :| 0 <= i < |c.buckets| && SlotOf(c.buckets[i], c.now) == slot;
    OwnSlotIsKept(c, rules, i);
    PassedEach(counters, c.buckets, c.now, |c.buckets|, i);
    TakeCounts(counters, c, rules, i, slot);
  }

  /** A refused call moves no counter. */
  lemma RefusedMovesNothing(counters: map<Slot, Counter>, c: Call, slot: Slot)
    requires Timed(c.buckets) && !Admitted(counters, c)
    ensures Used(After(counters, c), slot) == Used(counters, slot)
  {}

  lemma StartGrows(a: nat, b: nat, window: nat)
    requires window > 0 && a <= b
    ensures WindowStart(a, window) <= WindowStart(b, window)
  {
    StartBounds(a, window);
    StartBounds(b, window);
    if WindowStart(b, window) < WindowStart(a, window) {
      TimesMore(b / window, a / window, window);
    }
  }

  lemma {:induction false} TimesMore(x: nat, y: nat, w: nat)
    requires x < y
    ensures x * w + w <= y * w
    decreases y
  {
    assert y * w == (y - 1) * w + w;
    if x < y - 1 { TimesMore(x, y - 1, w); }
  }

  lemma KeptEarlier(rules: Rules, slot: Slot, before: nat, now: nat)
    requires before <= now && Kept(rules, slot, now)
    ensures Kept(rules, slot, before)
  {
    if rules.keepOf(slot.scope).Some? { StartGrows(before, now, rules.windowOf(slot.scope)); }
  }

  lemma CountOneMore(history: seq<Call>, c: Call, slot: Slot)
    requires AllTimed(history) && Timed(c.buckets)
    ensures AllTimed(history + [c])
    ensures Count(history + [c], slot) == Count(history, slot) + if Covers(c, slot) then 1 else 0
  {}

  /** None of the rows this call counts in can have been dropped by now. */
  predicate OwnKept(events: seq<Event>, c: Call, rules: Rules, floor: nat)
    requires Timed(c.buckets)
  {
    forall i :: 0 <= i < |c.buckets| ==>
      var slot := SlotOf(c.buckets[i], c.now); StillKept(events, rules, slot) && slot.start >= floor
  }

  lemma NewestGrows(events: seq<Event>, scope: Scope, subject: Id)
    requires events != []
    ensures Newest(events[..|events| - 1], scope, subject) <= Newest(events, scope, subject)
  {}

  /** Rows kept after a call were kept before it, and this call drops none of them. */
  lemma KeptAfterCall(events: seq<Event>, c: Call, rules: Rules, slot: Slot)
    requires events != [] && events[|events| - 1] == Asking(c) && StillKept(events, rules, slot)
    ensures StillKept(events[..|events| - 1], rules, slot)
    ensures Takes(c, slot.scope, slot.subject) ==> Kept(rules, slot, c.now)
  {
    NewestGrows(events, slot.scope, slot.subject);
    KeptEarlier(rules, slot, Newest(events[..|events| - 1], slot.scope, slot.subject), Newest(events, slot.scope, slot.subject));
    if Takes(c, slot.scope, slot.subject) {
      KeptEarlier(rules, slot, c.now, Newest(events, slot.scope, slot.subject));
    }
  }

  lemma CallCounts(events: seq<Event>, c: Call, rules: Rules, slot: Slot)
    requires EventsTimed(events) && events != [] && events[|events| - 1] == Asking(c) && Follows(c, rules)
    requires EventsTimed(events[..|events| - 1]) && Faithful(events[..|events| - 1], rules)
    requires var r := RunAll(events[..|events| - 1]); OwnKept(events, c, rules, r.floor) && Admitted(r.counters, c)
    ensures var r := RunAll(events[..|events| - 1]);
            && AllTimed(r.history + [c])
            && (StillKept(events, rules, slot) && slot.start >= r.floor ==>
                  Used(After(r.counters, c), slot) == Count(r.history + [c], slot))
            && Count(r.history + [c], slot) <= Max(0, rules.limitOf(slot.scope, slot.subject))
  {
    var r := RunAll(events[..|events| - 1]);
    CountOneMore(r.history, c, slot);
    if Covers(c, slot) {
      AdmittedWasBelow(r.counters, c, rules, slot);
      var i :| 0 <= i < |c.buckets| && SlotOf(c.buckets[i], c.now) == slot;
      KeptAfterCall(events, c, rules, slot);
    }
    if StillKept(events, rules, slot) && slot.start >= r.floor {
      KeptAfterCall(events, c, rules, slot);
      TakeCounts(r.counters, c, rules, |c.buckets|, slot);
      assert CoversEarly(c, slot, |c.buckets|) <==> Covers(c, slot);
    }
  }

  lemma CallStaysFaithful(events: seq<Event>, c: Call, rules: Rules)
    requires EventsTimed(events) && events != [] && events[|events| - 1] == Asking(c) && Follows(c, rules)
    requires EventsTimed(events[..|events| - 1]) && Faithful(events[..|events| - 1], rules)
    requires OwnKept(events, c, rules, RunAll(events[..|events| - 1]).floor)
    ensures Faithful(events, rules)
  {
    var r := RunAll(events[..|events| - 1]);
    var next := RunAll(events);
    assert next == Next(r, Asking(c));
    if Admitted(r.counters, c) {
      forall slot ensures (StillKept(events, rules, slot) && slot.start >= r.floor ==> Used(next.counters, slot) == Count(next.history, slot))
                          && Count(next.history, slot) <= Max(0, rules.limitOf(slot.scope, slot.subject)) {
        CallCounts(events, c, rules, slot);
      }
    } else {
      forall slot | StillKept(events, rules, slot) && slot.start >= r.floor ensures Used(next.counters, slot) == Count(next.history, slot) {
        KeptAfterCall(events, c, rules, slot);
        RefusedMovesNothing(r.counters, c, slot);
      }
    }
  }

  lemma SweepStaysFaithful(events: seq<Event>, cutoff: nat, rules: Rules)
    requires EventsTimed(events) && events != [] && events[|events| - 1] == Sweeping(cutoff)
    requires EventsTimed(events[..|events| - 1]) && Faithful(events[..|events| - 1], rules)
    ensures Faithful(events, rules)
  {
    var r := RunAll(events[..|events| - 1]);
    assert RunAll(events) == Next(r, Sweeping(cutoff));
    forall slot | StillKept(events, rules, slot) ensures StillKept(events[..|events| - 1], rules, slot) {}
  }

  // ---- Every run ---------------------------------------------------------------

  predicate AllFollow(events: seq<Event>, rules: Rules)
  {
    forall i :: 0 <= i < |events| && events[i].Asking? ==> Follows(events[i].call, rules)
  }

  /** A call is stamped before its transaction begins, so calls may commit in another order
      than that of their stamps. None of them commits so late that a newer call on the same
      ceiling and subject, or a sweep, may have dropped a row it counts in. */
  predicate InTime(events: seq<Event>, rules: Rules)
    requires EventsTimed(events)
  {
    events == [] ||
    (var before, last := events[..|events| - 1], events[|events| - 1];
     InTime(before, rules) && (last.Asking? ==> OwnKept(events, last.call, rules, RunAll(before).floor)))
  }

  lemma OneMoreInTime(events: seq<Event>, rules: Rules)
    requires EventsTimed(events) && events != []
    requires EventsTimed(events[..|events| - 1]) && InTime(events[..|events| - 1], rules)
    requires var last := events[|events| - 1];
             last.Asking? ==> OwnKept(events, last.call, rules, RunAll(events[..|events| - 1]).floor)
    ensures InTime(events, rules)
  {}

  /** After any calls and sweeps, in whatever order they commit: every counter still kept
      equals the number of admitted calls it covers, and no counter, kept or dropped, ever let
      more through than its limit. */
  lemma {:induction false} CountersAreFaithful(events: seq<Event>, rules: Rules)
    requires AllFollow(events, rules) && EventsTimed(events) && InTime(events, rules)
    ensures Faithful(events, rules)
  {
    if events != [] {
      var last := |events| - 1;
      CountersAreFaithful(events[..last], rules);
      match events[last]
      case Asking(c) => CallStaysFaithful(events, c, rules);
      case Sweeping(cutoff) => SweepStaysFaithful(events, cutoff, rules);
    }
  }

  // ---- Any span of one window's length -----------------------------------------

  /** Was this admitted call counted for the subject, at a time in [from, from + window)? */
  predicate InSpan(c: Call, scope: Scope, subject: Id, from: nat, window: nat)
  {
    from <= c.now < from + window && Takes(c, scope, subject)
  }

  function SpanCount(history: seq<Call>, scope: Scope, subject: Id, from: nat, window: nat): nat
  {
    if history == [] then 0
    else SpanCount(history[..|history| - 1], scope, subject, from, window)
         + if InSpan(history[|history| - 1], scope, subject, from, window) then 1 else 0
  }

  /** A span of one window's length lies in two windows. */
  lemma SpanIsInTwoWindows(now: nat, from: nat, window: nat)
    requires window > 0 && from <= now < from + window
    ensures WindowStart(now, window) in {WindowStart(from, window), WindowStart(from, window) + window}
  {
    StartBounds(from, window);
    StartBounds(now, window);
    StartGrows(from, now, window);
    var q, r := now / window, from / window;
    if q > r + 1 { TimesMore(r + 1, q, window); }
    if q > r { TimesMore(r, q, window); }
    if q < r { TimesMore(q, r, window); }
  }

  lemma {:induction false} SpanIsTwoCounts(history: seq<Call>, rules: Rules, scope: Scope, subject: Id, from: nat)
    requires (forall i :: 0 <= i < |history| ==> Follows(history[i], rules)) && AllTimed(history) && rules.windowOf(scope) > 0
    ensures var window := rules.windowOf(scope);
            var start := WindowStart(from, window);
            SpanCount(history, scope, subject, from, window)
            <= Count(history, Slot(scope, subject, start)) + Count(history, Slot(scope, subject, start + window))
  {
    if history != [] {
      var last := |history| - 1;
      var c := history[last];
      var window := rules.windowOf(scope);
      SpanIsTwoCounts(history[..last], rules, scope, subject, from);
      if InSpan(c, scope, subject, from, window) {
        var i :| 0 <= i < |c.buckets| && c.buckets[i].scope == scope && c.buckets[i].subject == subject;
        SpanIsInTwoWindows(c.now, from, window);
        assert SlotOf(c.buckets[i], c.now) == Slot(scope, subject, WindowStart(c.now, window));
        assert Covers(c, Slot(scope, subject, WindowStart(c.now, window)));
      }
    }
  }

  lemma HistoryFollows(events: seq<Event>, rules: Rules)
    requires AllFollow(events, rules) && EventsTimed(events)
    ensures var h := RunAll(events).history; forall i :: 0 <= i < |h| ==> Follows(h[i], rules)
  {
    var h := RunAll(events).history;
    forall i | 0 <= i < |h| ensures Follows(h[i], rules) {
      assert h[i] in h;
      var k :| 0 <= k < |events| && events[k] == Asking(h[i]);
    }
  }

  /** Whatever the calls, no span of one window's length admits more than twice the limit. */
  lemma AnySpanAdmitsAtMostTwice(events: seq<Event>, rules: Rules, scope: Scope, subject: Id, from: nat)
    requires AllFollow(events, rules) && EventsTimed(events) && InTime(events, rules) && rules.windowOf(scope) > 0
    ensures SpanCount(RunAll(events).history, scope, subject, from, rules.windowOf(scope))
         <= 2 * Max(0, rules.limitOf(scope, subject))
  {
    CountersAreFaithful(events, rules);
    HistoryFollows(events, rules);
    var window := rules.windowOf(scope);
    var start := WindowStart(from, window);
    var h := RunAll(events).history;
    SpanIsTwoCounts(h, rules, scope, subject, from);
    assert Count(h, Slot(scope, subject, start)) <= Max(0, rules.limitOf(scope, subject));
    assert Count(h, Slot(scope, subject, start + window)) <= Max(0, rules.limitOf(scope, subject));
  }
}
