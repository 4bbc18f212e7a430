/** The two users of the ceilings: requests per key and organization (src/rateLimit.ts
    131-213), and sign-in mail (src/authThrottle.ts 71-165, 326-420, 617-629). */
module RateLimits {
  import opened Pricing
  import opened Sums
  import opened Ceilings

  // ---- Requests ----------------------------------------------------------------

  const MINUTE: nat := 60_000

  /** Counter rows are kept a week. */
  const ROWS_KEPT: nat := 7 * 24 * 60 * 60_000

  /** Organization first, then key. */
  function RequestBuckets(org: Id, key: Id, orgLimit: int, keyLimit: int): seq<Bucket>
  {
    [Bucket(Organization, org, MINUTE, orgLimit, Some(ROWS_KEPT)), Bucket(ApiKey, key, MINUTE, keyLimit, Some(ROWS_KEPT))]
  }

  datatype Decision = Decision(allowed: bool, scope: Option<Scope>, limit: int, retryAfterSeconds: int)

  class RateLimiter {
    var windows: map<Slot, Counter>

    constructor ()
      ensures windows == map[]
    {
      windows := map[];
    }

    method CheckRateLimit(org: Id, key: Id, orgLimit: int, keyLimit: int, now: nat) returns (d: Decision)
      modifies this
      ensures var c := Call(RequestBuckets(org, key, Max(0, orgLimit), Max(0, keyLimit)), now);
              && windows == After(old(windows), c) && d.allowed == Admitted(old(windows), c)
              && d.retryAfterSeconds == RetryAfter(now, MINUTE)
      ensures d.scope == (if d.allowed then None
                          else if Passes(old(windows), RequestBuckets(org, key, Max(0, orgLimit), Max(0, keyLimit)), now, 1) then Some(ApiKey)
                          else Some(Organization))
      ensures d.limit == if d.scope == Some(Organization) then Max(0, orgLimit) else Max(0, keyLimit)
    {
      var buckets := RequestBuckets(org, key, Max(0, orgLimit), Max(0, keyLimit));
      var refusedBy;
      windows, refusedBy := TakeAll(windows, buckets, now);
      var retry := RetryAfter(now, MINUTE);
      match refusedBy
      case None => d := Decision(true, None, Max(0, keyLimit), retry);
      case Some(i) => d := Decision(false, Some(buckets[i].scope), buckets[i].limit, retry);
    }
  }

  /** A request as the limiter counts it. */
  datatype Request = Request(org: Id, key: Id, now: nat)

  function CallOf(r: Request, limitOf: (Scope, Id) -> int): Call
  {
    Call(RequestBuckets(r.org, r.key, limitOf(Organization, r.org), limitOf(ApiKey, r.key)), r.now)
  }

  /** The limiter sees requests and nothing else: rows are dropped only by them. */
  function Calls(requests: seq<Request>, limitOf: (Scope, Id) -> int): (calls: seq<Event>)
    ensures |calls| == |requests| && EventsTimed(calls)
    ensures forall i :: 0 <= i < |calls| ==> calls[i] == Asking(CallOf(requests[i], limitOf))
  {
    if requests == [] then [] else Calls(requests[..|requests| - 1], limitOf) + [Asking(CallOf(requests[|requests| - 1], limitOf))]
  }

  /** Every key belongs to one organization. */
  predicate Owned(requests: seq<Request>, ownerOf: Id -> Id)
  {
    forall i :: 0 <= i < |requests| ==> requests[i].org == ownerOf(requests[i].key)
  }

  function KeysOf(requests: seq<Request>, org: Id): set<Id>
  {
    set i | 0 <= i < |requests| && requests[i].org == org :: requests[i].key
  }

  function KeyCount(history: seq<Call>, start: nat): Id -> int
    requires AllTimed(history)
  {
    (key: Id) => Count(history, Slot(ApiKey, key, start))
  }

  function KeyUse(counters: map<Slot, Counter>, start: nat): Id -> int
  {
    (key: Id) => Used(counters, Slot(ApiKey, key, start))
  }

  /** Does this call come from one of these organizations' keys? */
  ghost predicate FromKeys(c: Call, org: Id, keys: set<Id>)
  {
    exists r: Request, limitOf: (Scope, Id) -> int :: c == CallOf(r, limitOf) && (r.org == org <==> r.key in keys)
  }

  ghost predicate AllFromKeys(history: seq<Call>, org: Id, keys: set<Id>)
  {
    forall i :: 0 <= i < |history| ==> FromKeys(history[i], org, keys)
  }

  lemma CoversOwn(r: Request, limitOf: (Scope, Id) -> int, slot: Slot)
    requires slot.scope in {Organization, ApiKey}
    ensures Timed(CallOf(r, limitOf).buckets)
    ensures Ceilings.Covers(CallOf(r, limitOf), slot)
       <==> slot.start == WindowStart(r.now, MINUTE) && slot.subject == if slot.scope == Organization then r.org else r.key
  {
    var c := CallOf(r, limitOf);
    assert SlotOf(c.buckets[0], c.now) == Slot(Organization, r.org, WindowStart(r.now, MINUTE));
    assert SlotOf(c.buckets[1], c.now) == Slot(ApiKey, r.key, WindowStart(r.now, MINUTE));
  }

  /** The organization's count is the sum of its keys' counts. */
  lemma {:induction false} OrganizationIsItsKeys(history: seq<Call>, org: Id, keys: set<Id>, start: nat)
    requires AllTimed(history) && AllFromKeys(history, org, keys)
    ensures Count(history, Slot(Organization, org, start)) == SetTotal(keys, KeyCount(history, start))
  {
    if history == [] {
      SetTotalZero(keys, KeyCount(history, start));
    } else {
      var last := |history| - 1;
      var before, c := history[..last], history[last];
      OrganizationIsItsKeys(before, org, keys, start);
      var r: Request, limitOf: (Scope, Id) -> int :| c == CallOf(r, limitOf) && (r.org == org <==> r.key in keys);
      CoversOwn(r, limitOf, Slot(Organization, org, start));
      forall k ensures KeyCount(history, start)(k)
                    == KeyCount(before, start)(k) + if k == r.key && start == WindowStart(r.now, MINUTE) then 1 else 0 {
        CoversOwn(r, limitOf, Slot(ApiKey, k, start));
      }
      SetTotalMoves(keys, KeyCount(before, start), KeyCount(history, start), r.key);
    }
  }

  function RequestRules(limitOf: (Scope, Id) -> int): Rules
  {
    Rules(limitOf, (s: Scope) => MINUTE, (s: Scope) => Some(ROWS_KEPT))
  }

  lemma HistoryComesFromKeys(requests: seq<Request>, limitOf: (Scope, Id) -> int, ownerOf: Id -> Id, org: Id)
    requires Owned(requests, ownerOf)
    ensures AllFromKeys(RunAll(Calls(requests, limitOf)).history, org, KeysOf(requests, org))
  {
    var calls := Calls(requests, limitOf);
    var h := RunAll(calls).history;
    forall i | 0 <= i < |h| ensures FromKeys(h[i], org, KeysOf(requests, org)) {
      assert Asking(h[i]) in calls;
      var j :| 0 <= j < |calls| && calls[j] == Asking(h[i]);
      var r := requests[j];
      assert r.org == org ==> r.key in KeysOf(requests, org);
      if r.key in KeysOf(requests, org) {
        var k :| 0 <= k < |requests| && requests[k].org == org && requests[k].key == r.key;
      }
      assert h[i] == CallOf(r, limitOf);
    }
  }

  /** No request commits with a window more than a week behind one of the same organization or
      key that committed before it. */
  predicate Prompt(requests: seq<Request>)
  {
    forall i, j :: 0 <= i < j < |requests| && (requests[i].org == requests[j].org || requests[i].key == requests[j].key) ==>
      WindowStart(requests[i].now, MINUTE) <= WindowStart(requests[j].now, MINUTE) + ROWS_KEPT
  }

  /** Without a sweep nothing lies below the floor. */
  lemma {:induction false} NoFloor(requests: seq<Request>, limitOf: (Scope, Id) -> int)
    ensures RunAll(Calls(requests, limitOf)).floor == 0
  {
    if requests != [] {
      var last := |requests| - 1;
      assert Calls(requests, limitOf)[..last] == Calls(requests[..last], limitOf);
      NoFloor(requests[..last], limitOf);
    }
  }

  /** Does the request count for this organization or key? */
  predicate CountsFor(r: Request, scope: Scope, subject: Id)
  {
    (scope == Organization && r.org == subject) || (scope == ApiKey && r.key == subject)
  }

  lemma TakesItsOwn(r: Request, limitOf: (Scope, Id) -> int, scope: Scope, subject: Id)
    ensures Takes(CallOf(r, limitOf), scope, subject) <==> CountsFor(r, scope, subject)
  {
    var c := CallOf(r, limitOf);
    assert c.buckets[0].scope == Organization && c.buckets[1].scope == ApiKey;
  }

  lemma {:induction false} NewestIsOne(requests: seq<Request>, limitOf: (Scope, Id) -> int, scope: Scope, subject: Id)
    ensures var newest := Newest(Calls(requests, limitOf), scope, subject);
            newest == 0 || exists i :: 0 <= i < |requests| && CountsFor(requests[i], scope, subject) && requests[i].now == newest
  {
    if requests != [] {
      var last := |requests| - 1;
      var calls := Calls(requests, limitOf);
      assert calls[..last] == Calls(requests[..last], limitOf);
      assert calls[last] == Asking(CallOf(requests[last], limitOf));
      NewestIsOne(requests[..last], limitOf, scope, subject);
      TakesItsOwn(requests[last], limitOf, scope, subject);
      var newest := Newest(calls, scope, subject);
      if newest == Newest(calls[..last], scope, subject) && newest != 0 {
        var i :| 0 <= i < last && CountsFor(requests[..last][i], scope, subject) && requests[..last][i].now == newest;
        assert CountsFor(requests[i], scope, subject) && requests[i].now == newest;
      }
    }
  }

  lemma {:induction false} NewestIsPrompt(requests: seq<Request>, limitOf: (Scope, Id) -> int, scope: Scope, subject: Id)
    requires Prompt(requests) && requests != [] && CountsFor(requests[|requests| - 1], scope, subject)
    ensures WindowStart(Newest(Calls(requests, limitOf), scope, subject), MINUTE)
         <= WindowStart(requests[|requests| - 1].now, MINUTE) + ROWS_KEPT
  {
    var last := |requests| - 1;
    var newest := Newest(Calls(requests, limitOf), scope, subject);
    NewestIsOne(requests, limitOf, scope, subject);
    if newest != 0 {
      var i :| 0 <= i < |requests| && CountsFor(requests[i], scope, subject) && requests[i].now == newest;
      assert i < last ==> WindowStart(requests[i].now, MINUTE) <= WindowStart(requests[last].now, MINUTE) + ROWS_KEPT;
    }
  }

  lemma {:induction false} OwnRowKept(requests: seq<Request>, limitOf: (Scope, Id) -> int, scope: Scope, subject: Id)
    requires Prompt(requests) && requests != [] && CountsFor(requests[|requests| - 1], scope, subject)
    ensures StillKept(Calls(requests, limitOf), RequestRules(limitOf), Slot(scope, subject, WindowStart(requests[|requests| - 1].now, MINUTE)))
  {
    NewestIsPrompt(requests, limitOf, scope, subject);
  }

  lemma TwoSlots(events: seq<Event>, r: Request, limitOf: (Scope, Id) -> int)
    requires StillKept(events, RequestRules(limitOf), Slot(Organization, r.org, WindowStart(r.now, MINUTE)))
    requires StillKept(events, RequestRules(limitOf), Slot(ApiKey, r.key, WindowStart(r.now, MINUTE)))
    ensures Timed(CallOf(r, limitOf).buckets) && OwnKept(events, CallOf(r, limitOf), RequestRules(limitOf), 0)
  {
    var c := CallOf(r, limitOf);
    assert SlotOf(c.buckets[0], c.now) == Slot(Organization, r.org, WindowStart(r.now, MINUTE));
    assert SlotOf(c.buckets[1], c.now) == Slot(ApiKey, r.key, WindowStart(r.now, MINUTE));
  }

  lemma {:induction false} RequestRowsKept(requests: seq<Request>, limitOf: (Scope, Id) -> int)
    requires Prompt(requests) && requests != []
    ensures var c := CallOf(requests[|requests| - 1], limitOf);
            Timed(c.buckets) && OwnKept(Calls(requests, limitOf), c, RequestRules(limitOf), 0)
  {
    var r := requests[|requests| - 1];
    OwnRowKept(requests, limitOf, Organization, r.org);
    OwnRowKept(requests, limitOf, ApiKey, r.key);
    TwoSlots(Calls(requests, limitOf), r, limitOf);
  }

  lemma {:induction false} PromptIsInTime(requests: seq<Request>, limitOf: (Scope, Id) -> int)
    requires Prompt(requests)
    ensures InTime(Calls(requests, limitOf), RequestRules(limitOf))
  {
    if requests != [] {
      var last := |requests| - 1;
      var calls := Calls(requests, limitOf);
      PromptIsInTime(requests[..last], limitOf);
      assert calls[..last] == Calls(requests[..last], limitOf);
      NoFloor(requests[..last], limitOf);
      RequestRowsKept(requests, limitOf);
      OneMoreInTime(calls, RequestRules(limitOf));
    }
  }

  lemma RequestsFollow(requests: seq<Request>, limitOf: (Scope, Id) -> int)
    ensures AllFollow(Calls(requests, limitOf), RequestRules(limitOf))
  {
    var calls := Calls(requests, limitOf);
    forall i | 0 <= i < |calls| ensures Follows(calls[i].call, RequestRules(limitOf)) {
      assert calls[i] == Asking(CallOf(requests[i], limitOf));
    }
  }

  lemma {:induction false} RequestsAreFaithful(requests: seq<Request>, limitOf: (Scope, Id) -> int)
    requires Prompt(requests)
    ensures Faithful(Calls(requests, limitOf), RequestRules(limitOf))
  {
    PromptIsInTime(requests, limitOf);
    RequestsFollow(requests, limitOf);
    CountersAreFaithful(Calls(requests, limitOf), RequestRules(limitOf));
  }

  /** No key of an organization has been used later than the organization. */
  lemma KeysAreNoNewer(requests: seq<Request>, limitOf: (Scope, Id) -> int, ownerOf: Id -> Id, org: Id, key: Id)
    requires Owned(requests, ownerOf) && key in KeysOf(requests, org)
    ensures Newest(Calls(requests, limitOf), ApiKey, key) <= Newest(Calls(requests, limitOf), Organization, org)
  {
    var calls := Calls(requests, limitOf);
    NewestIsOne(requests, limitOf, ApiKey, key);
    if Newest(calls, ApiKey, key) != 0 {
      var i :| 0 <= i < |requests| && CountsFor(requests[i], ApiKey, key) && requests[i].now == Newest(calls, ApiKey, key);
      var k :| 0 <= k < |requests| && requests[k].org == org && requests[k].key == key;
      TakesItsOwn(requests[i], limitOf, Organization, org);
      assert calls[i] == Asking(CallOf(requests[i], limitOf));
    }
  }

  lemma {:induction false} KeptSlots(
    requests: seq<Request>, limitOf: (Scope, Id) -> int, ownerOf: Id -> Id, start: nat, org: Id)
    requires Owned(requests, ownerOf) && Faithful(Calls(requests, limitOf), RequestRules(limitOf))
    requires start + ROWS_KEPT >= WindowStart(Newest(Calls(requests, limitOf), Organization, org), MINUTE)
    ensures var r, keys := RunAll(Calls(requests, limitOf)), KeysOf(requests, org);
            && Used(r.counters, Slot(Organization, org, start)) == Count(r.history, Slot(Organization, org, start))
            && Used(r.counters, Slot(Organization, org, start)) <= Max(0, limitOf(Organization, org))
            && SetTotal(keys, KeyUse(r.counters, start)) == SetTotal(keys, KeyCount(r.history, start))
  {
    var calls, rules := Calls(requests, limitOf), RequestRules(limitOf);
    var r, keys := RunAll(calls), KeysOf(requests, org);
    NoFloor(requests, limitOf);
    assert StillKept(calls, rules, Slot(Organization, org, start));
    forall k | k in keys ensures KeyUse(r.counters, start)(k) == KeyCount(r.history, start)(k) {
      KeysAreNoNewer(requests, limitOf, ownerOf, org, k);
      StartGrows(Newest(calls, ApiKey, k), Newest(calls, Organization, org), MINUTE);
      assert StillKept(calls, rules, Slot(ApiKey, k, start));
    }
    SetTotalSame(keys, KeyUse(r.counters, start), KeyCount(r.history, start));
  }

  lemma HistoryAddsUp(requests: seq<Request>, limitOf: (Scope, Id) -> int, ownerOf: Id -> Id, org: Id, start: nat)
    requires Owned(requests, ownerOf)
    ensures var h := RunAll(Calls(requests, limitOf)).history;
            Count(h, Slot(Organization, org, start)) == SetTotal(KeysOf(requests, org), KeyCount(h, start))
  {
    HistoryComesFromKeys(requests, limitOf, ownerOf, org);
    OrganizationIsItsKeys(RunAll(Calls(requests, limitOf)).history, org, KeysOf(requests, org), start);
  }

  /** On every run with fixed limits, in whatever order the requests commit, for every window
      whose row the organization still has: an organization's counter is the sum of its keys' counters,
      and each is within its limit. */
  lemma {:induction false} OrganizationCounterIsTheSum(
    requests: seq<Request>, limitOf: (Scope, Id) -> int, ownerOf: Id -> Id, org: Id, start: nat)
    requires Owned(requests, ownerOf) && Prompt(requests)
    requires start + ROWS_KEPT >= WindowStart(Newest(Calls(requests, limitOf), Organization, org), MINUTE)
    ensures var counters := RunAll(Calls(requests, limitOf)).counters;
            && Used(counters, Slot(Organization, org, start))
               == SetTotal(KeysOf(requests, org), KeyUse(counters, start))
            && Used(counters, Slot(Organization, org, start)) <= Max(0, limitOf(Organization, org))
  {
    RequestsAreFaithful(requests, limitOf);
    HistoryAddsUp(requests, limitOf, ownerOf, org, start);
    KeptSlots(requests, limitOf, ownerOf, start, org);
  }

  /** On the same runs no minute, wherever it starts, admits more than twice what an
      organization or a key is allowed. */
  lemma AnyMinuteAdmitsAtMostTwice(requests: seq<Request>, limitOf: (Scope, Id) -> int, scope: Scope, subject: Id, from: nat)
    requires Prompt(requests)
    ensures SpanCount(RunAll(Calls(requests, limitOf)).history, scope, subject, from, 60_000) <= 2 * Max(0, limitOf(scope, subject))
  {
    PromptIsInTime(requests, limitOf);
    RequestsFollow(requests, limitOf);
    AnySpanAdmitsAtMostTwice(Calls(requests, limitOf), RequestRules(limitOf), scope, subject, from);
  }

  // ---- A request more than a week late -----------------------------------------

  /** The same request `n` times. */
  function Repeat(r: Request, n: nat): (requests: seq<Request>)
    ensures |requests| == n && forall i :: 0 <= i < n ==> requests[i] == r
  {
    if n == 0 then [] else Repeat(r, n - 1) + [r]
  }

  /** Two rows, one of each ceiling, and nothing else. */
  function TwoRows(org: Id, key: Id, now: nat, used: nat): map<Slot, Counter>
  {
    map[Slot(Organization, org, WindowStart(now, MINUTE)) := Counter(used, 0),
        Slot(ApiKey, key, WindowStart(now, MINUTE)) := Counter(used, 0)]
  }

  lemma OneMoreRequest(requests: seq<Request>, r: Request, limitOf: (Scope, Id) -> int)
    ensures var before, after := RunAll(Calls(requests, limitOf)), RunAll(Calls(requests + [r], limitOf));
            var c := CallOf(r, limitOf);
            after == Next(before, Asking(c))
  {
    var all := requests + [r];
    assert all[..|all| - 1] == requests;
    assert Calls(all, limitOf) == Calls(requests, limitOf) + [Asking(CallOf(r, limitOf))];
    assert Calls(all, limitOf)[..|requests|] == Calls(requests, limitOf);
  }

  /** What one admitted request does to the counters, when all there is are the two rows of an
      equal or much older window. */
  lemma AdmittedRequest(org: Id, key: Id, was: nat, used: nat, now: nat, limitOf: (Scope, Id) -> int)
    requires WindowStart(was, MINUTE) == WindowStart(now, MINUTE) || WindowStart(was, MINUTE) + ROWS_KEPT < WindowStart(now, MINUTE)
    requires limitOf(Organization, org) >= 1 && limitOf(ApiKey, key) >= 1 && used >= 1
    requires WindowStart(was, MINUTE) == WindowStart(now, MINUTE) ==> used < limitOf(Organization, org) && used < limitOf(ApiKey, key)
    ensures var c := CallOf(Request(org, key, now), limitOf);
            && Admitted(TwoRows(org, key, was, used), c)
            && After(TwoRows(org, key, was, used), c)
               == TwoRows(org, key, now, if WindowStart(was, MINUTE) == WindowStart(now, MINUTE) then used + 1 else 1)
  {
    var c := CallOf(Request(org, key, now), limitOf);
    var rows := TwoRows(org, key, was, used);
    var one := Take(rows, c.buckets, now, 1);
    assert Passes(rows, c.buckets, now, 0) && Take(rows, c.buckets, now, 0) == rows;
    assert Passes(rows, c.buckets, now, 1);
    assert one == TakeOne(rows, c.buckets[0], now);
    assert Passes(rows, c.buckets, now, 2);
  }

  /** A request whose two rows are not there is admitted. */
  lemma NewWindowAdmits(counters: map<Slot, Counter>, org: Id, key: Id, now: nat, limitOf: (Scope, Id) -> int)
    requires Slot(Organization, org, WindowStart(now, MINUTE)) !in counters && Slot(ApiKey, key, WindowStart(now, MINUTE)) !in counters
    requires limitOf(Organization, org) >= 1 && limitOf(ApiKey, key) >= 1
    ensures Admitted(counters, CallOf(Request(org, key, now), limitOf))
    ensures counters == map[] ==> After(counters, CallOf(Request(org, key, now), limitOf)) == TwoRows(org, key, now, 1)
  {
    var c := CallOf(Request(org, key, now), limitOf);
    assert Passes(counters, c.buckets, now, 0) && Take(counters, c.buckets, now, 0) == counters;
    assert Passes(counters, c.buckets, now, 1);
    assert Take(counters, c.buckets, now, 1) == TakeOne(counters, c.buckets[0], now);
    assert Passes(counters, c.buckets, now, 2);
  }

  /** Both of a request's counters have covered `n` admitted calls. */
  predicate CountedTimes(history: seq<Call>, q: Request, n: nat)
    requires AllTimed(history)
  {
    && Count(history, Slot(Organization, q.org, WindowStart(q.now, MINUTE))) == n
    && Count(history, Slot(ApiKey, q.key, WindowStart(q.now, MINUTE))) == n
  }

  /** These requests have put `n` calls into both rows of `r`'s window, and there are no others. */
  ghost predicate FullUp(requests: seq<Request>, r: Request, n: nat, limitOf: (Scope, Id) -> int)
  {
    match RunAll(Calls(requests, limitOf))
    case Run(counters, history, _) => counters == TwoRows(r.org, r.key, r.now, n) && AllTimed(history) && CountedTimes(history, r, n)
  }

  lemma FirstRequest(requests: seq<Request>, r: Request, limitOf: (Scope, Id) -> int)
    requires requests == [] && 1 <= limitOf(Organization, r.org) && 1 <= limitOf(ApiKey, r.key)
    ensures FullUp(requests + [r], r, 1, limitOf)
  {
    OneMoreRequest(requests, r, limitOf);
    NewWindowAdmits(map[], r.org, r.key, r.now, limitOf);
    OneMoreCounted(requests, r, 0, limitOf);
  }

  lemma AnotherRequest(requests: seq<Request>, r: Request, n: nat, limitOf: (Scope, Id) -> int)
    requires 1 <= n < limitOf(Organization, r.org) && n < limitOf(ApiKey, r.key) && FullUp(requests, r, n, limitOf)
    ensures FullUp(requests + [r], r, n + 1, limitOf)
  {
    OneMoreRequest(requests, r, limitOf);
    AdmittedRequest(r.org, r.key, r.now, n, r.now, limitOf);
    OneMoreCounted(requests, r, n, limitOf);
  }

  /** Up to the limits, every repeated request is admitted and counted. */
  lemma {:induction false} FillsUp(requests: seq<Request>, r: Request, limitOf: (Scope, Id) -> int)
    requires 1 <= |requests| <= limitOf(Organization, r.org) && |requests| <= limitOf(ApiKey, r.key)
    requires forall i :: 0 <= i < |requests| ==> requests[i] == r
    ensures FullUp(requests, r, |requests|, limitOf)
  {
    var before := requests[..|requests| - 1];
    assert requests == before + [r];
    if before == [] {
      FirstRequest(before, r, limitOf);
    } else {
      FillsUp(before, r, limitOf);
      AnotherRequest(before, r, |before|, limitOf);
    }
  }

  /** An admitted request counts in its own two rows. */
  lemma CountsOwn(history: seq<Call>, r: Request, q: Request, limitOf: (Scope, Id) -> int)
    requires AllTimed(history) && r.org == q.org && r.key == q.key
    ensures AllTimed(history + [CallOf(r, limitOf)])
    ensures var same := if WindowStart(r.now, MINUTE) == WindowStart(q.now, MINUTE) then 1 else 0;
            var after := history + [CallOf(r, limitOf)];
            && Count(after, Slot(Organization, q.org, WindowStart(q.now, MINUTE)))
               == Count(history, Slot(Organization, q.org, WindowStart(q.now, MINUTE))) + same
            && Count(after, Slot(ApiKey, q.key, WindowStart(q.now, MINUTE)))
               == Count(history, Slot(ApiKey, q.key, WindowStart(q.now, MINUTE))) + same
  {
    var c := CallOf(r, limitOf);
    CoversOwn(r, limitOf, Slot(Organization, q.org, WindowStart(q.now, MINUTE)));
    CoversOwn(r, limitOf, Slot(ApiKey, q.key, WindowStart(q.now, MINUTE)));
    CountOneMore(history, c, Slot(Organization, q.org, WindowStart(q.now, MINUTE)));
    CountOneMore(history, c, Slot(ApiKey, q.key, WindowStart(q.now, MINUTE)));
  }

  /** The tighter limit's worth of requests, one in a window more than a week later, and one
      more that was stamped with the first but commits last. */
  function Straggler(early: Request, late: nat, limitOf: (Scope, Id) -> int): seq<Request>
  {
    var n := Min(limitOf(Organization, early.org), limitOf(ApiKey, early.key));
    Repeat(early, if n >= 0 then n else 0) + [early.(now := late)] + [early]
  }

  /** The request of the later window drops the rows of the earlier one. */
  lemma LaterWindowDrops(requests: seq<Request>, early: Request, late: nat, n: nat, limitOf: (Scope, Id) -> int)
    requires n >= 1 && limitOf(Organization, early.org) >= 1 && limitOf(ApiKey, early.key) >= 1
    requires WindowStart(early.now, MINUTE) + ROWS_KEPT < WindowStart(late, MINUTE)
    requires FullUp(requests, early, n, limitOf)
    ensures var run := RunAll(Calls(requests + [early.(now := late)], limitOf));
            run.counters == TwoRows(early.org, early.key, late, 1) && CountedTimes(run.history, early, n)
  {
    var r := early.(now := late);
    OneMoreRequest(requests, r, limitOf);
    AdmittedRequest(early.org, early.key, early.now, n, late, limitOf);
    CountsOwn(RunAll(Calls(requests, limitOf)).history, r, early, limitOf);
  }

  lemma OtherWindow(org: Id, key: Id, early: nat, late: nat, used: nat)
    requires WindowStart(early, MINUTE) != WindowStart(late, MINUTE)
    ensures Slot(Organization, org, WindowStart(early, MINUTE)) !in TwoRows(org, key, late, used)
    ensures Slot(ApiKey, key, WindowStart(early, MINUTE)) !in TwoRows(org, key, late, used)
  {}

  lemma OneMoreCounted(requests: seq<Request>, r: Request, n: nat, limitOf: (Scope, Id) -> int)
    requires Admitted(RunAll(Calls(requests, limitOf)).counters, CallOf(r, limitOf))
    requires CountedTimes(RunAll(Calls(requests, limitOf)).history, r, n)
    ensures CountedTimes(RunAll(Calls(requests + [r], limitOf)).history, r, n + 1)
  {
    OneMoreRequest(requests, r, limitOf);
    CountsOwn(RunAll(Calls(requests, limitOf)).history, r, r, limitOf);
  }

  /** So the straggler finds room again. */
  lemma StragglerIsAdmitted(requests: seq<Request>, early: Request, late: nat, n: nat, limitOf: (Scope, Id) -> int)
    requires limitOf(Organization, early.org) >= 1 && limitOf(ApiKey, early.key) >= 1
    requires WindowStart(early.now, MINUTE) < WindowStart(late, MINUTE)
    requires RunAll(Calls(requests, limitOf)).counters == TwoRows(early.org, early.key, late, 1)
    requires CountedTimes(RunAll(Calls(requests, limitOf)).history, early, n)
    ensures CountedTimes(RunAll(Calls(requests + [early], limitOf)).history, early, n + 1)
  {
    OtherWindow(early.org, early.key, early.now, late, 1);
    NewWindowAdmits(TwoRows(early.org, early.key, late, 1), early.org, early.key, early.now, limitOf);
    OneMoreCounted(requests, early, n, limitOf);
  }

  lemma StragglerIsCounted(early: Request, late: nat, limitOf: (Scope, Id) -> int)
    requires limitOf(Organization, early.org) >= 1 && limitOf(ApiKey, early.key) >= 1
    requires WindowStart(early.now, MINUTE) + ROWS_KEPT < WindowStart(late, MINUTE)
    ensures CountedTimes(RunAll(Calls(Straggler(early, late, limitOf), limitOf)).history, early,
                         Min(limitOf(Organization, early.org), limitOf(ApiKey, early.key)) + 1)
  {
    var n := Min(limitOf(Organization, early.org), limitOf(ApiKey, early.key));
    FillsUp(Repeat(early, n), early, limitOf);
    LaterWindowDrops(Repeat(early, n), early, late, n, limitOf);
    StragglerIsAdmitted(Repeat(early, n) + [early.(now := late)], early, late, n, limitOf);
  }

  /** Some counter let more through than its limit. */
  ghost predicate Overrun(requests: seq<Request>, limitOf: (Scope, Id) -> int)
  {
    exists slot :: Count(RunAll(Calls(requests, limitOf)).history, slot) > Max(0, limitOf(slot.scope, slot.subject))
  }

  predicate StampedAt(requests: seq<Request>, early: nat, late: nat)
  {
    forall r :: r in requests ==> r.now == early || r.now == late
  }

  lemma StragglerOverruns(early: Request, late: nat, limitOf: (Scope, Id) -> int)
    requires limitOf(Organization, early.org) >= 1 && limitOf(ApiKey, early.key) >= 1
    requires WindowStart(early.now, MINUTE) + ROWS_KEPT < WindowStart(late, MINUTE)
    ensures StampedAt(Straggler(early, late, limitOf), early.now, late) && Overrun(Straggler(early, late, limitOf), limitOf)
  {
    StragglerIsCounted(early, late, limitOf);
    var h := RunAll(Calls(Straggler(early, late, limitOf), limitOf)).history;
    var start := WindowStart(early.now, MINUTE);
    if limitOf(Organization, early.org) <= limitOf(ApiKey, early.key) {
      assert Count(h, Slot(Organization, early.org, start)) > Max(0, limitOf(Organization, early.org));
    } else {
      assert Count(h, Slot(ApiKey, early.key, start)) > Max(0, limitOf(ApiKey, early.key));
    }
  }

  lemma CloseStampsNeverOverrun(requests: seq<Request>, early: nat, late: nat, limitOf: (Scope, Id) -> int)
    requires early <= late && StampedAt(requests, early, late)
    requires WindowStart(late, MINUTE) <= WindowStart(early, MINUTE) + ROWS_KEPT
    ensures !Overrun(requests, limitOf)
  {
    StartGrows(early, late, MINUTE);
    forall i, j | 0 <= i < j < |requests|
      ensures WindowStart(requests[i].now, MINUTE) <= WindowStart(requests[j].now, MINUTE) + ROWS_KEPT {
      assert requests[i] in requests && requests[j] in requests;
    }
    RequestsAreFaithful(requests, limitOf);
  }

  /** A week is exactly what the rule can bear: requests with these two stamps, in whatever
      order and number they commit, can pass a limit exactly when the stamps' windows lie more
      than a week apart. */
  lemma LimitsHoldForExactlyAWeek(org: Id, key: Id, early: nat, late: nat, limitOf: (Scope, Id) -> int)
    requires early <= late && limitOf(Organization, org) >= 1 && limitOf(ApiKey, key) >= 1
    ensures (exists requests: seq<Request> :: StampedAt(requests, early, late) && Overrun(requests, limitOf))
       <==> WindowStart(early, 60_000) + 7 * 86_400_000 < WindowStart(late, 60_000)
  {
    if WindowStart(early, MINUTE) + ROWS_KEPT < WindowStart(late, MINUTE) {
      StragglerOverruns(Request(org, key, early), late, limitOf);
    } else {
      forall requests: seq<Request> | StampedAt(requests, early, late) ensures !Overrun(requests, limitOf) {
        CloseStampsNeverOverrun(requests, early, late, limitOf);
      }
    }
  }

  // ---- Sign-in mail ------------------------------------------------------------

  datatype Ceiling = Ceiling(scope: Scope, windowSeconds: nat, limit: int)

  /** In the order they are taken. */
  function DefaultCeilings(): seq<Ceiling>
  {
    [Ceiling(SubnetHour, 3600, 20), Ceiling(IpHour, 3600, 10), Ceiling(GlobalDay, 86400, 50), Ceiling(AddressDay, 86400, 5),
     Ceiling(AddressCooldown, 600, 1), Ceiling(InviteOrgDay, 86400, 30), Ceiling(InviteAddressDay, 86400, 3),
     Ceiling(OauthStartIpHour, 3600, 30)]
  }

  /** Whose counter a scope moves: everyone's, or a hash of the address, the caller or its
      network, or the organization. */
  datatype Subjects = Subjects(address: Id, ip: Id, subnet: Id, org: Id)

  function SubjectOf(s: Subjects, scope: Scope): Id
  {
    match scope
    case SubnetHour => s.subnet
    case IpHour | OauthStartIpHour => s.ip
    case AddressDay | AddressCooldown | InviteAddressDay => s.address
    case InviteOrgDay => s.org
    case _ => 0
  }

  /** Whose requests a bucket counts: those from one network, from one caller, for one address,
      for one organization, or all of them. */
  predicate CountedFor(b: Bucket, s: Subjects)
  {
    && (b.scope == SubnetHour ==> b.subject == s.subnet)
    && (b.scope == IpHour || b.scope == OauthStartIpHour ==> b.subject == s.ip)
    && (b.scope == AddressDay || b.scope == AddressCooldown || b.scope == InviteAddressDay ==> b.subject == s.address)
    && (b.scope == InviteOrgDay ==> b.subject == s.org)
    && (b.scope == GlobalDay ==> b.subject == 0)
  }

  /** The named ceilings, filtered from the canonical list. */
  function Chosen(ceilings: seq<Ceiling>, scopes: set<Scope>, s: Subjects): (buckets: seq<Bucket>)
    ensures forall b :: b in buckets ==>
              b.scope in scopes && b.subject == SubjectOf(s, b.scope) && b.keep == None
              && exists c :: c in ceilings && c.scope == b.scope && b.window == c.windowSeconds * 1000 && b.limit == c.limit
    ensures (forall i, j :: 0 <= i < j < |ceilings| ==> ceilings[i].scope != ceilings[j].scope) ==>
              forall i, j :: 0 <= i < j < |buckets| ==> buckets[i].scope != buckets[j].scope
  {
    if ceilings == [] then []
    else
      var c := ceilings[0];
      var rest := Chosen(ceilings[1..], scopes, s);
      if c.scope in scopes then [Bucket(c.scope, SubjectOf(s, c.scope), c.windowSeconds * 1000, c.limit, None)] + rest else rest
  }

  predicate BucketOf(b: Bucket, c: Ceiling)
  {
    b.scope == c.scope && b.limit == c.limit && b.window == c.windowSeconds * 1000
  }

  /** Every named ceiling has its bucket, after those of the named ones before it. */
  lemma {:induction false} NamedHaveTheirBuckets(ceilings: seq<Ceiling>, scopes: set<Scope>, s: Subjects, i: nat)
    requires i < |ceilings| && ceilings[i].scope in scopes
    ensures |Chosen(ceilings[..i], scopes, s)| < |Chosen(ceilings, scopes, s)|
    ensures BucketOf(Chosen(ceilings, scopes, s)[|Chosen(ceilings[..i], scopes, s)|], ceilings[i])
  {
    var c, rest := ceilings[0], Chosen(ceilings[1..], scopes, s);
    if i == 0 {
      assert Chosen(ceilings[..i], scopes, s) == [];
      assert BucketOf(Chosen(ceilings, scopes, s)[0], c);
    } else {
      NamedHaveTheirBuckets(ceilings[1..], scopes, s, i - 1);
      assert ceilings[..i][1..] == ceilings[1..][..i - 1];
      var k := |Chosen(ceilings[1..][..i - 1], scopes, s)|;
      assert BucketOf(rest[k], ceilings[i]);
      assert |Chosen(ceilings[..i], scopes, s)| == k + if c.scope in scopes then 1 else 0;
    }
  }

  lemma {:induction false} BucketsCountTheirOwn(ceilings: seq<Ceiling>, scopes: set<Scope>, s: Subjects, k: nat)
    requires k < |Chosen(ceilings, scopes, s)|
    ensures CountedFor(Chosen(ceilings, scopes, s)[k], s)
  {
    assert Chosen(ceilings, scopes, s)[k] in Chosen(ceilings, scopes, s);
  }

  // What the counters of every run of sign-in mail say.

  /** One ceiling a scope, with a window to count in. */
  predicate WellSet(ceilings: seq<Ceiling>)
  {
    && (forall c :: c in ceilings ==> c.windowSeconds > 0)
    && forall i, j :: 0 <= i < j < |ceilings| ==> ceilings[i].scope != ceilings[j].scope
  }

  function CeilingFor(ceilings: seq<Ceiling>, scope: Scope): Option<Ceiling>
  {
    if ceilings == [] then None else if ceilings[0].scope == scope then Some(ceilings[0]) else CeilingFor(ceilings[1..], scope)
  }

  lemma {:induction false} CeilingForIs(ceilings: seq<Ceiling>, i: nat)
    requires WellSet(ceilings) && i < |ceilings|
    ensures CeilingFor(ceilings, ceilings[i].scope) == Some(ceilings[i])
  {
    if i > 0 { CeilingForIs(ceilings[1..], i - 1); }
  }

  /** No request drops a row; a sweep does. */
  function SignInRules(ceilings: seq<Ceiling>): Rules
  {
    Rules(
      (scope: Scope, subject: Id) => match CeilingFor(ceilings, scope) case None => 0 case Some(c) => c.limit,
      (scope: Scope) => match CeilingFor(ceilings, scope) case None => 0 case Some(c) => c.windowSeconds * 1000,
      (scope: Scope) => None)
  }

  datatype MailRequest = MailRequest(scopes: set<Scope>, subjects: Subjects, now: nat)

  function MailCall(r: MailRequest, ceilings: seq<Ceiling>): Call
  {
    Call(Chosen(ceilings, r.scopes, r.subjects), r.now)
  }

  datatype MailEvent = Mail(request: MailRequest) | SweepThrottle(now: nat)

  /** Rows of windows that began more than a week ago are swept. */
  function EventOf(e: MailEvent, ceilings: seq<Ceiling>): Event
  {
    match e
    case Mail(r) => Asking(MailCall(r, ceilings))
    case SweepThrottle(now) => Sweeping(if now >= ROWS_KEPT then now - ROWS_KEPT else 0)
  }

  function EventsOf(all: seq<MailEvent>, ceilings: seq<Ceiling>): (events: seq<Event>)
    ensures |events| == |all| && forall i :: 0 <= i < |events| ==> events[i] == EventOf(all[i], ceilings)
  {
    if all == [] then [] else EventsOf(all[..|all| - 1], ceilings) + [EventOf(all[|all| - 1], ceilings)]
  }

  /** No request commits in a window that began more than a week before an earlier sweep. */
  predicate PromptMail(all: seq<MailEvent>, ceilings: seq<Ceiling>)
  {
    forall i, j, c :: 0 <= i < j < |all| && all[i].SweepThrottle? && all[j].Mail? && c in ceilings && c.windowSeconds > 0 ==>
      all[i].now <= WindowStart(all[j].request.now, c.windowSeconds * 1000) + ROWS_KEPT
  }

  /** The floor is that of some sweep. */
  lemma {:induction false} FloorIsASweep(all: seq<MailEvent>, ceilings: seq<Ceiling>)
    requires WellSet(ceilings)
    ensures EventsTimed(EventsOf(all, ceilings)) && AllFollow(EventsOf(all, ceilings), SignInRules(ceilings))
    ensures var floor := RunAll(EventsOf(all, ceilings)).floor;
            floor == 0 || exists i :: 0 <= i < |all| && all[i].SweepThrottle? && all[i].now == floor + ROWS_KEPT
  {
    var events := EventsOf(all, ceilings);
    forall i | 0 <= i < |events| && events[i].Asking? ensures Follows(events[i].call, SignInRules(ceilings)) {
      MailFollows(all[i].request, ceilings);
    }
    if all != [] {
      var last := |all| - 1;
      FloorIsASweep(all[..last], ceilings);
      assert events[..last] == EventsOf(all[..last], ceilings);
      var before, floor := RunAll(events[..last]).floor, RunAll(events).floor;
      if floor == before && floor != 0 {
        var i :| 0 <= i < last && all[..last][i].SweepThrottle? && all[..last][i].now == floor + ROWS_KEPT;
        assert all[i] == all[..last][i];
      }
    }
  }

  lemma EarlierMailIsPrompt(all: seq<MailEvent>, ceilings: seq<Ceiling>)
    requires all != [] && PromptMail(all, ceilings)
    ensures PromptMail(all[..|all| - 1], ceilings)
  {}

  lemma {:induction false} PromptMailIsInTime(all: seq<MailEvent>, ceilings: seq<Ceiling>)
    requires WellSet(ceilings) && PromptMail(all, ceilings)
    ensures EventsTimed(EventsOf(all, ceilings)) && InTime(EventsOf(all, ceilings), SignInRules(ceilings))
  {
    FloorIsASweep(all, ceilings);
    if all != [] {
      var last := |all| - 1;
      var events := EventsOf(all, ceilings);
      EarlierMailIsPrompt(all, ceilings);
      PromptMailIsInTime(all[..last], ceilings);
      assert events[..last] == EventsOf(all[..last], ceilings);
      if all[last].Mail? { LastMailStands(all, ceilings, RunAll(events[..last]).floor); }
      OneMoreInTime(events, SignInRules(ceilings));
    }
  }

  lemma LastMailStands(all: seq<MailEvent>, ceilings: seq<Ceiling>, floor: nat)
    requires WellSet(ceilings) && PromptMail(all, ceilings) && all != [] && all[|all| - 1].Mail?
    requires EventsTimed(EventsOf(all[..|all| - 1], ceilings)) && RunAll(EventsOf(all[..|all| - 1], ceilings)).floor == floor
    ensures var c := MailCall(all[|all| - 1].request, ceilings);
            Timed(c.buckets) && OwnKept(EventsOf(all, ceilings), c, SignInRules(ceilings), floor)
  {
    FloorAmongEarlier(all, ceilings, floor);
    OwnRowsStand(all, ceilings, floor);
  }

  lemma FloorAmongEarlier(all: seq<MailEvent>, ceilings: seq<Ceiling>, floor: nat)
    requires WellSet(ceilings) && all != []
    requires EventsTimed(EventsOf(all[..|all| - 1], ceilings)) && RunAll(EventsOf(all[..|all| - 1], ceilings)).floor == floor
    ensures floor == 0 || exists i :: 0 <= i < |all| - 1 && all[i].SweepThrottle? && all[i].now == floor + ROWS_KEPT
  {
    var before := all[..|all| - 1];
    FloorIsASweep(before, ceilings);
    if floor != 0 {
      var i :| 0 <= i < |before| && before[i].SweepThrottle? && before[i].now == floor + ROWS_KEPT;
      assert all[i] == before[i];
    }
  }

  lemma OwnRowsStand(all: seq<MailEvent>, ceilings: seq<Ceiling>, floor: nat)
    requires WellSet(ceilings) && PromptMail(all, ceilings) && all != [] && all[|all| - 1].Mail?
    requires floor == 0 || exists i :: 0 <= i < |all| - 1 && all[i].SweepThrottle? && all[i].now == floor + ROWS_KEPT
    ensures var c := MailCall(all[|all| - 1].request, ceilings);
            Timed(c.buckets) && OwnKept(EventsOf(all, ceilings), c, SignInRules(ceilings), floor)
  {
    var r := all[|all| - 1].request;
    var c := MailCall(r, ceilings);
    MailFollows(r, ceilings);
    forall k | 0 <= k < |c.buckets| ensures SlotOf(c.buckets[k], c.now).start >= floor {
      assert c.buckets[k] in c.buckets;
      var ceiling :| ceiling in ceilings && c.buckets[k].window == ceiling.windowSeconds * 1000;
      if floor != 0 {
        var i :| 0 <= i < |all| - 1 && all[i].SweepThrottle? && all[i].now == floor + ROWS_KEPT;
        assert all[i].now <= WindowStart(r.now, ceiling.windowSeconds * 1000) + ROWS_KEPT;
      }
    }
  }

  lemma MailFollows(r: MailRequest, ceilings: seq<Ceiling>)
    requires WellSet(ceilings)
    ensures Follows(MailCall(r, ceilings), SignInRules(ceilings))
  {
    var buckets := Chosen(ceilings, r.scopes, r.subjects);
    forall i | 0 <= i < |buckets|
      ensures var b, rules := buckets[i], SignInRules(ceilings);
              && b.window > 0 && b.limit == rules.limitOf(b.scope, b.subject) && b.window == rules.windowOf(b.scope)
              && b.keep == rules.keepOf(b.scope)
    {
      assert buckets[i] in buckets;
      var c :| c in ceilings && c.scope == buckets[i].scope && buckets[i].window == c.windowSeconds * 1000 && buckets[i].limit == c.limit;
      var k :| 0 <= k < |ceilings| && ceilings[k] == c;
      CeilingForIs(ceilings, k);
    }
  }

  /** On every run of sign-in mail and sweeps, in whatever order its transactions commit: each
      counter whose row no sweep has dropped equals the number of admitted requests it covers,
      no counter ever let more through than its limit, and no span of one window's length
      admits more than twice the limit. */
  lemma SignInCountersAreFaithful(ceilings: seq<Ceiling>, all: seq<MailEvent>, i: nat, subject: Id, from: nat)
    requires WellSet(ceilings) && PromptMail(all, ceilings) && i < |ceilings|
    ensures var events, c := EventsOf(all, ceilings), ceilings[i];
            && EventsTimed(events)
            && (forall slot: Slot :: slot.start >= RunAll(events).floor ==>
                  Used(RunAll(events).counters, slot) == Count(RunAll(events).history, slot))
            && (forall start :: Count(RunAll(events).history, Slot(c.scope, subject, start)) <= Max(0, c.limit))
            && SpanCount(RunAll(events).history, c.scope, subject, from, c.windowSeconds * 1000) <= 2 * Max(0, c.limit)
  {
    var events, rules := EventsOf(all, ceilings), SignInRules(ceilings);
    FloorIsASweep(all, ceilings);
    PromptMailIsInTime(all, ceilings);
    CountersAreFaithful(events, rules);
    CeilingForIs(ceilings, i);
    AnySpanAdmitsAtMostTwice(events, rules, ceilings[i].scope, subject, from);
    forall slot: Slot | slot.start >= RunAll(events).floor ensures Used(RunAll(events).counters, slot) == Count(RunAll(events).history, slot) {
      assert StillKept(events, rules, slot);
    }
  }

  /** In particular with the ceilings as they ship. */
  lemma DefaultsAreWellSet()
    ensures WellSet(DefaultCeilings())
  {}

  ghost function MailSpan(all: seq<MailEvent>, scope: Scope, subject: Id, from: nat, length: nat): nat
    requires EventsTimed(EventsOf(all, DefaultCeilings()))
  {
    SpanCount(RunAll(EventsOf(all, DefaultCeilings())).history, scope, subject, from, length)
  }

  lemma {:induction false} ShippedSpan(ceilings: seq<Ceiling>, all: seq<MailEvent>, i: nat, subject: Id, from: nat, length: nat)
    requires ceilings == DefaultCeilings() && WellSet(ceilings) && PromptMail(all, ceilings) && i < |ceilings|
    requires ceilings[i].windowSeconds * 1000 == length
    ensures EventsTimed(EventsOf(all, DefaultCeilings()))
    ensures MailSpan(all, ceilings[i].scope, subject, from, length) <= 2 * Max(0, ceilings[i].limit)
  {
    SignInCountersAreFaithful(ceilings, all, i, subject, from);
  }

  /** What the ceilings that ship let through at most, in spans that begin anywhere: in any day
      100 mails in all, 10 to one address, 60 invitations of one organization and 6 to one
      address; in any hour 40 requests of one network, 20 of one caller and 60 sign-in starts;
      in any ten minutes 2 to one address. */
  lemma {:induction false} ShippedCeilings(all: seq<MailEvent>, subject: Id, from: nat)
    requires PromptMail(all, DefaultCeilings())
    ensures EventsTimed(EventsOf(all, DefaultCeilings()))
    ensures MailSpan(all, GlobalDay, subject, from, 86_400_000) <= 100
    ensures MailSpan(all, AddressDay, subject, from, 86_400_000) <= 10
    ensures MailSpan(all, InviteOrgDay, subject, from, 86_400_000) <= 60
    ensures MailSpan(all, InviteAddressDay, subject, from, 86_400_000) <= 6
    ensures MailSpan(all, SubnetHour, subject, from, 3_600_000) <= 40
    ensures MailSpan(all, IpHour, subject, from, 3_600_000) <= 20
    ensures MailSpan(all, OauthStartIpHour, subject, from, 3_600_000) <= 60
    ensures MailSpan(all, AddressCooldown, subject, from, 600_000) <= 2
  {
    DefaultsAreWellSet();
    FloorIsASweep(all, DefaultCeilings());
    ShippedSpan(DefaultCeilings(), all, 0, subject, from, 3_600_000);
    ShippedSpan(DefaultCeilings(), all, 1, subject, from, 3_600_000);
    ShippedSpan(DefaultCeilings(), all, 2, subject, from, 86_400_000);
    ShippedSpan(DefaultCeilings(), all, 3, subject, from, 86_400_000);
    ShippedSpan(DefaultCeilings(), all, 4, subject, from, 600_000);
    ShippedSpan(DefaultCeilings(), all, 5, subject, from, 86_400_000);
    ShippedSpan(DefaultCeilings(), all, 6, subject, from, 86_400_000);
    ShippedSpan(DefaultCeilings(), all, 7, subject, from, 3_600_000);
  }

  datatype Reservation = Reservation(allowed: bool, refusedBy: Option<Scope>, retryAfterSeconds: int)

  class AuthThrottle {
    var throttle: map<Slot, Counter>

    constructor ()
      ensures throttle == map[]
    {
      throttle := map[];
    }

    /** One slot from each of the named ceilings, or none. */
    method TakeNamed(ceilings: seq<Ceiling>, scopes: set<Scope>, s: Subjects, now: nat) returns (out: Reservation)
      requires forall c :: c in ceilings ==> c.windowSeconds > 0
      modifies this
      ensures Timed(Chosen(ceilings, scopes, s))
      ensures forall i :: 0 <= i < |ceilings| && ceilings[i].scope in scopes ==>
                exists b :: b in Chosen(ceilings, scopes, s) && CountedFor(b, s) && b.scope == ceilings[i].scope
                            && b.limit == ceilings[i].limit && b.window == ceilings[i].windowSeconds * 1000
      ensures var c := Call(Chosen(ceilings, scopes, s), now);
              && throttle == After(old(throttle), c) && out.allowed == Admitted(old(throttle), c)
              && (out.allowed ==> out.refusedBy == None && out.retryAfterSeconds == 0)
              && (!out.allowed ==>
                    var b := c.buckets[FirstClosed(old(throttle), c.buckets, now, |c.buckets|)];
                    out.refusedBy == Some(b.scope) && out.retryAfterSeconds == RetryAfter(now, b.window))
    {
      var buckets := Chosen(ceilings, scopes, s);
      forall i | 0 <= i < |buckets| ensures buckets[i].window > 0 {
        assert buckets[i] in buckets;
      }
      forall i | 0 <= i < |ceilings| && ceilings[i].scope in scopes
        ensures exists b :: b in buckets && CountedFor(b, s) && b.scope == ceilings[i].scope
                            && b.limit == ceilings[i].limit && b.window == ceilings[i].windowSeconds * 1000 {
        NamedHaveTheirBuckets(ceilings, scopes, s, i);
        BucketsCountTheirOwn(ceilings, scopes, s, |Chosen(ceilings[..i], scopes, s)|);
        assert buckets[|Chosen(ceilings[..i], scopes, s)|] in buckets;
      }
      ghost var before := throttle;
      var refusedBy;
      throttle, refusedBy := TakeAll(throttle, buckets, now);
      match refusedBy
      case None => out := Reservation(true, None, 0);
      case Some(i) =>
        FirstClosedIs(before, buckets, now, |buckets|, i);
        out := Reservation(false, Some(buckets[i].scope), RetryAfter(now, buckets[i].window));
    }
  }
}
