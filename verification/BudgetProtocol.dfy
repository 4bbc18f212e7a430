/** The reservation protocol under concurrency (src/providerBudget.ts 375-582).

    `reserveProviderBudget` is several statements in one READ COMMITTED transaction: take
    the day's advisory lock, read committed spend, read outstanding reservations, insert.
    Settle, release and sweep are single statements that take no lock, so any number of
    them may run between two statements of a reserve. Every interleaving is a list of
    `Action`s; an action that is not enabled (a caller that has to wait) changes nothing. */
module BudgetProtocol {
  import opened Pricing
  import opened Sums
  import opened Tables
  import opened ProviderBudget

  datatype Attempt = Attempt(id: Id, max: nat, now: Time, ttl: nat)

  function DayFor(a: Attempt): nat { DayOf(a.now) }

  /** Where one caller of reserve is. `since` is history: what was settled punctually on
      the attempt's day after its first read and, in `HaveBoth`, before its second. */
  datatype Pc =
    | Idle
    | Waiting(a: Attempt)
    | Locked(a: Attempt)
    | HaveCommitted(a: Attempt, committed: int, since: nat)
    | HaveBoth(a: Attempt, committed: int, since: nat, outstanding: int)

  predicate HoldsLock(pc: Pc) { pc.Locked? || pc.HaveCommitted? || pc.HaveBoth? }

  /** `between(d)`: `since` of the last admitted reserve on day d. `slip(d)`: by how much
      late or over-maximum settlements booked on d raised that day's total.
      `below(d)`: the sum of the negative amounts booked on d. All three are history. */
  datatype Machine = Machine(
    limit: int, clock: Time, db: Db, callers: map<nat, Pc>,
    between: map<nat, int>, slip: map<nat, int>, below: map<nat, int>)

  function At(m: map<nat, int>, day: nat): int { if day in m then m[day] else 0 }

  function PcOf(m: Machine, c: nat): Pc { if c in m.callers then m.callers[c] else Idle }

  function Init(limit: int): Machine { Machine(limit, 0, Db(map[], map[]), map[], map[], map[], map[]) }

  datatype Action =
    | Tick(to: Time)
    | Begin(c: nat, a: Attempt)
    | Lock(c: nat)
    | ReadCommitted(c: nat)
    | ReadOutstanding(c: nat)
    | Finish(c: nat)
    | Abort(c: nat)
    | Settle(id: Id, actual: int, now: Time)
    | Release(id: Id)
    | Sweep(now: Time)

  /** A settlement of a live reservation, booked on the reservation's own day. */
  predicate OnTime(m: Machine, id: Id, now: Time)
  {
    && id in m.db.rows && m.db.rows[id].state == Reserved
    && m.db.rows[id].expiresAt > m.clock && m.db.rows[id].day == DayOf(now)
  }

  function Punctual(m: Machine, id: Id, actual: int, now: Time): nat
  {
    if OnTime(m, id, now) then Max(0, Min(actual, m.db.rows[id].max)) else 0
  }

  function SlipOf(m: Machine, id: Id, actual: int, now: Time): nat
  {
    Max(0, actual) - Punctual(m, id, actual, now)
  }

  function Waited(pc: Pc, day: nat, amount: nat): Pc
  {
    match pc
    case HaveCommitted(a, committed, since) =>
      if DayFor(a) == day then HaveCommitted(a, committed, since + amount) else pc
    case _ => pc
  }

  ghost function Step(m: Machine, action: Action): Machine
  {
    match action
    case Tick(to) => if to >= m.clock then m.(clock := to) else m
    case Begin(c, a) =>
      if PcOf(m, c) == Idle && a.now <= m.clock then m.(callers := m.callers[c := Waiting(a)]) else m
    case Lock(c) =>
      if PcOf(m, c).Waiting?
         && (forall o | o in m.callers :: HoldsLock(m.callers[o]) ==> DayFor(m.callers[o].a) != DayFor(PcOf(m, c).a))
      then m.(callers := m.callers[c := Locked(PcOf(m, c).a)])
      else m
    case ReadCommitted(c) =>
      if PcOf(m, c).Locked? then
        var a := PcOf(m, c).a;
        m.(callers := m.callers[c := HaveCommitted(a, SpendOn(m.db, DayFor(a)), 0)])
      else m
    case ReadOutstanding(c) => ReadOutstandingStep(m, c)
    case Finish(c) => FinishStep(m, c)
    case Abort(c) => if c in m.callers then m.(callers := m.callers[c := Idle]) else m
    case Settle(id, actual, now) => SettleStep(m, id, actual, now)
    case Release(id) => m.(db := ReleaseRow(m.db, id))
    case Sweep(now) => if now <= m.clock then m.(db := SweepRows(m.db, now)) else m
  }

  ghost function ReadOutstandingStep(m: Machine, c: nat): Machine
  {
    if PcOf(m, c).HaveCommitted? then
      var pc := PcOf(m, c);
      m.(callers := m.callers[c := HaveBoth(pc.a, pc.committed, pc.since, Live(m.db, DayFor(pc.a), pc.a.now))])
    else m
  }

  /** The comparison, then INSERT and COMMIT (the row becomes visible and the lock is
      released together) or the rollback of a refusal. */
  function FinishStep(m: Machine, c: nat): Machine
  {
    var pc := PcOf(m, c);
    if !pc.HaveBoth? then m
    else if pc.committed + pc.outstanding + pc.a.max > m.limit || pc.a.id in m.db.rows then
      m.(callers := m.callers[c := Idle])
    else
      m.(callers := m.callers[c := Idle],
         db := m.db.(rows := m.db.rows[pc.a.id := RowFor(pc.a)]),
         between := m.between[DayFor(pc.a) := pc.since])
  }

  function RowFor(a: Attempt): Reservation
  {
    Reservation(0, None, a.max, Reserved, DayFor(a), 0, a.now + a.ttl)
  }

  function SettleStep(m: Machine, id: Id, actual: int, now: Time): Machine
  {
    if now <= m.clock && id in m.db.rows && Settleable(m.db.rows[id]) then
      var day := DayOf(now);
      m.(db := SettleRow(m.db, id, actual, now),
         slip := m.slip[day := At(m.slip, day) + SlipOf(m, id, actual, now)],
         below := m.below[day := At(m.below, day) + Min(0, actual)],
         callers := map c | c in m.callers :: Waited(m.callers[c], day, Punctual(m, id, actual, now)))
    else m
  }

  ghost function Run(m: Machine, actions: seq<Action>): Machine
  {
    if actions == [] then m else Step(Run(m, actions[..|actions| - 1]), actions[|actions| - 1])
  }

  /** The day's recorded spend plus what live reservations still hold. */
  ghost function DayTotal(m: Machine, day: nat): int
  {
    SpendOn(m.db, day) + Live(m.db, day, m.clock)
  }

  // ---- The invariant -----------------------------------------------------------

  ghost predicate Exclusive(m: Machine)
  {
    forall c, d :: c in m.callers && d in m.callers && c != d && HoldsLock(m.callers[c]) && HoldsLock(m.callers[d])
      ==> DayFor(m.callers[c].a) != DayFor(m.callers[d].a)
  }

  /** What a caller's reads still tell it about the day it holds the lock of. */
  ghost predicate ReadsHold(m: Machine, pc: Pc)
  {
    && (pc != Idle ==> pc.a.now <= m.clock)
    && (pc.HaveCommitted? ==>
          SpendOn(m.db, DayFor(pc.a)) <= pc.committed + pc.since + At(m.slip, DayFor(pc.a)))
    && (pc.HaveBoth? ==>
          DayTotal(m, DayFor(pc.a)) <= pc.committed + pc.outstanding + pc.since + At(m.slip, DayFor(pc.a)))
  }

  ghost predicate Capped(m: Machine, day: nat)
  {
    DayTotal(m, day) <= Max(0, m.limit) + At(m.between, day) + At(m.slip, day)
  }

  ghost predicate Inv(m: Machine)
  {
    && (forall id :: id in m.db.rows ==> m.db.rows[id].max >= 0)
    && (forall day :: At(m.between, day) >= 0 && At(m.slip, day) >= 0 && At(m.below, day) <= 0)
    && Exclusive(m)
    && (forall c :: c in m.callers ==> ReadsHold(m, m.callers[c]))
    && (forall day :: Capped(m, day))
    && (forall day :: SpendOn(m.db, day) == Recorded(m.db, day) + At(m.below, day))
  }

  lemma InvTick(m: Machine, to: Time)
    requires Inv(m) && to >= m.clock
    ensures Inv(Step(m, Tick(to)))
  {
    var n := Step(m, Tick(to));
    forall day ensures DayTotal(n, day) <= DayTotal(m, day) {
      LiveShrinksWithTime(m.db, day, m.clock, to);
    }
    forall day ensures Capped(n, day) { assert Capped(m, day); }
    forall c | c in n.callers ensures ReadsHold(n, n.callers[c]) { assert ReadsHold(m, m.callers[c]); }
  }

  /** Steps that only move one caller's program counter keep everything else. */
  lemma InvCaller(m: Machine, c: nat, pc: Pc)
    requires Inv(m)
    requires ReadsHold(m, pc)
    requires HoldsLock(pc) ==>
               forall o :: o in m.callers && o != c && HoldsLock(m.callers[o]) ==> DayFor(m.callers[o].a) != DayFor(pc.a)
    ensures Inv(m.(callers := m.callers[c := pc]))
  {
    var n := m.(callers := m.callers[c := pc]);
    forall day ensures Capped(n, day) { assert Capped(m, day); }
    forall o | o in n.callers ensures ReadsHold(n, n.callers[o]) {
      if o != c { assert ReadsHold(m, m.callers[o]); }
    }
  }

  lemma InvReadOutstanding(m: Machine, c: nat)
    requires Inv(m)
    ensures Inv(Step(m, ReadOutstanding(c)))
  {
    var pc := PcOf(m, c);
    if pc.HaveCommitted? {
      assert ReadsHold(m, pc);
      LiveShrinksWithTime(m.db, DayFor(pc.a), pc.a.now, m.clock);
      InvCaller(m, c, HaveBoth(pc.a, pc.committed, pc.since, Live(m.db, DayFor(pc.a), pc.a.now)));
    }
  }

  lemma InvInsert(m: Machine, a: Attempt, since: nat)
    requires Inv(m) && a.id !in m.db.rows
    requires forall o :: o in m.callers && HoldsLock(m.callers[o]) ==> DayFor(m.callers[o].a) != DayFor(a)
    requires DayTotal(m, DayFor(a)) + a.max <= Max(0, m.limit) + since + At(m.slip, DayFor(a))
    ensures Inv(m.(db := m.db.(rows := m.db.rows[a.id := RowFor(a)]), between := m.between[DayFor(a) := since]))
  {
    var n := m.(db := m.db.(rows := m.db.rows[a.id := RowFor(a)]), between := m.between[DayFor(a) := since]);
    forall d ensures DayTotal(n, d) <= DayTotal(m, d) + (if d == DayFor(a) then a.max else 0)
             ensures Recorded(n.db, d) == Recorded(m.db, d) {
      InsertMoves(m.db, a.id, RowFor(a), d, m.clock);
    }
    forall d ensures Capped(n, d) { assert Capped(m, d); }
    forall o | o in n.callers ensures ReadsHold(n, n.callers[o]) { assert ReadsHold(m, m.callers[o]); }
  }

  lemma InvFinish(m: Machine, c: nat)
    requires Inv(m)
    ensures Inv(FinishStep(m, c))
  {
    var pc := PcOf(m, c);
    if pc.HaveBoth? {
      InvCaller(m, c, Idle);
      if !(pc.committed + pc.outstanding + pc.a.max > m.limit || pc.a.id in m.db.rows) {
        assert ReadsHold(m, pc);
        InvInsert(m.(callers := m.callers[c := Idle]), pc.a, pc.since);
      }
    }
  }

  lemma SettleEffect(m: Machine, id: Id, actual: int, now: Time, d: nat)
    requires now <= m.clock && id in m.db.rows && Settleable(m.db.rows[id]) && m.db.rows[id].max >= 0
    ensures var n, hit := SettleStep(m, id, actual, now), d == DayOf(now);
            && SpendOn(n.db, d) == SpendOn(m.db, d) + (if hit then actual else 0)
            && Recorded(n.db, d) == Recorded(m.db, d) + (if hit then Max(0, actual) else 0)
            && DayTotal(n, d) <= DayTotal(m, d) + (if hit then SlipOf(m, id, actual, now) else 0)
            && At(n.slip, d) == At(m.slip, d) + (if hit then SlipOf(m, id, actual, now) else 0)
            && At(n.below, d) == At(m.below, d) + (if hit then Min(0, actual) else 0)
            && At(n.between, d) == At(m.between, d)
  {
    SettleMoves(m.db, id, actual, now, d, m.clock);
  }

  lemma SettleKeepsReads(m: Machine, id: Id, actual: int, now: Time, pc: Pc)
    requires now <= m.clock && id in m.db.rows && Settleable(m.db.rows[id]) && m.db.rows[id].max >= 0
    requires ReadsHold(m, pc)
    ensures ReadsHold(SettleStep(m, id, actual, now), Waited(pc, DayOf(now), Punctual(m, id, actual, now)))
  {
    if HoldsLock(pc) {
      SettleEffect(m, id, actual, now, DayFor(pc.a));
    }
  }

  lemma InvSettle(m: Machine, id: Id, actual: int, now: Time)
    requires Inv(m)
    ensures Inv(SettleStep(m, id, actual, now))
  {
    if now <= m.clock && id in m.db.rows && Settleable(m.db.rows[id]) {
      var n := SettleStep(m, id, actual, now);
      forall d ensures Capped(n, d) && At(n.between, d) >= 0 && At(n.slip, d) >= 0 && At(n.below, d) <= 0
                       && SpendOn(n.db, d) == Recorded(n.db, d) + At(n.below, d) {
        assert Capped(m, d);
        SettleEffect(m, id, actual, now, d);
      }
      forall c | c in n.callers ensures ReadsHold(n, n.callers[c]) {
        SettleKeepsReads(m, id, actual, now, m.callers[c]);
      }
    }
  }

  lemma InvRelease(m: Machine, id: Id)
    requires Inv(m)
    ensures Inv(Step(m, Release(id)))
  {
    var n := Step(m, Release(id));
    forall d ensures DayTotal(n, d) <= DayTotal(m, d) && Recorded(n.db, d) == Recorded(m.db, d) {
      ReleaseMoves(m.db, id, d, m.clock);
    }
    forall d ensures Capped(n, d) { assert Capped(m, d); }
    forall c | c in n.callers ensures ReadsHold(n, n.callers[c]) { assert ReadsHold(m, m.callers[c]); }
  }

  lemma InvSweep(m: Machine, now: Time)
    requires Inv(m)
    ensures Inv(Step(m, Sweep(now)))
  {
    if now <= m.clock {
      var n := Step(m, Sweep(now));
      forall d ensures DayTotal(n, d) == DayTotal(m, d) && Recorded(n.db, d) == Recorded(m.db, d) {
        SweepKeepsLive(m.db, d, now, m.clock);
      }
      forall d ensures Capped(n, d) { assert Capped(m, d); }
      forall c | c in n.callers ensures ReadsHold(n, n.callers[c]) { assert ReadsHold(m, m.callers[c]); }
    }
  }

  lemma InvStep(m: Machine, action: Action)
    requires Inv(m)
    ensures Inv(Step(m, action))
  {
    match action
    case Tick(to) => if to >= m.clock { InvTick(m, to); }
    case Begin(c, a) => if PcOf(m, c) == Idle && a.now <= m.clock { InvCaller(m, c, Waiting(a)); }
    case Lock(c) =>
      if Step(m, action) != m { InvCaller(m, c, Locked(PcOf(m, c).a)); }
    case ReadCommitted(c) =>
      if PcOf(m, c).Locked? {
        var a := PcOf(m, c).a;
        InvCaller(m, c, HaveCommitted(a, SpendOn(m.db, DayFor(a)), 0));
      }
    case ReadOutstanding(c) => InvReadOutstanding(m, c);
    case Finish(c) => InvFinish(m, c);
    case Abort(c) => if c in m.callers { InvCaller(m, c, Idle); }
    case Settle(id, actual, now) => InvSettle(m, id, actual, now);
    case Release(id) => InvRelease(m, id);
    case Sweep(now) => InvSweep(m, now);
  }

  lemma InvInit(limit: int)
    ensures Inv(Init(limit))
  {}

  lemma {:induction false} InvRun(m: Machine, actions: seq<Action>)
    requires Inv(m)
    ensures Inv(Run(m, actions))
  {
    if actions != [] {
      InvRun(m, actions[..|actions| - 1]);
      InvStep(Run(m, actions[..|actions| - 1]), actions[|actions| - 1]);
    }
  }

  // ---- The cap -----------------------------------------------------------------

  /** For every interleaving of any number of callers, whatever is settled and whenever:
      a day's spend plus its live reservations passes the limit by no more than what was
      settled between the two reads of the last reserve admitted on that day, plus the
      excess of late and over-maximum settlements. */
  lemma CapUnderInterleaving(limit: int, actions: seq<Action>, day: nat)
    ensures var m := Run(Init(limit), actions);
            DayTotal(m, day) <= Max(0, limit) + At(m.between, day) + At(m.slip, day)
  {
    InvInit(limit);
    InvRun(Init(limit), actions);
    LimitFixed(Init(limit), actions);
    assert Capped(Run(Init(limit), actions), day);
  }

  lemma {:induction false} LimitFixed(m: Machine, actions: seq<Action>)
    ensures Run(m, actions).limit == m.limit
  {
    if actions != [] {
      LimitFixed(m, actions[..|actions| - 1]);
    }
  }

  /** Does this action settle, if at all, on time and within the reserved maximum? */
  predicate Prompt(m: Machine, action: Action)
  {
    action.Settle? && action.id in m.db.rows && Settleable(m.db.rows[action.id]) && action.now <= m.clock ==>
      OnTime(m, action.id, action.now) && action.actual <= m.db.rows[action.id].max
  }

  ghost predicate AllPrompt(m: Machine, actions: seq<Action>)
  {
    forall i :: 0 <= i < |actions| ==> Prompt(Run(m, actions[..i]), actions[i])
  }

  lemma {:induction false} PromptMeansNoSlip(limit: int, actions: seq<Action>, day: nat)
    requires AllPrompt(Init(limit), actions)
    ensures At(Run(Init(limit), actions).slip, day) == 0
  {
    if actions != [] {
      var before, last := actions[..|actions| - 1], actions[|actions| - 1];
      assert forall i :: 0 <= i < |before| ==> before[..i] == actions[..i];
      PromptMeansNoSlip(limit, before, day);
      InvInit(limit);
      InvRun(Init(limit), before);
      PromptStep(Run(Init(limit), before), last, day);
    }
  }

  lemma PromptStep(m: Machine, action: Action, day: nat)
    requires Inv(m) && Prompt(m, action)
    ensures At(Step(m, action).slip, day) == At(m.slip, day)
  {}

  /** When every settlement is on time and within its maximum, only the settlements that
      fell between the two reads of the last admitted reserve can push a day past the limit. */
  lemma CapWhenPrompt(limit: int, actions: seq<Action>, day: nat)
    requires AllPrompt(Init(limit), actions)
    ensures var m := Run(Init(limit), actions);
            DayTotal(m, day) <= Max(0, limit) + At(m.between, day)
  {
    CapUnderInterleaving(limit, actions, day);
    PromptMeansNoSlip(limit, actions, day);
  }

  // ---- Exactly once ------------------------------------------------------------

  /** A day's recorded spend is the sum of the costs on the rows settled that day, each
      row once, under any number of retries and duplicate collectors; it falls short by
      exactly the negative amounts callers passed, which the row clamps and the day does not. */
  lemma SpendIsWhatWasSettled(limit: int, actions: seq<Action>, day: nat)
    ensures var m := Run(Init(limit), actions);
            && SpendOn(m.db, day) == Recorded(m.db, day) + At(m.below, day) && At(m.below, day) <= 0
            && (SpendOn(m.db, day) == Recorded(m.db, day) <==> At(m.below, day) == 0)
  {
    InvInit(limit);
    InvRun(Init(limit), actions);
  }

  lemma {:induction false} NonNegativeMeansExact(limit: int, actions: seq<Action>, day: nat)
    requires forall i :: 0 <= i < |actions| && actions[i].Settle? ==> actions[i].actual >= 0
    ensures SpendOn(Run(Init(limit), actions).db, day) == Recorded(Run(Init(limit), actions).db, day)
  {
    NothingBelow(limit, actions, day);
    SpendIsWhatWasSettled(limit, actions, day);
  }

  lemma {:induction false} NothingBelow(limit: int, actions: seq<Action>, day: nat)
    requires forall i :: 0 <= i < |actions| && actions[i].Settle? ==> actions[i].actual >= 0
    ensures At(Run(Init(limit), actions).below, day) == 0
  {
    if actions != [] {
      NothingBelow(limit, actions[..|actions| - 1], day);
    }
  }

  /** Settled and released are final: whatever happens next, the row keeps its state, its
      cost and the day it was booked on. */
  lemma {:induction false} TerminalStatesAreFinal(m: Machine, id: Id, later: seq<Action>)
    requires id in m.db.rows && Terminal(m.db.rows[id])
    ensures id in Run(m, later).db.rows && Run(m, later).db.rows[id] == m.db.rows[id]
  {
    if later != [] {
      TerminalStatesAreFinal(m, id, later[..|later| - 1]);
      TerminalStep(Run(m, later[..|later| - 1]), id, later[|later| - 1]);
    }
  }

  lemma TerminalStep(m: Machine, id: Id, action: Action)
    requires id in m.db.rows && Terminal(m.db.rows[id])
    ensures id in Step(m, action).db.rows && Step(m, action).db.rows[id] == m.db.rows[id]
  {}
}
