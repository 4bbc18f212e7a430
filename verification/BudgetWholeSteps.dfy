/** The reservation protocol with each operation run as one step (src/providerBudget.ts
    375-582), where the limit is a true cap, and the run between those steps in which it is
    passed by exactly what the two reads of a reserve miss. */
module BudgetWholeSteps {
  import opened Pricing
  import opened Sums
  import opened Tables
  import opened ProviderBudget
  import opened BudgetProtocol

  // ---- Reserve as one step -----------------------------------------------------

  /** An operation that runs without interruption. */
  datatype Op =
    | Reserve(a: Attempt)
    | Other(action: Action)

  predicate Whole(op: Op)
  {
    op.Other? ==> op.action.Tick? || op.action.Settle? || op.action.Release? || op.action.Sweep?
  }

  function Expand(op: Op): seq<Action>
  {
    match op
    case Reserve(a) => [Begin(0, a), Lock(0), ReadCommitted(0), ReadOutstanding(0), Finish(0)]
    case Other(action) => [action]
  }

  function ExpandAll(ops: seq<Op>): seq<Action>
  {
    if ops == [] then [] else ExpandAll(ops[..|ops| - 1]) + Expand(ops[|ops| - 1])
  }

  ghost predicate Quiet(m: Machine)
  {
    && (forall c :: c in m.callers ==> m.callers[c] == Idle)
    && (forall day :: At(m.between, day) == 0)
  }

  lemma {:induction false} RunConcat(m: Machine, s: seq<Action>, t: seq<Action>)
    ensures Run(m, s + t) == Run(Run(m, s), t)
  {
    if t == [] {
      assert s + t == s;
    } else {
      RunConcat(m, s, t[..|t| - 1]);
      assert (s + t)[..|s + t| - 1] == s + t[..|t| - 1];
    }
  }

  lemma RunFive(m: Machine, a: Action, b: Action, c: Action, d: Action, e: Action)
    ensures Run(m, [a, b, c, d, e]) == Step(Step(Step(Step(Step(m, a), b), c), d), e)
  {
    assert [a, b, c, d, e][..4] == [a, b, c, d] && [a, b, c, d][..3] == [a, b, c];
    assert [a, b, c][..2] == [a, b] && [a, b][..1] == [a] && [a][..0] == [];
    assert Run(m, [a]) == Step(m, a);
    assert Run(m, [a, b]) == Step(Step(m, a), b);
    assert Run(m, [a, b, c]) == Step(Step(Step(m, a), b), c);
    assert Run(m, [a, b, c, d]) == Step(Step(Step(Step(m, a), b), c), d);
  }

  lemma StepBegin(m: Machine, c: nat, a: Attempt)
    requires PcOf(m, c) == Idle && a.now <= m.clock
    ensures Step(m, Begin(c, a)) == m.(callers := m.callers[c := Waiting(a)])
  {}

  lemma StepLock(m: Machine, c: nat, a: Attempt)
    requires PcOf(m, c) == Waiting(a)
    requires forall o :: o in m.callers && o != c ==> !HoldsLock(m.callers[o])
    ensures Step(m, Lock(c)) == m.(callers := m.callers[c := Locked(a)])
  {}

  lemma StepReadCommitted(m: Machine, c: nat, a: Attempt)
    requires PcOf(m, c) == Locked(a)
    ensures Step(m, ReadCommitted(c)) == m.(callers := m.callers[c := HaveCommitted(a, SpendOn(m.db, DayFor(a)), 0)])
  {}

  lemma StepReadOutstanding(m: Machine, c: nat, a: Attempt, committed: int, since: nat)
    requires PcOf(m, c) == HaveCommitted(a, committed, since)
    ensures Step(m, ReadOutstanding(c))
            == m.(callers := m.callers[c := HaveBoth(a, committed, since, Live(m.db, DayFor(a), a.now))])
  {}

  /** A caller alone reaches its first read, and with two reads in a row its decision. */
  lemma ReadsAlone(m: Machine, a: Attempt)
    requires (forall c :: c in m.callers ==> m.callers[c] == Idle) && a.now <= m.clock
    ensures Step(Step(Step(m, Begin(0, a)), Lock(0)), ReadCommitted(0))
            == m.(callers := m.callers[0 := HaveCommitted(a, SpendOn(m.db, DayFor(a)), 0)])
  {
    StepBegin(m, 0, a);
    var m1 := m.(callers := m.callers[0 := Waiting(a)]);
    StepLock(m1, 0, a);
    var m2 := m.(callers := m.callers[0 := Locked(a)]);
    assert m1.callers[0 := Locked(a)] == m2.callers;
    StepReadCommitted(m2, 0, a);
    assert m2.callers[0 := HaveCommitted(a, SpendOn(m.db, DayFor(a)), 0)]
           == m.callers[0 := HaveCommitted(a, SpendOn(m.db, DayFor(a)), 0)];
  }

  lemma ReserveAlone(m: Machine, a: Attempt)
    requires (forall c :: c in m.callers ==> m.callers[c] == Idle) && a.now <= m.clock
    ensures Run(m, Expand(Reserve(a)))
            == FinishStep(m.(callers := m.callers[0 := HaveBoth(a, SpendOn(m.db, DayFor(a)), 0, Live(m.db, DayFor(a), a.now))]), 0)
  {
    RunFive(m, Begin(0, a), Lock(0), ReadCommitted(0), ReadOutstanding(0), Finish(0));
    ReadsAlone(m, a);
    var m3 := m.(callers := m.callers[0 := HaveCommitted(a, SpendOn(m.db, DayFor(a)), 0)]);
    StepReadOutstanding(m3, 0, a, SpendOn(m.db, DayFor(a)), 0);
    var pc := HaveBoth(a, SpendOn(m.db, DayFor(a)), 0, Live(m.db, DayFor(a), a.now));
    assert m3.callers[0 := pc] == m.callers[0 := pc];
    StepFinish(m.(callers := m.callers[0 := pc]));
  }

  lemma StepFinish(m: Machine)
    ensures Step(m, Finish(0)) == FinishStep(m, 0)
  {}

  /** Uninterrupted, the five statements are exactly `Reservations.Reserve` against the
      day's ceiling: the row is inserted iff it fits, and otherwise nothing changes. */
  lemma UninterruptedReserve(m: Machine, a: Attempt)
    requires Quiet(m) && a.now <= m.clock && a.id !in m.db.rows
    ensures var n := Run(m, Expand(Reserve(a)));
            var fits := SpendOn(m.db, DayFor(a)) + Live(m.db, DayFor(a), a.now) + a.max <= m.limit;
            && Quiet(n)
            && n == m.(callers := m.callers[0 := Idle],
                       db := if fits then m.db.(rows := m.db.rows[a.id := RowFor(a)]) else m.db,
                       between := if fits then m.between[DayFor(a) := 0] else m.between)
  {
    ReserveAlone(m, a);
    var pc := HaveBoth(a, SpendOn(m.db, DayFor(a)), 0, Live(m.db, DayFor(a), a.now));
    assert m.callers[0 := pc][0 := Idle] == m.callers[0 := Idle];
    forall day ensures At(Run(m, Expand(Reserve(a))).between, day) == 0 { assert At(m.between, day) == 0; }
  }

  /** An attempt that cannot start, or that repeats an id, leaves no trace. */
  lemma FailedReserve(m: Machine, a: Attempt)
    requires Quiet(m) && (a.now > m.clock || a.id in m.db.rows)
    ensures Quiet(Run(m, Expand(Reserve(a))))
  {
    if a.now > m.clock {
      RunFive(m, Begin(0, a), Lock(0), ReadCommitted(0), ReadOutstanding(0), Finish(0));
      assert Step(m, Begin(0, a)) == m;
      IdleActions(m);
    } else {
      ReserveAlone(m, a);
      var pc := HaveBoth(a, SpendOn(m.db, DayFor(a)), 0, Live(m.db, DayFor(a), a.now));
      assert m.callers[0 := pc][0 := Idle] == m.callers[0 := Idle];
    }
  }

  lemma IdleActions(m: Machine)
    requires PcOf(m, 0) == Idle
    ensures Step(m, Lock(0)) == m && Step(m, ReadCommitted(0)) == m
    ensures Step(m, ReadOutstanding(0)) == m && Step(m, Finish(0)) == m
  {}

  lemma OtherStaysQuiet(m: Machine, action: Action)
    requires Quiet(m) && Whole(Other(action))
    ensures Quiet(Step(m, action))
  {}

  lemma {:induction false} WholeOpsStayQuiet(limit: int, ops: seq<Op>)
    requires forall i :: 0 <= i < |ops| ==> Whole(ops[i])
    ensures Quiet(Run(Init(limit), ExpandAll(ops)))
  {
    if ops != [] {
      var before, last := ops[..|ops| - 1], ops[|ops| - 1];
      WholeOpsStayQuiet(limit, before);
      var m := Run(Init(limit), ExpandAll(before));
      RunConcat(Init(limit), ExpandAll(before), Expand(last));
      match last
      case Reserve(a) =>
        if a.now <= m.clock && a.id !in m.db.rows { UninterruptedReserve(m, a); } else { FailedReserve(m, a); }
      case Other(action) =>
        assert [action][..0] == [];
        OtherStaysQuiet(m, action);
    }
  }

  /** With each operation one step: spend plus live reservations never passes the limit by
      more than the excess of late and over-maximum settlements... */
  lemma CapWhenWhole(limit: int, ops: seq<Op>, day: nat)
    requires forall i :: 0 <= i < |ops| ==> Whole(ops[i])
    ensures var m := Run(Init(limit), ExpandAll(ops));
            DayTotal(m, day) <= Max(0, limit) + At(m.slip, day)
  {
    CapUnderInterleaving(limit, ExpandAll(ops), day);
    WholeOpsStayQuiet(limit, ops);
  }

  /** ...so with prompt settlements the limit is a true cap. */
  lemma TrueCap(limit: int, ops: seq<Op>, day: nat)
    requires forall i :: 0 <= i < |ops| ==> Whole(ops[i])
    requires AllPrompt(Init(limit), ExpandAll(ops))
    ensures DayTotal(Run(Init(limit), ExpandAll(ops)), day) <= Max(0, limit)
  {
    CapWhenWhole(limit, ops, day);
    PromptMeansNoSlip(limit, ExpandAll(ops), day);
  }

  lemma PromptConcat(m: Machine, s: seq<Action>, t: seq<Action>)
    requires AllPrompt(m, s) && AllPrompt(Run(m, s), t)
    ensures AllPrompt(m, s + t)
  {
    forall i | 0 <= i < |s + t| ensures Prompt(Run(m, (s + t)[..i]), (s + t)[i]) {
      if i < |s| {
        assert (s + t)[..i] == s[..i];
      } else {
        assert (s + t)[..i] == s + t[..i - |s|];
        RunConcat(m, s, t[..i - |s|]);
      }
    }
  }

  /** The two reads are not one: a settlement landing between them is counted by neither. The
      bound cannot be improved: for every limit and every amount within it, some prompt run
      ends above the limit by exactly what was settled between the two reads. */
  lemma ReadsCanMissASettlement(limit: nat, missed: nat)
    requires missed <= limit
    ensures exists actions ::
      AllPrompt(Init(limit), actions) && At(Run(Init(limit), actions).between, 0) == missed
      && DayTotal(Run(Init(limit), actions), 0) == limit + missed
  {
    var a, b := Attempt(1, missed, 0, 1000), Attempt(2, limit, 0, 1000);
    var first, m1 := MissedSetup(limit, a);
    var before, m2 := MissedMiddle(m1, b);
    var after := MissedEnd(m2, a, b);
    RunConcat(Init(limit), first, before);
    RunConcat(Init(limit), first + before, after);
    PromptConcat(Init(limit), first, before);
    PromptConcat(Init(limit), first + before, after);
    assert DayTotal(Run(Init(limit), first + before + after), 0) == limit + missed;
  }

  lemma RunThree(m: Machine, a: Action, b: Action, c: Action)
    ensures Run(m, [a, b, c]) == Step(Step(Step(m, a), b), c)
  {
    assert [a, b, c][..2] == [a, b] && [a, b][..1] == [a] && [a][..0] == [];
    assert Run(m, [a]) == Step(m, a);
    assert Run(m, [a, b]) == Step(Step(m, a), b);
  }

  /** A reservation of what will be missed. */
  lemma MissedSetup(limit: nat, a: Attempt) returns (first: seq<Action>, m: Machine)
    requires a == Attempt(1, a.max, 0, 1000) && a.max <= limit
    ensures m == Run(Init(limit), first) && AllPrompt(Init(limit), first)
    ensures m.clock == 0 && m.limit == limit && m.callers == map[0 := Idle] && m.slip == map[]
    ensures m.db == Db(map[1 := RowFor(a)], map[])
  {
    first := Expand(Reserve(a));
    UninterruptedReserve(Init(limit), a);
    m := Run(Init(limit), first);
  }

  /** A second caller locks the day and reads that nothing has been spent. */
  lemma MissedMiddle(m1: Machine, b: Attempt) returns (before: seq<Action>, m: Machine)
    requires b == Attempt(2, b.max, 0, 1000) && m1.callers == map[0 := Idle] && m1.db.spend == map[]
    ensures m == Run(m1, before) && AllPrompt(m1, before)
    ensures m == m1.(callers := map[0 := HaveCommitted(b, 0, 0)])
  {
    before := [Begin(0, b), Lock(0), ReadCommitted(0)];
    RunThree(m1, before[0], before[1], before[2]);
    ReadsAlone(m1, b);
    m := m1.(callers := map[0 := HaveCommitted(b, 0, 0)]);
  }

  /** The first reservation settles at its maximum; the second caller then sees nothing
      outstanding and is admitted for the whole limit. */
  lemma MissedEnd(m: Machine, a: Attempt, b: Attempt) returns (after: seq<Action>)
    requires a == Attempt(1, a.max, 0, 1000) && m.limit >= 0 && b == Attempt(2, m.limit, 0, 1000)
    requires m.clock == 0 && m.db == Db(map[1 := RowFor(a)], map[])
    requires m.callers == map[0 := HaveCommitted(b, 0, 0)]
    ensures AllPrompt(m, after) && At(Run(m, after).between, 0) == a.max && DayTotal(Run(m, after), 0) == m.limit + a.max
  {
    after := [Settle(1, a.max, 0), ReadOutstanding(0), Finish(0)];
    assert AllPrompt(m, after) by {
      assert after[..0] == [];
    }
    RunThree(m, after[0], after[1], after[2]);
    var settled := Db(map[1 := RowFor(a).(state := Settled(a.max, 0))], map[0 := a.max]);
    var m3 := MissedSettle(m, a, b);
    StepReadOutstanding(m3, 0, b, 0, a.max);
    var m4 := m3.(callers := m3.callers[0 := HaveBoth(b, 0, a.max, 0)]);
    StepFinish(m4);
    InsertMoves(settled, 2, RowFor(b), 0, 0);
  }

  lemma MissedSettle(m: Machine, a: Attempt, b: Attempt) returns (n: Machine)
    requires a == Attempt(1, a.max, 0, 1000)
    requires m.clock == 0 && m.db == Db(map[1 := RowFor(a)], map[])
    requires m.callers == map[0 := HaveCommitted(b, 0, 0)] && DayFor(b) == 0
    ensures n == Step(m, Settle(1, a.max, 0)) && n.clock == 0 && n.limit == m.limit
    ensures n.db == Db(map[1 := RowFor(a).(state := Settled(a.max, 0))], map[0 := a.max])
    ensures n.callers == map[0 := HaveCommitted(b, 0, a.max)]
    ensures Live(n.db, 0, 0) == 0
  {
    n := SettleStep(m, 1, a.max, 0);
    StepSettle(m, 1, a.max, 0);
    assert Punctual(m, 1, a.max, 0) == a.max;
    TotalZero(n.db.rows, LiveOn(0, 0));
  }

  lemma StepSettle(m: Machine, id: Id, actual: int, now: Time)
    ensures Step(m, Settle(id, actual, now)) == SettleStep(m, id, actual, now)
  {}
}
