/** Provider-dollar reservations (src/providerBudget.ts 267-582, src/breaker.ts 22-32).
    The two tables are a value, `Db`, with one function per statement that changes it;
    `Reservations` is the object that runs those statements. */
module ProviderBudget {
  import opened Pricing
  import opened Sums
  import opened Tables
  import opened Usage

  /** `state` and, for a settled row only, its cost and time: the schema's CHECK. */
  datatype State = Reserved | Settled(actual: int, at: Time) | Released | Expired

  datatype Reservation = Reservation(
    org: Id, key: Option<Id>, max: int, state: State, day: nat, month: nat, expiresAt: Time)

  datatype Db = Db(rows: map<Id, Reservation>, spend: map<nat, int>)

  function SpendOn(db: Db, day: nat): int
  {
    if day in db.spend then db.spend[day] else 0
  }

  /** What a row holds of a day's capacity at an instant. */
  function LiveOn(day: nat, now: Time): Reservation -> int
  {
    (r: Reservation) => if r.state == Reserved && r.day == day && r.expiresAt > now then r.max else 0
  }

  function LiveForOrg(org: Id, month: nat, now: Time): Reservation -> int
  {
    (r: Reservation) =>
      if r.state == Reserved && r.org == org && r.month == month && r.expiresAt > now then r.max else 0
  }

  function LiveForKey(key: Id, month: nat, now: Time): Reservation -> int
  {
    (r: Reservation) =>
      if r.state == Reserved && r.key == Some(key) && r.month == month && r.expiresAt > now then r.max else 0
  }

  ghost function Live(db: Db, day: nat, now: Time): int
  {
    Total(db.rows, LiveOn(day, now))
  }

  /** What a row contributed to the recorded spend of a day. */
  function SettledOn(day: nat): Reservation -> int
  {
    (r: Reservation) => if r.state.Settled? && DayOf(r.state.at) == day then r.state.actual else 0
  }

  ghost function Recorded(db: Db, day: nat): int
  {
    Total(db.rows, SettledOn(day))
  }

  // ---- The statements ---------------------------------------------------------

  predicate Settleable(r: Reservation) { r.state == Reserved || r.state == Expired }

  predicate Terminal(r: Reservation) { r.state.Settled? || r.state == Released }

  function AddSpend(db: Db, amount: int, now: Time): Db
  {
    db.(spend := db.spend[DayOf(now) := SpendOn(db, DayOf(now)) + amount])
  }

  function SettleRow(db: Db, id: Id, actual: int, now: Time): Db
  {
    if id in db.rows && Settleable(db.rows[id]) then
      AddSpend(db.(rows := db.rows[id := db.rows[id].(state := Settled(Max(0, actual), now))]), actual, now)
    else db
  }

  function ReleaseRow(db: Db, id: Id): Db
  {
    if id in db.rows && db.rows[id].state == Reserved then
      db.(rows := db.rows[id := db.rows[id].(state := Released)])
    else db
  }

  function Swept(r: Reservation, now: Time): Reservation
  {
    if r.state == Reserved && r.expiresAt <= now then r.(state := Expired) else r
  }

  function SweepRows(db: Db, now: Time): Db
  {
    db.(rows := db.rows + map id | id in db.rows :: Swept(db.rows[id], now))
  }

  // ---- How each statement moves the two totals ---------------------------------

  lemma LiveShrinksWithTime(db: Db, day: nat, now: Time, later: Time)
    requires now <= later
    requires forall id :: id in db.rows ==> db.rows[id].max >= 0
    ensures Live(db, day, later) <= Live(db, day, now)
  {
    TotalLe(db.rows, LiveOn(day, later), db.rows, LiveOn(day, now));
  }

  lemma SweepKeepsLive(db: Db, day: nat, now: Time, clock: Time)
    requires now <= clock
    ensures Live(SweepRows(db, now), day, clock) == Live(db, day, clock)
    ensures Recorded(SweepRows(db, now), day) == Recorded(db, day)
  {
    TotalSame(SweepRows(db, now).rows, LiveOn(day, clock), db.rows, LiveOn(day, clock));
    TotalSame(SweepRows(db, now).rows, SettledOn(day), db.rows, SettledOn(day));
  }

  lemma ReleaseMoves(db: Db, id: Id, day: nat, now: Time)
    ensures Recorded(ReleaseRow(db, id), day) == Recorded(db, day)
    ensures id in db.rows && db.rows[id].max >= 0 ==> Live(ReleaseRow(db, id), day, now) <= Live(db, day, now)
    ensures id !in db.rows ==> ReleaseRow(db, id) == db
  {
    if id in db.rows {
      var r := db.rows[id].(state := Released);
      TotalUpdate(db.rows, LiveOn(day, now), id, r);
      TotalUpdate(db.rows, SettledOn(day), id, r);
    }
  }

  lemma SettleMoves(db: Db, id: Id, actual: int, at: Time, day: nat, now: Time)
    requires id in db.rows && Settleable(db.rows[id])
    ensures Live(SettleRow(db, id, actual, at), day, now) == Live(db, day, now) - LiveOn(day, now)(db.rows[id])
    ensures Recorded(SettleRow(db, id, actual, at), day)
            == Recorded(db, day) + (if DayOf(at) == day then Max(0, actual) else 0)
    ensures SpendOn(SettleRow(db, id, actual, at), day)
            == SpendOn(db, day) + (if DayOf(at) == day then actual else 0)
  {
    var r := db.rows[id].(state := Settled(Max(0, actual), at));
    TotalUpdate(db.rows, LiveOn(day, now), id, r);
    TotalUpdate(db.rows, SettledOn(day), id, r);
  }

  lemma InsertMoves(db: Db, id: Id, r: Reservation, day: nat, now: Time)
    requires id !in db.rows && r.state == Reserved
    ensures Live(db.(rows := db.rows[id := r]), day, now) == Live(db, day, now) + LiveOn(day, now)(r)
    ensures Recorded(db.(rows := db.rows[id := r]), day) == Recorded(db, day)
  {
    TotalUpdate(db.rows, LiveOn(day, now), id, r);
    TotalUpdate(db.rows, SettledOn(day), id, r);
  }

  // ---- The object --------------------------------------------------------------

  datatype Limits = Limits(globalDaily: int, orgMonthly: Option<int>, keyMonthly: Option<int>)

  datatype Scope = GlobalDay | OrgMonth | KeyMonth

  datatype ReserveOutcome =
    | Admitted(id: Id, max: int, expiresAt: Time)
    | NotPriced
    | DuplicateId
    | Exhausted(scope: Scope, limit: int, committed: int, outstanding: int, requested: int)

  datatype SettleOutcome =
    | SettleOk(actual: int, alreadySettled: bool)
    | UnknownReservation
    | NotReservable

  datatype Request = Request(
    id: Id, org: Id, key: Option<Id>, model: Model, batch: bool, limits: Limits, now: Time, ttl: nat)

  /** A month's metered cost, as `usage_events` shows it. */
  function OrgCost(org: Id, month: nat, monthOf: nat -> nat): Metered -> int
  {
    (r: Metered) => if r.event.org == org && monthOf(DayOf(r.event.createdAt)) == month then r.event.cost else 0
  }

  function KeyCost(key: Id, month: nat, monthOf: nat -> nat): Metered -> int
  {
    (r: Metered) => if r.event.key == Some(key) && monthOf(DayOf(r.event.createdAt)) == month then r.event.cost else 0
  }

  /** Committed and outstanding for one scope, as the two SELECTs of `check` read them. */
  ghost function ReadScope(db: Db, usage: map<Id, Metered>, monthOf: nat -> nat, req: Request, scope: Scope): (int, int)
  {
    var month := monthOf(DayOf(req.now));
    match scope
    case GlobalDay => (SpendOn(db, DayOf(req.now)), Live(db, DayOf(req.now), req.now))
    case OrgMonth => (Total(usage, OrgCost(req.org, month, monthOf)), Total(db.rows, LiveForOrg(req.org, month, req.now)))
    case KeyMonth =>
      if req.key.None? then (0, 0)
      else (Total(usage, KeyCost(req.key.value, month, monthOf)),
            Total(db.rows, LiveForKey(req.key.value, month, req.now)))
  }

  function LimitOf(req: Request, scope: Scope): Option<int>
  {
    match scope
    case GlobalDay => Some(req.limits.globalDaily)
    case OrgMonth => req.limits.orgMonthly
    case KeyMonth => if req.key.None? then None else req.limits.keyMonthly
  }

  /** A configured ceiling that this call would break. */
  ghost predicate Breaks(db: Db, usage: map<Id, Metered>, monthOf: nat -> nat, req: Request, scope: Scope, max: int)
  {
    var (committed, outstanding) := ReadScope(db, usage, monthOf, req, scope);
    LimitOf(req, scope).Some? && committed + outstanding + max > LimitOf(req, scope).value
  }

  /** Some configured ceiling has no room for this call. */
  ghost predicate Full(db: Db, usage: map<Id, Metered>, monthOf: nat -> nat, req: Request, max: int)
  {
    exists s: Scope :: Breaks(db, usage, monthOf, req, s, max)
  }

  // ---- The figures, column by column ---------------------------------------------
  // What each query has to return, written over the columns themselves, and the configured
  // number it is held against. `Reserve` is proved against these.

  datatype Figures = Figures(committed: int, outstanding: int)

  ghost function DayFigures(spend: map<nat, int>, rows: map<Id, Reservation>, now: Time): Figures
  {
    Figures(
      if now / MS_PER_DAY in spend then spend[now / MS_PER_DAY] else 0,
      Total(rows, (r: Reservation) =>
        if r.state == Reserved && r.day == now / MS_PER_DAY && r.expiresAt > now then r.max else 0))
  }

  ghost function OrgFigures(usage: map<Id, Metered>, rows: map<Id, Reservation>, monthOf: nat -> nat, org: Id, now: Time): Figures
  {
    var month := monthOf(now / MS_PER_DAY);
    Figures(
      Total(usage, (u: Metered) =>
        if u.event.org == org && monthOf(u.event.createdAt / MS_PER_DAY) == month then u.event.cost else 0),
      Total(rows, (r: Reservation) =>
        if r.state == Reserved && r.org == org && r.month == month && r.expiresAt > now then r.max else 0))
  }

  ghost function KeyFigures(usage: map<Id, Metered>, rows: map<Id, Reservation>, monthOf: nat -> nat, key: Id, now: Time): Figures
  {
    var month := monthOf(now / MS_PER_DAY);
    Figures(
      Total(usage, (u: Metered) =>
        if u.event.key == Some(key) && monthOf(u.event.createdAt / MS_PER_DAY) == month then u.event.cost else 0),
      Total(rows, (r: Reservation) =>
        if r.state == Reserved && r.key == Some(key) && r.month == month && r.expiresAt > now then r.max else 0))
  }

  /** `asked` more fits a ceiling; one that is not configured refuses nothing. */
  ghost predicate Room(f: Figures, asked: int, ceiling: Option<int>)
  {
    ceiling.Some? ==> f.committed + f.outstanding + asked <= ceiling.value
  }

  lemma ReadsAreTheFigures(db: Db, usage: map<Id, Metered>, monthOf: nat -> nat, req: Request)
    ensures ReadScope(db, usage, monthOf, req, GlobalDay)
            == (DayFigures(db.spend, db.rows, req.now).committed, DayFigures(db.spend, db.rows, req.now).outstanding)
    ensures ReadScope(db, usage, monthOf, req, OrgMonth)
            == (OrgFigures(usage, db.rows, monthOf, req.org, req.now).committed,
                OrgFigures(usage, db.rows, monthOf, req.org, req.now).outstanding)
    ensures req.key.Some? ==>
              ReadScope(db, usage, monthOf, req, KeyMonth)
              == (KeyFigures(usage, db.rows, monthOf, req.key.value, req.now).committed,
                  KeyFigures(usage, db.rows, monthOf, req.key.value, req.now).outstanding)
  {
    var day, now := req.now / MS_PER_DAY, req.now;
    var month := monthOf(day);
    TotalSame(db.rows, LiveOn(day, now), db.rows, (r: Reservation) =>
      if r.state == Reserved && r.day == now / MS_PER_DAY && r.expiresAt > now then r.max else 0);
    forall id | id in usage ensures DayOf(usage[id].event.createdAt) == usage[id].event.createdAt / MS_PER_DAY {}
    TotalSame(usage, OrgCost(req.org, month, monthOf), usage, (u: Metered) =>
      if u.event.org == req.org && monthOf(u.event.createdAt / MS_PER_DAY) == month then u.event.cost else 0);
    TotalSame(db.rows, LiveForOrg(req.org, month, now), db.rows, (r: Reservation) =>
      if r.state == Reserved && r.org == req.org && r.month == month && r.expiresAt > now then r.max else 0);
    if req.key.Some? {
      TotalSame(usage, KeyCost(req.key.value, month, monthOf), usage, (u: Metered) =>
        if u.event.key == Some(req.key.value) && monthOf(u.event.createdAt / MS_PER_DAY) == month then u.event.cost else 0);
      TotalSame(db.rows, LiveForKey(req.key.value, month, now), db.rows, (r: Reservation) =>
        if r.state == Reserved && r.key == Some(req.key.value) && r.month == month && r.expiresAt > now then r.max else 0);
    }
  }

  function NewRow(req: Request, max: int, monthOf: nat -> nat): Reservation
  {
    Reservation(req.org, req.key, max, Reserved, DayOf(req.now), monthOf(DayOf(req.now)), req.now + req.ttl)
  }

  /** A refusal names a ceiling that is really configured, with the figures read for it and
      no room left under them, and every ceiling before it in the order global, organization,
      key had room. */
  ghost predicate Named(spend: map<nat, int>, rows: map<Id, Reservation>, usage: map<Id, Metered>, monthOf: nat -> nat,
                        req: Request, out: ReserveOutcome)
    requires out.Exhausted?
  {
    var day := DayFigures(spend, rows, req.now);
    var org := OrgFigures(usage, rows, monthOf, req.org, req.now);
    var read := Figures(out.committed, out.outstanding);
    && out.committed + out.outstanding + out.requested > out.limit
    && match out.scope
       case GlobalDay => out.limit == req.limits.globalDaily && read == day
       case OrgMonth =>
         && req.limits.orgMonthly == Some(out.limit) && read == org
         && Room(day, out.requested, Some(req.limits.globalDaily))
       case KeyMonth =>
         && req.key.Some? && req.limits.keyMonthly == Some(out.limit)
         && read == KeyFigures(usage, rows, monthOf, req.key.value, req.now)
         && Room(day, out.requested, Some(req.limits.globalDaily))
         && Room(org, out.requested, req.limits.orgMonthly)
  }

  /** No configured ceiling is in the way exactly when every figure leaves room under the
      number configured for it: the day's, the organization's and, for a call made with a
      key, the key's. */
  lemma FullIsNoRoom(db: Db, usage: map<Id, Metered>, monthOf: nat -> nat, req: Request, max: int)
    ensures !Full(db, usage, monthOf, req, max) <==>
              && Room(DayFigures(db.spend, db.rows, req.now), max, Some(req.limits.globalDaily))
              && Room(OrgFigures(usage, db.rows, monthOf, req.org, req.now), max, req.limits.orgMonthly)
              && (req.key.Some? ==> Room(KeyFigures(usage, db.rows, monthOf, req.key.value, req.now), max, req.limits.keyMonthly))
    ensures Breaks(db, usage, monthOf, req, GlobalDay, max) <==>
              !Room(DayFigures(db.spend, db.rows, req.now), max, Some(req.limits.globalDaily))
    ensures Breaks(db, usage, monthOf, req, OrgMonth, max) <==>
              !Room(OrgFigures(usage, db.rows, monthOf, req.org, req.now), max, req.limits.orgMonthly)
    ensures Breaks(db, usage, monthOf, req, KeyMonth, max) <==>
              req.key.Some? && !Room(KeyFigures(usage, db.rows, monthOf, req.key.value, req.now), max, req.limits.keyMonthly)
  {
    ReadsAreTheFigures(db, usage, monthOf, req);
    assert Full(db, usage, monthOf, req, max) <==>
             || Breaks(db, usage, monthOf, req, GlobalDay, max)
             || Breaks(db, usage, monthOf, req, OrgMonth, max)
             || Breaks(db, usage, monthOf, req, KeyMonth, max);
  }

  /** The written row takes up what was asked for and no more, under each of its ceilings. */
  lemma WrittenRowFits(spend: map<nat, int>, rows: map<Id, Reservation>, usage: map<Id, Metered>, monthOf: nat -> nat,
                       req: Request, max: int)
    requires req.id !in rows && max >= 0
    ensures
      var after := rows[req.id := NewRow(req, max, monthOf)];
      && (forall c :: Room(DayFigures(spend, rows, req.now), max, c) ==> Room(DayFigures(spend, after, req.now), 0, c))
      && (forall c :: Room(OrgFigures(usage, rows, monthOf, req.org, req.now), max, c)
                      ==> Room(OrgFigures(usage, after, monthOf, req.org, req.now), 0, c))
      && (req.key.Some? ==>
            forall c :: Room(KeyFigures(usage, rows, monthOf, req.key.value, req.now), max, c)
                        ==> Room(KeyFigures(usage, after, monthOf, req.key.value, req.now), 0, c))
  {
    var row, now := NewRow(req, max, monthOf), req.now;
    var month := monthOf(now / MS_PER_DAY);
    TotalUpdate(rows, (r: Reservation) =>
      if r.state == Reserved && r.day == now / MS_PER_DAY && r.expiresAt > now then r.max else 0, req.id, row);
    TotalUpdate(rows, (r: Reservation) =>
      if r.state == Reserved && r.org == req.org && r.month == month && r.expiresAt > now then r.max else 0, req.id, row);
    if req.key.Some? {
      TotalUpdate(rows, (r: Reservation) =>
        if r.state == Reserved && r.key == Some(req.key.value) && r.month == month && r.expiresAt > now then r.max else 0,
        req.id, row);
    }
  }

  class Reservations {
    var rows: map<Id, Reservation>
    var spend: map<nat, int>
    /** The calendar: which month a UTC day falls in. */
    const monthOf: nat -> nat

    constructor (monthOf: nat -> nat)
      ensures this.View() == Db(map[], map[]) && this.monthOf == monthOf
    {
      rows, spend := map[], map[];
      this.monthOf := monthOf;
    }

    function View(): Db reads this { Db(rows, spend) }

    /** The two reads of one ceiling, and the comparison. */
    method Check(req: Request, usage: map<Id, Metered>, scope: Scope, max: int) returns (out: Option<ReserveOutcome>)
      ensures out.Some? <==> Breaks(View(), usage, monthOf, req, scope, max)
      ensures out.Some? ==>
                && out.value.Exhausted? && out.value.scope == scope && out.value.requested == max
                && LimitOf(req, scope) == Some(out.value.limit)
                && (out.value.committed, out.value.outstanding) == ReadScope(View(), usage, monthOf, req, scope)
    {
      var limit := LimitOf(req, scope);
      if limit.None? { return None; }
      var day, month := DayOf(req.now), monthOf(DayOf(req.now));
      var committed, outstanding;
      match scope {
        case GlobalDay =>
          committed := SpendOn(View(), day);
          outstanding := SumQuery(rows, LiveOn(day, req.now));
        case OrgMonth =>
          committed := SumQuery(usage, OrgCost(req.org, month, monthOf));
          outstanding := SumQuery(rows, LiveForOrg(req.org, month, req.now));
        case KeyMonth =>
          committed := SumQuery(usage, KeyCost(req.key.value, month, monthOf));
          outstanding := SumQuery(rows, LiveForKey(req.key.value, month, req.now));
      }
      out := if committed + outstanding + max > limit.value then Some(Exhausted(scope, limit.value, committed, outstanding, max)) else None;
    }

    /** The first ceiling, in the order global, organization, key, that would break. */
    method CheckCeilings(req: Request, usage: map<Id, Metered>, max: int) returns (out: Option<ReserveOutcome>)
      ensures out.Some? <==> Full(View(), usage, monthOf, req, max)
      ensures out.Some? ==> out.value.Exhausted? && Named(spend, rows, usage, monthOf, req, out.value)
      ensures out.Some? ==>
                && out.value.Exhausted? && out.value.requested == max
                && LimitOf(req, out.value.scope) == Some(out.value.limit)
                && (out.value.committed, out.value.outstanding) == ReadScope(View(), usage, monthOf, req, out.value.scope)
                && Breaks(View(), usage, monthOf, req, out.value.scope, max)
                && (out.value.scope != GlobalDay ==> !Breaks(View(), usage, monthOf, req, GlobalDay, max))
                && (out.value.scope == KeyMonth ==> !Breaks(View(), usage, monthOf, req, OrgMonth, max))
    {
      out := Check(req, usage, GlobalDay, max);
      if out.None? { out := Check(req, usage, OrgMonth, max); }
      if out.None? { out := Check(req, usage, KeyMonth, max); }
      FullIsNoRoom(View(), usage, monthOf, req, max);
      ReadsAreTheFigures(View(), usage, monthOf, req);
    }

    /** All scopes are checked and the row is written, or nothing changes. The refusal
        names the first ceiling, in the order global, organization, key, that would break. An
        id that is taken fails on the primary key and rolls the transaction back. */
    method Reserve(req: Request, usage: map<Id, Metered>) returns (out: ReserveOutcome)
      modifies this
      ensures out.NotPriced? <==> HardMaxCost(req.model, req.batch).None?
      ensures !out.Admitted? ==> View() == old(View())
      ensures out.DuplicateId? <==>
                && req.id in old(rows) && HardMaxCost(req.model, req.batch).Some?
                && !Full(old(View()), usage, monthOf, req, HardMaxCost(req.model, req.batch).value)
      ensures out.Exhausted? ==>
                && out.requested == HardMaxCost(req.model, req.batch).value
                && LimitOf(req, out.scope) == Some(out.limit)
                && (out.committed, out.outstanding) == ReadScope(old(View()), usage, monthOf, req, out.scope)
                && Breaks(old(View()), usage, monthOf, req, out.scope, out.requested)
                && (out.scope != GlobalDay ==> !Breaks(old(View()), usage, monthOf, req, GlobalDay, out.requested))
                && (out.scope == KeyMonth ==> !Breaks(old(View()), usage, monthOf, req, OrgMonth, out.requested))
      ensures out.Admitted? ==>
                && req.id !in old(rows) && out.id == req.id && out.max == HardMaxCost(req.model, req.batch).value
                && out.expiresAt == req.now + req.ttl
                && !Full(old(View()), usage, monthOf, req, out.max)
                && View() == old(View()).(rows := old(rows)[req.id := NewRow(req, out.max, monthOf)])
                && rows[req.id] == Reservation(req.org, req.key, out.max, Reserved, req.now / MS_PER_DAY,
                                               monthOf(req.now / MS_PER_DAY), req.now + req.ttl)
      ensures out.Admitted? <==>
                && HardMaxCost(req.model, req.batch).Some? && req.id !in old(rows)
                && var max := HardMaxCost(req.model, req.batch).value;
                && Room(old(DayFigures(spend, rows, req.now)), max, Some(req.limits.globalDaily))
                && Room(OrgFigures(usage, old(rows), monthOf, req.org, req.now), max, req.limits.orgMonthly)
                && (req.key.Some? ==> Room(KeyFigures(usage, old(rows), monthOf, req.key.value, req.now), max, req.limits.keyMonthly))
      ensures out.Admitted? ==>
                && Room(DayFigures(spend, rows, req.now), 0, Some(req.limits.globalDaily))
                && Room(OrgFigures(usage, rows, monthOf, req.org, req.now), 0, req.limits.orgMonthly)
                && (req.key.Some? ==> Room(KeyFigures(usage, rows, monthOf, req.key.value, req.now), 0, req.limits.keyMonthly))
      ensures out.Exhausted? ==> Named(spend, rows, usage, monthOf, req, out)
    {
      var price := HardMaxCost(req.model, req.batch);
      if price.None? { return NotPriced; }
      var refusal := CheckCeilings(req, usage, price.value);
      if refusal.Some? { return refusal.value; }
      FullIsNoRoom(View(), usage, monthOf, req, price.value);
      if req.id in rows { return DuplicateId; }
      MaximumIsNonNegative(req.model, req.batch);
      WrittenRowFits(spend, rows, usage, monthOf, req, price.value);
      rows := rows[req.id := NewRow(req, price.value, monthOf)];
      out := Admitted(req.id, price.value, req.now + req.ttl);
    }

    /** The first settlement of a live or expired reservation books its cost; every later
        one changes nothing and hands back the amount already booked. */
    method Settle(id: Id, actual: int, now: Time) returns (out: SettleOutcome)
      modifies this
      ensures View() == SettleRow(old(View()), id, actual, now)
      ensures out.UnknownReservation? <==> id !in old(rows)
      ensures out.NotReservable? <==> id in old(rows) && old(rows)[id].state == Released
      ensures out.SettleOk? ==>
                && out.alreadySettled == old(rows)[id].state.Settled?
                && out.actual == (if out.alreadySettled then old(rows)[id].state.actual else actual)
    {
      if id in rows && Settleable(rows[id]) {
        rows := rows[id := rows[id].(state := Settled(Max(0, actual), now))];
        spend := spend[DayOf(now) := SpendOn(View(), DayOf(now)) + actual];
        return SettleOk(actual, false);
      }
      if id !in rows {
        return UnknownReservation;
      }
      match rows[id].state
      case Settled(booked, _) => return SettleOk(booked, true);
      case _ => return NotReservable;
    }

    method Release(id: Id) returns (released: bool)
      modifies this`rows
      ensures View() == ReleaseRow(old(View()), id)
      ensures released <==> id in old(rows) && old(rows)[id].state == Reserved
    {
      released := id in rows && rows[id].state == Reserved;
      if released {
        rows := rows[id := rows[id].(state := Released)];
      }
    }

    method SweepExpired(now: Time) returns (swept: nat)
      modifies this`rows
      ensures View() == SweepRows(old(View()), now)
      ensures rows.Keys == old(rows).Keys
      ensures forall id :: id in old(rows) ==>
                rows[id] == if old(rows)[id].state == Reserved && old(rows)[id].expiresAt <= now
                            then old(rows)[id].(state := Expired) else old(rows)[id]
      ensures swept == |set id | id in old(rows) && old(rows)[id].state == Reserved && old(rows)[id].expiresAt <= now|
    {
      var due := set id | id in rows && rows[id].state == Reserved && rows[id].expiresAt <= now;
      rows := rows + map id | id in rows :: Swept(rows[id], now);
      swept := |due|;
    }
  }
}
