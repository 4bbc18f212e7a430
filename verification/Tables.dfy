/** Row types shared by the money path: grants, consumptions and usage events
    (src/ledger.ts, src/usage.ts). Ids are numbers; times are milliseconds since the epoch. */
module Tables {
  import opened Pricing

  type Id = nat
  type Time = nat

  const MS_PER_DAY: nat := 86_400_000

  /** The UTC day of an instant. */
  function DayOf(t: Time): nat { t / MS_PER_DAY }

  datatype GrantKind = PlanAllotment | PackPurchase | Goodwill

  datatype Consumption = Consumption(grant: Id, amount: int)

  datatype UsageStatus = Charged | CacheHit | FailedNoCharge | BlockedNoCharge

  datatype UsageEvent = UsageEvent(
    org: Id, key: Option<Id>, status: UsageStatus, cost: int, credits: int, createdAt: Time)
}
