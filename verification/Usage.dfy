/** The usage meter and the split of a charge across the grants that paid for it
    (src/usage.ts 93-195). */
module Usage {
  import opened Pricing
  import opened Sums
  import opened Tables

  datatype Funding = Funding(grant: Id, kind: GrantKind, credits: int)

  datatype Attribution = Attribution(grant: Id, kind: GrantKind, credits: int, cost: int)

  function CreditsOf(funding: seq<Funding>): int
  {
    if funding == [] then 0 else CreditsOf(funding[..|funding| - 1]) + funding[|funding| - 1].credits
  }

  function CostOf(parts: seq<Attribution>): int
  {
    if parts == [] then 0 else CostOf(parts[..|parts| - 1]) + parts[|parts| - 1].cost
  }

  lemma CreditsAppend(funding: seq<Funding>, f: Funding)
    ensures CreditsOf(funding + [f]) == CreditsOf(funding) + f.credits
  {}

  lemma CostAppend(parts: seq<Attribution>, a: Attribution)
    ensures CostOf(parts + [a]) == CostOf(parts) + a.cost
  {}

  lemma {:induction false} CostUpdate(parts: seq<Attribution>, i: nat, a: Attribution)
    requires i < |parts|
    ensures CostOf(parts[i := a]) == CostOf(parts) + a.cost - parts[i].cost
  {
    var n := |parts| - 1;
    if i == n {
      assert parts[i := a][..n] == parts[..n];
    } else {
      CostUpdate(parts[..n], i, a);
      assert parts[i := a][..n] == parts[..n][i := a];
    }
  }

  /** One grant's proportional share, rounded down. */
  function Share(cost: int, f: Funding, total: int): int
    requires total > 0
  {
    (cost * f.credits) / total
  }

  predicate SameFunding(f: Funding, a: Attribution)
  {
    a.grant == f.grant && a.kind == f.kind && a.credits == f.credits
  }

  /** The first of the grants that supplied the most credits. */
  predicate FirstLargest(funding: seq<Funding>, i: int)
  {
    && 0 <= i < |funding|
    && (forall j :: 0 <= j < i ==> funding[j].credits < funding[i].credits)
    && (forall j :: i < j < |funding| ==> funding[j].credits <= funding[i].credits)
  }

  lemma FloorTimes(x: int, total: int)
    requires total > 0
    ensures x - total < (x / total) * total <= x
  {}

  lemma Distribute(a: int, b: int, c: int)
    ensures a * (b + c) == a * b + a * c
    ensures (b + c) * a == b * a + c * a
  {}

  /** Rounding every share down loses less than one microdollar per grant. */
  lemma {:induction false} FloorsFallShort(cost: int, funding: seq<Funding>, total: int, parts: seq<Attribution>)
    requires total > 0 && |parts| == |funding|
    requires forall i :: 0 <= i < |parts| ==> parts[i].cost == Share(cost, funding[i], total)
    ensures cost * CreditsOf(funding) - total * |parts| <= CostOf(parts) * total <= cost * CreditsOf(funding)
    ensures parts != [] ==> cost * CreditsOf(funding) - total * |parts| < CostOf(parts) * total
  {
    if parts != [] {
      var n := |parts| - 1;
      FloorsFallShort(cost, funding[..n], total, parts[..n]);
      var share, c := Share(cost, funding[n], total), funding[n].credits;
      FloorTimes(cost * c, total);
      Distribute(cost, CreditsOf(funding[..n]), c);
      Distribute(total, CostOf(parts[..n]), share);
      Distribute(total, n, 1);
    }
  }

  lemma RemainderBounds(cost: int, total: int, sum: int, n: nat)
    requires total > 0 && cost * total - total * n < sum * total <= cost * total
    ensures 0 <= cost - sum < n
  {}

  /** Splits a charge's cost across the grants that funded it. The parts always sum to
      exactly the cost; each is its share rounded down, except that the first largest
      grant also takes what the rounding left over, less than one microdollar per grant. */
  method AttributeCost(cost: int, funding: seq<Funding>) returns (parts: seq<Attribution>, largest: nat)
    ensures CreditsOf(funding) <= 0 ==> parts == []
    ensures CreditsOf(funding) > 0 ==>
              && |parts| == |funding| && CostOf(parts) == cost
              && FirstLargest(funding, largest)
              && (forall i :: 0 <= i < |parts| ==> SameFunding(funding[i], parts[i]))
              && (forall i :: 0 <= i < |parts| && i != largest ==>
                    parts[i].cost == Share(cost, funding[i], CreditsOf(funding)))
              && 0 <= parts[largest].cost - Share(cost, funding[largest], CreditsOf(funding)) < |funding|
  {
    parts, largest := [], 0;
    var total, i := 0, 0;
    while i < |funding|
      invariant 0 <= i <= |funding| && total == CreditsOf(funding[..i])
    {
      CreditsAppend(funding[..i], funding[i]);
      assert funding[..i + 1] == funding[..i] + [funding[i]];
      total, i := total + funding[i].credits, i + 1;
    }
    assert funding[..i] == funding;
    if total <= 0 {
      return;
    }
    var sum := 0;
    i := 0;
    while i < |funding|
      invariant 0 <= i <= |funding| && |parts| == i && sum == CostOf(parts)
      invariant forall j :: 0 <= j < i ==> SameFunding(funding[j], parts[j]) && parts[j].cost == Share(cost, funding[j], total)
    {
      var a := Attribution(funding[i].grant, funding[i].kind, funding[i].credits, Share(cost, funding[i], total));
      CostAppend(parts, a);
      parts, sum, i := parts + [a], sum + a.cost, i + 1;
    }
    FloorsFallShort(cost, funding, total, parts);
    RemainderBounds(cost, total, sum, |funding|);
    var remainder := cost - sum;
    i := 1;
    while i < |parts|
      invariant 1 <= i && largest < i && (i <= |parts| || |parts| == 0)
      invariant |parts| > 0 ==> FirstLargest(funding[..i], largest)
    {
      if parts[i].credits > parts[largest].credits {
        largest := i;
      }
      i := i + 1;
    }
    assert funding[..i] == funding;
    if remainder > 0 {
      var a := parts[largest].(cost := parts[largest].cost + remainder);
      CostUpdate(parts, largest, a);
      parts := parts[largest := a];
    }
  }

  /** No share of a non-negative charge is negative. */
  lemma SharesNonNegative(cost: int, f: Funding, total: int)
    requires cost >= 0 && f.credits >= 0 && total > 0
    ensures Share(cost, f, total) >= 0
  {
  }

  // ---- The meter ---------------------------------------------------------------

  /** A row of `usage_credit_sources`; its key (usage_event_id, grant_id) is where it sits. */
  datatype Source = Source(kind: GrantKind, credits: int, cost: int)

  /** A usage event together with the rows that say what funded it. */
  datatype Metered = Metered(event: UsageEvent, sources: map<Id, Source>)

  function SourceCost(s: Source): int { s.cost }

  /** `INSERT ... ON CONFLICT (usage_event_id, grant_id) DO NOTHING`, part by part. */
  function WithSources(sources: map<Id, Source>, parts: seq<Attribution>): map<Id, Source>
  {
    if parts == [] then sources
    else
      var a := parts[|parts| - 1];
      var before := WithSources(sources, parts[..|parts| - 1]);
      if a.grant in before then before else before[a.grant := Source(a.kind, a.credits, a.cost)]
  }

  predicate DistinctParts(parts: seq<Attribution>)
  {
    forall i, j :: 0 <= i < j < |parts| ==> parts[i].grant != parts[j].grant
  }

  /** The rows written are exactly one per part, with the part's cost. */
  lemma {:induction false} SourcesAreParts(parts: seq<Attribution>, g: Id)
    requires DistinctParts(parts)
    ensures g in WithSources(map[], parts) <==> exists i :: 0 <= i < |parts| && parts[i].grant == g
    ensures forall i :: 0 <= i < |parts| && parts[i].grant == g ==>
              g in WithSources(map[], parts)
              && WithSources(map[], parts)[g] == Source(parts[i].kind, parts[i].credits, parts[i].cost)
  {
    if parts != [] {
      var n := |parts| - 1;
      SourcesAreParts(parts[..n], g);
      if i :| 0 <= i < n && parts[i].grant == g {
        assert parts[..n][i].grant == g;
      } else {
        assert forall i :: 0 <= i < n ==> parts[..n][i].grant != g;
      }
    }
  }

  /** With one part per grant, no row is lost to the conflict clause and the rows carry the
      whole cost. */
  lemma {:induction false} SourcesCarryTheCost(parts: seq<Attribution>)
    requires DistinctParts(parts)
    ensures Total(WithSources(map[], parts), SourceCost) == CostOf(parts)
  {
    if parts != [] {
      var n := |parts| - 1;
      var a := parts[n];
      SourcesCarryTheCost(parts[..n]);
      SourcesAreParts(parts[..n], a.grant);
      TotalUpdate(WithSources(map[], parts[..n]), SourceCost, a.grant, Source(a.kind, a.credits, a.cost));
    }
  }

  /** Either nothing records what funded an event, or its funding adds up to its cost. */
  ghost predicate Exact(r: Metered)
  {
    && r.event.cost >= 0
    && (r.sources != map[] ==> Total(r.sources, SourceCost) == r.event.cost)
    && (forall g :: g in r.sources ==> r.sources[g].cost >= 0)
  }

  lemma AttributedIsExact(event: UsageEvent, parts: seq<Attribution>)
    requires event.cost >= 0 && DistinctParts(parts)
    requires parts != [] ==> CostOf(parts) == event.cost
    requires forall i :: 0 <= i < |parts| ==> parts[i].cost >= 0
    ensures Exact(Metered(event, WithSources(map[], parts)))
    ensures parts != [] ==> WithSources(map[], parts) != map[]
  {
    SourcesCarryTheCost(parts);
    forall g ensures g in WithSources(map[], parts) ==> WithSources(map[], parts)[g].cost >= 0 {
      SourcesAreParts(parts, g);
    }
    if parts != [] {
      SourcesAreParts(parts, parts[0].grant);
    }
  }

  class Meter {
    var rows: map<Id, Metered>
    var nextId: Id

    /** Ids come from an identity column. */
    ghost predicate Valid() reads this
    {
      forall id :: id in rows ==> id < nextId
    }

    constructor ()
      ensures Valid() && rows == map[]
    {
      rows, nextId := map[], 0;
    }

    method RecordUsage(event: UsageEvent) returns (id: Id)
      requires Valid()
      modifies this
      ensures Valid() && id !in old(rows)
      ensures rows == old(rows)[id := Metered(event, map[])]
    {
      id := nextId;
      rows := rows[id := Metered(event, map[])];
      nextId := nextId + 1;
    }

    /** Writes one row per part, skipping a grant the event already has a row for. */
    method RecordCostAttribution(id: Id, parts: seq<Attribution>)
      requires Valid() && id in rows
      modifies this`rows
      ensures Valid()
      ensures rows == old(rows)[id := old(rows)[id].(sources := WithSources(old(rows)[id].sources, parts))]
    {
      var i := 0;
      while i < |parts|
        invariant 0 <= i <= |parts|
        invariant id in rows
        invariant rows == old(rows)[id := old(rows)[id].(sources := WithSources(old(rows)[id].sources, parts[..i]))]
      {
        assert parts[..i + 1][..i] == parts[..i];
        var a, r := parts[i], rows[id];
        if a.grant !in r.sources {
          rows := rows[id := r.(sources := r.sources[a.grant := Source(a.kind, a.credits, a.cost)])];
        }
        i := i + 1;
      }
      assert parts[..i] == parts;
    }
  }
}
