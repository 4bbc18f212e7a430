/** Worst-case pricing of a hosted call and the credits derived from it
    (src/providerBudget.ts 27-253, src/usage.ts 11-73). Money is whole microdollars;
    intermediate products are exact reals, rounded half up as `Math.round` does. */
module Pricing {

  datatype Option<+T> = None | Some(value: T)

  datatype Model = Haiku45 | Sonnet5 | Opus48 | Unpriced

  datatype Price = Price(input: nat, output: nat)

  datatype TokenUsage = TokenUsage(input: nat, output: nat, cacheCreation: nat, cacheRead: nat)

  const MAX_OUTPUT_TOKENS: nat := 4096
  const MAX_USER_CONTENT_CHARS: nat := 12_000
  const MAX_SYSTEM_PROMPT_CHARS: nat := 4_000
  const CHARS_PER_TOKEN: nat := 3
  const MAX_CROPS: nat := 8
  const MAX_CROP_PIXELS: nat := 1_500_000
  const IMAGE_PIXELS_PER_TOKEN: nat := 750
  const MARGIN_FLOOR: real := 0.5
  const CREDIT_REVENUE_FLOOR: nat := 35_350

  function PriceOf(model: Model): Option<Price>
  {
    match model
    case Haiku45 => Some(Price(1, 5))
    case Sonnet5 => Some(Price(2, 10))
    case Opus48 => Some(Price(5, 25))
    case Unpriced => None
  }

  /** `Math.round`: halves go up. */
  function Round(x: real): int { (x + 0.5).Floor }

  /** `Math.ceil`. */
  function Ceil(x: real): int { -((-x).Floor) }

  function CeilDiv(a: nat, b: nat): nat
    requires b > 0
  {
    (a + b - 1) / b
  }

  function RawCost(p: Price, u: TokenUsage): real
  {
    (u.input * p.input) as real
    + (u.cacheCreation * p.input) as real * 1.25
    + (u.cacheRead * p.input) as real * 0.1
    + (u.output * p.output) as real
  }

  function ComputeCost(model: Model, u: TokenUsage, batch: bool): Option<int>
  {
    match PriceOf(model)
    case None => None
    case Some(p) => Some(Round(RawCost(p, u) * (if batch then 0.5 else 1.0)))
  }

  const SYSTEM_TOKENS: nat := CeilDiv(MAX_SYSTEM_PROMPT_CHARS, CHARS_PER_TOKEN)
  const USER_TOKENS: nat := CeilDiv(MAX_USER_CONTENT_CHARS, CHARS_PER_TOKEN)
  const IMAGE_TOKENS: nat := CeilDiv(MAX_CROP_PIXELS, IMAGE_PIXELS_PER_TOKEN)

  function WorstCase(): TokenUsage
  {
    TokenUsage(USER_TOKENS + IMAGE_TOKENS, MAX_OUTPUT_TOKENS, SYSTEM_TOKENS, 0)
  }

  function HardMaxCost(model: Model, batch: bool): Option<int>
  {
    ComputeCost(model, WorstCase(), batch)
  }

  function CreditsRequired(model: Model): Option<int>
  {
    match HardMaxCost(model, false)
    case None => None
    case Some(hardMax) =>
      var revenuePerCredit := CREDIT_REVENUE_FLOOR as real * (1.0 - MARGIN_FLOOR);
      var c := Ceil(hardMax as real / revenuePerCredit);
      Some(if c >= 1 then c else 1)
  }

  datatype Pass = Analysis | Deep

  function ModelFor(pass: Pass): Model
  {
    match pass
    case Analysis => Sonnet5
    case Deep => Opus48
  }

  datatype MarginRow = MarginRow(credits: int, hardMax: int, revenue: int, margin: real, clearsFloor: bool)

  /** One row of `marginReport`; an unpriced model would have thrown. */
  function MarginRowFor(pass: Pass): Option<MarginRow>
  {
    match (HardMaxCost(ModelFor(pass), false), CreditsRequired(ModelFor(pass)))
    case (Some(hardMax), Some(credits)) =>
      var revenue := credits * CREDIT_REVENUE_FLOOR;
      if revenue == 0 then None
      else
        Some(MarginRow(credits, hardMax, revenue, (revenue - hardMax) as real / revenue as real,
                       hardMax as real <= revenue as real * (1.0 - MARGIN_FLOOR)))
    case _ => None
  }

  // ---- What the caps promise --------------------------------------------------

  /** A call the request path can actually make: the prompt, user text and crops fit
      their caps, only the system block is written to the cache, and output obeys
      `max_tokens`. Cache reads may replace any of the input. */
  predicate WithinCaps(u: TokenUsage)
  {
    && u.input + u.cacheCreation + u.cacheRead <= SYSTEM_TOKENS + USER_TOKENS + IMAGE_TOKENS
    && u.cacheCreation <= SYSTEM_TOKENS
    && u.output <= MAX_OUTPUT_TOKENS
  }

  lemma RoundMonotone(x: real, y: real)
    requires x <= y
    ensures Round(x) <= Round(y)
  {}

  lemma MulMonotone(a: nat, b: nat, c: nat)
    requires a <= b
    ensures a * c <= b * c
  {}

  /** The blend of input rates is largest when the whole system block is written to the
      cache and everything else is plain input. */
  lemma BlendIsLargest(i: int, w: int, r: int, o: int, all: int, sys: int, out: int)
    requires 0 <= i && 0 <= w <= sys && 0 <= r && i + w + r <= all && 0 <= o <= out
    ensures 0.0 <= i as real + w as real * 1.25 + r as real * 0.1 + o as real
    ensures i as real + w as real * 1.25 + r as real * 0.1 + o as real
            <= (all - sys) as real + sys as real * 1.25 + out as real
  {}

  /** The worst case is worst before rounding, whatever the two prices are. */
  lemma WorstCaseDominates(p: Price, u: TokenUsage)
    requires WithinCaps(u)
    ensures 0.0 <= RawCost(p, u) <= RawCost(p, WorstCase())
  {
    var a, b := p.input, p.output;
    MulMonotone(u.input + u.cacheCreation + u.cacheRead, 7334, a);
    MulMonotone(u.cacheCreation, 1334, a);
    MulMonotone(u.output, 4096, b);
    assert (u.input + u.cacheCreation + u.cacheRead) * a == u.input * a + u.cacheCreation * a + u.cacheRead * a;
    BlendIsLargest(u.input * a, u.cacheCreation * a, u.cacheRead * a, u.output * b,
                   7334 * a, 1334 * a, 4096 * b);
    assert WorstCase() == TokenUsage(6000, 4096, 1334, 0);
  }

  /** The reserved maximum really is one: no call within the caps costs more, batch or
      not, and the maximum is refused exactly for the models that have no price. */
  lemma ReservedMaximumCovers(model: Model, u: TokenUsage, batch: bool)
    requires WithinCaps(u)
    ensures HardMaxCost(model, batch).None? <==> model == Unpriced
    ensures ComputeCost(model, u, batch).None? <==> model == Unpriced
    ensures model != Unpriced ==>
              0 <= ComputeCost(model, u, batch).value <= HardMaxCost(model, batch).value
  {
    if model != Unpriced {
      var p := PriceOf(model).value;
      WorstCaseDominates(p, u);
      var d := if batch then 0.5 else 1.0;
      assert RawCost(p, u) * d <= RawCost(p, WorstCase()) * d;
      RoundMonotone(RawCost(p, u) * d, RawCost(p, WorstCase()) * d);
      assert RawCost(p, u) * d >= 0.0;
      RoundMonotone(0.0, RawCost(p, u) * d);
    }
  }

  lemma MaximumIsNonNegative(model: Model, batch: bool)
    ensures HardMaxCost(model, batch).Some? ==> HardMaxCost(model, batch).value >= 0
  {
    ReservedMaximumCovers(model, TokenUsage(0, 0, 0, 0), batch);
  }

  /** Twenty times what a call costs, at rates per token: plain input at the input price, a
      write to the cache at one and a quarter of it, a read from the cache at a tenth. */
  function Twentieths(u: TokenUsage, input: nat, output: nat): nat
  {
    (20 * u.input + 25 * u.cacheCreation + 2 * u.cacheRead) * input + 20 * u.output * output
  }

  lemma RawIsTwentieths(p: Price, u: TokenUsage)
    ensures 20.0 * RawCost(p, u) == Twentieths(u, p.input, p.output) as real
  {
    var a, b, c, d := u.input * p.input, u.cacheCreation * p.input, u.cacheRead * p.input, u.output * p.output;
    assert Twentieths(u, p.input, p.output) == 20 * a + 25 * b + 2 * c + 20 * d;
  }

  /** What is booked for a call, at the published prices in whole microdollars, is its exact
      cost rounded to the nearest; of a batch call, half of it. */
  lemma CostIsNearest(model: Model, u: TokenUsage, input: nat, output: nat)
    requires match model
             case Haiku45 => input == 1 && output == 5
             case Sonnet5 => input == 2 && output == 10
             case Opus48 => input == 5 && output == 25
             case Unpriced => false
    ensures ComputeCost(model, u, false).Some? && ComputeCost(model, u, true).Some?
    ensures var exact := Twentieths(u, input, output);
            && exact - 10 < 20 * ComputeCost(model, u, false).value <= exact + 10
            && exact - 20 < 40 * ComputeCost(model, u, true).value <= exact + 20
  {
    var p := Price(input, output);
    assert PriceOf(model) == Some(p);
    RawIsTwentieths(p, u);
    var x, exact := RawCost(p, u), Twentieths(u, input, output);
    RoundsToNearest(x, exact);
    RoundsToNearest(x * 0.5, exact);
  }

  lemma RoundsToNearest(x: real, parts: int)
    ensures 20.0 * x == parts as real ==> parts - 10 < 20 * Round(x) <= parts + 10
    ensures 40.0 * x == parts as real ==> parts - 20 < 40 * Round(x) <= parts + 20
  {
    var r := Round(x);
    assert r as real <= x + 0.5 < r as real + 1.0;
    assert (20 * r) as real == 20.0 * r as real && (40 * r) as real == 40.0 * r as real;
  }

  /** A batch call never costs more than the same call made interactively. */
  lemma BatchIsCheaper(model: Model, u: TokenUsage)
    requires model != Unpriced
    ensures ComputeCost(model, u, true).value <= ComputeCost(model, u, false).value
  {
    var p := PriceOf(model).value;
    assert RawCost(p, u) >= 0.0 by {
      assert (u.cacheCreation * p.input) as real >= 0.0 && (u.cacheRead * p.input) as real >= 0.0;
      assert u.input * p.input >= 0 && u.output * p.output >= 0;
    }
    RoundMonotone(RawCost(p, u) * 0.5, RawCost(p, u) * 1.0);
  }

  /** Does charging `credits` leave at least the margin floor at the worst case? */
  predicate Covers(credits: int, hardMax: int)
  {
    hardMax as real <= (credits * CREDIT_REVENUE_FLOOR) as real * (1.0 - MARGIN_FLOOR)
  }

  /** The derived price is the least whole number of credits, at least one, that clears
      the margin floor at the interactive maximum. */
  lemma CreditsAreLeastCover(model: Model, other: int)
    requires model != Unpriced
    ensures CreditsRequired(model).Some? && CreditsRequired(model).value >= 1
    ensures Covers(CreditsRequired(model).value, HardMaxCost(model, false).value)
    ensures other >= 1 && Covers(other, HardMaxCost(model, false).value) ==> CreditsRequired(model).value <= other
  {
    var hardMax := HardMaxCost(model, false).value;
    var x := hardMax as real / 17675.0;
    assert CREDIT_REVENUE_FLOOR as real * (1.0 - MARGIN_FLOOR) == 17675.0;
    var c := Ceil(x);
    assert c as real >= x && c as real - 1.0 < x;
    assert x * 17675.0 == hardMax as real;
    assert Covers(other, hardMax) ==> other as real >= x;
  }

  /** No admissible call can lose money: at any price we sell a credit for, what it
      actually costs leaves at least the margin floor on the credits it charges. */
  lemma NoCallLosesMoney(model: Model, u: TokenUsage, batch: bool)
    requires WithinCaps(u) && model != Unpriced
    ensures CreditsRequired(model).Some? && ComputeCost(model, u, batch).Some?
    ensures Covers(CreditsRequired(model).value, ComputeCost(model, u, batch).value)
  {
    CreditsAreLeastCover(model, 1);
    ReservedMaximumCovers(model, u, false);
    ReservedMaximumCovers(model, u, batch);
    BatchIsCheaper(model, u);
  }

  /** Every row of the margin report clears the floor, with margin at least one half. */
  lemma MarginReportClears(pass: Pass)
    ensures MarginRowFor(pass).Some?
    ensures MarginRowFor(pass).value.clearsFloor && MarginRowFor(pass).value.margin >= 0.5
    ensures var row := MarginRowFor(pass).value;
            && row.credits == (if pass == Analysis then 4 else 8)
            && row.hardMax == (if pass == Analysis then 56_295 else 140_738)
            && row.revenue == row.credits * 35_350
            && row.margin * row.revenue as real == (row.revenue - row.hardMax) as real
  {
    PublishedPrices();
    CreditsAreLeastCover(ModelFor(pass), 1);
    var hardMax, credits := HardMaxCost(ModelFor(pass), false).value, CreditsRequired(ModelFor(pass)).value;
    var revenue := credits * CREDIT_REVENUE_FLOOR;
    assert revenue >= 35_350;
    HalfMargin(revenue, hardMax);
    QuotientTimes((revenue - hardMax) as real, revenue as real);
  }

  lemma QuotientTimes(a: real, b: real)
    requires b != 0.0
    ensures a / b * b == a
  {}

  lemma HalfMargin(revenue: int, hardMax: int)
    requires revenue > 0 && hardMax as real <= revenue as real * 0.5
    ensures (revenue - hardMax) as real / revenue as real >= 0.5
  {}

  /** The published prices: 4 credits for an analysis, 8 for a deep pass. */
  lemma PublishedPrices()
    ensures HardMaxCost(Sonnet5, false) == Some(56295) && CreditsRequired(Sonnet5) == Some(4)
    ensures HardMaxCost(Opus48, false) == Some(140738) && CreditsRequired(Opus48) == Some(8)
  {
    assert RawCost(Price(2, 10), WorstCase()) == 56295.0;
    assert RawCost(Price(5, 25), WorstCase()) == 140737.5;
    assert 3.0 < 56295.0 / 17675.0 < 4.0;
    assert 7.0 < 140738.0 / 17675.0 < 8.0;
  }
}
