/** Fee suggestions: the oracle of src/utils/gas.rs, the request check of src/utils/validation.rs and the
    choice the executor makes between them (src/queue/executor.rs).

    Amounts are 256-bit words; a conversion to 64 bits that does not fit aborts the caller, as in the source.
    Factors are exact reals, and a real becomes a word by truncation that saturates at both ends. */
module GasOracle {
  import opened Wrappers

  const U64: nat := 0x1_0000_0000_0000_0000
  const U256: nat := 0x1_0000_0000_0000_0000_0000_0000_0000_0000_0000_0000_0000_0000_0000_0000_0000_0000
  const GWEI: nat := 1_000_000_000
  const TIP: nat := 2 * GWEI
  const DEFAULT_BASE_FEE: nat := 20 * GWEI
  const MAX_HISTORY_SIZE: nat := 1000

  datatype Priority = Low | Normal | High | Critical

  datatype Fees = Fees(maxFee: nat, priorityFee: nat)

  /** EIP-1559: the maximum fee per gas is at least the maximum priority fee per gas. */
  predicate WellFormed(f: Fees) {
    f.maxFee >= f.priorityFee
  }

  predicate Covers(f: Fees, g: Fees) {
    f.maxFee >= g.maxFee && f.priorityFee >= g.priorityFee
  }

  datatype Config = Config(multiplier: real, minPrice: nat, maxPrice: nat)

  // ----- Arithmetic ---------------------------------------------------------------------------------

  function Max(a: nat, b: nat): nat {
    if a < b then b else a
  }

  function Min(a: nat, b: nat): nat {
    if a < b then a else b
  }

  function Clamp(x: nat, low: nat, high: nat): nat {
    Min(Max(x, low), high)
  }

  function Truncate(x: real): nat {
    if x <= 0.0 then 0 else if x >= U64 as real then U64 - 1 else x.Floor
  }

  function Scale(x: nat, factor: real): nat {
    Truncate(x as real * factor)
  }

  /** Truncation is monotone, and reaches a word exactly when the real does. */
  lemma TruncateAtLeast(r: real, x: nat)
    requires 0 < x < U64
    ensures Truncate(r) >= x <==> r >= x as real
  {
  }

  lemma ScaleMonotone(x: nat, factor: real, y: nat, factor': real)
    requires x <= y && 0.0 <= factor <= factor'
    ensures Scale(x, factor) <= Scale(y, factor')
  {
    ProductMonotone(x as real, factor, y as real, factor');
  }

  lemma ProductMonotone(a: real, f: real, b: real, g: real)
    requires 0.0 <= a <= b && 0.0 <= f <= g
    ensures a * f <= b * g
  {
    assert a * f <= b * f;
    assert b * f <= b * g;
  }

  lemma ScaleByOne(x: nat)
    requires x < U64
    ensures Scale(x, 1.0) == x
  {
    var r := x as real * 1.0;
    assert r == x as real && r.Floor == x;
  }

  lemma ScaleGrows(x: nat, factor: real)
    requires x < U64 && factor >= 1.0
    ensures Scale(x, factor) >= x
  {
    ScaleByOne(x);
    ScaleMonotone(x, 1.0, x, factor);
  }

  lemma ScaleShrinks(x: nat, factor: real)
    requires 0 < x < U64 && factor < 1.0
    ensures Scale(x, factor) < x
  {
    var r := ProductShrinks(x as real, factor);
    TruncateAtLeast(r, x);
  }

  lemma ProductShrinks(a: real, f: real) returns (r: real)
    requires a > 0.0 && f < 1.0
    ensures r == a * f && r < a
  {
    r := a * f;
    assert a * (1.0 - f) > 0.0;
  }

  // ----- Fetch and recommend ------------------------------------------------------------------------

  const INITIAL := Fees(20 * GWEI, TIP)

  function PriorityFloor(c: Config): nat {
    Max(TIP, c.minPrice)
  }

  /** The pair computed from a base fee; None is the abort when base fee plus tip needs more than 64 bits. */
  function Fetched(c: Config, baseFee: nat): Option<Fees> {
    var sum := (baseFee + TIP) % U256;
    if sum >= U64 then None
    else Some(Fees(Clamp(Scale(sum, c.multiplier), c.minPrice, c.maxPrice), PriorityFloor(c)))
  }

  function FeeFactor(p: Priority): real {
    match p case Critical => 1.5 case High => 1.2 case Normal => 1.0 case Low => 0.8
  }

  function PriorityFeeFactor(p: Priority): real {
    match p case Critical => 1.3 case High => 1.2 case Normal => 1.0 case Low => 0.8
  }

  function Recommended(c: Config, current: Fees, p: Priority): Option<Fees> {
    if current.maxFee >= U64 || current.priorityFee >= U64 then None
    else Some(Fees(Clamp(Scale(current.maxFee, FeeFactor(p)), c.minPrice, c.maxPrice),
                   Max(Scale(current.priorityFee, PriorityFeeFactor(p)), c.minPrice)))
  }

  // ----- The request and the choice -----------------------------------------------------------------

  predicate ValidGasPrices(f: Fees) {
    && f.maxFee != 0 && f.priorityFee != 0
    && f.maxFee >= f.priorityFee
    && GWEI <= f.maxFee <= 1000 * GWEI
  }

  /** What is sent: the requested pair unless its maximum fee is below 80% of the recommended one. */
  function Chosen(c: Config, oracle: Option<Fees>, request: Fees, p: Priority): Option<Fees> {
    match oracle
    case None => Some(request)
    case Some(current) =>
      match Recommended(c, current, p)
      case None => None
      case Some(recommended) =>
        if request.maxFee >= U64 || recommended.maxFee >= U64 then None
        else if request.maxFee as real < recommended.maxFee as real * 0.8 then Some(recommended)
        else Some(request)
  }

  /** A pair the oracle can hold: the initial one, or one computed from some base fee whose sum with the tip
      does not wrap around. */
  ghost predicate Held(c: Config, current: Fees) {
    current == INITIAL || exists baseFee: nat :: baseFee + TIP < U256 && Fetched(c, baseFee) == Some(current)
  }

  ghost predicate AlwaysWellFormed(c: Config) {
    forall current, p :: Held(c, current) && Recommended(c, current, p).Some? ==>
      WellFormed(Recommended(c, current, p).value)
  }

  predicate RoomForTip(c: Config) {
    && c.maxPrice >= Max(Scale(PriorityFloor(c), 1.3), c.minPrice)
    && (c.multiplier >= 1.0 || c.minPrice >= TIP)
  }

  // ----- Theorems -----------------------------------------------------------------------------------

  lemma FetchedPair(c: Config, baseFee: nat)
    requires baseFee + TIP < U256 && Fetched(c, baseFee).Some?
    requires c.multiplier >= 1.0 || c.minPrice >= TIP
    requires c.maxPrice >= PriorityFloor(c)
    ensures WellFormed(Fetched(c, baseFee).value)
  {
    assert (baseFee + TIP) % U256 == baseFee + TIP;
    if c.multiplier >= 1.0 {
      ScaleGrows(baseFee + TIP, c.multiplier);
    }
  }

  lemma HeldPair(c: Config, current: Fees)
    requires Held(c, current)
    requires c.multiplier >= 1.0 || c.minPrice >= TIP
    requires c.maxPrice >= PriorityFloor(c)
    ensures WellFormed(current) && current.priorityFee <= PriorityFloor(c)
  {
    hide Scale;
    if current != INITIAL {
      var baseFee: nat :| baseFee + TIP < U256 && Fetched(c, baseFee) == Some(current);
      FetchedPair(c, baseFee);
    }
  }

  lemma RecommendedWellFormed(c: Config, current: Fees, p: Priority)
    requires WellFormed(current) && current.maxFee < U64
    requires current.priorityFee <= PriorityFloor(c)
    requires c.maxPrice >= Max(Scale(PriorityFloor(c), 1.3), c.minPrice)
    ensures Recommended(c, current, p).Some? && WellFormed(Recommended(c, current, p).value)
  {
    ScaleMonotone(current.priorityFee, PriorityFeeFactor(p), current.maxFee, FeeFactor(p));
    ScaleMonotone(current.priorityFee, PriorityFeeFactor(p), PriorityFloor(c), 1.3);
  }

  lemma Necessary(c: Config)
    requires c.minPrice < U64 && c.maxPrice < U64 && AlwaysWellFormed(c)
    ensures RoomForTip(c)
  {
    var current := Fees(Clamp(Scale(TIP, c.multiplier), c.minPrice, c.maxPrice), PriorityFloor(c));
    assert Held(c, current) by {
      assert (0 + TIP) % U256 == TIP;
      assert Fetched(c, 0) == Some(current);
    }
    assert Recommended(c, current, Critical).Some? && Recommended(c, current, Normal).Some?;
    assert WellFormed(Recommended(c, current, Critical).value);
    assert WellFormed(Recommended(c, current, Normal).value);
    ScaleByOne(current.maxFee);
    ScaleByOne(current.priorityFee);
    if c.multiplier < 1.0 {
      ScaleShrinks(TIP, c.multiplier);
    }
  }

  lemma RecommendedFromHeld(c: Config, current: Fees, p: Priority)
    requires Held(c, current) && c.maxPrice < U64 && RoomForTip(c)
    ensures Recommended(c, current, p).Some? && WellFormed(Recommended(c, current, p).value)
  {
    ScaleGrows(PriorityFloor(c), 1.3);
    HeldPair(c, current);
    RecommendedWellFormed(c, current, p);
  }

  lemma Sufficient(c: Config)
    requires c.maxPrice < U64 && RoomForTip(c)
    ensures AlwaysWellFormed(c)
  {
    hide Held, Recommended, RoomForTip;
    forall current, p | Held(c, current) && Recommended(c, current, p).Some?
      ensures WellFormed(Recommended(c, current, p).value)
    {
      RecommendedFromHeld(c, current, p);
    }
  }

  /** The recommendations for every priority, from every pair the oracle can hold, are well-formed exactly
      when the configured maximum leaves room for the highest priority fee that is ever recommended, and the
      fetched maximum is not scaled below the tip. */
  lemma WellFormedIffRoomForTip(c: Config)
    requires c.minPrice < U64 && c.maxPrice < U64
    ensures AlwaysWellFormed(c) <==> RoomForTip(c)
  {
    hide *;
    if AlwaysWellFormed(c) {
      Necessary(c);
    }
    if RoomForTip(c) {
      Sufficient(c);
    }
  }

  // ----- Base fees that wrap ------------------------------------------------------------------------

  /** A pair the oracle can hold if the node may report any 256-bit base fee, also one that wraps around. */
  ghost predicate HeldFromAnyWord(c: Config, current: Fees) {
    current == INITIAL || exists baseFee: nat :: baseFee < U256 && Fetched(c, baseFee) == Some(current)
  }

  ghost predicate WellFormedForAnyWord(c: Config) {
    forall current, p :: HeldFromAnyWord(c, current) && Recommended(c, current, p).Some? ==>
      WellFormed(Recommended(c, current, p).value)
  }

  lemma WrappedPair(c: Config)
    ensures Fetched(c, U256 - TIP) == Some(Fees(Clamp(0, c.minPrice, c.maxPrice), PriorityFloor(c)))
  {
    assert (U256 - TIP + TIP) % U256 == 0;
  }

  lemma AnyWordNecessary(c: Config)
    requires c.minPrice < U64 && c.maxPrice < U64 && WellFormedForAnyWord(c)
    ensures RoomForTip(c) && c.minPrice >= TIP
  {
    WrappedPair(c);
    var current := Fees(Clamp(0, c.minPrice, c.maxPrice), PriorityFloor(c));
    assert HeldFromAnyWord(c, current);
    assert Recommended(c, current, Critical).Some? && Recommended(c, current, Normal).Some?;
    assert WellFormed(Recommended(c, current, Critical).value);
    assert WellFormed(Recommended(c, current, Normal).value);
    ScaleByOne(current.maxFee);
    ScaleByOne(current.priorityFee);
  }

  lemma FromAnyWord(c: Config, current: Fees, p: Priority)
    requires HeldFromAnyWord(c, current) && c.maxPrice < U64 && RoomForTip(c) && c.minPrice >= TIP
    ensures Recommended(c, current, p).Some? && WellFormed(Recommended(c, current, p).value)
  {
    ScaleGrows(PriorityFloor(c), 1.3);
    assert WellFormed(current) && current.priorityFee <= PriorityFloor(c) && current.maxFee < U64;
    hide Scale, HeldFromAnyWord;
    RecommendedWellFormed(c, current, p);
  }

  lemma AnyWordSufficient(c: Config)
    requires c.maxPrice < U64 && RoomForTip(c) && c.minPrice >= TIP
    ensures WellFormedForAnyWord(c)
  {
    hide HeldFromAnyWord, Recommended, RoomForTip;
    forall current, p | HeldFromAnyWord(c, current) && Recommended(c, current, p).Some?
      ensures WellFormed(Recommended(c, current, p).value)
    {
      FromAnyWord(c, current, p);
    }
  }

  /** If base fees may wrap, the configured minimum has to reach the tip as well. */
  lemma WellFormedForAnyWordIff(c: Config)
    requires c.minPrice < U64 && c.maxPrice < U64
    ensures WellFormedForAnyWord(c) <==> RoomForTip(c) && c.minPrice >= TIP
  {
    hide *;
    if WellFormedForAnyWord(c) {
      AnyWordNecessary(c);
    }
    if RoomForTip(c) && c.minPrice >= TIP {
      AnyWordSufficient(c);
    }
  }

  // ----- Configurations -----------------------------------------------------------------------------

  /** The checks that src/config/settings.rs makes. */
  predicate Validated(c: Config) {
    c.multiplier > 0.0 && c.minPrice < c.maxPrice < U64
  }

  /** The default configuration is safe, but validation does not imply safety. */
  lemma ValidationIsNotEnough()
    ensures var c := Config(1.1, GWEI, 100 * GWEI); Validated(c) && AlwaysWellFormed(c)
    ensures var c := Config(1.1, GWEI, 2 * GWEI); Validated(c) && !AlwaysWellFormed(c)
    ensures var c := Config(0.9, GWEI, 100 * GWEI); Validated(c) && !AlwaysWellFormed(c)
  {
    hide AlwaysWellFormed;
    WellFormedIffRoomForTip(Config(1.1, GWEI, 100 * GWEI));
    WellFormedIffRoomForTip(Config(1.1, GWEI, 2 * GWEI));
    WellFormedIffRoomForTip(Config(0.9, GWEI, 100 * GWEI));
  }

  /** What the executor sends is well-formed when what is recommended is. */
  lemma ChosenFrom(c: Config, current: Fees, request: Fees, p: Priority)
    requires Recommended(c, current, p).Some? && WellFormed(Recommended(c, current, p).value) && c.maxPrice < U64
    requires ValidGasPrices(request)
    ensures Chosen(c, Some(current), request, p).Some?
    ensures var recommended, chosen := Recommended(c, current, p).value, Chosen(c, Some(current), request, p).value;
            && WellFormed(chosen)
            && chosen.maxFee >= request.maxFee
            && chosen.maxFee as real >= recommended.maxFee as real * 0.8
            && (chosen == request || chosen == recommended)
  {
    hide Scale;
  }

  /** What the executor sends for a request that passed validation: a well-formed pair, never with a lower
      maximum fee than was asked for, nor below 80% of the recommended one; and it never aborts. */
  lemma ChosenPair(c: Config, current: Fees, request: Fees, p: Priority)
    requires Held(c, current) && AlwaysWellFormed(c) && c.minPrice < U64 && c.maxPrice < U64
    requires ValidGasPrices(request)
    ensures Recommended(c, current, p).Some? && Chosen(c, Some(current), request, p).Some?
    ensures var recommended, chosen := Recommended(c, current, p).value, Chosen(c, Some(current), request, p).value;
            && WellFormed(chosen)
            && chosen.maxFee >= request.maxFee
            && chosen.maxFee as real >= recommended.maxFee as real * 0.8
            && (chosen == request || chosen == recommended)
  {
    hide *;
    WellFormedIffRoomForTip(c);
    RecommendedFromHeld(c, current, p);
    ChosenFrom(c, current, request, p);
  }

  /** The factor of a priority as a fraction, for the maximum fee and for the priority fee. */
  function Fractions(p: Priority): ((nat, nat), (nat, nat)) {
    match p
    case Critical => ((3, 2), (13, 10))
    case High => ((6, 5), (6, 5))
    case Normal => ((1, 1), (1, 1))
    case Low => ((4, 5), (4, 5))
  }

  /** `x` scaled by a fraction with truncation, or the largest 64-bit word. */
  function ByFraction(x: nat, num: nat, den: nat): nat
    requires den > 0
  {
    Min(x * num / den, 0xffff_ffff_ffff_ffff)
  }

  /** Scaling by a fraction is integer arithmetic, saturating at the largest 64-bit word. */
  lemma ScaleByFraction(x: nat, num: nat, den: nat, factor: real)
    requires den > 0 && factor * den as real == num as real
    ensures Scale(x, factor) == ByFraction(x, num, den)
  {
    var q := x * num / den;
    var r := Quotient(x, num, den, factor);
    assert Truncate(r) == Min(q, U64 - 1);
  }

  lemma Quotient(x: nat, num: nat, den: nat, factor: real) returns (r: real)
    requires den > 0 && factor * den as real == num as real
    ensures r == x as real * factor
    ensures (x * num / den) as real <= r < (x * num / den + 1) as real
  {
    r := x as real * factor;
    var q := x * num / den;
    assert q * den <= x * num < (q + 1) * den;
    assert r * den as real == (x * num) as real;
    Divide(q, den, r);
    Divide(q + 1, den, r);
  }

  lemma Divide(q: nat, den: nat, r: real)
    requires den > 0
    ensures (q * den) as real <= r * den as real <==> q as real <= r
  {
    assert (q * den) as real == q as real * den as real;
    if q as real <= r {
      assert (r - q as real) * den as real >= 0.0;
    } else {
      assert (q as real - r) * den as real > 0.0;
    }
  }

  /** A recommendation in whole numbers: the current fees times the priority's fractions, divided with
      truncation, within the configured bounds. */
  lemma RecommendedInIntegers(c: Config, current: Fees, p: Priority)
    requires current.maxFee < U64 && current.priorityFee < U64
    ensures var ((n, d), (n', d')) := Fractions(p);
            Recommended(c, current, p) ==
            Some(Fees(Clamp(ByFraction(current.maxFee, n, d), c.minPrice, c.maxPrice),
                      Max(ByFraction(current.priorityFee, n', d'), c.minPrice)))
  {
    hide Scale;
    var ((n, d), (n', d')) := Fractions(p);
    ScaleByFraction(current.maxFee, n, d, FeeFactor(p));
    ScaleByFraction(current.priorityFee, n', d', PriorityFeeFactor(p));
  }

  /** `y` is `x` brought within bounds: the nearer bound if it lies outside, and the upper one if the bounds
      cross. */
  predicate Bounded(x: nat, low: nat, high: nat, y: nat) {
    if high <= low || x >= high then y == high else if x <= low then y == low else y == x
  }

  /** The base fee plus 2 gwei, wrapped around at 256 bits. */
  function WithTip(baseFee: nat): nat
    requires baseFee < U256
  {
    if baseFee < U256 - 2_000_000_000 then baseFee + 2_000_000_000 else baseFee - (U256 - 2_000_000_000)
  }

  /** What the oracle fetches, in whole numbers: the base fee plus 2 gwei, wrapped around at 256 bits and given
      up at 64, scaled with truncation and brought within the configured bounds; and a priority fee of 2 gwei
      or the configured minimum, whichever is more. */
  lemma FetchedInIntegers(c: Config, num: nat, den: nat, baseFee: nat)
    requires den > 0 && c.multiplier * den as real == num as real && baseFee < U256
    ensures match Fetched(c, baseFee)
            case None => WithTip(baseFee) >= 0x1_0000_0000_0000_0000
            case Some(fees) =>
              && WithTip(baseFee) < 0x1_0000_0000_0000_0000
              && Bounded(ByFraction(WithTip(baseFee), num, den), c.minPrice, c.maxPrice, fees.maxFee)
              && fees.priorityFee >= 2_000_000_000 && fees.priorityFee >= c.minPrice
              && (fees.priorityFee == 2_000_000_000 || fees.priorityFee == c.minPrice)
  {
    hide Scale;
    assert WithTip(baseFee) == (baseFee + TIP) % U256;
    ScaleByFraction(WithTip(baseFee), num, den, c.multiplier);
  }

  /** The request check in wei. */
  lemma ValidInWei(f: Fees)
    ensures ValidGasPrices(f) <==> 1 <= f.priorityFee <= f.maxFee && 1_000_000_000 <= f.maxFee <= 1_000_000_000_000
  {
  }

  lemma BelowFourFifths(a: nat, b: nat)
    ensures a as real < b as real * 0.8 <==> 5 * a < 4 * b
  {
    assert (5 * a) as real == 5.0 * a as real && (4 * b) as real == 5.0 * (b as real * 0.8);
  }

  /** Of a validated request the executor sends the requested pair exactly when its maximum is at least four
      fifths of the recommended one, or the two pairs coincide; otherwise it sends the recommended pair, and
      without an oracle always the requested one. */
  lemma RequestSentIff(c: Config, current: Fees, request: Fees, p: Priority)
    requires current.maxFee < U64 && current.priorityFee < U64 && c.maxPrice < U64 && ValidGasPrices(request)
    ensures Recommended(c, current, p).Some? && Chosen(c, Some(current), request, p).Some?
    ensures var recommended, chosen := Recommended(c, current, p).value, Chosen(c, Some(current), request, p).value;
            && (chosen == request <==> 5 * request.maxFee >= 4 * recommended.maxFee || request == recommended)
            && (chosen != request ==> chosen == recommended)
    ensures Chosen(c, None, request, p) == Some(request)
  {
    hide Scale;
    BelowFourFifths(request.maxFee, Recommended(c, current, p).value.maxFee);
  }

  function Urgency(p: Priority): nat {
    match p case Low => 0 case Normal => 1 case High => 2 case Critical => 3
  }

  /** A more urgent transaction is never recommended less, on either fee. */
  lemma RecommendationsMonotone(c: Config, current: Fees, p: Priority, q: Priority)
    requires current.maxFee < U64 && current.priorityFee < U64 && Urgency(p) <= Urgency(q)
    ensures Covers(Recommended(c, current, q).value, Recommended(c, current, p).value)
  {
    ScaleMonotone(current.maxFee, FeeFactor(p), current.maxFee, FeeFactor(q));
    ScaleMonotone(current.priorityFee, PriorityFeeFactor(p), current.priorityFee, PriorityFeeFactor(q));
  }
}
