// Rent cost projection (src/core/rent_projection.ts). The source computes with doubles; the
// model is exact: sizes, days, rates and costs are reals, fees and ledger counts integers.
module Rent {
  import opened Common

  const AVG_LEDGER_CLOSE_SECONDS := 5.5
  const LEDGERS_PER_DAY := 86400.0 / AVG_LEDGER_CLOSE_SECONDS
  const STROOPS_PER_XLM := 10000000.0
  const DATA_SIZE_1KB_INCREMENT := 1024.0
  const CODE_ENTRY_RENT_DISCOUNT_FACTOR := 3.0
  const DEFAULT_FEE_PER_RENT_1KB := 1000.0
  const DEFAULT_PERSISTENT_RENT_RATE_DENOMINATOR := 2103.0
  const DEFAULT_TEMPORARY_RENT_RATE_DENOMINATOR := 1000.0

  datatype RentProjectionInput = RentProjectionInput(
    entrySizeBytes: real, days: real, feePerRent1kb: Option<real>, rentRateDenominator: Option<real>,
    isPersistent: bool, isCodeEntry: bool)

  datatype RentProjectionResult = RentProjectionResult(
    days: real, ledgerCount: int, estimatedFeeStroops: int, estimatedFeeXlm: real)

  // Math.ceil
  function Ceil(x: real): (c: int)
    ensures x <= c as real < x + 1.0
  {
    -(-x).Floor
  }

  function FeePerKb(input: RentProjectionInput): real {
    if input.feePerRent1kb.Some? then input.feePerRent1kb.value else DEFAULT_FEE_PER_RENT_1KB
  }

  function RateDenominator(input: RentProjectionInput): real {
    if input.rentRateDenominator.Some? then input.rentRateDenominator.value
    else if input.isPersistent then DEFAULT_PERSISTENT_RENT_RATE_DENOMINATOR
    else DEFAULT_TEMPORARY_RENT_RATE_DENOMINATOR
  }

  predicate Free(input: RentProjectionInput) {
    input.entrySizeBytes <= 0.0 || input.days <= 0.0 || FeePerKb(input) <= 0.0
  }

  function FullCost(size: real, feePerKb: real, ledgers: int, denom: real): real
    requires denom != 0.0
  {
    size * feePerKb * ledgers as real / denom
  }

  function FullFee(size: real, feePerKb: real, ledgers: int, denom: real): int
    requires denom != 0.0
  {
    Ceil(FullCost(size, feePerKb, ledgers, denom))
  }

  function Discounted(full: int, isCodeEntry: bool): int {
    if isCodeEntry then Ceil(full as real / CODE_ENTRY_RENT_DISCOUNT_FACTOR) else full
  }

  function Denominator(input: RentProjectionInput): real {
    DATA_SIZE_1KB_INCREMENT * RateDenominator(input)
  }

  // The source divides by the denominator; zero would give Infinity there.
  function ProjectRentCost(input: RentProjectionInput): RentProjectionResult
    requires Denominator(input) != 0.0
  {
    if Free(input) then
      RentProjectionResult(input.days, if input.days <= 0.0 then 0 else Ceil(input.days * LEDGERS_PER_DAY), 0, 0.0)
    else
      var ledgerCount := Ceil(input.days * LEDGERS_PER_DAY);
      var full := FullFee(input.entrySizeBytes, FeePerKb(input), ledgerCount, Denominator(input));
      var fee := Discounted(full, input.isCodeEntry);
      RentProjectionResult(input.days, ledgerCount, fee, fee as real / STROOPS_PER_XLM)
  }

  function ProjectRentWindows(input: RentProjectionInput): (w: seq<RentProjectionResult>)
    requires Denominator(input) != 0.0
    ensures |w| == 3 && w[0].days == 30.0 && w[1].days == 60.0 && w[2].days == 90.0
  {
    [ProjectRentCost(input.(days := 30.0)), ProjectRentCost(input.(days := 60.0)), ProjectRentCost(input.(days := 90.0))]
  }

  // ---------------------------------------------------------------- the exact cost

  // The rent of one ledger, before any rounding.
  function Rate(size: real, feePerKb: real, denom: real, isCodeEntry: bool): real
    requires denom != 0.0
  {
    var full := size * feePerKb / denom;
    if isCodeEntry then full / CODE_ENTRY_RENT_DISCOUNT_FACTOR else full
  }

  function Exact(rate: real, ledgers: int): real {
    rate * ledgers as real
  }

  function PerLedger(input: RentProjectionInput): real
    requires Denominator(input) != 0.0
  {
    Rate(input.entrySizeBytes, FeePerKb(input), Denominator(input), input.isCodeEntry)
  }

  function Ledgers(days: real): int {
    if days <= 0.0 then 0 else Ceil(days * LEDGERS_PER_DAY)
  }

  function Fee(input: RentProjectionInput): int
    requires Denominator(input) != 0.0
  {
    ProjectRentCost(input).estimatedFeeStroops
  }

  lemma CeilIsLeast(x: real, n: int)
    ensures Ceil(x) <= n <==> x <= n as real
  {
  }

  lemma CeilUnique(x: real, c: int)
    requires c as real - 1.0 < x <= c as real
    ensures Ceil(x) == c
  {
  }

  // Rounding up twice is rounding up once: ceil(ceil(a/b)/3) = ceil(a/(3b)).
  lemma CeilOfCeil(x: real)
    ensures Ceil(Ceil(x) as real / CODE_ENTRY_RENT_DISCOUNT_FACTOR) == Ceil(x / CODE_ENTRY_RENT_DISCOUNT_FACTOR)
  {
    var c := Ceil(x / CODE_ENTRY_RENT_DISCOUNT_FACTOR);
    CeilIsLeast(x, 3 * c);
    CeilIsLeast(x, 3 * (c - 1));
    CeilUnique(Ceil(x) as real / CODE_ENTRY_RENT_DISCOUNT_FACTOR, c);
  }

  lemma FullCostIsExact(size: real, feePerKb: real, ledgers: int, denom: real)
    requires denom != 0.0
    ensures FullCost(size, feePerKb, ledgers, denom) == Exact(Rate(size, feePerKb, denom, false), ledgers)
  {
  }

  lemma ThirdOfExact(rate: real, ledgers: int)
    ensures Exact(rate, ledgers) / CODE_ENTRY_RENT_DISCOUNT_FACTOR
         == Exact(rate / CODE_ENTRY_RENT_DISCOUNT_FACTOR, ledgers)
  {
  }

  lemma RoundedOnce(size: real, feePerKb: real, ledgers: int, denom: real, isCodeEntry: bool)
    requires denom != 0.0
    ensures Discounted(FullFee(size, feePerKb, ledgers, denom), isCodeEntry)
         == Ceil(Exact(Rate(size, feePerKb, denom, isCodeEntry), ledgers))
  {
    var rate := Rate(size, feePerKb, denom, false);
    FullCostIsExact(size, feePerKb, ledgers, denom);
    CeilOfCeil(Exact(rate, ledgers));
    ThirdOfExact(rate, ledgers);
    assert Rate(size, feePerKb, denom, true) == rate / CODE_ENTRY_RENT_DISCOUNT_FACTOR;
    hide FullCost, Exact, Rate, Ceil;
  }

  // The fee is one rounding of the exact cost, for every entry that costs anything.
  lemma FeeIsRoundedOnce(input: RentProjectionInput)
    requires Denominator(input) != 0.0 && !Free(input)
    ensures Fee(input) == Ceil(Exact(PerLedger(input), Ledgers(input.days)))
  {
    hide FullFee, Discounted, Rate, Exact, Denominator;
    RoundedOnce(input.entrySizeBytes, FeePerKb(input), Ledgers(input.days), Denominator(input), input.isCodeEntry);
  }

  // The projected fee is the least whole number of stroops that covers the exact cost (none on
  // the fast paths), the ledger count the least number of ledgers that covers the days.
  lemma FeeIsLeast(input: RentProjectionInput, n: int)
    requires Denominator(input) != 0.0
    ensures var r := ProjectRentCost(input);
      && r.days == input.days
      && (r.ledgerCount <= n <==> (if input.days <= 0.0 then 0.0 else input.days * LEDGERS_PER_DAY) <= n as real)
      && (r.estimatedFeeStroops <= n
          <==> (if Free(input) then 0.0 else Exact(PerLedger(input), r.ledgerCount)) <= n as real)
      && r.estimatedFeeXlm * STROOPS_PER_XLM == r.estimatedFeeStroops as real
  {
    hide FullFee, Discounted, PerLedger, Exact, Denominator, Ceil;
    var r := ProjectRentCost(input);
    assert r.ledgerCount == Ledgers(input.days);
    assert r.estimatedFeeXlm == r.estimatedFeeStroops as real / STROOPS_PER_XLM;
    CeilIsLeast(input.days * LEDGERS_PER_DAY, n);
    if !Free(input) {
      FeeIsRoundedOnce(input);
      hide ProjectRentCost, Ledgers, Free;
      CeilIsLeast(Exact(PerLedger(input), Ledgers(input.days)), n);
    } else {
      assert r.estimatedFeeStroops == 0;
      hide ProjectRentCost, Free;
    }
  }

  // ---------------------------------------------------------------- signs

  lemma LedgersArePositive(days: real)
    ensures days > 0.0 ==> Ledgers(days) >= 1
    ensures Ledgers(days) >= 0
  {
  }

  // Above a positive denominator nothing is free but an empty entry, no time at all, or a zero
  // rate; under a negative one the fee is never positive.
  lemma FreeIff(input: RentProjectionInput)
    requires Denominator(input) != 0.0
    ensures Free(input) ==> Fee(input) == 0
    ensures Fee(input) >= 1 <==> !Free(input) && Denominator(input) > 0.0
    ensures Fee(input) >= 0 || Denominator(input) < 0.0
    ensures !Free(input) ==> if Denominator(input) > 0.0 then PerLedger(input) > 0.0 else PerLedger(input) < 0.0
  {
    hide Rate, Exact, Ledgers, Denominator, FeePerKb, Ceil, Fee;
    if Free(input) {
      FreeIsZero(input);
    } else {
      RateSign(input.entrySizeBytes, FeePerKb(input), Denominator(input), input.isCodeEntry);
      LedgersArePositive(input.days);
      FeeIsRoundedOnce(input);
      ExactSign(PerLedger(input), Ledgers(input.days));
    }
  }

  lemma FreeIsZero(input: RentProjectionInput)
    requires Denominator(input) != 0.0 && Free(input)
    ensures Fee(input) == 0
  {
    hide Denominator, Free;
  }

  lemma RateSign(size: real, feePerKb: real, denom: real, isCodeEntry: bool)
    requires size > 0.0 && feePerKb > 0.0 && denom != 0.0
    ensures Rate(size, feePerKb, denom, isCodeEntry) > 0.0 <==> denom > 0.0
    ensures Rate(size, feePerKb, denom, isCodeEntry) < 0.0 <==> denom < 0.0
  {
    var full := size * feePerKb;
    assert full > 0.0;
    assert full / denom * denom == full;
    if denom > 0.0 {
      assert full / denom > 0.0;
    } else {
      assert full / denom < 0.0;
    }
  }

  lemma ExactSign(c: real, m: int)
    requires m >= 1
    ensures c > 0.0 ==> Ceil(Exact(c, m)) >= 1
    ensures c < 0.0 ==> Ceil(Exact(c, m)) <= 0
  {
    if c > 0.0 {
      assert Exact(c, m) > 0.0;
    } else if c < 0.0 {
      assert Exact(c, m) < 0.0;
    }
  }

  // A code entry pays a third of the full fee, rounded up.
  lemma CodeEntryPaysAThird(input: RentProjectionInput)
    requires Denominator(input) != 0.0 && input.isCodeEntry
    ensures var full := Fee(input.(isCodeEntry := false)); full <= 3 * Fee(input) <= full + 2
  {
    hide Fee, Denominator, Discounted;
    CodeDiscount(input);
    ThirdRoundedUp(Fee(input.(isCodeEntry := false)));
  }

  lemma CodeDiscount(input: RentProjectionInput)
    requires Denominator(input) != 0.0 && input.isCodeEntry
    ensures Denominator(input.(isCodeEntry := false)) != 0.0
    ensures Fee(input) == Discounted(Fee(input.(isCodeEntry := false)), true)
  {
    var whole := input.(isCodeEntry := false);
    OnlyTheKindDiffers(input);
    hide Denominator, FeePerKb, Free, Fee, FullFee, Ceil, Discounted;
    FeeIsDiscounted(input);
    FeeIsDiscounted(whole);
    ThirdOfNothing();
    OnlyACodeEntryIsDiscounted(
      FullFee(input.entrySizeBytes, FeePerKb(input), Ceil(input.days * LEDGERS_PER_DAY), Denominator(input)));
  }

  lemma OnlyTheKindDiffers(input: RentProjectionInput)
    ensures var whole := input.(isCodeEntry := false);
      Denominator(whole) == Denominator(input) && FeePerKb(whole) == FeePerKb(input) && Free(whole) == Free(input)
  {
  }

  lemma OnlyACodeEntryIsDiscounted(full: int)
    ensures Discounted(full, false) == full
  {
  }

  lemma FeeIsDiscounted(input: RentProjectionInput)
    requires Denominator(input) != 0.0
    ensures Fee(input) == if Free(input) then 0 else
      Discounted(FullFee(input.entrySizeBytes, FeePerKb(input), Ceil(input.days * LEDGERS_PER_DAY), Denominator(input)),
                 input.isCodeEntry)
  {
    hide Denominator, FeePerKb, Free, FullFee, Ceil, Discounted;
  }

  lemma ThirdOfNothing()
    ensures Discounted(0, true) == 0
  {
  }

  lemma ThirdRoundedUp(full: int)
    ensures full <= 3 * Discounted(full, true) <= full + 2
  {
  }

  // ---------------------------------------------------------------- monotone

  lemma LedgersMonotone(d: real, e: real)
    requires d <= e
    ensures Ledgers(d) <= Ledgers(e)
  {
  }

  lemma RateMonotone(a: real, b: real, denomA: real, c: real, d: real, denomC: real, isCodeEntry: bool)
    requires 0.0 < a <= c && 0.0 < b <= d && denomA >= denomC > 0.0
    ensures Rate(a, b, denomA, isCodeEntry) <= Rate(c, d, denomC, isCodeEntry)
  {
  }

  lemma RateOfNegative(size: real, feePerKb: real, denom: real, isCodeEntry: bool)
    requires denom != 0.0
    ensures Rate(size, feePerKb, -denom, isCodeEntry) == -Rate(size, feePerKb, denom, isCodeEntry)
  {
    var full := size * feePerKb;
    assert full / -denom == -(full / denom);
  }

  // Larger entries, higher rates, longer periods and smaller denominators take the fee further
  // from 0, if at all: up under positive denominators, down under negative ones.
  lemma FeeIsMonotone(a: RentProjectionInput, b: RentProjectionInput)
    requires Denominator(a) != 0.0 && Denominator(b) != 0.0 && a.isCodeEntry == b.isCodeEntry
    requires a.entrySizeBytes <= b.entrySizeBytes && FeePerKb(a) <= FeePerKb(b) && a.days <= b.days
    ensures Denominator(a) >= Denominator(b) > 0.0 ==> Fee(a) <= Fee(b)
    ensures Denominator(a) <= Denominator(b) < 0.0 ==> Fee(b) <= Fee(a)
  {
    hide Fee, Denominator, Rate, Ledgers, FeePerKb, Exact, Ceil;
    FreeIff(a);
    FreeIff(b);
    if !Free(a) && (Denominator(a) >= Denominator(b) > 0.0 || Denominator(a) <= Denominator(b) < 0.0) {
      RateGrows(a, b);
      LedgersMonotone(a.days, b.days);
      LedgersArePositive(a.days);
      FeeIsRoundedOnce(a);
      FeeIsRoundedOnce(b);
      var x, y := Exact(PerLedger(a), Ledgers(a.days)), Exact(PerLedger(b), Ledgers(b.days));
      if Denominator(b) > 0.0 {
        ExactMonotone(PerLedger(a), Ledgers(a.days), PerLedger(b), Ledgers(b.days));
        CeilMonotone(x, y);
      } else {
        ExactOfNegative(PerLedger(a), Ledgers(a.days));
        ExactOfNegative(PerLedger(b), Ledgers(b.days));
        ExactMonotone(-PerLedger(a), Ledgers(a.days), -PerLedger(b), Ledgers(b.days));
        CeilMonotone(y, x);
      }
    }
  }

  lemma RateGrows(a: RentProjectionInput, b: RentProjectionInput)
    requires !Free(a) && a.isCodeEntry == b.isCodeEntry
    requires a.entrySizeBytes <= b.entrySizeBytes && FeePerKb(a) <= FeePerKb(b)
    requires Denominator(a) >= Denominator(b) > 0.0 || Denominator(a) <= Denominator(b) < 0.0
    ensures if Denominator(b) > 0.0 then PerLedger(a) <= PerLedger(b) else PerLedger(b) <= PerLedger(a)
  {
    hide Denominator, Rate, FeePerKb;
    if Denominator(b) > 0.0 {
      RateMonotone(a.entrySizeBytes, FeePerKb(a), Denominator(a), b.entrySizeBytes, FeePerKb(b), Denominator(b), a.isCodeEntry);
    } else {
      RateOfNegative(a.entrySizeBytes, FeePerKb(a), Denominator(a), a.isCodeEntry);
      RateOfNegative(b.entrySizeBytes, FeePerKb(b), Denominator(b), b.isCodeEntry);
      RateMonotone(a.entrySizeBytes, FeePerKb(a), -Denominator(a), b.entrySizeBytes, FeePerKb(b), -Denominator(b), a.isCodeEntry);
    }
  }

  lemma ExactMonotone(c: real, m: int, d: real, n: int)
    requires 0.0 <= c <= d && 0 <= m <= n
    ensures Exact(c, m) <= Exact(d, n)
  {
    assert c * m as real <= d * m as real;
    assert d * m as real <= d * n as real;
  }

  lemma ExactOfNegative(c: real, m: int)
    ensures Exact(-c, m) == -Exact(c, m)
  {
  }

  lemma CeilMonotone(x: real, y: real)
    requires x <= y
    ensures Ceil(x) <= Ceil(y)
  {
  }

  function FeeFor(input: RentProjectionInput, days: real): int
    requires Denominator(input) != 0.0
  {
    Fee(input.(days := days))
  }

  // Longer periods never cost less exactly when the denominator is positive or there is nothing
  // to pay for any period.
  lemma MonotoneInDaysIff(input: RentProjectionInput)
    requires Denominator(input) != 0.0
    ensures (forall d: real, e: real :: d <= e ==> FeeFor(input, d) <= FeeFor(input, e))
       <==> Denominator(input) > 0.0 || Free(input.(days := 1.0))
  {
    hide Fee, FeePerKb, Free, Denominator;
    if Denominator(input) > 0.0 {
      forall d: real, e: real | d <= e ensures FeeFor(input, d) <= FeeFor(input, e) {
        OnlyTheDaysDiffer(input, d);
        OnlyTheDaysDiffer(input, e);
        FeeIsMonotone(input.(days := d), input.(days := e));
      }
    } else if Free(input.(days := 1.0)) {
      forall d: real ensures FeeFor(input, d) == 0 {
        OnlyTheDaysDiffer(input, d);
        FreeIsZero(input.(days := d));
      }
    } else {
      LongPeriodPaysBack(input);
    }
  }

  // The rates do not depend on the days, and one free positive period makes all periods free.
  lemma OnlyTheDaysDiffer(input: RentProjectionInput, days: real)
    requires Denominator(input) != 0.0
    ensures var other := input.(days := days);
      && FeePerKb(other) == FeePerKb(input)
      && Denominator(other) == Denominator(input)
      && PerLedger(other) == PerLedger(input)
      && (Free(input.(days := 1.0)) ==> Free(other))
      && (days > 0.0 ==> (Free(other) <==> Free(input.(days := 1.0))))
  {
    hide Rate;
  }

  // Days that take the exact cost to at least one stroop, whatever its sign.
  function DaysForAStroop(rate: real): real
    requires rate != 0.0
  {
    (if rate > 0.0 then 1.0 / rate else -1.0 / rate) / LEDGERS_PER_DAY
  }

  lemma LongPeriodPaysBack(input: RentProjectionInput)
    requires Denominator(input) < 0.0 && !Free(input.(days := 1.0))
    ensures exists e: real :: 0.0 <= e && FeeFor(input, e) < FeeFor(input, 0.0)
  {
    hide Fee, Denominator, FeePerKb, PerLedger, Free, Exact, Ceil, Ledgers, DaysForAStroop;
    var c := PerLedger(input);
    OnlyTheDaysDiffer(input, 1.0);
    FreeIff(input.(days := 1.0));
    FallsByAStroop(c);
    var e := DaysForAStroop(c);
    OnlyTheDaysDiffer(input, e);
    FeeIsRoundedOnce(input.(days := e));
    OnlyTheDaysDiffer(input, 0.0);
    NoDaysAreFree(input);
    FreeIsZero(input.(days := 0.0));
    assert FeeFor(input, e) < FeeFor(input, 0.0);
  }

  lemma NoDaysAreFree(input: RentProjectionInput)
    ensures Free(input.(days := 0.0))
  {
  }

  lemma FallsByAStroop(c: real)
    requires c < 0.0
    ensures DaysForAStroop(c) > 0.0
    ensures Ceil(Exact(c, Ledgers(DaysForAStroop(c)))) <= -1
  {
    var x := -1.0 / c;
    assert x * c == -1.0;
    assert x > 0.0;
    assert DaysForAStroop(c) * LEDGERS_PER_DAY == x;
    var m := Ledgers(DaysForAStroop(c));
    assert m == Ceil(x);
    assert c * m as real <= c * x;
  }

  // Without a denominator given, a persistent entry never costs more than the same temporary one.
  lemma PersistentIsCheaper(input: RentProjectionInput)
    requires input.rentRateDenominator.None?
    ensures Fee(input.(isPersistent := true)) <= Fee(input.(isPersistent := false))
  {
    FeeIsMonotone(input.(isPersistent := true), input.(isPersistent := false));
  }

  // A kilobyte at the default rate for 25 ledgers: 11.9 stroops if persistent, 25 if temporary,
  // and a third of the rounded fee for a code entry. A day is 15709.1 ledgers.
  lemma DefaultFees(isPersistent: bool, isCodeEntry: bool)
    ensures var input := RentProjectionInput(1024.0, 25.0 / LEDGERS_PER_DAY, None, None, isPersistent, isCodeEntry);
      ProjectRentCost(input).ledgerCount == 25
      && ProjectRentCost(input.(days := 1.0)).ledgerCount == 15710
      && Fee(input) == if isCodeEntry then (if isPersistent then 4 else 9) else (if isPersistent then 12 else 25)
  {
    var input := RentProjectionInput(1024.0, 25.0 / LEDGERS_PER_DAY, None, None, isPersistent, isCodeEntry);
    assert Ceil(input.days * LEDGERS_PER_DAY) == 25;
    assert !Free(input) && FeePerKb(input) == 1000.0;
    assert Denominator(input) == if isPersistent then 1024.0 * 2103.0 else 1024.0 * 1000.0;
    FeeIsDiscounted(input);
    assert FullFee(1024.0, 1000.0, 25, 1024.0 * 2103.0) == 12 && FullFee(1024.0, 1000.0, 25, 1024.0 * 1000.0) == 25;
    assert Discounted(12, true) == 4 && Discounted(25, true) == 9;
    hide Fee, FullFee, Discounted, Ceil, Denominator, FeePerKb, Free;
  }

  function FeeOfSize(input: RentProjectionInput, size: real): int
    requires Denominator(input) != 0.0
  {
    Fee(input.(entrySizeBytes := size))
  }

  function FeeAtRate(input: RentProjectionInput, feePerKb: real): int
    requires Denominator(input) != 0.0
  {
    Fee(input.(feePerRent1kb := Some(feePerKb)))
  }

  // So it is for larger entries,
  lemma MonotoneInSizeIff(input: RentProjectionInput)
    requires Denominator(input) != 0.0
    ensures (forall x: real, y: real :: x <= y ==> FeeOfSize(input, x) <= FeeOfSize(input, y))
       <==> Denominator(input) > 0.0 || Free(input.(entrySizeBytes := 1.0))
  {
    hide Fee, Free, PerLedger, Denominator;
    if Denominator(input) > 0.0 {
      forall x: real, y: real | x <= y ensures FeeOfSize(input, x) <= FeeOfSize(input, y) {
        OnlyTheSizeDiffers(input, x);
        OnlyTheSizeDiffers(input, y);
        FeeIsMonotone(input.(entrySizeBytes := x), input.(entrySizeBytes := y));
      }
    } else if Free(input.(entrySizeBytes := 1.0)) {
      forall x: real ensures FeeOfSize(input, x) == 0 {
        OnlyTheSizeDiffers(input, x);
        FreeIsZero(input.(entrySizeBytes := x));
      }
    } else {
      var unit := input.(entrySizeBytes := 1.0);
      OnlyTheSizeDiffers(input, 1.0);
      FreeIff(unit);
      var k := Inverse(PerLedger(unit));
      OnlyTheSizeDiffers(input, k);
      FeeOfMinusOne(input.(entrySizeBytes := k));
      OnlyTheSizeDiffers(input, 0.0);
      FreeIsZero(input.(entrySizeBytes := 0.0));
      assert FeeOfSize(input, k) < FeeOfSize(input, 0.0);
    }
  }

  // and for higher rates.
  lemma MonotoneInRateIff(input: RentProjectionInput)
    requires Denominator(input) != 0.0
    ensures (forall x: real, y: real :: x <= y ==> FeeAtRate(input, x) <= FeeAtRate(input, y))
       <==> Denominator(input) > 0.0 || Free(input.(feePerRent1kb := Some(1.0)))
  {
    hide Fee, Free, PerLedger, Denominator;
    if Denominator(input) > 0.0 {
      forall x: real, y: real | x <= y ensures FeeAtRate(input, x) <= FeeAtRate(input, y) {
        OnlyTheRateDiffers(input, x);
        OnlyTheRateDiffers(input, y);
        FeeIsMonotone(input.(feePerRent1kb := Some(x)), input.(feePerRent1kb := Some(y)));
      }
    } else if Free(input.(feePerRent1kb := Some(1.0))) {
      forall x: real ensures FeeAtRate(input, x) == 0 {
        OnlyTheRateDiffers(input, x);
        FreeIsZero(input.(feePerRent1kb := Some(x)));
      }
    } else {
      var unit := input.(feePerRent1kb := Some(1.0));
      OnlyTheRateDiffers(input, 1.0);
      FreeIff(unit);
      var k := Inverse(PerLedger(unit));
      OnlyTheRateDiffers(input, k);
      FeeOfMinusOne(input.(feePerRent1kb := Some(k)));
      OnlyTheRateDiffers(input, 0.0);
      FreeIsZero(input.(feePerRent1kb := Some(0.0)));
      assert FeeAtRate(input, k) < FeeAtRate(input, 0.0);
    }
  }

  // How much of something that costs c a piece costs -1.
  function Inverse(c: real): (k: real)
    requires c < 0.0
    ensures k > 0.0 && k * c == -1.0
  {
    InverseIsPositive(c);
    -1.0 / c
  }

  lemma InverseIsPositive(c: real)
    requires c < 0.0
    ensures -1.0 / c > 0.0 && -1.0 / c * c == -1.0
  {
    var k := -1.0 / c;
    assert k * c == -1.0;
  }

  lemma OnlyTheSizeDiffers(input: RentProjectionInput, size: real)
    requires Denominator(input) != 0.0
    ensures var other, unit := input.(entrySizeBytes := size), input.(entrySizeBytes := 1.0);
      && FeePerKb(other) == FeePerKb(input)
      && Denominator(other) == Denominator(input) == Denominator(unit)
      && PerLedger(other) == size * PerLedger(unit)
      && (size <= 0.0 ==> Free(other))
      && (size > 0.0 ==> (Free(other) <==> Free(unit)))
      && (Free(unit) ==> Free(other))
  {
    var other, unit := input.(entrySizeBytes := size), input.(entrySizeBytes := 1.0);
    assert Denominator(other) == Denominator(input) == Denominator(unit);
    hide Denominator, Rate;
    RateScales(size, FeePerKb(input), Denominator(input), input.isCodeEntry);
  }

  lemma OnlyTheRateDiffers(input: RentProjectionInput, feePerKb: real)
    requires Denominator(input) != 0.0
    ensures var other, unit := input.(feePerRent1kb := Some(feePerKb)), input.(feePerRent1kb := Some(1.0));
      && FeePerKb(other) == feePerKb
      && Denominator(other) == Denominator(input) == Denominator(unit)
      && PerLedger(other) == feePerKb * PerLedger(unit)
      && (feePerKb <= 0.0 ==> Free(other))
      && (feePerKb > 0.0 ==> (Free(other) <==> Free(unit)))
      && (Free(unit) ==> Free(other))
  {
    var other, unit := input.(feePerRent1kb := Some(feePerKb)), input.(feePerRent1kb := Some(1.0));
    assert Denominator(other) == Denominator(input) == Denominator(unit);
    hide Denominator, Rate;
    RateScales(feePerKb, input.entrySizeBytes, Denominator(input), input.isCodeEntry);
    RateIsSymmetric(feePerKb, input.entrySizeBytes, Denominator(input), input.isCodeEntry);
    RateIsSymmetric(1.0, input.entrySizeBytes, Denominator(input), input.isCodeEntry);
  }

  lemma RateScales(k: real, y: real, denom: real, isCodeEntry: bool)
    requires denom != 0.0
    ensures Rate(k, y, denom, isCodeEntry) == k * Rate(1.0, y, denom, isCodeEntry)
  {
    assert 1.0 * y == y;
    assert k * y / denom == k * (y / denom);
  }

  lemma RateIsSymmetric(x: real, y: real, denom: real, isCodeEntry: bool)
    requires denom != 0.0
    ensures Rate(x, y, denom, isCodeEntry) == Rate(y, x, denom, isCodeEntry)
  {
    assert x * y == y * x;
  }

  // A rent of -1 per ledger makes the fee negative.
  lemma FeeOfMinusOne(input: RentProjectionInput)
    requires Denominator(input) != 0.0 && !Free(input) && PerLedger(input) == -1.0
    ensures Fee(input) < 0
  {
    FeeIsRoundedOnce(input);
    hide Fee, PerLedger, Ledgers, Denominator;
    LedgersArePositive(input.days);
  }

  // ---------------------------------------------------------------- splitting a period

  lemma LedgersOfSum(d: real, e: real)
    requires d > 0.0 && e > 0.0
    ensures Ledgers(d) + Ledgers(e) - 1 <= Ledgers(d + e) <= Ledgers(d) + Ledgers(e)
  {
  }

  lemma Distribute(c: real, x: real, y: real)
    ensures c * (x + y) == c * x + c * y && c * (x + y - 1.0) == c * x + c * y - c
  {
  }

  lemma ExactOfSum(c: real, d: int, e: int, both: int)
    requires d + e - 1 <= both <= d + e
    ensures var x := Exact(c, d) + Exact(c, e); x == Exact(c, both) || x == Exact(c, both) + c
  {
    Distribute(c, d as real, e as real);
    if both == d + e {
      assert both as real == d as real + e as real;
    } else {
      assert both as real == d as real + e as real - 1.0;
    }
  }

  lemma RoundedSums(c: real, x: real, y: real, z: real)
    requires x + y == z || x + y == z + c
    ensures c >= 0.0 ==> Ceil(z) <= Ceil(x) + Ceil(y) <= Ceil(z) + Ceil(c) + 1
    ensures c <= 0.0 ==> Ceil(z) + Ceil(c) - 1 <= Ceil(x) + Ceil(y) <= Ceil(z) + 1
  {
  }

  // Paying for two periods one after the other costs at least as much as paying for both at
  // once, for any lengths, and at most the rent of one ledger and one stroop more. Under a
  // negative denominator it pays back at least as much, but for a stroop, and at most the rent of
  // one ledger and one stroop more.
  lemma FeeOfSplitPeriod(input: RentProjectionInput, d: real, e: real)
    requires Denominator(input) != 0.0
    ensures var split, whole := Fee(input.(days := d)) + Fee(input.(days := e)), Fee(input.(days := d + e));
      && (Denominator(input) > 0.0 ==> whole <= split)
      && (Denominator(input) < 0.0 ==> split <= whole + 1)
    ensures d > 0.0 && e > 0.0 && !Free(input.(days := d)) ==>
      var split, whole := Fee(input.(days := d)) + Fee(input.(days := e)), Fee(input.(days := d + e));
      if Denominator(input) > 0.0 then split <= whole + Ceil(PerLedger(input)) + 1
      else whole + Ceil(PerLedger(input)) - 1 <= split
  {
    var a, b, s := input.(days := d), input.(days := e), input.(days := d + e);
    OnlyTheDaysDiffer(input, d);
    OnlyTheDaysDiffer(input, e);
    OnlyTheDaysDiffer(input, d + e);
    hide Fee, PerLedger, Ceil, Free, Denominator;
    if d > 0.0 && e > 0.0 {
      BothPeriods(input, d, e);
    } else if d <= 0.0 {
      FeeIsMonotone(s, b);
      NoTimeIsFree(a);
    } else {
      FeeIsMonotone(s, a);
      NoTimeIsFree(b);
    }
  }

  lemma NoTimeIsFree(input: RentProjectionInput)
    requires Denominator(input) != 0.0 && input.days <= 0.0
    ensures Fee(input) == 0
  {
    hide Denominator;
  }

  lemma BothPeriods(input: RentProjectionInput, d: real, e: real)
    requires Denominator(input) != 0.0 && d > 0.0 && e > 0.0
    ensures var split, whole := Fee(input.(days := d)) + Fee(input.(days := e)), Fee(input.(days := d + e));
      if Free(input.(days := d)) then split == whole == 0
      else if Denominator(input) > 0.0 then whole <= split <= whole + Ceil(PerLedger(input)) + 1
      else whole + Ceil(PerLedger(input)) - 1 <= split <= whole + 1
  {
    var c := PerLedger(input);
    var a, b, s := input.(days := d), input.(days := e), input.(days := d + e);
    OnlyTheDaysDiffer(input, d);
    OnlyTheDaysDiffer(input, e);
    OnlyTheDaysDiffer(input, d + e);
    hide Fee, PerLedger, Rate, Ledgers, Ceil, Free, Exact, Denominator;
    FreeIff(a);
    FreeIff(b);
    FreeIff(s);
    if !Free(a) {
      FeeIsRoundedOnce(a);
      FeeIsRoundedOnce(b);
      FeeIsRoundedOnce(s);
      LedgersOfSum(d, e);
      ExactOfSum(c, Ledgers(d), Ledgers(e), Ledgers(d + e));
      RoundedSums(c, Exact(c, Ledgers(d)), Exact(c, Ledgers(e)), Exact(c, Ledgers(d + e)));
    }
  }

  // The 90-day window is at most the 30-day plus the 60-day one, and short of them by at most
  // the rent of one ledger and one stroop; longer windows never cost less. Under a negative
  // denominator all of this is turned round, to within a stroop.
  lemma WindowsAgree(input: RentProjectionInput)
    requires Denominator(input) != 0.0
    ensures var w := ProjectRentWindows(input);
      var a, b, c := w[0].estimatedFeeStroops, w[1].estimatedFeeStroops, w[2].estimatedFeeStroops;
      if Denominator(input) > 0.0 then a <= b <= c <= a + b && b <= 2 * a
      else c <= b <= a && a + b <= c + 1 && 2 * a <= b + 1
    ensures var w := ProjectRentWindows(input);
      !Free(input.(days := 30.0)) ==>
        var split, whole := w[0].estimatedFeeStroops + w[1].estimatedFeeStroops, w[2].estimatedFeeStroops;
        if Denominator(input) > 0.0 then split <= whole + Ceil(PerLedger(input)) + 1
        else whole + Ceil(PerLedger(input)) - 1 <= split
  {
    OnlyTheDaysDiffer(input, 30.0);
    OnlyTheDaysDiffer(input, 60.0);
    OnlyTheDaysDiffer(input, 90.0);
    hide ProjectRentCost, Free, PerLedger, Ceil, Denominator;
    FeeIsMonotone(input.(days := 30.0), input.(days := 60.0));
    FeeIsMonotone(input.(days := 60.0), input.(days := 90.0));
    FeeOfSplitPeriod(input, 30.0, 60.0);
    FeeOfSplitPeriod(input, 30.0, 30.0);
  }
}
