// Decay-rate regression and crossing projection (src/core/predictive.ts).
// Doubles are modelled by exact reals; ledgers are integers.
module Predictive {
  import opened Common

  datatype TtlSample = TtlSample(sampledAtLedger: int, liveUntilLedger: int)

  // ---------------------------------------------------------------- the sums

  function SumX(s: seq<TtlSample>): int {
    if s == [] then 0 else SumX(s[..|s| - 1]) + s[|s| - 1].sampledAtLedger
  }

  function SumY(s: seq<TtlSample>): int {
    if s == [] then 0 else SumY(s[..|s| - 1]) + s[|s| - 1].liveUntilLedger
  }

  function SumXX(s: seq<TtlSample>): int {
    if s == [] then 0
    else SumXX(s[..|s| - 1]) + s[|s| - 1].sampledAtLedger * s[|s| - 1].sampledAtLedger
  }

  function SumXY(s: seq<TtlSample>): int {
    if s == [] then 0
    else SumXY(s[..|s| - 1]) + s[|s| - 1].sampledAtLedger * s[|s| - 1].liveUntilLedger
  }

  function Denom(s: seq<TtlSample>): int {
    |s| * SumXX(s) - SumX(s) * SumX(s)
  }

  function Numer(s: seq<TtlSample>): int {
    |s| * SumXY(s) - SumX(s) * SumY(s)
  }

  // The rate as a function of the sums; ComputeDecayRate below accumulates them in a loop.
  function DecayRate(s: seq<TtlSample>): (r: Option<real>)
    ensures r.None? <==> |s| < 2 || Denom(s) == 0
    ensures r.Some? ==> r.value >= 0.0
  {
    if |s| < 2 || Denom(s) == 0 then None
    else
      var slope := Numer(s) as real / Denom(s) as real;
      Some(if -slope > 0.0 then -slope else 0.0)
  }

  method ComputeDecayRate(samples: seq<TtlSample>) returns (rate: Option<real>)
    ensures rate == DecayRate(samples)
  {
    if |samples| < 2 {
      return None;
    }
    var n := |samples|;
    var sumX, sumY, sumXX, sumXY := 0, 0, 0, 0;
    for i := 0 to n
      invariant sumX == SumX(samples[..i]) && sumY == SumY(samples[..i])
      invariant sumXX == SumXX(samples[..i]) && sumXY == SumXY(samples[..i])
    {
      var s := samples[i];
      assert samples[..i + 1][..i] == samples[..i];
      sumX := sumX + s.sampledAtLedger;
      sumY := sumY + s.liveUntilLedger;
      sumXX := sumXX + s.sampledAtLedger * s.sampledAtLedger;
      sumXY := sumXY + s.sampledAtLedger * s.liveUntilLedger;
    }
    assert samples[..n] == samples;
    var denom := n * sumXX - sumX * sumX;
    if denom == 0 {
      return None;
    }
    var slope := (n * sumXY - sumX * sumY) as real / denom as real;
    rate := Some(if -slope > 0.0 then -slope else 0.0);
  }

  // ---------------------------------------------------------------- pairs of samples

  function DX(a: TtlSample, b: TtlSample): int {
    a.sampledAtLedger - b.sampledAtLedger
  }

  function DY(a: TtlSample, b: TtlSample): int {
    a.liveUntilLedger - b.liveUntilLedger
  }

  // The sum over the samples a of s of (ax - bx)^2, and of (ax - bx)(ay - by).
  function SquaresTo(s: seq<TtlSample>, b: TtlSample): int {
    if s == [] then 0
    else SquaresTo(s[..|s| - 1], b) + DX(s[|s| - 1], b) * DX(s[|s| - 1], b)
  }

  function ProductsTo(s: seq<TtlSample>, b: TtlSample): int {
    if s == [] then 0
    else ProductsTo(s[..|s| - 1], b) + DX(s[|s| - 1], b) * DY(s[|s| - 1], b)
  }

  // The sums over all pairs i < j.
  function PairSquares(s: seq<TtlSample>): int {
    if s == [] then 0
    else PairSquares(s[..|s| - 1]) + SquaresTo(s[..|s| - 1], s[|s| - 1])
  }

  function PairProducts(s: seq<TtlSample>): int {
    if s == [] then 0
    else PairProducts(s[..|s| - 1]) + ProductsTo(s[..|s| - 1], s[|s| - 1])
  }

  lemma {:induction false} SquaresExpand(s: seq<TtlSample>, b: TtlSample)
    ensures SquaresTo(s, b)
         == SumXX(s) - b.sampledAtLedger * SumX(s) - b.sampledAtLedger * SumX(s) + |s| * (b.sampledAtLedger * b.sampledAtLedger)
  {
    if s != [] {
      var t, a := s[..|s| - 1], s[|s| - 1];
      var x, y := a.sampledAtLedger, b.sampledAtLedger;
      SquaresExpand(t, b);
      OneMoreTerm(|t|, SumXX(t), SumX(t), SumX(t), x, x, y, y);
    }
  }

  lemma {:induction false} ProductsExpand(s: seq<TtlSample>, b: TtlSample)
    ensures ProductsTo(s, b)
         == SumXY(s) - b.liveUntilLedger * SumX(s) - b.sampledAtLedger * SumY(s)
            + |s| * (b.sampledAtLedger * b.liveUntilLedger)
  {
    if s != [] {
      var t, a := s[..|s| - 1], s[|s| - 1];
      var x, y, u, v := a.sampledAtLedger, a.liveUntilLedger, b.sampledAtLedger, b.liveUntilLedger;
      ProductsExpand(t, b);
      OneMoreTerm(|t|, SumXY(t), SumX(t), SumY(t), x, y, u, v);
    }
  }

  lemma OneMoreTerm(n: int, xy: int, sx: int, sy: int, x: int, y: int, u: int, v: int)
    ensures (xy - v * sx - u * sy + n * (u * v)) + (x - u) * (y - v)
         == (xy + x * y) - v * (sx + x) - u * (sy + y) + (n + 1) * (u * v)
  {
  }

  // The accumulators' denominator is the sum of the squared distances of all pairs.
  lemma {:induction false} DenomIsPairSquares(s: seq<TtlSample>)
    ensures Denom(s) == PairSquares(s)
  {
    if s != [] {
      var t, x := s[..|s| - 1], s[|s| - 1].sampledAtLedger;
      DenomIsPairSquares(t);
      SquaresExpand(t, s[|s| - 1]);
      Expand(|t|, SumXX(t), SumX(t), SumX(t), x, x);
      hide SumX, SumXX, SquaresTo;
    }
  }

  lemma {:induction false} NumerIsPairProducts(s: seq<TtlSample>)
    ensures Numer(s) == PairProducts(s)
  {
    if s != [] {
      var t, b := s[..|s| - 1], s[|s| - 1];
      NumerIsPairProducts(t);
      ProductsExpand(t, b);
      Expand(|t|, SumXY(t), SumX(t), SumY(t), b.sampledAtLedger, b.liveUntilLedger);
    }
  }

  lemma Expand(n: int, xy: int, sx: int, sy: int, x: int, y: int)
    ensures (n + 1) * (xy + x * y) - (sx + x) * (sy + y)
         == (n * xy - sx * sy) + (xy - y * sx - x * sy + n * (x * y))
  {
  }

  // ---------------------------------------------------------------- when a rate exists

  ghost predicate OneLedger(s: seq<TtlSample>) {
    forall i, j :: 0 <= i < j < |s| ==> s[i].sampledAtLedger == s[j].sampledAtLedger
  }

  lemma {:induction false} SquaresZeroIff(s: seq<TtlSample>, b: TtlSample)
    ensures SquaresTo(s, b) >= 0
    ensures SquaresTo(s, b) == 0 <==> forall i :: 0 <= i < |s| ==> s[i].sampledAtLedger == b.sampledAtLedger
  {
    if s != [] {
      var t, d := s[..|s| - 1], DX(s[|s| - 1], b);
      SquaresZeroIff(t, b);
      assert d * d >= 0 && (d * d == 0 <==> d == 0);
      assert forall i :: 0 <= i < |t| ==> t[i] == s[i];
    }
  }

  lemma {:induction false} PairSquaresZeroIff(s: seq<TtlSample>)
    ensures PairSquares(s) >= 0
    ensures PairSquares(s) == 0 <==> OneLedger(s)
  {
    if s != [] {
      var t, b := s[..|s| - 1], s[|s| - 1];
      PairSquaresZeroIff(t);
      SquaresZeroIff(t, b);
      assert forall i :: 0 <= i < |t| ==> t[i] == s[i];
    }
  }

  // null exactly for fewer than two samples or a single sampled ledger.
  lemma RateExistsIff(s: seq<TtlSample>)
    ensures DecayRate(s).None? <==> |s| < 2 || OneLedger(s)
  {
    DenomIsPairSquares(s);
    PairSquaresZeroIff(s);
  }

  // ---------------------------------------------------------------- the fitted slope

  function Slope(s: seq<TtlSample>): real
    requires Denom(s) != 0
  {
    Numer(s) as real / Denom(s) as real
  }

  function Combine(p: real, q: real, products: int, squares: int): real {
    p * products as real + q * squares as real
  }

  lemma CombineAdds(p: real, q: real, a: int, b: int, c: int, d: int)
    ensures Combine(p, q, a + b, c + d) == Combine(p, q, a, c) + Combine(p, q, b, d)
  {
  }

  ghost predicate NonNegativePair(a: TtlSample, b: TtlSample, p: real, q: real) {
    Combine(p, q, DX(a, b) * DY(a, b), DX(a, b) * DX(a, b)) >= 0.0
  }

  // A linear bound on every pair is a bound on the pair sums.
  lemma {:induction false} PairwiseTo(s: seq<TtlSample>, b: TtlSample, p: real, q: real)
    requires forall i :: 0 <= i < |s| ==> NonNegativePair(s[i], b, p, q)
    ensures Combine(p, q, ProductsTo(s, b), SquaresTo(s, b)) >= 0.0
  {
    if s != [] {
      var t, a := s[..|s| - 1], s[|s| - 1];
      assert forall i :: 0 <= i < |t| ==> t[i] == s[i];
      PairwiseTo(t, b, p, q);
      CombineAdds(p, q, ProductsTo(t, b), DX(a, b) * DY(a, b), SquaresTo(t, b), DX(a, b) * DX(a, b));
      assert NonNegativePair(a, b, p, q);
      hide Combine;
    }
  }

  lemma {:induction false} Pairwise(s: seq<TtlSample>, p: real, q: real)
    requires forall i, j :: 0 <= i < j < |s| ==> NonNegativePair(s[i], s[j], p, q)
    ensures Combine(p, q, PairProducts(s), PairSquares(s)) >= 0.0
  {
    if s != [] {
      var t, b := s[..|s| - 1], s[|s| - 1];
      assert forall i :: 0 <= i < |t| ==> t[i] == s[i];
      Pairwise(t, p, q);
      PairwiseTo(t, b, p, q);
      CombineAdds(p, q, PairProducts(t), ProductsTo(t, b), PairSquares(t), SquaresTo(t, b));
      hide Combine;
    }
  }

  ghost predicate SlopesWithin(s: seq<TtlSample>, lo: real, hi: real) {
    forall i, j :: 0 <= i < j < |s| && DX(s[i], s[j]) != 0 ==>
      lo <= DY(s[i], s[j]) as real / DX(s[i], s[j]) as real <= hi
  }

  lemma BoundedPair(a: TtlSample, b: TtlSample, lo: real, hi: real)
    requires DX(a, b) != 0 ==> lo <= DY(a, b) as real / DX(a, b) as real <= hi
    ensures NonNegativePair(a, b, 1.0, -lo) && NonNegativePair(a, b, -1.0, hi)
  {
  }

  // The least-squares slope lies between the least and the greatest pairwise slope.
  lemma SlopeIsBetweenPairwiseSlopes(s: seq<TtlSample>, lo: real, hi: real)
    requires Denom(s) != 0 && SlopesWithin(s, lo, hi)
    ensures lo <= Slope(s) <= hi
  {
    forall i, j | 0 <= i < j < |s|
      ensures NonNegativePair(s[i], s[j], 1.0, -lo) && NonNegativePair(s[i], s[j], -1.0, hi)
    {
      BoundedPair(s[i], s[j], lo, hi);
    }
    Pairwise(s, 1.0, -lo);
    Pairwise(s, -1.0, hi);
    DenomIsPairSquares(s);
    NumerIsPairProducts(s);
    PairSquaresZeroIff(s);
    hide Combine, Denom, Numer, SlopesWithin, NonNegativePair;
    BoundedQuotient(Numer(s), Denom(s), lo, hi);
  }

  lemma BoundedQuotient(n: int, d: int, lo: real, hi: real)
    requires d > 0 && Combine(1.0, -lo, n, d) >= 0.0 && Combine(-1.0, hi, n, d) >= 0.0
    ensures lo <= n as real / d as real <= hi
  {
  }

  lemma Quotient(n: int, d: int, lo: real, hi: real)
    requires d > 0 && lo * d as real <= n as real <= hi * d as real
    ensures lo <= n as real / d as real <= hi
  {
  }

  // ---------------------------------------------------------------- shifting

  function Shift(s: seq<TtlSample>, dx: int, dy: int): seq<TtlSample> {
    seq(|s|, i requires 0 <= i < |s| => TtlSample(s[i].sampledAtLedger + dx, s[i].liveUntilLedger + dy))
  }

  lemma {:induction false} ShiftKeepsPairsTo(s: seq<TtlSample>, b: TtlSample, dx: int, dy: int)
    ensures var b' := TtlSample(b.sampledAtLedger + dx, b.liveUntilLedger + dy);
      && SquaresTo(Shift(s, dx, dy), b') == SquaresTo(s, b)
      && ProductsTo(Shift(s, dx, dy), b') == ProductsTo(s, b)
  {
    if s != [] {
      assert Shift(s, dx, dy)[..|s| - 1] == Shift(s[..|s| - 1], dx, dy);
      ShiftKeepsPairsTo(s[..|s| - 1], b, dx, dy);
    }
  }

  lemma {:induction false} ShiftKeepsPairs(s: seq<TtlSample>, dx: int, dy: int)
    ensures PairSquares(Shift(s, dx, dy)) == PairSquares(s) && PairProducts(Shift(s, dx, dy)) == PairProducts(s)
  {
    if s != [] {
      assert Shift(s, dx, dy)[..|s| - 1] == Shift(s[..|s| - 1], dx, dy);
      ShiftKeepsPairs(s[..|s| - 1], dx, dy);
      ShiftKeepsPairsTo(s[..|s| - 1], s[|s| - 1], dx, dy);
    }
  }

  // Only ledger differences matter.
  lemma ShiftKeepsRate(s: seq<TtlSample>, dx: int, dy: int)
    ensures DecayRate(Shift(s, dx, dy)) == DecayRate(s)
  {
    DenomIsPairSquares(s);
    NumerIsPairProducts(s);
    DenomIsPairSquares(Shift(s, dx, dy));
    NumerIsPairProducts(Shift(s, dx, dy));
    ShiftKeepsPairs(s, dx, dy);
  }

  // ---------------------------------------------------------------- projection

  // Math.round: the nearest integer, halves upwards.
  function Round(x: real): (n: int)
    ensures x - 0.5 < n as real <= x + 0.5
  {
    (x + 0.5).Floor
  }

  function ProjectCrossingLedger(rate: Option<real>, remaining: int, threshold: int, current: int): (r: Option<int>)
    ensures r.None? <==> rate.None? || rate.value == 0.0
    ensures r.Some? ==> r.value >= 0
  {
    if rate.None? || rate.value == 0.0 then None
    else
      var n := Round(current as real + (remaining - threshold) as real / rate.value);
      Some(if n > 0 then n else 0)
  }

  // A line that falls by r per ledger.
  function Line(c: real, r: real, ledger: real): real {
    c - r * ledger
  }

  ghost predicate OnLine(s: seq<TtlSample>, c: real, r: real) {
    forall i :: 0 <= i < |s| ==> s[i].liveUntilLedger as real == Line(c, r, s[i].sampledAtLedger as real)
  }

  lemma SlopeOfLine(c: real, r: real, x: real, y: real)
    requires x != y
    ensures ((c - r * x) - (c - r * y)) / (x - y) == -r
  {
  }

  lemma LineSlopes(s: seq<TtlSample>, c: real, r: real)
    requires OnLine(s, c, r)
    ensures SlopesWithin(s, -r, -r)
  {
    forall i, j | 0 <= i < j < |s| && DX(s[i], s[j]) != 0
      ensures -r <= DY(s[i], s[j]) as real / DX(s[i], s[j]) as real <= -r
    {
      var a, b := s[i], s[j];
      assert DX(a, b) as real == a.sampledAtLedger as real - b.sampledAtLedger as real;
      assert DY(a, b) as real == a.liveUntilLedger as real - b.liveUntilLedger as real;
      SlopeOfLine(c, r, a.sampledAtLedger as real, b.sampledAtLedger as real);
    }
  }

  // Samples on a falling line are fitted exactly.
  lemma FallingLineRate(s: seq<TtlSample>, c: real, r: real)
    requires |s| >= 2 && !OneLedger(s) && OnLine(s, c, r) && r > 0.0
    ensures DecayRate(s) == Some(r)
  {
    RateExistsIff(s);
    LineSlopes(s, c, r);
    SlopeIsBetweenPairwiseSlopes(s, -r, -r);
  }

  // A projection rounds its exact value and clamps it at 0.
  lemma ProjectionRounds(r: real, remaining: int, threshold: int, current: int, at: real)
    requires r != 0.0 && at == current as real + (remaining - threshold) as real / r
    ensures var p := ProjectCrossingLedger(Some(r), remaining, threshold, current);
      && p.Some?
      && (at >= 0.0 ==> at - 0.5 < p.value as real <= at + 0.5)
      && (at < 0.0 ==> p.value == 0)
  {
    hide Round;
  }

  // End to end, with samples of the remaining TTL: the projection is within half a ledger of
  // the ledger where the line reaches the threshold, clamped at 0.
  lemma ProjectionHitsCrossing(s: seq<TtlSample>, c: real, r: real, current: int, remaining: int, threshold: int, crossing: real)
    requires |s| >= 2 && !OneLedger(s) && OnLine(s, c, r) && r > 0.0
    requires remaining as real == Line(c, r, current as real) && threshold as real == Line(c, r, crossing)
    ensures var p := ProjectCrossingLedger(DecayRate(s), remaining, threshold, current);
      && p.Some?
      && (crossing >= 0.0 ==> crossing - 0.5 < p.value as real <= crossing + 0.5)
      && (crossing < 0.0 ==> p.value == 0)
  {
    FallingLineRate(s, c, r);
    hide DecayRate, OnLine, OneLedger, ProjectCrossingLedger, Line;
    OnTime(c, r, current as real, remaining as real, threshold as real, crossing);
    ProjectionRounds(r, remaining, threshold, current, crossing);
  }

  lemma OnTime(c: real, r: real, now: real, remaining: real, threshold: real, crossing: real)
    requires r > 0.0 && remaining == Line(c, r, now) && threshold == Line(c, r, crossing)
    ensures crossing == now + (remaining - threshold) / r
  {
    LineGap(c, r, now, crossing);
    DivideOut(remaining - threshold, r, crossing - now);
  }

  lemma LineGap(c: real, r: real, now: real, crossing: real)
    ensures (c - r * now) - (c - r * crossing) == r * (crossing - now)
  {
  }

  lemma DivideOut(a: real, r: real, b: real)
    requires r > 0.0 && a == r * b
    ensures a / r == b
  {
  }

  // ---------------------------------------------------------------- absolute samples

  ghost predicate NeverFalls(s: seq<TtlSample>) {
    forall i, j :: 0 <= i < |s| && 0 <= j < |s| && s[i].sampledAtLedger < s[j].sampledAtLedger ==>
      s[i].liveUntilLedger <= s[j].liveUntilLedger
  }

  // The monitor samples the absolute live-until ledger, which only extensions move, upwards.
  // Such samples give no projection at all.
  lemma NonFallingSamplesGiveNoProjection(s: seq<TtlSample>, remaining: int, threshold: int, current: int)
    requires NeverFalls(s)
    ensures DecayRate(s).None? || DecayRate(s) == Some(0.0)
    ensures ProjectCrossingLedger(DecayRate(s), remaining, threshold, current).None?
  {
    if DecayRate(s).Some? {
      forall i, j | 0 <= i < j < |s|
        ensures NonNegativePair(s[i], s[j], 1.0, 0.0)
      {
        SameSign(DX(s[i], s[j]), DY(s[i], s[j]));
      }
      Pairwise(s, 1.0, 0.0);
      DenomIsPairSquares(s);
      NumerIsPairProducts(s);
      PairSquaresZeroIff(s);
      Quotient(Numer(s), Denom(s), 0.0, Numer(s) as real / Denom(s) as real);
    }
  }

  lemma SameSign(x: int, y: int)
    requires (x > 0 ==> y >= 0) && (x < 0 ==> y <= 0)
    ensures x * y >= 0
  {
  }

  // A projection exists exactly when the pairs' products are negative on balance.
  lemma ProjectionExistsIff(s: seq<TtlSample>, remaining: int, threshold: int, current: int)
    ensures ProjectCrossingLedger(DecayRate(s), remaining, threshold, current).Some?
        <==> PairProducts(s) < 0
  {
    DenomIsPairSquares(s);
    NumerIsPairProducts(s);
    PairSquaresZeroIff(s);
    RateExistsIff(s);
    if OneLedger(s) {
      OneLedgerProducts(s);
    } else {
      assert Denom(s) > 0 && Numer(s) == PairProducts(s);
      hide Denom, Numer, PairProducts, PairSquares, OneLedger;
      SignOfQuotient(Numer(s), Denom(s));
    }
  }

  lemma SignOfQuotient(n: int, d: int)
    requires d > 0
    ensures n as real / d as real < 0.0 <==> n < 0
  {
  }

  lemma {:induction false} OneLedgerProducts(s: seq<TtlSample>)
    requires OneLedger(s)
    ensures PairProducts(s) == 0
  {
    if s != [] {
      var t, b := s[..|s| - 1], s[|s| - 1];
      assert forall i :: 0 <= i < |t| ==> t[i] == s[i];
      OneLedgerProducts(t);
      OneLedgerProductsTo(t, b);
    }
  }

  lemma {:induction false} OneLedgerProductsTo(s: seq<TtlSample>, b: TtlSample)
    requires forall i :: 0 <= i < |s| ==> s[i].sampledAtLedger == b.sampledAtLedger
    ensures ProductsTo(s, b) == 0
  {
    if s != [] {
      assert forall i :: 0 <= i < |s| - 1 ==> s[..|s| - 1][i] == s[i];
      OneLedgerProductsTo(s[..|s| - 1], b);
    }
  }

  function Delay(gap: real, r: real): real
    requires r > 0.0
  {
    gap / (r * (1.0 + r))
  }

  lemma LateBy(gap: real, r: real)
    requires r > 0.0
    ensures gap / r == gap / (1.0 + r) + Delay(gap, r)
  {
  }

  // Were absolute samples to fall by r per ledger, the remaining TTL would fall by 1 + r, and
  // the projection would come Delay(gap, r) ledgers after the true crossing, to within half
  // a ledger, where gap is what the remaining TTL still has above the threshold.
  lemma AbsoluteSamplesProjectLate(
    s: seq<TtlSample>, c: real, r: real, current: int, remaining: int, threshold: int, crossing: real)
    requires |s| >= 2 && !OneLedger(s) && OnLine(s, c, r) && r > 0.0
    requires remaining as real == Line(c, r, current as real) - current as real
    requires threshold as real == Line(c, r, crossing) - crossing
    ensures var p := ProjectCrossingLedger(DecayRate(s), remaining, threshold, current);
      var at := crossing + Delay((remaining - threshold) as real, r);
      && p.Some?
      && (at >= 0.0 ==> at - 0.5 < p.value as real <= at + 0.5)
      && (at < 0.0 ==> p.value == 0)
  {
    FallingLineRate(s, c, r);
    hide DecayRate, OnLine, OneLedger, ProjectCrossingLedger, Line, Delay;
    LateCrossing(c, r, current as real, remaining as real, threshold as real, crossing);
    ProjectionRounds(r, remaining, threshold, current, crossing + Delay((remaining - threshold) as real, r));
  }

  lemma LateCrossing(c: real, r: real, now: real, remaining: real, threshold: real, crossing: real)
    requires r > 0.0 && remaining == Line(c, r, now) - now && threshold == Line(c, r, crossing) - crossing
    ensures now + (remaining - threshold) / r == crossing + Delay(remaining - threshold, r)
  {
    GapOf(c, r, now, crossing);
    DivideOut(remaining - threshold, 1.0 + r, crossing - now);
    LateBy(remaining - threshold, r);
  }

  lemma GapOf(c: real, r: real, now: real, crossing: real)
    ensures (c - r * now - now) - (c - r * crossing - crossing) == (1.0 + r) * (crossing - now)
  {
  }

  // ---------------------------------------------------------------- what the monitor records

  // The readings of an entry, one per monitoring cycle, that only extensions have changed.
  ghost predicate OnlyExtended(readings: seq<TtlSample>) {
    forall i, j :: 0 <= i < j < |readings| ==>
      && readings[i].sampledAtLedger <= readings[j].sampledAtLedger
      && readings[i].liveUntilLedger <= readings[j].liveUntilLedger
  }

  // Whichever of them are kept, and in whatever order they are fetched, they never fall.
  lemma RecordedSamplesNeverFall(readings: seq<TtlSample>, samples: seq<TtlSample>)
    requires OnlyExtended(readings) && forall s :: s in samples ==> s in readings
    ensures NeverFalls(samples)
  {
    forall i, j | 0 <= i < |samples| && 0 <= j < |samples| && samples[i].sampledAtLedger < samples[j].sampledAtLedger
      ensures samples[i].liveUntilLedger <= samples[j].liveUntilLedger
    {
      assert samples[i] in readings && samples[j] in readings;
      var k :| 0 <= k < |readings| && readings[k] == samples[i];
      var l :| 0 <= l < |readings| && readings[l] == samples[j];
      assert k < l;
    }
  }
}
