// formatTokenBalance (src/core/inspect.ts): an integer amount printed with a number of
// decimals. Amounts are BigInt in the source, so unbounded here.
module TokenFormat {
  import opened Common

  function Pow10(k: nat): (p: nat)
    ensures p >= 1
  {
    if k == 0 then 1 else 10 * Pow10(k - 1)
  }

  // BigInt's / and % on non-negative numbers.
  function Quotient(n: nat, p: nat): (q: nat)
    requires p > 0
  {
    n / p
  }

  function Remainder(n: nat, p: nat): (r: nat)
    requires p > 0
    ensures r < p
  {
    n % p
  }

  function DigitChar(d: nat): (c: char)
    requires d < 10
    ensures '0' <= c <= '9'
  {
    '0' + d as char
  }

  // BigInt's toString for a non-negative number.
  function ToString(n: nat): (s: string)
    ensures s != []
  {
    if n < 10 then [DigitChar(n)] else ToString(n / 10) + [DigitChar(n % 10)]
  }

  function Zeros(k: nat): (s: string)
    ensures |s| == k
  {
    seq(k, _ => '0')
  }

  function PadStart(s: string, width: nat): string {
    if |s| >= width then s else Zeros(width - |s|) + s
  }

  // replace(/0+$/, "")
  function TrimZeros(s: string): string {
    if s != [] && s[|s| - 1] == '0' then TrimZeros(s[..|s| - 1]) else s
  }

  function FormatTokenBalance(amount: int, decimals: nat): string {
    var isNegative := amount < 0;
    var absAmount: nat := if isNegative then -amount else amount;
    var divisor := Pow10(decimals);
    var integerPart, remainder := Quotient(absAmount, divisor), Remainder(absAmount, divisor);
    var result := ToString(integerPart);
    var trimmedRemainder := TrimZeros(PadStart(ToString(remainder), decimals));
    var result' := if decimals > 0 && |trimmedRemainder| > 0 then result + "." + trimmedRemainder else result;
    if isNegative then "-" + result' else result'
  }

  // ---------------------------------------------------------------- reading a decimal back

  predicate AllDigits(s: string) {
    forall i :: 0 <= i < |s| ==> '0' <= s[i] <= '9'
  }

  function Value(s: string): nat
    requires AllDigits(s)
  {
    if s == [] then 0 else 10 * Value(s[..|s| - 1]) + (s[|s| - 1] as int - '0' as int)
  }

  // The index of the decimal point, or the length.
  function PointAt(s: string): (i: nat)
    ensures i <= |s| && (i < |s| ==> s[i] == '.') && forall j :: 0 <= j < i ==> s[j] != '.'
  {
    if s == [] || s[0] == '.' then 0 else 1 + PointAt(s[1..])
  }

  function IntegerPart(s: string): string {
    s[..PointAt(s)]
  }

  function FractionPart(s: string): string {
    if PointAt(s) < |s| then s[PointAt(s) + 1..] else []
  }

  function ParseUnsigned(s: string, decimals: nat): Option<nat> {
    var ip, fp := IntegerPart(s), FractionPart(s);
    if ip != [] && AllDigits(ip) && AllDigits(fp) && |fp| <= decimals
    then Some(Value(ip) * Pow10(decimals) + Value(fp) * Pow10(decimals - |fp|))
    else None
  }

  function Negated(n: int): int {
    -n
  }

  function Parse(s: string, decimals: nat): Option<int> {
    if s != [] && s[0] == '-' then
      var r := ParseUnsigned(s[1..], decimals);
      if r.Some? then Some(Negated(r.value)) else None
    else
      var r := ParseUnsigned(s, decimals);
      if r.Some? then Some(r.value) else None
  }

  // No superfluous zeros in front, none at the end of a fraction, no bare point, no "-0".
  ghost predicate CanonicalUnsigned(s: string, decimals: nat) {
    var ip, fp := IntegerPart(s), FractionPart(s);
    && ip != [] && AllDigits(ip) && (|ip| > 1 ==> ip[0] != '0')
    && (PointAt(s) < |s| ==> fp != [] && AllDigits(fp) && fp[|fp| - 1] != '0' && |fp| <= decimals)
  }

  ghost predicate Canonical(s: string, decimals: nat) {
    if s != [] && s[0] == '-' then CanonicalUnsigned(s[1..], decimals) && s[1..] != "0"
    else CanonicalUnsigned(s, decimals)
  }

  // ---------------------------------------------------------------- digits

  lemma {:induction false} ToStringValue(n: nat)
    ensures AllDigits(ToString(n)) && Value(ToString(n)) == n
    ensures |ToString(n)| > 1 ==> ToString(n)[0] != '0'
    ensures n > 0 ==> ToString(n)[0] != '0'
  {
    if n >= 10 {
      ToStringValue(n / 10);
      assert ToString(n)[..|ToString(n)| - 1] == ToString(n / 10);
    } else {
      assert ToString(n)[..0] == [];
    }
  }

  lemma {:induction false} ValueBound(s: string)
    requires AllDigits(s)
    ensures Value(s) < Pow10(|s|)
  {
    if s != [] {
      ValueBound(s[..|s| - 1]);
    }
  }

  lemma {:induction false} SameDigits(a: string, b: string)
    requires AllDigits(a) && AllDigits(b) && |a| == |b| && Value(a) == Value(b)
    ensures a == b
  {
    if a != [] {
      assert Value(a) == 10 * Value(a[..|a| - 1]) + (a[|a| - 1] as int - '0' as int);
      assert Value(b) == 10 * Value(b[..|b| - 1]) + (b[|b| - 1] as int - '0' as int);
      hide Value;
      SameDigits(a[..|a| - 1], b[..|b| - 1]);
      assert a == a[..|a| - 1] + [a[|a| - 1]] && b == b[..|b| - 1] + [b[|b| - 1]];
    }
  }

  lemma {:induction false} ValueOfLeadingZeros(k: nat, s: string)
    requires AllDigits(s)
    ensures AllDigits(Zeros(k) + s) && Value(Zeros(k) + s) == Value(s)
  {
    if s != [] {
      assert (Zeros(k) + s)[..k + |s| - 1] == Zeros(k) + s[..|s| - 1];
      ValueOfLeadingZeros(k, s[..|s| - 1]);
    } else {
      assert Zeros(k) + s == Zeros(k);
      if k > 0 {
        assert Zeros(k)[..k - 1] == Zeros(k - 1) + [];
        ValueOfLeadingZeros(k - 1, []);
      }
    }
  }

  lemma {:induction false} ValueOfTrailingZeros(s: string, k: nat)
    requires AllDigits(s)
    ensures AllDigits(s + Zeros(k)) && Value(s + Zeros(k)) == Value(s) * Pow10(k)
  {
    if k == 0 {
      assert s + Zeros(0) == s;
    } else {
      assert (s + Zeros(k))[..|s| + k - 1] == s + Zeros(k - 1);
      ValueOfTrailingZeros(s, k - 1);
      assert 10 * (Value(s) * Pow10(k - 1)) == Value(s) * (10 * Pow10(k - 1));
    }
  }

  // Numbers below 10^w have at most w digits.
  lemma {:induction false} Width(n: nat, w: nat)
    requires n < Pow10(w) && w > 0
    ensures |ToString(n)| <= w
  {
    if n >= 10 {
      Width(n / 10, w - 1);
    }
  }

  lemma PaddedRemainder(r: nat, w: nat)
    requires r < Pow10(w) && w > 0
    ensures var p := PadStart(ToString(r), w); |p| == w && AllDigits(p) && Value(p) == r
  {
    Width(r, w);
    ToStringValue(r);
    ValueOfLeadingZeros(w - |ToString(r)|, ToString(r));
    assert Zeros(0) + ToString(r) == ToString(r);
  }

  lemma {:induction false} TrimSplits(s: string)
    ensures var t := TrimZeros(s);
      && |t| <= |s| && s == t + Zeros(|s| - |t|)
      && (t != [] ==> t[|t| - 1] != '0')
  {
    if s != [] && s[|s| - 1] == '0' {
      TrimSplits(s[..|s| - 1]);
    }
  }

  // ---------------------------------------------------------------- one unsigned number

  function FormatUnsigned(n: nat, decimals: nat): string {
    FormatTokenBalance(n, decimals)
  }

  lemma PointBetween(a: string, b: string)
    requires AllDigits(a)
    ensures PointAt(a) == |a| && PointAt(a + "." + b) == |a|
  {
    var s := a + "." + b;
    assert s[|a|] == '.';
    assert forall j :: 0 <= j < |a| ==> s[j] == a[j];
  }

  lemma DigitsOfPrefix(a: string, b: string)
    requires AllDigits(a + b)
    ensures AllDigits(a)
  {
    assert forall j :: 0 <= j < |a| ==> a[j] == (a + b)[j];
  }

  // The trimmed fraction of a remainder.
  lemma TrimmedRemainder(r: nat, decimals: nat)
    requires r < Pow10(decimals) && decimals > 0
    ensures var t := TrimZeros(PadStart(ToString(r), decimals));
      && AllDigits(t) && |t| <= decimals && (t != [] ==> t[|t| - 1] != '0')
      && Value(t) * Pow10(decimals - |t|) == r
  {
    var p := PadStart(ToString(r), decimals);
    var t := TrimZeros(p);
    PaddedRemainder(r, decimals);
    TrimSplits(p);
    assert |p| == decimals && AllDigits(p) && Value(p) == r && p == t + Zeros(decimals - |t|);
    hide PadStart, TrimZeros, Value, Pow10, ToString;
    DigitsOfPrefix(t, Zeros(decimals - |t|));
    hide Zeros;
    ValueOfTrailingZeros(t, decimals - |t|);
  }

  lemma PartsOf(a: string, b: string)
    requires AllDigits(a)
    ensures PointAt(a) == |a| && IntegerPart(a) == a && FractionPart(a) == []
    ensures var s := a + "." + b; PointAt(s) == |a| && IntegerPart(s) == a && FractionPart(s) == b
  {
    PointBetween(a, b);
    var s := a + "." + b;
    assert PointAt(s) == |a|;
    hide PointAt;
    assert s[..|a|] == a && s[|a| + 1..] == b;
  }

  lemma NoDecimals(n: nat)
    ensures var s := FormatUnsigned(n, 0);
      && s == ToString(Quotient(n, Pow10(0))) && IntegerPart(s) == s && FractionPart(s) == [] && PointAt(s) == |s|
      && AllDigits(s) && Value([]) * Pow10(0) == Remainder(n, Pow10(0))
  {
    var s := FormatUnsigned(n, 0);
    assert s == ToString(Quotient(n, Pow10(0)));
    assert Value([]) == 0 && Remainder(n, Pow10(0)) == 0;
    hide FormatUnsigned, FormatTokenBalance, PointAt, IntegerPart, FractionPart, Value;
    ToStringValue(Quotient(n, Pow10(0)));
    hide ToString;
    PartsOf(s, []);
  }

  // The parts of a printed number, and what they are worth.
  lemma UnsignedParts(n: nat, decimals: nat)
    ensures var s := FormatUnsigned(n, decimals); var ip, fp := IntegerPart(s), FractionPart(s);
      && ip == ToString(Quotient(n, Pow10(decimals))) && AllDigits(ip)
      && AllDigits(fp) && |fp| <= decimals && (fp != [] ==> fp[|fp| - 1] != '0')
      && (PointAt(s) < |s| <==> fp != [])
      && Value(fp) * Pow10(decimals - |fp|) == Remainder(n, Pow10(decimals))
  {
    hide Value, TrimZeros, PadStart, ToString, PointAt, IntegerPart, FractionPart;
    var i, r := Quotient(n, Pow10(decimals)), Remainder(n, Pow10(decimals));
    var s := FormatUnsigned(n, decimals);
    ToStringValue(i);
    if decimals == 0 {
      NoDecimals(n);
    } else {
      var t := TrimZeros(PadStart(ToString(r), decimals));
      assert s == if t == [] then ToString(i) else ToString(i) + "." + t;
      hide FormatUnsigned, FormatTokenBalance, ToString, PointAt, IntegerPart, FractionPart, Quotient, Value,
           Remainder, TrimZeros, PadStart, Pow10;
      TrimmedRemainder(r, decimals);
      PartsOf(ToString(i), t);
    }
  }

  lemma QuotientRemainder(n: nat, p: nat)
    requires p > 0
    ensures n == Quotient(n, p) * p + Remainder(n, p)
  {
  }

  lemma UnsignedRoundTrip(n: nat, decimals: nat)
    ensures ParseUnsigned(FormatUnsigned(n, decimals), decimals) == Some(n)
    ensures CanonicalUnsigned(FormatUnsigned(n, decimals), decimals)
    ensures var s := FormatUnsigned(n, decimals); s != [] && s[0] != '-'
  {
    var s := FormatUnsigned(n, decimals);
    UnsignedParts(n, decimals);
    ToStringValue(Quotient(n, Pow10(decimals)));
    QuotientRemainder(n, Pow10(decimals));
    assert IntegerPart(s) != [] && IntegerPart(s)[0] == s[0];
    hide FormatUnsigned, FormatTokenBalance, ToString, PointAt, IntegerPart, FractionPart, Quotient, Value,
         Remainder, TrimZeros, PadStart, Pow10;
  }

  // ---------------------------------------------------------------- the printer

  lemma SignedForm(amount: int, decimals: nat)
    ensures FormatTokenBalance(amount, decimals)
         == if amount < 0 then "-" + FormatUnsigned(-amount, decimals) else FormatUnsigned(amount, decimals)
  {
  }

  // A decimal reader recovers the amount, for every sign, size and number of decimals.
  lemma FormatRoundTrips(amount: int, decimals: nat)
    ensures Parse(FormatTokenBalance(amount, decimals), decimals) == Some(amount)
  {
    SignedForm(amount, decimals);
    var n := if amount < 0 then -amount else amount;
    UnsignedRoundTrip(n, decimals);
    assert ("-" + FormatUnsigned(n, decimals))[1..] == FormatUnsigned(n, decimals);
  }

  lemma FormatIsCanonical(amount: int, decimals: nat)
    ensures Canonical(FormatTokenBalance(amount, decimals), decimals)
  {
    SignedForm(amount, decimals);
    var n := if amount < 0 then -amount else amount;
    UnsignedRoundTrip(n, decimals);
    assert ("-" + FormatUnsigned(n, decimals))[1..] == FormatUnsigned(n, decimals);
    if amount < 0 && FormatUnsigned(n, decimals) == "0" {
      ZeroParses(decimals);
    }
  }

  lemma ZeroParses(decimals: nat)
    ensures ParseUnsigned("0", decimals) == Some(0)
  {
  }

  lemma FormatIsInjective(a: int, b: int, decimals: nat)
    requires FormatTokenBalance(a, decimals) == FormatTokenBalance(b, decimals)
    ensures a == b
  {
    FormatRoundTrips(a, decimals);
    FormatRoundTrips(b, decimals);
  }

  // ---------------------------------------------------------------- only one canonical form

  lemma {:induction false} CanonicalDigits(s: string)
    requires AllDigits(s) && s != [] && (|s| > 1 ==> s[0] != '0')
    ensures ToString(Value(s)) == s
  {
    var front := s[..|s| - 1];
    if front == [] {
      assert Value(front) == 0;
      assert s == [s[0]];
    } else {
      LeadingDigit(front);
      CanonicalDigits(front);
      assert s == front + [s[|s| - 1]];
    }
  }

  lemma {:induction false} LeadingDigit(s: string)
    requires AllDigits(s) && s != [] && s[0] != '0'
    ensures Value(s) > 0
  {
    if |s| > 1 {
      LeadingDigit(s[..|s| - 1]);
    }
  }

  // A fraction padded to full width is worth less than one unit, and more digits of it are exact.
  lemma FractionValue(fp: string, decimals: nat)
    requires AllDigits(fp) && |fp| <= decimals
    ensures var rest := fp + Zeros(decimals - |fp|);
      && AllDigits(rest) && |rest| == decimals && Value(rest) < Pow10(decimals)
      && Value(rest) == Value(fp) * Pow10(decimals - |fp|)
  {
    ValueOfTrailingZeros(fp, decimals - |fp|);
    ValueBound(fp + Zeros(decimals - |fp|));
  }

  lemma UnsignedCanonicalIsPrinted(s: string, decimals: nat)
    requires CanonicalUnsigned(s, decimals)
    ensures ParseUnsigned(s, decimals).Some? && FormatUnsigned(ParseUnsigned(s, decimals).value, decimals) == s
  {
    var ip, fp := IntegerPart(s), FractionPart(s);
    assert AllDigits(fp) && |fp| <= decimals;
    var n := ParseUnsigned(s, decimals).value;
    assert n == Value(ip) * Pow10(decimals) + Value(fp) * Pow10(decimals - |fp|);
    assert (PointAt(s) < |s| <==> fp != []) && (fp != [] ==> fp[|fp| - 1] != '0');
    hide ParseUnsigned, FormatUnsigned, FormatTokenBalance, ToString, PointAt, IntegerPart, FractionPart,
         Quotient, Value, Remainder, TrimZeros, PadStart, Pow10, Zeros;
    var p, rest := Pow10(decimals), fp + Zeros(decimals - |fp|);
    FractionValue(fp, decimals);
    DivMod(Value(ip), Value(rest), p);
    assert Quotient(n, p) == Value(ip) && Remainder(n, p) == Value(rest);
    CanonicalDigits(ip);
    SameAsPrinted(n, decimals, s);
  }

  // A canonical string with the printed number's value in each part is the printed string.
  lemma SameAsPrinted(n: nat, decimals: nat, s: string)
    requires var ip, fp := IntegerPart(s), FractionPart(s);
      && ip == ToString(Quotient(n, Pow10(decimals)))
      && AllDigits(fp) && |fp| <= decimals && (fp != [] ==> fp[|fp| - 1] != '0')
      && (PointAt(s) < |s| <==> fp != [])
      && Value(fp + Zeros(decimals - |fp|)) == Remainder(n, Pow10(decimals))
    ensures s == FormatUnsigned(n, decimals)
  {
    var s', fp := FormatUnsigned(n, decimals), FractionPart(s);
    var fp' := FractionPart(s');
    Reassemble(s);
    Reassemble(s');
    hide FormatUnsigned, FormatTokenBalance, ToString, PointAt, IntegerPart, FractionPart, Quotient, Value,
         Remainder, TrimZeros, PadStart, Pow10, Zeros;
    UnsignedParts(n, decimals);
    FractionValue(fp', decimals);
    FractionValue(fp, decimals);
    SameDigits(fp + Zeros(decimals - |fp|), fp' + Zeros(decimals - |fp'|));
    SameTrimmed(fp, fp', decimals);
  }

  lemma MulAtLeast(k: int, p: nat)
    requires k >= 1
    ensures k * p >= p
  {
  }

  lemma DivMod(a: nat, b: nat, p: nat)
    requires b < p
    ensures Quotient(a * p + b, p) == a && Remainder(a * p + b, p) == b
  {
    var n := a * p + b;
    QuotientRemainder(n, p);
    var q, r := Quotient(n, p), Remainder(n, p);
    hide Quotient, Remainder;
    assert (a - q) * p == r - b;
    if q < a {
      MulAtLeast(a - q, p);
    } else if q > a {
      assert (q - a) * p == b - r;
      MulAtLeast(q - a, p);
    }
  }

  lemma NotLonger(a: string, b: string, w: nat)
    requires |a| <= w && |b| <= w && a + Zeros(w - |a|) == b + Zeros(w - |b|)
    requires b != [] ==> b[|b| - 1] != '0'
    ensures |b| <= |a|
  {
    var x := a + Zeros(w - |a|);
    assert forall k :: |a| <= k < w ==> x[k] == '0';
    assert b != [] ==> x[|b| - 1] == b[|b| - 1];
  }

  lemma SameTrimmed(a: string, b: string, w: nat)
    requires |a| <= w && |b| <= w && a + Zeros(w - |a|) == b + Zeros(w - |b|)
    requires (a != [] ==> a[|a| - 1] != '0') && (b != [] ==> b[|b| - 1] != '0')
    ensures a == b
  {
    NotLonger(a, b, w);
    NotLonger(b, a, w);
    assert a == (a + Zeros(w - |a|))[..|a|] && b == (b + Zeros(w - |b|))[..|b|];
  }

  lemma SplitAtPoint(s: string, i: nat)
    requires i < |s| && s[i] == '.'
    ensures s == s[..i] + "." + s[i + 1..]
  {
  }

  lemma Reassemble(s: string)
    ensures s == if PointAt(s) < |s| then IntegerPart(s) + "." + FractionPart(s) else IntegerPart(s)
  {
    hide PointAt;
    if PointAt(s) < |s| {
      SplitAtPoint(s, PointAt(s));
    }
  }

  lemma NegativeIsPrinted(u: string, decimals: nat)
    requires CanonicalUnsigned(u, decimals) && u != "0"
    ensures Parse("-" + u, decimals).Some?
    ensures FormatTokenBalance(Parse("-" + u, decimals).value, decimals) == "-" + u
  {
    UnsignedCanonicalIsPrinted(u, decimals);
    var n: int := ParseUnsigned(u, decimals).value;
    if n == 0 {
      ZeroForm(decimals);
    }
    SignedForm(-n, decimals);
    hide FormatTokenBalance, CanonicalUnsigned, ParseUnsigned, FormatUnsigned;
    assert ("-" + u)[1..] == u;
    assert Parse("-" + u, decimals) == Some(-n);
  }

  lemma CanonicalIsNotEmpty(decimals: nat)
    ensures !Canonical([], decimals)
  {
  }

  // The printer's strings are exactly the canonical ones: printing and reading are inverse.
  lemma CanonicalIsPrinted(s: string, decimals: nat)
    requires Canonical(s, decimals)
    ensures Parse(s, decimals).Some? && FormatTokenBalance(Parse(s, decimals).value, decimals) == s
  {
    CanonicalIsNotEmpty(decimals);
    if s[0] == '-' {
      hide Parse, FormatTokenBalance, CanonicalUnsigned;
      assert s == "-" + s[1..];
      NegativeIsPrinted(s[1..], decimals);
    } else {
      UnsignedCanonicalIsPrinted(s, decimals);
      var n: int := ParseUnsigned(s, decimals).value;
      SignedForm(n, decimals);
      hide FormatTokenBalance, CanonicalUnsigned, ParseUnsigned, FormatUnsigned;
    }
  }

  lemma ZeroForm(decimals: nat)
    ensures FormatUnsigned(0, decimals) == "0"
  {
    ZeroParses(decimals);
    PointBetween("0", []);
    assert CanonicalUnsigned("0", decimals);
    UnsignedCanonicalIsPrinted("0", decimals);
  }
}
