/**
  Fixed-scale curve arithmetic: quotients truncated to 18 decimals, carried as decimal text between the
  steps.
*/
module CurveMath {
  import opened Wrappers
  import opened DecimalText
  import opened Quotients

  const SCALE: nat := 18
  const ONE: nat := 1_000_000_000_000_000_000

  type Decimals = n: nat | n < 256

  datatype Curve = Curve(tokenProgress: string, quoteProgress: string, spotPrice: string, impliedFdv: string)

  function FormatScaled(n: nat, scale: nat): string {
    var s := ToText(n);
    if |s| <= scale then "0." + (Zeros(scale - |s|) + s) else s[..|s| - scale] + "." + s[|s| - scale..]
  }

  /** Quotient truncated to `scale` decimals, as text. */
  function Ratio(n: nat, d: nat, scale: nat): string
    requires d > 0
  {
    var q := n * Pow10(scale) / d;
    if scale == 0 then ToText(q) else FormatScaled(q, scale)
  }

  function WithoutDots(v: string): string {
    if |v| == 0 then "" else (if v[0] == '.' then "" else [v[0]]) + WithoutDots(v[1..])
  }

  /** Length up to the next point or the end. */
  function Piece(v: string): nat {
    if |v| == 0 || v[0] == '.' then 0 else 1 + Piece(v[1..])
  }

  /** Length of the second of the pieces between points; zero without a point. */
  function Fraction(v: string): nat {
    if |v| == 0 then 0 else if v[0] == '.' then Piece(v[1..]) else Fraction(v[1..])
  }

  /** Text read as an integer at `scale` decimals; longer fractions are not cut. */
  function BigDecimalScaled(v: string, scale: nat): Option<nat> {
    match Parse(WithoutDots(v))
    case None => None
    case Some(n) => Some(if Fraction(v) < scale then n * Pow10(scale - Fraction(v)) else n)
  }

  /** A raw amount with `k` more digits. */
  function Raised(n: nat, k: nat): (r: nat)
    ensures n > 0 ==> r > 0
  {
    n * Pow10(k)
  }

  function SpotPrice(quoteReserve: nat, tokenReserve: nat, tokenDecimals: nat, quoteDecimals: nat): string
    requires tokenReserve > 0
  {
    Ratio(Raised(quoteReserve, tokenDecimals), Raised(tokenReserve, quoteDecimals), SCALE)
  }

  /** The valuation at 18 decimals from a price at 18 decimals. */
  function Fdv(price: nat, supply: nat, tokenDecimals: nat): nat {
    Floor(price * supply, Pow10(tokenDecimals))
  }

  /** The raw amounts a calculation starts from. */
  datatype Amounts<T> = Amounts(
    initialSellable: T, currentSellable: T, realQuote: T, threshold: T, quoteReserve: T, tokenReserve: T, totalSupply: T)

  function ParseAmounts(a: Amounts<string>): Option<Amounts<nat>> {
    match (Parse(a.initialSellable), Parse(a.currentSellable), Parse(a.realQuote), Parse(a.threshold))
    case (Some(i), Some(c), Some(rq), Some(th)) =>
      (match (Parse(a.quoteReserve), Parse(a.tokenReserve), Parse(a.totalSupply))
       case (Some(qr), Some(tr), Some(supply)) => Some(Amounts(i, c, rq, th, qr, tr, supply))
       case _ => None)
    case _ => None
  }

  function CurveOf(a: Amounts<nat>, tokenDecimals: Decimals, quoteDecimals: Decimals): Option<Curve> {
    if a.initialSellable == 0 || a.currentSellable > a.initialSellable || a.threshold == 0 || a.tokenReserve == 0 then None
    else
      var price := SpotPrice(a.quoteReserve, a.tokenReserve, tokenDecimals, quoteDecimals);
      match BigDecimalScaled(price, SCALE)
      case None => None
      case Some(p) =>
        Some(Curve(Ratio(a.initialSellable - a.currentSellable, a.initialSellable, SCALE),
                   Ratio(a.realQuote, a.threshold, SCALE), price,
                   FormatScaled(Fdv(p, a.totalSupply, tokenDecimals), SCALE)))
  }

  function CalculateCurveMath(a: Amounts<string>, tokenDecimals: Decimals, quoteDecimals: Decimals): Option<Curve> {
    match ParseAmounts(a)
    case None => None
    case Some(amounts) => CurveOf(amounts, tokenDecimals, quoteDecimals)
  }

  function ProgressDiverges(a: string, b: string): bool {
    match (BigDecimalScaled(a, SCALE), BigDecimalScaled(b, SCALE))
    case (Some(x), Some(y)) => (if x > y then x - y else y - x) > 5 * Pow10(16)
    case _ => false
  }

  // ---------------------------------------------------------------- text round trips

  lemma {:induction false} DigitsHaveNoDots(s: string)
    requires AllDigits(s)
    ensures WithoutDots(s) == s && Piece(s) == |s| && Fraction(s) == 0
  {
    if |s| > 0 {
      DigitsHaveNoDots(s[1..]);
      assert s == [s[0]] + s[1..];
    }
  }

  /** Two digit runs around a point. */
  lemma {:induction false} DotBetween(a: string, b: string)
    requires AllDigits(a) && AllDigits(b)
    ensures WithoutDots(a + "." + b) == a + b && Fraction(a + "." + b) == |b|
  {
    var v := a + "." + b;
    if |a| == 0 {
      assert v[0] == '.' && v[1..] == b;
      DigitsHaveNoDots(b);
      assert "" + b == a + b;
    } else {
      assert v[0] == a[0] && v[1..] == a[1..] + "." + b;
      DotBetween(a[1..], b);
      assert [a[0]] + (a[1..] + b) == a + b;
    }
  }

  /** A scaled number is written with exactly `scale` decimals, and without leading zeros. */
  lemma FormatParts(n: nat, scale: nat) returns (a: string, b: string)
    ensures AllDigits(a) && AllDigits(b) && |b| == scale
    ensures |a| > 0 && (a[0] == '0' ==> a == "0")
    ensures FormatScaled(n, scale) == a + "." + b
    ensures Parse(a + b) == Some(n)
  {
    var s := ToText(n);
    ToTextDigits(n);
    ToTextParses(n);
    hide ToText, Parse, Zeros;
    if |s| <= scale {
      var zeros := Zeros(scale - |s|);
      a, b := "0", zeros + s;
      DigitsJoin(zeros, s);
      LeadingZeros(scale - |s|, s);
      ZeroPoint(b);
    } else {
      a, b := s[..|s| - scale], s[|s| - scale..];
      Halves(s, |s| - scale);
      assert a[0] == s[0];
      if a[0] == '0' {
        ZeroIsZero();
      }
    }
  }

  lemma ZeroIsZero()
    ensures ToText(0) == "0"
  {
  }

  lemma ZeroPoint(b: string)
    ensures "0." + b == "0" + "." + b && AllDigits("0")
  {
  }

  lemma Halves(s: string, k: nat)
    requires k <= |s| && AllDigits(s)
    ensures s[..k] + s[k..] == s && AllDigits(s[..k]) && AllDigits(s[k..])
  {
  }

  lemma DigitsJoin(a: string, b: string)
    requires AllDigits(a) && AllDigits(b)
    ensures AllDigits(a + b)
  {
  }

  lemma LeadingZeros(k: nat, s: string)
    requires Parse(s).Some?
    ensures Parse("0" + (Zeros(k) + s)) == Parse(s)
  {
    assert "0" + (Zeros(k) + s) == Zeros(k + 1) + s;
    ParseZeros(k + 1);
    hide ParseDigits, Zeros;
    ParseConcat(Zeros(k + 1), s);
  }

  lemma {:induction false} PieceEnds(b: string, rest: string)
    requires AllDigits(b)
    ensures Piece(b + "." + rest) == |b|
  {
    var v := b + "." + rest;
    if |b| > 0 {
      PieceEnds(b[1..], rest);
      assert v[0] == b[0] && v[1..] == b[1..] + "." + rest;
    } else {
      assert v[0] == '.';
    }
  }

  /** Only the digits between the first two points count as a fraction. */
  lemma {:induction false} FractionEnds(a: string, b: string, rest: string)
    requires AllDigits(a) && AllDigits(b)
    ensures Fraction(a + ("." + (b + "." + rest))) == |b|
  {
    var behind := b + "." + rest;
    var v := a + ("." + behind);
    if |a| > 0 {
      FractionEnds(a[1..], b, rest);
      assert v[0] == a[0] && v[1..] == a[1..] + ("." + behind);
    } else {
      PieceEnds(b, rest);
      assert v[0] == '.' && v[1..] == behind;
    }
  }

  /** Digits around a point read as the number they make, with zeros up to the wanted scale; longer fractions are not
      cut. Without a point all digits are whole. */
  lemma ReadsDecimals(a: string, b: string, scale: nat)
    requires AllDigits(a) && AllDigits(b)
    ensures BigDecimalScaled(a + "." + b, scale) ==
      match Parse(a + b) case None => None case Some(n) => Some(if |b| < scale then n * Pow10(scale - |b|) else n)
    ensures BigDecimalScaled(a, scale) == match Parse(a) case None => None case Some(n) => Some(if scale > 0 then n * Pow10(scale) else n)
  {
    DotBetween(a, b);
    DigitsHaveNoDots(a);
  }

  /** Reading undoes formatting at any scale not below the format's; below it the digits are not cut. */
  lemma FormatRoundTrip(n: nat, scale: nat, at: nat)
    ensures BigDecimalScaled(FormatScaled(n, scale), at) == Some(if scale < at then n * Pow10(at - scale) else n)
  {
    var a, b := FormatParts(n, scale);
    DotBetween(a, b);
  }

  /** Reading a quotient gives the truncated scaled quotient. */
  lemma RatioRoundTrip(n: nat, d: nat, scale: nat)
    requires d > 0
    ensures BigDecimalScaled(Ratio(n, d, scale), scale) == Some(Floor(n * Pow10(scale), d))
  {
    var q := n * Pow10(scale) / d;
    if scale == 0 {
      ToTextDigits(q);
      ToTextParses(q);
      DigitsHaveNoDots(ToText(q));
    } else {
      FormatRoundTrip(q, scale, scale);
    }
  }

  lemma ScaleIsOne()
    ensures Pow10(SCALE) == ONE && Pow10(16) == 10_000_000_000_000_000
  {
    assert Pow10(4) == 10_000;
    assert Pow10(8) == 100_000_000;
    assert Pow10(12) == 1_000_000_000_000;
    assert Pow10(16) == 10_000_000_000_000_000;
  }

  // ---------------------------------------------------------------- accuracy

  /** A value of text at 18 decimals. */
  function Value(v: string): real {
    match BigDecimalScaled(v, SCALE)
    case None => 0.0
    case Some(n) => n as real / ONE as real
  }

  lemma ScaleDown(q: nat, x: real)
    requires q as real <= x * ONE as real < q as real + 1.0
    ensures 0.0 <= x - q as real / ONE as real < 1.0 / ONE as real
  {
  }

  /** A quotient's text is below the exact value by less than the last decimal. */
  lemma RatioIsAccurate(n: nat, d: nat)
    requires d > 0
    ensures 0.0 <= Quotient(n, d) - Value(Ratio(n, d, SCALE)) < 1.0 / ONE as real
  {
    hide Ratio, BigDecimalScaled, Quotient, Pow10;
    RatioRoundTrip(n, d, SCALE);
    ScaleIsOne();
    FloorBounds(n * ONE, d);
    ScaledQuotient(n, d, ONE);
    ScaleDown(Floor(n * ONE, d), Quotient(n, d));
  }

  /** The price of a whole token in whole quote units, at 18 decimals: a token has 10^tokenDecimals raw units, a quote
      unit 10^quoteDecimals. */
  function Price(quoteReserve: nat, tokenReserve: nat, tokenDecimals: nat, quoteDecimals: nat): nat
    requires tokenReserve > 0
  {
    Floor(quoteReserve * Pow10(tokenDecimals) * Pow10(18), tokenReserve * Pow10(quoteDecimals))
  }

  lemma PriceIs(quoteReserve: nat, tokenReserve: nat, tokenDecimals: nat, quoteDecimals: nat)
    requires tokenReserve > 0
    ensures BigDecimalScaled(SpotPrice(quoteReserve, tokenReserve, tokenDecimals, quoteDecimals), SCALE)
         == Some(Price(quoteReserve, tokenReserve, tokenDecimals, quoteDecimals))
  {
    hide Ratio, BigDecimalScaled;
    RatioRoundTrip(Raised(quoteReserve, tokenDecimals), Raised(tokenReserve, quoteDecimals), SCALE);
    ScaleIsOne();
  }

  predicate Computable(n: Amounts<nat>) {
    && n.initialSellable > 0 && n.currentSellable <= n.initialSellable
    && n.threshold > 0 && n.tokenReserve > 0
  }

  /** Each amount is read from its own text, and all of them must be numbers. */
  lemma AmountsAreRead(a: Amounts<string>)
    ensures ParseAmounts(a).Some? <==>
      && Parse(a.initialSellable).Some? && Parse(a.currentSellable).Some? && Parse(a.realQuote).Some? && Parse(a.threshold).Some?
      && Parse(a.quoteReserve).Some? && Parse(a.tokenReserve).Some? && Parse(a.totalSupply).Some?
    ensures ParseAmounts(a).Some? ==> var n := ParseAmounts(a).value;
      && Parse(a.initialSellable) == Some(n.initialSellable) && Parse(a.currentSellable) == Some(n.currentSellable)
      && Parse(a.realQuote) == Some(n.realQuote) && Parse(a.threshold) == Some(n.threshold)
      && Parse(a.quoteReserve) == Some(n.quoteReserve) && Parse(a.tokenReserve) == Some(n.tokenReserve)
      && Parse(a.totalSupply) == Some(n.totalSupply)
  {
    hide Parse;
  }

  /** Curve math has a result exactly when its guards hold, and what its four texts read back as. */
  lemma CurveMathIs(a: Amounts<string>, tokenDecimals: Decimals, quoteDecimals: Decimals)
    ensures var r, parsed := CalculateCurveMath(a, tokenDecimals, quoteDecimals), ParseAmounts(a);
      && (r.Some? <==> parsed.Some? && Computable(parsed.value))
      && (r.Some? ==>
            var n := parsed.value;
            var price := Price(n.quoteReserve, n.tokenReserve, tokenDecimals, quoteDecimals);
            && BigDecimalScaled(r.value.tokenProgress, SCALE) == Some(Floor((n.initialSellable - n.currentSellable) * ONE, n.initialSellable))
            && BigDecimalScaled(r.value.quoteProgress, SCALE) == Some(Floor(n.realQuote * ONE, n.threshold))
            && BigDecimalScaled(r.value.spotPrice, SCALE) == Some(price)
            && BigDecimalScaled(r.value.impliedFdv, SCALE) == Some(Fdv(price, n.totalSupply, tokenDecimals)))
  {
    hide Ratio, BigDecimalScaled, Parse, FormatScaled, Raised, Fdv, SpotPrice, ParseAmounts, Pow10, Price;
    var parsed := ParseAmounts(a);
    if parsed.Some? && CurveOf(parsed.value, tokenDecimals, quoteDecimals).Some? {
      var n := parsed.value;
      ScaleIsOne();
      RatioRoundTrip(n.initialSellable - n.currentSellable, n.initialSellable, SCALE);
      RatioRoundTrip(n.realQuote, n.threshold, SCALE);
      PriceIs(n.quoteReserve, n.tokenReserve, tokenDecimals, quoteDecimals);
      FormatRoundTrip(Fdv(BigDecimalScaled(SpotPrice(n.quoteReserve, n.tokenReserve, tokenDecimals, quoteDecimals), SCALE).value, n.totalSupply, tokenDecimals), SCALE, SCALE);
    } else if parsed.Some? && parsed.value.tokenReserve > 0 {
      PriceIs(parsed.value.quoteReserve, parsed.value.tokenReserve, tokenDecimals, quoteDecimals);
    }
  }

  /** Token progress is a proportion, truncated below the exact one by less than 10^-18. */
  lemma ProgressIsProportion(initial: nat, current: nat)
    requires initial > 0 && current <= initial
    ensures var v := Value(Ratio(initial - current, initial, SCALE));
      0.0 <= v <= 1.0 && 0.0 <= Quotient(initial - current, initial) - v < 1.0 / ONE as real
  {
    hide Ratio, BigDecimalScaled, Quotient;
    RatioIsAccurate(initial - current, initial);
    QuotientAtMostOne(initial - current, initial);
    ValueIsNotNegative(Ratio(initial - current, initial, SCALE));
  }

  lemma QuotientAtMostOne(n: nat, d: nat)
    requires n <= d && d > 0
    ensures Quotient(n, d) <= 1.0
  {
  }

  lemma ValueIsNotNegative(v: string)
    ensures Value(v) >= 0.0
  {
  }

  /** The implied valuation times 10^18, had nothing been truncated. */
  function ExactFdv(quoteReserve: nat, tokenReserve: nat, supply: nat, tokenDecimals: nat, quoteDecimals: nat): real
    requires tokenReserve > 0
  {
    Quotient(quoteReserve * Pow10(tokenDecimals) * Pow10(18), tokenReserve * Pow10(quoteDecimals)) * Quotient(supply, Pow10(tokenDecimals))
  }

  /** The twice-truncated valuation never exceeds the exact one and misses less than supply / 10^decimals + 1. */
  lemma FdvIsAccurate(quoteReserve: nat, tokenReserve: nat, supply: nat, tokenDecimals: nat, quoteDecimals: nat)
    requires tokenReserve > 0
    ensures var price := BigDecimalScaled(SpotPrice(quoteReserve, tokenReserve, tokenDecimals, quoteDecimals), SCALE);
      && price.Some?
      && var fdv, exact := Fdv(price.value, supply, tokenDecimals), ExactFdv(quoteReserve, tokenReserve, supply, tokenDecimals, quoteDecimals);
      && fdv as real <= exact < fdv as real + Quotient(supply, Pow10(tokenDecimals)) + 1.0
  {
    hide BigDecimalScaled, SpotPrice, Pow10, Quotient, Floor, Price, ExactFdv;
    PriceIs(quoteReserve, tokenReserve, tokenDecimals, quoteDecimals);
    var num, den := PriceParts(quoteReserve, tokenReserve, supply, tokenDecimals, quoteDecimals);
    FloorTwice(num, den, supply, Pow10(tokenDecimals));
  }

  lemma PriceParts(quoteReserve: nat, tokenReserve: nat, supply: nat, tokenDecimals: nat, quoteDecimals: nat) returns (num: nat, den: nat)
    requires tokenReserve > 0
    ensures den > 0 && Price(quoteReserve, tokenReserve, tokenDecimals, quoteDecimals) == Floor(num, den)
    ensures ExactFdv(quoteReserve, tokenReserve, supply, tokenDecimals, quoteDecimals)
         == Quotient(num, den) * Quotient(supply, Pow10(tokenDecimals))
  {
    hide Pow10, Floor, Quotient;
    num, den := quoteReserve * Pow10(tokenDecimals) * Pow10(18), tokenReserve * Pow10(quoteDecimals);
  }

  lemma FloorTwice(num: nat, den: nat, supply: nat, unit: nat)
    requires den > 0 && unit > 0
    ensures var fdv, exact := Floor(Floor(num, den) * supply, unit), Quotient(num, den) * Quotient(supply, unit);
      fdv as real <= exact < fdv as real + Quotient(supply, unit) + 1.0
  {
    hide Floor, Quotient;
    var p := Floor(num, den);
    FloorBounds(num, den);
    FloorBounds(p * supply, unit);
    ScaledQuotient(supply, unit, p);
    Commutes(p, supply);
    QuotientIsNotNegative(supply, unit);
    TruncateTwice(Quotient(num, den), p as real, Quotient(supply, unit), Floor(p * supply, unit) as real);
  }

  lemma QuotientIsNotNegative(n: nat, d: nat)
    requires d > 0
    ensures Quotient(n, d) >= 0.0
  {
  }

  lemma TruncateTwice(exact: real, p: real, share: real, fdv: real)
    requires share >= 0.0 && p <= exact < p + 1.0
    requires fdv <= share * p < fdv + 1.0
    ensures fdv <= exact * share < fdv + share + 1.0
  {
    ProductIsNotNegative(exact - p, share);
    ProductIsNotNegative(p + 1.0 - exact, share);
    Distributes(p, exact, share);
    Distributes(exact, p + 1.0, share);
    NextProduct(p, share);
  }

  /** The integrity warning is raised only when the exact progresses differ by more than 5%, and it is raised
      when they differ by 5% and one unit of the last decimal. */
  lemma DivergenceIsExact(n: nat, d: nat, m: nat, e: nat)
    requires d > 0 && e > 0
    ensures var gap := Quotient(n, d) - Quotient(m, e);
      var diverges := ProgressDiverges(Ratio(n, d, SCALE), Ratio(m, e, SCALE));
      && (diverges ==> gap > 0.05 || gap < -0.05)
      && (!diverges ==> -0.05 - 1.0 / ONE as real < gap < 0.05 + 1.0 / ONE as real)
  {
    hide Ratio, BigDecimalScaled, Quotient, Pow10;
    RatioRoundTrip(n, d, SCALE);
    RatioRoundTrip(m, e, SCALE);
    ScaleIsOne();
    RatioIsAccurate(n, d);
    RatioIsAccurate(m, e);
  }
}
