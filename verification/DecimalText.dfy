/** Natural numbers as decimal text: what `BigUint::to_string` writes and `parse` reads back. */
module DecimalText {
  import opened Wrappers

  predicate IsDigit(c: char) {
    '0' <= c <= '9'
  }

  ghost predicate AllDigits(s: string) {
    forall i :: 0 <= i < |s| ==> IsDigit(s[i])
  }

  function DigitChar(d: nat): (c: char)
    requires d < 10
    ensures IsDigit(c) && DigitValue(c) == d
  {
    '0' + d as char
  }

  function DigitValue(c: char): (d: nat)
    requires IsDigit(c)
    ensures d < 10
  {
    (c - '0') as nat
  }

  /** Canonical text: no leading zero except for zero itself. */
  function ToText(n: nat): (s: string)
    ensures |s| > 0
  {
    if n < 10 then [DigitChar(n)] else ToText(n / 10) + [DigitChar(n % 10)]
  }

  /** Decimal value of a digit string; leading zeros are allowed, anything else fails. */
  function Parse(s: string): Option<nat> {
    if |s| == 0 then None else ParseDigits(s)
  }

  function ParseDigits(s: string): Option<nat> {
    if |s| == 0 then Some(0)
    else if !IsDigit(s[|s| - 1]) then None
    else
      match ParseDigits(s[..|s| - 1])
      case None => None
      case Some(n) => Some(10 * n + DigitValue(s[|s| - 1]))
  }

  function Pow10(k: nat): (p: nat)
    ensures p > 0
  {
    if k == 0 then 1 else 10 * Pow10(k - 1)
  }

  function Zeros(k: nat): (s: string)
    ensures |s| == k && AllDigits(s)
  {
    if k == 0 then "" else "0" + Zeros(k - 1)
  }

  lemma {:induction false} ToTextParses(n: nat)
    ensures Parse(ToText(n)) == ParseDigits(ToText(n)) == Some(n)
  {
    var s := ToText(n);
    if n < 10 {
      assert s[..|s| - 1] == "";
      assert ParseDigits("") == Some(0);
    } else {
      ToTextParses(n / 10);
      assert s[..|s| - 1] == ToText(n / 10);
    }
  }

  lemma TextIsInjective(m: nat, n: nat)
    ensures ToText(m) == ToText(n) <==> m == n
  {
    ToTextParses(m);
    ToTextParses(n);
  }

  lemma {:induction false} ToTextDigits(n: nat)
    ensures AllDigits(ToText(n))
    ensures ToText(n)[0] == '0' ==> n == 0
  {
    if n >= 10 { ToTextDigits(n / 10); }
  }

  /** Exactly the nonempty digit strings are numbers. */
  lemma ParseAccepts(s: string)
    ensures Parse(s).Some? <==> |s| > 0 && AllDigits(s)
  {
    if |s| > 0 {
      ParseDigitsAccepts(s);
    }
  }

  lemma {:induction false} ParseDigitsAccepts(s: string)
    ensures ParseDigits(s).Some? <==> AllDigits(s)
  {
    if |s| > 0 {
      var init := s[..|s| - 1];
      ParseDigitsAccepts(init);
      assert AllDigits(s) <==> AllDigits(init) && IsDigit(s[|s| - 1]) by {
        assert s == init + [s[|s| - 1]];
      }
    }
  }

  lemma ShiftDigit(x: nat, p: nat, y: nat, d: nat)
    ensures 10 * (x * p + y) + d == x * (10 * p) + (10 * y + d)
  {
  }

  lemma {:induction false} ParseConcat(a: string, b: string)
    requires ParseDigits(a).Some? && ParseDigits(b).Some?
    ensures ParseDigits(a + b) == Some(ParseDigits(a).value * Pow10(|b|) + ParseDigits(b).value)
  {
    if |b| == 0 {
      assert a + b == a;
    } else {
      var b' := b[..|b| - 1];
      ParseConcat(a, b');
      assert (a + b)[..|a + b| - 1] == a + b';
      var x, p, y, d := ParseDigits(a).value, Pow10(|b'|), ParseDigits(b').value, DigitValue(b[|b| - 1]);
      assert ParseDigits(a + b).value == 10 * (x * p + y) + d;
      assert ParseDigits(b).value == 10 * y + d;
      ShiftDigit(x, p, y, d);
    }
  }

  lemma {:induction false} ParseZeros(k: nat)
    ensures ParseDigits(Zeros(k)) == Some(0)
  {
    if k > 0 {
      ParseZeros(k - 1);
      assert "0"[..0] == "" && ParseDigits("0") == Some(0);
      ParseConcat("0", Zeros(k - 1));
    }
  }
}
