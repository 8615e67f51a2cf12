/** Numbers as the metrics code reads and shows them: `parseFloat` on the value token of a
    sample line, `formatNumber`'s choice of unit, and the percentages of the tables. */
module Numbers {
  import opened Wrappers

  predicate IsDigit(c: char)
  {
    '0' <= c <= '9'
  }

  predicate AllDigits(s: string)
  {
    forall i :: 0 <= i < |s| ==> IsDigit(s[i])
  }

  /** Length of the longest run of digits at the start of `s`. */
  function LeadingDigits(s: string): (n: nat)
    ensures n <= |s|
    ensures AllDigits(s[..n])
    ensures n < |s| ==> !IsDigit(s[n])
  {
    if |s| == 0 || !IsDigit(s[0]) then 0
    else
      var n := 1 + LeadingDigits(s[1..]);
      assert s[..n] == [s[0]] + s[1..][..n - 1];
      n
  }

  /** The natural number a string of decimal digits spells. */
  function DigitsValue(ds: string): nat
    requires AllDigits(ds)
  {
    if |ds| == 0 then 0
    else DigitsValue(ds[..|ds| - 1]) * 10 + (ds[|ds| - 1] as int - '0' as int)
  }

  function Pow10(n: nat): (p: nat)
    ensures p > 0
  {
    if n == 0 then 1 else 10 * Pow10(n - 1)
  }

  /** What `parseFloat` needs after its optional sign: a digit, or a point followed by one. */
  predicate StartsNumeral(s: string)
  {
    (|s| > 0 && IsDigit(s[0])) || (|s| > 1 && s[0] == '.' && IsDigit(s[1]))
  }

  function Unsigned(t: string): string
  {
    if |t| > 0 && (t[0] == '-' || t[0] == '+') then t[1..] else t
  }

  /** `parseFloat(t)` with `None` for NaN: the longest prefix of the form
      sign? digits* (. digits*)? with at least one digit, read as an exact decimal. */
  function ParseNum(t: string): (r: Option<real>)
    ensures r.None? <==> !StartsNumeral(Unsigned(t))
    ensures r.Some? && |t| > 0 && t[0] == '-' ==> r.value <= 0.0
    ensures r.Some? && !(|t| > 0 && t[0] == '-') ==> r.value >= 0.0
  {
    var body := Unsigned(t);
    var n := LeadingDigits(body);
    var whole := body[..n];
    var after := body[n..];
    var frac := if |after| > 0 && after[0] == '.' then after[1..][..LeadingDigits(after[1..])] else "";
    if |whole| + |frac| == 0 then
      None
    else
      var magnitude := DigitsValue(whole) as real + DigitsValue(frac) as real / Pow10(|frac|) as real;
      Some(if |t| > 0 && t[0] == '-' then -magnitude else magnitude)
  }

  /** The digits of `n` in base ten, without leading zeros. */
  function NatDigits(n: nat): (s: string)
    ensures |s| > 0 && AllDigits(s)
    ensures DigitsValue(s) == n
  {
    var last := [(n % 10 + '0' as int) as char];
    if n < 10 then
      assert last[..0] == "";
      last
    else
      var s := NatDigits(n / 10) + last;
      assert s[..|s| - 1] == NatDigits(n / 10);
      s
  }

  lemma LeadingDigitsAll(s: string)
    requires AllDigits(s)
    ensures LeadingDigits(s) == |s|
  {
  }

  /** Printing a whole number and reading it back gives the number, with or without a
      minus sign. */
  lemma ParseNumDigits(n: nat)
    ensures ParseNum(NatDigits(n)) == Some(n as real)
    ensures ParseNum("-" + NatDigits(n)) == Some(-(n as real))
  {
    var s := NatDigits(n);
    LeadingDigitsAll(s);
    assert s[..|s|] == s;
    assert ("-" + s)[1..] == s;
  }

  /** The unit `formatNumber` chooses; the digits after the point (`toFixed`) are not modelled. */
  datatype Formatted = InvalidNumber | Millions(scaled: real) | Thousands(scaled: real) | Units(value: real)

  /** `formatNumber(num)` with `None` for NaN: "Invalid number", then an `M` suffix from one
      million up, a `K` suffix from one thousand up, and no suffix below. */
  function FormatNumber(num: Option<real>): (r: Formatted)
    ensures r == InvalidNumber <==> num.None?
    ensures r.Millions? ==> r.scaled >= 1.0 && num == Some(r.scaled * 1000000.0)
    ensures r.Thousands? ==> 1.0 <= r.scaled < 1000.0 && num == Some(r.scaled * 1000.0)
    ensures r.Units? ==> r.value < 1000.0 && num == Some(r.value)
  {
    match num
    case None => InvalidNumber
    case Some(x) =>
      if x >= 1000000.0 then Millions(x / 1000000.0)
      else if x >= 1000.0 then Thousands(x / 1000.0)
      else Units(x)
  }

  function Suffix(f: Formatted): string
  {
    match f
    case InvalidNumber => "Invalid number"
    case Millions(_) => "M"
    case Thousands(_) => "K"
    case Units(_) => ""
  }

  /** `part / whole * 100`, with 0 where JavaScript would produce NaN or Infinity. */
  function Percent(part: real, whole: real): (r: real)
    ensures whole != 0.0 ==> r * whole == part * 100.0
    ensures whole == 0.0 ==> r == 0.0
  {
    if whole == 0.0 then 0.0 else part / whole * 100.0
  }

  /** A part no larger than a non-negative whole is between 0 and 100 per cent of it. */
  lemma PercentBounds(part: real, whole: real)
    requires 0.0 <= part <= whole
    ensures 0.0 <= Percent(part, whole) <= 100.0
  {
    if whole != 0.0 {
      assert part / whole <= 1.0;
    }
  }
}
