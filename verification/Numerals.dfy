/** Decimal numerals as `strconv` reads and writes them.

    `ParseInt64` accepts more strings than `FormatInt64` produces: a leading
    plus sign and leading zeros are read. Every 64-bit integer therefore has
    numerals outside any given finite set, which is what decides whether a
    node label can satisfy a numeric bound and a list of excluded values.
 */
module Numerals {
  import opened Basics

  predicate Digit(c: char) {
    '0' <= c <= '9'
  }

  predicate Digits(s: string) {
    forall i :: 0 <= i < |s| ==> Digit(s[i])
  }

  function Natural(s: string): nat
    requires Digits(s)
  {
    if s == "" then 0
    else 10 * Natural(s[..|s|-1]) + (s[|s|-1] as int - '0' as int)
  }

  /** `strconv.ParseInt(s, 10, 64)`; `None` is its error. */
  function ParseInt64(s: string): Option<int> {
    if s == "" then None
    else
      var digits := if s[0] == '+' || s[0] == '-' then s[1..] else s;
      if digits == "" || !Digits(digits) then None
      else
        var magnitude: int := Natural(digits);
        var value := if s[0] == '-' then -magnitude else magnitude;
        if MIN_INT64 <= value <= MAX_INT64 then Some(value) else None
  }

  function FormatNatural(n: nat): string {
    if n < 10 then [('0' as int + n) as char]
    else FormatNatural(n / 10) + [('0' as int + n % 10) as char]
  }

  /** `strconv.FormatInt(value, 10)`. */
  function FormatInt64(value: int): string {
    if value < 0 then "-" + FormatNatural(-value) else FormatNatural(value)
  }

  lemma {:induction false} FormatNaturalReads(n: nat)
    ensures FormatNatural(n) != "" && Digits(FormatNatural(n)) && Natural(FormatNatural(n)) == n
  {
    var s := FormatNatural(n);
    if n >= 10 {
      FormatNaturalReads(n / 10);
      assert s[..|s|-1] == FormatNatural(n / 10);
    } else {
      assert s[..|s|-1] == "";
    }
  }

  function Zeros(k: nat): string {
    seq(k, _ => '0')
  }

  lemma {:induction false} LeadingZeros(k: nat, s: string)
    requires Digits(s)
    ensures Digits(Zeros(k) + s) && Natural(Zeros(k) + s) == Natural(s)
    decreases k + |s|
  {
    var t := Zeros(k) + s;
    if s != "" {
      LeadingZeros(k, s[..|s|-1]);
      assert t[..|t|-1] == Zeros(k) + s[..|s|-1];
    } else if k > 0 {
      LeadingZeros(k - 1, "");
      assert t[..|t|-1] == Zeros(k - 1) + "";
    }
  }

  /** The numeral of `value` with `k` zeros after its sign. */
  function Padded(value: int, k: nat): string {
    if value < 0 then "-" + (Zeros(k) + FormatNatural(-value)) else Zeros(k) + FormatNatural(value)
  }

  lemma ParsesDigits(digits: string)
    requires digits != "" && Digits(digits)
    ensures Natural(digits) <= MAX_INT64 ==> ParseInt64(digits) == Some(Natural(digits))
    ensures -(Natural(digits) as int) >= MIN_INT64 ==> ParseInt64("-" + digits) == Some(-(Natural(digits) as int))
  {
    assert Digit(digits[0]);
    assert ("-" + digits)[1..] == digits;
  }

  lemma PaddedParses(value: int, k: nat)
    requires MIN_INT64 <= value <= MAX_INT64
    ensures ParseInt64(Padded(value, k)) == Some(value)
    ensures |Padded(value, k)| > k
  {
    var magnitude := if value < 0 then -value else value;
    var digits := Zeros(k) + FormatNatural(magnitude);
    FormatNaturalReads(magnitude);
    LeadingZeros(k, FormatNatural(magnitude));
    ParsesDigits(digits);
    assert Padded(value, k) == if value < 0 then "-" + digits else digits;
  }

  /** Reading back what was written gives the same integer. */
  lemma FormatParses(value: int)
    requires MIN_INT64 <= value <= MAX_INT64
    ensures ParseInt64(FormatInt64(value)) == Some(value)
  {
    var magnitude := if value < 0 then -value else value;
    FormatNaturalReads(magnitude);
    ParsesDigits(FormatNatural(magnitude));
  }

  ghost function LongestIn(s: set<string>): (n: nat)
    ensures forall x :: x in s ==> |x| <= n
  {
    if s == {} then 0
    else
      var x :| x in s;
      var n := LongestIn(s - {x});
      if |x| > n then |x| else n
  }

  /** No finite set holds every numeral of a 64-bit integer. */
  lemma NumeralOutside(value: int, excluded: set<string>) returns (s: string)
    requires MIN_INT64 <= value <= MAX_INT64
    ensures ParseInt64(s) == Some(value) && s !in excluded
  {
    var k := LongestIn(excluded);
    s := Padded(value, k);
    PaddedParses(value, k);
  }
}
