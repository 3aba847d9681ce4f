/** C byte strings and the decimal conversions of `%u` and `%d`, with a parser
    that inverts them. */
module Text {
  import opened Wrappers
  import opened CInt

  /** A C `char`: one byte. */
  type CChar = c: char | c as int < 0x100
  type CString = seq<CChar>

  const NUL: CChar := '\0'

  predicate IsDigit(c: char) {
    '0' <= c <= '9'
  }

  /** A byte that may appear in a rendered `%d` field. */
  predicate IsNumChar(c: char) {
    c == '-' || IsDigit(c)
  }

  predicate AllDigits(s: seq<char>) {
    forall i :: 0 <= i < |s| ==> IsDigit(s[i])
  }

  function DigitChar(d: nat): (c: CChar)
    requires d < 10
    ensures IsDigit(c) && DigitValue(c) == d
  {
    (48 + d) as char
  }

  function DigitValue(c: char): (d: nat)
    requires IsDigit(c)
    ensures d < 10
  {
    c as int - 48
  }

  function Pow10(k: nat): (p: nat)
    ensures p >= 1
  {
    if k == 0 then 1 else 10 * Pow10(k - 1)
  }

  /** The decimal digits of `n`, most significant first, with no leading zero. */
  function NatDigits(n: nat): (s: CString)
    ensures |s| >= 1 && AllDigits(s)
    ensures s[0] == '0' ==> n == 0
    decreases n
  {
    if n < 10 then [DigitChar(n)] else NatDigits(n / 10) + [DigitChar(n % 10)]
  }

  /** The value of a digit string read in base 10 (the reference reading). */
  function ParseDigits(s: seq<char>): nat
    requires AllDigits(s)
  {
    if |s| == 0 then 0 else ParseDigits(s[..|s| - 1]) * 10 + DigitValue(s[|s| - 1])
  }

  lemma {:induction false} NatDigitsRoundTrip(n: nat)
    ensures ParseDigits(NatDigits(n)) == n
    decreases n
  {
    if n >= 10 {
      var s := NatDigits(n);
      var pre := NatDigits(n / 10);
      assert s[..|s| - 1] == pre;
      NatDigitsRoundTrip(n / 10);
    }
  }

  /** A number below 10^k has at most k digits. */
  lemma {:induction false} NatDigitsLength(n: nat, k: nat)
    requires 1 <= k && n < Pow10(k)
    ensures |NatDigits(n)| <= k
    decreases k
  {
    if n >= 10 {
      NatDigitsLength(n / 10, k - 1);
    }
  }

  /** `%u`: the argument reinterpreted as a 32-bit unsigned integer. */
  function Unsigned(x: int): (s: CString)
    ensures 0 <= x < TWO_32 ==> ParseDecimal(s) == Some(x)
  {
    NatDigitsRoundTrip(x % TWO_32);
    NatDigits(x % TWO_32)
  }

  /** `%d`: an optional minus sign followed by the magnitude's digits. */
  function Decimal(x: int): (s: CString)
    ensures |s| >= 1 && forall i :: 0 <= i < |s| ==> IsNumChar(s[i])
    ensures s[0] == '-' <==> x < 0
  {
    if x < 0 then ['-'] + NatDigits(-x) else NatDigits(x)
  }

  /** Reads back a `%d` or `%u` field; `None` for anything that is not an
      optional minus sign followed by at least one digit. */
  function ParseDecimal(s: seq<char>): Option<int> {
    if |s| > 0 && s[0] == '-' then
      if |s| > 1 && AllDigits(s[1..]) then Some(0 - ParseDigits(s[1..])) else None
    else if |s| > 0 && AllDigits(s) then Some(ParseDigits(s))
    else None
  }

  lemma DecimalRoundTrip(x: int)
    ensures ParseDecimal(Decimal(x)) == Some(x)
  {
    if x < 0 {
      var s := Decimal(x);
      assert s[1..] == NatDigits(-x);
      NatDigitsRoundTrip(-x);
    } else {
      NatDigitsRoundTrip(x);
    }
  }

  /** A 32-bit value prints as at most 11 bytes (`-2147483648`). */
  lemma DecimalLength32(x: int32)
    ensures |Decimal(x)| <= 11
  {
    assert Pow10(10) == 10_000_000_000;
    if x < 0 {
      NatDigitsLength(-(x as int), 10);
    } else {
      NatDigitsLength(x, 10);
    }
  }

  /** The byte classes a scan over rendered text stops at. */
  datatype CharClass = NonNul | NonQuote | NumChar

  predicate InClass(c: char, cls: CharClass) {
    match cls
    case NonNul => c != '\0'
    case NonQuote => c != '"'
    case NumChar => IsNumChar(c)
  }

  /** The length of the longest prefix of `s` whose bytes are all in `cls`. */
  function Span(s: seq<char>, cls: CharClass): (k: nat)
    ensures k <= |s|
    ensures forall i :: 0 <= i < k ==> InClass(s[i], cls)
    ensures k < |s| ==> !InClass(s[k], cls)
  {
    if |s| == 0 || !InClass(s[0], cls) then 0 else 1 + Span(s[1..], cls)
  }

  /** A span stops exactly where the in-class prefix ends. */
  lemma SpanOfConcat(a: seq<char>, b: seq<char>, cls: CharClass)
    requires forall i :: 0 <= i < |a| ==> InClass(a[i], cls)
    requires |b| > 0 ==> !InClass(b[0], cls)
    ensures Span(a + b, cls) == |a|
  {
    var s := a + b;
    assert forall i :: 0 <= i < |a| ==> s[i] == a[i];
    assert |b| > 0 ==> s[|a|] == b[0];
  }

  /** What `%s` copies from a `const char *`: the bytes before the first NUL. */
  function CStr(s: CString): (r: CString)
    ensures r <= s && NUL !in r
    ensures |r| < |s| ==> s[|r|] == NUL
    ensures NUL !in s ==> r == s
  {
    var k := Span(s, NonNul);
    var r := s[..k];
    assert forall i :: 0 <= i < |r| ==> r[i] == s[i] && InClass(s[i], NonNul);
    assert k < |s| ==> s[k] == NUL && s[k] in s;
    r
  }
}
