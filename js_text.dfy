/** The pieces of the JavaScript string library that the content layer relies
    on: the `\s` character class of regular expressions, `toLowerCase`,
    `startsWith`, `padStart`, `join` and the decimal form of an integer that
    `toString()` and `String()` produce. */
module JsText {
  import opened Options

  /** The characters `\s` matches in an ECMAScript regular expression: the
      WhiteSpace and LineTerminator code points. */
  predicate IsSpace(c: char) {
    var n := c as int;
    (0x09 <= n <= 0x0D) || n == 0x20 || n == 0xA0 || n == 0x1680 ||
    (0x2000 <= n <= 0x200A) || n == 0x2028 || n == 0x2029 || n == 0x202F ||
    n == 0x205F || n == 0x3000 || n == 0xFEFF
  }

  predicate IsAsciiUpper(c: char) {
    'A' <= c <= 'Z'
  }

  /** `toLowerCase` on one character, for the ASCII range. */
  function ToLowerChar(c: char): (r: char)
    ensures !IsAsciiUpper(r)
    ensures !IsAsciiUpper(c) ==> r == c
  {
    if IsAsciiUpper(c) then (c as int - 'A' as int + 'a' as int) as char else c
  }

  function ToLowerCase(s: string): (r: string)
    ensures |r| == |s|
  {
    seq(|s|, i requires 0 <= i < |s| => ToLowerChar(s[i]))
  }

  predicate StartsWith(s: string, prefix: string) {
    |prefix| <= |s| && s[..|prefix|] == prefix
  }

  /** `s.padStart(width, fill)` with a one-character filler. */
  function PadStart(s: string, width: nat, fill: char): (r: string)
    ensures |r| == if |s| >= width then |s| else width
    ensures r[|r| - |s|..] == s
    ensures forall i :: 0 <= i < |r| - |s| ==> r[i] == fill
  {
    if |s| >= width then s else seq(width - |s|, _ => fill) + s
  }

  /** `parts.join(sep)`. */
  function Join(parts: seq<string>, sep: string): string {
    if |parts| == 0 then ""
    else if |parts| == 1 then parts[0]
    else parts[0] + sep + Join(parts[1..], sep)
  }

  predicate IsDigit(c: char) {
    '0' <= c <= '9'
  }

  function DigitChar(d: nat): (c: char)
    requires d < 10
    ensures IsDigit(c)
  {
    ('0' as int + d) as char
  }

  function DigitValue(c: char): (d: nat)
    requires IsDigit(c)
    ensures d < 10 && DigitChar(d) == c
  {
    c as int - '0' as int
  }

  predicate AllDigits(s: string) {
    forall i :: 0 <= i < |s| ==> IsDigit(s[i])
  }

  /** The decimal numeral of a non-negative integer, without leading zeros. */
  function NatToString(n: nat): (s: string)
    ensures |s| > 0 && AllDigits(s)
    ensures |s| > 1 ==> s[0] != '0'
    decreases n
  {
    if n < 10 then [DigitChar(n)] else NatToString(n / 10) + [DigitChar(n % 10)]
  }

  /** `String(i)` / `i.toString()` for an integral number. */
  function IntToString(i: int): (s: string)
    ensures |s| > 0
    ensures i < 0 <==> s[0] == '-'
  {
    if i < 0 then "-" + NatToString(-i) else NatToString(i)
  }

  /** The `%` operator on integral numbers: the remainder of a division
      truncated toward zero, so it takes the sign of the dividend. */
  function JsRemainder(a: int, b: int): (r: int)
    requires b != 0
    ensures a >= 0 ==> 0 <= r < if b > 0 then b else -b
    ensures a < 0 ==> (if b > 0 then -b else b) < r <= 0
    ensures (a - r) % (if b > 0 then b else -b) == 0
  {
    var m := if b > 0 then b else -b;
    MultipleOfDivisor(if a >= 0 then a else -a, m);
    if a >= 0 then a % m else -((-a) % m)
  }

  /** What `%` leaves off a non-negative number is a multiple of the
      divisor, and so is its negation. */
  lemma MultipleOfDivisor(x: nat, m: int)
    requires m > 0
    ensures (x - x % m) % m == 0 && (-(x - x % m)) % m == 0
  {
    RemainderUnique(x - x % m, m, x / m, 0);
    RemainderUnique(-(x - x % m), m, -(x / m), 0);
  }

  /** Euclidean division leaves exactly one remainder. */
  lemma RemainderUnique(y: int, m: int, q: int, r: int)
    requires m > 0 && 0 <= r < m && y == m * q + r
    ensures y % m == r
  {
    var q', r' := y / m, y % m;
    assert m * (q - q') == r' - r;
    if q - q' >= 1 {
      ProductAtLeast(m, q - q');
    } else if q' - q >= 1 {
      assert m * (q' - q) == r - r';
      ProductAtLeast(m, q' - q);
    }
  }

  lemma {:induction false} ProductAtLeast(m: int, d: nat)
    requires m > 0 && d >= 1
    ensures m * d >= m
  {
    if d > 1 {
      ProductAtLeast(m, d - 1);
      assert m * d == m * (d - 1) + m;
    }
  }

  /** Within one round of a positive divisor the remainder is the
      dividend itself, or the dividend less one divisor. */
  lemma JsRemainderOneRound(a: int, b: int)
    requires 0 < b && 0 <= a < 2 * b
    ensures JsRemainder(a, b) == if a < b then a else a - b
  {
    if a >= b {
      assert (a - b) % b == a - b;
      assert a % b == (a - b + b) % b;
    }
  }

  /** A negative dividend gives the negated remainder of its magnitude. */
  lemma JsRemainderSign(a: int, b: int)
    requires b != 0
    ensures JsRemainder(-a, b) == -JsRemainder(a, b)
  {
    var m := if b > 0 then b else -b;
    if a > 0 {
      assert JsRemainder(-a, b) == -(a % m);
    } else if a < 0 {
      assert JsRemainder(-a, b) == (-a) % m;
      assert JsRemainder(a, b) == -((-a) % m);
    } else {
      assert 0 % m == 0;
    }
  }

  /** Reads back a non-empty string of decimal digits (leading zeros allowed). */
  function ParseNat(s: string): (r: Option<nat>)
    ensures r.Some? <==> |s| > 0 && AllDigits(s)
  {
    if |s| == 0 || !IsDigit(s[|s| - 1]) then None
    else if |s| == 1 then Some(DigitValue(s[0]))
    else match ParseNat(s[..|s| - 1])
      case None => None
      case Some(v) => Some(10 * v + DigitValue(s[|s| - 1]))
  }

  /** Reads back an optionally signed decimal numeral. */
  function ParseInt(s: string): Option<int> {
    if |s| > 0 && s[0] == '-' then
      match ParseNat(s[1..])
      case None => None
      case Some(v) => Some(0 - v as int)
    else
      match ParseNat(s)
      case None => None
      case Some(v) => Some(v)
  }

  lemma {:induction false} ParseNatToString(n: nat)
    ensures ParseNat(NatToString(n)) == Some(n)
    decreases n
  {
    if n >= 10 {
      var s := NatToString(n);
      assert s[..|s| - 1] == NatToString(n / 10);
      ParseNatToString(n / 10);
    }
  }

  /** Reading the numeral back gives the number: `toString` loses nothing. */
  lemma ParseIntToString(i: int)
    ensures ParseInt(IntToString(i)) == Some(i)
  {
    var s := IntToString(i);
    if i < 0 {
      assert s[0] == '-' && s[1..] == NatToString(-i);
      ParseNatToString(-i);
      assert ParseInt(s) == Some(0 - (-i));
    } else {
      assert s == NatToString(i) && s[0] != '-';
      ParseNatToString(i);
    }
  }

  /** Distinct integers have distinct numerals. */
  lemma IntToStringInjective(i: int, j: int)
    requires IntToString(i) == IntToString(j)
    ensures i == j
  {
    ParseIntToString(i);
    ParseIntToString(j);
  }

  /** Leading zeros added by `padStart` do not change the number read back. */
  lemma {:induction false} ParseNatZeroPadded(k: nat, s: string)
    requires |s| > 0 && AllDigits(s)
    ensures ParseNat(seq(k, _ => '0') + s) == ParseNat(s)
    decreases |s|
  {
    var t := seq(k, _ => '0') + s;
    if |s| == 1 {
      ZeroesParse(k);
      assert t[..|t| - 1] == seq(k, _ => '0');
      if k > 0 {
        assert ParseNat(t[..|t| - 1]) == Some(0);
      }
    } else {
      assert t[..|t| - 1] == seq(k, _ => '0') + s[..|s| - 1];
      ParseNatZeroPadded(k, s[..|s| - 1]);
    }
  }

  lemma {:induction false} ZeroesParse(k: nat)
    ensures k > 0 ==> ParseNat(seq(k, _ => '0')) == Some(0)
  {
    if k > 1 {
      assert seq(k, _ => '0')[..k - 1] == seq(k - 1, _ => '0');
      ZeroesParse(k - 1);
    }
  }
}
