/**
 * Python's conversions between integers and decimal text: `str(n)` for an
 * `int`, and `int(token)` for a token that holds an optional sign and ASCII
 * digits, possibly grouped by single underscores (`int("1_000") == 1000`).
 */
module PyInt {
  import PyText

  predicate IsDigit(c: char) { '0' <= c <= '9' }

  function DigitValue(c: char): (d: nat)
    requires IsDigit(c)
    ensures d < 10
  {
    c as int - '0' as int
  }

  function DigitChar(d: nat): (c: char)
    requires d < 10
    ensures IsDigit(c) && DigitValue(c) == d
  {
    (d + '0' as int) as char
  }

  /** The value of a run of digits and underscores; underscores are ignored
      and leading zeros are allowed, as `int()` does. */
  function GroupValue(d: string): nat
    requires forall i :: 0 <= i < |d| ==> IsDigit(d[i]) || d[i] == '_'
  {
    if d == [] then 0
    else if d[|d| - 1] == '_' then GroupValue(d[..|d| - 1])
    else 10 * GroupValue(d[..|d| - 1]) + DigitValue(d[|d| - 1])
  }

  /** The digit part `int()` accepts: digits, where an underscore may stand
      only between two digits. */
  predicate IsDigitPart(d: string) {
    && d != []
    && (forall i :: 0 <= i < |d| ==> IsDigit(d[i]) || d[i] == '_')
    && (forall i :: 0 <= i < |d| && d[i] == '_' ==> 0 < i < |d| - 1 && IsDigit(d[i + 1]))
  }

  /** A token `int()` converts without raising: an optional sign, then a digit part. */
  predicate IsIntLiteral(t: string) {
    && t != []
    && if t[0] == '+' || t[0] == '-' then IsDigitPart(t[1..]) else IsDigitPart(t)
  }

  /** `int(t)` for a token accepted by `IsIntLiteral`. */
  function LiteralValue(t: string): int
    requires IsIntLiteral(t)
  {
    if t[0] == '-' then -(GroupValue(t[1..]) as int)
    else if t[0] == '+' then GroupValue(t[1..])
    else GroupValue(t)
  }

  /** Decimal digits of a natural number, without leading zeros. */
  function NatToString(n: nat): (s: string)
    ensures s != [] && forall i :: 0 <= i < |s| ==> IsDigit(s[i])
    ensures s[0] == '0' ==> n == 0
  {
    if n < 10 then [DigitChar(n)] else NatToString(n / 10) + [DigitChar(n % 10)]
  }

  /** `str(n)` for an `int`: a minus sign for negative numbers, then the digits. */
  function IntToString(n: int): (s: string)
    ensures s != [] && forall i :: 0 <= i < |s| ==> !PyText.IsSpace(s[i])
  {
    if n < 0 then "-" + NatToString(-n) else NatToString(n)
  }

  lemma {:induction false} NatToStringValue(n: nat)
    ensures GroupValue(NatToString(n)) == n
  {
    if n >= 10 {
      NatToStringValue(n / 10);
      var s := NatToString(n / 10);
      assert (s + [DigitChar(n % 10)])[..|s|] == s;
    }
  }

  /** `int(str(n)) == n` for every integer `n`. */
  lemma {:induction false} IntToStringRoundTrip(n: int)
    ensures IsIntLiteral(IntToString(n))
    ensures LiteralValue(IntToString(n)) == n
  {
    var m: nat := if n < 0 then -n else n;
    var d := NatToString(m);
    NatToStringValue(m);
    assert IsDigitPart(d);
    if n < 0 {
      assert IntToString(n)[1..] == d;
    }
  }

  /** Python's `round(x)`: the nearest integer, and of two equally near the even one. */
  function RoundHalfEven(x: real): (r: int)
    ensures -0.5 <= x - r as real <= 0.5
    ensures x - x.Floor as real == 0.5 ==> r % 2 == 0
  {
    var f := x.Floor;
    var d := x - f as real;
    if d < 0.5 then f else if d > 0.5 then f + 1 else if f % 2 == 0 then f else f + 1
  }

  /** No integer is strictly nearer to `x` than `round(x)`. */
  lemma RoundHalfEvenNearest(x: real, k: int)
    ensures Abs(x - RoundHalfEven(x) as real) <= Abs(x - k as real)
  {
    var f := x.Floor;
    var r := RoundHalfEven(x);
    assert f as real <= x < f as real + 1.0;
    assert r == f || r == f + 1;
    if k <= f {
      assert x - k as real >= x - f as real;
    } else {
      assert k as real >= f as real + 1.0;
    }
  }

  function Abs(x: real): real {
    if x < 0.0 then -x else x
  }

  /** `round(x, 3)`: the nearest multiple of 0.001, ties to the even multiple. */
  function Round3(x: real): (r: real)
    ensures -0.0005 <= x - r <= 0.0005
  {
    (RoundHalfEven(x * 1000.0) as real) / 1000.0
  }

  /** Rounding to three places keeps a value between two multiples of 0.001
      between them; it never pushes a score out of its range. */
  lemma Round3Bounds(x: real, lo: int, hi: int)
    requires (lo as real) / 1000.0 <= x <= (hi as real) / 1000.0
    ensures (lo as real) / 1000.0 <= Round3(x) <= (hi as real) / 1000.0
  {
    var y := x * 1000.0;
    var r := RoundHalfEven(y);
    assert lo as real <= y <= hi as real;
    assert lo <= r <= hi by {
      assert (r as real) - 0.5 <= y <= (r as real) + 0.5;
      assert (lo as real) < (r as real) + 1.0 && (r as real) < (hi as real) + 1.0;
    }
    assert Round3(x) == (r as real) / 1000.0;
  }
}
