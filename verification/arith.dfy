/**
 * The Java integer and string semantics the field engine relies on: 32-bit
 * wrap-around, division that rounds toward zero, the saturating float-to-int
 * cast, and the decimal text form of an int (Integer.parseInt and
 * Integer.toString). Floats are represented exactly as ratios.
 */
module Arith {
  import opened Wrappers

  const Int32Min: int := -0x8000_0000
  const Int32Max: int := 0x7fff_ffff
  const Two32: int := 0x1_0000_0000

  predicate IsInt32(x: int) {
    Int32Min <= x <= Int32Max
  }

  /** The Java int holding the low 32 bits of `x` (two's complement). */
  function Wrap32(x: int): (r: int)
    ensures IsInt32(r)
    ensures (x - r) % Two32 == 0
    ensures IsInt32(x) ==> r == x
  {
    (x - Int32Min) % Two32 + Int32Min
  }

  function Max(a: int, b: int): int {
    if a < b then b else a
  }

  function Min(a: int, b: int): int {
    if a < b then a else b
  }

  type Pos = n: int | n > 0 witness 1

  /** Java's `a / b` for a positive divisor: the quotient rounded toward zero. */
  function Quot(a: int, b: Pos): (q: int)
    ensures 0 <= a ==> 0 <= a - b * q < b
    ensures a < 0 ==> 0 - b < a - b * q <= 0
  {
    if 0 <= a then a / b else -((-a) / b)
  }

  /** Java's `a % b` for a positive divisor: the remainder takes the sign of `a`. */
  function Rem(a: int, b: Pos): (r: int)
    ensures a == b * Quot(a, b) + r
    ensures 0 <= a ==> 0 <= r < b
    ensures a < 0 ==> 0 - b < r <= 0
  {
    a - b * Quot(a, b)
  }

  /** A float value, held exactly. */
  datatype Ratio = Ratio(num: int, den: Pos)

  /** `x <= q`, exactly. */
  predicate AtMost(q: Ratio, x: int) {
    q.num <= x * q.den
  }

  /** Java's `(int)` cast of a float: toward zero, saturating at the int range. */
  function ToInt(q: Ratio): (r: int)
    ensures IsInt32(r)
    ensures IsInt32(Quot(q.num, q.den)) ==> r == Quot(q.num, q.den)
    ensures Quot(q.num, q.den) < Int32Min ==> r == Int32Min
    ensures Quot(q.num, q.den) > Int32Max ==> r == Int32Max
  {
    var t := Quot(q.num, q.den);
    if t < Int32Min then Int32Min else if t > Int32Max then Int32Max else t
  }

  /* ---------------------------------------------------------------------
     Decimal text of an int
     --------------------------------------------------------------------- */

  predicate IsDigit(c: char) {
    '0' <= c <= '9'
  }

  predicate AllDigits(s: string) {
    forall i :: 0 <= i < |s| ==> IsDigit(s[i])
  }

  /** The number a string of decimal digits denotes, most significant first. */
  function DigitsValue(s: string): nat
    requires AllDigits(s)
  {
    if |s| == 0 then 0
    else DigitsValue(s[..|s| - 1]) * 10 + (s[|s| - 1] as int - '0' as int)
  }

  /** Integer.parseInt: an optional sign, at least one ASCII digit, a value
      inside the int range; anything else is a parse error. */
  function ParseInt(s: string): (r: Option<int>)
    ensures r.Some? ==> IsInt32(r.value)
    ensures |s| == 0 ==> r.None?
    ensures r.Some? ==> IsDigit(s[0]) || ((s[0] == '-' || s[0] == '+') && |s| > 1)
    ensures r.Some? ==> forall i :: 0 < i < |s| ==> IsDigit(s[i])
    ensures r.Some? && s[0] != '-' ==> r.value >= 0
  {
    if |s| == 0 then None
    else
      var body := if s[0] == '-' || s[0] == '+' then s[1..] else s;
      if |body| == 0 || !AllDigits(body) then None
      else
        var v: int := if s[0] == '-' then 0 - DigitsValue(body) else DigitsValue(body);
        if IsInt32(v) then Some(v) else None
  }

  function DigitChar(d: nat): (c: char)
    requires d < 10
    ensures IsDigit(c) && c as int - '0' as int == d
  {
    ('0' as int + d) as char
  }

  /** The shortest decimal digits of `n`. */
  function NatDigits(n: nat): (s: string)
    ensures 0 < |s| && AllDigits(s)
    ensures DigitsValue(s) == n
  {
    if n < 10 then [DigitChar(n)]
    else
      var s := NatDigits(n / 10) + [DigitChar(n % 10)];
      assert s[..|s| - 1] == NatDigits(n / 10);
      s
  }

  /** Integer.toString: a minus sign for negatives, then the digits. */
  function IntToString(n: int): string {
    if n < 0 then "-" + NatDigits(-n) else NatDigits(n)
  }

  /** The text of an int starts with a minus sign or a digit. */
  lemma IntTextHead(n: int)
    ensures |IntToString(n)| > 0
    ensures IntToString(n)[0] == '-' || IsDigit(IntToString(n)[0])
  {
  }

  /** The text form of every int parses back to the same int. */
  lemma ParseIntToString(n: int)
    requires IsInt32(n)
    ensures ParseInt(IntToString(n)) == Some(n)
  {
    var s := IntToString(n);
    if n < 0 {
      assert s[1..] == NatDigits(-n);
    } else {
      assert s == NatDigits(n);
      assert s[0] != '-' && s[0] != '+';
    }
  }

  function Pow10(k: nat): (p: nat)
    ensures 0 < p
  {
    if k == 0 then 1 else 10 * Pow10(k - 1)
  }

  /** The exact number a decimal text denotes: an optional sign, digits, and
      optionally a point followed by more digits, with at least one digit in
      all. Anything else is rejected. */
  function ParseDecimal(s: string): (r: Option<Ratio>)
    ensures |s| == 0 ==> r.None?
    ensures r.Some? ==> forall i :: 0 < i < |s| ==> IsDigit(s[i]) || s[i] == '.'
    ensures r.Some? ==> IsDigit(s[0]) || s[0] == '.' || s[0] == '-' || s[0] == '+'
    ensures r.Some? && s[0] != '-' ==> r.value.num >= 0
  {
    if |s| == 0 then None
    else
      var body := if s[0] == '-' || s[0] == '+' then s[1..] else s;
      var point := PointAt(body);
      var whole := body[..point];
      var frac := if point < |body| then body[point + 1..] else "";
      if |whole| + |frac| == 0 || !AllDigits(whole) || !AllDigits(frac) then None
      else
        var n: int := DigitsValue(whole) * Pow10(|frac|) + DigitsValue(frac);
        Some(Ratio(if s[0] == '-' then 0 - n else n, Pow10(|frac|)))
  }

  /** The position of the first '.', or the length when there is none. */
  function PointAt(s: string): (k: nat)
    ensures k <= |s|
    ensures forall i :: 0 <= i < k ==> s[i] != '.'
    ensures k < |s| ==> s[k] == '.'
  {
    if |s| == 0 || s[0] == '.' then 0 else 1 + PointAt(s[1..])
  }

  /* ---------------------------------------------------------------------
     String helpers with Java's semantics
     --------------------------------------------------------------------- */

  /** String.startsWith. */
  predicate StartsWith(s: string, prefix: string) {
    |prefix| <= |s| && s[..|prefix|] == prefix
  }

  /** String.substring(k): fails past the end of the string. */
  function Suffix(s: string, k: nat): (r: Option<string>)
    ensures r.Some? <==> k <= |s|
    ensures r.Some? ==> |r.value| == |s| - k && forall i :: 0 <= i < |r.value| ==> r.value[i] == s[k + i]
  {
    if k <= |s| then Some(s[k..]) else None
  }

  /** The pieces of `s` between single spaces, in order. */
  function Pieces(s: string): (r: seq<string>)
    ensures 0 < |r|
    ensures forall i :: 0 <= i < |r| ==> ' ' !in r[i]
  {
    if |s| == 0 then [""]
    else
      var rest := Pieces(s[1..]);
      if s[0] == ' ' then [""] + rest else [[s[0]] + rest[0]] + rest[1..]
  }

  /** Drops empty strings from the end. */
  function DropTrailingEmpty(ps: seq<string>): (r: seq<string>)
    ensures |r| <= |ps| && r == ps[..|r|]
    ensures forall i :: |r| <= i < |ps| ==> ps[i] == ""
    ensures |r| == 0 || r[|r| - 1] != ""
  {
    if |ps| == 0 || ps[|ps| - 1] != "" then ps
    else DropTrailingEmpty(ps[..|ps| - 1])
  }

  /** String.split(" "): the pieces around every space with trailing empty
      pieces removed; a string without a space splits to itself. */
  function SplitSpace(s: string): (r: seq<string>)
    ensures ' ' !in s ==> r == [s]
    ensures forall i :: 0 <= i < |r| ==> ' ' !in r[i]
    ensures |r| > 0 ==> r[|r| - 1] != "" || r == [s]
  {
    if ' ' in s then DropTrailingEmpty(Pieces(s)) else [s]
  }

  /** Boolean.parseBoolean: "true" in any letter case, anything else is false. */
  predicate ParseBoolean(s: string) {
    |s| == 4 &&
    (s[0] == 't' || s[0] == 'T') && (s[1] == 'r' || s[1] == 'R') &&
    (s[2] == 'u' || s[2] == 'U') && (s[3] == 'e' || s[3] == 'E')
  }

  /** Boolean.toString. */
  function BoolText(b: bool): string {
    if b then "true" else "false"
  }

  /** parseBoolean reads back what toString writes, and ignores letter case. */
  lemma ParseBooleanReadsText(b: bool)
    ensures ParseBoolean(BoolText(b)) == b
    ensures ParseBoolean("TRUE") && ParseBoolean("True") && !ParseBoolean("yes") && !ParseBoolean("")
  {
  }

  /** Two words with one space between them split back into the two words. */
  lemma SplitTwoWords(a: string, b: string)
    requires ' ' !in a && ' ' !in b && b != ""
    ensures SplitSpace(a + " " + b) == [a, b]
  {
    var s := a + " " + b;
    assert s == a + [' '] + b;
    assert s[|a|] == ' ';
    PiecesAfterWord(a, b);
    PiecesNoSpace(b);
  }

  lemma {:induction false} PiecesNoSpace(x: string)
    requires ' ' !in x
    ensures Pieces(x) == [x]
  {
    if |x| > 0 {
      assert ' ' !in x[1..] by {
        forall i | 0 <= i < |x[1..]| ensures x[1..][i] != ' ' {
          assert x[1..][i] == x[i + 1];
        }
      }
      PiecesNoSpace(x[1..]);
      assert [x[0]] + x[1..] == x;
    }
  }

  lemma {:induction false} PiecesAfterWord(a: string, t: string)
    requires ' ' !in a
    ensures Pieces(a + [' '] + t) == [a] + Pieces(t)
  {
    if |a| == 0 {
      assert a + [' '] + t == [' '] + t;
      assert ([' '] + t)[1..] == t;
    } else {
      var s := a + [' '] + t;
      assert s[1..] == a[1..] + [' '] + t;
      assert ' ' !in a[1..] by {
        forall i | 0 <= i < |a[1..]| ensures a[1..][i] != ' ' {
          assert a[1..][i] == a[i + 1];
        }
      }
      PiecesAfterWord(a[1..], t);
      assert [a[0]] + a[1..] == a;
    }
  }

  /** The text form of an int reads back, as a decimal, as that int. */
  lemma ParseDecimalOfInt(n: int)
    ensures ParseDecimal(IntToString(n)) == Some(Ratio(n, 1))
    ensures ' ' !in IntToString(n)
  {
    var s := IntToString(n);
    var digits := if n < 0 then NatDigits(-n) else NatDigits(n);
    if n < 0 {
      assert s[1..] == digits;
    } else {
      assert s == digits;
    }
    assert s[0] != '+';
    assert (if s[0] == '-' || s[0] == '+' then s[1..] else s) == digits;
    NoPointInDigits(digits);
    assert digits[..|digits|] == digits;
    assert forall i :: 0 <= i < |s| ==> s[i] == '-' || IsDigit(s[i]);
  }

  lemma NoPointInDigits(d: string)
    requires AllDigits(d)
    ensures PointAt(d) == |d|
  {
    if PointAt(d) < |d| {
      assert d[PointAt(d)] == '.';
    }
  }
}
