/** Strings as Python sees them: decimal rendering of integers, `%0Nd` padding,
    ordering by code point, substring tests and splitting on a space. */
module Text {

  function DigitChar(d: int): (c: char)
    requires 0 <= d < 10
    ensures '0' <= c <= '9'
  {
    "0123456789"[d]
  }

  function Pow10(n: nat): (p: nat)
    ensures p >= 1
  {
    if n == 0 then 1 else 10 * Pow10(n - 1)
  }

  /** The last `w` decimal digits of `n`, most significant first. */
  function Digits(n: nat, w: nat): (s: string)
    ensures |s| == w
    ensures forall i :: 0 <= i < |s| ==> '0' <= s[i] <= '9'
  {
    if w == 0 then "" else Digits(n / 10, w - 1) + [DigitChar(n % 10)]
  }

  function NumDigits(n: nat): (w: nat)
    ensures w >= 1
  {
    if n < 10 then 1 else 1 + NumDigits(n / 10)
  }

  /** `str(n)` for a non-negative integer. */
  function NatToString(n: nat): (s: string)
    ensures |s| >= 1
  {
    Digits(n, NumDigits(n))
  }

  /** `f"{n:0{w}d}"`: the decimal digits of `n`, left-padded with zeros to width `w`. */
  function ZeroPad(n: nat, w: nat): (s: string)
    ensures |s| >= w
  {
    Digits(n, if w < NumDigits(n) then NumDigits(n) else w)
  }

  lemma {:induction false} NumDigitsFit(n: nat, w: nat)
    requires w >= 1 && n < Pow10(w)
    ensures NumDigits(n) <= w
  {
    if n >= 10 {
      assert Pow10(w) == 10 * Pow10(w - 1);
      NumDigitsFit(n / 10, w - 1);
    }
  }

  /** Padding a number that fits in `w` digits gives exactly `w` digits. */
  lemma ZeroPadFits(n: nat, w: nat)
    requires w >= 1 && n < Pow10(w)
    ensures ZeroPad(n, w) == Digits(n, w)
  {
    NumDigitsFit(n, w);
  }

  /** Python's `a < b` on strings: lexicographic by code point, a proper prefix first. */
  predicate StrLess(a: string, b: string)
  {
    if a == [] then b != []
    else if b == [] then false
    else if a[0] != b[0] then a[0] < b[0]
    else StrLess(a[1..], b[1..])
  }

  lemma {:induction false} StrLessIrreflexive(a: string)
    ensures !StrLess(a, a)
  {
    if a != [] { StrLessIrreflexive(a[1..]); }
  }

  lemma {:induction false} StrLessAsymmetric(a: string, b: string)
    requires StrLess(a, b)
    ensures !StrLess(b, a)
  {
    if a != [] && b != [] && a[0] == b[0] { StrLessAsymmetric(a[1..], b[1..]); }
  }

  lemma {:induction false} StrLessTransitive(a: string, b: string, c: string)
    requires StrLess(a, b) && StrLess(b, c)
    ensures StrLess(a, c)
  {
    if a != [] && a[0] == b[0] && b[0] == c[0] {
      StrLessTransitive(a[1..], b[1..], c[1..]);
    }
  }

  lemma {:induction false} StrLessTotal(a: string, b: string)
    requires a != b
    ensures StrLess(a, b) || StrLess(b, a)
  {
    if a != [] && b != [] && a[0] == b[0] {
      assert a == [a[0]] + a[1..] && b == [b[0]] + b[1..];
      StrLessTotal(a[1..], b[1..]);
    }
  }

  /** Two strings of equal length compare like their first differing character,
      whatever follows. */
  lemma {:induction false} StrLessConcat(p: string, q: string, x: string, y: string)
    requires |p| == |q|
    requires StrLess(p, q) || (p == q && StrLess(x, y))
    ensures StrLess(p + x, q + y)
  {
    if p != [] {
      assert (p + x)[1..] == p[1..] + x && (q + y)[1..] == q[1..] + y;
      if p[0] == q[0] { StrLessConcat(p[1..], q[1..], x, y); }
    } else {
      assert p + x == x && q + y == y;
    }
  }

  /** Fixed-width decimal renderings are ordered like the numbers they render. */
  lemma {:induction false} DigitsOrdered(a: nat, b: nat, w: nat)
    requires a < b < Pow10(w)
    ensures StrLess(Digits(a, w), Digits(b, w))
  {
    if w > 0 {
      assert Pow10(w) == 10 * Pow10(w - 1);
      if a / 10 < b / 10 {
        DigitsOrdered(a / 10, b / 10, w - 1);
        StrLessConcat(Digits(a / 10, w - 1), Digits(b / 10, w - 1), [DigitChar(a % 10)], [DigitChar(b % 10)]);
      } else {
        assert a % 10 < b % 10;
        assert "0123456789"[a % 10] < "0123456789"[b % 10];
        StrLessConcat(Digits(a / 10, w - 1), Digits(b / 10, w - 1), [DigitChar(a % 10)], [DigitChar(b % 10)]);
      }
    }
  }

  /** Python's `x in s` on strings. */
  predicate IsSubstring(x: string, s: string): (r: bool)
    ensures |x| == 1 ==> (r <==> x[0] in s)
  {
    x <= s || (s != [] && IsSubstring(x, s[1..]))
  }

  /** The index of the first occurrence of `c` in `s`, or `|s|` when there is none. */
  function IndexOf(s: string, c: char): (i: nat)
    ensures i <= |s|
    ensures i < |s| ==> s[i] == c
    ensures forall j :: 0 <= j < i ==> s[j] != c
  {
    if s == [] then 0
    else if s[0] == c then 0
    else 1 + IndexOf(s[1..], c)
  }

  /** `s.split(' ')[1]` when `s` holds a space: the text between the first space
      and the next one (or the end). */
  function SecondField(s: string): (f: string)
    requires ' ' in s
    ensures ' ' !in f
  {
    var rest := s[IndexOf(s, ' ') + 1..];
    rest[..IndexOf(rest, ' ')]
  }

  /** `s[:n]`. */
  function Prefix(s: string, n: nat): (p: string)
    ensures |p| == if |s| < n then |s| else n
    ensures p <= s
  {
    if |s| < n then s else s[..n]
  }
}
