/** String helpers shared by the controllers: decimal digits with zero padding (the
    .NET `D3` and `yyyy`/`MM`/`dd` format specifiers), `string.Contains`, and
    `string.IsNullOrWhiteSpace`. */
module Text {
  import opened Wrappers

  predicate IsDigit(c: char) {
    '0' <= c <= '9'
  }

  predicate AllDigits(s: string) {
    forall i :: 0 <= i < |s| ==> IsDigit(s[i])
  }

  function DigitChar(d: nat): (c: char)
    requires d < 10
    ensures IsDigit(c)
  {
    "0123456789"[d]
  }

  function DigitValue(c: char): nat
    requires IsDigit(c)
  {
    (c as int - '0' as int) as nat
  }

  /** The decimal representation of `n`, most significant digit first, without leading
      zeros ("0" for zero). */
  function Digits(n: nat): (s: string)
    ensures 1 <= |s| && AllDigits(s)
    decreases n
  {
    if n < 10 then [DigitChar(n)] else Digits(n / 10) + [DigitChar(n % 10)]
  }

  /** The number a string of decimal digits denotes. */
  function ValueOf(s: string): nat
    requires AllDigits(s)
  {
    if s == [] then 0 else ValueOf(s[..|s| - 1]) * 10 + DigitValue(s[|s| - 1])
  }

  lemma {:induction false} DigitsRoundTrip(n: nat)
    ensures ValueOf(Digits(n)) == n
    decreases n
  {
    if n >= 10 {
      DigitsRoundTrip(n / 10);
      var s := Digits(n);
      assert s[..|s| - 1] == Digits(n / 10);
    }
  }

  /** Leading zeros do not change the value of a digit string. */
  lemma {:induction false} LeadingZeroValue(s: string)
    requires AllDigits(s)
    ensures AllDigits(['0'] + s) && ValueOf(['0'] + s) == ValueOf(s)
    decreases |s|
  {
    if s != [] {
      var t := ['0'] + s;
      assert t[..|t| - 1] == ['0'] + s[..|s| - 1];
      LeadingZeroValue(s[..|s| - 1]);
    }
  }

  function Zeros(k: nat): (s: string)
    ensures |s| == k && forall i :: 0 <= i < k ==> s[i] == '0'
  {
    if k == 0 then [] else ['0'] + Zeros(k - 1)
  }

  lemma {:induction false} ZerosValue(k: nat, s: string)
    requires AllDigits(s)
    ensures AllDigits(Zeros(k) + s) && ValueOf(Zeros(k) + s) == ValueOf(s)
    decreases k
  {
    if k > 0 {
      var t := Zeros(k - 1) + s;
      ZerosValue(k - 1, s);
      LeadingZeroValue(t);
      assert Zeros(k) == ['0'] + Zeros(k - 1);
      assert Zeros(k) + s == ['0'] + t;
    } else {
      assert Zeros(k) + s == s;
    }
  }

  /** `n` formatted with at least `width` digits, padded with leading zeros: .NET's
      `n.ToString("D" + width)`. A number with more digits than `width` is not cut. */
  function ZeroPad(n: nat, width: nat): (s: string)
    ensures AllDigits(s)
    ensures |s| == if |Digits(n)| < width then width else |Digits(n)|
  {
    var d := Digits(n);
    if |d| < width then Zeros(width - |d|) + d else d
  }

  /** Zero padding loses nothing: the padded text reads back as the number. */
  lemma {:induction false} ZeroPadRoundTrip(n: nat, width: nat)
    ensures ValueOf(ZeroPad(n, width)) == n
  {
    var d := Digits(n);
    DigitsRoundTrip(n);
    if |d| < width {
      var z := Zeros(width - |d|) + d;
      ZerosValue(width - |d|, d);
      assert ZeroPad(n, width) == z;
      assert ValueOf(ZeroPad(n, width)) == ValueOf(z);
    } else {
      assert ZeroPad(n, width) == d;
    }
  }

  /** The `D3` format of a sequence number. */
  function Pad3(n: nat): (s: string)
    ensures AllDigits(s) && 3 <= |s|
    ensures n < 1000 ==> |s| == 3
  {
    assert n < 1000 ==> |Digits(n)| <= 3 by {
      if n < 1000 { DigitsBelow(n, 1000, 3); }
    }
    ZeroPad(n, 3)
  }

  /** A number below 10^k has at most k digits. */
  lemma {:induction false} DigitsBelow(n: nat, bound: nat, k: nat)
    requires 1 <= k && bound == Pow10(k) && n < bound
    ensures |Digits(n)| <= k
    decreases k
  {
    if n >= 10 {
      assert k >= 2;
      assert n / 10 < Pow10(k - 1);
      DigitsBelow(n / 10, Pow10(k - 1), k - 1);
      assert |Digits(n)| == |Digits(n / 10)| + 1;
    }
  }

  function Pow10(k: nat): (p: nat)
    ensures p >= 1
  {
    if k == 0 then 1 else 10 * Pow10(k - 1)
  }

  /** Distinct sequence numbers never format alike. */
  lemma Pad3Injective(m: nat, n: nat)
    requires Pad3(m) == Pad3(n)
    ensures m == n
  {
    ZeroPadRoundTrip(m, 3);
    ZeroPadRoundTrip(n, 3);
  }

  /** `a` sorts before `b` when their characters are compared by code, as
      `string.CompareOrdinal(a, b) < 0`: at the first difference, or `a` being a proper
      prefix of `b`. */
  predicate OrdinalLess(a: string, b: string) {
    if a == [] then b != []
    else if b == [] then false
    else if a[0] != b[0] then a[0] < b[0]
    else OrdinalLess(a[1..], b[1..])
  }

  /** Behind a common-length front, the order is that of the fronts, or, when they are
      equal, that of the rests. */
  lemma {:induction false} OrdinalLessConcat(p: string, q: string, r: string, t: string)
    requires |p| == |q|
    ensures OrdinalLess(p + r, q + t) == if p == q then OrdinalLess(r, t) else OrdinalLess(p, q)
    decreases |p|
  {
    if p != [] {
      assert (p + r)[1..] == p[1..] + r && (q + t)[1..] == q[1..] + t;
      OrdinalLessConcat(p[1..], q[1..], r, t);
      if p[0] == q[0] {
        assert p == q <==> p[1..] == q[1..] by {
          if p[1..] == q[1..] { assert p == [p[0]] + p[1..] && q == [q[0]] + q[1..]; }
        }
      }
    } else {
      assert p + r == r && q + t == t;
    }
  }

  /** A digit string denotes less than 10 to the power of its length. */
  lemma {:induction false} ValueOfBound(x: string)
    requires AllDigits(x)
    ensures ValueOf(x) < Pow10(|x|)
    decreases |x|
  {
    if x != [] {
      ValueOfBound(x[..|x| - 1]);
    }
  }

  /** The value of a digit string, read from the front: its first digit times the
      place value, plus the value of the rest. */
  lemma {:induction false} ValueOfFront(x: string)
    requires AllDigits(x) && |x| >= 1
    ensures ValueOf(x) == DigitValue(x[0]) * Pow10(|x| - 1) + ValueOf(x[1..])
    decreases |x|
  {
    var n := |x|;
    if n == 1 {
      assert x[..0] == [] && x[1..] == [];
    } else {
      var init := x[..n - 1];
      ValueOfFront(init);
      assert init[0] == x[0] && init[1..] == x[1..][..n - 2];
      var d, p := DigitValue(x[0]), Pow10(n - 2);
      assert ValueOf(x[1..]) == ValueOf(init[1..]) * 10 + DigitValue(x[n - 1]);
      assert Pow10(n - 1) == 10 * p;
      assert (d * p + ValueOf(init[1..])) * 10 == d * (10 * p) + ValueOf(init[1..]) * 10;
    }
  }

  /** For digit strings of the same length, character order is numeric order. */
  lemma {:induction false} DigitsOrder(x: string, y: string)
    requires AllDigits(x) && AllDigits(y) && |x| == |y|
    ensures OrdinalLess(x, y) <==> ValueOf(x) < ValueOf(y)
    decreases |x|
  {
    if x != [] {
      ValueOfFront(x);
      ValueOfFront(y);
      ValueOfBound(x[1..]);
      ValueOfBound(y[1..]);
      DigitsOrder(x[1..], y[1..]);
      var dx, dy, p := DigitValue(x[0]), DigitValue(y[0]), Pow10(|x| - 1);
      var rx, ry := ValueOf(x[1..]), ValueOf(y[1..]);
      if dx < dy {
        PlaceValueOrder(dx, dy, p, rx, ry);
      } else if dy < dx {
        PlaceValueOrder(dy, dx, p, ry, rx);
      } else {
        assert x[0] == y[0];
      }
    }
  }

  /** A smaller leading digit makes a smaller number, whatever follows it. */
  lemma PlaceValueOrder(da: nat, db: nat, p: nat, ra: nat, rb: nat)
    requires da < db && ra < p
    ensures da * p + ra < db * p + rb
  {
    assert (da + 1) * p <= db * p;
  }

  /** `hay.Contains(needle)`: `needle` occurs in `hay` as a contiguous piece. */
  predicate Contains(hay: string, needle: string) {
    exists i | 0 <= i <= |hay| - |needle| :: OccursAt(hay, needle, i)
  }

  predicate OccursAt(hay: string, needle: string, i: int) {
    0 <= i <= |hay| - |needle| && hay[i..i + |needle|] == needle
  }

  /** The characters `char.IsWhiteSpace` accepts that can appear in a query string
      (the Latin-1 ones; see README for the rest of Unicode's space separators). */
  predicate IsWhiteSpace(c: char) {
    c == ' ' || c == '\t' || c == '\n' || c == '\r' || c == '\U{B}' || c == '\U{C}'
    || c == '\U{85}' || c == '\U{A0}'
  }

  /** `string.IsNullOrWhiteSpace(s)`, with an absent query parameter as `None`. */
  predicate IsBlank(s: Option<string>) {
    s.None? || forall i :: 0 <= i < |s.value| ==> IsWhiteSpace(s.value[i])
  }

  /** The text after the last hyphen of `s` (all of `s` if it has none). */
  function LastSegment(s: string): (t: string)
    ensures '-' !in t
  {
    if s == [] then []
    else if s[|s| - 1] == '-' then []
    else LastSegment(s[..|s| - 1]) + [s[|s| - 1]]
  }

  lemma {:induction false} LastSegmentAfterHyphen(a: string, t: string)
    requires '-' !in t
    ensures LastSegment(a + "-" + t) == t
    decreases |t|
  {
    var s := a + "-" + t;
    if t != [] {
      var u := t[..|t| - 1];
      assert s[..|s| - 1] == a + "-" + u;
      assert '-' !in u by {
        forall i | 0 <= i < |u| ensures u[i] != '-' { assert u[i] == t[i]; }
      }
      LastSegmentAfterHyphen(a, u);
      assert t == u + [t[|t| - 1]];
    } else {
      assert s[|s| - 1] == '-';
    }
  }

  lemma AllDigitsNoHyphen(s: string)
    requires AllDigits(s)
    ensures '-' !in s
  {
  }
}
