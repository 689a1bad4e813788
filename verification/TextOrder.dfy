/** Character-by-character order of texts, and how it reads fixed-width decimal fields. */
module TextOrder {

  predicate TextLess(a: string, b: string) {
    b != "" && (a == "" || a[0] < b[0] || (a[0] == b[0] && TextLess(a[1..], b[1..])))
  }

  lemma {:induction false} TextLessIsTotal(a: string, b: string)
    ensures a == b || TextLess(a, b) || TextLess(b, a)
    ensures !(TextLess(a, b) && TextLess(b, a)) && !TextLess(a, a)
  {
    if a != "" && b != "" {
      TextLessIsTotal(a[1..], b[1..]);
      if a[0] == b[0] && a[1..] == b[1..] {
        assert a == [a[0]] + a[1..] == b;
      }
    }
    if a != "" {
      TextLessIsTotal(a[1..], a[1..]);
    }
  }

  lemma {:induction false} TextLessIsTransitive(a: string, b: string, c: string)
    requires TextLess(a, b) && TextLess(b, c)
    ensures TextLess(a, c)
  {
    if a != "" && a[0] == b[0] == c[0] {
      TextLessIsTransitive(a[1..], b[1..], c[1..]);
    }
  }

  /** Texts of one length in front are compared first. */
  lemma {:induction false} FrontDecides(a: string, b: string, c: string, d: string)
    requires |a| == |c|
    ensures TextLess(a + b, c + d) <==> TextLess(a, c) || (a == c && TextLess(b, d))
  {
    if a == "" {
      assert a + b == b && c + d == d;
    } else {
      assert (a + b)[1..] == a[1..] + b && (c + d)[1..] == c[1..] + d;
      FrontDecides(a[1..], b, c[1..], d);
      assert a == [a[0]] + a[1..] && c == [c[0]] + c[1..];
    }
  }

  function DigitChar(d: nat): char
    requires d < 10
  {
    '0' + d as char
  }

  /** The last `width` decimal digits, zero-padded. */
  function Digits(n: nat, width: nat): (r: string)
    ensures |r| == width
  {
    if width == 0 then "" else Digits(n / 10, width - 1) + [DigitChar(n % 10)]
  }

  function Pow10(width: nat): (p: nat)
    ensures p >= 1
  {
    if width == 0 then 1 else 10 * Pow10(width - 1)
  }

  /** Zero-padded numbers that fit the field sort as numbers. */
  lemma {:induction false} DigitsSortAsNumbers(m: nat, n: nat, width: nat)
    requires m < Pow10(width) && n < Pow10(width)
    ensures TextLess(Digits(m, width), Digits(n, width)) <==> m < n
    ensures Digits(m, width) == Digits(n, width) <==> m == n
  {
    if width > 0 {
      DigitsSortAsNumbers(m / 10, n / 10, width - 1);
      var a, c := Digits(m / 10, width - 1), Digits(n / 10, width - 1);
      var b, d := [DigitChar(m % 10)], [DigitChar(n % 10)];
      FrontDecides(a, b, c, d);
      assert TextLess(b, d) <==> m % 10 < n % 10 by {
        assert b[1..] == "" && d[1..] == "";
      }
      assert (a + b)[..width - 1] == a && (c + d)[..width - 1] == c;
      assert (a + b)[width - 1] == b[0] && (c + d)[width - 1] == d[0];
    }
  }
}
