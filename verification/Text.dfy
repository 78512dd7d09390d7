/** The few string operations of the source: stripping, decimal numerals and the
    lexicographic order of strings. */
module Text {

  predicate IsSpace(c: char) {
    c in {' ', '\t', '\n', '\r', '\U{0B}', '\U{0C}', '\U{1C}', '\U{1D}', '\U{1E}', '\U{1F}'}
  }

  function StripLeft(s: string): string {
    if s != "" && IsSpace(s[0]) then StripLeft(s[1..]) else s
  }

  function StripRight(s: string): string {
    if s != "" && IsSpace(s[|s| - 1]) then StripRight(s[..|s| - 1]) else s
  }

  function Strip(s: string): string {
    StripRight(StripLeft(s))
  }

  predicate IsBlank(s: string) {
    forall i :: 0 <= i < |s| ==> IsSpace(s[i])
  }

  lemma {:induction false} StripLeftEnds(s: string)
    ensures StripLeft(s) == "" || !IsSpace(StripLeft(s)[0])
    ensures StripLeft(s) == "" <==> IsBlank(s)
    ensures StripLeft(s) != "" ==> !IsBlank(StripLeft(s))
    ensures |StripLeft(s)| <= |s| && StripLeft(s) == s[|s| - |StripLeft(s)|..]
  {
    if s != "" && IsSpace(s[0]) {
      StripLeftEnds(s[1..]);
      assert IsBlank(s[1..]) ==> IsBlank(s) by {
        if IsBlank(s[1..]) {
          forall i | 0 <= i < |s|
            ensures IsSpace(s[i])
          {
            assert i > 0 ==> s[i] == s[1..][i - 1];
          }
        }
      }
      assert IsBlank(s) ==> IsBlank(s[1..]);
    } else if s != "" {
      assert !IsBlank(s);
    }
  }

  lemma {:induction false} StripRightEnds(s: string)
    ensures StripRight(s) == "" || !IsSpace(StripRight(s)[|StripRight(s)| - 1])
    ensures StripRight(s) == "" <==> IsBlank(s)
    ensures StripRight(s) <= s
  {
    if s != "" && IsSpace(s[|s| - 1]) {
      var q := s[..|s| - 1];
      StripRightEnds(q);
      assert IsBlank(q) ==> IsBlank(s) by {
        if IsBlank(q) {
          forall i | 0 <= i < |s|
            ensures IsSpace(s[i])
          {
            assert i < |q| ==> s[i] == q[i];
          }
        }
      }
      assert IsBlank(s) ==> IsBlank(q);
    } else if s != "" {
      assert !IsBlank(s);
    }
  }

  /** Stripping leaves nothing exactly of a blank string, and nothing to strip. */
  lemma StripEnds(s: string)
    ensures Strip(s) == "" <==> IsBlank(s)
    ensures Strip(Strip(s)) == Strip(s)
  {
    StripLeftEnds(s);
    StripRightEnds(StripLeft(s));
    var t := Strip(s);
    if t != "" {
      assert t[0] == StripLeft(s)[0];
      assert StripLeft(t) == t && StripRight(t) == t;
    }
  }

  /** A text without space at its ends is left alone. */
  lemma Trimmed(s: string)
    requires s != "" && !IsSpace(s[0]) && !IsSpace(s[|s| - 1])
    ensures Strip(s) == s
  {
    assert StripLeft(s) == s;
  }

  // ----- numerals -----

  function Digit(d: nat): char
    requires d < 10
  {
    "0123456789"[d]
  }

  function Numeral(n: nat): string {
    if n < 10 then [Digit(n)] else Numeral(n / 10) + [Digit(n % 10)]
  }

  lemma {:induction false} NumeralHasNoDash(n: nat)
    ensures Numeral(n) != "" && '-' !in Numeral(n)
    ensures n >= 10 ==> |Numeral(n)| > 1
  {
    if n >= 10 {
      NumeralHasNoDash(n / 10);
    }
  }

  lemma DigitInjective(a: nat, b: nat)
    requires a < 10 && b < 10 && Digit(a) == Digit(b)
    ensures a == b
  {
    var ds := "0123456789";
    assert ds[0] != ds[1] && ds[0] != ds[2] && ds[0] != ds[3] && ds[0] != ds[4] && ds[0] != ds[5];
  }

  lemma {:induction false} NumeralInjective(a: nat, b: nat)
    requires Numeral(a) == Numeral(b)
    ensures a == b
  {
    NumeralHasNoDash(a);
    NumeralHasNoDash(b);
    if a < 10 || b < 10 {
      assert Numeral(a)[0] == Digit(a) && Numeral(b)[0] == Digit(b);
      DigitInjective(a, b);
    } else {
      var x, y := Numeral(a), Numeral(b);
      assert x[|x| - 1] == Digit(a % 10) && y[|y| - 1] == Digit(b % 10);
      assert x[..|x| - 1] == Numeral(a / 10) && y[..|y| - 1] == Numeral(b / 10);
      DigitInjective(a % 10, b % 10);
      NumeralInjective(a / 10, b / 10);
    }
  }

  // ----- order -----

  /** Lexicographic order by code point. */
  predicate LexLeq(a: string, b: string) {
    a == "" || (b != "" && (a[0] < b[0] || (a[0] == b[0] && LexLeq(a[1..], b[1..]))))
  }

  lemma {:induction false} LexTotal(a: string, b: string)
    ensures LexLeq(a, b) || LexLeq(b, a)
  {
    if a != "" && b != "" && a[0] == b[0] {
      LexTotal(a[1..], b[1..]);
    }
  }

  lemma {:induction false} LexTransitive(a: string, b: string, c: string)
    requires LexLeq(a, b) && LexLeq(b, c)
    ensures LexLeq(a, c)
  {
    if a != "" && a[0] == b[0] == c[0] {
      LexTransitive(a[1..], b[1..], c[1..]);
    }
  }

  lemma {:induction false} LexAntisymmetric(a: string, b: string)
    requires LexLeq(a, b) && LexLeq(b, a)
    ensures a == b
  {
    if a != "" {
      LexAntisymmetric(a[1..], b[1..]);
      assert a == [a[0]] + a[1..] && b == [b[0]] + b[1..];
    }
  }
}
