/** `f"{n:,}".replace(",", ".")` for a non-negative integer: its decimal
    digits with a dot between groups of three, counted from the right. */
module Thousands {

  predicate IsDigit(c: char) {
    '0' <= c <= '9'
  }

  function DigitChar(d: nat): (c: char)
    requires d < 10
    ensures IsDigit(c)
  {
    (d + '0' as int) as char
  }

  /** The decimal digits of `n`, without leading zeros ("0" for 0). */
  function Digits(n: nat): (s: string)
    ensures |s| >= 1
    ensures forall i :: 0 <= i < |s| ==> IsDigit(s[i])
    decreases n
  {
    if n < 10 then [DigitChar(n)] else Digits(n / 10) + [DigitChar(n % 10)]
  }

  /** The number a digit string denotes. */
  function Value(s: string): (r: nat)
    requires forall i :: 0 <= i < |s| ==> IsDigit(s[i])
    decreases |s|
  {
    if s == [] then 0
    else
      assert IsDigit(s[|s| - 1]);
      10 * Value(s[..|s| - 1]) + (s[|s| - 1] as int - '0' as int)
  }

  /** A three-digit group, zero-padded. */
  function Pad3(n: nat): (s: string)
    requires n < 1000
    ensures |s| == 3 && forall i :: 0 <= i < 3 ==> IsDigit(s[i])
  {
    [DigitChar(n / 10 / 10), DigitChar(n / 10 % 10), DigitChar(n % 10)]
  }

  /** The dashboard's headline formatting: a non-empty string of digits and
      dots. */
  function FormatThousands(n: nat): (s: string)
    ensures |s| >= 1
    ensures forall i :: 0 <= i < |s| ==> s[i] == '.' || IsDigit(s[i])
    decreases n
  {
    if n < 1000 then Digits(n) else FormatThousands(n / 1000) + "." + Pad3(n % 1000)
  }

  /** `s` with every dot taken out. */
  function RemoveDots(s: string): (r: string)
    ensures '.' !in r
    decreases |s|
  {
    if s == [] then []
    else RemoveDots(s[..|s| - 1]) + (if s[|s| - 1] == '.' then [] else [s[|s| - 1]])
  }

  /** Digits and dots only; reading from the right, every fourth character is
      a dot and no other is; the leftmost group is not empty and has at most
      three digits. */
  predicate Grouped(s: string) {
    && |s| % 4 != 0
    && (forall i :: 0 <= i < |s| ==> (s[i] == '.' <==> (|s| - i) % 4 == 0))
    && (forall i :: 0 <= i < |s| && s[i] != '.' ==> IsDigit(s[i]))
  }

  /** `Digits` is read back by `Value`, and has no leading zero. */
  lemma {:induction false} DigitsValue(n: nat)
    ensures Value(Digits(n)) == n
    ensures Digits(n)[0] == '0' ==> n == 0
    decreases n
  {
    if n >= 10 {
      DigitsValue(n / 10);
      var d := Digits(n / 10);
      assert (d + [DigitChar(n % 10)])[..|d|] == d;
      assert (d + [DigitChar(n % 10)])[0] == d[0];
    }
  }

  /** The digits of a number of four or more digits are those of its
      thousands followed by its last three digits. */
  lemma DigitsSplit(n: nat)
    requires n >= 1000
    ensures Digits(n) == Digits(n / 1000) + Pad3(n % 1000)
  {
    var q, r := n / 1000, n % 1000;
    var a := n / 10;
    var b := a / 10;
    assert n == 10 * (100 * q) + r;
    Div10(100 * q, r);
    assert a == 10 * (10 * q) + r / 10;
    Div10(10 * q, r / 10);
    assert b == 10 * q + r / 10 / 10;
    Div10(q, r / 10 / 10);
    assert b / 10 == q && b % 10 == r / 10 / 10;
    assert Digits(b) == Digits(q) + [DigitChar(r / 10 / 10)];
    assert Digits(a) == Digits(b) + [DigitChar(r / 10 % 10)];
    assert Digits(n) == Digits(a) + [DigitChar(r % 10)];
  }

  lemma Div10(a: nat, b: nat)
    ensures (10 * a + b) / 10 == a + b / 10
    ensures (10 * a + b) % 10 == b % 10
  {
  }

  /** Taking the dots out gives back the digits of `n`. */
  lemma {:induction false} FormatDigits(n: nat)
    ensures RemoveDots(FormatThousands(n)) == Digits(n)
    decreases n
  {
    if n < 1000 {
      NoDots(Digits(n));
    } else {
      FormatDigits(n / 1000);
      var f := FormatThousands(n / 1000);
      var p := Pad3(n % 1000);
      assert FormatThousands(n) == (f + ".") + p;
      RemoveDotsConcat(f + ".", p);
      RemoveDotsConcat(f, ".");
      assert RemoveDots(".") == [] by {
        assert "."[..0] == [];
      }
      NoDots(p);
      DigitsSplit(n);
      assert RemoveDots(f + ".") == Digits(n / 1000);
    }
  }

  /** Reading the formatted string without its dots gives back `n`. */
  lemma FormatRoundTrip(n: nat)
    ensures forall i :: 0 <= i < |RemoveDots(FormatThousands(n))| ==> IsDigit(RemoveDots(FormatThousands(n))[i])
    ensures Value(RemoveDots(FormatThousands(n))) == n
  {
    FormatDigits(n);
    DigitsValue(n);
  }

  /** The formatted string has the dot-grouped shape. */
  lemma {:induction false} FormatGrouped(n: nat)
    ensures Grouped(FormatThousands(n))
    decreases n
  {
    if n < 1000 {
      DigitsLength(n);
    } else {
      FormatGrouped(n / 1000);
      var f := FormatThousands(n / 1000);
      var s := FormatThousands(n);
      assert s == f + "." + Pad3(n % 1000);
      assert |s| == |f| + 4;
      forall i | 0 <= i < |s| ensures s[i] == '.' <==> (|s| - i) % 4 == 0 {
        if i < |f| {
          assert s[i] == f[i];
          assert (|s| - i) % 4 == (|f| - i) % 4;
        }
      }
    }
  }

  /** Below 1000 there is no dot, the number's digits standing alone. */
  lemma SmallHasNoDot(n: nat)
    requires n < 1000
    ensures FormatThousands(n) == Digits(n)
    ensures '.' !in FormatThousands(n)
  {
  }

  /** From 1000 on there is at least one dot. */
  lemma LargeHasDot(n: nat)
    requires n >= 1000
    ensures '.' in FormatThousands(n)
  {
    var f := FormatThousands(n / 1000);
    assert FormatThousands(n)[|f|] == '.';
  }

  lemma FormatExample()
    ensures FormatThousands(1234567) == "1.234.567"
  {
    assert Pad3(567) == "567";
    assert Pad3(234) == "234";
    assert FormatThousands(1) == "1";
  }

  /** Numbers below 1000 have at most three digits. */
  lemma {:induction false} DigitsLength(n: nat)
    requires n < 1000
    ensures |Digits(n)| <= 3
  {
    if n >= 10 {
      DigitsLength(n / 10);
      if n >= 100 {
        assert n / 10 >= 10;
      } else {
        assert |Digits(n / 10)| == 1;
      }
    }
  }

  lemma {:induction false} NoDots(s: string)
    requires '.' !in s
    ensures RemoveDots(s) == s
    decreases |s|
  {
    if s != [] {
      var n := |s| - 1;
      assert '.' !in s[..n];
      NoDots(s[..n]);
      assert s == s[..n] + [s[n]];
    }
  }

  lemma {:induction false} RemoveDotsConcat(a: string, b: string)
    ensures RemoveDots(a + b) == RemoveDots(a) + RemoveDots(b)
    decreases |b|
  {
    if b == [] {
      assert a + b == a;
    } else {
      var n := |b| - 1;
      assert (a + b)[..|a + b| - 1] == a + b[..n];
      assert (a + b)[|a + b| - 1] == b[n];
      RemoveDotsConcat(a, b[..n]);
    }
  }
}
