/**
 * The few text operations the C# code relies on, restricted to plain ASCII:
 * decimal printing of integers (string concatenation of an `int`), decimal
 * parsing (`Convert.ToInt32`, `Convert.ToDecimal` on digit strings) and the
 * ignore-case comparison of `StringComparison.InvariantCultureIgnoreCase`.
 */
module Text {
  import opened Wrappers

  predicate IsDigit(c: char) { '0' <= c <= '9' }

  predicate AllDigits(s: string) { forall i :: 0 <= i < |s| ==> IsDigit(s[i]) }

  function DigitChar(d: nat): (c: char)
    requires d < 10
    ensures IsDigit(c) && DigitValue(c) == d
  {
    ('0' as int + d) as char
  }

  function DigitValue(c: char): (d: nat)
    requires IsDigit(c)
    ensures d < 10
  {
    (c as int) - ('0' as int)
  }

  /** The value of the first `k` digits of `s`, most significant digit first. */
  function PrefixValue(s: string, k: nat): nat
    requires k <= |s| && AllDigits(s)
  {
    if k == 0 then 0 else 10 * PrefixValue(s, k - 1) + DigitValue(s[k - 1])
  }

  /** The value of a string of decimal digits. */
  function DigitsValue(s: string): nat
    requires AllDigits(s)
  {
    PrefixValue(s, |s|)
  }

  /** Digits appended after position `k` do not change the value of the first `k`. */
  lemma {:induction false} PrefixValueExtend(s: string, t: string, k: nat)
    requires k <= |s| && AllDigits(s) && AllDigits(s + t)
    ensures PrefixValue(s + t, k) == PrefixValue(s, k)
  {
    if k > 0 {
      PrefixValueExtend(s, t, k - 1);
      assert (s + t)[k - 1] == s[k - 1];
    }
  }

  /** The shortest decimal representation of `n`, as `n.ToString()` prints it. */
  function NatToString(n: nat): (s: string)
    ensures |s| > 0 && AllDigits(s)
    ensures n < 10 <==> |s| == 1
  {
    if n < 10 then [DigitChar(n)] else NatToString(n / 10) + [DigitChar(n % 10)]
  }

  /** Decimal representation of an `int`, with a leading '-' when negative. */
  function IntToString(n: int): (s: string)
    ensures |s| > 0
    ensures n < 0 <==> s[0] == '-'
  {
    if n < 0 then "-" + NatToString(-n) else NatToString(n)
  }

  /**
   * Parses an optional '-' followed by one or more ASCII digits; anything
   * else is a format error (`None`).
   */
  function ParseInteger(s: string): (r: Option<int>)
    ensures r.Some? <==> (|s| > 0 && AllDigits(s)) || (|s| > 1 && s[0] == '-' && AllDigits(s[1..]))
  {
    if |s| > 0 && AllDigits(s) then Some(DigitsValue(s))
    else if |s| > 1 && s[0] == '-' && AllDigits(s[1..]) then Some(-(DigitsValue(s[1..]) as int))
    else None
  }

  lemma {:induction false} DigitsOfNatToString(n: nat)
    ensures DigitsValue(NatToString(n)) == n
  {
    var s := NatToString(n);
    if n >= 10 {
      var init, last := NatToString(n / 10), [DigitChar(n % 10)];
      assert s == init + last;
      DigitsOfNatToString(n / 10);
      PrefixValueExtend(init, last, |init|);
      assert s[|init|] == DigitChar(n % 10);
      assert PrefixValue(s, |init| + 1) == 10 * PrefixValue(s, |init|) + DigitValue(s[|init|]);
    } else {
      assert PrefixValue(s, 1) == DigitValue(s[0]);
    }
  }

  /** Printing then parsing an integer gives it back. */
  lemma ParseIntToString(n: int)
    ensures ParseInteger(IntToString(n)) == Some(n)
  {
    var s := IntToString(n);
    if n < 0 {
      assert s[1..] == NatToString(-n);
      DigitsOfNatToString(-n);
    } else {
      DigitsOfNatToString(n);
    }
  }

  /** ASCII case folding: 'A'..'Z' map to 'a'..'z', every other character to itself. */
  function ToLower(c: char): (l: char)
    ensures !('A' <= l <= 'Z')
    ensures 'a' <= c <= 'z' ==> l == c
  {
    if 'A' <= c <= 'Z' then (c as int - 'A' as int + 'a' as int) as char else c
  }

  function Lowered(s: string): (l: string)
    ensures |l| == |s|
    ensures forall i :: 0 <= i < |s| ==> l[i] == ToLower(s[i])
  {
    if s == [] then [] else [ToLower(s[0])] + Lowered(s[1..])
  }

  /** Character-by-character comparison after ASCII case folding. */
  predicate EqualsIgnoreCase(a: string, b: string)
  {
    |a| == |b| && forall i :: 0 <= i < |a| ==> ToLower(a[i]) == ToLower(b[i])
  }

  /** Comparing ignoring case is comparing the lower-cased strings. */
  lemma EqualsIgnoreCaseIsLoweredEquality(a: string, b: string)
    ensures EqualsIgnoreCase(a, b) <==> Lowered(a) == Lowered(b)
  {
    if Lowered(a) == Lowered(b) {
      assert |a| == |b|;
      forall i | 0 <= i < |a| ensures ToLower(a[i]) == ToLower(b[i]) {
        assert Lowered(a)[i] == Lowered(b)[i];
      }
    }
  }
}
