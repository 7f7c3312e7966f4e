/**
 * JSON numbers as Python's json module hands them to the handlers, and the
 * text an f-string replacement field `{x}` produces for them (Python's `str`).
 *
 * An integer is kept as its value and rendered in decimal; a float is kept as
 * the text `str` prints for it, since binary floating point is not modelled.
 */
module Numbers {
  import opened Wrappers

  datatype Number = Int(i: int) | Float(shown: string)

  predicate IsDigit(c: char) {
    '0' <= c <= '9'
  }

  predicate AllDigits(s: string) {
    forall k :: 0 <= k < |s| ==> IsDigit(s[k])
  }

  function DigitValue(c: char): (d: nat)
    requires IsDigit(c)
    ensures d < 10
  {
    (c as int) - ('0' as int)
  }

  function DigitChar(d: nat): (c: char)
    requires d < 10
    ensures IsDigit(c) && DigitValue(c) == d
  {
    (('0' as int) + d) as char
  }

  /** The decimal digits of `n`, most significant first, without leading zeros. */
  function Decimal(n: nat): (s: string)
    ensures 1 <= |s|
    ensures AllDigits(s)
    ensures s[0] == '0' ==> n == 0
  {
    if n < 10 then [DigitChar(n)] else Decimal(n / 10) + [DigitChar(n % 10)]
  }

  /** The value of a string of decimal digits. */
  function ValueOf(s: string): nat
    requires AllDigits(s)
  {
    if s == [] then 0 else ValueOf(s[..|s| - 1]) * 10 + DigitValue(s[|s| - 1])
  }

  /** Python's `str(x)`: what an f-string writes for a number. */
  function Str(x: Number): (s: string)
    ensures x.Int? ==> 1 <= |s| && (s[0] == '-' <==> x.i < 0)
    ensures x.Int? ==> Canonical(if x.i < 0 then s[1..] else s)
    ensures x.Float? ==> s == x.shown
  {
    match x
    case Int(i) => if i < 0 then "-" + Decimal(-i) else Decimal(i)
    case Float(shown) => shown
  }

  /** Digits in canonical form: at least one, and no leading zero unless the number is 0. */
  predicate Canonical(s: string) {
    1 <= |s| && AllDigits(s) && (s[0] == '0' ==> |s| == 1)
  }

  /** Reads back exactly the texts `Str` gives for an integer. */
  function ParseInt(s: string): Option<int> {
    if 2 <= |s| && s[0] == '-' && Canonical(s[1..]) && s[1] != '0' then Some(-(ValueOf(s[1..]) as int))
    else if Canonical(s) then Some(ValueOf(s))
    else None
  }

  lemma {:induction false} ValueOfDecimal(n: nat)
    ensures ValueOf(Decimal(n)) == n
  {
    if n >= 10 {
      ValueOfDecimal(n / 10);
      var s := Decimal(n);
      assert s[..|s| - 1] == Decimal(n / 10);
    }
  }

  lemma {:induction false} ValueOfPositive(s: string)
    requires AllDigits(s) && 1 <= |s| && s[0] != '0'
    ensures ValueOf(s) >= 1
    ensures |s| >= 2 ==> ValueOf(s) >= 10
  {
    if |s| >= 2 {
      ValueOfPositive(s[..|s| - 1]);
    }
  }

  lemma {:induction false} DecimalValueOf(s: string)
    requires Canonical(s)
    ensures Decimal(ValueOf(s)) == s
  {
    if |s| >= 2 {
      var init := s[..|s| - 1];
      ValueOfPositive(s);
      DecimalValueOf(init);
      var v := ValueOf(s);
      var d := DigitValue(s[|s| - 1]);
      assert v == ValueOf(init) * 10 + d && d < 10;
      assert v / 10 == ValueOf(init) && v % 10 == DigitValue(s[|s| - 1]);
      assert s == init + [s[|s| - 1]];
    }
  }

  /** The integer text Python writes reads back as the same integer. */
  lemma ParseStr(i: int)
    ensures ParseInt(Str(Int(i))) == Some(i)
  {
    var s := Str(Int(i));
    if i < 0 {
      ValueOfDecimal(-i);
      assert s[1..] == Decimal(-i);
      assert 2 <= |s| && s[0] == '-' && Canonical(s[1..]) && s[1] != '0';
    } else {
      ValueOfDecimal(i);
      assert !(2 <= |s| && s[0] == '-');
    }
  }

  /** Only the text Python writes for an integer reads back as it. */
  lemma StrParse(s: string, i: int)
    requires ParseInt(s) == Some(i)
    ensures s == Str(Int(i))
  {
    if 2 <= |s| && s[0] == '-' && Canonical(s[1..]) && s[1] != '0' {
      DecimalValueOf(s[1..]);
      ValueOfPositive(s[1..]);
      assert s == "-" + s[1..];
    } else {
      DecimalValueOf(s);
    }
  }

  lemma ParseIntStr(s: string, i: int)
    ensures ParseInt(s) == Some(i) <==> s == Str(Int(i))
  {
    if ParseInt(s) == Some(i) {
      StrParse(s, i);
    }
    if s == Str(Int(i)) {
      ParseStr(i);
    }
  }
}
