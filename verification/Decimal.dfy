/** The C library's decimal conversions, `%d`/`%ld` and `atoi`/`atol`, over unbounded integers. */
module Decimal {
  import opened Text

  predicate IsDigit(c: char) {
    '0' <= c <= '9'
  }

  function DigitOf(c: char): nat
    requires IsDigit(c)
  {
    c as int - '0' as int
  }

  /** The number spelled by the digits at the front of `s`, after those already read. */
  function DigitsValue(s: string, read: nat): nat {
    if s == "" || !IsDigit(s[0]) then read
    else DigitsValue(s[1..], 10 * read + DigitOf(s[0]))
  }

  /** `atoi`: leading white space, an optional sign, digits; anything after is ignored. */
  function Atoi(s: string): int {
    var t := SkipSpaces(s);
    if StartsWith(t, '-') then 0 - DigitsValue(t[1..], 0)
    else if StartsWith(t, '+') then DigitsValue(t[1..], 0)
    else DigitsValue(t, 0)
  }

  function DigitChar(d: nat): (c: char)
    requires d < 10
    ensures IsDigit(c)
  {
    (d + '0' as int) as char
  }

  function PrintNat(n: nat): (s: string)
    ensures s != "" && forall i | 0 <= i < |s| :: IsDigit(s[i])
  {
    if n < 10 then [DigitChar(n)] else PrintNat(n / 10) + [DigitChar(n % 10)]
  }

  /** `%d`. */
  function PrintInt(n: int): (s: string)
    ensures s != "" && forall i | 0 <= i < |s| :: IsDigit(s[i]) || s[i] == '-'
  {
    if n < 0 then "-" + PrintNat(-n) else PrintNat(n)
  }

  lemma {:induction false} DigitsValueSnoc(s: string, read: nat, c: char)
    requires IsDigit(c) && forall i | 0 <= i < |s| :: IsDigit(s[i])
    ensures DigitsValue(s + [c], read) == 10 * DigitsValue(s, read) + DigitOf(c)
  {
    if s == "" {
      assert s + [c] == [c] && [c][1..] == "";
    } else {
      assert (s + [c])[1..] == s[1..] + [c];
      DigitsValueSnoc(s[1..], 10 * read + DigitOf(s[0]), c);
    }
  }

  lemma {:induction false} DigitsOfPrintNat(n: nat)
    ensures DigitsValue(PrintNat(n), 0) == n
  {
    if n >= 10 {
      DigitsOfPrintNat(n / 10);
      DigitsValueSnoc(PrintNat(n / 10), 0, DigitChar(n % 10));
    } else {
      assert PrintNat(n)[1..] == "";
    }
  }

  /** Reading back a printed number. */
  lemma AtoiOfPrintInt(n: int)
    ensures Atoi(PrintInt(n)) == n
  {
    if n < 0 {
      assert PrintInt(n)[1..] == PrintNat(-n);
      DigitsOfPrintNat(-n);
    } else {
      DigitsOfPrintNat(n);
    }
  }

  lemma PrintSamples()
    ensures PrintInt(0) == "0" && PrintInt(1987) == "1987" && PrintInt(-46) == "-46"
  {
    assert PrintNat(1) == "1" && PrintNat(19) == "1" + "9" && PrintNat(198) == "19" + "8";
    assert PrintNat(1987) == "198" + "7" && PrintNat(4) == "4" && PrintNat(46) == "4" + "6";
  }

  lemma ReadPlain()
    ensures Atoi("3250 x") == 3250 && Atoi("x1") == 0
  {
    var a := "3250 x";
    assert a[1..] == "250 x" && "250 x"[1..] == "50 x" && "50 x"[1..] == "0 x" && "0 x"[1..] == " x";
    assert DigitsValue(" x", 3250) == 3250 && DigitsValue("0 x", 325) == 3250 && DigitsValue("50 x", 32) == 3250;
    assert DigitsValue("250 x", 3) == 3250 && DigitsValue(a, 0) == 3250 && SkipSpaces(a) == a;
  }

  lemma ReadSigned()
    ensures Atoi(" \t-46") == -46
  {
    var b := " \t-46";
    assert b[1..] == "\t-46" && "\t-46"[1..] == "-46" && SkipSpaces("-46") == "-46";
    assert SkipSpaces("\t-46") == "-46" && SkipSpaces(b) == "-46";
    assert "-46"[1..] == "46" && "46"[1..] == "6" && "6"[1..] == "";
    assert DigitsValue("", 46) == 46 && DigitsValue("6", 4) == 46 && DigitsValue("46", 0) == 46;
  }

  lemma ReadPlus()
    ensures Atoi("+7") == 7
  {
    assert "+7"[1..] == "7" && "7"[1..] == "" && DigitsValue("", 7) == 7 && DigitsValue("7", 0) == 7;
  }
}
