/**
 * C's `atoi`, as the loader applies it to the first field of a line: skip
 * leading white space, accept one optional sign, then read the longest run
 * of decimal digits; anything else ends the number, and text without digits
 * there reads as 0. Overflow of `int` is undefined in C and is excluded by
 * the loader's callers (see `ZipCodes.WellFormedLine`), so the value here is
 * an unbounded integer. `IntToDecimal` renders an integer the way `%d` does
 * and is the inverse `atoi` is proved against.
 */
module CNumbers {

  /** The characters `isspace` accepts in the "C" locale: ' ', '\t', '\n', '\v', '\f', '\r'. */
  predicate IsSpace(c: char)
  {
    c == ' ' || '\t' <= c <= '\r'
  }

  predicate IsDigit(c: char)
  {
    '0' <= c <= '9'
  }

  predicate AllDigits(s: string)
  {
    forall i | 0 <= i < |s| :: IsDigit(s[i])
  }

  /** How many white-space characters `s` starts with. */
  function SpaceRun(s: string): (k: nat)
    ensures k <= |s|
    ensures forall i | 0 <= i < k :: IsSpace(s[i])
    ensures k == |s| || !IsSpace(s[k])
    decreases |s|
  {
    if s != [] && IsSpace(s[0]) then 1 + SpaceRun(s[1..]) else 0
  }

  /** How many digits `s` starts with. */
  function DigitRun(s: string): (k: nat)
    ensures k <= |s|
    ensures forall i | 0 <= i < k :: IsDigit(s[i])
    ensures k == |s| || !IsDigit(s[k])
    decreases |s|
  {
    if s != [] && IsDigit(s[0]) then 1 + DigitRun(s[1..]) else 0
  }

  /** The longest prefix of `s` made of digits. */
  function LeadingDigits(s: string): (r: string)
    ensures AllDigits(r)
  {
    s[..DigitRun(s)]
  }

  function DigitValue(c: char): (d: nat)
    requires IsDigit(c)
  {
    (c as int - '0' as int) as nat
  }

  /** The value of a digit string, accumulated left to right as atoi does. */
  function DecimalValue(ds: string): (n: nat)
    requires AllDigits(ds)
    decreases |ds|
  {
    if ds == [] then 0
    else 10 * DecimalValue(ds[..|ds| - 1]) + DigitValue(ds[|ds| - 1])
  }

  /**
   * C's `atoi`. Text that does not start with white space, a sign or a
   * digit reads as 0, and a run of digits alone reads as its value.
   */
  function Atoi(s: string): (r: int)
    ensures s == [] || !(IsSpace(s[0]) || IsDigit(s[0]) || s[0] == '-' || s[0] == '+') ==> r == 0
    ensures AllDigits(s) ==> r == DecimalValue(s)
  {
    assert AllDigits(s) ==> SpaceRun(s) == 0 && LeadingDigits(s) == s by {
      if AllDigits(s) && s != [] {
        assert !IsSpace(s[0]);
      }
    }
    var t := s[SpaceRun(s)..];
    if t != [] && (t[0] == '-' || t[0] == '+') then
      var magnitude: int := DecimalValue(LeadingDigits(t[1..]));
      if t[0] == '-' then -magnitude else magnitude
    else
      DecimalValue(LeadingDigits(t))
  }

  function DigitChar(d: nat): (c: char)
    requires d < 10
    ensures IsDigit(c) && DigitValue(c) == d
  {
    ('0' as int + d) as char
  }

  /** The decimal digits of `n`, most significant first, without leading zeros. */
  function NatToDecimal(n: nat): (s: string)
    ensures s != [] && AllDigits(s)
    ensures n > 0 ==> s[0] != '0'
    decreases n
  {
    if n < 10 then [DigitChar(n)] else NatToDecimal(n / 10) + [DigitChar(n % 10)]
  }

  /** `n` as `printf("%d")` writes it. */
  function IntToDecimal(n: int): (s: string)
  {
    if n < 0 then "-" + NatToDecimal(-n) else NatToDecimal(n)
  }

  /** Reading back the digits of `n` gives `n`. */
  lemma {:induction false} DecimalValueOfDigits(n: nat)
    ensures DecimalValue(NatToDecimal(n)) == n
    decreases n
  {
    if n >= 10 {
      var s := NatToDecimal(n);
      assert s[..|s| - 1] == NatToDecimal(n / 10);
      DecimalValueOfDigits(n / 10);
    }
  }

  /** A digit run followed by a non-digit (or nothing) is read up to its end. */
  lemma {:induction false} LeadingDigitsOfRun(ds: string, rest: string)
    requires AllDigits(ds)
    requires rest == [] || !IsDigit(rest[0])
    ensures LeadingDigits(ds + rest) == ds
  {
    var s := ds + rest;
    assert forall i | 0 <= i < |ds| :: s[i] == ds[i] && IsDigit(s[i]);
    assert |ds| < |s| ==> s[|ds|] == rest[0];
    assert DigitRun(s) == |ds|;
    assert s[..|ds|] == ds;
  }

  /**
   * atoi reads back what `%d` wrote, also when other text (a '\n', a second
   * field) follows, as long as it does not start with a digit.
   */
  lemma {:induction false} AtoiOfDecimal(n: int, rest: string)
    requires rest == [] || !IsDigit(rest[0])
    ensures Atoi(IntToDecimal(n) + rest) == n
  {
    var m: nat := if n < 0 then -n else n;
    var digits := NatToDecimal(m);
    DecimalValueOfDigits(m);
    LeadingDigitsOfRun(digits, rest);
    if n < 0 {
      assert IntToDecimal(n) + rest == ['-'] + (digits + rest);
      AtoiOfSigned('-', digits + rest);
    } else {
      assert IntToDecimal(n) + rest == digits + rest;
      AtoiOfUnsigned(digits + rest);
    }
  }

  /** Text that starts with a digit is read from its first character. */
  lemma {:induction false} AtoiOfUnsigned(s: string)
    requires s != [] && IsDigit(s[0])
    ensures Atoi(s) == DecimalValue(LeadingDigits(s))
  {
    assert SpaceRun(s) == 0;
  }

  /** atoi skips any white space before the number: a space run does not change the value. */
  lemma {:induction false} AtoiSkipsSpace(ws: string, s: string)
    requires forall i | 0 <= i < |ws| :: IsSpace(ws[i])
    requires s == [] || !IsSpace(s[0])
    ensures Atoi(ws + s) == Atoi(s)
  {
    SpaceRunOfRun(ws, s);
    assert (ws + s)[|ws|..] == s;
    assert SpaceRun(s) == 0 && s[0..] == s;
  }

  /** A space run followed by a non-space (or nothing) is skipped up to its end. */
  lemma {:induction false} SpaceRunOfRun(ws: string, s: string)
    requires forall i | 0 <= i < |ws| :: IsSpace(ws[i])
    requires s == [] || !IsSpace(s[0])
    ensures SpaceRun(ws + s) == |ws|
    decreases |ws|
  {
    if ws != [] {
      SpaceRunOfRun(ws[1..], s);
      assert (ws + s)[1..] == ws[1..] + s;
    } else {
      assert ws + s == s;
    }
  }

  /** Text that starts with a sign is read from the character after it. */
  lemma {:induction false} AtoiOfSigned(sign: char, s: string)
    requires sign == '-' || sign == '+'
    ensures Atoi([sign] + s) == (if sign == '-' then -1 else 1) * DecimalValue(LeadingDigits(s))
  {
    var t := [sign] + s;
    assert SpaceRun(t) == 0;
    assert t[1..] == s;
  }

  /** Text with no digit at all, such as a place name, reads as 0. */
  lemma {:induction false} AtoiWithoutDigits(s: string)
    requires forall i | 0 <= i < |s| :: !IsDigit(s[i])
    ensures Atoi(s) == 0
  {
    var k := SpaceRun(s);
    var t := s[k..];
    if t != [] {
      assert DigitRun(t) == 0 by {
        assert t[0] == s[k];
      }
      assert DigitRun(t[1..]) == 0 by {
        assert |t| > 1 ==> t[1..][0] == s[k + 1];
      }
    }
  }

  /** Leading zeros, as in "00000", add nothing to the value. */
  lemma {:induction false} DecimalValueZeros(k: nat)
    ensures AllDigits(Zeros(k)) && DecimalValue(Zeros(k)) == 0
    decreases k
  {
    if k > 0 {
      DecimalValueZeros(k - 1);
      assert Zeros(k)[..k - 1] == Zeros(k - 1);
    }
  }

  function Zeros(k: nat): (s: string)
    ensures |s| == k
    decreases k
  {
    if k == 0 then [] else Zeros(k - 1) + "0"
  }
}
