/** The format checks of `ValidationUtil`: the Luhn mod-10 checksum of a
    card number and the dotted-quad IPv4 pattern. */
module Validation {
  import opened Base
  import opened Text

  // ---------------------------------------------------------------------
  // Luhn checksum
  // ---------------------------------------------------------------------

  /** What one digit adds to the Luhn sum: itself, or, when doubled, twice
      itself with 9 taken off a two-digit result. The source writes the
      latter as `(n % 10) + 1`. */
  function Contribution(c: char, doubled: bool): (n: nat)
    requires IsDigit(c)
    ensures n <= 9
    ensures !doubled ==> n == DigitValue(c)
    ensures doubled ==> n == 2 * DigitValue(c) - (if 2 * DigitValue(c) > 9 then 9 else 0)
  {
    var d := DigitValue(c);
    if doubled then (if 2 * d > 9 then (2 * d) % 10 + 1 else 2 * d) else d
  }

  /** The Luhn sum: every second digit counted from the right (the last
      digit being the first) is doubled. The first digit of `s` has
      `|s| - 1` digits to its right, so it is doubled iff `|s|` is even. */
  function LuhnSum(s: string): nat
    requires AllDigits(s)
  {
    if |s| == 0 then 0 else Contribution(s[0], |s| % 2 == 0) + LuhnSum(s[1..])
  }

  /** A card number: a non-empty string of ASCII digits whose Luhn sum is a
      multiple of 10. */
  predicate LuhnValid(s: string) {
    |s| > 0 && AllDigits(s) && LuhnSum(s) % 10 == 0
  }

  /** `isValidLuhn`: the right-to-left loop of the source, with `null`
      modelled as `None`. */
  method IsValidLuhn(number: Option<string>) returns (valid: bool)
    ensures valid <==> number.Some? && LuhnValid(number.value)
  {
    if number.None? || |number.value| == 0 || !AllDigits(number.value) {
      return false;
    }
    var s := number.value;
    var sum := 0;
    var alternate := false;
    var i := |s| - 1;
    while i >= 0
      invariant -1 <= i < |s|
      invariant sum == LuhnSum(s[i + 1..])
      invariant alternate <==> (|s| - 1 - i) % 2 == 1
    {
      var n := DigitValue(s[i]);
      if alternate {
        n := n * 2;
        if n > 9 {
          n := (n % 10) + 1;
        }
      }
      assert s[i..][1..] == s[i + 1..];
      sum := sum + n;
      alternate := !alternate;
      i := i - 1;
    }
    assert s[0..] == s;
    valid := sum % 10 == 0;
  }

  /** Different digits in the same position contribute differently. */
  lemma ContributionInjective(c: char, c': char, doubled: bool)
    requires IsDigit(c) && IsDigit(c') && c != c'
    ensures Contribution(c, doubled) != Contribution(c', doubled)
  {
  }

  /** Replacing the digit at `i` changes the Luhn sum by exactly the change
      of that digit's contribution. */
  lemma {:induction false} LuhnSumUpdate(s: string, i: int, c: char)
    requires AllDigits(s) && 0 <= i < |s| && IsDigit(c)
    ensures AllDigits(s[i := c])
    ensures LuhnSum(s[i := c]) - LuhnSum(s)
         == Contribution(c, (|s| - i) % 2 == 0) - Contribution(s[i], (|s| - i) % 2 == 0)
  {
    var t := s[i := c];
    assert AllDigits(t);
    if i == 0 {
      assert t[1..] == s[1..];
    } else {
      assert t[1..] == s[1..][i - 1 := c];
      LuhnSumUpdate(s[1..], i - 1, c);
    }
  }

  /** A single mistyped digit always breaks the checksum. */
  lemma SingleDigitErrorDetected(s: string, i: int, c: char)
    requires LuhnValid(s) && 0 <= i < |s| && IsDigit(c) && c != s[i]
    ensures !LuhnValid(s[i := c])
  {
    var doubled := (|s| - i) % 2 == 0;
    LuhnSumUpdate(s, i, c);
    ContributionInjective(c, s[i], doubled);
    NotMultipleOfTen(LuhnSum(s), Contribution(c, doubled) - Contribution(s[i], doubled));
  }

  lemma NotMultipleOfTen(sum: int, delta: int)
    requires sum % 10 == 0 && -9 <= delta <= 9 && delta != 0
    ensures (sum + delta) % 10 != 0
  {
    var k := sum / 10;
    assert sum == 10 * k;
  }

  /** A few numbers: "18" passes (1 doubled is 2, plus 8), changing its
      last digit fails, and the empty string fails. */
  lemma LuhnExamples()
    ensures LuhnValid("18")
    ensures !LuhnValid("19")
    ensures !LuhnValid("")
  {
    var s := "18";
    assert AllDigits(s);
    assert LuhnSum(s[1..]) == 8 by { LuhnStep(s, 1); }
    assert LuhnSum(s[0..]) == 10 by { LuhnStep(s, 0); }
    assert s[0..] == s;
    var s' := "19";
    assert AllDigits(s');
    assert LuhnSum(s'[1..]) == 9 by { LuhnStep(s', 1); }
    assert LuhnSum(s'[0..]) == 11 by { LuhnStep(s', 0); }
    assert s'[0..] == s';
  }

  /** One step of the Luhn sum at position `i`. */
  lemma LuhnStep(s: string, i: int)
    requires AllDigits(s) && 0 <= i < |s|
    ensures AllDigits(s[i..]) && AllDigits(s[i + 1..])
    ensures LuhnSum(s[i..]) == Contribution(s[i], (|s| - i) % 2 == 0) + LuhnSum(s[i + 1..])
  {
    assert s[i..][1..] == s[i + 1..];
  }

  // ---------------------------------------------------------------------
  // IPv4 dotted quad
  // ---------------------------------------------------------------------

  /** One octet of the pattern: `25[0-5]|2[0-4][0-9]|[01]?[0-9][0-9]?`.
      For two characters the last alternative matches `[01][0-9]` as well
      as `[0-9][0-9]`, which together are any two digits. */
  predicate OctetPattern(t: string) {
    || (|t| == 3 && t[0] == '2' && t[1] == '5' && '0' <= t[2] <= '5')
    || (|t| == 3 && t[0] == '2' && '0' <= t[1] <= '4' && IsDigit(t[2]))
    || (|t| == 1 && IsDigit(t[0]))
    || (|t| == 2 && IsDigit(t[0]) && IsDigit(t[1]))
    || (|t| == 3 && (t[0] == '0' || t[0] == '1') && IsDigit(t[1]) && IsDigit(t[2]))
  }

  /** An octet: one to three ASCII digits with value at most 255; leading
      zeros are allowed. */
  predicate Octet(t: string) {
    1 <= |t| <= 3 && AllDigits(t) && DecimalValue(t) <= 255
  }

  /** The octet alternative of the pattern accepts exactly the octets. */
  lemma OctetPatternIsOctet(t: string)
    ensures OctetPattern(t) <==> Octet(t)
  {
    if 1 <= |t| <= 3 && AllDigits(t) {
      OctetValue(t);
    }
  }

  /** The value of a string of one to three digits, written out. */
  lemma OctetValue(t: string)
    requires 1 <= |t| <= 3 && AllDigits(t)
    ensures |t| == 1 ==> DecimalValue(t) == DigitValue(t[0])
    ensures |t| == 2 ==> DecimalValue(t) == 10 * DigitValue(t[0]) + DigitValue(t[1])
    ensures |t| == 3 ==> DecimalValue(t) == 100 * DigitValue(t[0]) + 10 * DigitValue(t[1]) + DigitValue(t[2])
  {
    var p := t[..|t| - 1];
    assert AllDigits(p);
    assert DecimalValue(t) == 10 * DecimalValue(p) + DigitValue(t[|t| - 1]);
    if |t| >= 2 {
      var q := p[..|p| - 1];
      assert AllDigits(q);
      assert DecimalValue(p) == 10 * DecimalValue(q) + DigitValue(p[|p| - 1]);
      if |t| == 3 {
        assert AllDigits(q[..0]);
        assert DecimalValue(q) == DigitValue(t[0]);
      }
    }
  }

  /** The pattern is anchored and only digits and dots occur in it, so a
      string matches iff its dot-separated fields are exactly four octet
      matches. */
  predicate QuadFields(s: string) {
    var fields := Split(s, '.');
    |fields| == 4 && forall i :: 0 <= i < 4 ==> OctetPattern(fields[i])
  }

  /** Four octets joined by dots. */
  ghost predicate DottedQuad(s: string) {
    exists a, b, c, d :: Octet(a) && Octet(b) && Octet(c) && Octet(d) && s == Join([a, b, c, d], ".")
  }

  /** `isValidIpV4`: the whole string matches four octets separated by
      dots (`null` is `None`); the accepted strings are exactly the dotted
      quads. */
  predicate IsValidIpV4(ip: Option<string>)
    ensures IsValidIpV4(ip) <==> ip.Some? && DottedQuad(ip.value)
  {
    match ip
    case None => false
    case Some(s) =>
      QuadFieldsAreDottedQuads(s);
      QuadFields(s)
  }

  /** The field test accepts exactly the dotted quads. */
  lemma QuadFieldsAreDottedQuads(s: string)
    ensures QuadFields(s) <==> DottedQuad(s)
  {
    if QuadFields(s) {
      QuadFieldsAreOctets(s);
      var f := Split(s, '.');
      assert f == [f[0], f[1], f[2], f[3]];
      assert Octet(f[0]) && Octet(f[1]) && Octet(f[2]) && Octet(f[3]);
    }
    if DottedQuad(s) {
      var a, b, c, d :| Octet(a) && Octet(b) && Octet(c) && Octet(d) && s == Join([a, b, c, d], ".");
      OctetsAreQuadFields(a, b, c, d);
    }
  }

  /** Every accepted address is four octets joined by dots. */
  lemma QuadFieldsAreOctets(s: string)
    requires QuadFields(s)
    ensures var f := Split(s, '.');
      |f| == 4 && s == Join(f, ".") && forall i :: 0 <= i < 4 ==> Octet(f[i])
  {
    var f := Split(s, '.');
    JoinSplit(s, '.');
    forall i | 0 <= i < 4 ensures Octet(f[i]) {
      OctetPatternIsOctet(f[i]);
    }
  }

  /** Every four octets joined by dots are accepted. */
  lemma OctetsAreQuadFields(a: string, b: string, c: string, d: string)
    requires Octet(a) && Octet(b) && Octet(c) && Octet(d)
    ensures QuadFields(Join([a, b, c, d], "."))
  {
    var f := [a, b, c, d];
    forall i | 0 <= i < 4 ensures '.' !in f[i] && OctetPattern(f[i]) {
      OctetPatternIsOctet(f[i]);
    }
    SplitJoin(f, '.');
  }
}
