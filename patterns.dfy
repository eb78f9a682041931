/**
 * The few fixed regular languages the form checks, each written directly as a predicate on
 * characters, next to a reference definition that reads like the regular expression
 * (a choice of split point or prefix), with a lemma that the two agree.
 */
module Patterns {
  import opened Text

  // ---------------------------------------------------------------- ^\d{n}$

  /** Exactly `n` ASCII digits and nothing else. */
  predicate IsDigitString(s: string, n: nat) {
    |s| == n && AllDigits(s)
  }

  // ---------------------------------------------------------------- ^[a-zA-Z]{2,3}\d{2,3}$

  /** The number of ASCII letters at the start of `s`. */
  function LeadingLetters(s: string): (k: nat)
    ensures k <= |s| && AllLetters(s[..k])
    ensures k < |s| ==> !IsLetter(s[k])
  {
    if s != [] && IsLetter(s[0]) then
      var k := 1 + LeadingLetters(s[1..]);
      assert s[..k] == [s[0]] + s[1..][..k - 1];
      k
    else 0
  }

  /** An ODS organisation code: 2 or 3 letters of either case, then 2 or 3 digits. */
  predicate IsOdsCode(s: string) {
    var k := LeadingLetters(s);
    2 <= k <= 3 && 2 <= |s| - k <= 3 && AllDigits(s[k..])
  }

  /** The regular expression read literally: some split of `s` into a letter run and a digit run. */
  ghost predicate OdsLanguage(s: string) {
    exists k :: 2 <= k <= 3 && k <= |s| && 2 <= |s| - k <= 3 && AllLetters(s[..k]) && AllDigits(s[k..])
  }

  /** The leading letter count is the only split point a letters-then-non-letter string has. */
  lemma {:induction false} LeadingLettersAt(s: string, k: nat)
    requires k <= |s| && AllLetters(s[..k])
    requires k < |s| ==> !IsLetter(s[k])
    ensures LeadingLetters(s) == k
  {
    if k > 0 {
      assert s[1..][..k - 1] == s[1..k];
      assert k - 1 < |s[1..]| ==> s[1..][k - 1] == s[k];
      LeadingLettersAt(s[1..], k - 1);
    } else if s != [] {
      assert !IsLetter(s[0]);
    }
  }

  lemma OdsCodeIsOdsLanguage(s: string)
    ensures IsOdsCode(s) <==> OdsLanguage(s)
  {
    if OdsLanguage(s) {
      var k :| 2 <= k <= 3 && k <= |s| && 2 <= |s| - k <= 3 && AllLetters(s[..k]) && AllDigits(s[k..]);
      assert s[k..][0] == s[k];
      LeadingLettersAt(s, k);
    }
    if IsOdsCode(s) {
      var k := LeadingLetters(s);
      assert 2 <= k <= 3 && k <= |s| && 2 <= |s| - k <= 3 && AllLetters(s[..k]) && AllDigits(s[k..]);
    }
  }

  // ---------------------------------------------------------------- ^(0|\+?44)[17]\d{8,9}$

  /** What follows the trunk prefix: a 1 or a 7, then 8 or 9 digits. */
  predicate IsSubscriberPart(t: string) {
    |t| >= 1 && (t[0] == '1' || t[0] == '7') && AllDigits(t[1..]) && 8 <= |t| - 1 <= 9
  }

  /** A UK phone number: `0`, `44` or `+44`, then the subscriber part. */
  predicate IsUkPhone(s: string) {
    if |s| >= 1 && s[0] == '0' then IsSubscriberPart(s[1..])
    else if |s| >= 2 && s[0] == '4' && s[1] == '4' then IsSubscriberPart(s[2..])
    else if |s| >= 3 && s[0] == '+' && s[1] == '4' && s[2] == '4' then IsSubscriberPart(s[3..])
    else false
  }

  /** The regular expression read literally: one of the three prefixes followed by the rest. */
  ghost predicate UkPhoneLanguage(s: string) {
    exists p: string, t: string :: (p == "0" || p == "44" || p == "+44") && s == p + t && IsSubscriberPart(t)
  }

  lemma UkPhoneIsUkPhoneLanguage(s: string)
    ensures IsUkPhone(s) <==> UkPhoneLanguage(s)
  {
    if UkPhoneLanguage(s) {
      var p: string, t: string :| (p == "0" || p == "44" || p == "+44") && s == p + t && IsSubscriberPart(t);
      assert s[|p|..] == t;
      assert s[..|p|] == p;
    }
    if IsUkPhone(s) {
      if s[0] == '0' {
        assert s == "0" + s[1..];
      } else if s[0] == '4' {
        assert s == "44" + s[2..];
      } else {
        assert s == "+44" + s[3..];
      }
    }
  }

  /** Two worked examples: a mobile number in international format passes, a London
      landline fails because 2 cannot follow the trunk prefix. */
  lemma UkPhoneExamples()
    ensures IsUkPhone("+447912345678")
    ensures !IsUkPhone("0207123456")
  {
    var s := "+447912345678";
    assert s[3..] == "7912345678";
    assert AllDigits(s[3..][1..]);
  }

  // ---------------------------------------------------------------- the schema's patterns

  /** The `pattern` values the field schema uses. */
  datatype Pattern = UkPhonePattern | DigitsPattern(count: nat)

  /** The pattern as it is written into the `pattern` attribute. */
  function Source(p: Pattern): (r: string)
    ensures |r| >= 2 && r[0] == '^' && r[|r| - 1] == '$'
  {
    match p
    case UkPhonePattern => "^(0|\\+?44)[17]\\d{8,9}$"
    case DigitsPattern(n) => "^\\d{" + NatToString(n) + "}$"
  }

  /** Whether a value matches the pattern (the browser anchors it at both ends). */
  predicate Matches(p: Pattern, value: string) {
    match p
    case UkPhonePattern => IsUkPhone(value)
    case DigitsPattern(n) => IsDigitString(value, n)
  }
}
