/**
 * The JavaScript string primitives the form relies on: whitespace as `trim` and `\s`
 * understand it, trimming, whitespace removal, ASCII upper-casing, decimal rendering of
 * numbers and the five-character HTML escape shared by `html` and `escapeHTML`.
 */
module Text {

  /** JavaScript's WhiteSpace and LineTerminator code points: what `trim` removes and `\s` matches. */
  predicate IsWhitespace(c: char) {
    var n := c as int;
    n == 0x09 || n == 0x0A || n == 0x0B || n == 0x0C || n == 0x0D || n == 0x20 || n == 0xA0
    || n == 0x1680 || (0x2000 <= n <= 0x200A) || n == 0x2028 || n == 0x2029 || n == 0x202F
    || n == 0x205F || n == 0x3000 || n == 0xFEFF
  }

  predicate AllWhitespace(s: string) {
    forall i :: 0 <= i < |s| ==> IsWhitespace(s[i])
  }

  predicate IsDigit(c: char) {
    '0' <= c <= '9'
  }

  predicate AllDigits(s: string) {
    forall i :: 0 <= i < |s| ==> IsDigit(s[i])
  }

  predicate IsLetter(c: char) {
    ('a' <= c <= 'z') || ('A' <= c <= 'Z')
  }

  predicate AllLetters(s: string) {
    forall i :: 0 <= i < |s| ==> IsLetter(s[i])
  }

  // ---------------------------------------------------------------- trimming

  /** The first position at or after i that holds no whitespace, or |s| when there is none. */
  function SkipLeading(s: string, i: nat): (j: nat)
    requires i <= |s|
    ensures i <= j <= |s|
    ensures forall k :: i <= k < j ==> IsWhitespace(s[k])
    ensures j < |s| ==> !IsWhitespace(s[j])
    decreases |s| - i
  {
    if i < |s| && IsWhitespace(s[i]) then SkipLeading(s, i + 1) else i
  }

  /** The end of `s[..j]` once its trailing whitespace is dropped. */
  function SkipTrailing(s: string, j: nat): (i: nat)
    requires j <= |s|
    ensures i <= j
    ensures forall k :: i <= k < j ==> IsWhitespace(s[k])
    ensures i > 0 ==> !IsWhitespace(s[i - 1])
    decreases j
  {
    if j > 0 && IsWhitespace(s[j - 1]) then SkipTrailing(s, j - 1) else j
  }

  /** `String.prototype.trim`: the text between the first and the last character that is not
      whitespace. The result is empty exactly when the input is all whitespace. */
  function Trim(s: string): (r: string)
    ensures r == [] <==> AllWhitespace(s)
    ensures r != [] ==> !IsWhitespace(r[0]) && !IsWhitespace(r[|r| - 1])
  {
    var a := SkipLeading(s, 0);
    var b := SkipTrailing(s, |s|);
    if a < b then
      assert s[a..b][0] == s[a] && s[a..b][b - a - 1] == s[b - 1];
      s[a..b]
    else
      []
  }

  /** The leading scan is determined by its contract. */
  lemma SkipLeadingAt(s: string, i: nat, j: nat)
    requires i <= j <= |s|
    requires forall k :: i <= k < j ==> IsWhitespace(s[k])
    requires j < |s| ==> !IsWhitespace(s[j])
    ensures SkipLeading(s, i) == j
  {
  }

  /** The trailing scan is determined by its contract. */
  lemma SkipTrailingAt(s: string, j: nat, i: nat)
    requires i <= j <= |s|
    requires forall k :: i <= k < j ==> IsWhitespace(s[k])
    requires i > 0 ==> !IsWhitespace(s[i - 1])
    ensures SkipTrailing(s, j) == i
  {
  }

  /** Trim removes exactly the whitespace padding around a core that starts and ends with a
      non-whitespace character, and nothing of the core. */
  lemma TrimOfPadded(w1: string, m: string, w2: string)
    requires AllWhitespace(w1) && AllWhitespace(w2)
    requires m == [] || (!IsWhitespace(m[0]) && !IsWhitespace(m[|m| - 1]))
    ensures Trim(w1 + m + w2) == m
  {
    var s := w1 + m + w2;
    var a, b := |w1|, |w1| + |m|;
    forall k | 0 <= k < a ensures IsWhitespace(s[k]) {
      assert s[k] == w1[k];
    }
    forall k | b <= k < |s| ensures IsWhitespace(s[k]) {
      assert s[k] == w2[k - b];
    }
    if m == [] {
      assert AllWhitespace(s);
    } else {
      assert s[a] == m[0] && s[b - 1] == m[|m| - 1];
      SkipLeadingAt(s, 0, a);
      SkipTrailingAt(s, |s|, b);
      assert s[a..b] == m;
    }
  }

  /** A string that neither starts nor ends with whitespace is its own trim. */
  lemma TrimUnpadded(s: string)
    requires s == [] || (!IsWhitespace(s[0]) && !IsWhitespace(s[|s| - 1]))
    ensures Trim(s) == s
  {
    if s != [] {
      SkipLeadingAt(s, 0, 0);
      SkipTrailingAt(s, |s|, |s|);
      assert s[0..|s|] == s;
    }
  }

  // ---------------------------------------------------------------- whitespace removal

  /** `s.replace(/\s/g, '')`: every whitespace character removed, the rest kept in order. */
  function StripWhitespace(s: string): (r: string)
    ensures |r| <= |s|
    ensures forall i :: 0 <= i < |r| ==> !IsWhitespace(r[i])
  {
    if s == [] then [] else (if IsWhitespace(s[0]) then [] else [s[0]]) + StripWhitespace(s[1..])
  }

  lemma {:induction false} StripWhitespaceAppend(a: string, b: string)
    ensures StripWhitespace(a + b) == StripWhitespace(a) + StripWhitespace(b)
  {
    if a == [] {
      assert a + b == b;
    } else {
      assert (a + b)[0] == a[0] && (a + b)[1..] == a[1..] + b;
      StripWhitespaceAppend(a[1..], b);
    }
  }

  /** A string without whitespace comes through unchanged. */
  lemma {:induction false} StripWhitespaceKeeps(s: string)
    requires forall i :: 0 <= i < |s| ==> !IsWhitespace(s[i])
    ensures StripWhitespace(s) == s
  {
    if s != [] {
      StripWhitespaceKeeps(s[1..]);
    }
  }

  /** Removing whitespace twice removes nothing more. */
  lemma StripWhitespaceIdempotent(s: string)
    ensures StripWhitespace(StripWhitespace(s)) == StripWhitespace(s)
  {
    StripWhitespaceKeeps(StripWhitespace(s));
  }

  /** Any whitespace character inserted anywhere is deleted, not replaced: the result is as if
      it had never been there. */
  lemma StripWhitespaceDrops(a: string, c: char, b: string)
    requires IsWhitespace(c)
    ensures StripWhitespace(a + [c] + b) == StripWhitespace(a + b)
  {
    StripWhitespaceAppend(a + [c], b);
    StripWhitespaceAppend(a, [c]);
    StripWhitespaceAppend(a, b);
    assert [c][1..] == [];
    assert StripWhitespace([c]) == [];
  }

  // ---------------------------------------------------------------- upper case

  predicate IsLower(c: char) {
    'a' <= c <= 'z'
  }

  /** `toUpperCase` on the ASCII range: a-z become A-Z, everything else is kept. */
  function UpperAscii(s: string): (r: string)
    ensures |r| == |s|
    ensures forall i :: 0 <= i < |r| ==> !IsLower(r[i])
    ensures forall i :: 0 <= i < |s| && !IsLower(s[i]) ==> r[i] == s[i]
    ensures forall i :: 0 <= i < |s| && IsLower(s[i]) ==> r[i] as int == s[i] as int - 32
  {
    seq(|s|, i requires 0 <= i < |s| => if IsLower(s[i]) then (s[i] as int - 32) as char else s[i])
  }

  // ---------------------------------------------------------------- decimal numbers

  function DigitChar(d: nat): (c: char)
    requires d < 10
    ensures IsDigit(c) && c as int - '0' as int == d
  {
    ('0' as int + d) as char
  }

  /** How JavaScript writes a non-negative integer into a template string. */
  function NatToString(n: nat): (r: string)
    ensures |r| >= 1 && AllDigits(r)
    ensures r[0] == '0' ==> n == 0
    decreases n
  {
    if n < 10 then [DigitChar(n)] else NatToString(n / 10) + [DigitChar(n % 10)]
  }

  /** Reads a decimal digit string back: the inverse of NatToString. */
  function ParseNat(s: string): nat
    requires AllDigits(s)
  {
    if s == [] then 0 else ParseNat(s[..|s| - 1]) * 10 + (s[|s| - 1] as int - '0' as int)
  }

  lemma {:induction false} ParseNatToString(n: nat)
    ensures ParseNat(NatToString(n)) == n
    decreases n
  {
    if n >= 10 {
      var r := NatToString(n);
      assert r[..|r| - 1] == NatToString(n / 10);
      ParseNatToString(n / 10);
    }
  }

  // ---------------------------------------------------------------- HTML escaping

  predicate IsMarkupChar(c: char) {
    c == '<' || c == '>' || c == '"' || c == '\''
  }

  /** The entity `html` / `escapeHTML` substitute for one character. */
  function EscapeChar(c: char): (r: string)
    ensures forall i :: 0 <= i < |r| ==> !IsMarkupChar(r[i])
    ensures (c != '&' && !IsMarkupChar(c)) <==> r == [c]
  {
    if c == '&' then "&amp;"
    else if c == '<' then "&lt;"
    else if c == '>' then "&gt;"
    else if c == '"' then "&quot;"
    else if c == '\'' then "&#39;"
    else [c]
  }

  /** The replacement `/[&<>"']/g` performs: each character replaced by its entity, in order. */
  function Escape(s: string): (r: string)
    ensures |r| >= |s|
    ensures forall i :: 0 <= i < |r| ==> !IsMarkupChar(r[i])
  {
    if s == [] then [] else
      var h, t := EscapeChar(s[0]), Escape(s[1..]);
      assert forall i :: |h| <= i < |h + t| ==> (h + t)[i] == t[i - |h|];
      h + t
  }

  /** Escaping works character by character: escaping a concatenation concatenates the escapes. */
  lemma {:induction false} EscapeAppend(a: string, b: string)
    ensures Escape(a + b) == Escape(a) + Escape(b)
  {
    if a == [] {
      assert a + b == b;
    } else {
      assert (a + b)[0] == a[0] && (a + b)[1..] == a[1..] + b;
      EscapeAppend(a[1..], b);
    }
  }

  /** Text without any of the five special characters is left as it is. */
  lemma {:induction false} EscapePlain(s: string)
    requires forall i :: 0 <= i < |s| ==> s[i] != '&' && !IsMarkupChar(s[i])
    ensures Escape(s) == s
  {
    if s != [] {
      EscapePlain(s[1..]);
    }
  }

  /** Decodes the five entities the escape produces; every other character is copied. */
  function Unescape(s: string): string
    decreases |s|
  {
    if |s| >= 5 && s[..5] == "&amp;" then "&" + Unescape(s[5..])
    else if |s| >= 4 && s[..4] == "&lt;" then "<" + Unescape(s[4..])
    else if |s| >= 4 && s[..4] == "&gt;" then ">" + Unescape(s[4..])
    else if |s| >= 6 && s[..6] == "&quot;" then "\"" + Unescape(s[6..])
    else if |s| >= 5 && s[..5] == "&#39;" then "'" + Unescape(s[5..])
    else if s == [] then []
    else [s[0]] + Unescape(s[1..])
  }

  /** Decoding an escaped character in front of any text yields the character back. */
  lemma UnescapeEscapeChar(c: char, t: string)
    ensures Unescape(EscapeChar(c) + t) == [c] + Unescape(t)
  {
    if c == '&' {
      var u := "&amp;" + t;
      assert u[..5] == "&amp;" && u[5..] == t;
    } else if c == '<' {
      UnescapeLt(t);
    } else if c == '>' {
      UnescapeGt(t);
    } else if c == '"' {
      UnescapeQuot(t);
    } else if c == '\'' {
      UnescapeApos(t);
    } else {
      var u := [c] + t;
      assert u[0] == c && u[1..] == t;
    }
  }

  lemma UnescapeLt(t: string)
    ensures Unescape("&lt;" + t) == "<" + Unescape(t)
  {
    var u := "&lt;" + t;
    assert u[1] == 'l';
    assert |u| >= 5 ==> u[..5][1] == 'l';
    assert u[..4] == "&lt;" && u[4..] == t;
  }

  lemma UnescapeGt(t: string)
    ensures Unescape("&gt;" + t) == ">" + Unescape(t)
  {
    var u := "&gt;" + t;
    assert u[1] == 'g';
    assert |u| >= 5 ==> u[..5][1] == 'g';
    assert u[..4][1] == 'g';
    assert u[..4] == "&gt;" && u[4..] == t;
  }

  lemma UnescapeQuot(t: string)
    ensures Unescape("&quot;" + t) == "\"" + Unescape(t)
  {
    var u := "&quot;" + t;
    assert u[1] == 'q';
    assert u[..5][1] == 'q' && u[..4][1] == 'q';
    assert u[..6] == "&quot;" && u[6..] == t;
  }

  lemma UnescapeApos(t: string)
    ensures Unescape("&#39;" + t) == "'" + Unescape(t)
  {
    var u := "&#39;" + t;
    assert u[1] == '#';
    assert u[..5][1] == '#' && u[..4][1] == '#';
    assert |u| >= 6 ==> u[..6][1] == '#';
    assert u[..5] == "&#39;" && u[5..] == t;
  }

  /** The escape loses nothing: decoding it gives back the original text. */
  lemma {:induction false} UnescapeEscape(s: string)
    ensures Unescape(Escape(s)) == s
  {
    if s != [] {
      assert Escape(s) == EscapeChar(s[0]) + Escape(s[1..]);
      UnescapeEscapeChar(s[0], Escape(s[1..]));
      UnescapeEscape(s[1..]);
      assert s == [s[0]] + s[1..];
    }
  }
}
