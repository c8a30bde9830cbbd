/**
 * The JavaScript string built-ins the portal relies on, written out over
 * `seq<char>`: the `\d` class, `String.prototype.trim`, ASCII lower-casing,
 * `includes`, and decimal `toString` / `parseInt` on digit strings.
 */
module Text {

  /** The regular-expression class `\d`: the ASCII digits only. */
  predicate IsDigit(c: char) { '0' <= c <= '9' }

  predicate AllDigits(s: string) { forall i | 0 <= i < |s| :: IsDigit(s[i]) }

  /** The class `[a-zA-Z0-9]`. */
  predicate IsAsciiAlnum(c: char) { 'a' <= c <= 'z' || 'A' <= c <= 'Z' || IsDigit(c) }

  // ---------------------------------------------------------------- numbers

  function DigitChar(d: nat): (c: char)
    requires d < 10
    ensures IsDigit(c)
  {
    ('0' as int + d) as char
  }

  function DigitValue(c: char): (d: nat)
    requires IsDigit(c)
    ensures d < 10 && DigitChar(d) == c
  {
    c as int - '0' as int
  }

  /** `n.toString()` for a non-negative integer. */
  function NatString(n: nat): (s: string)
    ensures |s| >= 1 && AllDigits(s)
    decreases n
  {
    if n < 10 then [DigitChar(n)] else NatString(n / 10) + [DigitChar(n % 10)]
  }

  /** `n.toString()` for any integer. */
  function DecimalString(n: int): string
  {
    if n < 0 then "-" + NatString(-n) else NatString(n)
  }

  /** `parseInt` on a non-empty string of digits (no sign, no spaces). */
  function ParseDigits(s: string): nat
    requires |s| >= 1 && AllDigits(s)
    decreases |s|
  {
    if |s| == 1 then DigitValue(s[0])
    else ParseDigits(s[..|s| - 1]) * 10 + DigitValue(s[|s| - 1])
  }

  /** Reading back what `toString` wrote gives the number again. */
  lemma {:induction false} ParseNatString(n: nat)
    ensures ParseDigits(NatString(n)) == n
    decreases n
  {
    if n >= 10 {
      var s := NatString(n);
      assert s[..|s| - 1] == NatString(n / 10);
      ParseNatString(n / 10);
    }
  }

  // ---------------------------------------------------------------- trim

  /** The characters `String.prototype.trim` removes: ECMAScript WhiteSpace
      and LineTerminator (the Unicode space separators included). */
  predicate IsWhitespace(c: char)
  {
    c == '\t' || c == '\n' || c == '\U{000B}' || c == '\U{000C}' || c == '\r' || c == ' '
    || c == '\U{00A0}' || c == '\U{1680}' || ('\U{2000}' <= c <= '\U{200A}')
    || c == '\U{2028}' || c == '\U{2029}' || c == '\U{202F}' || c == '\U{205F}'
    || c == '\U{3000}' || c == '\U{FEFF}'
  }

  predicate Blank(s: string) { forall i | 0 <= i < |s| :: IsWhitespace(s[i]) }

  function TrimStart(s: string): string
    decreases |s|
  {
    if s != [] && IsWhitespace(s[0]) then TrimStart(s[1..]) else s
  }

  function TrimEnd(s: string): string
    decreases |s|
  {
    if s != [] && IsWhitespace(s[|s| - 1]) then TrimEnd(s[..|s| - 1]) else s
  }

  /** `s.trim()`. */
  function Trim(s: string): string
  {
    TrimEnd(TrimStart(s))
  }

  lemma {:induction false} TrimStartBlank(s: string)
    ensures TrimStart(s) == [] <==> Blank(s)
    ensures TrimStart(s) != [] ==> !IsWhitespace(TrimStart(s)[0])
    decreases |s|
  {
    if s != [] && IsWhitespace(s[0]) {
      TrimStartBlank(s[1..]);
      assert Blank(s) <==> Blank(s[1..]) by {
        if Blank(s[1..]) {
          forall i | 0 <= i < |s| ensures IsWhitespace(s[i]) {
            if i > 0 { assert s[i] == s[1..][i - 1]; }
          }
        }
      }
    }
  }

  lemma {:induction false} TrimEndBlank(s: string)
    ensures TrimEnd(s) == [] <==> Blank(s)
    decreases |s|
  {
    if s != [] && IsWhitespace(s[|s| - 1]) {
      var t := s[..|s| - 1];
      TrimEndBlank(t);
      assert Blank(s) <==> Blank(t) by {
        if Blank(t) {
          forall i | 0 <= i < |s| ensures IsWhitespace(s[i]) {
            if i < |s| - 1 { assert s[i] == t[i]; }
          }
        }
      }
    }
  }

  /** A trimmed string is empty exactly when every character is white space:
      `s.trim()` is truthy iff `s` has a visible character. */
  lemma TrimEmptyIffBlank(s: string)
    ensures Trim(s) == [] <==> Blank(s)
  {
    TrimStartBlank(s);
    TrimEndBlank(TrimStart(s));
  }

  // ---------------------------------------------------------------- search

  /** `toLowerCase` on one character; only A-Z are mapped. */
  function LowerChar(c: char): char
  {
    if 'A' <= c <= 'Z' then (c as int + 32) as char else c
  }

  function Lower(s: string): string
  {
    seq(|s|, i requires 0 <= i < |s| => LowerChar(s[i]))
  }

  predicate StartsWith(s: string, prefix: string)
  {
    |prefix| <= |s| && s[..|prefix|] == prefix
  }

  /** `s.includes(term)`. */
  predicate Includes(s: string, term: string)
    decreases |s|
  {
    StartsWith(s, term) || (s != [] && Includes(s[1..], term))
  }

  /** `term` occurs in `s` starting at position `i`. */
  predicate OccursAt(s: string, term: string, i: nat)
  {
    i + |term| <= |s| && s[i..i + |term|] == term
  }

  /** `includes` holds exactly when `term` occurs at some position of `s`. */
  lemma IncludesIff(s: string, term: string)
    ensures Includes(s, term) <==> exists i: nat :: OccursAt(s, term, i)
  {
    if Includes(s, term) {
      var i := IncludesPosition(s, term);
    }
    if i: nat :| OccursAt(s, term, i) {
      OccurrenceIncluded(s, term, i);
    }
  }

  /** Where `includes` found the term. */
  lemma {:induction false} IncludesPosition(s: string, term: string) returns (i: nat)
    requires Includes(s, term)
    ensures OccursAt(s, term, i)
    decreases |s|
  {
    if StartsWith(s, term) {
      i := 0;
    } else {
      var j := IncludesPosition(s[1..], term);
      assert s[j + 1..j + 1 + |term|] == s[1..][j..j + |term|];
      i := j + 1;
    }
  }

  /** An occurrence anywhere is found by `includes`. */
  lemma {:induction false} OccurrenceIncluded(s: string, term: string, i: nat)
    requires OccursAt(s, term, i)
    ensures Includes(s, term)
    decreases i
  {
    if i > 0 {
      assert s[1..][i - 1..i - 1 + |term|] == s[i..i + |term|];
      OccurrenceIncluded(s[1..], term, i - 1);
    }
  }
}
