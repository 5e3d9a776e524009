/**
 * Character classes and the string builtins that the extractor relies on:
 * `str.strip`, `str.lower`, the `in` operator on strings, `str.replace` and `int`.
 * Letters and digits are ASCII only; whitespace is Python's full `str.isspace` set.
 */
module Text {

  /** `\d`, restricted to ASCII digits. */
  predicate IsDigit(c: char) {
    '0' <= c <= '9'
  }

  predicate IsUpper(c: char) {
    'A' <= c <= 'Z'
  }

  predicate IsLowerLetter(c: char) {
    'a' <= c <= 'z'
  }

  predicate IsLetter(c: char) {
    IsUpper(c) || IsLowerLetter(c)
  }

  /** `\w`, restricted to ASCII: letters, digits and the underscore. */
  predicate IsWordChar(c: char) {
    IsLetter(c) || IsDigit(c) || c == '_'
  }

  /**
   * Python's `str.isspace`: what `strip()` removes and what `\s` matches in a
   * `str` pattern (tab to carriage return, the four information separators,
   * space, and the Unicode space characters).
   */
  predicate IsSpace(c: char) {
    || c == ' '
    || '\t' <= c <= '\r'
    || '\U{1c}' <= c <= '\U{1f}'
    || c == '\U{85}' || c == '\U{a0}' || c == '\U{1680}'
    || '\U{2000}' <= c <= '\U{200a}'
    || c == '\U{2028}' || c == '\U{2029}' || c == '\U{202f}' || c == '\U{205f}' || c == '\U{3000}'
  }

  /** `str.lower` on one character, for ASCII letters. */
  function LowerChar(c: char): char {
    if IsUpper(c) then (c as int + 32) as char else c
  }

  /** `str.lower`, character by character. */
  function Lower(s: string): string {
    seq(|s|, n requires 0 <= n < |s| => LowerChar(s[n]))
  }

  /** Two characters are equal when letter case is ignored (the ASCII part of `re.IGNORECASE`). */
  predicate CaselessEq(c: char, d: char) {
    c == d || (IsLetter(c) && IsLetter(d) && (c as int - d as int == 32 || d as int - c as int == 32))
  }

  /** Lower-casing identifies exactly the characters that are equal up to case. */
  lemma LowerCharCaseless(c: char, d: char)
    ensures LowerChar(c) == LowerChar(d) <==> CaselessEq(c, d)
  {
  }

  predicate EqualsIgnoreCase(a: string, b: string) {
    |a| == |b| && forall k :: 0 <= k < |a| ==> CaselessEq(a[k], b[k])
  }

  /** `pat` occurs in `s` starting at index `n`. */
  predicate OccursAt(s: string, pat: string, n: int) {
    0 <= n && n + |pat| <= |s| && s[n..n + |pat|] == pat
  }

  /** Nothing occurs where its first character is missing. */
  lemma NotAt(s: string, pat: string, n: int)
    requires pat != []
    requires 0 <= n < |s| ==> s[n] != pat[0]
    ensures !OccursAt(s, pat, n)
  {
    if 0 <= n && n + |pat| <= |s| {
      assert s[n..n + |pat|][0] == s[n];
    }
  }

  /** `pat` occurs in `s` at index `n` up to letter case. */
  predicate OccursAtIgnoreCase(s: string, pat: string, n: int) {
    0 <= n && n + |pat| <= |s| && EqualsIgnoreCase(s[n..n + |pat|], pat)
  }

  /** Python's `pat in s`, searching from index `from` on. */
  function ContainsFrom(s: string, pat: string, from: nat): (b: bool)
    ensures b <==> exists n :: from <= n && OccursAt(s, pat, n)
    decreases |s| - from
  {
    if from + |pat| > |s| then false
    else if s[from..from + |pat|] == pat then assert OccursAt(s, pat, from); true
    else ContainsFrom(s, pat, from + 1)
  }

  /** Python's `pat in s`. */
  function Contains(s: string, pat: string): (b: bool)
    ensures b <==> exists n :: OccursAt(s, pat, n)
  {
    ContainsFrom(s, pat, 0)
  }

  /**
   * Searching the lower-cased text for a lower-case word is the same as looking
   * for the word at some position in any mix of letter case.
   */
  lemma LowerOccursIgnoreCase(s: string, pat: string, n: int)
    requires forall k :: 0 <= k < |pat| ==> LowerChar(pat[k]) == pat[k]
    ensures OccursAt(Lower(s), pat, n) <==> OccursAtIgnoreCase(s, pat, n)
  {
    if 0 <= n && n + |pat| <= |s| {
      forall k | 0 <= k < |pat|
        ensures Lower(s)[n + k] == pat[k] <==> CaselessEq(s[n + k], pat[k])
      {
        LowerCharCaseless(s[n + k], pat[k]);
      }
      if OccursAt(Lower(s), pat, n) {
        forall k | 0 <= k < |pat| ensures CaselessEq(s[n..n + |pat|][k], pat[k]) {
          assert Lower(s)[n..n + |pat|][k] == pat[k];
        }
      }
      if OccursAtIgnoreCase(s, pat, n) {
        forall k | 0 <= k < |pat| ensures Lower(s)[n..n + |pat|][k] == pat[k] {
          assert CaselessEq(s[n..n + |pat|][k], pat[k]);
        }
      }
    }
  }

  /** Python's `"word" in s.lower()` for a lower-case word: some position holds the word, ignoring case. */
  lemma ContainsLowerIgnoreCase(s: string, pat: string)
    requires forall k :: 0 <= k < |pat| ==> LowerChar(pat[k]) == pat[k]
    ensures Contains(Lower(s), pat) <==> exists n :: OccursAtIgnoreCase(s, pat, n)
  {
    forall n ensures OccursAt(Lower(s), pat, n) <==> OccursAtIgnoreCase(s, pat, n) {
      LowerOccursIgnoreCase(s, pat, n);
    }
  }

  /** No whitespace character is a digit. */
  lemma SpaceNotDigit(c: char)
    requires IsSpace(c)
    ensures !IsDigit(c)
  {
  }

  /** Lower-casing a string that equals a lower-case word up to case gives the word. */
  lemma LowerCaseless(a: string, pat: string)
    requires EqualsIgnoreCase(a, pat)
    requires forall k :: 0 <= k < |pat| ==> LowerChar(pat[k]) == pat[k]
    ensures Lower(a) == pat
  {
    forall k | 0 <= k < |a| ensures Lower(a)[k] == pat[k] {
      LowerCharCaseless(a[k], pat[k]);
    }
  }

  /** Number of whitespace characters at the start of `s`. */
  function LeadingSpace(s: string): (n: nat)
    ensures n <= |s|
    ensures forall k :: 0 <= k < n ==> IsSpace(s[k])
    ensures n == |s| || !IsSpace(s[n])
  {
    if s != [] && IsSpace(s[0]) then 1 + LeadingSpace(s[1..]) else 0
  }

  /** Number of whitespace characters at the end of `s`. */
  function TrailingSpace(s: string): (n: nat)
    ensures n <= |s|
    ensures forall k :: |s| - n <= k < |s| ==> IsSpace(s[k])
    ensures n == |s| || !IsSpace(s[|s| - 1 - n])
  {
    if s != [] && IsSpace(s[|s| - 1]) then 1 + TrailingSpace(s[..|s| - 1]) else 0
  }

  /** `r` is `s` with exactly the whitespace before index `a` and after `a + |r|` removed. */
  ghost predicate StrippedAt(s: string, a: int, r: string) {
    0 <= a && a + |r| <= |s| && s[a..a + |r|] == r
    && (forall k :: 0 <= k < a ==> IsSpace(s[k]))
    && (forall k :: a + |r| <= k < |s| ==> IsSpace(s[k]))
  }

  /** Python's `str.strip()` with no argument. */
  function Strip(s: string): (r: string)
    ensures r == [] || (!IsSpace(r[0]) && !IsSpace(r[|r| - 1]))
    ensures exists a :: StrippedAt(s, a, r)
    ensures (s == [] || (!IsSpace(s[0]) && !IsSpace(s[|s| - 1]))) ==> r == s
  {
    var a := LeadingSpace(s);
    var t := s[a..];
    var b := |t| - TrailingSpace(t);
    assert t == [] || !IsSpace(t[0]);
    assert StrippedAt(s, a, t[..b]);
    t[..b]
  }

  /** Stripping twice is stripping once. */
  lemma StripIdempotent(s: string)
    ensures Strip(Strip(s)) == Strip(s)
  {
  }

  /** Replace every character `a` by `b`. */
  function Subst(s: string, a: char, b: char): string {
    seq(|s|, n requires 0 <= n < |s| => if s[n] == a then b else s[n])
  }

  /**
   * Python's `s.replace(pat, rep)` for a non-empty `pat`: scanning from the left,
   * each occurrence is replaced and the scan resumes after it.
   */
  function Replace(s: string, pat: string, rep: string): string
    requires pat != []
    decreases |s|
  {
    if |s| < |pat| then s
    else if s[..|pat|] == pat then rep + Replace(s[|pat|..], pat, rep)
    else [s[0]] + Replace(s[1..], pat, rep)
  }

  /** Replacing one character by one character is a substitution. */
  lemma {:induction false} ReplaceChar(s: string, a: char, b: char)
    ensures Replace(s, [a], [b]) == Subst(s, a, b)
  {
    if |s| >= 1 {
      ReplaceChar(s[1..], a, b);
      assert s[..1] == [s[0]];
      if s[0] == a {
        assert Replace(s, [a], [b]) == [b] + Subst(s[1..], a, b);
      } else {
        assert Replace(s, [a], [b]) == [s[0]] + Subst(s[1..], a, b);
      }
    }
  }

  /** An occurrence in the tail of `s` is an occurrence in `s`, one place further on. */
  lemma ShiftOccurrence(s: string, pat: string)
    requires s != []
    ensures forall n :: OccursAt(s[1..], pat, n) ==> OccursAt(s, pat, n + 1)
  {
    forall n | OccursAt(s[1..], pat, n) ensures OccursAt(s, pat, n + 1) {
      assert s[n + 1..n + 1 + |pat|] == s[1..][n..n + |pat|];
    }
  }

  /** Text in which `pat` never occurs is left unchanged. */
  lemma {:induction false} ReplaceAbsent(s: string, pat: string, rep: string)
    requires pat != []
    requires forall n :: !OccursAt(s, pat, n)
    ensures Replace(s, pat, rep) == s
  {
    if |s| >= |pat| {
      assert !OccursAt(s, pat, 0);
      ShiftOccurrence(s, pat);
      ReplaceAbsent(s[1..], pat, rep);
    }
  }

  /** The first occurrence of `pat` is replaced, and the scan goes on after it. */
  lemma {:induction false} ReplaceFirst(a: string, pat: string, b: string, rep: string)
    requires pat != []
    requires forall n :: n < |a| ==> !OccursAt(a + pat + b, pat, n)
    ensures Replace(a + pat + b, pat, rep) == a + rep + Replace(b, pat, rep)
  {
    var s := a + pat + b;
    if a == [] {
      assert s[..|pat|] == pat && s[|pat|..] == b;
    } else {
      assert !OccursAt(s, pat, 0);
      assert s[1..] == a[1..] + pat + b;
      ShiftOccurrence(s, pat);
      ReplaceFirst(a[1..], pat, b, rep);
      assert s[..|pat|] != pat;
      assert a + rep + Replace(b, pat, rep) == [a[0]] + (a[1..] + rep + Replace(b, pat, rep));
    }
  }

  /** When `pat` ends the text and occurs nowhere before, that one occurrence is replaced. */
  lemma ReplaceLast(s: string, a: string, pat: string, rep: string, r: string)
    requires pat != [] && s == a + pat && r == a + rep
    requires forall n :: n < |a| ==> !OccursAt(s, pat, n)
    ensures Replace(s, pat, rep) == r
  {
    assert s == a + pat + [];
    ReplaceFirst(a, pat, [], rep);
    ReplaceAbsent([], pat, rep);
    assert a + rep + [] == a + rep;
  }

  /** A pattern cannot start inside a prefix that does not contain its first character. */
  lemma NotInPrefix(s: string, a: string, pat: string)
    requires pat != [] && |a| <= |s| && a == s[..|a|]
    requires forall n :: 0 <= n < |a| ==> a[n] != pat[0]
    ensures forall n :: n < |a| ==> !OccursAt(s, pat, n)
  {
    forall n | n < |a| ensures !OccursAt(s, pat, n) {
      if 0 <= n {
        assert s[n] == a[n];
      }
      NotAt(s, pat, n);
    }
  }

  /** Python's `int(ds)` on a string of ASCII digits. */
  function DigitsValue(ds: string): nat
    requires forall n :: 0 <= n < |ds| ==> IsDigit(ds[n])
  {
    if ds == [] then 0
    else
      var last := ds[|ds| - 1];
      assert IsDigit(last);
      10 * DigitsValue(ds[..|ds| - 1]) + (last as int - '0' as int)
  }

  function Pow10(n: nat): nat {
    if n == 0 then 1 else 10 * Pow10(n - 1)
  }

  /** Positional notation: the digits of `b` contribute their own value, those of `a` are shifted by `|b|` places. */
  lemma {:induction false} DigitsValueAppend(a: string, b: string)
    requires forall n :: 0 <= n < |a| ==> IsDigit(a[n])
    requires forall n :: 0 <= n < |b| ==> IsDigit(b[n])
    ensures DigitsValue(a + b) == DigitsValue(a) * Pow10(|b|) + DigitsValue(b)
  {
    if b == [] {
      assert a + b == a;
    } else {
      var b' := b[..|b| - 1];
      var last := b[|b| - 1] as int - '0' as int;
      assert (a + b)[..|a + b| - 1] == a + b';
      assert (a + b)[|a + b| - 1] == b[|b| - 1];
      DigitsValueAppend(a, b');
      var x, p, y := DigitsValue(a), Pow10(|b'|), DigitsValue(b');
      assert DigitsValue(a + b) == 10 * (x * p + y) + last;
      assert DigitsValue(b) == 10 * y + last;
      assert Pow10(|b|) == 10 * p;
      ShiftProduct(x, p);
    }
  }

  lemma ShiftProduct(x: int, p: int)
    ensures x * (10 * p) == 10 * (x * p)
  {
  }

  /** Leading zeros do not change the value, as with Python's `int("007") == 7`. */
  lemma LeadingZero(ds: string)
    requires forall n :: 0 <= n < |ds| ==> IsDigit(ds[n])
    ensures DigitsValue("0" + ds) == DigitsValue(ds)
  {
    var z := "0";
    assert z[..0] == [];
    assert DigitsValue(z) == 0;
    DigitsValueAppend(z, ds);
    ZeroProduct(Pow10(|ds|));
  }

  lemma ZeroProduct(p: int)
    ensures 0 * p == 0
  {
  }
}
