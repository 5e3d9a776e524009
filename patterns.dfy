/**
 * The ten regular expressions the extractor searches with, in eight shapes
 * (`Name:(\w+)`, `Gender:(\w+)` and `Age:(\d+)` share the labelled shape), each
 * matched by a small hand-written matcher instead of a general engine.
 *
 * `Spans(p, s, i, e)` says which substrings `s[i..e]` belong to the language of
 * pattern `p`; it is written from the pattern alone. `MatchEnd(p, s, i)` is the
 * end of the match Python's backtracking engine reports at start `i`, and is
 * proved to be the longest span there. For these patterns the two coincide:
 * every `+` and `*` is greedy and is followed either by nothing or by a
 * character its class cannot contain, and in `\d+\.\d+|\d+|Biased|Standard`
 * an earlier alternative that matches is never shorter than a later one.
 * `Search` is `re.search`: the leftmost start, and at that start the match above.
 */
module Patterns {
  import opened Wrappers
  import opened Text

  /** The character classes `\d`, `\w` and `\s`. */
  datatype CharClass = Digit | Word | Space

  predicate InClass(c: char, k: CharClass) {
    match k
    case Digit => IsDigit(c)
    case Word => IsWordChar(c)
    case Space => IsSpace(c)
  }

  datatype Pattern =
    | DateTime                          // \d{4}-\d{2}-\d{2} \d{2}:\d{2}
    | Labelled(prefix: string, cls: CharClass)  // e.g. Name:(\w+) and Age:(\d+)
    | Height                            // height: (\d+)cm
    | Change                            // (increase|decrease)(\d+\.\d+)kg, ignoring case
    | Decimal                           // (\d+\.\d+)
    | DecimalUnit                       // (\d+\.\d+)(%|kg)
    | DecimalKg                         // (\d+\.\d+)\s*kg
    | Reading                           // (\d+\.\d+|\d+|Biased|Standard)

  const HeightPrefix := "height: "

  /** Every character of `s[i..j]` is of class `k`. */
  ghost predicate AllIn(s: string, i: int, j: int, k: CharClass)
    decreases j - i
  {
    0 <= i <= j <= |s| && (i == j || (InClass(s[i], k) && AllIn(s, i + 1, j, k)))
  }

  lemma {:induction false} AllInAt(s: string, i: int, j: int, k: CharClass, n: int)
    requires AllIn(s, i, j, k) && i <= n < j
    ensures InClass(s[n], k)
    decreases n - i
  {
    if i < n {
      AllInAt(s, i + 1, j, k, n);
    }
  }

  /** End of the longest run of class `k` that starts at `i`. */
  function RunEnd(s: string, i: nat, k: CharClass): (e: nat)
    requires i <= |s|
    ensures i <= e <= |s| && AllIn(s, i, e, k)
    ensures e == |s| || !InClass(s[e], k)
    decreases |s| - i
  {
    if i < |s| && InClass(s[i], k) then RunEnd(s, i + 1, k) else i
  }

  /** The substring of a run, character by character. */
  lemma AllInSlice(s: string, i: int, j: int, k: CharClass)
    requires AllIn(s, i, j, k)
    ensures forall n :: 0 <= n < j - i ==> InClass(s[i..j][n], k)
  {
    forall n | 0 <= n < j - i ensures InClass(s[i..j][n], k) {
      AllInAt(s, i, j, k, i + n);
    }
  }

  /** A run of class `k` that stops before a character outside `k` is the longest one. */
  lemma {:induction false} RunEndAt(s: string, i: nat, j: int, k: CharClass)
    requires AllIn(s, i, j, k) && (j == |s| || !InClass(s[j], k))
    ensures RunEnd(s, i, k) == j
    decreases j - i
  {
    if i < j {
      RunEndAt(s, i + 1, j, k);
    }
  }

  /** The longest run reaches at least as far as any run. */
  lemma {:induction false} RunEndCovers(s: string, i: nat, j: int, k: CharClass)
    requires AllIn(s, i, j, k)
    ensures j <= RunEnd(s, i, k)
    decreases j - i
  {
    if i < j {
      RunEndCovers(s, i + 1, j, k);
    }
  }

  lemma RunsCovered(s: string, i: nat, k: CharClass)
    requires i <= |s|
    ensures forall j :: AllIn(s, i, j, k) ==> j <= RunEnd(s, i, k)
  {
    forall j | AllIn(s, i, j, k) ensures j <= RunEnd(s, i, k) {
      RunEndCovers(s, i, j, k);
    }
  }

  // ---------------------------------------------------------------------------
  // The languages, one predicate per pattern

  /** The shape of `\d{4}-\d{2}-\d{2} \d{2}:\d{2}`: `d` stands for a digit. */
  const DateLayout := "dddd-dd-dd dd:dd"

  predicate FitsSlot(slot: char, c: char) {
    if slot == 'd' then IsDigit(c) else c == slot
  }

  predicate DateAt(s: string, i: nat) {
    i + |DateLayout| <= |s| && forall n :: 0 <= n < |DateLayout| ==> FitsSlot(DateLayout[n], s[i + n])
  }

  /** `s[i..e]` is `\d+\.\d+`. */
  ghost predicate DecimalSpan(s: string, i: int, e: int) {
    exists d :: i < d && d + 1 < e && AllIn(s, i, d, Digit) && AllIn(s, d + 1, e, Digit) && s[d] == '.'
  }

  ghost predicate LabelledSpan(prefix: string, k: CharClass, s: string, i: int, e: int) {
    OccursAt(s, prefix, i) && i + |prefix| < e && AllIn(s, i + |prefix|, e, k)
  }

  ghost predicate HeightSpan(s: string, i: int, e: int) {
    OccursAt(s, HeightPrefix, i) && i + |HeightPrefix| < e - 2 && AllIn(s, i + |HeightPrefix|, e - 2, Digit)
    && OccursAt(s, "cm", e - 2)
  }

  ghost predicate ChangeSpan(s: string, i: int, e: int) {
    (OccursAtIgnoreCase(s, "increase", i) || OccursAtIgnoreCase(s, "decrease", i))
    && DecimalSpan(s, i + 8, e - 2) && OccursAtIgnoreCase(s, "kg", e - 2)
  }

  /** The unit literals `%` and `kg` at `n`, character by character. */
  predicate PercentAt(s: string, n: int) {
    0 <= n < |s| && s[n] == '%'
  }

  predicate KgAt(s: string, n: int) {
    0 <= n && n + 1 < |s| && s[n] == 'k' && s[n + 1] == 'g'
  }

  ghost predicate UnitSpan(s: string, i: int, e: int) {
    || (DecimalSpan(s, i, e - 1) && PercentAt(s, e - 1))
    || (DecimalSpan(s, i, e - 2) && KgAt(s, e - 2))
  }

  ghost predicate KgSpan(s: string, i: int, e: int) {
    KgAt(s, e - 2) && exists m :: DecimalSpan(s, i, m) && AllIn(s, m, e - 2, Space)
  }

  ghost predicate ReadingSpan(s: string, i: int, e: int) {
    || DecimalSpan(s, i, e)
    || (i < e && AllIn(s, i, e, Digit))
    || (OccursAt(s, "Biased", i) && e == i + 6)
    || (OccursAt(s, "Standard", i) && e == i + 8)
  }

  /** `s[i..e]` belongs to the language of `p`. */
  ghost predicate Spans(p: Pattern, s: string, i: int, e: int) {
    0 <= i <= e <= |s| &&
    match p
    case DateTime => DateAt(s, i) && e == i + |DateLayout|
    case Labelled(prefix, k) => LabelledSpan(prefix, k, s, i, e)
    case Height => HeightSpan(s, i, e)
    case Change => ChangeSpan(s, i, e)
    case Decimal => DecimalSpan(s, i, e)
    case DecimalUnit => UnitSpan(s, i, e)
    case DecimalKg => KgSpan(s, i, e)
    case Reading => ReadingSpan(s, i, e)
  }

  // ---------------------------------------------------------------------------
  // The matchers

  /** A decimal starting at `i` has its point where the first digit run stops, and ends inside the next run. */
  lemma DecimalSpanShape(s: string, i: nat)
    requires i <= |s|
    ensures forall e :: DecimalSpan(s, i, e) ==>
      var d := RunEnd(s, i, Digit);
      && i < d < |s| && s[d] == '.' && d + 1 < e <= RunEnd(s, d + 1, Digit)
      && (e < RunEnd(s, d + 1, Digit) ==> IsDigit(s[e]))
  {
    forall e | DecimalSpan(s, i, e)
      ensures var d := RunEnd(s, i, Digit);
        && i < d < |s| && s[d] == '.' && d + 1 < e <= RunEnd(s, d + 1, Digit)
        && (e < RunEnd(s, d + 1, Digit) ==> IsDigit(s[e]))
    {
      var d' :| i < d' && d' + 1 < e && AllIn(s, i, d', Digit) && AllIn(s, d' + 1, e, Digit) && s[d'] == '.';
      RunEndAt(s, i, d', Digit);
      RunEndCovers(s, d' + 1, e, Digit);
      var f := RunEnd(s, d' + 1, Digit);
      if e < f {
        AllInAt(s, d' + 1, f, Digit, e);
      }
    }
  }

  /** End of the longest `\d+\.\d+` at `i`; every shorter one stops before a digit. */
  function DecimalEnd(s: string, i: nat): (r: Option<nat>)
    requires i <= |s|
    ensures r.Some? ==> DecimalSpan(s, i, r.value)
    ensures forall e :: DecimalSpan(s, i, e) ==>
      r.Some? && e <= r.value && (e < r.value ==> IsDigit(s[e]))
  {
    DecimalSpanShape(s, i);
    var d := RunEnd(s, i, Digit);
    if i < d && d < |s| && s[d] == '.' then
      var e := RunEnd(s, d + 1, Digit);
      if d + 1 < e then
        assert AllIn(s, i, d, Digit);
        Some(e)
      else None
    else None
  }

  function DateEnd(s: string, i: nat): (r: Option<nat>)
    requires i <= |s|
    ensures r.Some? ==> Spans(DateTime, s, i, r.value)
    ensures forall e :: Spans(DateTime, s, i, e) ==> r == Some(e)
  {
    if DateAt(s, i) then Some(i + |DateLayout|) else None
  }

  function LabelledEnd(prefix: string, k: CharClass, s: string, i: nat): (r: Option<nat>)
    requires i <= |s|
    ensures r.Some? ==> Spans(Labelled(prefix, k), s, i, r.value)
    ensures forall e :: Spans(Labelled(prefix, k), s, i, e) ==> r.Some? && e <= r.value
  {
    if OccursAt(s, prefix, i) then
      RunsCovered(s, i + |prefix|, k);
      var e := RunEnd(s, i + |prefix|, k);
      if i + |prefix| < e then Some(e) else None
    else None
  }

  /** A literal that occurs at `n` starts with its first character there. */
  lemma OccursAtHead(s: string, pat: string, n: int)
    requires pat != [] && OccursAt(s, pat, n)
    ensures s[n] == pat[0]
  {
    assert s[n..n + |pat|][0] == pat[0];
  }

  /** In `height: (\d+)cm` the digits run to the end of the digit run, since `c` is not a digit. */
  lemma HeightShape(s: string, i: nat)
    requires i + |HeightPrefix| <= |s|
    ensures forall e :: Spans(Height, s, i, e) ==> e - 2 == RunEnd(s, i + |HeightPrefix|, Digit)
  {
    forall e | Spans(Height, s, i, e) ensures e - 2 == RunEnd(s, i + |HeightPrefix|, Digit) {
      OccursAtHead(s, "cm", e - 2);
      RunEndAt(s, i + |HeightPrefix|, e - 2, Digit);
    }
  }

  function HeightEnd(s: string, i: nat): (r: Option<nat>)
    requires i <= |s|
    ensures r.Some? ==> Spans(Height, s, i, r.value)
    ensures forall e :: Spans(Height, s, i, e) ==> r == Some(e)
  {
    if OccursAt(s, HeightPrefix, i) then
      HeightShape(s, i);
      var d := RunEnd(s, i + |HeightPrefix|, Digit);
      if i + |HeightPrefix| < d && OccursAt(s, "cm", d) then Some(d + 2) else None
    else None
  }

  /** The amount in a weight change ends where its fraction digits stop, since `k` is not a digit. */
  lemma ChangeShape(s: string, i: nat)
    requires i + 8 <= |s|
    ensures forall e :: Spans(Change, s, i, e) ==> DecimalEnd(s, i + 8) == Some(e - 2)
  {
    forall e | Spans(Change, s, i, e) ensures DecimalEnd(s, i + 8) == Some(e - 2) {
      assert CaselessEq(s[e - 2..e][0], "kg"[0]);
    }
  }

  function ChangeEnd(s: string, i: nat): (r: Option<nat>)
    requires i <= |s|
    ensures r.Some? ==> Spans(Change, s, i, r.value)
    ensures forall e :: Spans(Change, s, i, e) ==> r == Some(e)
  {
    if !(OccursAtIgnoreCase(s, "increase", i) || OccursAtIgnoreCase(s, "decrease", i)) then None
    else
      ChangeShape(s, i);
      var m := DecimalEnd(s, i + 8);
      if m.Some? && OccursAtIgnoreCase(s, "kg", m.value) then
        ChangeSound(s, i, m.value);
        Some(m.value + 2)
      else None
  }

  lemma ChangeSound(s: string, i: nat, m: nat)
    requires OccursAtIgnoreCase(s, "increase", i) || OccursAtIgnoreCase(s, "decrease", i)
    requires DecimalSpan(s, i + 8, m) && OccursAtIgnoreCase(s, "kg", m)
    ensures Spans(Change, s, i, m + 2)
  {
  }

  /** A decimal followed by a character that is not a digit is the longest one at `i`. */
  lemma DecimalStops(s: string, i: nat, m: int)
    requires i <= |s| && DecimalSpan(s, i, m) && m < |s| && !IsDigit(s[m])
    ensures DecimalEnd(s, i) == Some(m)
  {
  }

  /** Every decimal with a unit at `i` starts with a decimal. */
  lemma DecimalFirst(s: string, i: nat)
    requires i <= |s| && DecimalEnd(s, i).None?
    ensures forall e :: !Spans(DecimalUnit, s, i, e) && !Spans(DecimalKg, s, i, e)
  {
  }

  /** A `%` or `kg` unit follows the whole decimal, never a part of it. */
  lemma UnitShape(s: string, i: nat, e: int)
    requires Spans(DecimalUnit, s, i, e)
    ensures || (DecimalEnd(s, i) == Some(e - 1) && PercentAt(s, e - 1))
            || (DecimalEnd(s, i) == Some(e - 2) && KgAt(s, e - 2) && !PercentAt(s, e - 2))
  {
    if DecimalSpan(s, i, e - 1) && PercentAt(s, e - 1) {
      DecimalStops(s, i, e - 1);
    } else {
      DecimalStops(s, i, e - 2);
    }
  }

  /** A decimal with a unit splits at the end of the decimal into the number and `%` or `kg`. */
  lemma UnitSplit(s: string, i: nat, e: int)
    requires Spans(DecimalUnit, s, i, e)
    ensures DecimalEnd(s, i).Some?
    ensures s[e - 1] == '%' ==> DecimalEnd(s, i).value == e - 1 && s[e - 1..e] == "%"
    ensures s[e - 1] != '%' ==> DecimalEnd(s, i).value == e - 2 && s[e - 2..e] == "kg"
  {
    UnitShape(s, i, e);
    if s[e - 1] == '%' {
      assert s[e - 1..e] == [s[e - 1]];
    } else {
      assert s[e - 2..e] == [s[e - 2], s[e - 1]];
    }
  }

  function UnitEnd(s: string, i: nat): (r: Option<nat>)
    requires i <= |s|
    ensures r.Some? ==> Spans(DecimalUnit, s, i, r.value)
    ensures forall e :: Spans(DecimalUnit, s, i, e) ==> r == Some(e)
  {
    var d := DecimalEnd(s, i);
    if d.None? then
      DecimalFirst(s, i);
      None
    else
      UnitAfter(s, i, d.value);
      if PercentAt(s, d.value) then Some(d.value + 1)
      else if KgAt(s, d.value) then Some(d.value + 2)
      else None
  }

  /** The unit follows the longest decimal: `%` is tried first, then `kg`. */
  lemma UnitAfter(s: string, i: nat, m: nat)
    requires i <= |s| && DecimalEnd(s, i) == Some(m)
    ensures PercentAt(s, m) ==> Spans(DecimalUnit, s, i, m + 1)
    ensures KgAt(s, m) ==> Spans(DecimalUnit, s, i, m + 2)
    ensures forall e :: Spans(DecimalUnit, s, i, e) ==>
      || (PercentAt(s, m) && e == m + 1)
      || (!PercentAt(s, m) && KgAt(s, m) && e == m + 2)
  {
    forall e | Spans(DecimalUnit, s, i, e)
      ensures || (PercentAt(s, m) && e == m + 1)
              || (!PercentAt(s, m) && KgAt(s, m) && e == m + 2)
    {
      UnitShape(s, i, e);
    }
  }

  /** A decimal, then spaces, then a `k`: both runs stop where the next part starts. */
  lemma KgStops(s: string, i: nat, m: int, w: int)
    requires i <= |s| && DecimalSpan(s, i, m) && AllIn(s, m, w, Space) && KgAt(s, w)
    ensures m >= 0 && DecimalEnd(s, i) == Some(m) && RunEnd(s, m, Space) == w
  {
    if m < w {
      assert InClass(s[m], Space);
      SpaceNotDigit(s[m]);
    }
    DecimalStops(s, i, m);
    RunEndAt(s, m, w, Space);
  }

  function KgEnd(s: string, i: nat): (r: Option<nat>)
    requires i <= |s|
    ensures r.Some? ==> Spans(DecimalKg, s, i, r.value)
    ensures forall e :: Spans(DecimalKg, s, i, e) ==> r == Some(e)
  {
    var m := DecimalEnd(s, i);
    if m.None? then
      DecimalFirst(s, i);
      None
    else
      var w := RunEnd(s, m.value, Space);
      var r := if KgAt(s, w) then Some(w + 2) else None;
      KgResult(s, i, m.value, w, r);
      r
  }

  /** `kg` right after the whitespace completes the one match there is; anything else means none. */
  lemma KgResult(s: string, i: nat, m: nat, w: nat, r: Option<nat>)
    requires i <= |s| && DecimalEnd(s, i) == Some(m) && m <= |s| && RunEnd(s, m, Space) == w
    requires r == if KgAt(s, w) then Some(w + 2) else None
    ensures r.Some? ==> Spans(DecimalKg, s, i, r.value)
    ensures forall e :: Spans(DecimalKg, s, i, e) ==> r == Some(e)
  {
    KgAfter(s, i, m, w);
    if KgAt(s, w) {
      assert r == Some(w + 2);
    } else {
      assert forall e :: !Spans(DecimalKg, s, i, e);
    }
  }

  /** In `(\d+\.\d+)\s*kg` the decimal and the whitespace are both the longest runs there are. */
  lemma KgAfter(s: string, i: nat, m: nat, w: nat)
    requires i <= |s| && DecimalEnd(s, i) == Some(m) && m <= |s| && RunEnd(s, m, Space) == w
    ensures KgAt(s, w) ==> Spans(DecimalKg, s, i, w + 2)
    ensures forall e :: Spans(DecimalKg, s, i, e) ==> e == w + 2 && KgAt(s, w)
  {
    forall e | Spans(DecimalKg, s, i, e) ensures e == w + 2 && KgAt(s, w) {
      var m' :| DecimalSpan(s, i, m') && AllIn(s, m', e - 2, Space);
      KgStops(s, i, m', e - 2);
    }
  }

  /** `Biased` and `Standard` start with letters, so no number starts where they do. */
  lemma WordsStart(s: string, i: nat)
    ensures OccursAt(s, "Biased", i) ==> s[i] == 'B'
    ensures OccursAt(s, "Standard", i) ==> s[i] == 'S'
  {
    if OccursAt(s, "Biased", i) { OccursAtHead(s, "Biased", i); }
    if OccursAt(s, "Standard", i) { OccursAtHead(s, "Standard", i); }
  }

  function ReadingEnd(s: string, i: nat): (r: Option<nat>)
    requires i <= |s|
    ensures r.Some? ==> Spans(Reading, s, i, r.value)
    ensures forall e :: Spans(Reading, s, i, e) ==> r.Some? && e <= r.value
  {
    DecimalSpanShape(s, i);
    RunsCovered(s, i, Digit);
    WordsStart(s, i);
    match DecimalEnd(s, i)
    case Some(m) => Some(m)
    case None =>
      var d := RunEnd(s, i, Digit);
      if i < d then Some(d)
      else if OccursAt(s, "Biased", i) then Some(i + 6)
      else if OccursAt(s, "Standard", i) then Some(i + 8)
      else None
  }

  /** End of the match the regular-expression engine reports when it tries start `i`. */
  function MatchEnd(p: Pattern, s: string, i: nat): (r: Option<nat>)
    requires i <= |s|
    ensures r.Some? ==> Spans(p, s, i, r.value)
    ensures forall e :: Spans(p, s, i, e) ==> r.Some? && e <= r.value
  {
    match p
    case DateTime => DateEnd(s, i)
    case Labelled(prefix, k) => LabelledEnd(prefix, k, s, i)
    case Height => HeightEnd(s, i)
    case Change => ChangeEnd(s, i)
    case Decimal => DecimalEnd(s, i)
    case DecimalUnit => UnitEnd(s, i)
    case DecimalKg => KgEnd(s, i)
    case Reading => ReadingEnd(s, i)
  }

  // ---------------------------------------------------------------------------
  // re.search

  datatype Span = Span(start: nat, end: nat)

  /** No substring of `s` is in the language of `p`. */
  ghost predicate NoMatch(p: Pattern, s: string) {
    forall i, e :: !Spans(p, s, i, e)
  }

  /** `s[i..e]` is what `re.search` reports: the leftmost start, and the longest span from there. */
  ghost predicate FirstMatch(p: Pattern, s: string, i: int, e: int) {
    && Spans(p, s, i, e)
    && (forall j, e' :: j < i ==> !Spans(p, s, j, e'))
    && (forall e' :: Spans(p, s, i, e') ==> e' <= e)
  }

  /** There is at most one first match. */
  lemma FirstMatchUnique(p: Pattern, s: string, i: int, e: int, i': int, e': int)
    requires FirstMatch(p, s, i, e) && FirstMatch(p, s, i', e')
    ensures i == i' && e == e'
  {
  }

  function SearchFrom(p: Pattern, s: string, from: nat): (r: Option<Span>)
    requires from <= |s|
    ensures r.None? ==> forall j, e :: from <= j ==> !Spans(p, s, j, e)
    ensures r.Some? ==>
      && from <= r.value.start
      && Spans(p, s, r.value.start, r.value.end)
      && (forall j, e :: from <= j < r.value.start ==> !Spans(p, s, j, e))
      && (forall e :: Spans(p, s, r.value.start, e) ==> e <= r.value.end)
    decreases |s| - from
  {
    match MatchEnd(p, s, from)
    case Some(e) => Some(Span(from, e))
    case None => if from == |s| then None else SearchFrom(p, s, from + 1)
  }

  /** Python's `re.search(p, s)`: nothing when no substring matches, otherwise the first match. */
  function Search(p: Pattern, s: string): (r: Option<Span>)
    ensures r.None? <==> NoMatch(p, s)
    ensures r.Some? ==> FirstMatch(p, s, r.value.start, r.value.end)
  {
    SearchFrom(p, s, 0)
  }

  /** Whatever first match exists is the one `Search` finds. */
  lemma SearchFinds(p: Pattern, s: string)
    ensures forall i, e :: FirstMatch(p, s, i, e) ==> Search(p, s) == Some(Span(i, e))
  {
    forall i, e | FirstMatch(p, s, i, e) ensures Search(p, s) == Some(Span(i, e)) {
      var r := Search(p, s).value;
      FirstMatchUnique(p, s, i, e, r.start, r.end);
    }
  }
}
