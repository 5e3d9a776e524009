/**
 * One function per regular-expression use in the extractor: the search and the
 * conversion of its groups into a document value (app/utils.py and test.py hold
 * the same expressions).
 */
module Fields {
  import opened Wrappers
  import opened Text
  import opened Patterns
  import opened Json

  const DefaultTitle := "Body composition analysis report"

  const NamePattern := Labelled("Name:", Word)
  const GenderPattern := Labelled("Gender:", Word)
  const AgePattern := Labelled("Age:", Digit)

  /** The title mentions the word "report" in some mix of letter case. */
  ghost predicate MentionsReport(t: string) {
    exists n :: OccursAtIgnoreCase(t, "report", n)
  }

  /** `title if "report" in title.lower() else DEFAULT`. */
  function ReportTitle(t: string): (r: string)
    ensures MentionsReport(t) ==> r == t
    ensures !MentionsReport(t) ==> r == DefaultTitle
  {
    ContainsLowerIgnoreCase(t, "report");
    if Contains(Lower(t), "report") then t else DefaultTitle
  }

  /** The first `YYYY-MM-DD HH:MM` in the text, or the text itself when there is none. */
  function ReportDate(t: string): (r: string)
    ensures NoMatch(DateTime, t) ==> r == t
    ensures forall i, e :: FirstMatch(DateTime, t, i, e) ==> r == t[i..e] && |r| == 16
  {
    match Search(DateTime, t)
    case Some(m) => t[m.start..m.end]
    case None => t
  }

  /** Group 1 of `prefix(\w+)` or `prefix(\d+)`. */
  function LabelGroup(prefix: string, k: CharClass, t: string): (r: Option<string>)
    ensures r.None? <==> NoMatch(Labelled(prefix, k), t)
    ensures forall i, e :: FirstMatch(Labelled(prefix, k), t, i, e) ==> r == Some(t[i + |prefix|..e])
    ensures r.Some? ==> r.value != [] && forall n :: 0 <= n < |r.value| ==> InClass(r.value[n], k)
  {
    match Search(Labelled(prefix, k), t)
    case Some(m) =>
      AllInSlice(t, m.start + |prefix|, m.end, k);
      Some(t[m.start + |prefix|..m.end])
    case None => None
  }

  /** Group 1 of `height: (\d+)cm`. */
  function HeightGroup(t: string): (r: Option<string>)
    ensures r.None? <==> NoMatch(Height, t)
    ensures forall i, e :: FirstMatch(Height, t, i, e) ==> r == Some(t[i + |HeightPrefix|..e - 2])
    ensures r.Some? ==> r.value != [] && forall n :: 0 <= n < |r.value| ==> IsDigit(r.value[n])
  {
    match Search(Height, t)
    case Some(m) =>
      AllInSlice(t, m.start + |HeightPrefix|, m.end - 2, Digit);
      Some(t[m.start + |HeightPrefix|..m.end - 2])
    case None => None
  }

  /** The lower-cased spelling of either direction word is that word. */
  lemma Direction(word: string)
    requires EqualsIgnoreCase(word, "increase") || EqualsIgnoreCase(word, "decrease")
    ensures Lower(word) in {"increase", "decrease"}
  {
    if EqualsIgnoreCase(word, "increase") {
      LowerCaseless(word, "increase");
    } else {
      LowerCaseless(word, "decrease");
    }
  }

  /** `{"direction": group(1).lower(), "value": float(group(2))}` for `(increase|decrease)(\d+\.\d+)kg`, ignoring case. */
  function WeightChange(t: string): (r: Option<Value>)
    ensures r.None? <==> NoMatch(Change, t)
    ensures forall i, e :: FirstMatch(Change, t, i, e) ==>
      r == Some(Obj(map["direction" := Str(Lower(t[i..i + 8])), "value" := Num(t[i + 8..e - 2])]))
    ensures r.Some? ==>
      && r.value.Obj? && r.value.fields.Keys == {"direction", "value"}
      && r.value.fields["direction"] in {Str("increase"), Str("decrease")}
      && r.value.fields["value"].Num?
  {
    match Search(Change, t)
    case Some(m) =>
      var word := t[m.start..m.start + 8];
      Direction(word);
      Some(Obj(map["direction" := Str(Lower(word)), "value" := Num(t[m.start + 8..m.end - 2])]))
    case None => None
  }

  /** `float(group(1))` of the first `(\d+\.\d+)`, or null when there is none. */
  function DecimalOrNull(t: string): (v: Value)
    ensures v == Null <==> NoMatch(Decimal, t)
    ensures v == Null || v.Num?
    ensures forall i, e :: FirstMatch(Decimal, t, i, e) ==> v == Num(t[i..e])
  {
    match Search(Decimal, t)
    case Some(m) => Num(t[m.start..m.end])
    case None => Null
  }

  /**
   * `{"value": float(group(1)), "unit": group(2)}` for `(\d+\.\d+)(%|kg)`,
   * with both null when nothing matches.
   */
  function CompositionEntry(t: string): (v: Value)
    ensures v.Obj? && v.fields.Keys == {"value", "unit"}
    ensures v.fields["value"] == Null <==> NoMatch(DecimalUnit, t)
    ensures v.fields["value"] == Null || v.fields["value"].Num?
    ensures v.fields["value"] == Null <==> v.fields["unit"] == Null
    ensures v.fields["unit"] in {Null, Str("%"), Str("kg")}
  {
    match Search(DecimalUnit, t)
    case Some(m) => UnitGroups(t, m.start, m.end)
    case None => Obj(map["value" := Null, "unit" := Null])
  }

  /** The two groups of a match `t[i..e]` of `(\d+\.\d+)(%|kg)`. */
  function UnitGroups(t: string, i: nat, e: int): (v: Value)
    requires Spans(DecimalUnit, t, i, e)
    ensures v.Obj? && v.fields.Keys == {"value", "unit"}
    ensures v.fields["value"].Num? && v.fields["unit"] in {Str("%"), Str("kg")}
  {
    UnitSplit(t, i, e);
    var d := DecimalEnd(t, i).value;
    Obj(map["value" := Num(t[i..d]), "unit" := Str(t[d..e])])
  }

  /** For the first match `t[i..e]`, the value is the decimal and the unit is what follows it. */
  lemma CompositionEntryAt(t: string, i: int, e: int)
    requires FirstMatch(DecimalUnit, t, i, e)
    ensures t[e - 1] == '%' ==>
      CompositionEntry(t) == Obj(map["value" := Num(t[i..e - 1]), "unit" := Str("%")])
    ensures t[e - 1] != '%' ==>
      CompositionEntry(t) == Obj(map["value" := Num(t[i..e - 2]), "unit" := Str("kg")])
  {
    SearchFinds(DecimalUnit, t);
    assert CompositionEntry(t) == UnitGroups(t, i, e);
    UnitSplit(t, i, e);
    var d := DecimalEnd(t, i).value;
    assert UnitGroups(t, i, e) == Obj(map["value" := Num(t[i..d]), "unit" := Str(t[d..e])]);
  }

  /** `float(group(1))` of the first `(\d+\.\d+)\s*kg`, or null when there is none. */
  function KgValue(t: string): (v: Value)
    ensures v == Null <==> NoMatch(DecimalKg, t)
    ensures v == Null || v.Num?
    ensures forall i, e, m :: FirstMatch(DecimalKg, t, i, e) && DecimalSpan(t, i, m) && AllIn(t, m, e - 2, Space) ==>
      v == Num(t[i..m])
  {
    SearchFinds(DecimalKg, t);
    match Search(DecimalKg, t)
    case Some(sp) =>
      KgDecimals(t, sp.start);
      Num(t[sp.start..DecimalEnd(t, sp.start).value])
    case None => Null
  }

  lemma KgDecimals(s: string, i: nat)
    requires i <= |s|
    ensures forall w, m :: KgAt(s, w) && DecimalSpan(s, i, m) && AllIn(s, m, w, Space) ==>
      DecimalEnd(s, i) == Some(m)
  {
    forall w, m | KgAt(s, w) && DecimalSpan(s, i, m) && AllIn(s, m, w, Space)
      ensures DecimalEnd(s, i) == Some(m)
    {
      KgStops(s, i, m, w);
    }
  }

  /** `group(1)` of `(\d+\.\d+|\d+|Biased|Standard)`, kept as text, or null when there is none. */
  function ReadingValue(t: string): (v: Value)
    ensures v == Null <==> NoMatch(Reading, t)
    ensures v == Null || v.Str?
    ensures forall i, e :: FirstMatch(Reading, t, i, e) ==> v == Str(t[i..e])
  {
    match Search(Reading, t)
    case Some(m) => Str(t[m.start..m.end])
    case None => Null
  }

  /** Where a decimal starts the reading, the whole decimal is taken, not just its integer part. */
  lemma ReadingPrefersDecimal(t: string, i: int, e: int, e': int)
    requires FirstMatch(Reading, t, i, e) && DecimalSpan(t, i, e')
    ensures DecimalSpan(t, i, e) && e' <= e
  {
    var r := DecimalEnd(t, i);
    assert Spans(Reading, t, i, r.value);
    assert ReadingEnd(t, i) == r;
  }
}
