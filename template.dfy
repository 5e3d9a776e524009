/**
 * The fixed report layout: where each field is read, which page-segmentation
 * mode is used, how row names become keys, and what each section of the
 * document is, as functions of the recognition engine and the grayscale image.
 * app/utils.py:23-144 and test.py:42-195 build exactly these documents.
 */
module Template {
  import opened Wrappers
  import opened Text
  import opened Patterns
  import opened Json
  import opened Fields
  import opened Vision

  // ---------------------------------------------------------------------------
  // Regions read once

  const TitleRegion := Region(100, 30, 800, 70)
  const DateRegion := Region(100, 80, 800, 50)
  const UserInfoRegion := Region(70, 150, 800, 70)
  const WeightRegion := Region(25, 290, 200, 100)
  const ChangeRegion := Region(240, 340, 200, 50)
  const BodyTypeRegion := Region(620, 580, 200, 40)

  // ---------------------------------------------------------------------------
  // Tables: a list of row names read one below the other

  /** Row `i` of a table is read at `(x, y0 + i * stride)` with size `w` by `h`. */
  datatype Layout = Layout(x: nat, y0: nat, stride: nat, w: nat, h: nat)

  function RowRegion(l: Layout, i: nat): Region {
    Region(l.x, l.y0 + i * l.stride, l.w, l.h)
  }

  const IndicatorNames := ["BMI", "Body fat perc", "Muscle rate"]
  const IndicatorLayout := Layout(30, 420, 35, 500, 35)

  const CompositionNames := ["Fat Mass", "Moisture", "Protein a", "Bone mass"]
  const CompositionLayout := Layout(600, 300, 50, 180, 50)

  const WeightControlNames := ["Current weight", "Standard weight", "Muscle mass", "Lean body mass", "Weight control"]
  const WeightControlLayout := Layout(20, 650, 35, 400, 40)

  const LeftIndicatorNames := ["BMR", "Visceral fat level", "Subcutaneous fat level"]
  const LeftIndicatorLayout := Layout(20, 960, 40, 250, 50)

  const RightIndicatorNames := ["Body age", "Obesity rating", "Protein rate"]
  const RightIndicatorLayout := Layout(450, 960, 40, 250, 50)

  // ---------------------------------------------------------------------------
  // Keys

  /** `name.lower().replace(" ", "_")`; RowKeyReplaces shows it is that replace. */
  function RowKey(name: string): string {
    Subst(Lower(name), ' ', '_')
  }

  /** `name.lower().replace(" ", "_").replace("perc", "percentage")`. */
  function IndicatorKey(name: string): string {
    Replace(RowKey(name), "perc", "percentage")
  }

  /** `name.lower().replace(" ", "_") + "_kg"`. */
  function WeightKey(name: string): string {
    RowKey(name) + "_kg"
  }

  /** The keys a table produces, in reading order. */
  function Keys(names: seq<string>, key: string -> string): (ks: set<string>)
    ensures forall j :: 0 <= j < |names| ==> key(names[j]) in ks
    ensures forall k :: k in ks ==> exists j :: 0 <= j < |names| && key(names[j]) == k
  {
    if names == [] then {}
    else Keys(names[..|names| - 1], key) + {key(names[|names| - 1])}
  }

  /** The keys of a table whose row keys are `ks`, in order. */
  lemma KeysAre(names: seq<string>, key: string -> string, ks: seq<string>)
    requires |names| == |ks| && forall j :: 0 <= j < |names| ==> key(names[j]) == ks[j]
    ensures forall k :: k in Keys(names, key) <==> k in ks
  {
  }

  /** No two rows of a table share a key. */
  predicate DistinctKeys(names: seq<string>, key: string -> string) {
    forall j, j' :: 0 <= j < j' < |names| ==> key(names[j]) != key(names[j'])
  }

  /**
   * A table section: for each row in order, read its region, parse the text and
   * store the value under the row's key (a later row with the same key overwrites).
   */
  function Table(eng: Engine, img: Image, names: seq<string>, key: string -> string, l: Layout, mode: Psm,
                 parse: string -> Value): Doc
  {
    if names == [] then map[]
    else
      var n := |names| - 1;
      Table(eng, img, names[..n], key, l, mode, parse)[key(names[n]) := parse(OcrText(eng, img, RowRegion(l, n), mode))]
  }

  /** A table has one key per row name. */
  lemma {:induction false} TableKeys(eng: Engine, img: Image, names: seq<string>, key: string -> string, l: Layout,
                                     mode: Psm, parse: string -> Value)
    ensures Table(eng, img, names, key, l, mode, parse).Keys == Keys(names, key)
  {
    if names != [] {
      TableKeys(eng, img, names[..|names| - 1], key, l, mode, parse);
    }
  }

  /** With distinct keys, each row's key holds the parse of that row's own region. */
  lemma {:induction false} TableRow(eng: Engine, img: Image, names: seq<string>, key: string -> string, l: Layout,
                                    mode: Psm, parse: string -> Value, j: nat)
    requires DistinctKeys(names, key) && j < |names|
    ensures key(names[j]) in Table(eng, img, names, key, l, mode, parse)
    ensures Table(eng, img, names, key, l, mode, parse)[key(names[j])] == parse(OcrText(eng, img, RowRegion(l, j), mode))
  {
    var n := |names| - 1;
    var rest := Table(eng, img, names[..n], key, l, mode, parse);
    assert Table(eng, img, names, key, l, mode, parse) == rest[key(names[n]) := parse(OcrText(eng, img, RowRegion(l, n), mode))];
    if j < n {
      assert names[..n][j] == names[j];
      assert DistinctKeys(names[..n], key) by {
        forall a, b | 0 <= a < b < n ensures key(names[..n][a]) != key(names[..n][b]) {
          assert names[..n][a] == names[a] && names[..n][b] == names[b];
        }
      }
      assert key(names[j]) != key(names[n]);
      TableRow(eng, img, names[..n], key, l, mode, parse, j);
    }
  }

  /** Reading one more row extends the table by that row's entry; this is one step of the reading loop. */
  lemma TableStep(eng: Engine, img: Image, names: seq<string>, key: string -> string, l: Layout,
                  mode: Psm, parse: string -> Value, i: nat)
    requires i < |names|
    ensures Table(eng, img, names[..i + 1], key, l, mode, parse)
      == Table(eng, img, names[..i], key, l, mode, parse)[key(names[i]) := parse(OcrText(eng, img, RowRegion(l, i), mode))]
  {
    assert names[..i + 1][..i] == names[..i];
  }

  /** Adding a table to an empty document gives the table. */
  lemma EmptyUnion(t: Doc)
    ensures map[] + t == t
  {
  }

  /** Writing a key after a union is writing it into the right-hand side. */
  lemma UpdateUnion(base: Doc, t: Doc, k: string, v: Value)
    ensures (base + t)[k := v] == base + t[k := v]
  {
  }

  /** Every value in a table is the parse of some text, so it has whatever property all parses have. */
  lemma {:induction false} TableAll(eng: Engine, img: Image, names: seq<string>, key: string -> string, l: Layout,
                                    mode: Psm, parse: string -> Value, P: Value -> bool)
    requires forall t :: P(parse(t))
    ensures forall k :: k in Table(eng, img, names, key, l, mode, parse) ==> P(Table(eng, img, names, key, l, mode, parse)[k])
  {
    if names != [] {
      TableAll(eng, img, names[..|names| - 1], key, l, mode, parse, P);
    }
  }

  /** Row `j` of a table with distinct keys, stated for a known key and rectangle. */
  lemma TableRowAt(eng: Engine, img: Image, names: seq<string>, key: string -> string, l: Layout,
                   mode: Psm, parse: string -> Value, j: nat, k: string, r: Region)
    requires DistinctKeys(names, key) && j < |names|
    requires key(names[j]) == k && RowRegion(l, j) == r
    ensures k in Table(eng, img, names, key, l, mode, parse)
    ensures Table(eng, img, names, key, l, mode, parse)[k] == parse(OcrText(eng, img, r, mode))
  {
    TableRow(eng, img, names, key, l, mode, parse, j);
  }

  // ---------------------------------------------------------------------------
  // The keys the row names give

  /** The substitution is Python's `.replace(" ", "_")`. */
  lemma RowKeyReplaces(name: string)
    ensures RowKey(name) == Replace(Lower(name), " ", "_")
  {
    ReplaceChar(Lower(name), ' ', '_');
  }

  lemma RowKeyIs(name: string, key: string)
    requires |name| == |key|
    requires forall n :: 0 <= n < |name| ==> (if name[n] == ' ' then '_' else LowerChar(name[n])) == key[n]
    ensures RowKey(name) == key
  {
  }

  lemma BmiKey()
    ensures IndicatorKey("BMI") == "bmi"
  {
    RowKeyIs("BMI", "bmi");
    PlainIndicatorKey("BMI", "bmi");
  }

  lemma MuscleRateKey()
    ensures IndicatorKey("Muscle rate") == "muscle_rate"
  {
    RowKeyIs("Muscle rate", "muscle_rate");
    PlainIndicatorKey("Muscle rate", "muscle_rate");
  }

  lemma BodyFatKey()
    ensures IndicatorKey("Body fat perc") == "body_fat_percentage"
  {
    RowKeyIs("Body fat perc", "body_fat_perc");
    PercSpelledOut();
  }

  lemma PercSpelledOut()
    ensures Replace("body_fat_perc", "perc", "percentage") == "body_fat_percentage"
  {
    NotInPrefix("body_fat_perc", "body_fat_", "perc");
    ReplaceLast("body_fat_perc", "body_fat_", "perc", "percentage", "body_fat_percentage");
  }

  lemma PlainIndicatorKey(name: string, key: string)
    requires RowKey(name) == key
    requires forall n :: 0 <= n < |key| ==> key[n] != 'p'
    ensures IndicatorKey(name) == key
  {
    forall n ensures !OccursAt(key, "perc", n) {
      NotAt(key, "perc", n);
    }
    ReplaceAbsent(key, "perc", "percentage");
  }

  const IndicatorKeys := ["bmi", "body_fat_percentage", "muscle_rate"]
  const CompositionKeys := ["fat_mass", "moisture", "protein_a", "bone_mass"]
  const WeightControlKeys := ["current_weight_kg", "standard_weight_kg", "muscle_mass_kg", "lean_body_mass_kg", "weight_control_kg"]
  const LeftIndicatorKeys := ["bmr", "visceral_fat_level", "subcutaneous_fat_level"]
  const RightIndicatorKeys := ["body_age", "obesity_rating", "protein_rate"]

  /** Lower-casing, `_` for spaces and `perc` spelled out give `bmi`, `body_fat_percentage`, `muscle_rate`. */
  lemma IndicatorKeysDerived()
    ensures forall j :: 0 <= j < |IndicatorNames| ==> IndicatorKey(IndicatorNames[j]) == IndicatorKeys[j]
  {
    BmiKey();
    BodyFatKey();
    MuscleRateKey();
  }

  lemma CompositionKeysDerived()
    ensures forall j :: 0 <= j < |CompositionNames| ==> RowKey(CompositionNames[j]) == CompositionKeys[j]
  {
    RowKeyIs("Fat Mass", "fat_mass");
    RowKeyIs("Moisture", "moisture");
    RowKeyIs("Protein a", "protein_a");
    RowKeyIs("Bone mass", "bone_mass");
  }

  lemma WeightControlKeysDerived()
    ensures forall j :: 0 <= j < |WeightControlNames| ==> WeightKey(WeightControlNames[j]) == WeightControlKeys[j]
  {
    RowKeyIs("Current weight", "current_weight");
    RowKeyIs("Standard weight", "standard_weight");
    RowKeyIs("Muscle mass", "muscle_mass");
    RowKeyIs("Lean body mass", "lean_body_mass");
    RowKeyIs("Weight control", "weight_control");
  }

  lemma OtherIndicatorKeysDerived()
    ensures forall j :: 0 <= j < |LeftIndicatorNames| ==> RowKey(LeftIndicatorNames[j]) == LeftIndicatorKeys[j]
    ensures forall j :: 0 <= j < |RightIndicatorNames| ==> RowKey(RightIndicatorNames[j]) == RightIndicatorKeys[j]
  {
    RowKeyIs("BMR", "bmr");
    RowKeyIs("Visceral fat level", "visceral_fat_level");
    RowKeyIs("Subcutaneous fat level", "subcutaneous_fat_level");
    RowKeyIs("Body age", "body_age");
    RowKeyIs("Obesity rating", "obesity_rating");
    RowKeyIs("Protein rate", "protein_rate");
  }

  lemma IndicatorKeySet()
    ensures Keys(IndicatorNames, IndicatorKey) == {"bmi", "body_fat_percentage", "muscle_rate"}
  {
    IndicatorKeysDerived();
    KeysAre(IndicatorNames, IndicatorKey, IndicatorKeys);
  }

  lemma CompositionKeySet()
    ensures Keys(CompositionNames, RowKey) == {"fat_mass", "moisture", "protein_a", "bone_mass"}
  {
    CompositionKeysDerived();
    KeysAre(CompositionNames, RowKey, CompositionKeys);
    CompositionKeysListed(Keys(CompositionNames, RowKey));
  }

  lemma CompositionKeysListed(s: set<string>)
    requires forall k :: k in s <==> k in CompositionKeys
    ensures s == {"fat_mass", "moisture", "protein_a", "bone_mass"}
  {
  }

  lemma WeightControlKeySet()
    ensures Keys(WeightControlNames, WeightKey) == {"current_weight_kg", "standard_weight_kg", "muscle_mass_kg", "lean_body_mass_kg", "weight_control_kg"}
  {
    WeightControlKeysDerived();
    KeysAre(WeightControlNames, WeightKey, WeightControlKeys);
    WeightControlKeysListed(Keys(WeightControlNames, WeightKey));
  }

  lemma WeightControlKeysListed(s: set<string>)
    requires forall k :: k in s <==> k in WeightControlKeys
    ensures s == {"current_weight_kg", "standard_weight_kg", "muscle_mass_kg", "lean_body_mass_kg", "weight_control_kg"}
  {
  }

  lemma LeftIndicatorKeySet()
    ensures Keys(LeftIndicatorNames, RowKey) == {"bmr", "visceral_fat_level", "subcutaneous_fat_level"}
  {
    OtherIndicatorKeysDerived();
    KeysAre(LeftIndicatorNames, RowKey, LeftIndicatorKeys);
  }

  lemma RightIndicatorKeySet()
    ensures Keys(RightIndicatorNames, RowKey) == {"body_age", "obesity_rating", "protein_rate"}
  {
    OtherIndicatorKeysDerived();
    KeysAre(RightIndicatorNames, RowKey, RightIndicatorKeys);
  }

  // ---------------------------------------------------------------------------
  // The sections

  function Header(eng: Engine, img: Image): (d: Doc)
    ensures d.Keys == {"report_title", "report_date"}
  {
    map["report_title" := Str(ReportTitle(OcrText(eng, img, TitleRegion, Block))),
        "report_date" := Str(ReportDate(OcrText(eng, img, DateRegion, Line)))]
  }

  /** The title is the recognised text when it mentions a report, else the default; the date is the first date-time, else the raw text. */
  lemma HeaderFields(eng: Engine, img: Image)
    ensures var title := OcrText(eng, img, TitleRegion, Block);
      Header(eng, img)["report_title"] == Str(if MentionsReport(title) then title else DefaultTitle)
    ensures var date := OcrText(eng, img, DateRegion, Line);
      && (NoMatch(DateTime, date) ==> Header(eng, img)["report_date"] == Str(date))
      && (forall i, e :: FirstMatch(DateTime, date, i, e) ==> Header(eng, img)["report_date"] == Str(date[i..e]))
  {
    var title := OcrText(eng, img, TitleRegion, Block);
    var date := OcrText(eng, img, DateRegion, Line);
    assert Header(eng, img)["report_title"] == Str(ReportTitle(title));
    assert Header(eng, img)["report_date"] == Str(ReportDate(date));
  }

  /** `{"value": ...}` for a basic indicator row. */
  function IndicatorEntry(t: string): Value {
    Obj(map["value" := DecimalOrNull(t)])
  }

  /** Stores `v` under `k` when there is one. */
  function Put(d: Doc, k: string, v: Option<Value>): Doc {
    if v.Some? then d[k := v.value] else d
  }

  function AsStr(g: Option<string>): Option<Value> {
    if g.Some? then Some(Str(g.value)) else None
  }

  function AsInt(g: Option<string>): Option<Value>
    requires g.Some? ==> forall n :: 0 <= n < |g.value| ==> IsDigit(g.value[n])
  {
    if g.Some? then Some(Int(DigitsValue(g.value))) else None
  }

  /** `name`, `gender`, `height_cm` and `age` from the user-information text, each set only on a match. */
  function UserFields(info: string): Doc {
    var d := Put(map[], "name", AsStr(LabelGroup("Name:", Word, info)));
    var d := Put(d, "gender", AsStr(LabelGroup("Gender:", Word, info)));
    var d := Put(d, "height_cm", AsInt(HeightGroup(info)));
    Put(d, "age", AsInt(LabelGroup("Age:", Digit, info)))
  }

  /** Each user field is present exactly when its own pattern matches, and then has the type `int()` or `str` gives it. */
  lemma UserFieldsShape(info: string)
    ensures var d := UserFields(info);
      && d.Keys <= {"name", "gender", "height_cm", "age"}
      && ("name" in d <==> !NoMatch(NamePattern, info))
      && ("gender" in d <==> !NoMatch(GenderPattern, info))
      && ("height_cm" in d <==> !NoMatch(Height, info))
      && ("age" in d <==> !NoMatch(AgePattern, info))
      && ("name" in d ==> d["name"].Str?)
      && ("gender" in d ==> d["gender"].Str?)
      && ("height_cm" in d ==> d["height_cm"].Int?)
      && ("age" in d ==> d["age"].Int?)
  {
  }

  /**
   * Where its pattern matches the user-information text `info`, each user field of
   * `d` holds group 1 of the leftmost match: as text for `name` and `gender`, as
   * `int()` reads it for `height_cm` and `age`.
   */
  ghost predicate HoldsUserGroups(info: string, d: Doc) {
    && (forall i, e :: FirstMatch(NamePattern, info, i, e) ==> "name" in d && d["name"] == Str(info[i + 5..e]))
    && (forall i, e :: FirstMatch(GenderPattern, info, i, e) ==> "gender" in d && d["gender"] == Str(info[i + 7..e]))
    && (forall i, e :: FirstMatch(Height, info, i, e) ==>
          (AllInSlice(info, i + |HeightPrefix|, e - 2, Digit);
           "height_cm" in d && d["height_cm"] == Int(DigitsValue(info[i + |HeightPrefix|..e - 2]))))
    && (forall i, e :: FirstMatch(AgePattern, info, i, e) ==>
          (AllInSlice(info, i + 4, e, Digit);
           "age" in d && d["age"] == Int(DigitsValue(info[i + 4..e]))))
  }

  lemma UserFieldValues(info: string)
    ensures HoldsUserGroups(info, UserFields(info))
  {
    UserFieldsShape(info);
  }


  /** The three indicator rows below the weight: `bmi`, `body_fat_percentage`, `muscle_rate`, always present. */
  function Indicators(eng: Engine, img: Image): (d: Doc)
    ensures d.Keys == {"bmi", "body_fat_percentage", "muscle_rate"}
  {
    IndicatorKeySet();
    TableKeys(eng, img, IndicatorNames, IndicatorKey, IndicatorLayout, Block, IndicatorEntry);
    Table(eng, img, IndicatorNames, IndicatorKey, IndicatorLayout, Block, IndicatorEntry)
  }

  /** Indicator row `j` is read at `x = 30`, `y = 420 + 35 * j`, 500 by 35 pixels, as a text block. */
  lemma IndicatorsRead(eng: Engine, img: Image)
    ensures forall j :: 0 <= j < |IndicatorKeys| ==>
      Indicators(eng, img)[IndicatorKeys[j]] == IndicatorEntry(OcrText(eng, img, Region(30, 420 + 35 * j, 500, 35), Block))
  {
    IndicatorKeysDerived();
    assert DistinctKeys(IndicatorNames, IndicatorKey);
    forall j | 0 <= j < |IndicatorKeys|
      ensures Indicators(eng, img)[IndicatorKeys[j]] == IndicatorEntry(OcrText(eng, img, Region(30, 420 + 35 * j, 500, 35), Block))
    {
      TableRowAt(eng, img, IndicatorNames, IndicatorKey, IndicatorLayout, Block, IndicatorEntry, j,
                 IndicatorKeys[j], Region(30, 420 + 35 * j, 500, 35));
    }
  }

  const BasicKeys := {"name", "gender", "height_cm", "age", "current_weight", "weight_change",
                      "bmi", "body_fat_percentage", "muscle_rate"}

  /** The basic-data section in the order it is filled: user fields, current weight, weight change, indicator rows. */
  function AssembleBasic(user: Doc, weight: string, change: Option<Value>, rows: Doc): Doc {
    Put(user["current_weight" := Str(Strip(weight))], "weight_change", change) + rows
  }

  function BasicData(eng: Engine, img: Image): Doc {
    AssembleBasic(UserFields(OcrText(eng, img, UserInfoRegion, Block)), OcrText(eng, img, WeightRegion, Block),
                  WeightChange(OcrText(eng, img, ChangeRegion, Block)), Indicators(eng, img))
  }

  /** The keys of an assembled basic-data section: the always-present ones, and no others than the nine. */
  lemma AssembleBasicKeys(user: Doc, weight: string, change: Option<Value>, rows: Doc)
    requires user.Keys <= {"name", "gender", "height_cm", "age"}
    requires rows.Keys == {"bmi", "body_fat_percentage", "muscle_rate"}
    ensures {"current_weight", "bmi", "body_fat_percentage", "muscle_rate"} <= AssembleBasic(user, weight, change, rows).Keys <= BasicKeys
  {
  }

  /** The user fields of an assembled basic-data section are those of `user`, untouched by the later writes. */
  lemma AssembleBasicUser(user: Doc, weight: string, change: Option<Value>, rows: Doc)
    requires rows.Keys == {"bmi", "body_fat_percentage", "muscle_rate"}
    ensures var d := AssembleBasic(user, weight, change, rows);
      forall k :: k in {"name", "gender", "height_cm", "age"} ==> (k in d <==> k in user) && (k in user ==> d[k] == user[k])
  {
  }

  /** The current weight, the weight change and the indicator rows of an assembled basic-data section. */
  lemma AssembleBasicOwn(user: Doc, weight: string, change: Option<Value>, rows: Doc)
    requires user.Keys <= {"name", "gender", "height_cm", "age"}
    requires rows.Keys == {"bmi", "body_fat_percentage", "muscle_rate"}
    ensures var d := AssembleBasic(user, weight, change, rows);
      && d["current_weight"] == Str(Strip(weight))
      && ("weight_change" in d <==> change.Some?)
      && ("weight_change" in d ==> d["weight_change"] == change.value)
      && (forall k :: k in rows ==> d[k] == rows[k])
  {
  }

  /** The keys of the basic-data section: the four user fields on a match, and the five always present. */
  lemma BasicDataKeys(eng: Engine, img: Image)
    ensures {"current_weight", "bmi", "body_fat_percentage", "muscle_rate"} <= BasicData(eng, img).Keys <= BasicKeys
  {
    UserFieldsShape(OcrText(eng, img, UserInfoRegion, Block));
    AssembleBasicKeys(UserFields(OcrText(eng, img, UserInfoRegion, Block)), OcrText(eng, img, WeightRegion, Block),
                      WeightChange(OcrText(eng, img, ChangeRegion, Block)), Indicators(eng, img));
  }

  /** Each of `name`, `gender`, `height_cm` and `age` is present exactly when its own pattern matches, and then holds its group. */
  lemma BasicDataUser(eng: Engine, img: Image)
    ensures var info := OcrText(eng, img, UserInfoRegion, Block); var d := BasicData(eng, img);
      && ("name" in d <==> !NoMatch(NamePattern, info))
      && ("gender" in d <==> !NoMatch(GenderPattern, info))
      && ("height_cm" in d <==> !NoMatch(Height, info))
      && ("age" in d <==> !NoMatch(AgePattern, info))
      && HoldsUserGroups(info, d)
  {
    UserFieldsShape(OcrText(eng, img, UserInfoRegion, Block));
    UserFieldValues(OcrText(eng, img, UserInfoRegion, Block));
    AssembleBasicUser(UserFields(OcrText(eng, img, UserInfoRegion, Block)), OcrText(eng, img, WeightRegion, Block),
                      WeightChange(OcrText(eng, img, ChangeRegion, Block)), Indicators(eng, img));
  }


  /** `current_weight` is the region's text unchanged: trimming it a second time does nothing. */
  lemma BasicDataWeight(eng: Engine, img: Image)
    ensures BasicData(eng, img)["current_weight"] == Str(OcrText(eng, img, WeightRegion, Block))
  {
    UserFieldsShape(OcrText(eng, img, UserInfoRegion, Block));
    AssembleBasicOwn(UserFields(OcrText(eng, img, UserInfoRegion, Block)), OcrText(eng, img, WeightRegion, Block),
                      WeightChange(OcrText(eng, img, ChangeRegion, Block)), Indicators(eng, img));
    OcrTextTrimmed(eng, img, WeightRegion, Block);
  }

  /** `weight_change` is present exactly when the change text matches, and then holds the parsed change. */
  lemma BasicDataChange(eng: Engine, img: Image)
    ensures var change := OcrText(eng, img, ChangeRegion, Block); var d := BasicData(eng, img);
      && ("weight_change" in d <==> !NoMatch(Change, change))
      && ("weight_change" in d ==> Some(d["weight_change"]) == WeightChange(change))
  {
    UserFieldsShape(OcrText(eng, img, UserInfoRegion, Block));
    AssembleBasicOwn(UserFields(OcrText(eng, img, UserInfoRegion, Block)), OcrText(eng, img, WeightRegion, Block),
                      WeightChange(OcrText(eng, img, ChangeRegion, Block)), Indicators(eng, img));
  }

  /** The three indicator keys hold the leftmost decimal of their own rows, or null. */
  lemma BasicDataIndicators(eng: Engine, img: Image)
    ensures forall j :: 0 <= j < |IndicatorKeys| ==>
      BasicData(eng, img)[IndicatorKeys[j]] == IndicatorEntry(OcrText(eng, img, Region(30, 420 + 35 * j, 500, 35), Block))
  {
    UserFieldsShape(OcrText(eng, img, UserInfoRegion, Block));
    AssembleBasicOwn(UserFields(OcrText(eng, img, UserInfoRegion, Block)), OcrText(eng, img, WeightRegion, Block),
                      WeightChange(OcrText(eng, img, ChangeRegion, Block)), Indicators(eng, img));
    IndicatorsRead(eng, img);
  }

  // Body composition analysis

  /** Each composition entry has a value and a unit, both null or both set, the unit `%` or `kg`. */
  predicate CompositionShape(v: Value) {
    && v.Obj? && v.fields.Keys == {"value", "unit"}
    && (v.fields["value"] == Null <==> v.fields["unit"] == Null)
    && (v.fields["value"] == Null || v.fields["value"].Num?)
    && v.fields["unit"] in {Null, Str("%"), Str("kg")}
  }

  lemma BodyCompositionAnalysisShapes(eng: Engine, img: Image)
    ensures forall k :: k in Table(eng, img, CompositionNames, RowKey, CompositionLayout, Line, CompositionEntry) ==> CompositionShape(Table(eng, img, CompositionNames, RowKey, CompositionLayout, Line, CompositionEntry)[k])
  {
    TableAll(eng, img, CompositionNames, RowKey, CompositionLayout, Line, CompositionEntry, CompositionShape);
  }

  function BodyCompositionAnalysis(eng: Engine, img: Image): (d: Doc)
    ensures d.Keys == {"fat_mass", "moisture", "protein_a", "bone_mass"}
    ensures forall k :: k in d ==> CompositionShape(d[k])
  {
    CompositionKeySet();
    TableKeys(eng, img, CompositionNames, RowKey, CompositionLayout, Line, CompositionEntry);
    BodyCompositionAnalysisShapes(eng, img);
    Table(eng, img, CompositionNames, RowKey, CompositionLayout, Line, CompositionEntry)
  }

  /** Composition row `j` is read at `x = 600`, `y = 300 + 50 * j`, 180 by 50 pixels, as one line. */
  lemma BodyCompositionRead(eng: Engine, img: Image)
    ensures forall j :: 0 <= j < |CompositionKeys| ==>
      BodyCompositionAnalysis(eng, img)[CompositionKeys[j]] == CompositionEntry(OcrText(eng, img, Region(600, 300 + 50 * j, 180, 50), Line))
  {
    CompositionKeysDerived();
    assert DistinctKeys(CompositionNames, RowKey);
    forall j | 0 <= j < |CompositionKeys|
      ensures BodyCompositionAnalysis(eng, img)[CompositionKeys[j]] == CompositionEntry(OcrText(eng, img, Region(600, 300 + 50 * j, 180, 50), Line))
    {
      TableRowAt(eng, img, CompositionNames, RowKey, CompositionLayout, Line, CompositionEntry, j,
                 CompositionKeys[j], Region(600, 300 + 50 * j, 180, 50));
    }
  }

  // Weight control

  predicate NumberOrNull(v: Value) {
    v == Null || v.Num?
  }

  lemma WeightControlShapes(eng: Engine, img: Image)
    ensures forall k :: k in Table(eng, img, WeightControlNames, WeightKey, WeightControlLayout, Line, KgValue) ==> NumberOrNull(Table(eng, img, WeightControlNames, WeightKey, WeightControlLayout, Line, KgValue)[k])
  {
    TableAll(eng, img, WeightControlNames, WeightKey, WeightControlLayout, Line, KgValue, NumberOrNull);
  }

  function WeightControl(eng: Engine, img: Image): (d: Doc)
    ensures d.Keys == {"current_weight_kg", "standard_weight_kg", "muscle_mass_kg", "lean_body_mass_kg", "weight_control_kg"}
    ensures forall k :: k in d ==> NumberOrNull(d[k])
  {
    WeightControlKeySet();
    TableKeys(eng, img, WeightControlNames, WeightKey, WeightControlLayout, Line, KgValue);
    WeightControlShapes(eng, img);
    Table(eng, img, WeightControlNames, WeightKey, WeightControlLayout, Line, KgValue)
  }

  /** Weight-control row `j` is read at `x = 20`, `y = 650 + 35 * j`, 400 by 40 pixels, as one line. */
  lemma WeightControlRead(eng: Engine, img: Image)
    ensures forall j :: 0 <= j < |WeightControlKeys| ==>
      WeightControl(eng, img)[WeightControlKeys[j]] == KgValue(OcrText(eng, img, Region(20, 650 + 35 * j, 400, 40), Line))
  {
    WeightControlKeysDerived();
    assert DistinctKeys(WeightControlNames, WeightKey);
    forall j | 0 <= j < |WeightControlKeys|
      ensures WeightControl(eng, img)[WeightControlKeys[j]] == KgValue(OcrText(eng, img, Region(20, 650 + 35 * j, 400, 40), Line))
    {
      TableRowAt(eng, img, WeightControlNames, WeightKey, WeightControlLayout, Line, KgValue, j,
                 WeightControlKeys[j], Region(20, 650 + 35 * j, 400, 40));
    }
  }

  // Body type

  function BodyType(eng: Engine, img: Image): (d: Doc)
    ensures d.Keys == {"overall"}
  {
    map["overall" := Str(OcrText(eng, img, BodyTypeRegion, Block))]
  }

  // Other indicators

  /** `{"value": ...}` for an other-indicator row. */
  function ReadingEntry(t: string): Value {
    Obj(map["value" := ReadingValue(t)])
  }

  /** Each other indicator holds a raw matched string or null. */
  predicate ReadingShape(v: Value) {
    v.Obj? && v.fields.Keys == {"value"} && (v.fields["value"] == Null || v.fields["value"].Str?)
  }

  lemma LeftIndicatorsShapes(eng: Engine, img: Image)
    ensures forall k :: k in Table(eng, img, LeftIndicatorNames, RowKey, LeftIndicatorLayout, Line, ReadingEntry) ==> ReadingShape(Table(eng, img, LeftIndicatorNames, RowKey, LeftIndicatorLayout, Line, ReadingEntry)[k])
  {
    TableAll(eng, img, LeftIndicatorNames, RowKey, LeftIndicatorLayout, Line, ReadingEntry, ReadingShape);
  }

  function LeftIndicators(eng: Engine, img: Image): (d: Doc)
    ensures d.Keys == {"bmr", "visceral_fat_level", "subcutaneous_fat_level"}
    ensures forall k :: k in d ==> ReadingShape(d[k])
  {
    LeftIndicatorKeySet();
    TableKeys(eng, img, LeftIndicatorNames, RowKey, LeftIndicatorLayout, Line, ReadingEntry);
    LeftIndicatorsShapes(eng, img);
    Table(eng, img, LeftIndicatorNames, RowKey, LeftIndicatorLayout, Line, ReadingEntry)
  }

  lemma RightIndicatorsShapes(eng: Engine, img: Image)
    ensures forall k :: k in Table(eng, img, RightIndicatorNames, RowKey, RightIndicatorLayout, Line, ReadingEntry) ==> ReadingShape(Table(eng, img, RightIndicatorNames, RowKey, RightIndicatorLayout, Line, ReadingEntry)[k])
  {
    TableAll(eng, img, RightIndicatorNames, RowKey, RightIndicatorLayout, Line, ReadingEntry, ReadingShape);
  }

  function RightIndicators(eng: Engine, img: Image): (d: Doc)
    ensures d.Keys == {"body_age", "obesity_rating", "protein_rate"}
    ensures forall k :: k in d ==> ReadingShape(d[k])
  {
    RightIndicatorKeySet();
    TableKeys(eng, img, RightIndicatorNames, RowKey, RightIndicatorLayout, Line, ReadingEntry);
    RightIndicatorsShapes(eng, img);
    Table(eng, img, RightIndicatorNames, RowKey, RightIndicatorLayout, Line, ReadingEntry)
  }

  /** The left table is read first, then the right one into the same section. */
  function OtherIndicators(eng: Engine, img: Image): (d: Doc)
    ensures d.Keys == {"bmr", "visceral_fat_level", "subcutaneous_fat_level", "body_age", "obesity_rating", "protein_rate"}
    ensures forall k :: k in d ==> ReadingShape(d[k])
  {
    var l := LeftIndicators(eng, img);
    var r := RightIndicators(eng, img);
    UnionAll(l, r, ReadingShape);
    SidesUnion(l, r);
    l + r
  }

  /** The section's keys are the three left ones and the three right ones. */
  lemma SidesUnion(l: Doc, r: Doc)
    requires l.Keys == {"bmr", "visceral_fat_level", "subcutaneous_fat_level"}
    requires r.Keys == {"body_age", "obesity_rating", "protein_rate"}
    ensures (l + r).Keys == {"bmr", "visceral_fat_level", "subcutaneous_fat_level", "body_age", "obesity_rating", "protein_rate"}
  {
    assert (l + r).Keys == l.Keys + r.Keys;
  }

  /** A property every value of both maps has, every value of their union has. */
  lemma UnionAll(l: Doc, r: Doc, P: Value -> bool)
    requires forall k :: k in l ==> P(l[k])
    requires forall k :: k in r ==> P(r[k])
    ensures forall k :: k in l + r ==> P((l + r)[k])
  {
  }

  /** Left row `j` is read at `x = 20`, `y = 960 + 40 * j`, 250 by 50 pixels, as one line. */
  lemma LeftIndicatorsRead(eng: Engine, img: Image)
    ensures forall j :: 0 <= j < |LeftIndicatorKeys| ==>
      LeftIndicators(eng, img)[LeftIndicatorKeys[j]] == ReadingEntry(OcrText(eng, img, Region(20, 960 + 40 * j, 250, 50), Line))
  {
    OtherIndicatorKeysDerived();
    assert DistinctKeys(LeftIndicatorNames, RowKey);
    forall j | 0 <= j < |LeftIndicatorKeys|
      ensures LeftIndicators(eng, img)[LeftIndicatorKeys[j]] == ReadingEntry(OcrText(eng, img, Region(20, 960 + 40 * j, 250, 50), Line))
    {
      TableRowAt(eng, img, LeftIndicatorNames, RowKey, LeftIndicatorLayout, Line, ReadingEntry, j,
                 LeftIndicatorKeys[j], Region(20, 960 + 40 * j, 250, 50));
    }
  }

  /** Right row `j` is read at `x = 450`, `y = 960 + 40 * j`, 250 by 50 pixels, as one line. */
  lemma RightIndicatorsRead(eng: Engine, img: Image)
    ensures forall j :: 0 <= j < |RightIndicatorKeys| ==>
      RightIndicators(eng, img)[RightIndicatorKeys[j]] == ReadingEntry(OcrText(eng, img, Region(450, 960 + 40 * j, 250, 50), Line))
  {
    OtherIndicatorKeysDerived();
    assert DistinctKeys(RightIndicatorNames, RowKey);
    forall j | 0 <= j < |RightIndicatorKeys|
      ensures RightIndicators(eng, img)[RightIndicatorKeys[j]] == ReadingEntry(OcrText(eng, img, Region(450, 960 + 40 * j, 250, 50), Line))
    {
      TableRowAt(eng, img, RightIndicatorNames, RowKey, RightIndicatorLayout, Line, ReadingEntry, j,
                 RightIndicatorKeys[j], Region(450, 960 + 40 * j, 250, 50));
    }
  }

  /** Both tables land in one section; the key sets are disjoint, so neither overwrites the other. */
  lemma OtherIndicatorsRead(eng: Engine, img: Image)
    ensures forall j :: 0 <= j < |LeftIndicatorKeys| ==>
      OtherIndicators(eng, img)[LeftIndicatorKeys[j]] == ReadingEntry(OcrText(eng, img, Region(20, 960 + 40 * j, 250, 50), Line))
    ensures forall j :: 0 <= j < |RightIndicatorKeys| ==>
      OtherIndicators(eng, img)[RightIndicatorKeys[j]] == ReadingEntry(OcrText(eng, img, Region(450, 960 + 40 * j, 250, 50), Line))
  {
    OtherLeftRead(eng, img);
    OtherRightRead(eng, img);
  }

  lemma OtherLeftRead(eng: Engine, img: Image)
    ensures forall j :: 0 <= j < |LeftIndicatorKeys| ==>
      OtherIndicators(eng, img)[LeftIndicatorKeys[j]] == ReadingEntry(OcrText(eng, img, Region(20, 960 + 40 * j, 250, 50), Line))
  {
    var l := LeftIndicators(eng, img);
    var r := RightIndicators(eng, img);
    SidesDisjoint(l, r);
    DisjointUnion(l, r);
    LeftIndicatorsRead(eng, img);
    forall j | 0 <= j < |LeftIndicatorKeys|
      ensures OtherIndicators(eng, img)[LeftIndicatorKeys[j]] == ReadingEntry(OcrText(eng, img, Region(20, 960 + 40 * j, 250, 50), Line))
    {
      assert LeftIndicatorKeys[j] in l;
    }
  }

  lemma OtherRightRead(eng: Engine, img: Image)
    ensures forall j :: 0 <= j < |RightIndicatorKeys| ==>
      OtherIndicators(eng, img)[RightIndicatorKeys[j]] == ReadingEntry(OcrText(eng, img, Region(450, 960 + 40 * j, 250, 50), Line))
  {
    var l := LeftIndicators(eng, img);
    var r := RightIndicators(eng, img);
    SidesDisjoint(l, r);
    DisjointUnion(l, r);
    RightIndicatorsRead(eng, img);
    forall j | 0 <= j < |RightIndicatorKeys|
      ensures OtherIndicators(eng, img)[RightIndicatorKeys[j]] == ReadingEntry(OcrText(eng, img, Region(450, 960 + 40 * j, 250, 50), Line))
    {
      assert RightIndicatorKeys[j] in r;
    }
  }

  /** No key of the left table is a key of the right one. */
  lemma SidesDisjoint(l: Doc, r: Doc)
    requires l.Keys == {"bmr", "visceral_fat_level", "subcutaneous_fat_level"}
    requires r.Keys == {"body_age", "obesity_rating", "protein_rate"}
    ensures l.Keys !! r.Keys
  {
  }

  /** In a union of maps with disjoint keys, each key keeps the value of the map it came from. */
  lemma DisjointUnion(l: Doc, r: Doc)
    requires l.Keys !! r.Keys
    ensures forall k :: k in l ==> (l + r)[k] == l[k]
    ensures forall k :: k in r ==> (l + r)[k] == r[k]
  {
  }

  // ---------------------------------------------------------------------------
  // The whole report

  const ReportKeys := {"report_title", "report_date", "basic_data", "body_composition_analysis",
                       "weight_control", "body_type", "other_indicators"}

  /** The header's keys, then one nested object per section. */
  function AssembleReport(header: Doc, basic: Doc, composition: Doc, weight: Doc, bodyType: Doc, other: Doc): Doc {
    header["basic_data" := Obj(basic)]["body_composition_analysis" := Obj(composition)]
          ["weight_control" := Obj(weight)]["body_type" := Obj(bodyType)]["other_indicators" := Obj(other)]
  }

  function Report(eng: Engine, img: Image): Doc {
    AssembleReport(Header(eng, img), BasicData(eng, img), BodyCompositionAnalysis(eng, img),
                   WeightControl(eng, img), BodyType(eng, img), OtherIndicators(eng, img))
  }

  /** Where the top-level keys of an assembled report come from. */
  lemma AssembleReportKeys(header: Doc, basic: Doc, composition: Doc, weight: Doc, bodyType: Doc, other: Doc)
    requires header.Keys == {"report_title", "report_date"}
    ensures var d := AssembleReport(header, basic, composition, weight, bodyType, other);
      && d.Keys == ReportKeys
      && d["report_title"] == header["report_title"] && d["report_date"] == header["report_date"]
      && d["basic_data"] == Obj(basic) && d["body_composition_analysis"] == Obj(composition)
      && d["weight_control"] == Obj(weight) && d["body_type"] == Obj(bodyType) && d["other_indicators"] == Obj(other)
  {
  }

  /** A report has exactly the seven top-level keys, and `body_type` holds only the raw region text. */
  lemma ReportShape(eng: Engine, img: Image)
    ensures Report(eng, img).Keys == ReportKeys
    ensures Report(eng, img)["body_type"] == Obj(map["overall" := Str(OcrText(eng, img, BodyTypeRegion, Block))])
    ensures Report(eng, img)["report_title"] == Header(eng, img)["report_title"]
    ensures Report(eng, img)["report_date"] == Header(eng, img)["report_date"]
  {
    AssembleReportKeys(Header(eng, img), BasicData(eng, img), BodyCompositionAnalysis(eng, img),
                       WeightControl(eng, img), BodyType(eng, img), OtherIndicators(eng, img));
  }
}
