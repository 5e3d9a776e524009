# Body-composition report reader: the extraction core

This project models the part of the body-composition report reader that turns
a scanned report into a nested document. The reader loads the image and
converts it to grayscale. It then runs Tesseract on fixed rectangles of the
page. For each rectangle it searches the trimmed text with a small regular
expression and stores what it finds under fixed key names, in six sections:

- the header (title and date);
- `basic_data`;
- `body_composition_analysis`;
- `weight_control`;
- `body_type`;
- `other_indicators`.

The same code exists twice. `app/utils.py` holds it as the `ReportExtractor`
class plus a module-level `extract_report`. `test.py` holds it as free
functions plus `main`. The two differ only on a missing image:
`extract_report` raises an error, while `main` returns the empty document.

The project is laid out as follows:

- `wrappers.dfy`: `Option` and `Result`.
- `json.dfy`: the document. Values are null, string, integer, a number kept
  as the decimal text that `float()` would read, or a nested object.
- `text.dfy`: string operations on ASCII letters and digits, with Python's
  full whitespace set for `strip()` and `\s`. These are `strip()`, `lower()`,
  substring search, `str.replace`, and the value of a digit string, which is
  what `int()` computes.
- `patterns.dfy`: the ten regular expressions of the extractor, in eight
  shapes: `Name:(\w+)`, `Gender:(\w+)` and `Age:(\d+)` share one labelled shape.
  - `Spans(p, s, i, e)` says that `s[i..e]` is in the language of pattern `p`.
  - For each pattern there is an executable matcher. It is proved to return
    the longest span that starts at `i`.
  - `Search` returns the leftmost start and the longest span there. It is
    proved to be exactly `re.search`'s answer as specified by
    `NoMatch`/`FirstMatch`.
- `fields.dfy`: one function per regular-expression use. Each takes the group
  the source reads and converts it into a document value.
- `vision.dfy`: the image side.
  - Loading, grayscale conversion and recognition are fields of an `Engine`
    value supplied by the caller.
  - The NumPy crop is modelled exactly, including clamping at the image edge.
  - `OcrText` is crop, then recognise, then strip.
- `template.dfy`: the page template and one specification function per section.
  - It defines the rectangles and row layouts, with row `i` at `y0 + i * stride`.
  - It defines the row names and the keys derived from them.
  - It defines `Report`, the whole document, together with the lemmas that
    give each section's exact key set and the value under each key.
- `extractor.dfy`: the `ReportExtractor` class and the module-level
  `ExtractReport`. Every method fills its dictionary one assignment and one
  enumerated row at a time, as the source does. Each is proved to build
  exactly the document its specification function defines.
- `script.dfy`: the free-function copies from `test.py`. `RunMain` stands for
  `main`. `MainAgreesWithExtractor` proves that it returns the class's report
  whenever the class returns one.

## Model

| member | source | states |
|---|---|---|
| Text.Strip | app/utils.py:21 | the result has no leading or trailing whitespace, is a contiguous slice of the input with only whitespace cut off both ends, and is the input itself when that is already trimmed |
| Text.StripIdempotent | app/utils.py:47 | stripping the already trimmed region text again changes nothing, so `current_weight` is the OCR text unchanged |
| Text.Contains | app/utils.py:26 | the substring test `in` is true exactly when the pattern occurs at some index |
| Text.ContainsLowerIgnoreCase | app/utils.py:26 | `"report" in t.lower()` holds exactly when "report" occurs in `t` in some mix of letter case |
| Text.LeadingSpace | app/utils.py:21 | the count of leading characters that `strip()` removes: all whitespace, stopping at the first non-space |
| Text.TrailingSpace | app/utils.py:21 | the count of trailing characters that `strip()` removes: all whitespace, stopping at the last non-space |
| Text.ReplaceChar | app/utils.py:73 | replacing the one-character string " " by "_" substitutes every space and nothing else |
| Text.ReplaceAbsent | app/utils.py:60 | `str.replace` leaves a string without any occurrence of the pattern unchanged |
| Text.ReplaceFirst | app/utils.py:60 | `str.replace` rewrites the leftmost occurrence and then carries on after it, left to right, without overlaps |
| Text.ReplaceLast | app/utils.py:60 | when the pattern occurs only as the suffix (no occurrence starts inside the prefix), `str.replace` rewrites exactly that suffix |
| Text.DigitsValueAppend | app/utils.py:43 | the value `int()` gives a digit string is positional: the value of `a + b` is the value of `a` times ten to the length of `b`, plus the value of `b` |
| Text.LeadingZero | app/utils.py:45 | a leading zero does not change the value `int()` reads |
| Patterns.RunEnd | app/utils.py:38 | the greedy run of a character class (`\w+`, `\d+`, `\s*`) ends at the first character outside the class and covers only class characters |
| Patterns.RunsCovered | app/utils.py:38 | every run of class characters that starts at `i` ends no later than the greedy run |
| Patterns.DecimalEnd | app/utils.py:58 | the matcher for `\d+\.\d+` at `i` answers with a span of the language, and with the longest one whenever any exists |
| Patterns.DateEnd | app/utils.py:28 | the matcher for `\d{4}-\d{2}-\d{2} \d{2}:\d{2}` answers exactly the one span of that shape at `i`, or none |
| Patterns.LabelledEnd | app/utils.py:38-45 | the matcher for `Name:(\w+)`, `Gender:(\w+)` and `Age:(\d+)` returns a span of the language, the longest there is |
| Patterns.HeightEnd | app/utils.py:42 | the matcher for `height: (\d+)cm`, with exactly one space, returns the only span at `i`, or none |
| Patterns.ChangeSound | app/utils.py:49 | a case-insensitive "increase" or "decrease", directly followed by a decimal and a case-insensitive "kg", spans the weight-change pattern |
| Patterns.ChangeEnd | app/utils.py:49 | the case-insensitive `(increase\|decrease)(\d+\.\d+)kg` matcher, with no whitespace allowed anywhere, returns the only span at `i`, or none |
| Patterns.DecimalFirst | app/utils.py:70 | where no decimal starts at `i`, neither decimal+unit nor decimal+`kg` can match there |
| Patterns.UnitSplit | app/utils.py:70-72 | a match of `(\d+\.\d+)(%\|kg)` is the longest decimal followed by exactly "%" or exactly "kg" |
| Patterns.UnitEnd | app/utils.py:70 | the decimal+unit matcher returns the only span at `i`, or none |
| Patterns.KgStops | app/utils.py:83 | in a match of `(\d+\.\d+)\s*kg`, group 1 is the longest decimal at the start and the whitespace run reaches the "kg" |
| Patterns.KgEnd | app/utils.py:83 | the decimal+whitespace+`kg` matcher returns the only span at `i`, or none |
| Patterns.ReadingEnd | app/utils.py:105 | the matcher for `\d+\.\d+\|\d+\|Biased\|Standard` returns a span of the language, and the longest there is |
| Patterns.MatchEnd | app/utils.py:28-122 | for every pattern of the extractor, the matcher's span is in the pattern's language and is the longest one at `i` |
| Patterns.SearchFrom | app/utils.py:28 | no answer means no span starts at or after `from`; an answer is the leftmost start at or after `from` with the longest span there |
| Patterns.Search | app/utils.py:28 | `re.search` finds nothing exactly when no span exists anywhere; what it finds is the leftmost, longest match |
| Patterns.FirstMatchUnique | app/utils.py:28 | at most one span is the leftmost-longest match |
| Patterns.SearchFinds | app/utils.py:28 | whatever span is the leftmost-longest match is the one `Search` returns |
| Fields.ReportTitle | app/utils.py:26 | the title is the OCR text when it mentions "report" in any letter case, and exactly "Body composition analysis report" otherwise |
| Fields.ReportDate | app/utils.py:27-32 | the date is the leftmost 16-character date-time match, or the whole text when there is none |
| Fields.LabelGroup | app/utils.py:38-41 | group 1 is present exactly when the labelled pattern matches, and is then the non-empty class run after the label in the leftmost match |
| Fields.HeightGroup | app/utils.py:42-43 | the height digits are present exactly when `height: (\d+)cm` matches, and are then the non-empty digit string between prefix and "cm" |
| Fields.Direction | app/utils.py:51 | a direction word matched case-insensitively lower-cases to exactly "increase" or "decrease" |
| Fields.WeightChange | app/utils.py:49-53 | the entry exists exactly when the pattern matches. It then has exactly the keys `direction` and `value`; `direction` is the lower-cased word, either "increase" or "decrease"; `value` is the matched decimal |
| Fields.DecimalOrNull | app/utils.py:58-59 | the value is null exactly when no `\d+\.\d+` occurs, and otherwise is the leftmost longest decimal |
| Fields.CompositionEntry | app/utils.py:70-74 | the entry has exactly `value` and `unit`; the two are null together, which happens exactly when nothing matches; the unit is "%", "kg" or null |
| Fields.UnitGroups | app/utils.py:71-72 | on a match, the value is a number and the unit is "%" or "kg" |
| Fields.CompositionEntryAt | app/utils.py:70-74 | for the leftmost match, the value is the decimal and the unit is the "%" or "kg" that ends the match |
| Fields.KgValue | app/utils.py:83-84 | the value is null exactly when `(\d+\.\d+)\s*kg` does not match; otherwise it is group 1, the decimal before the whitespace and "kg" |
| Fields.KgDecimals | app/utils.py:83 | group 1 of `(\d+\.\d+)\s*kg` is determined: it is the longest decimal starting at the match |
| Fields.ReadingValue | app/utils.py:104-112 | the value is null exactly when no digit, "Biased" or "Standard" occurs; otherwise it is the matched text, kept as a string |
| Fields.ReadingPrefersDecimal | app/utils.py:105 | where a decimal starts the leftmost match, the whole decimal is taken rather than its integer part |
| Vision.Slice | app/utils.py:18 | NumPy slicing clamps to the array: the result is empty past the end or for a reversed range, and otherwise has length `min(hi, len) - lo` and holds the elements from `lo` on, in order |
| Vision.Crop | app/utils.py:18 | the crop is at most `h` rows of at most `w` pixels; it has exactly `min(y + h, rows) - y` rows when it starts inside the image, and each row has exactly `min(x + w, width) - x` pixels when it starts inside that row; pixel `(k, j)` is `(y + k, x + j)` of the image |
| Vision.OcrTextTrimmed | app/utils.py:17-21 | the recognised text of a region has no whitespace at either end |
| Template.Keys | app/utils.py:56-61 | the key set of a table is exactly the keys derived from its row names |
| Template.KeysAre | app/utils.py:56-61 | when the keys derived from the rows are a listed sequence, the key set is exactly that sequence's elements |
| Template.TableKeys | app/utils.py:56-61 | the enumerated loop writes exactly one key per row name |
| Template.TableRow | app/utils.py:56-61 | with distinct keys, row `j`'s key holds the parse of the text read at row `j`'s rectangle, `y0 + j * stride` |
| Template.TableStep | app/utils.py:56-61 | one more iteration of the enumerated loop adds the next row's key and value to the table |
| Template.TableAll | app/utils.py:56-61 | every value in a table has any property that every parse result has |
| Template.TableRowAt | app/utils.py:56-61 | stated for a named key and rectangle: that key is present and holds the parse of that rectangle's text |
| Template.RowKeyReplaces | app/utils.py:73 | the row key is `lower()` followed by `replace(" ", "_")` |
| Template.RowKeyIs | app/utils.py:73 | the row key is the name with each space turned into "_" and each letter lower-cased, position by position |
| Template.BmiKey | app/utils.py:60 | "BMI" gives the indicator key "bmi" |
| Template.MuscleRateKey | app/utils.py:60 | "Muscle rate" gives "muscle_rate" |
| Template.BodyFatKey | app/utils.py:60 | "Body fat perc" gives "body_fat_percentage" |
| Template.PercSpelledOut | app/utils.py:60 | "perc" is replaced once, at the end, in "body_fat_perc" |
| Template.PlainIndicatorKey | app/utils.py:60 | where the row key has no "p", the "perc" replacement leaves it unchanged |
| Template.IndicatorKeysDerived | app/utils.py:54-60 | the three indicator names give the keys `bmi`, `body_fat_percentage`, `muscle_rate`, in order |
| Template.CompositionKeysDerived | app/utils.py:66-73 | the four composition rows give `fat_mass`, `moisture`, `protein_a`, `bone_mass`, in order |
| Template.WeightControlKeysDerived | app/utils.py:79-85 | the five weight-control rows give `current_weight_kg` through `weight_control_kg`, in order |
| Template.OtherIndicatorKeysDerived | app/utils.py:96-128 | the left rows give `bmr`, `visceral_fat_level`, `subcutaneous_fat_level` and the right rows give `body_age`, `obesity_rating`, `protein_rate` |
| Template.IndicatorKeySet | app/utils.py:54-61 | the indicator table's key set is exactly `{bmi, body_fat_percentage, muscle_rate}` |
| Template.CompositionKeySet | app/utils.py:66-74 | the composition table's key set is exactly the four keys |
| Template.WeightControlKeySet | app/utils.py:79-85 | the weight-control table's key set is exactly the five `_kg` keys |
| Template.LeftIndicatorKeySet | app/utils.py:96-112 | the left table's key set is exactly its three keys |
| Template.RightIndicatorKeySet | app/utils.py:113-129 | the right table's key set is exactly its three keys |
| Template.Header | app/utils.py:23-33 | the header section has exactly the keys `report_title` and `report_date` |
| Template.HeaderFields | app/utils.py:25-32 | the title is the OCR title when it mentions "report" in any letter case, else the default. The date is the leftmost date-time match of the line read in line mode, else the raw trimmed line |
| Template.UserFieldsShape | app/utils.py:37-45 | only `name`, `gender`, `height_cm` and `age` can be written. Each is present exactly when its own case-sensitive pattern matches; names are strings and the two numbers are integers |
| Template.UserFieldValues | app/utils.py:38-45 | on a match, `name` and `gender` hold group 1 of the leftmost match and `height_cm` and `age` hold `int()` of their group 1 |
| Template.Indicators | app/utils.py:54-61 | the indicator rows always give exactly three keys |
| Template.IndicatorsRead | app/utils.py:56-61 | indicator `j` is `{value}`, holding the leftmost decimal, or null, of the text at x=30, y=420+35j, 500×35, read in block mode |
| Template.AssembleBasicKeys | app/utils.py:35-62 | with the user fields and the three indicators, `basic_data` holds at most the nine keys, and always `current_weight` and the three indicators |
| Template.AssembleBasicUser | app/utils.py:37-45 | the later writes leave each user field as it was |
| Template.AssembleBasicOwn | app/utils.py:46-61 | `current_weight` is the trimmed text, `weight_change` is present exactly when the change parses, and each indicator keeps its row's value |
| Template.BasicDataKeys | app/utils.py:35-62 | `basic_data` always has `current_weight`, `bmi`, `body_fat_percentage` and `muscle_rate`, and no keys other than the nine the code writes |
| Template.BasicDataUser | app/utils.py:37-45 | `name`, `gender`, `height_cm` and `age` are each present exactly when their own pattern matches the user-information text, and then hold group 1 of the leftmost match (`int()` of it for the two numbers) |
| Template.BasicDataWeight | app/utils.py:46-47 | `current_weight` is the region's trimmed text, unchanged by the second `strip()` |
| Template.BasicDataChange | app/utils.py:48-53 | `weight_change` is present exactly when the change pattern matches, and is then the parsed entry |
| Template.BasicDataIndicators | app/utils.py:54-61 | the three indicator entries of `basic_data` are the parses of rows y=420, 455, 490 |
| Template.BodyCompositionAnalysisShapes | app/utils.py:68-74 | every composition entry has `value` and `unit`, null together, with unit "%" or "kg" |
| Template.BodyCompositionAnalysis | app/utils.py:64-75 | exactly the keys `fat_mass`, `moisture`, `protein_a`, `bone_mass`, and every entry has the composition shape |
| Template.BodyCompositionRead | app/utils.py:68-74 | entry `j` is the parse of the line read at x=600, y=300+50j, 180×50 |
| Template.WeightControlShapes | app/utils.py:81-85 | every weight-control value is a bare number or null |
| Template.WeightControl | app/utils.py:77-86 | exactly the five `_kg` keys, always present, each a number or null |
| Template.WeightControlRead | app/utils.py:81-85 | value `j` is the decimal+`kg` parse of the line at x=20, y=650+35j, 400×40 |
| Template.BodyType | app/utils.py:88-92 | the body-type section has the single key `overall` |
| Template.LeftIndicatorsShapes | app/utils.py:102-112 | every left indicator is `{value}` with a string or null |
| Template.LeftIndicators | app/utils.py:94-112 | exactly three keys, each `{value}` holding a raw string or null |
| Template.RightIndicatorsShapes | app/utils.py:119-129 | every right indicator is `{value}` with a string or null |
| Template.RightIndicators | app/utils.py:113-129 | exactly three keys, each `{value}` holding a raw string or null |
| Template.OtherIndicators | app/utils.py:94-130 | exactly the six keys, each `{value}` holding a raw string or null, never a number |
| Template.SidesUnion | app/utils.py:94-130 | the two tables together have exactly the six keys |
| Template.LeftIndicatorsRead | app/utils.py:102-112 | left entry `j` is the reading of x=20, y=960+40j, 250×50 |
| Template.RightIndicatorsRead | app/utils.py:119-129 | right entry `j` is the reading of x=450, y=960+40j, 250×50 |
| Template.OtherIndicatorsRead | app/utils.py:94-130 | in the merged section, every left and every right entry is the reading of its own rectangle |
| Template.OtherLeftRead | app/utils.py:102-112 | in the merged section, left entry `j` is the reading of its rectangle |
| Template.OtherRightRead | app/utils.py:119-129 | in the merged section, right entry `j` is the reading of its rectangle |
| Template.AssembleReportKeys | app/utils.py:137-143 | the report has exactly seven keys; the header fields are copied and each section sits under its own key |
| Template.ReportShape | app/utils.py:132-144 | the report has exactly seven top-level keys, its title and date are the header's, and `body_type` is `{overall: raw region text}` |
| Extractor.ReportExtractor.PreprocessImage | app/utils.py:10-15 | an unreadable file fails with "Image not found at <path>"; otherwise the result is the image and its grayscale conversion |
| Extractor.ReportExtractor.OcrRegion | app/utils.py:17-21 | the text is the region's recognised text, trimmed at both ends |
| Extractor.ReportExtractor.ExtractHeader | app/utils.py:23-33 | the header built key by key equals the header section |
| Extractor.ReportExtractor.ExtractBasicData | app/utils.py:35-62 | the conditional user-field writes, the weight, the change and the indicator loop build exactly the `basic_data` section |
| Extractor.ReportExtractor.ReadRows | app/utils.py:56-61 | the enumerated loop adds exactly the table of its rows on top of what the dictionary held |
| Extractor.ReportExtractor.ExtractBodyCompositionAnalysis | app/utils.py:64-75 | the loop over the four rows builds exactly the composition section |
| Extractor.ReportExtractor.ExtractWeightControl | app/utils.py:77-86 | the loop over the five rows builds exactly the weight-control section |
| Extractor.ReportExtractor.ExtractBodyType | app/utils.py:88-92 | the method builds exactly the body-type section |
| Extractor.ReportExtractor.ExtractOtherIndicators | app/utils.py:94-130 | the left loop and then the right loop build exactly the six-key section |
| Extractor.ReportExtractor.ExtractReport | app/utils.py:132-144 | a missing image is an error carrying the load message and never a partial document; otherwise the result is the full report of the grayscale image |
| Extractor.ExtractReport | app/utils.py:148-159 | a fresh extractor gives the same outcome: the load error, or the full report |
| Script.PreprocessImage | test.py:11-23 | an unreadable file fails with "Image not found at <path>"; otherwise the image and its grayscale conversion |
| Script.OcrRegion | test.py:25-40 | the region's recognised text, trimmed |
| Script.ExtractHeader | test.py:42-57 | the same header section as the class: title default exactly when "report" is absent in any case; date the leftmost match or the raw text |
| Script.ExtractBasicData | test.py:60-103 | the same `basic_data` section: conditional user fields, the case-insensitive whitespace-free weight change, and the three derived indicator keys always present |
| Script.ReadRows | test.py:92-101 | the enumerated loop adds exactly the table of its rows |
| Script.ExtractBodyCompositionAnalysis | test.py:105-123 | the composition section, with value and unit null together and unit "%" or "kg" |
| Script.ExtractWeightControl | test.py:126-137 | the weight-control section, all five `_kg` keys always present |
| Script.ExtractBodyType | test.py:140-150 | the body-type section |
| Script.ExtractOtherIndicators | test.py:152-195 | the six-key section of raw strings or nulls |
| Script.ExtractAll | test.py:202-226 | the load error when the image cannot be read, and otherwise the full seven-key report |
| Script.RunMain | test.py:198-226 | `{}` when the image cannot be read, and otherwise the same seven-key report as the class |
| Script.MainAgreesWithExtractor | test.py:198-226 | whenever the class's `extract_report` succeeds, `main` returns the same document; whenever it raises, `main` returns `{}` and the error is the load failure |

## Left out

- Image loading, grayscale conversion and Tesseract are not modelled; they are
  the `imread`, `toGray` and `recognize` fields of a caller-supplied `Engine`.
  The PIL conversion between the crop and Tesseract is part of `recognize`.
- `toGray` and `recognize` are total functions: the model assumes
  `cv2.cvtColor`, `Image.fromarray` and `pytesseract` never raise. The
  contracts of `ExtractReport`, `RunMain` and `MainAgreesWithExtractor` (the
  load error or else the full report) hold under that assumption only. An
  exception from those calls, for example on the empty crop that a row at
  y ≥ 960 gives on a shorter image, would escape both `extract_report` and
  `main`, whose `try` (test.py:202-207) covers only `preprocess_image`.
- AsInt: `int()` is modelled as always succeeding. CPython 3.11 and later
  (and the 2022 security releases of 3.7 to 3.10) raise `ValueError` for a
  digit string longer than 4300 characters, at app/utils.py:43/45 and
  test.py:71/73. That exception would escape both `extract_report` and
  `main`, so the contracts of `Extractor.ReportExtractor.ExtractReport`,
  `Extractor.ExtractReport`, `Script.RunMain` and
  `Script.MainAgreesWithExtractor` hold only for user-information text whose
  height and age digit runs are at most 4300 characters long.
- `float()` results are kept as the matched decimal text (`Num`), not rounded
  to IEEE doubles.
- `\w`, `\d`, `lower()` and `re.IGNORECASE` are modelled on ASCII letters and
  digits only. Unicode letters, digits and case mappings are not modelled.
- `re.search` is modelled as leftmost start with the longest span there. For
  these patterns this is the span Python's backtracking returns; other
  patterns are not covered.
- Dictionary insertion order is not modelled: documents are maps, and
  `json.dumps` key order is not represented.
- The `tesseract_cmd` setting at test.py:8 is configuration of the external
  program and is not modelled.
- Console printing and the JSON file written in test.py are not modelled. Nor
  is the `__main__` block with its default path "diet.jpg"; `main` becomes
  `RunMain` with the path as a parameter.
- The `val_regex` and `ref_regex` entries of the indicator tuples
  (app/utils.py:96-117) are never read by the code and are not modelled.
- The `try`/`except ValueError` around `group(1)` at app/utils.py:107-110 can
  never fire. The model stores the group directly.
- The original, unconverted image returned by `preprocess_image` is returned
  by `PreprocessImage` but never used afterwards, as in the source.
- The HTTP layer (`app/routers`, `app/main.py`) and the LangChain/Gemini tool
  wrappers are not part of this model.
- ReadRows: this loop helper is written once and called by every enumerated
  section loop. The source repeats the loop in each method; the rectangles,
  keys and parse per row are the same.
- Script.ExtractAll: this is the body of `main`'s `try` block, written as a
  `Result`, and `RunMain` maps its failure to `{}`.
- Extractor.ReportExtractor.ExtractBasicData: the conditional writes
  `if m: d[k] = v` are written through `Put`, which stores the value only when
  there is a match.
- `(increase|decrease)(\d+\.\d+)kg` (app/utils.py:49) allows no whitespace,
  so text such as "DECREASE 1.0kg" gives no `weight_change` entry; the model
  matches the pattern as written.
