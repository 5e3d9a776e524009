/**
 * The free-standing copy of the extractor in test.py: the same helpers as
 * functions of the module rather than methods of a class, and `main`, which
 * returns an empty document where the class raises.
 */
module Script {
  import opened Wrappers
  import opened Text
  import opened Patterns
  import opened Json
  import opened Fields
  import opened Vision
  import opened Template
  import Extractor

  /** Loads the image and converts it to grayscale; an unreadable file is an error. */
  method PreprocessImage(imagePath: string, eng: Engine) returns (r: Result<(Image, Image), string>)
    ensures eng.imread(imagePath).None? ==> r == Failure(NotFound(imagePath))
    ensures eng.imread(imagePath).Some? ==>
      r == Success((eng.imread(imagePath).value, eng.toGray(eng.imread(imagePath).value)))
  {
    var img := eng.imread(imagePath);
    if img.None? {
      return Failure(NotFound(imagePath));
    }
    var gray := eng.toGray(img.value);
    return Success((img.value, gray));
  }

  /** Crops the region, recognises it in the given mode and trims the result. */
  method OcrRegion(eng: Engine, imageCv: Image, x: nat, y: nat, w: nat, h: nat, config: Psm) returns (text: string)
    ensures text == OcrText(eng, imageCv, Region(x, y, w, h), config)
    ensures text == [] || (!IsSpace(text[0]) && !IsSpace(text[|text| - 1]))
  {
    var cropped := Crop(imageCv, Region(x, y, w, h));
    var raw := eng.recognize(cropped, config);
    text := Strip(raw);
    OcrTextTrimmed(eng, imageCv, Region(x, y, w, h), config);
  }

  method ExtractHeader(eng: Engine, processedImg: Image) returns (headerData: Doc)
    ensures headerData == Header(eng, processedImg)
  {
    headerData := map[];
    var titleText := OcrRegion(eng, processedImg, 100, 30, 800, 70, Block);
    headerData := headerData["report_title" := Str(if Contains(Lower(titleText), "report") then titleText else DefaultTitle)];
    var dateTimeText := OcrRegion(eng, processedImg, 100, 80, 800, 50, Line);
    var m := Search(DateTime, dateTimeText);
    if m.Some? {
      headerData := headerData["report_date" := Str(dateTimeText[m.value.start..m.value.end])];
    } else {
      headerData := headerData["report_date" := Str(dateTimeText)];
    }
  }

  method ExtractBasicData(eng: Engine, processedImg: Image) returns (basicData: Doc)
    ensures basicData == BasicData(eng, processedImg)
  {
    basicData := map[];
    var userInfoText := OcrRegion(eng, processedImg, 70, 150, 800, 70, Block);
    // Each field is stored only when its pattern matches.
    var nameMatch := LabelGroup("Name:", Word, userInfoText);
    basicData := Put(basicData, "name", AsStr(nameMatch));
    var genderMatch := LabelGroup("Gender:", Word, userInfoText);
    basicData := Put(basicData, "gender", AsStr(genderMatch));
    var heightMatch := HeightGroup(userInfoText);
    basicData := Put(basicData, "height_cm", AsInt(heightMatch));
    var ageMatch := LabelGroup("Age:", Digit, userInfoText);
    basicData := Put(basicData, "age", AsInt(ageMatch));

    var weightTextArea := OcrRegion(eng, processedImg, 25, 290, 200, 100, Block);
    basicData := basicData["current_weight" := Str(Strip(weightTextArea))];
    var changeText := OcrRegion(eng, processedImg, 240, 340, 200, 50, Block);
    var change := WeightChange(changeText);
    basicData := Put(basicData, "weight_change", change);

    basicData := ReadRows(eng, processedImg, basicData, IndicatorNames, IndicatorKey, IndicatorLayout, Block, IndicatorEntry);
  }

  /**
   * The loop every table section runs: for each row name in order, read the
   * rectangle `layout` gives its index, parse the text, and store the result
   * under the row's key, on top of what `into` already holds.
   */
  method ReadRows(eng: Engine, processedImg: Image, into: Doc, names: seq<string>, key: string -> string,
                  layout: Layout, config: Psm, parse: string -> Value) returns (d: Doc)
    ensures d == into + Table(eng, processedImg, names, key, layout, config, parse)
  {
    d := into;
    for i := 0 to |names|
      invariant d == into + Table(eng, processedImg, names[..i], key, layout, config, parse)
    {
      var row := RowRegion(layout, i);
      var rowText := OcrRegion(eng, processedImg, row.x, row.y, row.w, row.h, config);
      var keyName := key(names[i]);
      TableStep(eng, processedImg, names, key, layout, config, parse, i);
      UpdateUnion(into, Table(eng, processedImg, names[..i], key, layout, config, parse), keyName, parse(rowText));
      d := d[keyName := parse(rowText)];
    }
    assert names[..|names|] == names;
  }

  method ExtractBodyCompositionAnalysis(eng: Engine, processedImg: Image) returns (analysisData: Doc)
    ensures analysisData == BodyCompositionAnalysis(eng, processedImg)
  {
    analysisData := ReadRows(eng, processedImg, map[], CompositionNames, RowKey, CompositionLayout, Line, CompositionEntry);
    EmptyUnion(Table(eng, processedImg, CompositionNames, RowKey, CompositionLayout, Line, CompositionEntry));
  }

  method ExtractWeightControl(eng: Engine, processedImg: Image) returns (weightControlData: Doc)
    ensures weightControlData == WeightControl(eng, processedImg)
  {
    weightControlData := ReadRows(eng, processedImg, map[], WeightControlNames, WeightKey, WeightControlLayout, Line, KgValue);
    EmptyUnion(Table(eng, processedImg, WeightControlNames, WeightKey, WeightControlLayout, Line, KgValue));
  }

  method ExtractBodyType(eng: Engine, processedImg: Image) returns (bodyTypeData: Doc)
    ensures bodyTypeData == BodyType(eng, processedImg)
  {
    bodyTypeData := map[];
    var overallTypeText := OcrRegion(eng, processedImg, 620, 580, 200, 40, Block);
    bodyTypeData := bodyTypeData["overall" := Str(overallTypeText)];
  }

  method ExtractOtherIndicators(eng: Engine, processedImg: Image) returns (otherIndicatorsData: Doc)
    ensures otherIndicatorsData == OtherIndicators(eng, processedImg)
  {
    otherIndicatorsData := ReadRows(eng, processedImg, map[], LeftIndicatorNames, RowKey, LeftIndicatorLayout, Line, ReadingEntry);
    EmptyUnion(Table(eng, processedImg, LeftIndicatorNames, RowKey, LeftIndicatorLayout, Line, ReadingEntry));
    otherIndicatorsData := ReadRows(eng, processedImg, otherIndicatorsData, RightIndicatorNames, RowKey, RightIndicatorLayout, Line, ReadingEntry);
  }

  /**
   * What `main` does inside its `try`: load the image, which fails for an
   * unreadable file, then read every section in order.
   */
  method ExtractAll(imagePath: string, eng: Engine) returns (r: Result<Doc, string>)
    ensures eng.imread(imagePath).None? ==> r == Failure(NotFound(imagePath))
    ensures eng.imread(imagePath).Some? ==> r == Success(Report(eng, eng.toGray(eng.imread(imagePath).value)))
  {
    var loaded := PreprocessImage(imagePath, eng);
    if loaded.Failure? {
      return Failure(loaded.error);
    }
    var processedImg := loaded.value.1;
    var fullReportData: Doc := map[];
    var header := ExtractHeader(eng, processedImg);
    fullReportData := fullReportData + header;
    EmptyUnion(header);
    var basic := ExtractBasicData(eng, processedImg);
    fullReportData := fullReportData["basic_data" := Obj(basic)];
    var composition := ExtractBodyCompositionAnalysis(eng, processedImg);
    fullReportData := fullReportData["body_composition_analysis" := Obj(composition)];
    var weight := ExtractWeightControl(eng, processedImg);
    fullReportData := fullReportData["weight_control" := Obj(weight)];
    var bodyType := ExtractBodyType(eng, processedImg);
    fullReportData := fullReportData["body_type" := Obj(bodyType)];
    var other := ExtractOtherIndicators(eng, processedImg);
    fullReportData := fullReportData["other_indicators" := Obj(other)];
    return Success(fullReportData);
  }

  /**
   * `main` without its console output: the report for the image, or the empty
   * document when loading raised.
   */
  method RunMain(imagePath: string, eng: Engine) returns (fullReportData: Doc)
    ensures eng.imread(imagePath).None? ==> fullReportData == map[]
    ensures eng.imread(imagePath).Some? ==> fullReportData == Report(eng, eng.toGray(eng.imread(imagePath).value))
  {
    var r := ExtractAll(imagePath, eng);
    if r.Failure? {
      return map[];
    }
    return r.value;
  }

  /**
   * The two entry points agree: on a readable image `main` returns the report
   * `ReportExtractor.extract_report` returns, and where the class raises,
   * `main` returns the empty document.
   */
  method MainAgreesWithExtractor(imagePath: string, eng: Engine) returns (viaMain: Doc, viaClass: Result<Doc, string>)
    ensures viaClass.Success? ==> viaMain == viaClass.value
    ensures viaClass.Failure? ==> viaMain == map[] && viaClass.error == NotFound(imagePath)
  {
    viaMain := RunMain(imagePath, eng);
    viaClass := Extractor.ExtractReport(imagePath, eng);
  }
}
