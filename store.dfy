/** `EDAService` and its module-level `DATASETS` dict: uploads are parsed by
    the format their file extension names and registered under a fresh id;
    every other operation looks its id up first and fails with "Dataset not
    found" when it is absent. Parsing is a parameter, as is the fresh id that
    `uuid4` would draw. */
module EdaService {
  import opened Seqs
  import opened Text
  import opened Frame
  import opened Profiler
  import opened Outliers
  import opened Insights

  /** The three pandas readers `upload_dataset` can dispatch to. */
  datatype Format = CsvFile | ExcelFile | JsonFile

  /** The exceptions the service raises. `ParseFailed` is whatever the pandas
      reader raises on bytes it cannot read; `NoColumns` is the `ValueError`
      that `describe` raises on a frame without columns. */
  datatype Error =
    | NotFound
    | UnsupportedFileType(ext: string)
    | ParseFailed
    | NoColumns

  datatype Result<T> = Ok(value: T) | Err(error: Error)

  /** `filename.lower().split('.')[-1]`: the lower-cased text after the last
      dot, or the whole lower-cased name when it has no dot. */
  function Extension(filename: string): (ext: string)
    ensures '.' !in ext
    ensures '.' !in filename ==> ext == Lower(filename)
    ensures |ext| <= |filename|
  {
    var lowered := Lower(filename);
    var ext := AfterLast(lowered, '.');
    if '.' in filename then ext
    else
      LowerKeepsOther(filename, '.');
      ext
  }

  /** The lower-cased name after the last dot is the extension, whatever
      precedes it. */
  lemma ExtensionOfJoin(base: string, ext: string)
    requires '.' !in ext
    ensures Extension(base + "." + ext) == Lower(ext)
  {
    LowerAppend(base + ".", ext);
    LowerAppend(base, ".");
    LowerKeepsOther(ext, '.');
    assert Lower(".") == ".";
    AfterLastJoin(Lower(base), '.', Lower(ext));
  }

  /** The extension chain of `upload_dataset`. */
  function FormatOf(ext: string): (f: Option<Format>)
    ensures f == Some(CsvFile) <==> ext == "csv"
    ensures f == Some(ExcelFile) <==> ext == "xlsx" || ext == "xls"
    ensures f == Some(JsonFile) <==> ext == "json"
    ensures f.None? <==> ext !in {"csv", "xlsx", "xls", "json"}
  {
    if ext == "csv" then Some(CsvFile)
    else if ext == "xlsx" || ext == "xls" then Some(ExcelFile)
    else if ext == "json" then Some(JsonFile)
    else None
  }

  /** A name ending in ".CSV" is read as CSV whatever comes before the dot. */
  lemma UpperCaseCsvAccepted(base: string)
    ensures FormatOf(Extension(base + ".CSV")) == Some(CsvFile)
  {
    ExtensionOfJoin(base, "CSV");
    assert base + "." + "CSV" == base + ".CSV";
    assert Lower("CSV") == "csv";
  }

  /** A bare "csv" without any dot is accepted as a CSV file too. */
  lemma BareCsvAccepted()
    ensures FormatOf(Extension("csv")) == Some(CsvFile)
  {
    assert '.' !in "csv";
    assert Lower("csv") == "csv";
  }

  /** A ".txt" upload is refused with the extension in the error. */
  lemma TextFileRefused(base: string)
    ensures FormatOf(Extension(base + ".txt")).None?
  {
    ExtensionOfJoin(base, "txt");
    assert base + "." + "txt" == base + ".txt";
    assert Lower("txt") == "txt";
  }

  /** A reader of uploaded bytes: None when pandas raises. */
  type Parser = (Format, seq<bv8>) -> Option<Table>

  /** The `DATASETS` dict. */
  class DatasetStore {
    var datasets: map<string, Table>

    constructor()
      ensures datasets == map[]
    {
      datasets := map[];
    }

    /** `upload_dataset`: an unsupported extension or a parse failure raises
      and registers nothing; otherwise the table is stored under the fresh
      id, which is returned, and every other entry is kept. */
    method Upload(bytes: seq<bv8>, filename: string, freshId: string, parse: Parser)
      returns (r: Result<string>)
      requires freshId !in datasets
      modifies this
      ensures FormatOf(Extension(filename)).None? ==>
        r == Err(UnsupportedFileType(Extension(filename))) && datasets == old(datasets)
      ensures FormatOf(Extension(filename)).Some? &&
              parse(FormatOf(Extension(filename)).value, bytes).None? ==>
        r == Err(ParseFailed) && datasets == old(datasets)
      ensures FormatOf(Extension(filename)).Some? &&
              parse(FormatOf(Extension(filename)).value, bytes).Some? ==>
        r == Ok(freshId) &&
        datasets == old(datasets)[freshId := parse(FormatOf(Extension(filename)).value, bytes).value]
    {
      var ext := Extension(filename);
      var format := FormatOf(ext);
      if format.None? {
        return Err(UnsupportedFileType(ext));
      }
      var parsed := parse(format.value, bytes);
      if parsed.None? {
        return Err(ParseFailed);
      }
      datasets := datasets[freshId := parsed.value];
      r := Ok(freshId);
    }

    /** `DATASETS.get(dataset_id)` followed by the "Dataset not found" check. */
    function Lookup(id: string): (r: Result<Table>)
      reads this
      ensures r.Err? <==> id !in datasets
      ensures r.Err? ==> r.error == NotFound
      ensures r.Ok? ==> r.value == datasets[id]
    {
      if id in datasets then Ok(datasets[id]) else Err(NotFound)
    }

    /** `analyze_dataset` by id: the lookup fails first, then `describe`
      fails on a stored table without columns (an upload of the JSON text
      `[]`, say); otherwise the profile. */
    function AnalyzeDataset(id: string): (r: Result<Profile>)
      reads this
      ensures r.Err? <==> id !in datasets || datasets[id].columns == []
      ensures r.Err? ==> r.error == if id !in datasets then NotFound else NoColumns
      ensures r.Ok? ==> r.value == Analyze(datasets[id])
    {
      match Lookup(id)
      case Err(e) => Err(e)
      case Ok(t) => if t.columns == [] then Err(NoColumns) else Ok(Analyze(t))
    }

    /** `correlation_matrix` by id; the matrix pandas computes is the
      function `corrOf`, whose NaN entries are already None. */
    function CorrelationMatrix(id: string, corrOf: Table -> CorrMatrix): (r: Result<CorrMatrix>)
      reads this
      ensures r.Err? <==> id !in datasets
      ensures r.Err? ==> r.error == NotFound
      ensures r.Ok? ==> r.value == corrOf(datasets[id])
    {
      match Lookup(id)
      case Err(e) => Err(e)
      case Ok(t) => Ok(corrOf(t))
    }

    /** `detect_outliers` by id. */
    method DetectOutliersById(id: string) returns (r: Result<seq<ColumnReport>>)
      ensures r.Err? <==> id !in datasets
      ensures r.Err? ==> r.error == NotFound
      ensures r.Ok? ==>
        |r.value| == |NumberColumns(datasets[id].columns)| &&
        forall k :: 0 <= k < |r.value| ==>
          r.value[k].column == NumberColumns(datasets[id].columns)[k].name &&
          r.value[k].entry == ColumnOutliers(SeriesOf(NumberColumns(datasets[id].columns)[k]))
    {
      if id !in datasets {
        return Err(NotFound);
      }
      var report := DetectOutliers(datasets[id]);
      r := Ok(report);
    }

    /** `generate_insights` by id. */
    method GenerateInsightsById(id: string, corrOf: Table -> CorrMatrix) returns (r: Result<seq<Insight>>)
      ensures r.Err? <==> id !in datasets
      ensures r.Err? ==> r.error == NotFound
      ensures r.Ok? ==> r.value == AllInsights(datasets[id], corrOf(datasets[id]))
    {
      if id !in datasets {
        return Err(NotFound);
      }
      var t := datasets[id];
      var insights := GenerateInsights(t, corrOf(t));
      r := Ok(insights);
    }
  }
}
