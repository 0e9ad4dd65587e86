/** The profiling part of `EDAService.analyze_dataset`: the frontend type tag
    of each column, per-column missing counts, the NaN/infinity scrubber that
    makes the result JSON-serialisable, and the five-row preview. */
module Profiler {
  import opened Seqs
  import opened Frame

  /** `map_dtype`: the frontend-friendly tag of a dtype. The checks run in a
      fixed order and the first that holds decides the tag. */
  function MapDtype(d: DType): (tag: string)
    ensures tag == "number" <==> IsNumericDtype(d)
    ensures tag == "date" <==> !IsNumericDtype(d) && IsDatetimeDtype(d)
    ensures tag == "boolean" <==> !IsNumericDtype(d) && !IsDatetimeDtype(d) && IsBoolDtype(d)
    ensures tag == "string" <==> !IsNumericDtype(d) && !IsDatetimeDtype(d) && !IsBoolDtype(d)
  {
    if IsNumericDtype(d) then "number"
    else if IsDatetimeDtype(d) then "date"
    else if IsBoolDtype(d) then "boolean"
    else "string"
  }

  /** pandas counts boolean dtypes as numeric, so the "boolean" branch of
      `map_dtype` is never taken: boolean columns are tagged "number". */
  lemma BooleanTagUnreachable(d: DType)
    ensures MapDtype(d) in {"number", "date", "string"}
    ensures d.Bool? ==> MapDtype(d) == "number"
  {
  }

  predicate IsMissing(c: Cell)
  {
    c.Missing?
  }

  /** `df.isnull().sum()` for one column. */
  function MissingCount(cells: seq<Cell>): (n: nat)
    ensures n <= |cells|
    ensures n == 0 <==> forall i :: 0 <= i < |cells| ==> !cells[i].Missing?
    ensures n == |cells| <==> forall i :: 0 <= i < |cells| ==> cells[i].Missing?
  {
    MissingCountFacts(cells);
    Count(cells, IsMissing)
  }

  lemma {:induction false} MissingCountFacts(cells: seq<Cell>)
    ensures Count(cells, IsMissing) == 0 <==> forall i :: 0 <= i < |cells| ==> !cells[i].Missing?
    ensures Count(cells, IsMissing) == |cells| <==> forall i :: 0 <= i < |cells| ==> cells[i].Missing?
  {
    if cells != [] {
      MissingCountFacts(cells[1..]);
      assert forall i :: 1 <= i < |cells| ==> cells[i] == cells[1..][i - 1];
    }
  }

  /** The Python values `analyze_dataset` serialises: JSON plus the float
      sentinels NaN and +/-infinity that JSON cannot represent (section 6 of
      RFC 8259), and pandas timestamps. Dicts keep insertion order. */
  datatype Json =
    | Null
    | Boolean(b: bool)
    | Integer(i: int)
    | Float(x: real)
    | NaN
    | PosInf
    | NegInf
    | Str(s: string)
    | Time(t: int)
    | List(items: seq<Json>)
    | Dict(entries: seq<Entry>)

  /** One key/value pair of a Python dict. */
  datatype Entry = Entry(key: string, value: Json)

  predicate NonFinite(j: Json)
  {
    j.NaN? || j.PosInf? || j.NegInf?
  }

  /** No NaN or infinity anywhere inside `j`. */
  predicate JsonSafe(j: Json)
  {
    match j
    case List(items) => ListSafe(items)
    case Dict(entries) => EntriesSafe(entries)
    case _ => !NonFinite(j)
  }

  predicate ListSafe(items: seq<Json>)
  {
    items == [] || (JsonSafe(items[0]) && ListSafe(items[1..]))
  }

  predicate EntriesSafe(entries: seq<Entry>)
  {
    entries == [] || (JsonSafe(entries[0].value) && EntriesSafe(entries[1..]))
  }

  /** `clean_nans`: replaces every NaN and infinite float by None, recursing
      into dicts and lists; every other value is returned as it is. */
  function CleanNans(j: Json): (r: Json)
    ensures NonFinite(j) ==> r == Null
    ensures !NonFinite(j) && !j.List? && !j.Dict? ==> r == j
    ensures j.List? ==> r.List? && |r.items| == |j.items|
    ensures j.Dict? ==> r.Dict? && |r.entries| == |j.entries|
  {
    match j
    case Dict(entries) => Dict(CleanEntries(entries))
    case List(items) => List(CleanList(items))
    case NaN => Null
    case PosInf => Null
    case NegInf => Null
    case _ => j
  }

  /** The list comprehension of `clean_nans`: same length, same order. */
  function CleanList(items: seq<Json>): (r: seq<Json>)
    ensures |r| == |items|
    ensures forall i :: 0 <= i < |items| ==> r[i] == CleanNans(items[i])
  {
    if items == [] then [] else [CleanNans(items[0])] + CleanList(items[1..])
  }

  /** The dict comprehension of `clean_nans`: same keys in the same order. */
  function CleanEntries(entries: seq<Entry>): (r: seq<Entry>)
    ensures |r| == |entries|
    ensures forall i :: 0 <= i < |entries| ==> r[i] == Entry(entries[i].key, CleanNans(entries[i].value))
  {
    if entries == [] then []
    else [Entry(entries[0].key, CleanNans(entries[0].value))] + CleanEntries(entries[1..])
  }

  /** The output of `clean_nans` is always representable in JSON. */
  lemma {:induction false} CleanNansSafe(j: Json)
    ensures JsonSafe(CleanNans(j))
  {
    match j
    case List(items) => CleanListSafe(items);
    case Dict(entries) => CleanEntriesSafe(entries);
    case _ =>
  }

  lemma {:induction false} CleanListSafe(items: seq<Json>)
    ensures ListSafe(CleanList(items))
  {
    if items != [] {
      CleanNansSafe(items[0]);
      CleanListSafe(items[1..]);
      assert CleanList(items)[1..] == CleanList(items[1..]);
    }
  }

  lemma {:induction false} CleanEntriesSafe(entries: seq<Entry>)
    ensures EntriesSafe(CleanEntries(entries))
  {
    if entries != [] {
      CleanNansSafe(entries[0].value);
      CleanEntriesSafe(entries[1..]);
      assert CleanEntries(entries)[1..] == CleanEntries(entries[1..]);
    }
  }

  /** A value that is already JSON-safe is left exactly as it is. */
  lemma {:induction false} CleanNansKeepsSafe(j: Json)
    requires JsonSafe(j)
    ensures CleanNans(j) == j
  {
    match j
    case List(items) => CleanListKeepsSafe(items);
    case Dict(entries) => CleanEntriesKeepsSafe(entries);
    case _ =>
  }

  lemma {:induction false} CleanListKeepsSafe(items: seq<Json>)
    requires ListSafe(items)
    ensures CleanList(items) == items
  {
    if items != [] {
      CleanNansKeepsSafe(items[0]);
      CleanListKeepsSafe(items[1..]);
      assert CleanList(items) == [items[0]] + items[1..];
    }
  }

  lemma {:induction false} CleanEntriesKeepsSafe(entries: seq<Entry>)
    requires EntriesSafe(entries)
    ensures CleanEntries(entries) == entries
  {
    if entries != [] {
      CleanNansKeepsSafe(entries[0].value);
      CleanEntriesKeepsSafe(entries[1..]);
      assert CleanEntries(entries) == [entries[0]] + entries[1..];
    }
  }

  /** `clean_nans` is idempotent. */
  lemma CleanNansIdempotent(j: Json)
    ensures CleanNans(CleanNans(j)) == CleanNans(j)
  {
    CleanNansSafe(j);
    CleanNansKeepsSafe(CleanNans(j));
  }

  /** What `to_dict(orient='records')` yields for one cell: pandas stores
      missing cells as NaN. */
  function RawJson(c: Cell): Json
  {
    match c
    case Missing => NaN
    case Real(x) => Float(x)
    case Infinity(negative) => if negative then NegInf else PosInf
    case Text(s) => Str(s)
    case Flag(b) => Boolean(b)
    case Stamp(t) => Time(t)
  }

  /** One preview value: `replace({np.nan: None, np.inf: None, -np.inf: None})`
      applied to the cell, which is `clean_nans` on a scalar. */
  function PreviewValue(c: Cell): (j: Json)
    ensures JsonSafe(j)
    ensures j == Null <==> c.Missing? || c.Infinity?
  {
    CleanNans(RawJson(c))
  }

  /** Row `k` as a record: one entry per column, in column order. */
  function Record(cols: seq<Column>, k: nat): (r: seq<Entry>)
    requires forall i :: 0 <= i < |cols| ==> k < |cols[i].cells|
    ensures |r| == |cols|
    ensures forall i :: 0 <= i < |cols| ==> r[i] == Entry(cols[i].name, PreviewValue(cols[i].cells[k]))
  {
    if cols == [] then [] else [Entry(cols[0].name, PreviewValue(cols[0].cells[k]))] + Record(cols[1..], k)
  }

  function Min(a: int, b: int): int
  {
    if a <= b then a else b
  }

  /** `df.head(5)` as records, NaN and infinities replaced by None. */
  function Preview(t: Table): (p: seq<seq<Entry>>)
    ensures |p| == Min(5, t.rowCount)
    ensures forall k :: 0 <= k < |p| ==> p[k] == Record(t.columns, k) && |p[k]| == |t.columns|
  {
    seq(Min(5, t.rowCount), k requires 0 <= k < Min(5, t.rowCount) => Record(t.columns, k))
  }

  /** What `analyze_dataset` returns, without the `describe()` summary. */
  datatype Profile = Profile(
    dtypes: seq<(string, string)>,
    missing: seq<(string, nat)>,
    preview: seq<seq<Entry>>)

  function DtypeEntries(cols: seq<Column>): (r: seq<(string, string)>)
    ensures |r| == |cols|
    ensures forall i :: 0 <= i < |cols| ==> r[i] == (cols[i].name, MapDtype(cols[i].dtype))
  {
    if cols == [] then [] else [(cols[0].name, MapDtype(cols[0].dtype))] + DtypeEntries(cols[1..])
  }

  function MissingEntries(cols: seq<Column>): (r: seq<(string, nat)>)
    ensures |r| == |cols|
    ensures forall i :: 0 <= i < |cols| ==> r[i] == (cols[i].name, MissingCount(cols[i].cells))
  {
    if cols == [] then [] else [(cols[0].name, MissingCount(cols[0].cells))] + MissingEntries(cols[1..])
  }

  /** One tag and one missing count per column, in column order, and a
      preview of min(5, rows) records that each cover every column. */
  function Analyze(t: Table): (p: Profile)
    ensures |p.dtypes| == |t.columns| && |p.missing| == |t.columns|
    ensures forall i :: 0 <= i < |t.columns| ==>
      p.dtypes[i] == (t.columns[i].name, MapDtype(t.columns[i].dtype)) &&
      p.missing[i] == (t.columns[i].name, MissingCount(t.columns[i].cells))
    ensures p.preview == Preview(t)
    ensures |p.preview| == Min(5, t.rowCount)
    ensures forall k :: 0 <= k < |p.preview| ==> |p.preview[k]| == |t.columns|
    ensures forall k, i :: 0 <= k < |p.preview| && 0 <= i < |t.columns| ==>
      p.preview[k][i].key == t.columns[i].name && JsonSafe(p.preview[k][i].value)
  {
    Profile(DtypeEntries(t.columns), MissingEntries(t.columns), Preview(t))
  }
}
