/** The tabular data the EDA engine works on: a pandas DataFrame reduced to
    an ordered list of named columns of equal length, each with the dtype
    pandas inferred for it and one cell per row. */
module Frame {

  /** The dtype families pandas parsers produce for a column. */
  datatype DType = Int64 | Float64 | Bool | Datetime64 | Object

  /** `pandas.api.types.is_numeric_dtype`: integers, floats and also booleans. */
  predicate IsNumericDtype(d: DType)
  {
    d.Int64? || d.Float64? || d.Bool?
  }

  /** `pandas.api.types.is_datetime64_any_dtype`. */
  predicate IsDatetimeDtype(d: DType)
  {
    d.Datetime64?
  }

  /** `pandas.api.types.is_bool_dtype`. */
  predicate IsBoolDtype(d: DType)
  {
    d.Bool?
  }

  /** Membership in `df.select_dtypes(include='number')`: integers and floats;
      pandas leaves boolean columns out of this selection. */
  predicate SelectedAsNumber(d: DType)
  {
    d.Int64? || d.Float64?
  }

  /** One cell. `Missing` is what `isnull()` reports (NaN, None, NaT);
      infinities are ordinary float values that `isnull()` does not flag. */
  datatype Cell =
    | Missing
    | Real(x: real)
    | Infinity(negative: bool)
    | Text(s: string)
    | Flag(b: bool)
    | Stamp(t: int)

  datatype Column = Column(name: string, dtype: DType, cells: seq<Cell>)

  datatype RawTable = RawTable(columns: seq<Column>, rowCount: nat)

  /** Every column has one cell per row and column names are unique (the
      parsers rename duplicate headers). */
  predicate WellFormed(t: RawTable)
  {
    (forall i :: 0 <= i < |t.columns| ==> |t.columns[i].cells| == t.rowCount) &&
    (forall i, j :: 0 <= i < j < |t.columns| ==> t.columns[i].name != t.columns[j].name)
  }

  type Table = t: RawTable | WellFormed(t) witness RawTable([], 0)
}
