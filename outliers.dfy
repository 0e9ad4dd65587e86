/** `EDAService.detect_outliers`: for every numeric column, the rows whose
    value lies strictly outside [Q1 - 1.5 IQR, Q3 + 1.5 IQR], where Q1 and Q3
    are pandas' default (linear interpolation) quantiles of the non-missing
    values. Cell values are exact reals. */
module Outliers {
  import opened Seqs
  import opened Frame

  /** A numeric column as pandas sees it for the IQR rule: None where the
      cell is missing. */
  type Series = seq<Option<real>>

  function SeriesOf(c: Column): (s: Series)
    ensures |s| == |c.cells|
    ensures forall i :: 0 <= i < |s| ==> (s[i].Some? <==> c.cells[i].Real?)
    ensures forall i :: 0 <= i < |s| && s[i].Some? ==> s[i].value == c.cells[i].x
  {
    seq(|c.cells|, i requires 0 <= i < |c.cells| => if c.cells[i].Real? then Some(c.cells[i].x) else None)
  }

  /** The non-missing values in row order (`series.dropna()`). */
  function Present(s: Series): (v: seq<real>)
    ensures |v| <= |s|
  {
    if s == [] then []
    else (if s[0].Some? then [s[0].value] else []) + Present(s[1..])
  }

  lemma {:induction false} PresentEmpty(s: Series)
    ensures Present(s) == [] <==> forall i :: 0 <= i < |s| ==> s[i].None?
  {
    if s != [] {
      PresentEmpty(s[1..]);
      assert forall i :: 1 <= i < |s| ==> s[i] == s[1..][i - 1];
    }
  }

  predicate Sorted(v: seq<real>)
  {
    forall i, j :: 0 <= i <= j < |v| ==> v[i] <= v[j]
  }

  /** Putting a value no larger than the head in front keeps the order. */
  lemma SortedCons(a: real, v: seq<real>)
    requires Sorted(v) && (v == [] || a <= v[0])
    ensures Sorted([a] + v)
  {
    forall i, j | 0 <= i <= j < |v| + 1
      ensures ([a] + v)[i] <= ([a] + v)[j]
    {
      if i == 0 && j > 0 {
        assert v[0] <= v[j - 1];
      }
    }
  }

  function Insert(x: real, v: seq<real>): (r: seq<real>)
    requires Sorted(v)
    ensures Sorted(r)
    ensures |r| == |v| + 1
    ensures r[0] == (if v == [] || x <= v[0] then x else v[0])
    ensures multiset(r) == multiset(v) + multiset{x}
  {
    if v == [] || x <= v[0] then
      SortedCons(x, v);
      [x] + v
    else
      assert v == [v[0]] + v[1..];
      var rest := Insert(x, v[1..]);
      SortedCons(v[0], rest);
      [v[0]] + rest
  }

  /** Ascending order of the values, as quantile computations use them. */
  function Sort(v: seq<real>): (r: seq<real>)
    ensures Sorted(r)
    ensures |r| == |v|
    ensures multiset(r) == multiset(v)
  {
    if v == [] then []
    else
      assert v == [v[0]] + v[1..];
      Insert(v[0], Sort(v[1..]))
  }

  /** A fraction of a non-negative amount lies between zero and the amount. */
  lemma ScaleBetween(a: real, d: real)
    requires 0.0 <= a <= 1.0 && 0.0 <= d
    ensures 0.0 <= a * d <= d
  {
    assert (1.0 - a) * d >= 0.0;
  }

  /** Scaling by a non-negative factor keeps the order. */
  lemma ScaleMonotone(a: real, b: real, d: real)
    requires a <= b && 0.0 <= d
    ensures a * d <= b * d
  {
    assert (b - a) * d >= 0.0;
  }

  /** numpy's linear interpolation at fractional position `h` of sorted `v`. */
  function Interpolate(v: seq<real>, h: real): (r: real)
    requires |v| > 0 && 0.0 <= h <= (|v| - 1) as real
    ensures h == h.Floor as real ==> r == v[h.Floor]
  {
    var lo := h.Floor;
    var frac := h - lo as real;
    if lo + 1 < |v| then v[lo] + frac * (v[lo + 1] - v[lo]) else v[lo]
  }

  /** The position of quantile `q` among `n` sorted values. */
  function Position(n: nat, q: real): (h: real)
    requires n > 0 && 0.0 <= q <= 1.0
    ensures 0.0 <= h <= (n - 1) as real
  {
    ScaleBetween(q, (n - 1) as real);
    q * (n - 1) as real
  }

  lemma PositionMonotone(n: nat, q: real, q': real)
    requires n > 0 && 0.0 <= q <= q' <= 1.0
    ensures Position(n, q) <= Position(n, q')
  {
    ScaleMonotone(q, q', (n - 1) as real);
  }

  /** `series.quantile(q)`: None (pandas' NaN) when every cell is missing. */
  function Quantile(s: Series, q: real): (r: Option<real>)
    requires 0.0 <= q <= 1.0
    ensures r.None? <==> Present(s) == []
  {
    var v := Sort(Present(s));
    if |v| == 0 then None else Some(Interpolate(v, Position(|v|, q)))
  }

  /** On sorted data the interpolated value lies between its two neighbours. */
  lemma InterpolateBetween(v: seq<real>, h: real)
    requires Sorted(v) && |v| > 0 && 0.0 <= h <= (|v| - 1) as real
    ensures v[h.Floor] <= Interpolate(v, h)
    ensures h.Floor + 1 < |v| ==> Interpolate(v, h) <= v[h.Floor + 1]
    ensures h.Floor + 1 == |v| ==> Interpolate(v, h) == v[h.Floor]
  {
    var lo := h.Floor;
    var frac := h - lo as real;
    assert 0.0 <= frac < 1.0;
    if lo + 1 < |v| {
      var d := v[lo + 1] - v[lo];
      assert d >= 0.0 by { assert v[lo] <= v[lo + 1]; }
      ScaleBetween(frac, d);
      assert Interpolate(v, h) == v[lo] + frac * d;
    }
  }

  /** Linear interpolation over sorted data is monotone in the position. */
  lemma InterpolateMonotone(v: seq<real>, h: real, h': real)
    requires Sorted(v) && |v| > 0
    requires 0.0 <= h <= h' <= (|v| - 1) as real
    ensures Interpolate(v, h) <= Interpolate(v, h')
  {
    InterpolateBetween(v, h);
    InterpolateBetween(v, h');
    var lo, lo' := h.Floor, h'.Floor;
    if lo == lo' {
      if lo + 1 < |v| {
        var d := v[lo + 1] - v[lo];
        assert d >= 0.0 by { assert v[lo] <= v[lo + 1]; }
        var a, b := h - lo as real, h' - lo as real;
        ScaleMonotone(a, b, d);
        calc {
          Interpolate(v, h);
          v[lo] + a * d;
        <= { assert a * d <= b * d; }
          v[lo] + b * d;
          Interpolate(v, h');
        }
      } else {
        assert lo as real <= h' <= (|v| - 1) as real;
        assert lo + 1 == |v|;
        assert Interpolate(v, h) <= Interpolate(v, h');
      }
    } else {
      assert lo + 1 <= lo';
      assert v[lo + 1] <= v[lo'];
      assert Interpolate(v, h) <= Interpolate(v, h');
    }
  }

  /** A quantile at a higher level is never smaller: Q1 <= Q3. */
  lemma QuantileMonotone(s: Series, q: real, q': real)
    requires 0.0 <= q <= q' <= 1.0 && Present(s) != []
    ensures Quantile(s, q).value <= Quantile(s, q').value
  {
    var v := Sort(Present(s));
    var h, h' := Position(|v|, q), Position(|v|, q');
    PositionMonotone(|v|, q, q');
    InterpolateMonotone(v, h, h');
    assert Quantile(s, q).value == Interpolate(v, h);
    assert Quantile(s, q').value == Interpolate(v, h');
  }

  /** The IQR fences `lower` and `upper`. */
  datatype Fences = Fences(lower: real, upper: real)

  const Q1: real := 0.25
  const Q3: real := 0.75

  /** The fences of a series; None when it has no values (pandas then
      computes NaN fences and no comparison holds). */
  function IqrFences(s: Series): (f: Option<Fences>)
    ensures f.None? <==> Present(s) == []
    ensures f.Some? ==>
      f.value.lower <= Quantile(s, Q1).value <= Quantile(s, Q3).value <= f.value.upper
  {
    var q1 := Quantile(s, Q1);
    var q3 := Quantile(s, Q3);
    if q1.None? || q3.None? then None
    else
      QuantileMonotone(s, Q1, Q3);
      var iqr := q3.value - q1.value;
      Some(Fences(q1.value - 1.5 * iqr, q3.value + 1.5 * iqr))
  }

  /** `mask = (series < lower) | (series > upper)`: comparisons with a
      missing cell or a NaN fence are false. */
  predicate IsOutlier(x: Option<real>, f: Option<Fences>)
    ensures IsOutlier(x, f) ==> x.Some? && f.Some?
  {
    x.Some? && f.Some? && (x.value < f.value.lower || x.value > f.value.upper)
  }

  /** A value between the first and third quartiles is never flagged. */
  lemma InsideFencesNotFlagged(s: Series, x: real)
    requires Present(s) != []
    requires Quantile(s, Q1).value <= x <= Quantile(s, Q3).value
    ensures !IsOutlier(Some(x), IqrFences(s))
  {
  }

  /** The comparisons are strict: a value equal to either fence is kept. */
  lemma FencesNotFlagged(s: Series)
    requires Present(s) != []
    ensures !IsOutlier(Some(IqrFences(s).value.lower), IqrFences(s))
    ensures !IsOutlier(Some(IqrFences(s).value.upper), IqrFences(s))
  {
  }

  /** Indices of flagged cells at or after `from`, in increasing order. */
  function Flagged(s: Series, f: Option<Fences>, from: nat): (r: seq<nat>)
    requires from <= |s|
    ensures forall k :: 0 <= k < |r| ==> from <= r[k] < |s| && IsOutlier(s[r[k]], f)
    ensures forall i :: from <= i < |s| && IsOutlier(s[i], f) ==> i in r
    ensures forall k, l :: 0 <= k < l < |r| ==> r[k] < r[l]
    decreases |s| - from
  {
    if from == |s| then []
    else if IsOutlier(s[from], f) then [from] + Flagged(s, f, from + 1)
    else Flagged(s, f, from + 1)
  }

  /** The number of flagged cells is `mask.sum()`. */
  lemma {:induction false} FlaggedCount(s: Series, f: Option<Fences>, from: nat)
    requires from <= |s|
    ensures |Flagged(s, f, from)| == Count(s[from..], x => IsOutlier(x, f))
    decreases |s| - from
  {
    if from < |s| {
      FlaggedCount(s, f, from + 1);
      assert s[from..][1..] == s[from + 1..];
    }
  }

  /** The report of one column. */
  datatype OutlierEntry = OutlierEntry(count: nat, indices: seq<nat>, values: seq<real>)

  /** The values at the given rows, which all hold a value. */
  function ValuesAt(s: Series, idx: seq<nat>): (r: seq<real>)
    requires forall k :: 0 <= k < |idx| ==> idx[k] < |s| && s[idx[k]].Some?
    ensures |r| == |idx|
    ensures forall k :: 0 <= k < |idx| ==> s[idx[k]] == Some(r[k])
  {
    seq(|idx|, k requires 0 <= k < |idx| => s[idx[k]].value)
  }

  /** One column's report: exactly the present values strictly outside the
      fences, in row order, with their row numbers and their count. */
  function ColumnOutliers(s: Series): (e: OutlierEntry)
    ensures e.count == |e.indices| == |e.values|
    ensures e.count == Count(s, x => IsOutlier(x, IqrFences(s)))
    ensures forall k :: 0 <= k < |e.indices| ==>
      e.indices[k] < |s| && s[e.indices[k]] == Some(e.values[k]) &&
      IsOutlier(Some(e.values[k]), IqrFences(s))
    ensures forall i :: 0 <= i < |s| ==> (i in e.indices <==> IsOutlier(s[i], IqrFences(s)))
    ensures forall k, l :: 0 <= k < l < |e.indices| ==> e.indices[k] < e.indices[l]
  {
    var f := IqrFences(s);
    var idx := Flagged(s, f, 0);
    FlaggedCount(s, f, 0);
    assert s[0..] == s;
    OutlierEntry(|idx|, idx, ValuesAt(s, idx))
  }

  predicate IsNumberColumn(c: Column)
  {
    SelectedAsNumber(c.dtype)
  }

  /** `df.select_dtypes(include='number').columns`. */
  function NumberColumns(cols: seq<Column>): (r: seq<Column>)
    ensures forall k :: 0 <= k < |r| ==> r[k] in cols && IsNumberColumn(r[k])
    ensures forall k :: 0 <= k < |cols| && IsNumberColumn(cols[k]) ==> cols[k] in r
  {
    Filter(cols, IsNumberColumn)
  }

  datatype ColumnReport = ColumnReport(column: string, entry: OutlierEntry)

  function ReportOf(cols: seq<Column>): (r: seq<ColumnReport>)
    ensures |r| == |cols|
  {
    seq(|cols|, k requires 0 <= k < |cols| => ColumnReport(cols[k].name, ColumnOutliers(SeriesOf(cols[k]))))
  }

  lemma ReportOfSnoc(cols: seq<Column>, c: Column)
    ensures ReportOf(cols + [c]) == ReportOf(cols) + [ColumnReport(c.name, ColumnOutliers(SeriesOf(c)))]
  {
    var r, r' := ReportOf(cols + [c]), ReportOf(cols) + [ColumnReport(c.name, ColumnOutliers(SeriesOf(c)))];
    assert |r| == |r'|;
    forall k | 0 <= k < |r| ensures r[k] == r'[k] {
      if k < |cols| { assert (cols + [c])[k] == cols[k]; }
    }
  }

  /** The loop of `detect_outliers`: one report per numeric column, in column
      order, each computed from that column alone. */
  method DetectOutliers(t: Table) returns (report: seq<ColumnReport>)
    ensures |report| == |NumberColumns(t.columns)|
    ensures forall k :: 0 <= k < |report| ==>
      report[k].column == NumberColumns(t.columns)[k].name &&
      report[k].entry == ColumnOutliers(SeriesOf(NumberColumns(t.columns)[k]))
  {
    report := [];
    for i := 0 to |t.columns|
      invariant report == ReportOf(Filter(t.columns[..i], IsNumberColumn))
    {
      var col := t.columns[i];
      FilterSnoc(t.columns, i, IsNumberColumn);
      if IsNumberColumn(col) {
        var series := SeriesOf(col);
        ReportOfSnoc(Filter(t.columns[..i], IsNumberColumn), col);
        report := report + [ColumnReport(col.name, ColumnOutliers(series))];
      }
    }
    assert t.columns[..|t.columns|] == t.columns;
  }

  /** The worked example: the column [1, 2, 3, 4, 100]. It is stated as a
      property of `s` rather than as a literal so that the verifier reasons
      about it step by step instead of evaluating every definition on it. */
  predicate IsExample(s: Series)
  {
    |s| == 5 && s[0] == Some(1.0) && s[1] == Some(2.0) && s[2] == Some(3.0) &&
    s[3] == Some(4.0) && s[4] == Some(100.0)
  }

  lemma ExampleSorted(s: Series)
    requires IsExample(s)
    ensures Sort(Present(s)) == [1.0, 2.0, 3.0, 4.0, 100.0]
  {
    assert Present(s[4..]) == [100.0] by { assert s[4..][1..] == []; }
    assert Present(s[3..]) == [4.0, 100.0] by { assert s[3..][1..] == s[4..]; }
    assert Present(s[2..]) == [3.0, 4.0, 100.0] by { assert s[2..][1..] == s[3..]; }
    assert Present(s[1..]) == [2.0, 3.0, 4.0, 100.0] by { assert s[1..][1..] == s[2..]; }
    assert Present(s) == [1.0, 2.0, 3.0, 4.0, 100.0];
    assert Sort([100.0]) == [100.0];
    assert Sort([4.0, 100.0]) == [4.0, 100.0] by { assert [4.0, 100.0][1..] == [100.0]; }
    assert Sort([3.0, 4.0, 100.0]) == [3.0, 4.0, 100.0] by { assert [3.0, 4.0, 100.0][1..] == [4.0, 100.0]; }
    assert Sort([2.0, 3.0, 4.0, 100.0]) == [2.0, 3.0, 4.0, 100.0] by {
      assert [2.0, 3.0, 4.0, 100.0][1..] == [3.0, 4.0, 100.0];
    }
    assert [1.0, 2.0, 3.0, 4.0, 100.0][1..] == [2.0, 3.0, 4.0, 100.0];
  }

  /** Q1 = 2, Q3 = 4, IQR = 2, fences [-1, 7]. */
  lemma ExampleFences(s: Series)
    requires IsExample(s)
    ensures Quantile(s, Q1) == Some(2.0)
    ensures Quantile(s, Q3) == Some(4.0)
    ensures IqrFences(s) == Some(Fences(-1.0, 7.0))
  {
    ExampleSorted(s);
    var v := Sort(Present(s));
    assert Position(5, Q1) == 1.0;
    assert Position(5, Q3) == 3.0;
    assert (1.0).Floor == 1;
    assert (3.0).Floor == 3;
    assert Interpolate(v, 1.0) == 2.0;
    assert Interpolate(v, 3.0) == 4.0;
  }

  /** The single outlier is 100, in row 4. */
  lemma ExampleReport(s: Series)
    requires IsExample(s)
    ensures ColumnOutliers(s) == OutlierEntry(1, [4], [100.0])
  {
    ExampleFences(s);
    var f := Some(Fences(-1.0, 7.0));
    assert !IsOutlier(s[0], f) && !IsOutlier(s[1], f) && !IsOutlier(s[2], f) && !IsOutlier(s[3], f);
    assert IsOutlier(s[4], f);
    assert Flagged(s, f, 4) == [4];
    assert Flagged(s, f, 3) == [4];
    assert Flagged(s, f, 2) == [4];
    assert Flagged(s, f, 1) == [4];
    assert Flagged(s, f, 0) == [4];
  }
}
