/** `EDAService.generate_insights`: a fixed rule list that reports, in this
    order, heavily and moderately missing columns, strongly correlated column
    pairs, numeric columns with IQR outliers, and a suggestion when every
    column is numeric. The correlation matrix is an input; the text of each
    message is reduced to its category and the columns it names. */
module Insights {
  import opened Seqs
  import opened Frame
  import opened Profiler
  import opened Outliers

  datatype Kind = Warning | Info | Suggestion

  /** What an insight is about. */
  datatype Topic =
    | HighMissing(column: string)
    | SomeMissing(column: string)
    | Correlated(first: string, second: string)
    | HasOutliers(column: string, count: nat)
    | AllNumeric

  /** One `{'type': ..., 'message': ...}` dict. */
  datatype Insight = Insight(kind: Kind, topic: Topic)

  /** `df.isnull().mean()` for one column: None (NaN) on a table without rows. */
  function MissingFraction(c: Column, rows: nat): (f: Option<real>)
    requires |c.cells| == rows
    ensures f.None? <==> rows == 0
    ensures f.Some? ==> 0.0 <= f.value <= 1.0
  {
    if rows == 0 then None
    else
      var m := MissingCount(c.cells);
      assert m as real <= rows as real;
      Some(m as real / rows as real)
  }

  /** The missingness rule for one column: a warning above one half, else an
      info above one fifth, else nothing. NaN compares false. */
  function MissingInsight(c: Column, rows: nat): (r: seq<Insight>)
    requires |c.cells| == rows
    ensures |r| <= 1
    ensures r == [Insight(Warning, HighMissing(c.name))] <==>
      MissingFraction(c, rows).Some? && MissingFraction(c, rows).value > 0.5
    ensures r == [Insight(Info, SomeMissing(c.name))] <==>
      MissingFraction(c, rows).Some? && 0.2 < MissingFraction(c, rows).value <= 0.5
  {
    var f := MissingFraction(c, rows);
    if f.Some? && f.value > 0.5 then [Insight(Warning, HighMissing(c.name))]
    else if f.Some? && f.value > 0.2 then [Insight(Info, SomeMissing(c.name))]
    else []
  }

  /** The same rule in whole numbers: more than half of the cells missing
      gives the warning, more than a fifth and at most half gives the info. */
  lemma MissingRuleCounts(c: Column, rows: nat)
    requires |c.cells| == rows
    ensures MissingInsight(c, rows) == [Insight(Warning, HighMissing(c.name))] <==>
      2 * MissingCount(c.cells) > rows
    ensures MissingInsight(c, rows) == [Insight(Info, SomeMissing(c.name))] <==>
      5 * MissingCount(c.cells) > rows && 2 * MissingCount(c.cells) <= rows
    ensures MissingInsight(c, rows) == [] <==> 5 * MissingCount(c.cells) <= rows
  {
    if rows > 0 {
      var m := MissingCount(c.cells);
      FracAbove(m, rows, 2);
      FracAbove(m, rows, 5);
      assert MissingFraction(c, rows) == Some(m as real / rows as real);
    }
  }

  /** m / n > 1 / k exactly when k * m > n. */
  lemma FracAbove(m: nat, n: nat, k: nat)
    requires n > 0 && k > 0
    ensures m as real / n as real > 1.0 / k as real <==> k * m > n
  {
    var f := m as real / n as real;
    var g := 1.0 / k as real;
    var d := (n * k) as real;
    assert f * n as real == m as real;
    assert g * k as real == 1.0;
    assert d == n as real * k as real;
    assert f * d == (k * m) as real by {
      assert f * d == (f * n as real) * k as real;
    }
    assert g * d == n as real by {
      assert g * d == (g * k as real) * n as real;
    }
    if f > g {
      ScaleStrict(g, f, d);
    }
    if k * m > n && f <= g {
      ScaleMonotone(f, g, d);
    }
  }

  lemma ScaleStrict(a: real, b: real, d: real)
    requires a < b && d > 0.0
    ensures a * d < b * d
  {
    assert (b - a) * d > 0.0;
  }

  /** The first loop of `generate_insights`, over the first `i` columns. */
  function MissingInsights(cols: seq<Column>, rows: nat, i: nat): (r: seq<Insight>)
    requires i <= |cols|
    requires forall k :: 0 <= k < |cols| ==> |cols[k].cells| == rows
  {
    if i == 0 then [] else MissingInsights(cols, rows, i - 1) + MissingInsight(cols[i - 1], rows)
  }

  /** A correlation matrix with one row and one column per numeric column
      name; None is a NaN coefficient. */
  datatype RawCorr = RawCorr(names: seq<string>, values: seq<seq<Option<real>>>)

  predicate Square(m: RawCorr)
  {
    |m.values| == |m.names| && forall i :: 0 <= i < |m.values| ==> |m.values[i]| == |m.names|
  }

  type CorrMatrix = m: RawCorr | Square(m) witness RawCorr([], [])

  function Abs(x: real): real
  {
    if x < 0.0 then -x else x
  }

  /** `col1 != col2 and abs(corr.loc[col1, col2]) > 0.8`; NaN compares false. */
  predicate Strong(m: CorrMatrix, i: nat, j: nat)
    requires i < |m.names| && j < |m.names|
  {
    m.names[i] != m.names[j] && m.values[i][j].Some? && Abs(m.values[i][j].value) > 0.8
  }

  /** The inner loop: cells (i, 0) .. (i, j - 1) of the matrix. */
  function CorrRow(m: CorrMatrix, i: nat, j: nat): (r: seq<Insight>)
    requires i < |m.names| && j <= |m.names|
  {
    if j == 0 then []
    else
      CorrRow(m, i, j - 1) +
      (if Strong(m, i, j - 1) then [Insight(Info, Correlated(m.names[i], m.names[j - 1]))] else [])
  }

  /** The outer loop: rows 0 .. i - 1 of the matrix. */
  function CorrInsights(m: CorrMatrix, i: nat): (r: seq<Insight>)
    requires i <= |m.names|
  {
    if i == 0 then [] else CorrInsights(m, i - 1) + CorrRow(m, i - 1, |m.names|)
  }

  /** `int(mask.sum())` for one column: the number of cells strictly outside
      the IQR fences, which is the count `detect_outliers` reports for it. */
  function OutlierCount(c: Column): nat
  {
    OutsideFences(SeriesOf(c))
  }

  /** `mask.sum()`: the cells strictly outside the fences of the series. */
  function OutsideFences(s: Series): nat
  {
    Count(s, x => IsOutlier(x, IqrFences(s)))
  }

  /** The count `generate_insights` computes is the one `detect_outliers`
      reports for the same column. */
  lemma OutlierCountAgrees(c: Column)
    ensures OutlierCount(c) == ColumnOutliers(SeriesOf(c)).count
  {
  }

  /** The outlier count of each numeric column, in column order. */
  function OutlierCounts(nums: seq<Column>): (r: seq<nat>)
    ensures |r| == |nums|
  {
    seq(|nums|, k requires 0 <= k < |nums| => OutlierCount(nums[k]))
  }

  /** The outlier loop over the first `i` numeric columns, given their counts. */
  function OutlierInsights(nums: seq<Column>, counts: seq<nat>, i: nat): (r: seq<Insight>)
    requires |counts| == |nums| && i <= |nums|
  {
    if i == 0 then []
    else
      OutlierInsights(nums, counts, i - 1) +
      (if counts[i - 1] > 0 then [Insight(Warning, HasOutliers(nums[i - 1].name, counts[i - 1]))] else [])
  }

  /** The final rule: at most one insight, the all-numeric suggestion. */
  function SuggestionInsights(cols: seq<Column>): (r: seq<Insight>)
    ensures |r| <= 1
    ensures forall k :: 0 <= k < |r| ==> r[k] == Insight(Suggestion, AllNumeric)
  {
    if |NumberColumns(cols)| == |cols| then [Insight(Suggestion, AllNumeric)] else []
  }

  /** The whole list `generate_insights` returns. */
  function AllInsights(t: Table, m: CorrMatrix): (r: seq<Insight>)
    ensures |SuggestionInsights(t.columns)| <= |r|
    ensures r[|r| - |SuggestionInsights(t.columns)|..] == SuggestionInsights(t.columns)
  {
    MissingInsights(t.columns, t.rowCount, |t.columns|) +
    CorrInsights(m, |m.names|) +
    OutlierInsights(NumberColumns(t.columns), OutlierCounts(NumberColumns(t.columns)), |NumberColumns(t.columns)|) +
    SuggestionInsights(t.columns)
  }

  /** `generate_insights`: four rule loops appending to one list, in order. */
  method GenerateInsights(t: Table, m: CorrMatrix) returns (insights: seq<Insight>)
    ensures insights == AllInsights(t, m)
  {
    var missing := MissingLoop(t);
    var correlated := CorrelationLoop(m);
    var nums := NumberColumns(t.columns);
    var outliers := OutlierLoop(nums);
    insights := missing + correlated + outliers;
    if |nums| == |t.columns| {
      insights := insights + [Insight(Suggestion, AllNumeric)];
    }
  }

  /** The missingness loop: `frac` is NaN on a table without rows, and then
      neither comparison holds. */
  method MissingLoop(t: Table) returns (insights: seq<Insight>)
    ensures insights == MissingInsights(t.columns, t.rowCount, |t.columns|)
  {
    insights := [];
    for i := 0 to |t.columns|
      invariant insights == MissingInsights(t.columns, t.rowCount, i)
    {
      var col := t.columns[i];
      if t.rowCount > 0 {
        var frac := MissingCount(col.cells) as real / t.rowCount as real;
        if frac > 0.5 {
          insights := insights + [Insight(Warning, HighMissing(col.name))];
        } else if frac > 0.2 {
          insights := insights + [Insight(Info, SomeMissing(col.name))];
        }
      }
    }
  }

  /** The nested loop over every ordered pair of matrix columns. */
  method CorrelationLoop(m: CorrMatrix) returns (insights: seq<Insight>)
    ensures insights == CorrInsights(m, |m.names|)
  {
    insights := [];
    var n := |m.names|;
    for i := 0 to n
      invariant insights == CorrInsights(m, i)
    {
      for j := 0 to n
        invariant insights == CorrInsights(m, i) + CorrRow(m, i, j)
      {
        if m.names[i] != m.names[j] && m.values[i][j].Some? && Abs(m.values[i][j].value) > 0.8 {
          insights := insights + [Insight(Info, Correlated(m.names[i], m.names[j]))];
        }
      }
    }
  }

  /** The outlier loop over the numeric columns. */
  method OutlierLoop(nums: seq<Column>) returns (insights: seq<Insight>)
    ensures insights == OutlierInsights(nums, OutlierCounts(nums), |nums|)
  {
    insights := [];
    for i := 0 to |nums|
      invariant insights == OutlierInsights(nums, OutlierCounts(nums), i)
    {
      var count := OutlierCount(nums[i]);
      OutlierInsightsStep(nums, i);
      if count > 0 {
        insights := insights + [Insight(Warning, HasOutliers(nums[i].name, count))];
      }
    }
  }

  lemma OutlierInsightsStep(nums: seq<Column>, i: nat)
    requires i < |nums|
    ensures OutlierInsights(nums, OutlierCounts(nums), i + 1) ==
      OutlierInsights(nums, OutlierCounts(nums), i) +
      (if OutlierCount(nums[i]) > 0 then [Insight(Warning, HasOutliers(nums[i].name, OutlierCount(nums[i])))] else [])
  {
  }

  /** The position of an insight's rule in the rule list. */
  function Rank(x: Insight): nat
  {
    match x.topic
    case HighMissing(_) => 0
    case SomeMissing(_) => 0
    case Correlated(_, _) => 1
    case HasOutliers(_, _) => 2
    case AllNumeric => 3
  }

  predicate AllRank(r: seq<Insight>, k: nat)
  {
    forall i :: 0 <= i < |r| ==> Rank(r[i]) == k
  }

  lemma {:induction false} MissingRank(cols: seq<Column>, rows: nat, i: nat)
    requires i <= |cols|
    requires forall k :: 0 <= k < |cols| ==> |cols[k].cells| == rows
    ensures AllRank(MissingInsights(cols, rows, i), 0)
  {
    if i > 0 { MissingRank(cols, rows, i - 1); }
  }

  lemma {:induction false} CorrRowRank(m: CorrMatrix, i: nat, j: nat)
    requires i < |m.names| && j <= |m.names|
    ensures AllRank(CorrRow(m, i, j), 1)
  {
    if j > 0 { CorrRowRank(m, i, j - 1); }
  }

  lemma {:induction false} CorrRank(m: CorrMatrix, i: nat)
    requires i <= |m.names|
    ensures AllRank(CorrInsights(m, i), 1)
  {
    if i > 0 {
      CorrRank(m, i - 1);
      CorrRowRank(m, i - 1, |m.names|);
    }
  }

  lemma {:induction false} OutlierRank(nums: seq<Column>, counts: seq<nat>, i: nat)
    requires |counts| == |nums| && i <= |nums|
    ensures AllRank(OutlierInsights(nums, counts, i), 2)
  {
    if i > 0 { OutlierRank(nums, counts, i - 1); }
  }

  /** Rule ranks never decrease along `r`, and a suggestion can only be last. */
  predicate RankOrdered(r: seq<Insight>)
  {
    (forall k, l :: 0 <= k < l < |r| ==> Rank(r[k]) <= Rank(r[l])) &&
    (forall k :: 0 <= k < |r| && r[k].topic.AllNumeric? ==> k == |r| - 1)
  }

  lemma ConcatOrdered(a: seq<Insight>, b: seq<Insight>, c: seq<Insight>, d: seq<Insight>)
    requires AllRank(a, 0) && AllRank(b, 1) && AllRank(c, 2)
    requires |d| <= 1 && AllRank(d, 3)
    ensures RankOrdered(a + b + c + d)
  {
    var r := a + b + c + d;
    forall k | 0 <= k < |r|
      ensures Rank(r[k]) == (if k < |a| then 0 else if k < |a| + |b| then 1
                             else if k < |a| + |b| + |c| then 2 else 3)
    {
      if k < |a| { assert r[k] == a[k]; }
      else if k < |a| + |b| { assert r[k] == b[k - |a|]; }
      else if k < |a| + |b| + |c| { assert r[k] == c[k - |a| - |b|]; }
      else { assert r[k] == d[k - |a| - |b| - |c|]; }
    }
  }

  /** Missingness items come first, then correlations, then outliers, then
      the suggestion, which appears at most once and only at the end. */
  lemma InsightsOrdered(t: Table, m: CorrMatrix)
    ensures RankOrdered(AllInsights(t, m))
  {
    OrderedForCounts(t, m, OutlierCounts(NumberColumns(t.columns)));
  }

  /** The ordering holds whatever the per-column outlier counts are. */
  lemma OrderedForCounts(t: Table, m: CorrMatrix, counts: seq<nat>)
    requires |counts| == |NumberColumns(t.columns)|
    ensures RankOrdered(MissingInsights(t.columns, t.rowCount, |t.columns|) + CorrInsights(m, |m.names|) +
      OutlierInsights(NumberColumns(t.columns), counts, |NumberColumns(t.columns)|) + SuggestionInsights(t.columns))
  {
    var nums := NumberColumns(t.columns);
    MissingRank(t.columns, t.rowCount, |t.columns|);
    CorrRank(m, |m.names|);
    OutlierRank(nums, counts, |nums|);
    ConcatOrdered(MissingInsights(t.columns, t.rowCount, |t.columns|), CorrInsights(m, |m.names|),
      OutlierInsights(nums, counts, |nums|), SuggestionInsights(t.columns));
  }

  /** A missingness item names a column and matches its rule. */
  lemma {:induction false} MissingMember(cols: seq<Column>, rows: nat, i: nat, x: Insight)
    requires i <= |cols|
    requires forall k :: 0 <= k < |cols| ==> |cols[k].cells| == rows
    ensures x in MissingInsights(cols, rows, i) <==>
      exists k :: 0 <= k < i && MissingInsight(cols[k], rows) == [x]
  {
    if i > 0 {
      MissingMember(cols, rows, i - 1, x);
      var last := MissingInsight(cols[i - 1], rows);
      assert x in last <==> last == [x];
    }
  }

  /** A high-missingness warning is reported for a column name exactly when
      a column of that name is more than half missing, and a moderate one
      exactly when it is more than a fifth and at most half missing. */
  lemma MissingInsightsRule(t: Table, name: string)
    ensures Insight(Warning, HighMissing(name)) in MissingInsights(t.columns, t.rowCount, |t.columns|) <==>
      exists k :: 0 <= k < |t.columns| && t.columns[k].name == name &&
        2 * MissingCount(t.columns[k].cells) > t.rowCount
    ensures Insight(Info, SomeMissing(name)) in MissingInsights(t.columns, t.rowCount, |t.columns|) <==>
      exists k :: 0 <= k < |t.columns| && t.columns[k].name == name &&
        5 * MissingCount(t.columns[k].cells) > t.rowCount &&
        2 * MissingCount(t.columns[k].cells) <= t.rowCount
  {
    var cols, rows := t.columns, t.rowCount;
    MissingMember(cols, rows, |cols|, Insight(Warning, HighMissing(name)));
    MissingMember(cols, rows, |cols|, Insight(Info, SomeMissing(name)));
    forall k | 0 <= k < |cols| {
      MissingRuleCounts(cols[k], rows);
    }
  }

  /** Each column contributes at most one missingness item. */
  lemma {:induction false} MissingInsightsLength(cols: seq<Column>, rows: nat, i: nat)
    requires i <= |cols|
    requires forall k :: 0 <= k < |cols| ==> |cols[k].cells| == rows
    ensures |MissingInsights(cols, rows, i)| <= i
  {
    if i > 0 { MissingInsightsLength(cols, rows, i - 1); }
  }

  lemma {:induction false} CorrRowMember(m: CorrMatrix, i: nat, j: nat, x: Insight)
    requires i < |m.names| && j <= |m.names|
    ensures x in CorrRow(m, i, j) <==>
      exists l :: 0 <= l < j && Strong(m, i, l) && x == Insight(Info, Correlated(m.names[i], m.names[l]))
  {
    if j > 0 { CorrRowMember(m, i, j - 1, x); }
  }

  lemma {:induction false} CorrMember(m: CorrMatrix, i: nat, x: Insight)
    requires i <= |m.names|
    ensures x in CorrInsights(m, i) <==>
      exists k, l :: 0 <= k < i && 0 <= l < |m.names| && Strong(m, k, l) &&
        x == Insight(Info, Correlated(m.names[k], m.names[l]))
  {
    if i > 0 {
      CorrMember(m, i - 1, x);
      CorrRowMember(m, i - 1, |m.names|, x);
    }
  }

  /** A correlation item is reported for the ordered pair (a, b) exactly when
      some cell of the matrix with those row and column names is strong. */
  lemma CorrelationRule(m: CorrMatrix, a: string, b: string)
    ensures Insight(Info, Correlated(a, b)) in CorrInsights(m, |m.names|) <==>
      exists k, l :: 0 <= k < |m.names| && 0 <= l < |m.names| && Strong(m, k, l) &&
        m.names[k] == a && m.names[l] == b
  {
    CorrMember(m, |m.names|, Insight(Info, Correlated(a, b)));
  }

  /** A symmetric matrix reports every strongly correlated pair twice, once
      in each order. */
  lemma SymmetricPairTwice(m: CorrMatrix, k: nat, l: nat)
    requires k < |m.names| && l < |m.names|
    requires m.values[k][l] == m.values[l][k]
    requires Strong(m, k, l)
    ensures Insight(Info, Correlated(m.names[k], m.names[l])) in CorrInsights(m, |m.names|)
    ensures Insight(Info, Correlated(m.names[l], m.names[k])) in CorrInsights(m, |m.names|)
    ensures m.names[k] != m.names[l]
  {
    CorrelationRule(m, m.names[k], m.names[l]);
    CorrelationRule(m, m.names[l], m.names[k]);
    assert Strong(m, l, k);
  }

  lemma {:induction false} OutlierMember(nums: seq<Column>, counts: seq<nat>, i: nat, x: Insight)
    requires |counts| == |nums| && i <= |nums|
    ensures x in OutlierInsights(nums, counts, i) <==>
      exists k :: 0 <= k < i && counts[k] > 0 && x == Insight(Warning, HasOutliers(nums[k].name, counts[k]))
  {
    if i > 0 { OutlierMember(nums, counts, i - 1, x); }
  }

  /** An outlier warning names a numeric column and carries its positive
      IQR outlier count, the count `detect_outliers` reports for it. */
  lemma OutlierRule(t: Table, name: string, count: nat)
    ensures
      (Insight(Warning, HasOutliers(name, count)) in
        OutlierInsights(NumberColumns(t.columns), OutlierCounts(NumberColumns(t.columns)), |NumberColumns(t.columns)|))
      <==>
      (count > 0 &&
       exists k :: 0 <= k < |NumberColumns(t.columns)| &&
         NumberColumns(t.columns)[k].name == name &&
         ColumnOutliers(SeriesOf(NumberColumns(t.columns)[k])).count == count)
  {
    var nums := NumberColumns(t.columns);
    var counts := OutlierCounts(nums);
    OutlierMember(nums, counts, |nums|, Insight(Warning, HasOutliers(name, count)));
    forall k | 0 <= k < |nums|
      ensures counts[k] == ColumnOutliers(SeriesOf(nums[k])).count
    {
      OutlierCountAgrees(nums[k]);
    }
  }

  /** The suggestion is given exactly when every column is an integer or
      float column; a table without columns gets it too. */
  lemma SuggestionRule(t: Table)
    ensures Insight(Suggestion, AllNumeric) in SuggestionInsights(t.columns) <==>
      forall k :: 0 <= k < |t.columns| ==> SelectedAsNumber(t.columns[k].dtype)
    ensures t.columns == [] ==> SuggestionInsights(t.columns) == [Insight(Suggestion, AllNumeric)]
  {
    var cols := t.columns;
    FilterLength(cols, IsNumberColumn);
    if forall k :: 0 <= k < |cols| ==> SelectedAsNumber(cols[k].dtype) {
      FilterAll(cols, IsNumberColumn);
    } else {
      var k :| 0 <= k < |cols| && !SelectedAsNumber(cols[k].dtype);
      CountBelowLength(cols, IsNumberColumn, k);
    }
  }
}
