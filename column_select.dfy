/** The column picker of the export dialog: a selection of column names
    that each checkbox toggles and that "Select All" fills or clears. Every
    operation builds a new list and hands it to `onChange`. */
module ColumnSelect {
  import opened Seqs

  /** `columns.length === selectedColumns.length`: a length test, not a set
      comparison. */
  predicate AllSelected(columns: seq<string>, selected: seq<string>)
  {
    |columns| == |selected|
  }

  /** `handleToggle(col)`: drop every occurrence of a selected column, or
      append a column that is not selected. */
  function Toggle(selected: seq<string>, col: string): (r: seq<string>)
    ensures col in selected ==> col !in r && |r| < |selected|
    ensures col in selected ==> forall k :: 0 <= k < |r| ==> r[k] in selected
    ensures col in selected ==> forall k :: 0 <= k < |selected| && selected[k] != col ==> selected[k] in r
    ensures col in selected ==> forall x :: x != col ==> multiset(r)[x] == multiset(selected)[x]
    ensures col !in selected ==> r == selected + [col]
  {
    if col in selected then
      var r := Filter(selected, c => c != col);
      FilterLength(selected, c => c != col);
      var k :| 0 <= k < |selected| && selected[k] == col;
      CountBelowLength(selected, c => c != col, k);
      FilterMultiset(selected, c => c != col);
      r
    else selected + [col]
  }

  /** The column removed keeps the others in their relative order. */
  lemma ToggleOffKeepsOrder(selected: seq<string>, col: string)
    requires col in selected
    ensures IsSubsequence(Toggle(selected, col), selected)
  {
    FilterIsSubsequence(selected, c => c != col);
  }

  /** Toggling an unselected column twice gives back the selection. */
  lemma ToggleTwice(selected: seq<string>, col: string)
    requires col !in selected
    ensures Toggle(Toggle(selected, col), col) == selected
  {
    var once := selected + [col];
    assert col in once by { assert once[|selected|] == col; }
    FilterAppend(selected, [col], c => c != col);
    FilterAll(selected, c => c != col);
    assert Filter([col], c => c != col) == [];
  }

  /** `handleSelectAll`: clear when all are selected, else copy the columns. */
  function SelectAll(columns: seq<string>, selected: seq<string>): (r: seq<string>)
    ensures AllSelected(columns, selected) ==> r == []
    ensures !AllSelected(columns, selected) ==> r == columns
  {
    if AllSelected(columns, selected) then [] else columns
  }

  predicate NoDuplicates(s: seq<string>)
  {
    forall i, j :: 0 <= i < j < |s| ==> s[i] != s[j]
  }

  /** What the dialog maintains: every selected name is a column and none is
      selected twice. */
  predicate Consistent(columns: seq<string>, selected: seq<string>)
  {
    NoDuplicates(selected) && forall k :: 0 <= k < |selected| ==> selected[k] in columns
  }

  /** Toggling a column of the dialog keeps the selection consistent. */
  lemma ToggleConsistent(columns: seq<string>, selected: seq<string>, col: string)
    requires Consistent(columns, selected) && col in columns
    ensures Consistent(columns, Toggle(selected, col))
  {
    var r := Toggle(selected, col);
    if col in selected {
      FilterNoDuplicates(selected, c => c != col);
    }
  }

  lemma {:induction false} FilterNoDuplicates(s: seq<string>, p: string -> bool)
    requires NoDuplicates(s)
    ensures NoDuplicates(Filter(s, p))
  {
    if s != [] {
      FilterNoDuplicates(s[1..], p);
      assert s[0] !in s[1..];
      if p(s[0]) {
        assert Filter(s, p) == [s[0]] + Filter(s[1..], p);
        assert s[0] !in Filter(s[1..], p);
      }
    }
  }

  /** Select-all keeps the selection consistent when column names are unique. */
  lemma SelectAllConsistent(columns: seq<string>, selected: seq<string>)
    requires NoDuplicates(columns)
    ensures Consistent(columns, SelectAll(columns, selected))
  {
  }

  /** For a consistent selection over unique column names the length test
      is exact: it holds precisely when every column is selected. */
  lemma AllSelectedExact(columns: seq<string>, selected: seq<string>)
    requires NoDuplicates(columns) && Consistent(columns, selected)
    ensures AllSelected(columns, selected) <==> forall k :: 0 <= k < |columns| ==> columns[k] in selected
  {
    var cs, ss := ToSet(columns), ToSet(selected);
    SetSize(columns);
    SetSize(selected);
    assert ss <= cs;
    if AllSelected(columns, selected) {
      assert |ss| == |cs|;
      SubsetSameSize(ss, cs);
      forall k | 0 <= k < |columns|
        ensures columns[k] in selected
      {
        assert columns[k] in cs;
      }
    }
    if forall k :: 0 <= k < |columns| ==> columns[k] in selected {
      forall x | x in cs
        ensures x in ss
      {
        var k :| 0 <= k < |columns| && columns[k] == x;
      }
      assert cs == ss;
    }
  }

  function ToSet(s: seq<string>): set<string>
  {
    set x | x in s
  }

  /** A sequence without duplicates has as many distinct elements as entries. */
  lemma {:induction false} SetSize(s: seq<string>)
    requires NoDuplicates(s)
    ensures |ToSet(s)| == |s|
  {
    if s != [] {
      SetSize(s[1..]);
      assert ToSet(s) == {s[0]} + ToSet(s[1..]);
      assert s[0] !in ToSet(s[1..]);
    }
  }

  lemma SubsetSameSize(a: set<string>, b: set<string>)
    requires a <= b && |a| == |b|
    ensures a == b
  {
    if a != b {
      var x :| x in b && x !in a;
      assert a <= b - {x};
      assert |b - {x}| == |b| - 1;
      SubsetSize(a, b - {x});
    }
  }

  lemma SubsetSize(a: set<string>, b: set<string>)
    requires a <= b
    ensures |a| <= |b|
  {
    assert b == a + (b - a);
  }

  /** Without that invariant the test can be fooled: a stale name makes
      "Select All" appear checked while a column is unselected. */
  lemma StaleSelectionLooksComplete()
    ensures AllSelected(["a", "b"], ["a", "c"]) && "b" !in ["a", "c"]
  {
  }
}
