/**
 * The part of a pandas DataFrame the cleaning service looks at: named
 * columns, each with a stored dtype and a sequence of cells that may be
 * null, all of the same length.
 */
module Frames {
  import opened Common
  import opened Text

  /**
   * A non-null cell value. Floats and timestamps are kept as their `str`
   * form. Values compare by constructor: Python's `1 == 1.0 == True` is
   * not followed.
   */
  datatype Value =
    | IntV(i: int)
    | FloatV(repr: string)
    | BoolV(b: bool)
    | StrV(s: string)
    | TimeV(repr: string)

  /** `str(v)`. */
  function Str(v: Value): string {
    match v
    case IntV(i) => IntToString(i)
    case FloatV(r) => r
    case BoolV(b) => if b then "True" else "False"
    case StrV(s) => s
    case TimeV(r) => r
  }

  /** The stored dtype of a column. */
  datatype DType = Int64 | Float64 | Bool | DateTime64 | Object | Category | OtherType(name: string)

  /** `str(series.dtype)`. */
  function DTypeName(d: DType): string {
    match d
    case Int64 => "int64"
    case Float64 => "float64"
    case Bool => "bool"
    case DateTime64 => "datetime64[ns]"
    case Object => "object"
    case Category => "category"
    case OtherType(n) => n
  }

  /**
   * `pandas.api.types.is_numeric_dtype` on the dtypes the default readers
   * produce: integers, floats and booleans.
   */
  predicate IsNumericDtype(d: DType) {
    d == Int64 || d == Float64 || d == Bool
  }

  /** `pandas.api.types.is_datetime64_any_dtype` on the dtypes the default readers produce. */
  predicate IsDatetimeDtype(d: DType) {
    d == DateTime64
  }

  /** A cell: `None` is a null (NaN, None or NaT). */
  type Cell = Option<Value>

  datatype Column = Column(name: string, dtype: DType, cells: seq<Cell>)

  datatype Table = Table(columns: seq<Column>, rowCount: nat)

  /** Every column has one cell per row, and column names are distinct. */
  predicate WellFormed(t: Table) {
    (forall j :: 0 <= j < |t.columns| ==> |t.columns[j].cells| == t.rowCount)
    && (forall j, k :: 0 <= j < k < |t.columns| ==> t.columns[j].name != t.columns[k].name)
  }

  type Frame = t: Table | WellFormed(t) witness Table([], 0)

  /** `df.empty`: no rows or no columns. */
  predicate IsEmpty(f: Frame) {
    f.rowCount == 0 || |f.columns| == 0
  }

  // ---------------------------------------------------------------------
  // Nulls and distinct values of one column

  /** `series.isnull().sum()`. */
  function NullCount(cells: seq<Cell>): (n: nat)
    ensures n <= |cells|
  {
    if |cells| == 0 then 0
    else (if cells[0].None? then 1 else 0) + NullCount(cells[1..])
  }

  /** `series.dropna()`: the non-null values, in order. */
  function NonNull(cells: seq<Cell>): (vs: seq<Value>)
    ensures |vs| + NullCount(cells) == |cells|
    ensures forall v :: v in vs <==> Some(v) in cells
  {
    if |cells| == 0 then []
    else
      var rest := NonNull(cells[1..]);
      assert forall c :: c in cells <==> c == cells[0] || c in cells[1..];
      match cells[0]
      case None => rest
      case Some(v) => [v] + rest
  }

  /** The cells of a column holding the given values and no null. */
  function Present(vs: seq<Value>): (cells: seq<Cell>)
    ensures |cells| == |vs| && forall i :: 0 <= i < |vs| ==> cells[i] == Some(vs[i])
  {
    seq(|vs|, i requires 0 <= i < |vs| => Some(vs[i]))
  }

  /** Dropping the nulls of a null-free column gives its values back. */
  lemma {:induction false} NonNullPresent(vs: seq<Value>)
    ensures NonNull(Present(vs)) == vs
    ensures NullCount(Present(vs)) == 0
  {
    if |vs| > 0 {
      assert Present(vs)[1..] == Present(vs[1..]);
      NonNullPresent(vs[1..]);
    }
  }

  /** `s.head(n)`. */
  function Take<T>(s: seq<T>, n: nat): (r: seq<T>)
    ensures |r| == Min(n, |s|) && r <= s
  {
    s[..Min(n, |s|)]
  }

  /** The distinct values of a sequence. */
  function Distinct(vs: seq<Value>): set<Value> {
    set v | v in vs
  }

  /** A sequence has at least as many elements as distinct ones. */
  lemma {:induction false} DistinctBound(vs: seq<Value>)
    ensures |Distinct(vs)| <= |vs|
  {
    if |vs| > 0 {
      DistinctBound(vs[1..]);
      assert Distinct(vs) == {vs[0]} + Distinct(vs[1..]);
    }
  }

  /** `series.nunique()`: distinct non-null values. */
  function UniqueCount(cells: seq<Cell>): (n: nat)
    ensures n + NullCount(cells) <= |cells|
    ensures n == 0 <==> NullCount(cells) == |cells|
  {
    var vs := NonNull(cells);
    DistinctBound(vs);
    assert |vs| > 0 ==> vs[0] in Distinct(vs);
    |Distinct(vs)|
  }

  // ---------------------------------------------------------------------
  // Rows

  /** Row `i` of the frame, one cell per column. */
  function Row(f: Frame, i: nat): (r: seq<Cell>)
    requires i < f.rowCount
    ensures |r| == |f.columns|
  {
    seq(|f.columns|, j requires 0 <= j < |f.columns| => f.columns[j].cells[i])
  }

  /** `df.duplicated()` at row `i` (keep='first'): an earlier row is equal to it. */
  predicate IsDuplicateRow(f: Frame, i: nat)
    requires i < f.rowCount
  {
    exists j :: 0 <= j < i && Row(f, j) == Row(f, i)
  }

  /** The number of duplicated rows among the first `n`. */
  function DuplicateCount(f: Frame, n: nat): (d: nat)
    requires n <= f.rowCount
    ensures d <= n
  {
    if n == 0 then 0
    else DuplicateCount(f, n - 1) + (if IsDuplicateRow(f, n - 1) then 1 else 0)
  }

  /** `df.duplicated().sum()`. */
  function DuplicateRows(f: Frame): nat {
    DuplicateCount(f, f.rowCount)
  }

  /** No duplicate among the first `n` rows exactly when those rows are pairwise different. */
  lemma {:induction false} NoDuplicatesIff(f: Frame, n: nat)
    requires n <= f.rowCount
    ensures DuplicateCount(f, n) == 0 <==>
      forall i, j :: 0 <= j < i < n ==> Row(f, j) != Row(f, i)
  {
    if n > 0 {
      NoDuplicatesIff(f, n - 1);
    }
  }

  /** `df.isnull().sum().sum()` over some columns. */
  function MissingCells(columns: seq<Column>): nat {
    if |columns| == 0 then 0 else NullCount(columns[0].cells) + MissingCells(columns[1..])
  }

  /** Missing cells never exceed the columns' total number of cells. */
  lemma {:induction false} MissingCellsBound(columns: seq<Column>, rows: nat)
    requires forall j :: 0 <= j < |columns| ==> |columns[j].cells| == rows
    ensures MissingCells(columns) <= |columns| * rows
  {
    if |columns| > 0 {
      MissingCellsBound(columns[1..], rows);
      assert |columns| * rows == rows + (|columns| - 1) * rows;
    }
  }

  /** There are no missing cells exactly when every column is free of nulls. */
  lemma {:induction false} NoMissingCellsIff(columns: seq<Column>)
    ensures MissingCells(columns) == 0 <==>
      forall j :: 0 <= j < |columns| ==> NullCount(columns[j].cells) == 0
  {
    if |columns| > 0 {
      NoMissingCellsIff(columns[1..]);
      assert forall j :: 1 <= j < |columns| ==> columns[j] == columns[1..][j - 1];
    }
  }

  /** `df.head(n)`: the first `n` rows of every column. */
  function Head(f: Frame, n: nat): (h: Frame)
    ensures h.rowCount == Min(n, f.rowCount) && |h.columns| == |f.columns|
    ensures forall j :: 0 <= j < |f.columns| ==>
      h.columns[j].name == f.columns[j].name && h.columns[j].cells <= f.columns[j].cells
  {
    var rows := Min(n, f.rowCount);
    var cols := seq(|f.columns|, j requires 0 <= j < |f.columns| =>
      Column(f.columns[j].name, f.columns[j].dtype, f.columns[j].cells[..rows]));
    assert WellFormed(Table(cols, rows));
    Table(cols, rows)
  }
}
