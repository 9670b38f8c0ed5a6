/**
 * The data-cleaning service: loading by extension, per-column semantic
 * type inference, schema inference, quality profiling, and the
 * `DataCleaner` object whose log the pipeline appends to.
 */
module Cleaner {
  import opened Common
  import opened Text
  import opened Frames

  // ---------------------------------------------------------------------
  // Semantic type of a column

  datatype SemanticType = Unknown | DateTime | Numeric | Boolean | Identifier | Categorical | FreeText

  /** The type's name in the schema. */
  function TypeName(t: SemanticType): string {
    match t
    case Unknown => "unknown"
    case DateTime => "datetime"
    case Numeric => "numeric"
    case Boolean => "boolean"
    case Identifier => "id"
    case Categorical => "categorical"
    case FreeText => "text"
  }

  /**
   * Whether pandas parses a whole list of values as dates
   * (`pd.to_datetime`) or as numbers (`pd.to_numeric`) without raising;
   * and, for a column stored as text, the text of the exception that
   * `float(series.min())`, `float(series.max())`, `float(series.mean())` or
   * `float(series.std())` raises on its cells, if any of them does (a cell
   * after the first hundred that is no number, say).
   */
  datatype Parsers = Parsers(parsesAsDates: seq<Value> -> bool, parsesAsNumbers: seq<Value> -> bool,
                             summaryError: seq<Cell> -> Option<string>)

  /**
   * The exception the numeric summary of a column raises, if any. The
   * minimum, maximum, mean and deviation of integers, floats and booleans
   * always convert to a float; only a column stored as text can fail.
   */
  function SummaryError(col: Column, p: Parsers): Option<string> {
    if col.dtype == Object then p.summaryError(col.cells) else None
  }

  /** The lower-cased strings a boolean column may hold. */
  const BoolWords: set<string> := {"true", "false", "yes", "no", "y", "n", "1", "0", "t", "f"}

  /** `set(str(v).lower() for v in values)`. */
  function LoweredForms(vs: seq<Value>): set<string> {
    set v | v in vs :: Lower(Str(v))
  }

  /** At most two distinct forms, all of them boolean words. */
  predicate BooleanLike(vs: seq<Value>) {
    LoweredForms(vs) <= BoolWords && |LoweredForms(vs)| <= 2
  }

  /** Stored as text, and the first 100 non-null values parse as dates. */
  predicate DateText(col: Column, p: Parsers) {
    col.dtype == Object && p.parsesAsDates(Take(NonNull(col.cells), 100))
  }

  /** Stored as text, and the first 100 non-null values parse as numbers. */
  predicate NumberText(col: Column, p: Parsers) {
    col.dtype == Object && p.parsesAsNumbers(Take(NonNull(col.cells), 100))
  }

  /** `nunique / len(series)`, where the length counts the nulls too. */
  function Uniqueness(col: Column): real
    requires |col.cells| > 0
  {
    UniqueCount(col.cells) as real / |col.cells| as real
  }

  /**
   * `_infer_column_type`: a decision list whose first matching rule wins.
   * A column without non-null values is unknown before anything else.
   */
  function InferColumnType(col: Column, p: Parsers): (t: SemanticType)
    ensures t == Unknown <==> NullCount(col.cells) == |col.cells|
  {
    var nonNull := NonNull(col.cells);
    if |nonNull| == 0 then Unknown
    else if IsDatetimeDtype(col.dtype) then DateTime
    else if DateText(col, p) then DateTime
    else if IsNumericDtype(col.dtype) then Numeric
    else if NumberText(col, p) then Numeric
    else if BooleanLike(nonNull) then Boolean
    else if Uniqueness(col) > 0.95 then Identifier
    else if UniqueCount(col.cells) < 50 then Categorical
    else FreeText
  }

  /** The date evidence comes first: date-parsable text is never numeric. */
  lemma DateTextIsDateTime(col: Column, p: Parsers)
    requires NullCount(col.cells) < |col.cells|
    requires IsDatetimeDtype(col.dtype) || DateText(col, p)
    ensures InferColumnType(col, p) == DateTime
  {
  }

  /** A column is numeric exactly when it has numeric evidence and no date evidence. */
  lemma NumericIff(col: Column, p: Parsers)
    ensures InferColumnType(col, p) == Numeric <==>
      NullCount(col.cells) < |col.cells|
      && !IsDatetimeDtype(col.dtype) && !DateText(col, p)
      && (IsNumericDtype(col.dtype) || NumberText(col, p))
  {
  }

  /**
   * Once neither dates nor numbers fit, the column is boolean exactly
   * when its distinct lower-cased forms are at most two boolean words.
   */
  lemma BooleanIff(col: Column, p: Parsers)
    requires NullCount(col.cells) < |col.cells|
    requires !IsDatetimeDtype(col.dtype) && !DateText(col, p)
    requires !IsNumericDtype(col.dtype) && !NumberText(col, p)
    ensures InferColumnType(col, p) == Boolean <==> BooleanLike(NonNull(col.cells))
  {
  }

  /**
   * A column taken for an identifier has more than 95% distinct values;
   * so fewer than 5% of its cells are null.
   */
  lemma IdentifierIsNearlyUnique(col: Column, p: Parsers)
    requires InferColumnType(col, p) == Identifier
    ensures |col.cells| > 0 && Uniqueness(col) > 0.95
    ensures !BooleanLike(NonNull(col.cells))
    ensures (NullCount(col.cells) as real) < 0.05 * (|col.cells| as real)
  {
    assert UniqueCount(col.cells) + NullCount(col.cells) <= |col.cells|;
    FewNulls(UniqueCount(col.cells) as real, NullCount(col.cells) as real, |col.cells| as real);
  }

  lemma FewNulls(u: real, nulls: real, n: real)
    requires n > 0.0 && u / n > 0.95 && u + nulls <= n
    ensures nulls < 0.05 * n
  {
    RatioAbove(u, n, 0.95);
  }

  lemma RatioAbove(u: real, n: real, c: real)
    requires n > 0.0 && u / n > c
    ensures u > c * n
  {
    assert u == (u / n) * n;
  }

  /** Categorical and text are told apart by fewer than 50 distinct values. */
  lemma CategoricalOrText(col: Column, p: Parsers)
    requires InferColumnType(col, p) in {Categorical, FreeText}
    ensures |col.cells| > 0 && Uniqueness(col) <= 0.95
    ensures InferColumnType(col, p) == Categorical <==> UniqueCount(col.cells) < 50
  {
  }

  /** A text column holds at least 50 non-null values. */
  lemma FreeTextHasFiftyValues(col: Column, p: Parsers)
    requires InferColumnType(col, p) == FreeText
    ensures |NonNull(col.cells)| >= 50
  {
    DistinctBound(NonNull(col.cells));
  }

  // ---------------------------------------------------------------------
  // Column descriptors and the schema

  datatype Cardinality = Low | High

  /** The descriptor `_analyze_column` builds (summary statistics aside). */
  datatype ColumnInfo = ColumnInfo(
    name: string,
    dtype: string,
    nullCount: nat,
    nullPercentage: Option<real>,   // None: NaN, for a column without cells
    uniqueCount: nat,
    inferredType: SemanticType,
    sampleValues: seq<Value>,
    cardinality: Option<Cardinality>)  // set for categorical columns only

  /** The descriptor `_analyze_column` fills in for a column. */
  function Describe(col: Column, p: Parsers): (info: ColumnInfo)
    ensures info.name == col.name && info.inferredType == InferColumnType(col, p)
    ensures info.sampleValues == Take(NonNull(col.cells), 3)
    ensures info.nullCount + info.uniqueCount <= |col.cells|
    ensures info.nullPercentage.Some? ==> 0.0 <= info.nullPercentage.value <= 100.0
    ensures info.inferredType == Categorical <==> info.cardinality.Some?
    ensures info.inferredType == Categorical ==> info.cardinality == Some(Low)
  {
    var nulls := NullCount(col.cells);
    var unique := UniqueCount(col.cells);
    var t := InferColumnType(col, p);
    PercentageBounds(nulls, |col.cells|);
    ColumnInfo(
      col.name,
      DTypeName(col.dtype),
      nulls,
      if |col.cells| > 0 then Some(Percentage(nulls, |col.cells|)) else None,
      unique,
      t,
      Take(NonNull(col.cells), 3),
      if t == Categorical then Some(if unique > 50 then High else Low) else None)
  }

  /**
   * `_analyze_column`: the descriptor, unless the column is taken for
   * numeric and its summary raises, which the caller sees as the error.
   */
  function AnalyzeColumn(col: Column, p: Parsers): (r: Result<ColumnInfo, string>)
    ensures r.Failure? <==> InferColumnType(col, p) == Numeric && SummaryError(col, p).Some?
    ensures r.Failure? ==> col.dtype == Object && r.error == p.summaryError(col.cells).value
    ensures r.Success? ==> r.value == Describe(col, p)
  {
    var t := InferColumnType(col, p);
    if t == Numeric && SummaryError(col, p).Some? then Failure(SummaryError(col, p).value)
    else Success(Describe(col, p))
  }

  /** The values of a run of results, or the error of the first failure among them. */
  function Collect<T>(rs: seq<Result<T, string>>): (r: Result<seq<T>, string>)
    ensures r.Success? <==> forall j :: 0 <= j < |rs| ==> rs[j].Success?
    ensures r.Success? ==> |r.value| == |rs| && forall j :: 0 <= j < |rs| ==> rs[j] == Success(r.value[j])
    decreases |rs|
  {
    if |rs| == 0 then Success([])
    else
      var init := rs[..|rs| - 1];
      match Collect(init)
      case Failure(e) =>
        assert forall j :: 0 <= j < |init| ==> init[j] == rs[j];
        Failure(e)
      case Success(vs) =>
        match rs[|rs| - 1]
        case Failure(e) => Failure(e)
        case Success(v) => Success(vs + [v])
  }

  /** A failed run reports the error of its first failure, found at index `j`. */
  lemma {:induction false} CollectFirstFailure<T>(rs: seq<Result<T, string>>) returns (j: nat)
    requires Collect(rs).Failure?
    ensures j < |rs| && rs[j] == Failure(Collect(rs).error) && forall k :: 0 <= k < j ==> rs[k].Success?
    decreases |rs|
  {
    var init := rs[..|rs| - 1];
    assert forall k :: 0 <= k < |init| ==> rs[k] == init[k];
    if Collect(init).Failure? {
      j := CollectFirstFailure(init);
    } else {
      j := |rs| - 1;
    }
  }

  /** Once a prefix of the results fails, the whole run fails with the same error. */
  lemma {:induction false} FailureStands<T>(rs: seq<Result<T, string>>, n: nat)
    requires n <= |rs| && Collect(rs[..n]).Failure?
    ensures Collect(rs) == Collect(rs[..n])
    decreases |rs| - n
  {
    if n < |rs| {
      var init := rs[..|rs| - 1];
      assert init[..n] == rs[..n];
      FailureStands(init, n);
    } else {
      assert rs[..n] == rs;
    }
  }

  /**
   * One more result: a failure decides the whole run, a success extends
   * the collected values.
   */
  lemma CollectStep<T>(rs: seq<Result<T, string>>, j: nat, vs: seq<T>)
    requires j < |rs| && Collect(rs[..j]) == Success(vs)
    ensures rs[j].Failure? ==> Collect(rs) == Failure(rs[j].error)
    ensures rs[j].Success? ==> Collect(rs[..j + 1]) == Success(vs + [rs[j].value])
  {
    assert rs[..j + 1][..j] == rs[..j];
    if rs[j].Failure? {
      FailureStands(rs, j + 1);
    }
  }

  /** The analysis of every column of a frame, in column order. */
  function Analyses(df: Frame, p: Parsers): (rs: seq<Result<ColumnInfo, string>>)
    ensures |rs| == |df.columns|
  {
    seq(|df.columns|, j requires 0 <= j < |df.columns| => AnalyzeColumn(df.columns[j], p))
  }

  /** The `j`th analysis is that of the `j`th column. */
  lemma AnalysesAt(df: Frame, p: Parsers)
    ensures forall j :: 0 <= j < |df.columns| ==> Analyses(df, p)[j] == AnalyzeColumn(df.columns[j], p)
  {
  }

  /** The schema: one descriptor per column, in column order, and the frame's counts. */
  datatype Schema = Schema(columns: seq<ColumnInfo>, rowCount: nat, columnCount: nat)

  /**
   * The schema `_infer_schema` computes, or the error of the first column
   * whose analysis raises.
   */
  function SchemaOf(df: Frame, p: Parsers): (r: Result<Schema, string>)
    ensures r.Success? ==>
      |r.value.columns| == r.value.columnCount == |df.columns| && r.value.rowCount == df.rowCount
      && forall j :: 0 <= j < |df.columns| ==> r.value.columns[j].name == df.columns[j].name
  {
    match Collect(Analyses(df, p))
    case Failure(e) => Failure(e)
    case Success(infos) => Success(Schema(infos, df.rowCount, |df.columns|))
  }

  /**
   * The schema is built exactly when no column's analysis raises, and then
   * holds each column's descriptor in column order.
   */
  lemma SchemaOfIff(df: Frame, p: Parsers)
    ensures SchemaOf(df, p).Success? <==> forall j :: 0 <= j < |df.columns| ==> AnalyzeColumn(df.columns[j], p).Success?
    ensures SchemaOf(df, p).Success? ==>
      forall j :: 0 <= j < |df.columns| ==> SchemaOf(df, p).value.columns[j] == Describe(df.columns[j], p)
  {
    var rs := Analyses(df, p);
    AnalysesAt(df, p);
    if Collect(rs).Success? {
      assert forall j :: 0 <= j < |df.columns| ==> rs[j] == Success(SchemaOf(df, p).value.columns[j]);
    }
  }

  /**
   * A schema that cannot be built reports the error of the first column
   * whose analysis raises: the columns before it were all analysed.
   */
  lemma SchemaErrorIsFirstFailure(df: Frame, p: Parsers)
    requires SchemaOf(df, p).Failure?
    ensures exists j :: 0 <= j < |df.columns| && AnalyzeColumn(df.columns[j], p) == Failure(SchemaOf(df, p).error)
                        && forall k :: 0 <= k < j ==> AnalyzeColumn(df.columns[k], p).Success?
  {
    var rs := Analyses(df, p);
    AnalysesAt(df, p);
    var j := CollectFirstFailure(rs);
    assert AnalyzeColumn(df.columns[j], p) == Failure(SchemaOf(df, p).error);
  }

  /** `_infer_schema`: analyse the columns one after the other; the first error ends it. */
  method InferSchema(df: Frame, p: Parsers) returns (r: Result<Schema, string>)
    ensures r == SchemaOf(df, p)
  {
    ghost var rs := Analyses(df, p);
    AnalysesAt(df, p);
    var infos: seq<ColumnInfo> := [];
    for j := 0 to |df.columns|
      invariant Collect(rs[..j]) == Success(infos)
    {
      var analysed := AnalyzeColumn(df.columns[j], p);
      CollectStep(rs, j, infos);
      if analysed.Failure? {
        return Failure(analysed.error);
      }
      infos := infos + [analysed.value];
    }
    assert rs[..|df.columns|] == rs;
    r := Success(Schema(infos, df.rowCount, |df.columns|));
  }

  /** A frame with no column stored as text is always analysed completely. */
  lemma TypedFrameAnalyses(df: Frame, p: Parsers)
    requires forall j :: 0 <= j < |df.columns| ==> df.columns[j].dtype != Object
    ensures SchemaOf(df, p).Success?
  {
    SchemaOfIff(df, p);
  }

  /** Every descriptor's samples are non-null values of its column. */
  lemma SchemaSamples(df: Frame, p: Parsers, j: nat)
    requires j < |df.columns| && SchemaOf(df, p).Success?
    ensures |SchemaOf(df, p).value.columns[j].sampleValues| <= 3
    ensures forall v :: v in SchemaOf(df, p).value.columns[j].sampleValues ==> Some(v) in df.columns[j].cells
  {
    SchemaOfIff(df, p);
    var vs := NonNull(df.columns[j].cells);
    assert forall v :: v in Take(vs, 3) ==> v in vs;
  }

  // ---------------------------------------------------------------------
  // Quality profile

  /** `_profile_data`'s statistics (memory usage aside). */
  datatype Stats = Stats(
    rowCount: nat,
    columnCount: nat,
    totalCells: nat,
    missingCells: nat,
    duplicateRows: nat,
    missingPercentage: real,
    duplicatePercentage: real,
    qualityScore: real)

  /** `part / whole * 100`, or 0 when there is nothing to divide by. */
  function Percentage(part: nat, whole: nat): real {
    if whole > 0 then part as real / whole as real * 100.0 else 0.0
  }

  lemma PercentageBounds(part: nat, whole: nat)
    requires part <= whole
    ensures 0.0 <= Percentage(part, whole) <= 100.0
    ensures Percentage(part, whole) == 0.0 <==> part == 0
  {
    if whole > 0 {
      RatioAtMostOne(part as real, whole as real);
    }
  }

  lemma RatioAtMostOne(a: real, b: real)
    requires 0.0 <= a <= b && b > 0.0
    ensures 0.0 <= a / b <= 1.0
    ensures a / b == 0.0 <==> a == 0.0
  {
    assert a == (a / b) * b;
  }

  /** Completeness weighs 0.6 and uniqueness 0.4. */
  function QualityScore(missingPercentage: real, duplicatePercentage: real): real {
    (100.0 - missingPercentage) * 0.6 + (100.0 - duplicatePercentage) * 0.4
  }

  /** `_profile_data`. */
  function ProfileData(df: Frame): (s: Stats)
    ensures s.rowCount == df.rowCount && s.columnCount == |df.columns|
    ensures s.totalCells == df.rowCount * |df.columns|
    ensures s.missingCells <= s.totalCells && s.duplicateRows <= s.rowCount
  {
    var total := df.rowCount * |df.columns|;
    var missing := MissingCells(df.columns);
    var duplicates := DuplicateRows(df);
    MissingCellsBound(df.columns, df.rowCount);
    assert |df.columns| * df.rowCount == total;
    var mp := Percentage(missing, total);
    var dp := Percentage(duplicates, df.rowCount);
    Stats(df.rowCount, |df.columns|, total, missing, duplicates, mp, dp, QualityScore(mp, dp))
  }

  /** The score always lies between 0 and 100. */
  lemma QualityScoreBounds(df: Frame)
    ensures 0.0 <= ProfileData(df).qualityScore <= 100.0
  {
    var s := ProfileData(df);
    PercentageBounds(s.missingCells, s.totalCells);
    PercentageBounds(s.duplicateRows, s.rowCount);
  }

  /** The score is 100 exactly when no cell is missing and no row is duplicated. */
  lemma QualityScorePerfectIff(df: Frame)
    ensures ProfileData(df).qualityScore == 100.0 <==>
      ProfileData(df).missingCells == 0 && ProfileData(df).duplicateRows == 0
  {
    var s := ProfileData(df);
    PercentageBounds(s.missingCells, s.totalCells);
    PercentageBounds(s.duplicateRows, s.rowCount);
  }

  /** So a perfect score means null-free columns and pairwise different rows. */
  lemma QualityScorePerfectMeaning(df: Frame)
    requires ProfileData(df).qualityScore == 100.0
    ensures forall j :: 0 <= j < |df.columns| ==> NullCount(df.columns[j].cells) == 0
    ensures forall i, j :: 0 <= j < i < df.rowCount ==> Row(df, j) != Row(df, i)
  {
    QualityScorePerfectIff(df);
    NoMissingCellsIff(df.columns);
    NoDuplicatesIff(df, df.rowCount);
  }

  // ---------------------------------------------------------------------
  // Loading

  /** The last path component, ignoring trailing slashes. */
  function BaseName(path: string): string {
    if |path| > 0 && path[|path| - 1] == '/' then BaseName(path[..|path| - 1])
    else path[RFind(path, '/') + 1..]
  }

  /** `pathlib.Path(path).suffix`: from the last dot of the name, unless it starts or ends the name. */
  function Suffix(path: string): (ext: string)
    ensures ext == [] || (ext[0] == '.' && |ext| >= 2)
  {
    var name := BaseName(path);
    var i := RFind(name, '.');
    if 0 < i < |name| - 1 then name[i..] else ""
  }

  /** The two parsers, as calls that either yield a frame or raise. */
  datatype Readers = Readers(readCsv: string -> Result<Frame, string>, readExcel: string -> Result<Frame, string>)

  /** The suffixes `_load_file` hands to the Excel reader. */
  predicate IsExcelSuffix(ext: string) {
    ext == ".xlsx" || ext == ".xls"
  }

  /** The suffixes `_load_file` has a reader for. */
  predicate IsKnownSuffix(ext: string) {
    ext == ".csv" || IsExcelSuffix(ext)
  }

  /** `_load_file`: dispatch on the lower-cased suffix, then reject empty frames. */
  function LoadFile(path: string, readers: Readers): (r: Result<Frame, string>)
    ensures r.Success? ==> !IsEmpty(r.value)
    ensures !IsKnownSuffix(Lower(Suffix(path))) ==>
      r == Failure("Unsupported file format: " + Lower(Suffix(path)))
  {
    var ext := Lower(Suffix(path));
    if ext == ".csv" then NonEmpty(readers.readCsv(path))
    else if IsExcelSuffix(ext) then NonEmpty(readers.readExcel(path))
    else Failure("Unsupported file format: " + ext)
  }

  /** A `.csv` name (in any case) is read by the CSV reader, an Excel name by the Excel reader. */
  lemma LoadFileDispatch(path: string, readers: Readers)
    ensures Lower(Suffix(path)) == ".csv" ==>
      LoadFile(path, readers) == NonEmpty(readers.readCsv(path))
    ensures IsExcelSuffix(Lower(Suffix(path))) ==>
      LoadFile(path, readers) == NonEmpty(readers.readExcel(path))
  {
  }

  /** A reader's outcome with empty frames turned into a failure. */
  function NonEmpty(loaded: Result<Frame, string>): (r: Result<Frame, string>)
    ensures r.Success? ==> !IsEmpty(r.value)
  {
    match loaded
    case Failure(e) => Failure(e)
    case Success(df) => if IsEmpty(df) then Failure("File is empty") else Success(df)
  }

  // ---------------------------------------------------------------------
  // The log and the pipeline

  /** `_log`'s entry: `"action: details"`, or the action alone. */
  function LogEntry(action: string, details: string): string {
    if details != "" then action + ": " + details else action
  }

  /** `f"{x:.1f}"` for an exact value: one decimal, ties to even. */
  function FormatOneDecimal(x: real): (r: string)
    ensures forall k :: 0 <= k < |r| ==> r[k] == '-' || r[k] == '.' || '0' <= r[k] <= '9'
  {
    var a := if x < 0.0 then -x else x;
    var t := a * 10.0;
    var f := t.Floor;
    var frac := t - f as real;
    var n := if frac > 0.5 || (frac == 0.5 && f % 2 == 1) then f + 1 else f;
    (if x < 0.0 then "-" else "") + NatToString(n / 10) + "." + [DigitChar(n % 10)]
  }

  /**
   * The three entries a successful run appends, in order. The schema
   * then describes every column, so it counts as many as the frame has.
   */
  function CleanLog(df: Frame): seq<string> {
    LogEntries(df.rowCount, |df.columns|, |df.columns|, ProfileData(df).qualityScore)
  }

  /** The entry that follows a successful load of `rows` by `cols`. */
  function LoadedEntry(rows: nat, cols: nat): string {
    LogEntry("File loaded successfully", NatToString(rows) + " rows, " + NatToString(cols) + " columns")
  }

  /** The entries for a frame of `rows` by `cols`, `analyzed` columns in the schema, and the score. */
  function LogEntries(rows: nat, cols: nat, analyzed: nat, score: real): seq<string> {
    [ LoadedEntry(rows, cols),
      LogEntry("Schema inferred", NatToString(analyzed) + " columns analyzed"),
      LogEntry("Data profiled", "Quality score: " + FormatOneDecimal(score) + "/100") ]
  }

  /** Only digits, signs and points: no line break. */
  lemma NumeralNoNewline(s: string)
    requires forall k :: 0 <= k < |s| ==> s[k] == '-' || s[k] == '.' || '0' <= s[k] <= '9'
    ensures '\n' !in s
  {
  }

  lemma LogEntryNoNewline(action: string, details: string)
    requires '\n' !in action && '\n' !in details
    ensures '\n' !in LogEntry(action, details)
  {
  }

  lemma LoadedEntryNoNewline(rows: nat, cols: nat)
    ensures '\n' !in LoadedEntry(rows, cols)
  {
    NumeralNoNewline(NatToString(rows));
    NumeralNoNewline(NatToString(cols));
    LogEntryNoNewline("File loaded successfully", NatToString(rows) + " rows, " + NatToString(cols) + " columns");
  }

  lemma SchemaEntryNoNewline(analyzed: nat)
    ensures '\n' !in LogEntry("Schema inferred", NatToString(analyzed) + " columns analyzed")
  {
    NumeralNoNewline(NatToString(analyzed));
    LogEntryNoNewline("Schema inferred", NatToString(analyzed) + " columns analyzed");
  }

  lemma ProfileEntryNoNewline(score: real)
    ensures '\n' !in LogEntry("Data profiled", "Quality score: " + FormatOneDecimal(score) + "/100")
  {
    NumeralNoNewline(FormatOneDecimal(score));
    LogEntryNoNewline("Data profiled", "Quality score: " + FormatOneDecimal(score) + "/100");
  }

  lemma LogEntriesNoNewline(rows: nat, cols: nat, analyzed: nat, score: real)
    ensures |LogEntries(rows, cols, analyzed, score)| == 3
    ensures forall k :: 0 <= k < 3 ==> '\n' !in LogEntries(rows, cols, analyzed, score)[k]
  {
    LoadedEntryNoNewline(rows, cols);
    SchemaEntryNoNewline(analyzed);
    ProfileEntryNoNewline(score);
  }

  /** None of the pipeline's entries contains a line break. */
  lemma CleanLogNoNewline(df: Frame)
    ensures |CleanLog(df)| == 3
    ensures forall k :: 0 <= k < 3 ==> '\n' !in CleanLog(df)[k]
  {
    LogEntriesNoNewline(df.rowCount, |df.columns|, |df.columns|, ProfileData(df).qualityScore);
  }

  /** Appending three entries one at a time appends the three of them. */
  lemma AppendThree(log: seq<string>, entries: seq<string>)
    requires |entries| == 3
    ensures log + [entries[0]] + [entries[1]] + [entries[2]] == log + entries
  {
  }

  /** What `clean` returns. */
  datatype CleanResult = CleanResult(
    cleanedFrame: Frame,
    cleaningLog: seq<string>,
    qualityScore: real,
    schema: Schema,
    stats: Stats)

  /** The file loads and the analysis of every column completes. */
  predicate CleanSucceeds(filepath: string, readers: Readers, p: Parsers) {
    LoadFile(filepath, readers).Success? && SchemaOf(LoadFile(filepath, readers).value, p).Success?
  }

  /** The cleaning pipeline object. */
  class DataCleaner {
    var cleaningLog: seq<string>
    var dfOriginal: Option<Frame>
    var dfCleaned: Option<Frame>
    var schema: Option<Schema>
    var qualityScore: real

    constructor ()
      ensures cleaningLog == [] && dfOriginal == None && dfCleaned == None
      ensures schema == None && qualityScore == 0.0
    {
      cleaningLog := [];
      dfOriginal := None;
      dfCleaned := None;
      schema := None;
      qualityScore := 0.0;
    }

    /** `_log`: append one entry, leaving earlier ones as they are. */
    method Log(action: string, details: string)
      modifies this`cleaningLog
      ensures cleaningLog == old(cleaningLog) + [LogEntry(action, details)]
    {
      var entry := if details != "" then action + ": " + details else action;
      cleaningLog := cleaningLog + [entry];
    }

    /**
     * `clean`: load, infer the schema, profile; the cleaned frame is a
     * copy of the loaded one. A load failure is re-raised with the object
     * unchanged; an analysis that raises is re-raised once the loaded
     * frame is kept and its entry logged.
     */
    method Clean(filepath: string, readers: Readers, p: Parsers) returns (r: Result<CleanResult, string>)
      modifies this
      ensures LoadFile(filepath, readers).Failure? ==>
        r == Failure(LoadFile(filepath, readers).error)
        && cleaningLog == old(cleaningLog) && dfOriginal == old(dfOriginal) && dfCleaned == old(dfCleaned)
        && schema == old(schema) && qualityScore == old(qualityScore)
      ensures LoadFile(filepath, readers).Success? && !CleanSucceeds(filepath, readers, p) ==>
        var df := LoadFile(filepath, readers).value;
        r == Failure(SchemaOf(df, p).error) && dfOriginal == Some(df)
        && cleaningLog == old(cleaningLog) + [LoadedEntry(df.rowCount, |df.columns|)]
        && dfCleaned == old(dfCleaned) && schema == old(schema) && qualityScore == old(qualityScore)
      ensures CleanSucceeds(filepath, readers, p) ==>
        var df := LoadFile(filepath, readers).value;
        dfOriginal == Some(df) && dfCleaned == Some(df) && schema == Some(SchemaOf(df, p).value)
        && qualityScore == ProfileData(df).qualityScore
        && cleaningLog == old(cleaningLog) + CleanLog(df)
        && r == Success(CleanResult(df, cleaningLog, qualityScore, SchemaOf(df, p).value, ProfileData(df)))
    {
      var loaded := LoadFile(filepath, readers);
      if loaded.Failure? {
        return Failure(loaded.error);
      }
      var df := loaded.value;
      ghost var log0 := cleaningLog;
      dfOriginal := Some(df);
      Log("File loaded successfully",
          NatToString(df.rowCount) + " rows, " + NatToString(|df.columns|) + " columns");
      var inferred := InferSchema(df, p);
      if inferred.Failure? {
        assert !CleanSucceeds(filepath, readers, p);
        return Failure(inferred.error);
      }
      assert CleanSucceeds(filepath, readers, p);
      var s := inferred.value;
      schema := Some(s);
      Log("Schema inferred", NatToString(|s.columns|) + " columns analyzed");
      var stats := ProfileData(df);
      Log("Data profiled", "Quality score: " + FormatOneDecimal(stats.qualityScore) + "/100");
      AppendThree(log0, LogEntries(df.rowCount, |df.columns|, |s.columns|, stats.qualityScore));
      dfCleaned := Some(df);
      qualityScore := stats.qualityScore;
      r := Success(CleanResult(df, cleaningLog, qualityScore, s, stats));
    }
  }
}
