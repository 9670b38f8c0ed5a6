/**
 * The cleaner's behaviour on the small frames and columns its unit tests
 * use.
 */
module CleanerExamples {
  import opened Common
  import opened Text
  import opened Frames
  import opened Cleaner

  /** `pd.Series([1, 2, 3, 4, 5])` is numeric. */
  lemma IntegerSeriesIsNumeric(col: Column, p: Parsers)
    requires col == Column("0", Int64, [Some(IntV(1)), Some(IntV(2)), Some(IntV(3)), Some(IntV(4)), Some(IntV(5))])
    ensures InferColumnType(col, p) == Numeric
  {
    assert NonNull(col.cells)[0] == IntV(1);
  }

  /** A value whose lower-cased form is no boolean word rules the boolean type out. */
  lemma ForeignWordNotBoolean(vs: seq<Value>, v: Value)
    requires v in vs && Lower(Str(v)) !in BoolWords
    ensures !BooleanLike(vs)
  {
    assert Lower(Str(v)) in LoweredForms(vs);
  }

  lemma LetterDistinct(vs: seq<Value>)
    requires vs == [StrV("A"), StrV("B"), StrV("A"), StrV("C"), StrV("B"), StrV("A")]
    ensures |Distinct(vs)| == 3
  {
    assert Distinct(vs) == {StrV("A"), StrV("B"), StrV("C")};
  }

  lemma LetterNotBoolean(vs: seq<Value>)
    requires vs == [StrV("A"), StrV("B"), StrV("A"), StrV("C"), StrV("B"), StrV("A")]
    ensures !BooleanLike(vs)
  {
    var a := StrV("A");
    assert a == vs[0];
    assert Lower(Str(a)) == "a";
    ForeignWordNotBoolean(vs, a);
  }

  /** Few distinct values and no stronger evidence: categorical. */
  lemma CategoricalWhen(col: Column, p: Parsers)
    requires NullCount(col.cells) < |col.cells|
    requires !IsDatetimeDtype(col.dtype) && !DateText(col, p)
    requires !IsNumericDtype(col.dtype) && !NumberText(col, p)
    requires !BooleanLike(NonNull(col.cells)) && Uniqueness(col) <= 0.95 && UniqueCount(col.cells) < 50
    ensures InferColumnType(col, p) == Categorical
  {
  }

  /** All of a short sequence is within the first 100. */
  lemma TakeShort(vs: seq<Value>)
    requires |vs| <= 100
    ensures Take(vs, 100) == vs
  {
  }

  lemma LetterClassification(col: Column, p: Parsers, vs: seq<Value>)
    requires vs == [StrV("A"), StrV("B"), StrV("A"), StrV("C"), StrV("B"), StrV("A")]
    requires NonNull(col.cells) == vs && |col.cells| == 6 && col.dtype == Object
    requires !p.parsesAsDates(vs) && !p.parsesAsNumbers(vs)
    ensures InferColumnType(col, p) == Categorical
  {
    TakeShort(vs);
    LetterNotBoolean(vs);
    LetterDistinct(vs);
    assert UniqueCount(col.cells) == 3;
    assert Uniqueness(col) == 3.0 / 6.0;
    CategoricalWhen(col, p);
  }

  /**
   * `pd.Series(['A', 'B', 'A', 'C', 'B', 'A'])` is categorical: neither
   * parser accepts the letters, they are no boolean words, and 3 distinct
   * values out of 6 are far from an identifier.
   */
  lemma LetterSeriesIsCategorical(col: Column, p: Parsers, vs: seq<Value>)
    requires vs == [StrV("A"), StrV("B"), StrV("A"), StrV("C"), StrV("B"), StrV("A")]
    requires col == Column("0", Object, Present(vs))
    requires !p.parsesAsDates(vs) && !p.parsesAsNumbers(vs)
    ensures InferColumnType(col, p) == Categorical
  {
    NonNullPresent(vs);
    LetterClassification(col, p, vs);
  }

  lemma YesNoForms(vs: seq<Value>)
    requires vs == [StrV("Yes"), StrV("No"), StrV("Yes"), StrV("No")]
    ensures LoweredForms(vs) == {"yes", "no"}
  {
    assert Lower(Str(StrV("Yes"))) == "yes";
    assert Lower(Str(StrV("No"))) == "no";
    assert forall v :: v in vs ==> v == StrV("Yes") || v == StrV("No");
    assert vs[0] == StrV("Yes") && vs[1] == StrV("No");
  }

  lemma YesNoBooleanLike(vs: seq<Value>)
    requires vs == [StrV("Yes"), StrV("No"), StrV("Yes"), StrV("No")]
    ensures BooleanLike(vs)
  {
    YesNoForms(vs);
    assert "yes" in BoolWords && "no" in BoolWords;
  }

  lemma YesNoClassification(col: Column, p: Parsers, vs: seq<Value>)
    requires vs == [StrV("Yes"), StrV("No"), StrV("Yes"), StrV("No")]
    requires NonNull(col.cells) == vs && col.dtype == Object
    requires !p.parsesAsDates(vs) && !p.parsesAsNumbers(vs)
    ensures InferColumnType(col, p) == Boolean
  {
    TakeShort(vs);
    YesNoBooleanLike(vs);
    BooleanIff(col, p);
  }

  /** `pd.Series(['Yes', 'No', 'Yes', 'No'])` is boolean. */
  lemma YesNoSeriesIsBoolean(col: Column, p: Parsers, vs: seq<Value>)
    requires vs == [StrV("Yes"), StrV("No"), StrV("Yes"), StrV("No")]
    requires col == Column("0", Object, Present(vs))
    requires !p.parsesAsDates(vs) && !p.parsesAsNumbers(vs)
    ensures InferColumnType(col, p) == Boolean
  {
    NonNullPresent(vs);
    YesNoClassification(col, p, vs);
  }

  /** The frame with `None` once in each of its two columns has 2 missing cells out of 10. */
  lemma MissingDataFrame(df: Frame)
    requires df == Table([
      Column("A", Float64, [Some(FloatV("1.0")), Some(FloatV("2.0")), None, Some(FloatV("4.0")), Some(FloatV("5.0"))]),
      Column("B", Object, [Some(StrV("x")), Some(StrV("y")), Some(StrV("z")), None, Some(StrV("w"))])], 5)
    ensures ProfileData(df).missingCells == 2
    ensures ProfileData(df).missingPercentage > 0.0
  {
    assert NullCount(df.columns[0].cells) == 1;
    assert NullCount(df.columns[1].cells) == 1;
    assert MissingCells(df.columns) == 2;
  }

  /** In the frame whose third row repeats the first, exactly one row is a duplicate. */
  lemma DuplicateRowFrame(df: Frame)
    requires df == Table([
      Column("A", Int64, [Some(IntV(1)), Some(IntV(2)), Some(IntV(1)), Some(IntV(4))]),
      Column("B", Object, [Some(StrV("x")), Some(StrV("y")), Some(StrV("x")), Some(StrV("z"))])], 4)
    ensures ProfileData(df).duplicateRows == 1
    ensures ProfileData(df).duplicatePercentage > 0.0
  {
    assert Row(df, 0)[0] == Some(IntV(1));
    assert Row(df, 1)[0] == Some(IntV(2));
    assert Row(df, 2)[0] == Some(IntV(1));
    assert Row(df, 3)[0] == Some(IntV(4));
    assert !IsDuplicateRow(df, 0);
    assert !IsDuplicateRow(df, 1);
    assert Row(df, 2) == Row(df, 0);
    assert IsDuplicateRow(df, 2);
    assert !IsDuplicateRow(df, 3);
  }

  /**
   * A text column whose first hundred values read as numbers, but whose
   * summary raises (a later value that is not a number), fails its
   * analysis with that error, and with it the whole schema.
   */
  lemma NumberTextSummaryFails(df: Frame, p: Parsers, j: nat, msg: string)
    requires j < |df.columns| && df.columns[j].dtype == Object
    requires NullCount(df.columns[j].cells) < |df.columns[j].cells|
    requires !p.parsesAsDates(Take(NonNull(df.columns[j].cells), 100))
    requires p.parsesAsNumbers(Take(NonNull(df.columns[j].cells), 100))
    requires p.summaryError(df.columns[j].cells) == Some(msg)
    ensures AnalyzeColumn(df.columns[j], p) == Failure(msg)
    ensures SchemaOf(df, p).Failure?
  {
    NumericIff(df.columns[j], p);
    SchemaOfIff(df, p);
  }
}
