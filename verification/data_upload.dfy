/** The decision logic of the chiller dashboard's data-upload component:
    the format and structure validator, the column-type classifier of the
    upload summary, the checks run after the file is read for display, and
    the timestamped name under which an upload is saved.

    pandas itself is not modelled. A parse is an abstract `ParseOutcome`: the
    parsed table, described by the facts the checks look at, or the kind of
    exception the reader raised together with its message text. */
module DataUpload {
  import opened Wrappers
  import opened Strings
  import opened PathNames

  // ---------------------------------------------------------------------
  // Tables and parse outcomes
  // ---------------------------------------------------------------------

  /** One column of a parsed DataFrame: its name (as `str(col)`), the text of
      its dtype (`str(df[col].dtype)`), and whether
      `select_dtypes(include=['number'])` selects it. */
  datatype Column = Column(name: string, dtype: string, isNumber: bool)

  /** The facts about a parsed DataFrame the upload component inspects. */
  datatype Table = Table(rows: nat, columns: seq<Column>)

  /** The exceptions the validator tells apart. */
  datatype ReadError = EmptyDataError | ParserError | OtherError

  /** What the pandas reader produced. */
  datatype ParseOutcome = Parsed(table: Table) | Raised(error: ReadError, message: string)

  /** The reader a file is handed to. */
  datatype Reader = CsvReader | ExcelReader

  /** An upload as the validator sees it: the file name, the stream position
      on entry, what the reader returns for this file, and where that reader
      leaves the stream. */
  datatype Upload = Upload(name: string, position: nat, outcome: ParseOutcome, positionAfterRead: nat)

  /** The dictionary `{'valid': ..., 'errors': [...]}`. */
  datatype ValidationResult = ValidationResult(valid: bool, errors: seq<string>)

  /** One run of the validator: the result it returns, the reader it
      consulted (`None` when no parse was attempted), and the stream position
      when it returns. */
  datatype Validation = Validation(result: ValidationResult, reader: Option<Reader>, position: nat)

  /** The number of columns `select_dtypes(include=['number'])` keeps. */
  function NumberCount(cols: seq<Column>): (n: nat)
    ensures n <= |cols|
    ensures n == 0 <==> forall i :: 0 <= i < |cols| ==> !cols[i].isNumber
    decreases |cols|
  {
    if |cols| == 0 then 0
    else (if cols[0].isNumber then 1 else 0) + NumberCount(cols[1..])
  }

  /** A single column counts once exactly when it is a number. */
  lemma NumberCountOne(c: Column)
    ensures NumberCount([c]) == if c.isNumber then 1 else 0
  {
  }

  /** The count of a concatenation is the sum of the counts: together with
      `NumberCountOne`, this fixes `NumberCount` as the number of columns
      that are numbers, `len(select_dtypes(include=['number']).columns)`. */
  lemma {:induction false} NumberCountAppend(a: seq<Column>, b: seq<Column>)
    ensures NumberCount(a + b) == NumberCount(a) + NumberCount(b)
    decreases |a|
  {
    if |a| > 0 {
      assert (a + b)[1..] == a[1..] + b;
      NumberCountAppend(a[1..], b);
    } else {
      assert a + b == b;
    }
  }

  /** The column names, in column order. */
  function ColumnNames(t: Table): (names: seq<string>)
    ensures |names| == |t.columns|
    ensures forall i :: 0 <= i < |names| ==> names[i] == t.columns[i].name
  {
    seq(|t.columns|, i requires 0 <= i < |t.columns| => t.columns[i].name)
  }

  // ---------------------------------------------------------------------
  // validate_file_format
  // ---------------------------------------------------------------------

  const AllowedExtensions: seq<string> := [".csv", ".xlsx", ".xls"]

  const CsvEmptyMessage: string := "CSV file is empty"
  const CsvParseMessage: string := "CSV file has parsing errors"
  const FileEmptyMessage: string := "File is empty"
  const NoColumnsMessage: string := "File has no columns"
  const NoNumericMessage: string := "File must have at least 1 numeric column for analysis"

  function UnsupportedMessage(ext: string): string {
    "Unsupported file format: " + ext
  }

  function ExcelErrorMessage(message: string): string {
    "Excel file error: " + message
  }

  function ReadErrorMessage(message: string): string {
    "Error reading file: " + message
  }

  /** The lower-cased extension the validator tests. */
  function FileExtension(name: string): (ext: string)
    ensures |ext| == |SplitExt(name).1|
    ensures forall k :: 0 <= k < |ext| ==> ext[k] == LowerChar(SplitExt(name).1[k])
    ensures ext == [] || ext[0] == ExtSep
    ensures forall k :: 1 <= k < |ext| ==> ext[k] != ExtSep && !IsUpperAscii(ext[k])
  {
    Lower(SplitExt(name).1)
  }

  /** The reader chosen for an accepted extension. */
  function ReaderFor(ext: string): Reader {
    if ext == ".csv" then CsvReader else ExcelReader
  }

  /** The result the validator starts from. */
  const Fresh: ValidationResult := ValidationResult(true, [])

  /** Records one error: every append goes with `valid = False`. */
  function AddError(r: ValidationResult, message: string): (r': ValidationResult)
    ensures !r'.valid
    ensures |r'.errors| == |r.errors| + 1
    ensures r'.errors[..|r.errors|] == r.errors && r'.errors[|r.errors|] == message
  {
    ValidationResult(false, r.errors + [message])
  }

  /** A table passes the three structural checks. */
  predicate Usable(t: Table) {
    t.rows > 0 && |t.columns| > 0 && NumberCount(t.columns) >= 1
  }

  /** The three independent checks after a successful parse, each appending
      its own error. */
  function StructuralChecks(t: Table): (r: ValidationResult)
    ensures r.valid <==> r.errors == []
    ensures r.valid <==> Usable(t)
  {
    var r1 := if t.rows == 0 then AddError(Fresh, FileEmptyMessage) else Fresh;
    var r2 := if |t.columns| == 0 then AddError(r1, NoColumnsMessage) else r1;
    if NumberCount(t.columns) < 1 then AddError(r2, NoNumericMessage) else r2
  }

  /** `validate_file_format`, with the reader consulted and the final stream
      position made explicit. */
  function Validate(u: Upload): (v: Validation)
    ensures v.result.valid <==> v.result.errors == []
    ensures 1 <= |v.result.errors| || v.result.valid
    ensures |v.result.errors| <= 3
    ensures FileExtension(u.name) !in AllowedExtensions <==> v.reader.None?
    ensures v.reader.Some? ==> v.reader.value == ReaderFor(FileExtension(u.name))
    ensures v.result.valid <==>
              FileExtension(u.name) in AllowedExtensions && u.outcome.Parsed? && Usable(u.outcome.table)
  {
    var ext := FileExtension(u.name);
    if ext !in AllowedExtensions then
      Validation(AddError(Fresh, UnsupportedMessage(ext)), None, u.position)
    else if ext == ".csv" then
      match u.outcome
      case Raised(EmptyDataError, _) =>
        Validation(AddError(Fresh, CsvEmptyMessage), Some(CsvReader), u.positionAfterRead)
      case Raised(ParserError, _) =>
        Validation(AddError(Fresh, CsvParseMessage), Some(CsvReader), u.positionAfterRead)
      case Raised(OtherError, message) =>
        // Caught by the outer handler, which rewinds the stream.
        Validation(AddError(Fresh, ReadErrorMessage(message)), Some(CsvReader), 0)
      case Parsed(t) =>
        Validation(StructuralChecks(t), Some(CsvReader), 0)
    else
      match u.outcome
      case Raised(_, message) =>
        Validation(AddError(Fresh, ExcelErrorMessage(message)), Some(ExcelReader), u.positionAfterRead)
      case Parsed(t) =>
        Validation(StructuralChecks(t), Some(ExcelReader), 0)
  }

  /** The dictionary `validate_file_format` returns. */
  function ValidateFileFormat(u: Upload): (r: ValidationResult)
    ensures r.valid <==> r.errors == []
  {
    Validate(u).result
  }

  // ---------------------------------------------------------------------
  // Properties of the validator
  // ---------------------------------------------------------------------

  /** An extension outside the allowed three ends validation at once with
      exactly one error naming it; no reader runs and the stream is not
      touched. */
  lemma UnsupportedShortCircuits(u: Upload)
    requires FileExtension(u.name) !in AllowedExtensions
    ensures Validate(u) == Validation(ValidationResult(false, [UnsupportedMessage(FileExtension(u.name))]), None, u.position)
  {
  }

  /** The format gate looks at the extension only up to ASCII case: two names
      whose extensions differ only in case are accepted or refused together,
      and handed to the same reader. */
  lemma ExtensionGateIgnoresCase(a: Upload, b: Upload)
    requires Lower(SplitExt(a.name).1) == Lower(SplitExt(b.name).1)
    ensures Validate(a).reader == Validate(b).reader
    ensures Validate(a).reader.None? ==> Validate(a).result == Validate(b).result
  {
  }

  /** A plain name: a stem without dots or slashes followed by one
      extension. `splitext` splits it back into exactly those two parts. */
  lemma SplitPlainName(stem: string, ext: string)
    requires |stem| > 0 && forall k :: 0 <= k < |stem| ==> stem[k] != ExtSep && stem[k] != Sep
    requires |ext| > 0 && ext[0] == ExtSep
    requires forall k :: 1 <= k < |ext| ==> ext[k] != ExtSep && ext[k] != Sep
    ensures SplitExt(stem + ext) == (stem, ext)
  {
    var p := stem + ext;
    assert p[|stem|] == ExtSep;
    forall k | |stem| < k < |p| ensures p[k] != ExtSep { assert p[k] == ext[k - |stem|]; }
    LastIndexOfIs(p, ExtSep, |stem|);
    LastIndexOfAppend(stem, ext[1..], Sep);
    assert p == stem + [ext[0]] + ext[1..];
    LastIndexOfAppend(stem, [ext[0]], Sep);
    LastIndexOfAppend(stem + [ext[0]], ext[1..], Sep);
    assert LastIndexOf(p, Sep) == -1;
    assert p[0] == stem[0];
    assert NonDotBetween(p, 0, |stem|);
    assert p[..|stem|] == stem && p[|stem|..] == ext;
  }

  /** Upper- and mixed-case spellings pass the gate. */
  lemma MixedCaseExtensionsAccepted()
    ensures FileExtension("plant.CSV") == ".csv"
    ensures FileExtension("plant.Xlsx") == ".xlsx"
    ensures FileExtension("plant.XLS") == ".xls"
  {
    SplitPlainName("plant", ".CSV");
    assert "plant" + ".CSV" == "plant.CSV";
    assert Lower(".CSV") == ".csv";
    SplitPlainName("plant", ".Xlsx");
    assert "plant" + ".Xlsx" == "plant.Xlsx";
    assert Lower(".Xlsx") == ".xlsx";
    SplitPlainName("plant", ".XLS");
    assert "plant" + ".XLS" == "plant.XLS";
    assert Lower(".XLS") == ".xls";
  }

  /** A CSV the reader rejects as empty or malformed yields exactly the one
      matching error; no structural check runs. */
  lemma CsvReadFailuresAreExact(u: Upload)
    requires FileExtension(u.name) == ".csv"
    ensures u.outcome.Raised? && u.outcome.error == EmptyDataError ==>
              Validate(u).result == ValidationResult(false, [CsvEmptyMessage])
    ensures u.outcome.Raised? && u.outcome.error == ParserError ==>
              Validate(u).result == ValidationResult(false, [CsvParseMessage])
  {
  }

  /** Position in the fixed order of the structural messages. */
  function StructuralRank(message: string): int {
    if message == FileEmptyMessage then 0
    else if message == NoColumnsMessage then 1
    else if message == NoNumericMessage then 2
    else 3
  }

  /** The structural errors are exactly the failed checks, each present iff
      its condition holds, in the order empty, no columns, no numeric column. */
  lemma StructuralChecksInOrder(t: Table)
    ensures var errors := StructuralChecks(t).errors;
      && (FileEmptyMessage in errors <==> t.rows == 0)
      && (NoColumnsMessage in errors <==> |t.columns| == 0)
      && (NoNumericMessage in errors <==> NumberCount(t.columns) < 1)
      && (forall i :: 0 <= i < |errors| ==> StructuralRank(errors[i]) < 3)
      && (forall i, j :: 0 <= i < j < |errors| ==> StructuralRank(errors[i]) < StructuralRank(errors[j]))
  {
    var a := if t.rows == 0 then [FileEmptyMessage] else [];
    var b := if |t.columns| == 0 then [NoColumnsMessage] else [];
    var c := if NumberCount(t.columns) < 1 then [NoNumericMessage] else [];
    assert StructuralChecks(t).errors == a + b + c;
    assert StructuralRank(FileEmptyMessage) == 0;
    assert StructuralRank(NoColumnsMessage) == 1;
    assert StructuralRank(NoNumericMessage) == 2;
  }

  /** After a successful parse the validator reports exactly the failed
      structural checks, in their fixed order. */
  lemma StructuralErrorsAccumulate(u: Upload)
    requires FileExtension(u.name) in AllowedExtensions && u.outcome.Parsed?
    ensures Validate(u).result == StructuralChecks(u.outcome.table)
    ensures var t := u.outcome.table; var errors := Validate(u).result.errors;
      && (FileEmptyMessage in errors <==> t.rows == 0)
      && (NoColumnsMessage in errors <==> |t.columns| == 0)
      && (NoNumericMessage in errors <==> NumberCount(t.columns) < 1)
  {
    StructuralChecksInOrder(u.outcome.table);
  }

  /** The two messages that carry the exception text: any Excel reader
      error, and a CSV reader error other than empty-data or parser error,
      which the outer handler catches. Each is the only error. */
  lemma ReaderExceptionMessages(u: Upload)
    requires FileExtension(u.name) in AllowedExtensions && u.outcome.Raised?
    ensures FileExtension(u.name) != ".csv" ==>
              Validate(u).result == ValidationResult(false, [ExcelErrorMessage(u.outcome.message)])
    ensures FileExtension(u.name) == ".csv" && u.outcome.error == OtherError ==>
              Validate(u).result == ValidationResult(false, [ReadErrorMessage(u.outcome.message)])
  {
  }

  /** On a successful parse, and when the CSV reader raises anything other
      than an empty-data or parser error, the stream is rewound to 0. */
  lemma PositionResetOnParsedAndGenericPaths(u: Upload)
    requires FileExtension(u.name) in AllowedExtensions
    requires u.outcome.Parsed? || (FileExtension(u.name) == ".csv" && u.outcome.error == OtherError)
    ensures Validate(u).position == 0
  {
  }

  /** The other failure paths return without rewinding: the stream stays
      where the reader left it. */
  lemma PositionKeptOnEarlyReturns(u: Upload)
    requires FileExtension(u.name) in AllowedExtensions && u.outcome.Raised?
    requires FileExtension(u.name) != ".csv" || u.outcome.error != OtherError
    ensures Validate(u).position == u.positionAfterRead
  {
  }

  /** A column whose `isNumber` fact agrees with its dtype text, as pandas
      guarantees: int64 and float64 are numbers, object and datetime dtypes
      are not. */
  predicate ConsistentColumn(c: Column) {
    && (c.dtype == "int64" || c.dtype == "float64" ==> c.isNumber)
    && (c.dtype == "object" ==> !c.isNumber)
    && (Contains(c.dtype, "datetime") ==> !c.isNumber)
  }

  /** A table of text columns only fails the numeric-column check. */
  lemma TextOnlyTableRejected(u: Upload)
    requires FileExtension(u.name) in AllowedExtensions && u.outcome.Parsed?
    requires forall i :: 0 <= i < |u.outcome.table.columns| ==>
               u.outcome.table.columns[i].dtype == "object" && ConsistentColumn(u.outcome.table.columns[i])
    ensures !Validate(u).result.valid
    ensures NoNumericMessage in Validate(u).result.errors
  {
  }

  // ---------------------------------------------------------------------
  // display_upload_status: the column-type classifier
  // ---------------------------------------------------------------------

  datatype ColumnKind = Numeric | Text | DateTime | Other

  /** The first matching rule decides: int64/float64, then object, then any
      dtype text containing "datetime", then everything else. */
  function Classify(dtype: string): (kind: ColumnKind)
    ensures dtype == "int64" || dtype == "float64" ==> kind == Numeric
    ensures dtype == "object" ==> kind == Text
    ensures kind == DateTime ==> Contains(dtype, "datetime")
    ensures kind == Other ==> dtype !in ["int64", "float64", "object"] && !Contains(dtype, "datetime")
  {
    if dtype == "int64" || dtype == "float64" then Numeric
    else if dtype == "object" then Text
    else if Contains(dtype, "datetime") then DateTime
    else Other
  }

  /** Each kind characterised on its own: the earlier rules never shadow the
      datetime rule, because none of their dtype texts contains "datetime". */
  lemma ClassifyByDtype(dtype: string)
    ensures Classify(dtype) == Numeric <==> dtype == "int64" || dtype == "float64"
    ensures Classify(dtype) == Text <==> dtype == "object"
    ensures Classify(dtype) == DateTime <==> Contains(dtype, "datetime")
    ensures Classify(dtype) == Other <==>
              dtype !in ["int64", "float64", "object"] && !Contains(dtype, "datetime")
  {
  }

  /** One row of the "Column Names" table. */
  datatype ColumnInfo = ColumnInfo(column: string, kind: ColumnKind, dataType: string)

  /** The figures and the column table `display_upload_status` shows. */
  datatype Summary = Summary(rows: nat, columns: nat, numericColumns: nat, columnTypes: seq<ColumnInfo>)

  /** The column table, one row per column in column order. */
  function ColumnTypes(cols: seq<Column>): (infos: seq<ColumnInfo>)
    ensures |infos| == |cols|
    ensures forall i :: 0 <= i < |cols| ==>
              infos[i].column == cols[i].name && infos[i].dataType == cols[i].dtype
    ensures forall i :: 0 <= i < |cols| ==> infos[i].kind == Classify(cols[i].dtype)
  {
    seq(|cols|, i requires 0 <= i < |cols| => ColumnInfo(cols[i].name, Classify(cols[i].dtype), cols[i].dtype))
  }

  function Describe(t: Table): (s: Summary)
    ensures s.rows == t.rows && s.columns == |t.columns| == |s.columnTypes|
    ensures s.numericColumns == NumberCount(t.columns) <= s.columns
    ensures s.columnTypes == ColumnTypes(t.columns)
  {
    Summary(t.rows, |t.columns|, NumberCount(t.columns), ColumnTypes(t.columns))
  }

  /** The number of rows of the column table marked with `kind`. */
  function CountKind(infos: seq<ColumnInfo>, kind: ColumnKind): (n: nat)
    ensures n <= |infos|
    ensures n == 0 <==> forall i :: 0 <= i < |infos| ==> infos[i].kind != kind
    decreases |infos|
  {
    if |infos| == 0 then 0
    else (if infos[0].kind == kind then 1 else 0) + CountKind(infos[1..], kind)
  }

  /** The summary marks no more columns "Numeric" than the numeric-column
      metric counts: the classifier only names int64 and float64, while the
      metric counts every number dtype. */
  lemma {:induction false} NumericKindAtMostNumberCount(cols: seq<Column>)
    requires forall i :: 0 <= i < |cols| ==> ConsistentColumn(cols[i])
    ensures CountKind(ColumnTypes(cols), Numeric) <= NumberCount(cols)
    decreases |cols|
  {
    if |cols| > 0 {
      var infos := ColumnTypes(cols);
      assert infos[1..] == ColumnTypes(cols[1..]);
      NumericKindAtMostNumberCount(cols[1..]);
      assert infos[0].kind == Numeric ==> cols[0].isNumber;
    }
  }

  /** An int32 column is a number to the validator but "Other" to the
      classifier, so a table can pass validation while its summary shows no
      "Numeric" column. */
  lemma Int32PassesButIsNotShownNumeric()
    ensures var t := Table(1, [Column("load", "int32", true)]);
      && Usable(t)
      && CountKind(Describe(t).columnTypes, Numeric) == 0
  {
  }

  // ---------------------------------------------------------------------
  // render_data_upload: the checks after the file is read for display
  // ---------------------------------------------------------------------

  const UnnamedPrefix: string := "Unnamed"

  /** The length of `[col for col in df.columns if str(col).startswith('Unnamed')]`. */
  function CountUnnamed(names: seq<string>): (n: nat)
    ensures n <= |names|
    ensures n == 0 <==> forall i :: 0 <= i < |names| ==> !StartsWith(names[i], UnnamedPrefix)
    decreases |names|
  {
    if |names| == 0 then 0
    else (if StartsWith(names[0], UnnamedPrefix) then 1 else 0) + CountUnnamed(names[1..])
  }

  /** Counting the unnamed columns and comparing with the column count is the
      same as asking that every name start with "Unnamed". */
  lemma {:induction false} CountUnnamedIsAll(names: seq<string>)
    ensures CountUnnamed(names) == |names| <==> forall i :: 0 <= i < |names| ==> StartsWith(names[i], UnnamedPrefix)
    decreases |names|
  {
    if |names| > 0 {
      CountUnnamedIsAll(names[1..]);
      assert forall i :: 1 <= i < |names| ==> names[i] == names[1..][i - 1];
    }
  }

  /** What happens to a table read for display. */
  datatype ReadVerdict = NoData | NoColumns | Ready(allUnnamedWarning: bool)

  /** `df.empty` holds when either axis has length 0. */
  predicate IsEmptyFrame(t: Table) {
    t.rows == 0 || |t.columns| == 0
  }

  /** The checks in order: no data, no columns, then the all-unnamed header
      warning, which does not stop the table from being used. */
  function AfterRead(t: Table): (v: ReadVerdict)
    ensures v == NoData <==> IsEmptyFrame(t)
    ensures v != NoColumns
    ensures v.Ready? ==> 0 < |t.columns| && (v.allUnnamedWarning <==> CountUnnamed(ColumnNames(t)) == |t.columns|)
  {
    if IsEmptyFrame(t) then NoData
    else if |t.columns| == 0 then NoColumns
    else
      var names := ColumnNames(t);
      Ready(CountUnnamed(names) == |names|)
  }

  /** The warning fires iff the table is non-empty and every column name
      starts with "Unnamed"; since it needs a column, it is never vacuous. */
  lemma UnnamedWarningIff(t: Table)
    ensures AfterRead(t).Ready? <==> t.rows > 0 && |t.columns| > 0
    ensures AfterRead(t) == Ready(true) <==>
              && t.rows > 0 && |t.columns| > 0
              && forall i :: 0 <= i < |t.columns| ==> StartsWith(t.columns[i].name, UnnamedPrefix)
  {
    CountUnnamedIsAll(ColumnNames(t));
  }

  /** The "no columns" branch is dead: `df.empty` already covers a table
      without columns. */
  lemma NoColumnsBranchUnreachable(t: Table)
    ensures AfterRead(t) != NoColumns
    ensures |t.columns| == 0 ==> AfterRead(t) == NoData
  {
  }

  /** A header "Unnamed: 0,Unnamed: 1" over one row of numbers validates and
      raises the header warning. */
  lemma UnnamedHeaderScenario(u: Upload)
    requires FileExtension(u.name) == ".csv"
    requires u.outcome == Parsed(Table(1, [Column("Unnamed: 0", "int64", true), Column("Unnamed: 1", "float64", true)]))
    ensures Validate(u).result.valid
    ensures AfterRead(u.outcome.table) == Ready(true)
  {
  }

  /** The reader `render_data_upload` picks, as written: `read_csv` only when
      the name ends in exactly ".csv", `read_excel` otherwise. */
  function RenderReaderAsWritten(name: string): (r: Reader)
    ensures SplitExt(name).1 == ".csv" ==> r == CsvReader
  {
    if EndsWith(name, ".csv") then CsvReader else ExcelReader
  }

  /** "DATA.CSV" passes validation as a CSV but is then handed to the Excel
      reader. */
  lemma RenderReaderMismatch()
    ensures FileExtension("DATA.CSV") == ".csv"
    ensures ReaderFor(FileExtension("DATA.CSV")) == CsvReader
    ensures RenderReaderAsWritten("DATA.CSV") == ExcelReader
  {
    SplitPlainName("DATA", ".CSV");
    assert "DATA" + ".CSV" == "DATA.CSV";
    assert Lower(".CSV") == ".csv";
  }

  /** The extension sits at the end of the name. */
  lemma ExtensionIsSuffix(name: string)
    ensures |SplitExt(name).1| <= |name|
    ensures name[|name| - |SplitExt(name).1|..] == SplitExt(name).1
  {
    var (root, ext) := SplitExt(name);
    assert name[|root|..] == ext;
  }

  /** Lower-casing a text lower-cases each of its suffixes. */
  lemma LowerOfSuffix(text: string, n: nat)
    requires n <= |text|
    ensures Lower(text)[|text| - n..] == Lower(text[|text| - n..])
  {
  }

  /** A text ending in an allowed extension ends in ".csv" exactly when
      that extension is ".csv". */
  lemma AllowedSuffixIsCsv(text: string, ext: string)
    requires ext in AllowedExtensions
    requires |ext| <= |text| && text[|text| - |ext|..] == ext
    ensures EndsWith(text, ".csv") <==> ext == ".csv"
  {
    if ext != ".csv" {
      assert text[|text| - 1] == ext[|ext| - 1] != 'v';
    }
  }

  /** A text ending in `ext`, where `ext` lower-cases to an allowed
      extension, lower-cases to a text ending in ".csv" exactly when that
      extension is ".csv". */
  lemma LoweredSuffixIsCsv(text: string, ext: string)
    requires |ext| <= |text| && text[|text| - |ext|..] == ext
    requires Lower(ext) in AllowedExtensions
    ensures EndsWith(Lower(text), ".csv") <==> Lower(ext) == ".csv"
  {
    LowerOfSuffix(text, |ext|);
    AllowedSuffixIsCsv(Lower(text), Lower(ext));
  }

  /** The name ends in ".csv" up to ASCII case exactly when an allowed
      extension lower-cases to ".csv". */
  lemma LoweredCsvSuffix(name: string)
    requires FileExtension(name) in AllowedExtensions
    ensures EndsWith(Lower(name), ".csv") <==> FileExtension(name) == ".csv"
  {
    ExtensionIsSuffix(name);
    LoweredSuffixIsCsv(name, SplitExt(name).1);
  }

  /** A text ending in `ext`, where `ext` lower-cases to an allowed
      extension, ends in exactly ".csv" iff that extension is ".csv" and `ext`
      is ".csv" itself. */
  lemma ExactCsvSuffix(text: string, ext: string, low: string)
    requires low in AllowedExtensions
    requires |ext| == |low| && forall k :: 0 <= k < |ext| ==> low[k] == LowerChar(ext[k])
    requires |ext| <= |text| && text[|text| - |ext|..] == ext
    ensures EndsWith(text, ".csv") <==> low == ".csv" && ext == ".csv"
  {
    if low != ".csv" {
      assert text[|text| - 1] == ext[|ext| - 1];
      assert LowerChar(ext[|ext| - 1]) != 'v';
    }
  }

  /** The as-written choice disagrees with the validator's reader exactly
      when the extension is ".csv" only up to case: a name with an allowed
      extension goes to the wrong reader iff its extension lower-cases to
      ".csv" but is not ".csv" itself. */
  lemma RenderReaderDisagreesExactly(name: string)
    requires FileExtension(name) in AllowedExtensions
    ensures RenderReaderAsWritten(name) != ReaderFor(FileExtension(name)) <==>
              FileExtension(name) == ".csv" && SplitExt(name).1 != ".csv"
  {
    ExtensionIsSuffix(name);
    ExactCsvSuffix(name, SplitExt(name).1, FileExtension(name));
  }

  /** The reader choice corrected: `read_csv` when the lower-cased name ends
      in ".csv", as the validator's lower-cased extension test decides. */
  function RenderReader(name: string): Reader {
    if EndsWith(Lower(name), ".csv") then CsvReader else ExcelReader
  }

  /** With the corrected choice, every upload the validator accepts is read
      for display by the reader the validator tried. */
  lemma RenderReaderAgreesWithValidation(u: Upload)
    requires Validate(u).result.valid
    ensures Validate(u).reader == Some(RenderReader(u.name))
  {
    LoweredCsvSuffix(u.name);
  }

  // ---------------------------------------------------------------------
  // save_uploaded_file: the saved name
  // ---------------------------------------------------------------------

  const DefaultUploadDir: string := "../data/uploads/"

  predicate IsDigit(c: char) {
    '0' <= c <= '9'
  }

  /** Text shaped like `strftime("%Y%m%d_%H%M%S")`: eight digits, an
      underscore, six digits. */
  predicate IsTimestamp(ts: string) {
    && |ts| == 15 && ts[8] == '_'
    && forall k :: 0 <= k < 15 && k != 8 ==> IsDigit(ts[k])
  }

  /** `f"{base_name}_{timestamp}{extension}"`. */
  function SaveName(name: string, timestamp: string): (saved: string)
    ensures |saved| == |name| + 1 + |timestamp|
    ensures StartsWith(saved, SplitExt(name).0 + "_" + timestamp)
    ensures EndsWith(saved, SplitExt(name).1)
  {
    SplitExt(name).0 + "_" + timestamp + SplitExt(name).1
  }

  /** The path the upload is written to. */
  function SavePath(uploadDir: string, name: string, timestamp: string): (path: string)
    ensures EndsWith(path, SaveName(name, timestamp))
    ensures !StartsWith(SaveName(name, timestamp), [Sep]) ==> StartsWith(path, uploadDir)
  {
    Join(uploadDir, SaveName(name, timestamp))
  }

  /** The saved name splits back into the original base name with the
      timestamp attached, and the original extension: the timestamp can be
      read back and the extension survives. */
  lemma SaveNameRoundTrip(name: string, timestamp: string)
    requires IsTimestamp(timestamp)
    ensures SplitExt(SaveName(name, timestamp)) == (SplitExt(name).0 + "_" + timestamp, SplitExt(name).1)
    ensures SplitExt(SaveName(name, timestamp)).0 == SplitExt(name).0 + "_" + timestamp
  {
    var tag := "_" + timestamp;
    assert forall k :: 1 <= k < |tag| ==> tag[k] == timestamp[k - 1];
    assert IsPlainTag(tag);
    SplitExtAfterTag(name, tag);
    var root := SplitExt(name).0;
    assert root + "_" + timestamp == root + tag;
    assert SaveName(name, timestamp) == root + tag + SplitExt(name).1;
  }

  /** A saved copy passes the format gate exactly when the original did, and
      goes to the same reader. */
  lemma SavedCopyValidatesLikeOriginal(name: string, timestamp: string)
    requires IsTimestamp(timestamp)
    ensures FileExtension(SaveName(name, timestamp)) == FileExtension(name)
  {
    SaveNameRoundTrip(name, timestamp);
  }

  /** Under the default directory a plain file name is saved directly inside
      it, keeping its extension. */
  lemma DefaultSavePath(name: string, timestamp: string)
    requires IsTimestamp(timestamp)
    requires forall k :: 0 <= k < |name| ==> name[k] != Sep
    ensures SavePath(DefaultUploadDir, name, timestamp) == DefaultUploadDir + SaveName(name, timestamp)
    ensures EndsWith(SavePath(DefaultUploadDir, name, timestamp), SplitExt(name).1)
  {
    var s := SaveName(name, timestamp);
    var root := SplitExt(name).0;
    if |root| > 0 {
      assert s[0] == root[0] == name[0];
    } else {
      assert s[0] == '_';
    }
    assert !StartsWith(s, [Sep]);
    assert EndsWith(DefaultUploadDir, [Sep]);
    var p := DefaultUploadDir + s;
    var ext := SplitExt(name).1;
    assert p[|p| - |ext|..] == ext;
  }
}
