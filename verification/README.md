# Chiller dashboard upload validation and RP4 tariff catalog, in Dafny

This project models two independent pieces of decision logic from the chiller-plant
energy dashboard.

- **The data-upload component.** It covers `validate_file_format`, which decides whether an
  uploaded CSV or Excel file can be analysed. It also covers the column-type classifier of the
  upload summary, the checks `render_data_upload` runs after reading the file (including the
  "all columns unnamed" header warning), and the timestamped name `save_uploaded_file` saves
  under. pandas is not modelled. A parse is an abstract `ParseOutcome`. It is either the parsed
  table, described by its row count and its columns (name, dtype text, and whether
  `select_dtypes(include=['number'])` keeps it), or the kind of exception the reader raised,
  with its message text.
- **The RP4 tariff catalog.** `TARIFF_DATA` is a constant nested table: customer class, then
  tariff group, then a list of plans. Each plan has its rates and billing rules. Classes, groups,
  voltages, plan types and charge bases are enumerations. Rates are integers in
  ten-thousandths, so 0.2703 is 2703. `Lookup` and `LookupPlan` read the table.

Files:

- `wrappers.dfy`: `Option`.
- `strings.dfy`: the Python `str` operations used by the component: ASCII lower-casing,
  `startswith`, `endswith`, substring `in`, and `rfind`.
- `paths.dfy`: POSIX `os.path.splitext` and `os.path.join`.
- `data_upload.dfy`: the upload component.
- `assoc_lists.dfy`: lookup by key in an insertion-ordered key/value list, which is how a
  Python dict literal is represented here.
- `rp4_tariffs.dfy`: the catalog and its lemmas.

`Validate` returns the validator's dictionary. It also returns which reader was consulted and
the stream position at return, so that "no parse is attempted" and "the stream is rewound" can
be stated. The stream is rewound to 0 before any reader runs (line 137). Before returning, it is
rewound on only two paths. One is after a successful parse (line 176). The other is when the CSV
reader raises something other than an empty-data or parser error, which the outer handler
catches (line 183). The returns at lines 146, 150 and 157 leave the stream where the reader left
it (`PositionResetOnParsedAndGenericPaths`, `PositionKeptOnEarlyReturns`). The caller rewinds
again before it reads, so this is harmless there.

In the tariff table, the Non Domestic rule records have no `"tiered"` key at all. Only the
domestic plan has one. So `Rules.tiered` is an `Option<bool>`, and `None` means the key is
absent. The catalog's `None` charge basis is `Basis.NoBasis`.

## Model

| member | source | states |
|---|---|---|
| `DataUpload.Validate` | energyanalaysis/chiller-energy-dashboard/src/components/data_upload.py:111-187 | valid iff no errors; at most three errors; no reader is consulted exactly when the lower-cased extension is not allowed; the reader otherwise is CSV for ".csv" and Excel for the rest; valid iff the extension is allowed, the parse succeeded, and the table has rows, columns and a numeric column |
| `DataUpload.ValidateFileFormat` | energyanalaysis/chiller-energy-dashboard/src/components/data_upload.py:121-124 | the returned dictionary has valid true exactly when its error list is empty |
| `DataUpload.AddError` | energyanalaysis/chiller-energy-dashboard/src/components/data_upload.py:130-132 | every append also sets valid to false; earlier errors are kept and the new one goes last |
| `DataUpload.StructuralChecks` | energyanalaysis/chiller-energy-dashboard/src/components/data_upload.py:159-173 | the structural checks pass (no error, valid) exactly when there are rows, columns and at least one number column |
| `DataUpload.NumberCount` | energyanalaysis/chiller-energy-dashboard/src/components/data_upload.py:170-171 | the numeric-column count is at most the column count, and is zero exactly when no column is a number |
| `DataUpload.NumberCountOne` | energyanalaysis/chiller-energy-dashboard/src/components/data_upload.py:62-63 | a single column is counted once exactly when it is a number |
| `DataUpload.NumberCountAppend` | energyanalaysis/chiller-energy-dashboard/src/components/data_upload.py:62-63 | the count of two column lists joined is the sum of their counts; with `NumberCountOne`, the count is exactly the number of columns that are numbers, as `len(numeric_cols)` shows |
| `DataUpload.UnsupportedShortCircuits` | energyanalaysis/chiller-energy-dashboard/src/components/data_upload.py:127-133 | an unsupported extension gives valid false and exactly one error, "Unsupported file format: " plus the lower-cased extension; no reader runs and the stream position is unchanged |
| `DataUpload.ExtensionGateIgnoresCase` | energyanalaysis/chiller-energy-dashboard/src/components/data_upload.py:128 | two names whose extensions differ only in ASCII case get the same reader, and the same rejection when refused |
| `DataUpload.MixedCaseExtensionsAccepted` | energyanalaysis/chiller-energy-dashboard/src/components/data_upload.py:127-130 | ".CSV", ".Xlsx" and ".XLS" lower-case to allowed extensions |
| `DataUpload.SplitPlainName` | energyanalaysis/chiller-energy-dashboard/src/components/data_upload.py:128 | a dot-free, slash-free stem followed by one extension splits back into exactly those parts |
| `DataUpload.ReaderExceptionMessages` | energyanalaysis/chiller-energy-dashboard/src/components/data_upload.py:151-183 | any Excel reader error gives exactly ["Excel file error: " + message], and a CSV reader error other than empty-data or parser error gives exactly ["Error reading file: " + message] |
| `DataUpload.CsvReadFailuresAreExact` | energyanalaysis/chiller-energy-dashboard/src/components/data_upload.py:140-150 | for a CSV, an empty-data error gives exactly ["CSV file is empty"] and a parser error exactly ["CSV file has parsing errors"] |
| `DataUpload.StructuralChecksInOrder` | energyanalaysis/chiller-energy-dashboard/src/components/data_upload.py:159-173 | "File is empty" appears iff there are no rows, "File has no columns" iff there are no columns, the numeric message iff there is no number column; nothing else appears, and the messages keep that fixed order |
| `DataUpload.StructuralErrorsAccumulate` | energyanalaysis/chiller-energy-dashboard/src/components/data_upload.py:158-173 | after a successful parse, the validator's result is exactly the structural-check result, with each message present iff its condition holds |
| `DataUpload.PositionResetOnParsedAndGenericPaths` | energyanalaysis/chiller-energy-dashboard/src/components/data_upload.py:175-185 | after a successful parse, and after a CSV reader error other than empty-data or parser error, the stream position is 0 on return |
| `DataUpload.PositionKeptOnEarlyReturns` | energyanalaysis/chiller-energy-dashboard/src/components/data_upload.py:140-157 | the early returns after a CSV empty-data or parser error, or an Excel reader error, leave the stream where the reader left it |
| `DataUpload.TextOnlyTableRejected` | energyanalaysis/chiller-energy-dashboard/src/components/data_upload.py:169-173 | a parsed table whose columns all have dtype object fails, with the numeric-column message |
| `DataUpload.FileExtension` | energyanalaysis/chiller-energy-dashboard/src/components/data_upload.py:128 | the tested extension is the `splitext` extension with each character lower-cased: same length, each character `LowerChar` of the original's; so it is empty or starts with one dot, and holds no other dot and no ASCII capital |
| `DataUpload.Classify` | energyanalaysis/chiller-energy-dashboard/src/components/data_upload.py:68-77 | int64 and float64 are Numeric and object is Text; DateTime only when the dtype text contains "datetime"; Other only when no rule matches |
| `DataUpload.ClassifyByDtype` | energyanalaysis/chiller-energy-dashboard/src/components/data_upload.py:68-77 | Numeric iff dtype is int64 or float64; Text iff object; DateTime iff the dtype text contains "datetime"; Other iff none of these |
| `DataUpload.ColumnTypes` | energyanalaysis/chiller-energy-dashboard/src/components/data_upload.py:66-78 | one row per column, in column order, carrying the column's name, its classified kind and its dtype text |
| `DataUpload.Describe` | energyanalaysis/chiller-energy-dashboard/src/components/data_upload.py:52-81 | the summary shows the table's row count, its column count, `NumberCount` of the columns, which `NumberCountOne` and `NumberCountAppend` fix as the number of columns `select_dtypes` keeps as numbers (never more than the column count), and the column table of `ColumnTypes` |
| `DataUpload.NumericKindAtMostNumberCount` | energyanalaysis/chiller-energy-dashboard/src/components/data_upload.py:62-77 | for dtype-consistent columns, the number of columns shown as "Numeric" is at most the numeric-column metric |
| `DataUpload.Int32PassesButIsNotShownNumeric` | energyanalaysis/chiller-energy-dashboard/src/components/data_upload.py:62-77 | a table whose only column is an int32 number passes the structural checks, but the summary shows no "Numeric" column |
| `DataUpload.CountUnnamed` | energyanalaysis/chiller-energy-dashboard/src/components/data_upload.py:279 | the unnamed count is at most the number of names, and is zero exactly when no name starts with "Unnamed" |
| `DataUpload.AfterRead` | energyanalaysis/chiller-energy-dashboard/src/components/data_upload.py:269-282 | "no data" exactly when the frame is empty (no rows or no columns); the "no columns" verdict never occurs; a ready table has a column, and warns exactly when the unnamed count equals the column count |
| `DataUpload.CountUnnamedIsAll` | energyanalaysis/chiller-energy-dashboard/src/components/data_upload.py:279-280 | the unnamed-column count equals the column count iff every name starts with "Unnamed" |
| `DataUpload.UnnamedWarningIff` | energyanalaysis/chiller-energy-dashboard/src/components/data_upload.py:269-282 | the table is accepted for display iff it has rows and columns; the header warning fires iff, in addition, every column name starts with "Unnamed" (never vacuously) |
| `DataUpload.NoColumnsBranchUnreachable` | energyanalaysis/chiller-energy-dashboard/src/components/data_upload.py:270-276 | the "no columns" error is never reached, because a frame without columns is already empty |
| `DataUpload.UnnamedHeaderScenario` | energyanalaysis/chiller-energy-dashboard/src/components/data_upload.py:269-282 | a CSV with header "Unnamed: 0,Unnamed: 1" over one numeric row validates, and the header warning fires |
| `DataUpload.RenderReaderAsWritten` | energyanalaysis/chiller-energy-dashboard/src/components/data_upload.py:234 | the display step's reader choice as written: a name whose extension is exactly ".csv" goes to the CSV reader |
| `DataUpload.RenderReaderDisagreesExactly` | energyanalaysis/chiller-energy-dashboard/src/components/data_upload.py:234 | for a name with an allowed extension, the as-written display reader differs from the validator's exactly when the extension lower-cases to ".csv" without being ".csv" itself; every other accepted name gets the same reader |
| `DataUpload.RenderReaderMismatch` | energyanalaysis/chiller-energy-dashboard/src/components/data_upload.py:234 | "DATA.CSV" is validated as a CSV, but the as-written display step hands it to the Excel reader |
| `DataUpload.LoweredCsvSuffix` | energyanalaysis/chiller-energy-dashboard/src/components/data_upload.py:234 | for a name with an allowed extension, the lower-cased name ends in ".csv" exactly when the validator's extension is ".csv" |
| `DataUpload.RenderReaderAgreesWithValidation` | energyanalaysis/chiller-energy-dashboard/src/components/data_upload.py:234-258 | with the corrected reader choice (`read_csv` when the lower-cased name ends in ".csv"), every upload the validator accepts is read for display by the reader the validator tried |
| `DataUpload.SaveName` | energyanalaysis/chiller-energy-dashboard/src/components/data_upload.py:97-101 | the saved name is one underscore and the timestamp longer than the original; it starts with the base name, "_" and the timestamp, and ends with the original extension |
| `DataUpload.SavePath` | energyanalaysis/chiller-energy-dashboard/src/components/data_upload.py:103 | the path ends with the saved name, and starts with the upload directory unless the saved name is absolute |
| `DataUpload.SaveNameRoundTrip` | energyanalaysis/chiller-energy-dashboard/src/components/data_upload.py:97-101 | the saved name splits into the original base name plus "_" plus the timestamp, and the original extension |
| `DataUpload.SavedCopyValidatesLikeOriginal` | energyanalaysis/chiller-energy-dashboard/src/components/data_upload.py:98-101 | the saved name has the same lower-cased extension as the original |
| `DataUpload.DefaultSavePath` | energyanalaysis/chiller-energy-dashboard/src/components/data_upload.py:83-103 | under the default "../data/uploads/" directory, a slash-free name is saved directly inside it, and the path ends in the original extension |
| `PathNames.SplitExt` | energyanalaysis/chiller-energy-dashboard/src/components/data_upload.py:99-100 | root followed by extension rebuilds the name; the extension is empty, or is one leading dot followed by no dot or slash. A non-empty extension starts at the last dot, which lies after the last slash with a non-dot character between them. The extension is empty only when no dot after the last slash has a non-dot character before it in that component |
| `PathNames.Join` | energyanalaysis/chiller-energy-dashboard/src/components/data_upload.py:103 | an absolute name replaces the directory. Otherwise the result is the directory followed by the name, with a "/" inserted exactly when the directory is non-empty and does not already end in one |
| `PathNames.SplitExtAfterTag` | energyanalaysis/chiller-energy-dashboard/src/components/data_upload.py:99-101 | inserting a dot- and slash-free tag between root and extension leaves the extension in place and appends the tag to the root |
| `Strings.Lower` | energyanalaysis/chiller-energy-dashboard/src/components/data_upload.py:128 | same length, each character lower-cased, and no ASCII capital remains |
| `Strings.Contains` | energyanalaysis/chiller-energy-dashboard/src/components/data_upload.py:74 | true iff some window of the text equals the pattern |
| `Strings.LastIndexOf` | energyanalaysis/chiller-energy-dashboard/src/components/data_upload.py:128 | the `rfind` that `splitext` uses to find the last separator and the last dot: -1 exactly when the character is absent; otherwise an index holding it with no occurrence after it |
| `AssocLists.Find` | tariffs/rp4_tariffs.py:1-142 | subscription of the dict literal: no value exactly when no entry has the key; a found value is paired with the key in some entry |
| `RP4Tariffs.GetTariffData` | tariffs/rp4_tariffs.py:144-145 | the function returns the `TARIFF_DATA` constant itself, which has two classes, unique keys at both levels, and unique plan names within each group |
| `RP4Tariffs.ParseClass` | tariffs/rp4_tariffs.py:2-21 | the class key text maps back to exactly its class, and no other text maps to a class |
| `RP4Tariffs.ParseGroup` | tariffs/rp4_tariffs.py:4-139 | each group key text maps back to exactly its group, and no other text maps to a group |
| `RP4Tariffs.CatalogKeys` | tariffs/rp4_tariffs.py:1-142 | both classes are catalog keys; Residential has only the Domestic group key, Business every group key except Domestic |
| `RP4Tariffs.Lookup` | tariffs/rp4_tariffs.py:1-142 | a plan list exists exactly for Residential/Domestic and for Business with every group other than Domestic; other pairs are missing keys |
| `RP4Tariffs.LookupPlan` | tariffs/rp4_tariffs.py:24-130 | a plan found by name has that name and belongs to the looked-up group |
| `RP4Tariffs.LookupHasUniqueNames` | tariffs/rp4_tariffs.py:1-142 | every plan list found by class and group has distinct plan names |
| `RP4Tariffs.LookupPlanFindsEveryPlan` | tariffs/rp4_tariffs.py:23-130 | looking up any plan of a group by its own name returns that plan |
| `RP4Tariffs.TariffDataWellFormed` | tariffs/rp4_tariffs.py:1-142 | the constant has unique class keys, unique group keys and unique plan names |
| `RP4Tariffs.DomesticHasOnlyBlockTariff` | tariffs/rp4_tariffs.py:4-18 | Residential/Domestic holds exactly "Domestic Block Tariff": empty rates, tiered, both bases None, no peak split, no fuel adjustment |
| `RP4Tariffs.NonDomesticHasSixPlans` | tariffs/rp4_tariffs.py:23-130 | Business/Non Domestic holds exactly six plans, with distinct names |
| `RP4Tariffs.NonDomesticCoversEveryCombination` | tariffs/rp4_tariffs.py:26-128 | every combination of Low/Medium/High Voltage and General/TOU has a Non Domestic plan |
| `RP4Tariffs.NonDomesticCombinationsDistinct` | tariffs/rp4_tariffs.py:26-128 | no two Non Domestic plans share a voltage and type; with six plans and six combinations, each combination has exactly one plan |
| `RP4Tariffs.TouIffPeakSplit` | tariffs/rp4_tariffs.py:26-128 | for each Non Domestic plan: TOU iff peak split iff the rates name Peak and OffPeak but not Energy; not split iff Energy but neither Peak nor OffPeak |
| `RP4Tariffs.ChargeBasisByVoltageAndType` | tariffs/rp4_tariffs.py:35-125 | capacity basis equals network basis; kWh at low voltage, kW for MV/HV General, kW (peak only) for MV/HV TOU |
| `RP4Tariffs.AfaByVoltage` | tariffs/rp4_tariffs.py:35-127 | the fuel adjustment applies iff the voltage is not low; no Non Domestic plan carries a "tiered" key |
| `RP4Tariffs.PlaceholderGroupsAreEmpty` | tariffs/rp4_tariffs.py:132-139 | the eight other Business groups exist and look up to the empty list, not to a missing key |
| `RP4Tariffs.LowVoltageGeneralRates` | tariffs/rp4_tariffs.py:25-41 | Low Voltage General is found by name, with Energy 2703, Capacity 883, Network 1482 and Retail 200000 ten-thousandths |

## Findings

| source | as written | input that shows it | evidently intended | confidence | as-written member | corrected member |
|---|---|---|---|---|---|---|
| energyanalaysis/chiller-energy-dashboard/src/components/data_upload.py:234 | the display step picks `read_csv` only if the name ends in exactly ".csv", but the validator lower-cases the extension first (line 128) | "DATA.CSV": validated and checked as a CSV, then read for display with `read_excel`; in general, any accepted name whose extension is ".csv" only up to case | test `name.lower().endswith('.csv')`, which agrees with the validator's lower-cased extension | medium, not executed | `DataUpload.RenderReaderMismatch` and `DataUpload.RenderReaderDisagreesExactly` (about `DataUpload.RenderReaderAsWritten`) | `DataUpload.RenderReaderAgreesWithValidation` (about `DataUpload.RenderReader`) |

## Left out

- Streamlit rendering: the markdown, metrics, messages and widgets, and the `handle_file_upload` flow. These are presentation only.
- The pandas readers `read_csv` and `read_excel`, including the latin-1 retry and the explicit first-sheet retry in `render_data_upload`. They are a foreign library; a parse is an input (`ParseOutcome`).
- The text of exception messages (`str(e)`). It is an opaque string carried by `ParseOutcome.Raised`.
- `uploaded_file.seek(0)` raising. The model assumes the in-memory upload stream can always be rewound.
- `os.makedirs` and the file write in `save_uploaded_file`. These are file-system effects; only the name and path are modelled.
- `datetime.now()`. The timestamp is a parameter; lemmas that need its shape require `IsTimestamp`.
- The file size shown in KB. This is float formatting for display.
- Rates as Python floats. They are exact integers in ten-thousandths; every literal in the table has at most four decimals.
- Strings.Lower: folds only ASCII capitals, while Python's `str.lower` also folds other letters. No non-ASCII character lower-cases to one of the letters of "csv", "xlsx" or "xls", so the accept/reject decision is the same. Only the echoed extension in the unsupported-format message can differ for non-ASCII names.
- PathNames.SplitExt: follows POSIX `os.path.splitext`, with "/" as the only separator. On Windows a backslash also separates components.
- DataUpload.Validate: the dtype facts (`isNumber`, the dtype text) are inputs. That `int64` and `float64` are numbers and `object` is not is stated as `ConsistentColumn` and required only where a lemma needs it.
