# Data validation stage: a Dafny model

This project models the validation stage of the network-security ML pipeline,
the `DataValidation` component. Before the ingested train and test tables go on
to feature engineering, the component:

- checks each table against the schema: the column count, and that every
  declared numerical column is present and numeric;
- compares the train and test tables column by column with a two-sample
  Kolmogorov-Smirnov test and writes a drift report;
- writes copies of the two tables to the configured "valid" paths and returns a
  validation artifact.

The model has six modules:

- `Wrappers`: `Option` and `Result`.
- `Tables`: a data frame as an ordered sequence of named columns. Each column has a numeric type tag and its cells.
- `StructuralChecks`: the two lists the numerical-column check accumulates, and what they mean for its verdict.
- `Drift`: the per-column threshold rule, and the report with its AND-reduced status, built over the base table's columns in order.
- `Storage`: the disk as a map from path to file (a CSV table or a YAML report) plus the set of directories created. It also holds POSIX `os.path.dirname` and a `FileSystem` class through which the I/O goes.
- `DataValidation`: the `DataValidation` class. Its fields are the ingestion artifact, the configuration and the schema. Its members are `ReadData`, `ValidateNoOfColumns`, the loop method `ValidateNumericalColumns`, the loop method `DetectDataDrift` and the fail-fast `InitiateDataValidation`. Each method is proved against a specification function (`NumericallyValid`, `DriftDetection`, `Validation`). Lemmas about those functions follow.

Two behaviours of the code are kept exactly as written:

- `detect_data_drift` is annotated as returning a boolean but has no `return`
  statement, so it returns None. The model's `DetectDataDrift` returns
  `Success(None)`. The status it computes is only a ghost out-parameter. The
  artifact's `validationStatus` is therefore always `None`, and detected drift
  never fails a run (`DriftedDataStillPasses`).
- The artifact's `validTrainFilePath`/`validTestFilePath` are the ingestion
  artifact's paths. They are not the configured `valid_*` paths that the copies
  are written to (`SuccessfulValidation`).

Some edge cases follow from the code and are modelled:

- A train column missing from the test table aborts drift detection. The code looks the column up in the test frame by name, and column names are never compared by the count check.
- A NaN p-value counts as drift, because `threshold <= nan` is false.
- A p-value equal to the threshold is not drift.
- `os.makedirs("")` raises. So a report path or valid-train path without a directory part aborts the run, after whatever was written before it.

The report field is `drift_value` (networksecurity/components/data_validation.py:66), the model's `driftValue`.

## Model

| member | source | states |
|---|---|---|
| `Tables.Table.Get` | networksecurity/components/data_validation.py:56-57 | a lookup by name yields a column of the table with that name |
| `StructuralChecks.MissingColumnsExactly` | networksecurity/components/data_validation.py:83-87 | a name is in the in-order missing list `StructuralChecks.MissingColumns` iff it is declared numerical and absent from the table |
| `StructuralChecks.NonNumericalColumnsExactly` | networksecurity/components/data_validation.py:89-91 | a name is in the in-order list `StructuralChecks.NonNumericalColumns` iff it is declared, present and not numeric |
| `StructuralChecks.AbsentColumnOnlyMissing` | networksecurity/components/data_validation.py:85-91 | because of the `continue`, an absent declared column is recorded as missing and never also as non-numeric |
| `StructuralChecks.NumericalCheckPassesIff` | networksecurity/components/data_validation.py:93-101 | both lists are empty iff every declared numerical column is present and numeric |
| `StructuralChecks.NumericalCheckIgnoresOrder` | networksecurity/components/data_validation.py:83-101 | the verdict depends only on the set of declared names, not on their order |
| `Drift.Drifted` | networksecurity/components/data_validation.py:59-63 | a column is drifted iff its p-value is NaN or strictly below the threshold; a p-value equal to the threshold is not drift |
| `Drift.DriftFailurePersists` | networksecurity/components/data_validation.py:55-58 | a column that cannot be compared aborts the whole detection with that column's error |
| `Drift.DriftSucceedsIff` | networksecurity/components/data_validation.py:55-58 | the fold `Drift.DriftOf` over the base columns, each compared by `Drift.CompareColumn` (lookup in the current table, the test, the threshold rule), succeeds iff every base column exists in the current table and the test yields a p-value for it |
| `Drift.DriftReportKeys` | networksecurity/components/data_validation.py:55-67 | the report's keys are exactly the base table's column names, one record each, drifted or not |
| `Drift.DriftReportEntries` | networksecurity/components/data_validation.py:58-67 | each record kept in the report (built by the fold `Drift.DriftOf`) holds the test's p-value and the `Drift.Drifted` verdict on it |
| `Drift.DriftStatusIff` | networksecurity/components/data_validation.py:53-63 | the status the fold `Drift.DriftOf` AND-reduces ends true iff `Drift.CompareColumn` judges no base column drifted |
| `Drift.DriftStatusMatchesReport` | networksecurity/components/data_validation.py:53-67 | for a table with distinct column names, the status is true iff no record of the report says drift |
| `Storage.DirName` | networksecurity/components/data_validation.py:70 | the directory part is a prefix of the path and is empty iff the path has no slash |
| `Storage.Disk.MakeDirs` | networksecurity/components/data_validation.py:71 | creating directories fails iff the path is empty, and changes no file |
| `Storage.FileSystem.MakeDirs` | networksecurity/components/data_validation.py:138-139 | the file system's directory creation has the effect of `Disk.MakeDirs` |
| `Storage.FileSystem.Write` | networksecurity/components/data_validation.py:141-147 | a write has the effect of `Storage.Disk.Write` (also used for the report write at line 72): the content is stored at the path and nothing else changes |
| `DataValidation.DataValidation.constructor` | networksecurity/components/data_validation.py:14-21 | the validator keeps the ingestion artifact, the configuration and the schema it is given |
| `DataValidation.DataValidation.ReadData` | networksecurity/components/data_validation.py:23-28 | reading succeeds iff the path holds a table, and yields that table; otherwise it fails with that path |
| `DataValidation.DataValidation.ValidateNoOfColumns` | networksecurity/components/data_validation.py:30-48 | true iff the table's width equals the length of the schema's column list |
| `DataValidation.ColumnNamesNeverCompared` | networksecurity/components/data_validation.py:32-40 | tables of equal width get the same column-count verdict, whatever their column names |
| `DataValidation.DataValidation.ValidateNumericalColumns` | networksecurity/components/data_validation.py:76-104 | the loop keeps its two lists equal to `StructuralChecks.MissingColumns` and `StructuralChecks.NonNumericalColumns` of the names visited, and returns true iff all declared numerical columns are present and numeric |
| `DataValidation.DataValidation.DetectDataDrift` | networksecurity/components/data_validation.py:51-74 | the loop builds exactly the report and status of the fold `Drift.DriftOf` (per-column rule `Drift.CompareColumn`); result and new disk are those of the specification `DataValidation.DataValidation.DriftDetection`: the report written to the configured path, and None returned |
| `DataValidation.DriftDetectionWritesReport` | networksecurity/components/data_validation.py:51-74 | detection succeeds iff all columns are comparable and the report path has a directory part; failure writes nothing; success writes a report keyed by the base column names |
| `DataValidation.DataValidation.InitiateDataValidation` | networksecurity/components/data_validation.py:107-159 | the run's result and its effect on the disk are those of the fail-fast sequence `Validation` |
| `DataValidation.ValidationReadsTrainFirst` | networksecurity/components/data_validation.py:109-114 | an unreadable train file aborts the run with a read error before anything else happens |
| `DataValidation.ValidationErrorOrder` | networksecurity/components/data_validation.py:118-133 | the run fails with the error of the first failing check, in the order train count, test count, train numeric, test numeric |
| `DataValidation.FailedValidationWritesNoValidFiles` | networksecurity/components/data_validation.py:118-147 | a failed run never writes the valid copies; a structural, read or drift failure leaves the disk unchanged |
| `DataValidation.SuccessfulValidation` | networksecurity/components/data_validation.py:136-157 | a run succeeds iff all checks pass, every column is comparable and the report path and the valid-train path have a directory part; its artifact has status None, the ingestion paths as valid paths, None invalid paths and the configured report path; the disk gains the report and both copies |
| `DataValidation.DriftedDataStillPasses` | networksecurity/components/data_validation.py:137-150 | a run whose computed drift status is false still succeeds, with status None |

## Left out

- Loading the schema YAML: the constructor takes the schema already loaded. A schema without a `columns` or `numerical_columns` key, which would raise a `KeyError`, cannot be expressed.
- CSV parsing and writing: a file is a table or a report. Reading succeeds exactly on a path holding a table. Parse errors and the textual format are not modelled.
- `scipy.stats.ks_2samp` is a function parameter from two columns' cells to a p-value, or to None when it raises. Its statistics are not modelled.
- Floating point: p-values are reals or NaN, and the threshold 0.05 is the exact real.
- `pd.api.types.is_numeric_dtype` is a per-column type tag.
- Write failures: writes always succeed, and `os.makedirs` fails only on the empty path. Permission errors, a missing parent directory (such as a valid test path outside the valid train path's directory) and the creation of intermediate directories are not modelled.
- Duplicate column names: a frame read from a file has distinct names. A lookup by name takes the first match. `Drift.DriftStatusMatchesReport` assumes distinct names, because a later record replaces an earlier one of the same name.
- Logging and the wrapping of every exception into one pipeline exception: each abort is one variant of `Error`.
- `main.py` and the ingestion stage: they only build configurations and call ingestion, which is not part of this model.
