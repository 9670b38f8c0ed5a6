# AI Insight Engine: upload validation, data cleaning and the job life cycle

This project models the core of the AI Insight Engine back end in Dafny and proves properties of that model. The back end accepts CSV and Excel uploads from users with a monthly quota. It validates each file, stores it in a per-job directory and records a job row. A background run of the data cleaner then loads the file, infers a schema, scores its quality and writes a cleaned copy and a log. Further endpoints report a job's status, list a user's jobs, schedule a run, return results, serve downloads and delete jobs.

Modules, in dependency order:

- `Common` (`common.dfy`): `Option`, `Result`, bytes, `Min`/`Max`.
- `Text` (`text.dfy`): the Python string routines the core relies on: `lower`, `strip`, `lstrip`, `rfind`, `split`, `join` and `str` of integers. Each comes with the lemmas the rest needs (split/join round trips, stripping).
- `Config` (`config.dfy`): the settings, and `allowed_extensions_list`.
- `Validation` (`validation.dfy`): the upload checks. `UploadFile` is a class with a read/seek cursor. The checks are methods that move that cursor, and `UploadVerdict` is the pure verdict they are proved against.
- `Frames` (`frames.dfy`): the part of a pandas DataFrame the cleaner looks at: typed columns of nullable cells, `dropna`, `nunique`, `duplicated`, `isnull().sum()` and `head`.
- `Cleaner` (`cleaner.dfy`): the cleaning service.
  - Column type inference, column analysis and the schema; `_infer_schema` is a method with a loop.
  - Profiling and the quality score; loading by suffix; the log.
  - The `DataCleaner` class, whose `Clean` method updates its fields.
- `CleanerExamples` (`cleaner_examples.dfy`): the cleaner on the small series and frames of its unit tests.
- `Models` (`models.dfy`):
  - the job row and its well-formedness, the user's quota fields;
  - HTTP errors and the owner lookup every job endpoint starts with;
  - `os.path.join`;
  - the `Store` class holding the jobs table and the upload tree, with its invariant.
- `UploadApi` (`upload_api.dfy`): upload, job status, the paged job list and deletion.
- `ProcessApi` (`process_api.dfy`): the background run, scheduling a run, results and downloads.

State that the source changes in place is modelled in place:
- the upload's file cursor;
- the cleaner object's fields;
- the user's upload count;
- the jobs table and the files on disk, as the `Store` fields.

Each state-changing method states its whole new state in terms of a pure function or of the old state. `Store.Valid` is the invariant every endpoint keeps: each job is filed under its id, is well formed and has its directory, and a complete job's directory holds both outputs.

The environment is given as parameters:
- the clock, as timestamps;
- the fresh job id;
- the MIME sniffer, as a function of the first bytes (`None` when it raises);
- the CSV and Excel readers, as functions of the path;
- pandas' date and number parsers, as predicates on the first 100 non-null values;
- what the file system answers when the outputs are written.

Background tasks are handed back as `ProcessTask` values, not run inline. `ProcessJobBackground` is the run such a task performs.

## Model

| member | source | states |
|---|---|---|
| Config.AllowedExtensionsList | app/config.py:52-57 | a string setting yields one stripped entry per comma-separated piece, in order; any other value is returned unchanged |
| Config.AllowedExtensionsShape | app/config.py:56 | the list has one entry more than the setting has commas, and no entry begins or ends with whitespace |
| Config.AllowedExtensionsRoundTrip | app/config.py:56 | when the pieces carry no outer whitespace, joining the entries with commas gives the setting back |
| Config.DefaultSettingsValues | app/config.py:47-50 | the defaults allow exactly csv, xlsx and xls, and the size limit is 10485760 bytes |
| Config.ThreePieces | app/config.py:56 | a setting made of three comma-free pieces with no outer whitespace yields exactly those three entries |
| Validation.SplitExtension | app/utils/validation.py:19 | the extension is empty or starts with the only dot it contains, and never spans a '/' |
| Validation.ExtensionOfFinalSuffix | app/utils/validation.py:17-21 | only the final suffix counts: for `stem.e` the extension checked is `e` lower-cased |
| Validation.ExtensionCaseInsensitive | app/utils/validation.py:19-21 | the extension check gives the same answer for a name and its lower-cased form |
| Validation.ExtensionOfDotFile | app/utils/validation.py:19 | a dot-file such as `.csv` has the empty extension |
| Validation.ExtensionOfNoDot | app/utils/validation.py:19 | a name without a dot has the empty extension |
| Validation.NoExtensionRejected | app/utils/validation.py:17-21 | a name with the empty extension passes only if the empty string is an allowed extension |
| Validation.UploadFile.Read | app/utils/validation.py:85 | `read()` returns the bytes from the cursor to the end and leaves the cursor there; a bounded read stops at the end |
| Validation.ValidateFileSize | app/utils/validation.py:23-30 | accepts exactly when the body is at most `MAX_FILE_SIZE_MB * 1024 * 1024` bytes, bound included, and leaves the cursor at 0 |
| Validation.ValidateFileType | app/utils/validation.py:32-48 | the first 2048 bytes are sniffed; a detected type is accepted exactly when it is one of the four allowed MIME types; a sniffer that raises falls back to the extension check; the cursor ends at 0 |
| Validation.ValidateUploadFile | app/utils/validation.py:50-76 | returns the verdict and message of `UploadVerdict`; name and content unchanged; the cursor is rewound once the size check runs |
| Validation.UploadVerdictValidIff | app/utils/validation.py:50-76 | a file is valid exactly when it is present, named, has an allowed extension, fits the limit and its content is accepted; the message is then "File is valid" |
| Validation.ExtensionFailureDecides | app/utils/validation.py:64-66 | after a failed extension check, neither size nor content changes the verdict |
| Validation.SizeFailureDecides | app/utils/validation.py:69-70 | an oversized file is refused with the size message whatever its content |
| Validation.FailedDetectionNeverRejects | app/utils/validation.py:45-48 | inside the chain, a sniffer that raises never rejects, since its fallback check has already passed |
| Validation.ExtensionMessageSaysNotAllowed | tests/test_upload.py:85-98 | the extension failure message contains "not allowed" once lower-cased |
| Validation.SizeMessageSaysTooLarge | tests/test_upload.py:100-115 | the size failure message contains "too large" once lower-cased |
| Validation.FifteenMegabytesTooLarge | tests/test_upload.py:100-115 | with the defaults, a 15 MB `large.csv` is refused with the size message |
| Validation.TenMegabytesAccepted | app/utils/validation.py:29-30 | with the defaults, a body of exactly 10 MB with accepted content is valid |
| Validation.UpperCaseNameAccepted | app/utils/validation.py:19-21 | with the defaults, `DATA.CSV` passes the extension check |
| Validation.PdfNameRejected | tests/test_upload.py:85-98 | with the defaults, `document.pdf` fails the extension check |
| Frames.NullCount | app/services/cleaner.py:157 | the null count never exceeds the number of cells |
| Frames.NonNull | app/services/cleaner.py:165 | the non-null values and the nulls together account for every cell, and a value is kept exactly when some cell holds it |
| Frames.UniqueCount | app/services/cleaner.py:159 | distinct non-null values plus nulls never exceed the cells, and there are none exactly when every cell is null |
| Frames.NoDuplicatesIff | app/services/cleaner.py:254 | no row counts as a duplicate exactly when the rows are pairwise different |
| Frames.MissingCellsBound | app/services/cleaner.py:253 | the missing cells never exceed columns times rows |
| Frames.NoMissingCellsIff | app/services/cleaner.py:253 | no cell is missing exactly when every column is free of nulls |
| Frames.Head | app/api/process.py:193 | the preview keeps every column's name and a prefix of its cells, `min(n, rows)` rows long |
| Cleaner.InferColumnType | app/services/cleaner.py:192-195 | a column is unknown exactly when all its cells are null |
| Cleaner.DateTextIsDateTime | app/services/cleaner.py:198-207 | a non-empty column with a datetime dtype, or object text that parses as dates, is a datetime column |
| Cleaner.NumericIff | app/services/cleaner.py:209-219 | numeric exactly when not all null, without date evidence, and with a numeric dtype or object text that parses as numbers |
| Cleaner.BooleanIff | app/services/cleaner.py:221-225 | past the date and number rules, boolean exactly when the lower-cased distinct values are at most two boolean words |
| Cleaner.IdentifierIsNearlyUnique | app/services/cleaner.py:227-230 | an id column has more than 95% distinct values, so fewer than 5% of its cells are null |
| Cleaner.CategoricalOrText | app/services/cleaner.py:232-237 | of the two last types, categorical exactly when fewer than 50 distinct values |
| Cleaner.FreeTextHasFiftyValues | app/services/cleaner.py:233-237 | a text column holds at least 50 non-null values |
| Cleaner.Describe | app/services/cleaner.py:154-183 | the descriptor has the column's name and inferred type; samples are the first three non-null values; nulls plus distinct values fit in the column; the null percentage lies in [0, 100]; only categorical columns get a cardinality, and it is always low |
| Cleaner.AnalyzeColumn | app/services/cleaner.py:154-183 | the analysis raises exactly when the column is taken for numeric and its summary raises, which only a column stored as text can do, and the error is the summary's; otherwise it returns the descriptor |
| Cleaner.Collect | app/services/cleaner.py:137-139 | the run succeeds exactly when every result does, and then holds every value in order |
| Cleaner.CollectFirstFailure | app/services/cleaner.py:137-139 | a failed run reports the error of its first failure, every earlier result having succeeded |
| Cleaner.SchemaOf | app/services/cleaner.py:131-141 | a built schema has one descriptor per column, in order and with the column's name, plus the frame's row and column counts |
| Cleaner.SchemaOfIff | app/services/cleaner.py:137-141 | the schema is built exactly when no column's analysis raises, and then holds each column's descriptor |
| Cleaner.SchemaErrorIsFirstFailure | app/services/cleaner.py:137-139 | a schema that cannot be built reports the error of the first column whose analysis raises |
| Cleaner.TypedFrameAnalyses | app/services/cleaner.py:173-177 | a frame without text columns is always analysed completely |
| Cleaner.InferSchema | app/services/cleaner.py:131-141 | the loop over the columns builds exactly `SchemaOf`, stopping at the first analysis that raises |
| Cleaner.SchemaSamples | app/services/cleaner.py:165-167 | every sample value is a non-null cell of its column, at most three of them |
| Cleaner.ProfileData | app/services/cleaner.py:249-256 | counts agree with the frame; missing cells never exceed total cells, nor duplicates the rows |
| Cleaner.PercentageBounds | app/services/cleaner.py:259-262 | a percentage of a part lies in [0, 100] and is 0 exactly when the part is |
| Cleaner.QualityScoreBounds | app/services/cleaner.py:264-274 | the quality score lies between 0 and 100 |
| Cleaner.QualityScorePerfectIff | app/services/cleaner.py:264-274 | the score is 100 exactly when nothing is missing and no row is duplicated |
| Cleaner.QualityScorePerfectMeaning | app/services/cleaner.py:249-274 | a perfect score means null-free columns and pairwise different rows |
| Cleaner.Suffix | app/services/cleaner.py:88-89 | the suffix is empty or a dot followed by at least one character |
| Cleaner.LoadFile | app/services/cleaner.py:88-115 | a loaded frame is never empty; an unknown suffix fails with "Unsupported file format: " and that suffix |
| Cleaner.LoadFileDispatch | app/services/cleaner.py:92-106 | `.csv` in any case goes to the CSV reader and `.xlsx`/`.xls` to the Excel reader, with empty frames refused |
| Cleaner.FormatOneDecimal | app/services/cleaner.py:53 | the rendered score consists of digits, a sign and a point only |
| Cleaner.CleanLogNoNewline | app/services/cleaner.py:45-53 | a run logs three entries, none containing a line break |
| Cleaner.LogEntriesNoNewline | app/services/cleaner.py:45-53 | the load, schema and profile entries, whatever the counts and the score, are three lines without a line break |
| Cleaner.DataCleaner.constructor | app/services/cleaner.py:19-24 | a new cleaner has an empty log, no frames, no schema and a zero score |
| Cleaner.DataCleaner.Log | app/services/cleaner.py:278-281 | appends one entry, `action: details` or the bare action, and keeps the earlier ones |
| Cleaner.DataCleaner.Clean | app/services/cleaner.py:26-76 | a load failure is re-raised with the object unchanged; an analysis that raises is re-raised with the loaded frame kept, its one entry logged and the rest unchanged; success sets the frames, the schema and the score, appends the three log entries and returns them |
| CleanerExamples.IntegerSeriesIsNumeric | tests/test_cleaner.py:54-59 | `[1, 2, 3, 4, 5]` is numeric |
| CleanerExamples.LetterSeriesIsCategorical | tests/test_cleaner.py:61-66 | `['A', 'B', 'A', 'C', 'B', 'A']` is categorical |
| CleanerExamples.YesNoSeriesIsBoolean | tests/test_cleaner.py:68-73 | `['Yes', 'No', 'Yes', 'No']` is boolean |
| CleanerExamples.MissingDataFrame | tests/test_cleaner.py:128-141 | the frame with one null per column has 2 missing cells and a positive missing percentage |
| CleanerExamples.DuplicateRowFrame | tests/test_cleaner.py:143-156 | the frame whose third row repeats the first has exactly one duplicate and a positive duplicate percentage |
| CleanerExamples.NumberTextSummaryFails | app/services/cleaner.py:173-177 | a text column whose first hundred values read as numbers but whose summary raises fails its analysis with that error, and the schema with it |
| Models.NewJob | app/models/job.py:12-35 | a new job is queued with progress 0 and no start, completion or results |
| Models.User.constructor | app/models/user.py:20-21 | a new user has no uploads and a limit of 10 |
| Models.FindOwnedJob | app/api/upload.py:102-115 | an unknown id is not found (404) before another user's job is forbidden (403); otherwise the stored job |
| Models.PathJoin | app/utils/helpers.py:22-26 | the result ends with the second part; an absolute second part replaces the first, otherwise the first is a prefix |
| Models.InvariantAfterUpdate | app/api/process.py:37-66 | filing a well-formed job with its directory keeps the store invariant |
| Models.InvariantAfterRemoval | app/api/upload.py:199-204 | removing a job with its directory keeps the store invariant |
| UploadApi.UploadFile | app/api/upload.py:19-88 | over quota gives 429 and changes nothing; an invalid file gives 400 with the validator's message; an accepted file is saved, a queued job inserted, the count raised by one and a run handed back; the invariant holds |
| UploadApi.SaveUpload | app/utils/validation.py:78-94 | the bytes from the rewound cursor are stored under the job's directory, the file is rewound and the job row inserted |
| UploadApi.WithUpload | app/utils/helpers.py:14-26 | the job's directory gains the upload and every other directory is unchanged |
| UploadApi.GetJobStatus | app/api/upload.py:91-131 | the owner lookup's errors, else every stored field of the job as it is |
| UploadApi.UploadedJobIsQueued | tests/test_upload.py:117-139 | right after an upload its owner sees it queued with progress 0 |
| UploadApi.UploadedJobIsPrivate | app/api/upload.py:112-115 | another user is refused the job |
| UploadApi.Window | app/api/upload.py:145-150 | the page is a contiguous run starting at the offset (a negative offset counts as 0), as long as the limit allows (a negative limit is none) |
| UploadApi.ListUserJobs | app/api/upload.py:134-168 | the page is the window of all the user's jobs and only theirs, newest first; the total ignores paging |
| UploadApi.ListingLength | app/api/upload.py:165 | a listing has exactly as many entries as the user has jobs |
| UploadApi.FirstPageHoldsAll | tests/test_upload.py:141-157 | with the default paging, a user with at most 10 jobs sees all of them on one page |
| UploadApi.DeleteJob | app/api/upload.py:171-209 | the owner lookup's errors change nothing; otherwise the job's directory and row are removed; the invariant holds |
| UploadApi.DeletedJobIsGone | tests/test_upload.py:159-185 | after deletion the job is not found and every other job reads as before |
| ProcessApi.Truncate | app/api/process.py:53 | `int()` truncates toward zero |
| ProcessApi.TruncatePercentage | app/api/process.py:53 | a score in [0, 100] stays in [0, 100] once truncated |
| ProcessApi.RunningJob | app/api/process.py:37-39 | the job is marked processing with its start time |
| ProcessApi.CompletedJob | app/api/process.py:50-55 | complete, progress 100, the frame's rows, the truncated score and the elapsed time |
| ProcessApi.FailedJob | app/api/process.py:78-81 | failed, with the error's text and the time of failure |
| ProcessApi.CleanOutcome | app/api/process.py:44-47 | a fresh cleaner's run fails with the loader's error, or with the error of the column analysis that raises; otherwise it returns the loaded frame, its three log entries, its schema and its score |
| ProcessApi.RunCleaner | app/api/process.py:44-47 | creating a cleaner and running it yields `CleanOutcome`, failures included |
| ProcessApi.ProcessJobBackground | app/api/process.py:19-85 | a missing job changes nothing; otherwise the job row and its directory become `ProcessedJob` of the old ones; the invariant holds |
| ProcessApi.RecordOutcome | app/api/process.py:44-82 | the run's outcome is written to the running job and its directory as `JobAfterRun` says: a load failure fails the job and writes nothing; a success completes it and writes the cleaned data, then the log, and a failed write fails it keeping what was written before |
| ProcessApi.ProcessedJobWellFormed | app/api/process.py:37-82 | a run leaves the job well formed, and a job it completes has both output files |
| ProcessApi.ProcessedJobSettles | app/api/process.py:37-82 | a run leaves the job complete or failed, with its start time and the matching end time |
| ProcessApi.CompleteIff | app/api/process.py:47-66 | the job completes exactly when the file loads, no column analysis raises and both outputs are written |
| ProcessApi.CompletedResults | app/api/process.py:50-55 | a complete job has the frame's row count (at least 1), the truncated score and the elapsed time |
| ProcessApi.LoadFailureRecorded | app/api/process.py:73-82 | a load failure fails the job with the loader's message, writes nothing and keeps the old results |
| ProcessApi.AnalysisFailureRecorded | app/api/process.py:73-82 | a file that loads but whose column analysis raises fails the job with that error, writes nothing and keeps the old results |
| ProcessApi.UnsupportedFormatRecorded | app/services/cleaner.py:104-105 | an unknown suffix fails the job with "Unsupported file format: " and the suffix |
| ProcessApi.WriteFailureKeepsResults | app/api/process.py:57-82 | a failed write fails the job but keeps the success fields already set; only what was written before the failure is on disk |
| ProcessApi.LogFileRoundTrip | app/api/process.py:64 | the written log splits back on line breaks into exactly the cleaner's entries |
| ProcessApi.StartProcessing | app/api/process.py:88-144 | the owner lookup's errors; a run is handed out exactly for an owned queued or failed job whose upload is present, on the upload's path; an owned queued or failed job whose upload is missing gets 404 "Uploaded file not found" |
| ProcessApi.NoSecondRun | app/api/process.py:116-121 | a processing or complete job is not scheduled again; the reply carries "Job is already" and its status, the job id and the status |
| ProcessApi.UploadedJobCanStart | app/api/process.py:124-144 | a freshly uploaded job can be scheduled by its owner |
| ProcessApi.GetResults | app/api/process.py:147-208 | the owner lookup's errors; a job that is not complete gets its status and "Results not available yet"; an owned complete job always gets its stored results, the log file split on line breaks (empty when absent), `head(5)` of the cleaned data exactly when that file is present, and both download links |
| ProcessApi.CompleteJobHasPreview | app/api/process.py:189-194 | in a valid store a complete job's results carry a preview of at most 5 rows |
| ProcessApi.ResultsAfterRun | app/api/process.py:182-194 | after a successful run the results hold exactly the cleaner's log, the first 5 rows and the truncated score |
| ProcessApi.DownloadFile | app/api/process.py:211-253 | the owner lookup's errors; otherwise the named file exactly when the job's directory holds it, else 404 "File not found" |
| ProcessApi.ResultLinksResolve | app/api/process.py:204-207 | both links in a complete job's results lead to files its owner can download |

## Left out

- Character decoding, CSV and Excel parsing and `chardet` are parameters (`Readers`). The readers are not tied to the stored bytes.
- pandas' `to_datetime` and `to_numeric` are predicates on the first 100 non-null values (`Parsers`).
- libmagic is a parameter. `None` stands for a sniffer that raised, and the printed message is not modelled.
- The cleaned file is stored as the frame itself. Writing and reading it back as CSV is taken to change nothing, and the preview is `head(5)` of that frame rather than a re-parsed CSV and its dict records.
- The values of `_analyze_column`'s numeric summary (min, max, mean, std) and of its categorical `value_counts` are not modelled, nor `_profile_data`'s `memory_usage`. None of these values is read anywhere in the core. Whether the summary raises for a column stored as text is a parameter (`Parsers.summaryError`). An example is a later cell that is not a number after a hundred that are. Its error then fails the run, as `AnalyzeColumn`, `Clean`, `CleanOutcome` and `CompleteIff` state.
- Floats are exact reals. This applies to percentages, the score, the 0.95 uniqueness ratio and `FormatOneDecimal`, whose ties-to-even rounding is on exact values.
  - `CompletedJob`: an exact score can truncate to a different integer than the float does. Take 2 rows by 3 columns with 5 nulls, where the one filled cell keeps the rows distinct. In floating point the score is 49.99999999999999, so 49 is stored; the model stores 50.
- `Lower` folds ASCII letters only. Python's `str.lower` also folds other scripts.
- structlog logging and the `print` in `validate_file_type` are not modelled.
- Job ids and the clock are parameters. `UploadFile` requires the id to be fresh, which `generate_job_id` only makes likely.
- SQLAlchemy and FastAPI plumbing is not modelled: sessions, commits, the surrogate integer key, request parsing and authentication.
  - A missing `file` part is refused by FastAPI before `upload_file` runs, so `UploadApi.UploadFile` takes a file. The `None` case of `validate_upload_file` is modelled in `ValidateUploadFile`.
- Concurrency is not modelled. The background run's intermediate "processing" commit is made but cannot be observed in the model.
- A storage error in `save_upload_file` (the 500 at app/utils/validation.py:88-92) is not modelled.
- DeleteJob: `cleanup_job_files` only prints a failing `rmtree` (app/utils/helpers.py:37-41). The row is deleted and the directory stays on disk. The model always removes the directory.
- Cell values compare by constructor, so `1`, `1.0` and `True` are distinct in `Distinct`, `UniqueCount` and `IsDuplicateRow`. pandas hashes with Python equality, under which they are equal. This matters only for object columns that mix such values.
- `IsNumericDtype` and `IsDatetimeDtype` know only the dtypes pandas' default readers produce: int64, float64, bool and datetime64[ns]. Narrower integer widths, nullable `Int64` and time-zone-aware datetimes fall under `OtherType`, which is treated as neither.
- A failure of a database query or commit inside the background run is not modelled.
- Only the outcome of the writes is given in `ProcessJobBackground`. A log write that fails after creating an empty file leaves no log in the model.
- File names are taken to be single path components. `.` and `..` are not special, and a name containing `/` is not modelled as leaving the job directory.
- `get_upload_path` creates the job directory. Every stored job already has its directory (`Store.Valid`), so `StartProcessing` changes nothing.
- `BaseName` ignores pathlib's normalisation of `.` components.
- The `"No columns found"` check in `_load_file` (app/services/cleaner.py:112-113) is unreachable and is not modelled: a frame without columns is already refused as empty.
- The extension lists in `ALLOWED_MIME_TYPES` are unused by the source and are carried but never read.
- `upload_file` answers with status "processing" (app/api/upload.py:85), as modelled. The upload test expects "queued" (tests/test_upload.py:76), which is what the stored job holds.
- The cardinality branch `'high' if unique_count > 50` can never fire, because categorical columns have fewer than 50 distinct values. The model proves that instead (`Cleaner.Describe`).
- `main.py`, the authentication routes, the frontend and the scripts are not part of this model.
