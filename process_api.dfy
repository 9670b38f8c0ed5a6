/**
 * The processing endpoints: the background run of the cleaning pipeline
 * on one job, the request that schedules it, the results of a complete
 * job, and the download of a job's files.
 */
module ProcessApi {
  import opened Common
  import opened Text
  import opened Config
  import opened Frames
  import opened Cleaner
  import opened Models

  // ---------------------------------------------------------------------
  // The background run

  /**
   * How writing the two outputs turns out. The file system is not part
   * of the model, so what it answers is given: both files written, or
   * the error raised by the first write that fails.
   */
  datatype SaveOutcome = Saved | CsvWriteFails(error: string) | LogWriteFails(error: string)

  /** Python's `int(x)` on a float: truncation toward zero. */
  function Truncate(x: real): (n: int)
    ensures 0.0 <= x ==> n as real <= x < n as real + 1.0
    ensures x < 0.0 ==> x <= n as real < x + 1.0
  {
    if x >= 0.0 then x.Floor else -((-x).Floor)
  }

  /** A quality score, which lies between 0 and 100, stays there once truncated. */
  lemma TruncatePercentage(x: real)
    requires 0.0 <= x <= 100.0
    ensures 0 <= Truncate(x) <= 100
    ensures x == 100.0 ==> Truncate(x) == 100
  {
  }

  /** The job once the run has started: processing, with its start time. */
  function RunningJob(job: Job, startedAt: Timestamp): (j: Job)
    ensures j.status == Processing && j.startedAt == Some(startedAt)
  {
    job.(status := Processing, startedAt := Some(startedAt))
  }

  /** The job as the success path sets it: complete, with rows, score and timings. */
  function CompletedJob(job: Job, res: CleanResult, completedAt: Timestamp): (j: Job)
    requires job.startedAt.Some?
    ensures j.status == Complete && j.progress == 100
    ensures j.rowsCount == Some(res.cleanedFrame.rowCount) && j.qualityScore == Some(Truncate(res.qualityScore))
    ensures j.processingTime == Some(completedAt - job.startedAt.value)
  {
    job.(status := Complete, progress := 100, rowsCount := Some(res.cleanedFrame.rowCount),
         qualityScore := Some(Truncate(res.qualityScore)), completedAt := Some(completedAt),
         processingTime := Some(completedAt - job.startedAt.value))
  }

  /** The job as the exception handler leaves it: failed, with the error's text. */
  function FailedJob(job: Job, error: string, failedAt: Timestamp): (j: Job)
    ensures j.status == Failed && j.errorMessage == Some(error) && j.completedAt == Some(failedAt)
  {
    job.(status := Failed, errorMessage := Some(error), completedAt := Some(failedAt))
  }

  /**
   * What `DataCleaner().clean(filepath)` returns from a fresh cleaner:
   * the loader's error, the error of the first column analysis that
   * raises, or the results.
   */
  function CleanOutcome(filepath: string, readers: Readers, p: Parsers): (r: Result<CleanResult, string>)
    ensures r.Success? <==> CleanSucceeds(filepath, readers, p)
    ensures LoadFile(filepath, readers).Failure? ==> r == Failure(LoadFile(filepath, readers).error)
    ensures LoadFile(filepath, readers).Success? && !CleanSucceeds(filepath, readers, p) ==>
      r == Failure(SchemaOf(LoadFile(filepath, readers).value, p).error)
    ensures r.Success? ==>
      var df := LoadFile(filepath, readers).value;
      CleanSucceeds(filepath, readers, p) && r.value.cleanedFrame == df
      && r.value.cleaningLog == CleanLog(df) && r.value.qualityScore == ProfileData(df).qualityScore
      && r.value.schema == SchemaOf(df, p).value
  {
    match LoadFile(filepath, readers)
    case Failure(e) => Failure(e)
    case Success(df) =>
      match SchemaOf(df, p)
      case Failure(e) => Failure(e)
      case Success(schema) =>
        Success(CleanResult(df, CleanLog(df), ProfileData(df).qualityScore, schema, ProfileData(df)))
  }

  /** `DataCleaner().clean(filepath)`: a fresh cleaner run once on the file. */
  method RunCleaner(filepath: string, readers: Readers, p: Parsers) returns (result: Result<CleanResult, string>)
    ensures result == CleanOutcome(filepath, readers, p)
  {
    var cleaner := new DataCleaner();
    ghost var loaded := LoadFile(filepath, readers);
    result := cleaner.Clean(filepath, readers, p);
    if CleanSucceeds(filepath, readers, p) {
      var df := loaded.value;
      assert [] + CleanLog(df) == CleanLog(df);
    }
  }

  /** The log file's text: the log's entries, one per line. */
  function LogFileText(log: seq<string>): string {
    Join(log, "\n")
  }

  /**
   * The job row and its directory once the cleaner has produced `result`
   * for the running job: a failure fails the job; success fills in the
   * results, and the outputs are written unless a write fails, which fails
   * the job with the results it already had.
   */
  function JobAfterRun(running: Job, dir: map<string, StoredFile>, result: Result<CleanResult, string>,
                       completedAt: Timestamp, failedAt: Timestamp, save: SaveOutcome): (Job, map<string, StoredFile>)
    requires running.startedAt.Some?
  {
    match result
    case Failure(e) => (FailedJob(running, e, failedAt), dir)
    case Success(res) =>
      var done := CompletedJob(running, res, completedAt);
      var withCsv := dir[CleanedDataFile := CleanedCsv(res.cleanedFrame)];
      match save
      case CsvWriteFails(e) => (FailedJob(done, e, failedAt), dir)
      case LogWriteFails(e) => (FailedJob(done, e, failedAt), withCsv)
      case Saved => (done, withCsv[CleaningLogFile := LogText(LogFileText(res.cleaningLog))])
  }

  /** The job row and its directory after a run of the pipeline that found the job. */
  function ProcessedJob(job: Job, dir: map<string, StoredFile>, filepath: string, readers: Readers,
                        p: Parsers, startedAt: Timestamp, completedAt: Timestamp, failedAt: Timestamp,
                        save: SaveOutcome): (Job, map<string, StoredFile>)
  {
    JobAfterRun(RunningJob(job, startedAt), dir, CleanOutcome(filepath, readers, p), completedAt, failedAt, save)
  }

  /**
   * The steps of `process_job_background` after the clean: record the
   * error, or set the results and write the cleaned data, then the log.
   */
  method RecordOutcome(running: Job, dir: map<string, StoredFile>, result: Result<CleanResult, string>,
                       completedAt: Timestamp, failedAt: Timestamp, save: SaveOutcome)
    returns (job: Job, newDir: map<string, StoredFile>)
    requires running.startedAt.Some?
    ensures (job, newDir) == JobAfterRun(running, dir, result, completedAt, failedAt, save)
  {
    if result.Failure? {
      return FailedJob(running, result.error, failedAt), dir;
    }
    var res := result.value;
    job := CompletedJob(running, res, completedAt);
    newDir := dir;
    match save {
      case CsvWriteFails(e) =>
        job := FailedJob(job, e, failedAt);
      case LogWriteFails(e) =>
        newDir := newDir[CleanedDataFile := CleanedCsv(res.cleanedFrame)];
        job := FailedJob(job, e, failedAt);
      case Saved =>
        newDir := newDir[CleanedDataFile := CleanedCsv(res.cleanedFrame)];
        newDir := newDir[CleaningLogFile := LogText(LogFileText(res.cleaningLog))];
    }
  }

  /**
   * `process_job_background`. A job that is gone leaves everything as it
   * is. Otherwise the job is committed as processing, a fresh cleaner
   * runs on the file, and the job ends as `ProcessedJob` says. The clock
   * readings where the run starts, where it completes and where a failure
   * is recorded are given, as is what the file system answers to the two
   * writes.
   */
  method ProcessJobBackground(store: Store, jobId: string, filepath: string, readers: Readers, p: Parsers,
                              startedAt: Timestamp, completedAt: Timestamp, failedAt: Timestamp,
                              save: SaveOutcome)
    requires store.Valid()
    modifies store
    ensures store.Valid()
    ensures jobId !in old(store.jobs) ==> store.jobs == old(store.jobs) && store.files == old(store.files)
    ensures jobId in old(store.jobs) ==>
      var outcome := ProcessedJob(old(store.jobs)[jobId], old(store.files)[jobId], filepath, readers, p,
                                  startedAt, completedAt, failedAt, save);
      store.jobs == old(store.jobs)[jobId := outcome.0] && store.files == old(store.files)[jobId := outcome.1]
  {
    if jobId !in store.jobs {
      return;
    }
    var jobs, files := store.jobs, store.files;
    var dir := files[jobId];
    var running := RunningJob(jobs[jobId], startedAt);
    InvariantAfterUpdate(jobs, files, running, dir);
    store.jobs := jobs[jobId := running];
    var result := RunCleaner(filepath, readers, p);
    var job, newDir := RecordOutcome(running, dir, result, completedAt, failedAt, save);
    ProcessedJobWellFormed(jobs[jobId], dir, filepath, readers, p, startedAt, completedAt, failedAt, save);
    InvariantAfterUpdate(jobs, files, job, newDir);
    store.files := files[jobId := newDir];
    store.jobs := jobs[jobId := job];
  }

  /** A run keeps the job well formed, and a job it completes has both outputs. */
  lemma ProcessedJobWellFormed(job: Job, dir: map<string, StoredFile>, filepath: string, readers: Readers,
                               p: Parsers, startedAt: Timestamp, completedAt: Timestamp, failedAt: Timestamp,
                               save: SaveOutcome)
    requires JobWellFormed(job)
    ensures var outcome := ProcessedJob(job, dir, filepath, readers, p, startedAt, completedAt, failedAt, save);
      JobWellFormed(outcome.0) && outcome.0.jobId == job.jobId
      && (outcome.0.status == Complete ==> HasOutputs(map[job.jobId := outcome.1], job.jobId))
  {
    var r := CleanOutcome(filepath, readers, p);
    assert ProcessedJob(job, dir, filepath, readers, p, startedAt, completedAt, failedAt, save)
        == JobAfterRun(RunningJob(job, startedAt), dir, r, completedAt, failedAt, save);
    if r.Success? {
      assert 0.0 <= r.value.qualityScore <= 100.0 by {
        QualityScoreBounds(LoadFile(filepath, readers).value);
      }
    }
    AfterRunWellFormed(job, dir, r, startedAt, completedAt, failedAt, save);
  }

  /** `ProcessedJobWellFormed` for any clean result with a score between 0 and 100 and some rows. */
  lemma AfterRunWellFormed(job: Job, dir: map<string, StoredFile>, r: Result<CleanResult, string>,
                           startedAt: Timestamp, completedAt: Timestamp, failedAt: Timestamp, save: SaveOutcome)
    requires JobWellFormed(job)
    requires r.Success? ==> 0.0 <= r.value.qualityScore <= 100.0 && r.value.cleanedFrame.rowCount >= 1
    ensures var outcome := JobAfterRun(RunningJob(job, startedAt), dir, r, completedAt, failedAt, save);
      JobWellFormed(outcome.0) && outcome.0.jobId == job.jobId
      && (outcome.0.status == Complete ==> HasOutputs(map[job.jobId := outcome.1], job.jobId))
  {
    if r.Success? {
      TruncatePercentage(r.value.qualityScore);
    }
  }

  /** A run that found the job leaves it complete or failed, never queued or processing. */
  lemma ProcessedJobSettles(job: Job, dir: map<string, StoredFile>, filepath: string, readers: Readers,
                            p: Parsers, startedAt: Timestamp, completedAt: Timestamp, failedAt: Timestamp,
                            save: SaveOutcome)
    ensures var j := ProcessedJob(job, dir, filepath, readers, p, startedAt, completedAt, failedAt, save).0;
      (j.status == Complete || j.status == Failed) && j.startedAt == Some(startedAt)
      && j.completedAt == Some(if j.status == Complete then completedAt else failedAt)
  {
  }

  /**
   * The job completes exactly when the file loads, no column analysis
   * raises and both outputs are written.
   */
  lemma CompleteIff(job: Job, dir: map<string, StoredFile>, filepath: string, readers: Readers,
                    p: Parsers, startedAt: Timestamp, completedAt: Timestamp, failedAt: Timestamp,
                    save: SaveOutcome)
    ensures ProcessedJob(job, dir, filepath, readers, p, startedAt, completedAt, failedAt, save).0.status == Complete
        <==> CleanSucceeds(filepath, readers, p) && save == Saved
  {
  }

  /**
   * A complete job carries the loaded frame's row count (at least one),
   * its truncated quality score and the time the run took. That the score
   * lies between 0 and 100 is `ProcessedJobWellFormed`.
   */
  lemma CompletedResults(job: Job, dir: map<string, StoredFile>, filepath: string, readers: Readers,
                         p: Parsers, startedAt: Timestamp, completedAt: Timestamp, failedAt: Timestamp,
                         save: SaveOutcome)
    requires CleanSucceeds(filepath, readers, p) && save == Saved
    ensures var j := ProcessedJob(job, dir, filepath, readers, p, startedAt, completedAt, failedAt, save).0;
      var df := LoadFile(filepath, readers).value;
      && j.rowsCount == Some(df.rowCount) && df.rowCount >= 1
      && j.qualityScore == Some(Truncate(ProfileData(df).qualityScore))
      && j.processingTime == Some(completedAt - startedAt) && j.progress == 100
  {
    var df := LoadFile(filepath, readers).value;
    var r := CleanOutcome(filepath, readers, p);
    var running := RunningJob(job, startedAt);
    assert ProcessedJob(job, dir, filepath, readers, p, startedAt, completedAt, failedAt, save)
        == JobAfterRun(running, dir, r, completedAt, failedAt, save);
    SavedRunCompletes(job, dir, r.value, startedAt, completedAt, failedAt);
  }

  /** Both outputs written: the running job completes with the clean's results. */
  lemma SavedRunCompletes(job: Job, dir: map<string, StoredFile>, res: CleanResult,
                          startedAt: Timestamp, completedAt: Timestamp, failedAt: Timestamp)
    ensures var j := JobAfterRun(RunningJob(job, startedAt), dir, Success(res), completedAt, failedAt, Saved).0;
      && j.rowsCount == Some(res.cleanedFrame.rowCount)
      && j.qualityScore == Some(Truncate(res.qualityScore))
      && j.processingTime == Some(completedAt - startedAt) && j.progress == 100
  {
  }

  /** A file that does not load fails the job with the loader's message and writes nothing. */
  lemma LoadFailureRecorded(job: Job, dir: map<string, StoredFile>, filepath: string, readers: Readers,
                            p: Parsers, startedAt: Timestamp, completedAt: Timestamp, failedAt: Timestamp,
                            save: SaveOutcome)
    requires LoadFile(filepath, readers).Failure?
    ensures var outcome := ProcessedJob(job, dir, filepath, readers, p, startedAt, completedAt, failedAt, save);
      outcome.0.status == Failed && outcome.0.errorMessage == Some(LoadFile(filepath, readers).error)
      && outcome.0.rowsCount == job.rowsCount && outcome.0.qualityScore == job.qualityScore
      && outcome.1 == dir
  {
    var e := LoadFile(filepath, readers).error;
    assert CleanOutcome(filepath, readers, p) == Failure(e);
    assert ProcessedJob(job, dir, filepath, readers, p, startedAt, completedAt, failedAt, save)
        == (FailedJob(RunningJob(job, startedAt), e, failedAt), dir);
  }

  /**
   * A file that loads but has a column whose analysis raises fails the
   * job with that error, writes nothing and keeps the job's old results.
   */
  lemma AnalysisFailureRecorded(job: Job, dir: map<string, StoredFile>, filepath: string, readers: Readers,
                                p: Parsers, startedAt: Timestamp, completedAt: Timestamp, failedAt: Timestamp,
                                save: SaveOutcome)
    requires LoadFile(filepath, readers).Success? && !CleanSucceeds(filepath, readers, p)
    ensures var outcome := ProcessedJob(job, dir, filepath, readers, p, startedAt, completedAt, failedAt, save);
      var df := LoadFile(filepath, readers).value;
      outcome.0.status == Failed && outcome.0.errorMessage == Some(SchemaOf(df, p).error)
      && outcome.0.rowsCount == job.rowsCount && outcome.0.qualityScore == job.qualityScore
      && outcome.1 == dir
  {
    var e := SchemaOf(LoadFile(filepath, readers).value, p).error;
    assert CleanOutcome(filepath, readers, p) == Failure(e);
    assert ProcessedJob(job, dir, filepath, readers, p, startedAt, completedAt, failedAt, save)
        == (FailedJob(RunningJob(job, startedAt), e, failedAt), dir);
  }

  /** A file with a suffix the loader does not know fails the job with that suffix named. */
  lemma UnsupportedFormatRecorded(job: Job, dir: map<string, StoredFile>, filepath: string, readers: Readers,
                                  p: Parsers, startedAt: Timestamp, completedAt: Timestamp, failedAt: Timestamp,
                                  save: SaveOutcome)
    requires !IsKnownSuffix(Lower(Suffix(filepath)))
    ensures ProcessedJob(job, dir, filepath, readers, p, startedAt, completedAt, failedAt, save).0.errorMessage
         == Some("Unsupported file format: " + Lower(Suffix(filepath)))
  {
    assert LoadFile(filepath, readers) == Failure("Unsupported file format: " + Lower(Suffix(filepath)));
    LoadFailureRecorded(job, dir, filepath, readers, p, startedAt, completedAt, failedAt, save);
  }

  /**
   * A write that fails after a successful clean still fails the job, and
   * the row keeps the results already set on it: the same session holds
   * the object, so the handler's query returns it with those changes.
   */
  lemma WriteFailureKeepsResults(job: Job, dir: map<string, StoredFile>, filepath: string, readers: Readers,
                                 p: Parsers, startedAt: Timestamp, completedAt: Timestamp, failedAt: Timestamp,
                                 save: SaveOutcome)
    requires CleanSucceeds(filepath, readers, p) && !save.Saved?
    ensures var outcome := ProcessedJob(job, dir, filepath, readers, p, startedAt, completedAt, failedAt, save);
      var df := LoadFile(filepath, readers).value;
      outcome.0.status == Failed && outcome.0.errorMessage == Some(save.error)
      && outcome.0.progress == 100 && outcome.0.rowsCount == Some(df.rowCount)
      && outcome.0.completedAt == Some(failedAt)
      && (save.CsvWriteFails? ==> outcome.1 == dir)
      && (save.LogWriteFails? ==> outcome.1 == dir[CleanedDataFile := CleanedCsv(df)])
  {
    var r := CleanOutcome(filepath, readers, p);
    assert ProcessedJob(job, dir, filepath, readers, p, startedAt, completedAt, failedAt, save)
        == JobAfterRun(RunningJob(job, startedAt), dir, r, completedAt, failedAt, save);
    FailedWriteKeeps(job, dir, r.value, startedAt, completedAt, failedAt, save);
  }

  /** A failed write after any clean result: failed, with the results set and the earlier writes kept. */
  lemma FailedWriteKeeps(job: Job, dir: map<string, StoredFile>, res: CleanResult,
                         startedAt: Timestamp, completedAt: Timestamp, failedAt: Timestamp, save: SaveOutcome)
    requires !save.Saved?
    ensures var outcome := JobAfterRun(RunningJob(job, startedAt), dir, Success(res), completedAt, failedAt, save);
      outcome.0.status == Failed && outcome.0.errorMessage == Some(save.error)
      && outcome.0.progress == 100 && outcome.0.rowsCount == Some(res.cleanedFrame.rowCount)
      && outcome.0.completedAt == Some(failedAt)
      && (save.CsvWriteFails? ==> outcome.1 == dir)
      && (save.LogWriteFails? ==> outcome.1 == dir[CleanedDataFile := CleanedCsv(res.cleanedFrame)])
  {
  }

  /** The log file of a complete run splits back into the cleaner's three log entries. */
  lemma LogFileRoundTrip(df: Frame)
    ensures Split(LogFileText(CleanLog(df)), '\n') == CleanLog(df)
  {
    CleanLogNoNewline(df);
    SplitJoin(CleanLog(df), '\n');
  }

  // ---------------------------------------------------------------------
  // Scheduling a run

  datatype StartResponse = StartResponse(message: string, jobId: string, status: string)

  const UploadMissing := "Uploaded file not found"

  /**
   * `start_processing`. After the owner's lookup, a job already
   * processing or complete is answered with its status and no run; a job
   * whose upload is not in its directory is not found; otherwise a run
   * on the upload's path is handed back as a task. Building the path
   * creates the job's directory, which every stored job already has.
   */
  function StartProcessing(jobs: map<string, Job>, files: map<string, map<string, StoredFile>>,
                           settings: Settings, jobId: string, userId: int)
    : (r: Result<(StartResponse, Option<ProcessTask>), HttpError>)
    ensures FindOwnedJob(jobs, jobId, userId).Failure? ==> r == Failure(FindOwnedJob(jobs, jobId, userId).error)
    ensures r.Success? ==> FindOwnedJob(jobs, jobId, userId).Success? && r.value.0.jobId == jobId
    ensures (r.Success? && r.value.1.Some?) <==>
      FindOwnedJob(jobs, jobId, userId).Success?
      && (jobs[jobId].status == Queued || jobs[jobId].status == Failed)
      && jobs[jobId].filename in Directory(files, jobId)
    ensures r.Success? && r.value.1.Some? ==>
      r.value.1.value == ProcessTask(jobId, UploadPath(settings, jobId, jobs[jobId].filename), userId)
      && r.value.0 == StartResponse("Processing started", jobId, "processing")
    ensures (FindOwnedJob(jobs, jobId, userId).Success?
             && (jobs[jobId].status == Queued || jobs[jobId].status == Failed)
             && jobs[jobId].filename !in Directory(files, jobId))
      ==> r == Failure(NotFound(UploadMissing))
  {
    match FindOwnedJob(jobs, jobId, userId)
    case Failure(e) => Failure(e)
    case Success(job) =>
      if job.status == Processing || job.status == Complete then
        Success((StartResponse("Job is already " + StatusName(job.status), jobId, StatusName(job.status)), None))
      else if job.filename !in Directory(files, jobId) then
        Failure(NotFound(UploadMissing))
      else
        assert job == jobs[jobId];
        assert job.status == Queued || job.status == Failed;
        Success((StartResponse("Processing started", jobId, "processing"),
                 Some(ProcessTask(jobId, UploadPath(settings, jobId, job.filename), userId))))
  }

  /** A job that is already running or done is never scheduled twice, and is told so. */
  lemma NoSecondRun(jobs: map<string, Job>, files: map<string, map<string, StoredFile>>,
                    settings: Settings, jobId: string, userId: int)
    requires jobId in jobs && jobs[jobId].userId == userId
    requires jobs[jobId].status == Processing || jobs[jobId].status == Complete
    ensures var r := StartProcessing(jobs, files, settings, jobId, userId);
      var s := StatusName(jobs[jobId].status);
      r.Success? && r.value.1.None?
      && r.value.0 == StartResponse("Job is already " + s, jobId, s)
  {
  }

  /** A freshly uploaded job can be scheduled by its owner. */
  lemma UploadedJobCanStart(jobs: map<string, Job>, files: map<string, map<string, StoredFile>>,
                            settings: Settings, jobId: string, userId: int, filename: string,
                            data: seq<byte>, size: int, now: Timestamp)
    ensures var jobs' := jobs[jobId := NewJob(jobId, userId, filename, size, now)];
      var files' := files[jobId := Directory(files, jobId)[filename := UploadBytes(data)]];
      StartProcessing(jobs', files', settings, jobId, userId)
        == Success((StartResponse("Processing started", jobId, "processing"),
                    Some(ProcessTask(jobId, UploadPath(settings, jobId, filename), userId))))
  {
    var files' := files[jobId := Directory(files, jobId)[filename := UploadBytes(data)]];
    assert filename in Directory(files', jobId);
  }

  // ---------------------------------------------------------------------
  // Results

  datatype ResultsView =
    | NotReady(jobId: string, status: string, message: string)
    | Ready(jobId: string, status: string, qualityScore: Option<int>, rowsCount: Option<int>,
            processingTime: Option<real>, cleaningLog: seq<string>, dataPreview: Option<Frame>,
            cleanedDataUrl: string, cleaningLogUrl: string)

  /** Where a job's file can be downloaded. */
  function DownloadUrl(jobId: string, name: string): string {
    "/api/v1/download/" + jobId + "/" + name
  }

  /**
   * `get_results`. After the owner's lookup, a job that is not complete
   * is answered with its status; a complete one with its results, the
   * log read back line by line (empty when the log file is missing), the
   * first five rows of the cleaned data (none when that file is missing)
   * and the two download links.
   */
  function GetResults(jobs: map<string, Job>, files: map<string, map<string, StoredFile>>,
                      jobId: string, userId: int): (r: Result<ResultsView, HttpError>)
    ensures FindOwnedJob(jobs, jobId, userId).Failure? ==> r == Failure(FindOwnedJob(jobs, jobId, userId).error)
    ensures FindOwnedJob(jobs, jobId, userId).Success? && jobs[jobId].status != Complete ==>
      var s := StatusName(jobs[jobId].status);
      r == Success(NotReady(jobId, s, "Job is " + s + ". Results not available yet."))
    ensures r.Success? && r.value.Ready? ==>
      var j := jobs[jobId];
      j.status == Complete && r.value.status == "complete" && r.value.qualityScore == j.qualityScore
      && r.value.rowsCount == j.rowsCount && r.value.processingTime == j.processingTime
      && r.value.cleanedDataUrl == DownloadUrl(jobId, CleanedDataFile)
      && r.value.cleaningLogUrl == DownloadUrl(jobId, CleaningLogFile)
    ensures FindOwnedJob(jobs, jobId, userId).Success? && jobs[jobId].status == Complete ==>
      r.Success? && r.value.Ready?
    ensures r.Success? && r.value.Ready? ==>
      var dir := Directory(files, jobId);
      (CleaningLogFile in dir && dir[CleaningLogFile].LogText? ==>
         r.value.cleaningLog == Split(dir[CleaningLogFile].text, '\n'))
      && (!(CleaningLogFile in dir && dir[CleaningLogFile].LogText?) ==> r.value.cleaningLog == [])
      && (r.value.dataPreview.Some? <==> CleanedDataFile in dir && dir[CleanedDataFile].CleanedCsv?)
      && (r.value.dataPreview.Some? ==> r.value.dataPreview.value == Head(dir[CleanedDataFile].frame, 5))
  {
    match FindOwnedJob(jobs, jobId, userId)
    case Failure(e) => Failure(e)
    case Success(job) =>
      var s := StatusName(job.status);
      if job.status != Complete then
        Success(NotReady(jobId, s, "Job is " + s + ". Results not available yet."))
      else
        var dir := Directory(files, jobId);
        var log := if CleaningLogFile in dir && dir[CleaningLogFile].LogText?
                   then Split(dir[CleaningLogFile].text, '\n') else [];
        var preview := if CleanedDataFile in dir && dir[CleanedDataFile].CleanedCsv?
                       then Some(Head(dir[CleanedDataFile].frame, 5)) else None;
        Success(Ready(jobId, s, job.qualityScore, job.rowsCount, job.processingTime, log, preview,
                      DownloadUrl(jobId, CleanedDataFile), DownloadUrl(jobId, CleaningLogFile)))
  }

  /** In a valid store, a complete job's results always carry a preview. */
  lemma CompleteJobHasPreview(jobs: map<string, Job>, files: map<string, map<string, StoredFile>>,
                              jobId: string, userId: int)
    requires StoreInvariant(jobs, files)
    requires jobId in jobs && jobs[jobId].userId == userId && jobs[jobId].status == Complete
    ensures var r := GetResults(jobs, files, jobId, userId);
      r.Success? && r.value.Ready? && r.value.dataPreview.Some?
      && r.value.dataPreview.value.rowCount <= 5
  {
  }

  /**
   * After a run that loads the file and writes both outputs, the owner's
   * results hold exactly the cleaner's log, the first rows of the cleaned
   * frame, and the truncated quality score.
   */
  lemma ResultsAfterRun(jobs: map<string, Job>, files: map<string, map<string, StoredFile>>,
                        jobId: string, userId: int, filepath: string, readers: Readers, p: Parsers,
                        startedAt: Timestamp, completedAt: Timestamp, failedAt: Timestamp)
    requires jobId in jobs && jobs[jobId].userId == userId && jobId in files
    requires CleanSucceeds(filepath, readers, p)
    ensures var outcome := ProcessedJob(jobs[jobId], files[jobId], filepath, readers, p,
                                        startedAt, completedAt, failedAt, Saved);
      var r := GetResults(jobs[jobId := outcome.0], files[jobId := outcome.1], jobId, userId);
      var df := LoadFile(filepath, readers).value;
      r.Success? && r.value.Ready?
      && r.value.cleaningLog == CleanLog(df)
      && r.value.dataPreview == Some(Head(df, 5))
      && r.value.qualityScore == Some(Truncate(ProfileData(df).qualityScore))
  {
    var df := LoadFile(filepath, readers).value;
    var r := CleanOutcome(filepath, readers, p);
    var running := RunningJob(jobs[jobId], startedAt);
    assert ProcessedJob(jobs[jobId], files[jobId], filepath, readers, p, startedAt, completedAt, failedAt, Saved)
        == JobAfterRun(running, files[jobId], r, completedAt, failedAt, Saved);
    LogFileRoundTrip(df);
    SavedRunResults(jobs, files, jobId, userId, running, r.value, completedAt, failedAt);
  }

  /** The results view once a saved run's outcome is recorded, for any clean result. */
  lemma SavedRunResults(jobs: map<string, Job>, files: map<string, map<string, StoredFile>>,
                        jobId: string, userId: int, running: Job, res: CleanResult,
                        completedAt: Timestamp, failedAt: Timestamp)
    requires jobId in jobs && jobId in files && running.userId == userId && running.startedAt.Some?
    requires Split(LogFileText(res.cleaningLog), '\n') == res.cleaningLog
    ensures var outcome := JobAfterRun(running, files[jobId], Success(res), completedAt, failedAt, Saved);
      var r := GetResults(jobs[jobId := outcome.0], files[jobId := outcome.1], jobId, userId);
      r.Success? && r.value.Ready?
      && r.value.cleaningLog == res.cleaningLog
      && r.value.dataPreview == Some(Head(res.cleanedFrame, 5))
      && r.value.qualityScore == Some(Truncate(res.qualityScore))
  {
    var outcome := JobAfterRun(running, files[jobId], Success(res), completedAt, failedAt, Saved);
    var dir := outcome.1;
    assert dir[CleaningLogFile] == LogText(LogFileText(res.cleaningLog));
    assert dir[CleanedDataFile] == CleanedCsv(res.cleanedFrame);
  }

  // ---------------------------------------------------------------------
  // Downloads

  const FileMissing := "File not found"

  /** `download_file`: the owner's lookup, then the named file of the job's directory. */
  function DownloadFile(jobs: map<string, Job>, files: map<string, map<string, StoredFile>>,
                        jobId: string, name: string, userId: int): (r: Result<StoredFile, HttpError>)
    ensures FindOwnedJob(jobs, jobId, userId).Failure? ==> r == Failure(FindOwnedJob(jobs, jobId, userId).error)
    ensures FindOwnedJob(jobs, jobId, userId).Success? ==>
      (r.Success? <==> name in Directory(files, jobId))
      && (r.Success? ==> r.value == Directory(files, jobId)[name])
      && (r.Failure? ==> r.error == NotFound(FileMissing))
  {
    match FindOwnedJob(jobs, jobId, userId)
    case Failure(e) => Failure(e)
    case Success(_) =>
      var dir := Directory(files, jobId);
      if name in dir then Success(dir[name]) else Failure(NotFound(FileMissing))
  }

  /** Both links of a complete job's results lead to files its owner can download. */
  lemma ResultLinksResolve(jobs: map<string, Job>, files: map<string, map<string, StoredFile>>,
                           jobId: string, userId: int)
    requires StoreInvariant(jobs, files)
    requires jobId in jobs && jobs[jobId].userId == userId && jobs[jobId].status == Complete
    ensures DownloadFile(jobs, files, jobId, CleanedDataFile, userId).Success?
    ensures DownloadFile(jobs, files, jobId, CleaningLogFile, userId).Success?
    ensures DownloadFile(jobs, files, jobId, CleaningLogFile, userId).value.LogText?
  {
  }
}
