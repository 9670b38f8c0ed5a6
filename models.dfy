/**
 * The records the API works on: jobs and users as stored in the
 * database, HTTP errors, and the store holding the jobs table and the
 * per-job upload directories.
 */
module Models {
  import opened Common
  import opened Text
  import opened Config
  import opened Frames

  /** A clock reading, in seconds. */
  type Timestamp = real

  datatype JobStatus = Queued | Processing | Complete | Failed

  /** The status as stored in the `status` column. */
  function StatusName(s: JobStatus): string {
    match s
    case Queued => "queued"
    case Processing => "processing"
    case Complete => "complete"
    case Failed => "failed"
  }

  /** A row of the jobs table (the surrogate integer key aside). */
  datatype Job = Job(
    jobId: string,
    userId: int,
    filename: string,
    fileSize: Option<int>,
    status: JobStatus,
    progress: int,
    rowsCount: Option<int>,
    qualityScore: Option<int>,
    createdAt: Timestamp,
    startedAt: Option<Timestamp>,
    completedAt: Option<Timestamp>,
    processingTime: Option<real>,
    errorMessage: Option<string>)

  /** A freshly inserted job: queued, no progress, no results. */
  function NewJob(jobId: string, userId: int, filename: string, fileSize: int, now: Timestamp): (j: Job)
    ensures j.status == Queued && j.progress == 0 && j.jobId == jobId && j.userId == userId
    ensures j.startedAt.None? && j.completedAt.None? && j.rowsCount.None? && j.qualityScore.None?
  {
    Job(jobId, userId, filename, Some(fileSize), Queued, 0, None, None, now, None, None, None, None)
  }

  /**
   * What the life cycle keeps true of a job: progress and score are
   * percentages; a queued job has not started; a running job has a start
   * time; a complete job carries its results; a failed job its error.
   */
  predicate JobWellFormed(j: Job) {
    && 0 <= j.progress <= 100
    && (j.qualityScore.Some? ==> 0 <= j.qualityScore.value <= 100)
    && (j.rowsCount.Some? ==> j.rowsCount.value >= 1)
    && (j.status == Queued ==> j.progress == 0 && j.startedAt.None? && j.completedAt.None?)
    && (j.status == Processing ==> j.startedAt.Some?)
    && (j.status == Complete ==>
          j.progress == 100 && j.rowsCount.Some? && j.qualityScore.Some?
          && j.startedAt.Some? && j.completedAt.Some? && j.processingTime.Some?)
    && (j.status == Failed ==> j.startedAt.Some? && j.completedAt.Some? && j.errorMessage.Some?)
  }

  /** The user row fields the upload path reads and updates. */
  class User {
    const id: int
    var uploadCount: int
    var uploadLimit: int

    /** A new user: no uploads yet, a limit of 10 a month. */
    constructor (id: int)
      ensures this.id == id && uploadCount == 0 && uploadLimit == 10
    {
      this.id := id;
      uploadCount := 0;
      uploadLimit := 10;
    }
  }

  datatype HttpError =
    | BadRequest(detail: string)
    | Forbidden(detail: string)
    | NotFound(detail: string)
    | TooManyRequests(detail: string)
  {
    function Code(): int {
      match this
      case BadRequest(_) => 400
      case Forbidden(_) => 403
      case NotFound(_) => 404
      case TooManyRequests(_) => 429
    }
  }

  const JobNotFound := "Job not found"
  const NoAccess := "You don't have access to this job"

  /**
   * The lookup every job endpoint starts with: an unknown id is reported
   * before a job of another user.
   */
  function FindOwnedJob(jobs: map<string, Job>, jobId: string, userId: int): (r: Result<Job, HttpError>)
    ensures jobId !in jobs ==> r == Failure(NotFound(JobNotFound))
    ensures jobId in jobs && jobs[jobId].userId != userId ==> r == Failure(Forbidden(NoAccess))
    ensures r.Success? <==> jobId in jobs && jobs[jobId].userId == userId
    ensures r.Success? ==> r.value == jobs[jobId]
  {
    if jobId !in jobs then Failure(NotFound(JobNotFound))
    else if jobs[jobId].userId != userId then Failure(Forbidden(NoAccess))
    else Success(jobs[jobId])
  }

  /** What a job directory holds: the upload, and the pipeline's two outputs. */
  datatype StoredFile = UploadBytes(data: seq<byte>) | CleanedCsv(frame: Frame) | LogText(text: string)

  const CleanedDataFile := "cleaned_data.csv"
  const CleaningLogFile := "cleaning_log.txt"

  /** A background run of the pipeline on one job's upload. */
  datatype ProcessTask = ProcessTask(jobId: string, filepath: string, userId: int)

  /** `os.path.join(a, b)` on POSIX. */
  function PathJoin(a: string, b: string): (r: string)
    ensures |b| <= |r| && r[|r| - |b|..] == b
    ensures |b| > 0 && b[0] == '/' ==> r == b
    ensures !(|b| > 0 && b[0] == '/') ==> a <= r
  {
    if |b| > 0 && b[0] == '/' then b
    else if a == "" || a[|a| - 1] == '/' then a + b
    else a + "/" + b
  }

  /** `get_upload_path`: the upload directory, then the job's directory, then the name. */
  function UploadPath(settings: Settings, jobId: string, filename: string): string {
    PathJoin(PathJoin(settings.uploadDir, jobId), filename)
  }

  /** The jobs table and the upload tree, one directory per job id. */
  class Store {
    var jobs: map<string, Job>
    var files: map<string, map<string, StoredFile>>

    constructor ()
      ensures jobs == map[] && files == map[]
    {
      jobs := map[];
      files := map[];
    }

    /**
     * Every job is filed under its own id, is well formed and has its
     * directory, and a complete job's directory holds the cleaned data and
     * the log it wrote.
     */
    predicate Valid()
      reads this
    {
      StoreInvariant(jobs, files)
    }
  }

  /** What `Store.Valid` asks of the jobs table and the upload tree. */
  predicate StoreInvariant(jobs: map<string, Job>, files: map<string, map<string, StoredFile>>) {
    forall id :: id in jobs ==>
      jobs[id].jobId == id && JobWellFormed(jobs[id]) && id in files
      && (jobs[id].status == Complete ==> HasOutputs(files, id))
  }

  /** Filing a well-formed job under its id, with a directory of its own, keeps the invariant. */
  lemma InvariantAfterUpdate(jobs: map<string, Job>, files: map<string, map<string, StoredFile>>,
                             job: Job, dir: map<string, StoredFile>)
    requires StoreInvariant(jobs, files)
    requires JobWellFormed(job)
    requires job.status == Complete ==> HasOutputs(map[job.jobId := dir], job.jobId)
    ensures StoreInvariant(jobs[job.jobId := job], files[job.jobId := dir])
  {
    var jobs', files' := jobs[job.jobId := job], files[job.jobId := dir];
    forall id | id in jobs'
      ensures jobs'[id].jobId == id && JobWellFormed(jobs'[id]) && id in files'
      ensures jobs'[id].status == Complete ==> HasOutputs(files', id)
    {
      if id != job.jobId {
        assert jobs'[id] == jobs[id];
        assert Directory(files', id) == Directory(files, id);
      }
    }
  }

  /** Removing a job together with its directory keeps the invariant. */
  lemma InvariantAfterRemoval(jobs: map<string, Job>, files: map<string, map<string, StoredFile>>, jobId: string)
    requires StoreInvariant(jobs, files)
    ensures StoreInvariant(jobs - {jobId}, files - {jobId})
  {
    var jobs', files' := jobs - {jobId}, files - {jobId};
    forall id | id in jobs'
      ensures jobs'[id].status == Complete ==> HasOutputs(files', id)
    {
      assert jobs'[id] == jobs[id];
    }
  }

  /** The job's directory holds a cleaned frame and a log text. */
  predicate HasOutputs(files: map<string, map<string, StoredFile>>, id: string) {
    id in files
    && CleanedDataFile in files[id] && files[id][CleanedDataFile].CleanedCsv?
    && CleaningLogFile in files[id] && files[id][CleaningLogFile].LogText?
  }

  /** The directory of a job, empty when it does not exist. */
  function Directory(files: map<string, map<string, StoredFile>>, id: string): map<string, StoredFile> {
    if id in files then files[id] else map[]
  }
}
