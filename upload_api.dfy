/**
 * The upload endpoints: accepting a file under the monthly quota, the
 * status of one job, the paged list of a user's jobs, and deletion.
 */
module UploadApi {
  import opened Common
  import opened Text
  import opened Config
  import opened Validation
  import opened Models

  // ---------------------------------------------------------------------
  // Upload

  datatype UploadResponse = UploadResponse(
    jobId: string,
    filename: string,
    fileSize: int,
    status: string,
    message: string,
    createdAt: Timestamp)

  function QuotaMessage(limit: int): string {
    "Upload limit reached (" + IntToString(limit) + "/month). Please upgrade."
  }

  const UploadAccepted := "File uploaded successfully. Processing started automatically."

  /**
   * `upload_file`. The quota is checked before the file is looked at; an
   * invalid file is refused with the validator's message; an accepted
   * file is saved in a new directory of its own, a queued job is
   * inserted, the user's count goes up by one, and the background run of
   * the pipeline is handed back as a task. `jobId` is the freshly
   * generated id and `now` the clock when the row is inserted.
   */
  method UploadFile(store: Store, user: User, file: UploadFile, settings: Settings,
                    detect: seq<byte> -> Option<string>, jobId: string, now: Timestamp)
    returns (r: Result<UploadResponse, HttpError>, task: Option<ProcessTask>)
    requires store.Valid() && jobId !in store.jobs
    modifies store, user, file
    ensures store.Valid()
    ensures file.filename == old(file.filename) && file.content == old(file.content)
    ensures old(user.uploadCount) >= old(user.uploadLimit) ==>
      r == Failure(TooManyRequests(QuotaMessage(old(user.uploadLimit)))) && task.None?
      && unchanged(store, user, file)
    ensures old(user.uploadCount) < old(user.uploadLimit)
            && !UploadVerdict(true, file.filename, |file.content|, detect(Header(file.content)), settings).0 ==>
      r == Failure(BadRequest(UploadVerdict(true, file.filename, |file.content|, detect(Header(file.content)), settings).1))
      && task.None? && unchanged(store, user)
    ensures old(user.uploadCount) < old(user.uploadLimit)
            && UploadVerdict(true, file.filename, |file.content|, detect(Header(file.content)), settings).0 ==>
      var name := file.filename.value;
      var size := |file.content|;
      && r == Success(UploadResponse(jobId, name, size, "processing", UploadAccepted, now))
      && task == Some(ProcessTask(jobId, UploadPath(settings, jobId, name), user.id))
      && store.jobs == old(store.jobs)[jobId := NewJob(jobId, user.id, name, size, now)]
      && store.files == WithUpload(old(store.files), jobId, name, file.content)
      && user.uploadCount == old(user.uploadCount) + 1 && user.uploadLimit == old(user.uploadLimit)
      && file.position == 0
  {
    if user.uploadCount >= user.uploadLimit {
      return Failure(TooManyRequests(QuotaMessage(user.uploadLimit))), None;
    }
    var valid, message := ValidateUploadFile(file, settings, detect);
    if !valid {
      return Failure(BadRequest(message)), None;
    }
    UploadVerdictValidIff(true, file.filename, |file.content|, detect(Header(file.content)), settings);
    r, task := SaveUpload(store, user.id, file, settings, jobId, now);
    user.uploadCount := user.uploadCount + 1;
  }

  /** The upload tree with `data` saved as `name` in the job's directory. */
  function WithUpload(files: map<string, map<string, StoredFile>>, jobId: string, name: string,
                      data: seq<byte>): (r: map<string, map<string, StoredFile>>)
    ensures r.Keys == files.Keys + {jobId}
    ensures r[jobId] == Directory(files, jobId)[name := UploadBytes(data)]
    ensures forall id :: id in files && id != jobId ==> r[id] == files[id]
  {
    files[jobId := Directory(files, jobId)[name := UploadBytes(data)]]
  }

  /**
   * `save_upload_file` and the rest of an accepted upload: the bytes left
   * from the cursor (all of them, as validation rewound it) are written
   * to the job's directory, the file is rewound, the job row is inserted
   * and the user's count goes up.
   */
  method SaveUpload(store: Store, userId: int, file: UploadFile, settings: Settings,
                    jobId: string, now: Timestamp)
    returns (r: Result<UploadResponse, HttpError>, task: Option<ProcessTask>)
    requires store.Valid() && jobId !in store.jobs
    requires file.filename.Some? && file.position == 0
    modifies store, file`position
    ensures store.Valid()
    ensures file.position == 0
    ensures var name := file.filename.value;
      var size := |file.content|;
      && r == Success(UploadResponse(jobId, name, size, "processing", UploadAccepted, now))
      && task == Some(ProcessTask(jobId, UploadPath(settings, jobId, name), userId))
    ensures store.jobs == old(store.jobs)[jobId := NewJob(jobId, userId, file.filename.value, |file.content|, now)]
    ensures store.files == WithUpload(old(store.files), jobId, file.filename.value, file.content)
  {
    var name := file.filename.value;
    var jobs, files := store.jobs, store.files;
    var content := file.Read(-1);
    file.SeekStart(0);
    assert content == file.content;
    var size := |content|;
    var job := NewJob(jobId, userId, name, size, now);
    var dir := Directory(files, jobId)[name := UploadBytes(content)];
    InvariantAfterUpdate(jobs, files, job, dir);
    store.files := WithUpload(files, jobId, name, content);
    store.jobs := jobs[jobId := job];
    r := Success(UploadResponse(jobId, name, size, "processing", UploadAccepted, now));
    task := Some(ProcessTask(jobId, UploadPath(settings, jobId, name), userId));
  }

  // ---------------------------------------------------------------------
  // Status of one job

  datatype JobStatusView = JobStatusView(
    jobId: string,
    filename: string,
    status: string,
    progress: int,
    rowsCount: Option<int>,
    qualityScore: Option<int>,
    createdAt: Timestamp,
    startedAt: Option<Timestamp>,
    completedAt: Option<Timestamp>,
    processingTime: Option<real>,
    errorMessage: Option<string>)

  /** `get_job_status`: the owner's lookup, then the stored fields as they are. */
  function GetJobStatus(jobs: map<string, Job>, jobId: string, userId: int): (r: Result<JobStatusView, HttpError>)
    ensures r.Failure? <==> FindOwnedJob(jobs, jobId, userId).Failure?
    ensures r.Failure? ==> r.error == FindOwnedJob(jobs, jobId, userId).error
    ensures r.Success? ==>
      var j := jobs[jobId];
      r.value.jobId == j.jobId && r.value.status == StatusName(j.status) && r.value.progress == j.progress
      && r.value.filename == j.filename && r.value.rowsCount == j.rowsCount
      && r.value.qualityScore == j.qualityScore && r.value.errorMessage == j.errorMessage
      && r.value.createdAt == j.createdAt && r.value.startedAt == j.startedAt
      && r.value.completedAt == j.completedAt && r.value.processingTime == j.processingTime
  {
    match FindOwnedJob(jobs, jobId, userId)
    case Failure(e) => Failure(e)
    case Success(j) =>
      Success(JobStatusView(j.jobId, j.filename, StatusName(j.status), j.progress, j.rowsCount,
                            j.qualityScore, j.createdAt, j.startedAt, j.completedAt,
                            j.processingTime, j.errorMessage))
  }

  /** Right after an upload, its owner sees the job queued with no progress. */
  lemma UploadedJobIsQueued(jobs: map<string, Job>, jobId: string, userId: int, filename: string,
                            size: int, now: Timestamp)
    ensures var r := GetJobStatus(jobs[jobId := NewJob(jobId, userId, filename, size, now)], jobId, userId);
      r.Success? && r.value.status == "queued" && r.value.progress == 0 && r.value.jobId == jobId
  {
  }

  /** Another user is refused the job, and an id never inserted is not found. */
  lemma UploadedJobIsPrivate(jobs: map<string, Job>, jobId: string, userId: int, other: int,
                             filename: string, size: int, now: Timestamp)
    requires other != userId
    ensures GetJobStatus(jobs[jobId := NewJob(jobId, userId, filename, size, now)], jobId, other)
         == Failure(Forbidden(NoAccess))
  {
  }

  // ---------------------------------------------------------------------
  // Listing

  datatype JobSummary = JobSummary(
    jobId: string,
    filename: string,
    status: string,
    progress: int,
    qualityScore: Option<int>,
    createdAt: Timestamp)

  datatype JobList = JobList(jobs: seq<JobSummary>, total: nat, limit: int, offset: int)

  function Summary(j: Job): JobSummary {
    JobSummary(j.jobId, j.filename, StatusName(j.status), j.progress, j.qualityScore, j.createdAt)
  }

  /** The ids of a user's jobs. */
  function OwnedIds(jobs: map<string, Job>, userId: int): set<string> {
    set id | id in jobs && jobs[id].userId == userId
  }

  /** Distinct ids of existing jobs, newest first. */
  predicate NewestFirst(jobs: map<string, Job>, order: seq<string>) {
    (forall i :: 0 <= i < |order| ==> order[i] in jobs)
    && (forall i, j :: 0 <= i < j < |order| ==> order[i] != order[j])
    && (forall i, j :: 0 <= i < j < |order| ==> jobs[order[i]].createdAt >= jobs[order[j]].createdAt)
  }

  /** All of a user's jobs and nothing else, newest first (ties in any order). */
  ghost predicate IsListing(jobs: map<string, Job>, userId: int, order: seq<string>) {
    NewestFirst(jobs, order) && forall id :: id in order <==> id in OwnedIds(jobs, userId)
  }

  /** Where an `OFFSET` starts: negative offsets count as none. */
  function WindowStart(len: nat, offset: int): (k: nat)
    ensures k <= len
  {
    if offset < 0 then 0 else Min(offset, len)
  }

  /**
   * `LIMIT limit OFFSET offset` as SQLite reads them: a negative limit
   * means no limit. The page is the run of rows from the offset, as many
   * as the limit allows.
   */
  function Window<T>(s: seq<T>, limit: int, offset: int): (w: seq<T>)
    ensures var k := WindowStart(|s|, offset);
      k + |w| <= |s| && w == s[k..k + |w|]
      && |w| == (if limit < 0 then |s| - k else Min(limit, |s| - k))
  {
    var k := WindowStart(|s|, offset);
    var stop := if limit < 0 || k + limit > |s| then |s| else k + limit;
    s[k..stop]
  }

  function Summaries(jobs: map<string, Job>, order: seq<string>): (r: seq<JobSummary>)
    requires forall i :: 0 <= i < |order| ==> order[i] in jobs
    ensures |r| == |order| && forall i :: 0 <= i < |order| ==> r[i] == Summary(jobs[order[i]])
  {
    seq(|order|, i requires 0 <= i < |order| => Summary(jobs[order[i]]))
  }

  /** Some job of a non-empty set is at least as new as all the others. */
  lemma {:induction false} NewestExists(jobs: map<string, Job>, s: set<string>)
    requires s != {} && s <= jobs.Keys
    ensures exists id :: id in s && forall o :: o in s ==> jobs[o].createdAt <= jobs[id].createdAt
  {
    var x :| x in s;
    if s != {x} {
      NewestExists(jobs, s - {x});
      var y :| y in s - {x} && forall o :: o in s - {x} ==> jobs[o].createdAt <= jobs[y].createdAt;
      if jobs[x].createdAt > jobs[y].createdAt {
        assert forall o :: o in s ==> jobs[o].createdAt <= jobs[x].createdAt;
      } else {
        assert forall o :: o in s ==> jobs[o].createdAt <= jobs[y].createdAt;
      }
    }
  }

  /**
   * `list_user_jobs`: the user's jobs newest first, the page cut out by
   * limit and offset, and a total that ignores paging.
   */
  method ListUserJobs(store: Store, userId: int, limit: int, offset: int) returns (r: JobList)
    ensures r.total == |OwnedIds(store.jobs, userId)| && r.limit == limit && r.offset == offset
    ensures exists order :: IsListing(store.jobs, userId, order)
                            && r.jobs == Window(Summaries(store.jobs, order), limit, offset)
  {
    var jobs := store.jobs;
    var owned := OwnedIds(jobs, userId);
    var remaining := owned;
    var order: seq<string> := [];
    while remaining != {}
      invariant remaining <= owned
      invariant forall id :: id in order <==> id in owned && id !in remaining
      invariant NewestFirst(jobs, order)
      invariant forall i, id :: 0 <= i < |order| && id in remaining ==> jobs[order[i]].createdAt >= jobs[id].createdAt
      decreases |remaining|
    {
      NewestExists(jobs, remaining);
      var newest :| newest in remaining && forall o :: o in remaining ==> jobs[o].createdAt <= jobs[newest].createdAt;
      order := order + [newest];
      remaining := remaining - {newest};
    }
    assert IsListing(jobs, userId, order);
    r := JobList(Window(Summaries(jobs, order), limit, offset), |owned|, limit, offset);
  }

  lemma {:induction false} DistinctCard(order: seq<string>)
    requires forall i, j :: 0 <= i < j < |order| ==> order[i] != order[j]
    ensures |set id | id in order| == |order|
  {
    if |order| > 0 {
      var rest := order[1..];
      DistinctCard(rest);
      assert (set id | id in order) == {order[0]} + (set id | id in rest);
      assert order[0] !in rest;
    }
  }

  /** A listing has exactly as many entries as the user has jobs. */
  lemma ListingLength(jobs: map<string, Job>, userId: int, order: seq<string>)
    requires IsListing(jobs, userId, order)
    ensures |order| == |OwnedIds(jobs, userId)|
  {
    DistinctCard(order);
    assert (set id | id in order) == OwnedIds(jobs, userId);
  }

  /** With the default paging, a user with at most 10 jobs sees all of them on one page. */
  lemma FirstPageHoldsAll(jobs: map<string, Job>, userId: int, order: seq<string>)
    requires IsListing(jobs, userId, order) && |OwnedIds(jobs, userId)| <= 10
    ensures Window(Summaries(jobs, order), 10, 0) == Summaries(jobs, order)
    ensures |Window(Summaries(jobs, order), 10, 0)| == |OwnedIds(jobs, userId)|
  {
    ListingLength(jobs, userId, order);
  }

  // ---------------------------------------------------------------------
  // Deletion

  datatype DeleteResponse = DeleteResponse(message: string, jobId: string)

  /** `delete_job`: the owner's lookup, then the job's directory and its row go. */
  method DeleteJob(store: Store, jobId: string, userId: int) returns (r: Result<DeleteResponse, HttpError>)
    requires store.Valid()
    modifies store
    ensures store.Valid()
    ensures FindOwnedJob(old(store.jobs), jobId, userId).Failure? ==>
      r == Failure(FindOwnedJob(old(store.jobs), jobId, userId).error) && unchanged(store)
    ensures FindOwnedJob(old(store.jobs), jobId, userId).Success? ==>
      r == Success(DeleteResponse("Job deleted successfully", jobId))
      && store.jobs == old(store.jobs) - {jobId} && store.files == old(store.files) - {jobId}
  {
    var found := FindOwnedJob(store.jobs, jobId, userId);
    if found.Failure? {
      return Failure(found.error);
    }
    InvariantAfterRemoval(store.jobs, store.files, jobId);
    store.files := store.files - {jobId};
    store.jobs := store.jobs - {jobId};
    r := Success(DeleteResponse("Job deleted successfully", jobId));
  }

  /** After a deletion the job is not found, and every other job reads as before. */
  lemma DeletedJobIsGone(jobs: map<string, Job>, jobId: string, userId: int)
    ensures GetJobStatus(jobs - {jobId}, jobId, userId) == Failure(NotFound(JobNotFound))
    ensures forall id, u :: id != jobId ==> GetJobStatus(jobs - {jobId}, id, u) == GetJobStatus(jobs, id, u)
  {
  }
}
