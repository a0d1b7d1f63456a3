/**
 * GET /status/{job_id} (lambda/api_handler.py, `handle_status_request`):
 * read the job item, list the job's processed objects, and when there is one
 * report (and store) the job as `completed`.
 *
 * The clock reading and the outcome of each service call are inputs.
 */
module JobStatus {
  import opened Wrappers
  import opened Json
  import opened Storage
  import opened Responses

  /** Where a job's processed objects live: `processed-data/`, the job id, then `/`. */
  function StatusPrefix(jobId: string): string
  {
    "processed-data/" + jobId + "/"
  }

  /** A stored attribute as the response shows it: missing is null. */
  function OptionalText(s: Option<string>): Value
  {
    if s.Some? then Str(s.value) else Null
  }

  /** The listed keys as a JSON list. */
  function KeyList(keys: seq<string>): (v: Value)
    ensures v.List? && |v.items| == |keys|
    ensures forall i :: 0 <= i < |keys| ==> v.items[i] == Str(keys[i])
  {
    List(seq(|keys|, i requires 0 <= i < |keys| => Str(keys[i])))
  }

  /**
   * The 200 body: the reported status (`unknown` when the item has none),
   * the item's creation and update times as stored, its source URL, and the
   * listed keys.
   */
  function StatusBody(jobId: string, item: JobRecord, status: Option<string>, files: seq<string>): (v: Value)
    ensures Field(v, "status") == Some(Str(status.GetOr("unknown")))
    ensures Field(v, "processed_files") == Some(KeyList(files))
    ensures Field(v, "updated_at") == Some(OptionalText(item.updatedAt))
  {
    var fields := [Entry("job_id", Str(jobId)),
                   Entry("status", Str(status.GetOr("unknown"))),
                   Entry("created_at", OptionalText(item.createdAt)),
                   Entry("updated_at", OptionalText(item.updatedAt)),
                   Entry("source_url", item.sourceUrl.GetOr(Null)),
                   Entry("processed_files", KeyList(files))];
    LookupDistinct(fields, 1);
    LookupDistinct(fields, 3);
    LookupDistinct(fields, 5);
    Obj(fields)
  }

  /** One poll: its response and the table afterwards. */
  datatype StatusRun = StatusRun(response: Response, jobs: map<string, JobRecord>)

  /** The keys the poll reports: none when the listing failed. */
  function ListedFiles(objects: seq<S3Object>, jobId: string, listFailure: Option<string>): seq<string>
  {
    if listFailure.Some? then [] else ListPrefix(objects, StatusPrefix(jobId))
  }

  /**
   * A poll of a stored job: the listed keys decide the reported status, and
   * a non-empty listing stores `completed` unless that update fails.
   */
  function PollStored(objects: seq<S3Object>, jobs: map<string, JobRecord>, id: string,
                      listFailure: Option<string>, updateFailure: Option<string>, now: string): (run: StatusRun)
    requires id in jobs
    ensures run.response.statusCode == 200 && run.response.headers == CorsHeaders
    ensures run.jobs.Keys == jobs.Keys
    ensures forall other :: other in jobs && other != id ==> run.jobs[other] == jobs[other]
  {
    var item := jobs[id];
    var files := ListedFiles(objects, id, listFailure);
    var status := if files != [] then Some("completed") else item.status;
    var after := if files != [] && updateFailure.None? then jobs[id := WithStatus(Some(item), "completed", now)]
                 else jobs;
    StatusRun(CreateResponse(200, StatusBody(id, item, status, files)), after)
  }

  /** What one GET /status/{job_id} answers and leaves in the table. */
  function Poll(objects: seq<S3Object>, jobs: map<string, JobRecord>, jobId: Option<string>,
                getFailure: Option<string>, listFailure: Option<string>, updateFailure: Option<string>,
                now: string): (run: StatusRun)
    ensures run.response.headers == CorsHeaders
    ensures run.jobs.Keys == jobs.Keys
    ensures forall id :: id in jobs && Some(id) != jobId ==> run.jobs[id] == jobs[id]
  {
    if jobId.None? || jobId.value == "" then StatusRun(ErrorResponse(400, "Job ID is required"), jobs)
    else if getFailure.Some? then StatusRun(ErrorResponse(500, getFailure.value), jobs)
    else if jobId.value !in jobs then StatusRun(ErrorResponse(404, "Job not found"), jobs)
    else PollStored(objects, jobs, jobId.value, listFailure, updateFailure, now)
  }

  /** The handler, mutating its copy of the item and updating the table as the source does. */
  method HandleStatusRequest(bucket: Bucket, table: JobTable, jobId: Option<string>, getFailure: Option<string>,
                             listFailure: Option<string>, updateFailure: Option<string>, now: string)
    returns (response: Response)
    modifies table
    ensures var run := Poll(bucket.objects, old(table.jobs), jobId, getFailure, listFailure, updateFailure, now);
      response == run.response && table.jobs == run.jobs
  {
    if jobId.None? || jobId.value == "" {
      return ErrorResponse(400, "Job ID is required");
    }
    var id := jobId.value;
    if getFailure.Some? {
      return ErrorResponse(500, getFailure.value);
    }
    if id !in table.jobs {
      return ErrorResponse(404, "Job not found");
    }
    var jobInfo := table.jobs[id];
    var stored := jobInfo;
    var processedFiles: seq<string> := [];
    if listFailure.None? {
      processedFiles := ListPrefix(bucket.objects, StatusPrefix(id));
      if processedFiles != [] {
        jobInfo := jobInfo.(status := Some("completed"));
        var ignored := table.UpdateStatus(id, "completed", now, updateFailure);
      }
    }
    response := CreateResponse(200, StatusBody(id, stored, jobInfo.status, processedFiles));
  }

  /** A missing or empty job id is a 400 and touches nothing. */
  lemma MissingJobIdIs400(objects: seq<S3Object>, jobs: map<string, JobRecord>, jobId: Option<string>,
                          getFailure: Option<string>, listFailure: Option<string>, updateFailure: Option<string>,
                          now: string)
    requires jobId.None? || jobId.value == ""
    ensures Poll(objects, jobs, jobId, getFailure, listFailure, updateFailure, now)
         == StatusRun(ErrorResponse(400, "Job ID is required"), jobs)
  {
  }

  /** An unknown job is a 404 and touches nothing. */
  lemma UnknownJobIs404(objects: seq<S3Object>, jobs: map<string, JobRecord>, jobId: string,
                        listFailure: Option<string>, updateFailure: Option<string>, now: string)
    requires jobId != "" && jobId !in jobs
    ensures Poll(objects, jobs, Some(jobId), None, listFailure, updateFailure, now)
         == StatusRun(ErrorResponse(404, "Job not found"), jobs)
  {
  }

  /**
   * A known job with an object under its processed prefix is reported
   * `completed`, with exactly the listed keys, and, unless the update fails,
   * stored as `completed` with every other attribute kept.
   */
  lemma ProcessedObjectCompletesJob(objects: seq<S3Object>, jobs: map<string, JobRecord>, jobId: string,
                                    updateFailure: Option<string>, now: string)
    requires jobId != "" && jobId in jobs
    requires ListPrefix(objects, StatusPrefix(jobId)) != []
    ensures var run := Poll(objects, jobs, Some(jobId), None, None, updateFailure, now);
      && run.response.statusCode == 200
      && Field(run.response.body, "status") == Some(Str("completed"))
      && Field(run.response.body, "processed_files") == Some(KeyList(ListPrefix(objects, StatusPrefix(jobId))))
      && (updateFailure.None? ==> run.jobs[jobId] == WithStatus(Some(jobs[jobId]), "completed", now))
      && (updateFailure.Some? ==> run.jobs == jobs)
  {
  }

  /**
   * With nothing listed, the stored status is reported (`unknown` when there
   * is none) and the table is unchanged.
   */
  lemma NothingListedReportsStored(objects: seq<S3Object>, jobs: map<string, JobRecord>, jobId: string,
                                   listFailure: Option<string>, updateFailure: Option<string>, now: string)
    requires jobId != "" && jobId in jobs
    requires ListedFiles(objects, jobId, listFailure) == []
    ensures var run := Poll(objects, jobs, Some(jobId), None, listFailure, updateFailure, now);
      && run.response.statusCode == 200
      && Field(run.response.body, "status") == Some(Str(jobs[jobId].status.GetOr("unknown")))
      && run.jobs == jobs
  {
  }

  /**
   * Polling again against the same bucket reports the same status and the
   * same files, and, once the first poll's update went through, leaves every
   * stored status as the first poll left it: the correction is idempotent.
   */
  lemma PollIdempotent(objects: seq<S3Object>, jobs: map<string, JobRecord>, jobId: string,
                       update1: Option<string>, now1: string, update2: Option<string>, now2: string)
    requires jobId != "" && jobId in jobs
    ensures var first := Poll(objects, jobs, Some(jobId), None, None, update1, now1);
      var second := Poll(objects, first.jobs, Some(jobId), None, None, update2, now2);
      && Field(second.response.body, "status") == Field(first.response.body, "status")
      && Field(second.response.body, "processed_files") == Field(first.response.body, "processed_files")
      && second.jobs.Keys == first.jobs.Keys
      && (update1.None? ==> forall id :: id in first.jobs ==> second.jobs[id].status == first.jobs[id].status)
  {
    var files := ListPrefix(objects, StatusPrefix(jobId));
    var first := Poll(objects, jobs, Some(jobId), None, None, update1, now1);
    if files == [] {
      assert first.jobs == jobs;
    }
  }
}
