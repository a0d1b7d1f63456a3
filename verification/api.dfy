/**
 * The API handler's entry point (lambda/api_handler.py, `lambda_handler`):
 * route an API Gateway event to one of the four endpoints, or answer 404,
 * and turn an exception raised while routing into a 500.
 *
 * Everything an invocation learns from outside the event (the configured
 * bucket name, the job id `uuid4` draws, the clock readings, the download,
 * and the outcome of every service call) is gathered in a `World`.
 */
module Api {
  import opened Wrappers
  import opened Json
  import opened Storage
  import opened Responses
  import Submission
  import JobStatus
  import Results

  /**
   * The parts of the event the router reads. A missing `httpMethod` is `""`
   * and a missing `path` is `Some("")`; `None` is a path given as null.
   * `jobIdParam` is `pathParameters.get('job_id')`. A missing body is the
   * text `{}`.
   */
  datatype Event = Event(httpMethod: string, path: Option<string>, jobIdParam: Option<string>,
                         body: Submission.RequestBody)

  /** The handler the router picks. */
  datatype Route =
    | Process
    | Status(jobId: Option<string>)
    | ResultsList
    | Health
    | NotFound
    | Crash(details: string)

  /** What the handler raises when it tests a null path for the `/status/` prefix. */
  const NullPathError := "'NoneType' object has no attribute 'startswith'"

  /**
   * The routing chain. POST needs the exact path `/process`; a GET is tried
   * against the `/status/` prefix first, then `/results` and `/health`. The
   * job id comes from the path parameters, never from the path itself.
   */
  function RouteOf(e: Event): (r: Route)
    ensures r.Process? <==> e.httpMethod == "POST" && e.path == Some("/process")
    ensures r.Crash? <==> e.httpMethod == "GET" && e.path.None?
    ensures r.Status? <==> e.httpMethod == "GET" && e.path.Some? && "/status/" <= e.path.value
    ensures r.Status? ==> r.jobId == e.jobIdParam
    ensures r.ResultsList? <==> e.httpMethod == "GET" && e.path == Some("/results")
    ensures r.Health? <==> e.httpMethod == "GET" && e.path == Some("/health")
    ensures e.httpMethod != "GET" && e.httpMethod != "POST" ==> r == NotFound
  {
    if e.httpMethod == "POST" && e.path == Some("/process") then Process
    else if e.httpMethod != "GET" then NotFound
    else if e.path.None? then Crash(NullPathError)
    else if "/status/" <= e.path.value then
      assert "/results"[2] != "/status/"[2];
      Status(e.jobIdParam)
    else if e.path.value == "/results" then ResultsList
    else if e.path.value == "/health" then Health
    else NotFound
  }

  /** The bucket name: the `BUCKET_NAME` environment variable, or the fixed default when it is unset. */
  function ConfiguredBucket(env: Option<string>): (name: string)
    ensures env.Some? ==> name == env.value
    ensures env.None? ==> name == "data-pipeline-bucket-12345"
  {
    env.GetOr("data-pipeline-bucket-12345")
  }

  /** Everything an invocation takes from its environment besides the event and the stored state. */
  datatype World = World(
    bucketEnv: Option<string>,
    jobId: string,
    createdAt: string,
    updatedAt: string,
    now: string,
    download: Submission.Download,
    rawPutFailure: Option<string>,
    processedPutFailure: Option<string>,
    tablePutFailure: Option<string>,
    getFailure: Option<string>,
    statusListFailure: Option<string>,
    updateFailure: Option<string>,
    resultsListFailure: bool,
    info: string -> Results.ObjectInfo,
    presign: string -> Option<string>,
    scanFailure: bool)

  /** The 500 answer for an exception that escaped routing. */
  function CrashResponse(details: string): (r: Response)
    ensures r.statusCode == 500 && r.headers == CorsHeaders
    ensures Field(r.body, "error") == Some(Str("Internal server error"))
    ensures Field(r.body, "details") == Some(Str(details))
  {
    var fields := [Entry("error", Str("Internal server error")), Entry("details", Str(details))];
    LookupDistinct(fields, 0);
    LookupDistinct(fields, 1);
    CreateResponse(500, Obj(fields))
  }

  /** One invocation: its response, and the bucket and table afterwards. */
  datatype ApiRun = ApiRun(response: Response, objects: seq<S3Object>, jobs: map<string, JobRecord>)

  /**
   * What one invocation answers and leaves behind. Only a submission writes
   * objects, and only a submission or a status poll touches the table.
   */
  function Dispatch(objects: seq<S3Object>, jobs: map<string, JobRecord>, e: Event, w: World): (run: ApiRun)
    ensures run.response.headers == CorsHeaders
    ensures !RouteOf(e).Process? ==> run.objects == objects
    ensures !RouteOf(e).Process? && !RouteOf(e).Status? ==> run.jobs == jobs
  {
    match RouteOf(e)
    case Process =>
      var s := Submission.Submit(ConfiguredBucket(w.bucketEnv), e.body, w.jobId, w.download, w.rawPutFailure,
                                 w.processedPutFailure, w.tablePutFailure, w.createdAt, w.updatedAt);
      ApiRun(s.response, ApplyPuts(objects, s.puts), if s.item.Some? then jobs[w.jobId := s.item.value] else jobs)
    case Status(id) =>
      var p := JobStatus.Poll(objects, jobs, id, w.getFailure, w.statusListFailure, w.updateFailure, w.now);
      ApiRun(p.response, objects, p.jobs)
    case ResultsList =>
      ApiRun(Results.Results(objects, jobs, w.resultsListFailure, w.info, w.presign, w.scanFailure), objects, jobs)
    case Health => ApiRun(HealthCheck(w.now), objects, jobs)
    case NotFound => ApiRun(ErrorResponse(404, "Endpoint not found"), objects, jobs)
    case Crash(m) => ApiRun(CrashResponse(m), objects, jobs)
  }

  /** The handler: route, then run the chosen endpoint against the bucket and the table. */
  method LambdaHandler(bucket: Bucket, table: JobTable, e: Event, w: World) returns (response: Response)
    requires bucket.Valid()
    modifies bucket, table
    ensures bucket.Valid()
    ensures var run := Dispatch(old(bucket.objects), old(table.jobs), e, w);
      response == run.response && bucket.objects == run.objects && table.jobs == run.jobs
  {
    if e.httpMethod == "POST" && e.path == Some("/process") {
      response := Submission.HandleProcessRequest(bucket, table, ConfiguredBucket(w.bucketEnv), e.body, w.jobId,
                                                  w.download, w.rawPutFailure, w.processedPutFailure,
                                                  w.tablePutFailure, w.createdAt, w.updatedAt);
    } else if e.httpMethod == "GET" && e.path.None? {
      response := CrashResponse(NullPathError);
    } else if e.httpMethod == "GET" && "/status/" <= e.path.value {
      response := JobStatus.HandleStatusRequest(bucket, table, e.jobIdParam, w.getFailure, w.statusListFailure,
                                                w.updateFailure, w.now);
    } else if e.httpMethod == "GET" && e.path.value == "/results" {
      response := Results.HandleResultsRequest(bucket, table, w.resultsListFailure, w.info, w.presign,
                                               w.scanFailure);
    } else if e.httpMethod == "GET" && e.path.value == "/health" {
      response := HealthCheck(w.now);
    } else {
      response := ErrorResponse(404, "Endpoint not found");
    }
  }

  /** Any method other than GET and POST is a 404 that changes nothing, whatever the path. */
  lemma OtherMethodsNotFound(objects: seq<S3Object>, jobs: map<string, JobRecord>, e: Event, w: World)
    requires e.httpMethod != "GET" && e.httpMethod != "POST"
    ensures Dispatch(objects, jobs, e, w) == ApiRun(ErrorResponse(404, "Endpoint not found"), objects, jobs)
  {
  }

  /**
   * Two status requests with the same path parameter are answered alike,
   * whatever follows `/status/` in their paths.
   */
  lemma StatusIgnoresPathSuffix(objects: seq<S3Object>, jobs: map<string, JobRecord>, e1: Event, e2: Event,
                                w: World)
    requires e1.httpMethod == "GET" && e2.httpMethod == "GET"
    requires e1.path.Some? && "/status/" <= e1.path.value
    requires e2.path.Some? && "/status/" <= e2.path.value
    requires e1.jobIdParam == e2.jobIdParam
    ensures Dispatch(objects, jobs, e1, w) == Dispatch(objects, jobs, e2, w)
  {
  }

  /**
   * A submission whose records yield a table and whose writes all succeed is
   * answered 202, records its job, and leaves an object under the job's
   * processed prefix.
   */
  lemma SubmitStoresProcessed(objects: seq<S3Object>, jobs: map<string, JobRecord>, post: Event, w: World)
    requires post.httpMethod == "POST" && post.path == Some("/process")
    requires Submission.CheckRequest(post.body).Accepted?
    requires w.download.Downloaded? && Submission.Derive(w.download.parsed).Some?
    requires w.rawPutFailure.None? && w.processedPutFailure.None? && w.tablePutFailure.None?
    ensures var first := Dispatch(objects, jobs, post, w);
      && first.response.statusCode == 202
      && w.jobId in first.jobs
      && ListPrefix(first.objects, JobStatus.StatusPrefix(w.jobId)) != []
  {
    var s := Submission.Submit(ConfiguredBucket(w.bucketEnv), post.body, w.jobId, w.download, w.rawPutFailure,
                               w.processedPutFailure, w.tablePutFailure, w.createdAt, w.updatedAt);
    var raw := S3Object(Submission.RawKey(w.jobId), RawText(w.download.text));
    var processed := S3Object(Submission.ProcessedKey(w.jobId), Submission.Derive(w.download.parsed).value);
    var after := ApplyPuts(objects, s.puts);
    assert s.puts == [raw, processed];
    assert processed.key in ListPrefix(after, JobStatus.StatusPrefix(w.jobId)) by {
      ApplyTwoPuts(objects, raw, processed);
      assert processed in after;
      assert processed.key in ObjectKeys(after);
      Submission.ProcessedKeyShape(w.jobId);
    }
  }

  /**
   * A submission whose records yield a table and whose writes all succeed is
   * reported `completed` by the next poll of its job id.
   */
  lemma SubmitThenPollCompleted(objects: seq<S3Object>, jobs: map<string, JobRecord>, post: Event, w: World,
                                get: Event, w2: World)
    requires post.httpMethod == "POST" && post.path == Some("/process")
    requires Submission.CheckRequest(post.body).Accepted?
    requires w.download.Downloaded? && Submission.Derive(w.download.parsed).Some?
    requires w.rawPutFailure.None? && w.processedPutFailure.None? && w.tablePutFailure.None?
    requires get.httpMethod == "GET" && get.path.Some? && "/status/" <= get.path.value
    requires get.jobIdParam == Some(w.jobId) && w.jobId != ""
    requires w2.getFailure.None? && w2.statusListFailure.None?
    ensures var first := Dispatch(objects, jobs, post, w);
      var second := Dispatch(first.objects, first.jobs, get, w2);
      && first.response.statusCode == 202
      && second.response.statusCode == 200
      && Field(second.response.body, "status") == Some(Str("completed"))
  {
    SubmitStoresProcessed(objects, jobs, post, w);
    var first := Dispatch(objects, jobs, post, w);
    JobStatus.ProcessedObjectCompletesJob(first.objects, first.jobs, w.jobId, w2.updateFailure, w2.now);
  }
}
