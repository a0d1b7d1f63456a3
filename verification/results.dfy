/**
 * GET /results (lambda/api_handler.py, `handle_results_request`): list the
 * processed `.csv` objects with download links, and count the jobs by status.
 * A failed listing leaves the file list as far as it got; a failed scan
 * leaves every count at zero.
 *
 * Object sizes and modification times, the presigned URLs, and whether the
 * listing and the scan fail are inputs.
 */
module Results {
  import opened Wrappers
  import opened Json
  import Text
  import opened Storage
  import opened Responses

  const ProcessedPrefix := "processed-data/"
  const CsvExtension := ".csv"

  /** `obj['Size']` and `obj['LastModified'].isoformat()` of a listed object. */
  datatype ObjectInfo = ObjectInfo(size: nat, lastModified: string)

  /** One entry of `processed_files`. */
  datatype FileInfo = FileInfo(fileName: string, s3Key: string, size: nat, lastModified: string, downloadUrl: string)

  /** The listed keys that end in `.csv`, in listing order. */
  function CsvKeys(keys: seq<string>): (r: seq<string>)
    ensures |r| <= |keys|
    ensures forall k :: k in r <==> k in keys && Text.EndsWith(k, CsvExtension)
  {
    if keys == [] then []
    else (if Text.EndsWith(keys[0], CsvExtension) then [keys[0]] else []) + CsvKeys(keys[1..])
  }

  /**
   * The list the loop builds: one entry per `.csv` key, named by the text
   * after its last slash. A presign that raises ends the list there.
   */
  function CsvFiles(keys: seq<string>, info: string -> ObjectInfo, presign: string -> Option<string>)
    : (r: seq<FileInfo>)
    ensures |r| <= |keys|
    ensures forall f :: f in r ==>
      && f.s3Key in keys && Text.EndsWith(f.s3Key, CsvExtension)
      && f.fileName == Text.LastSegment(f.s3Key)
      && presign(f.s3Key) == Some(f.downloadUrl)
  {
    if keys == [] then []
    else if !Text.EndsWith(keys[0], CsvExtension) then CsvFiles(keys[1..], info, presign)
    else match presign(keys[0])
      case None => []
      case Some(url) =>
        var meta := info(keys[0]);
        [FileInfo(Text.LastSegment(keys[0]), keys[0], meta.size, meta.lastModified, url)]
          + CsvFiles(keys[1..], info, presign)
  }

  /** When every presign succeeds, every `.csv` key is listed. */
  lemma {:induction false} EveryCsvListed(keys: seq<string>, info: string -> ObjectInfo,
                                          presign: string -> Option<string>)
    requires forall k :: k in keys ==> presign(k).Some?
    ensures |CsvFiles(keys, info, presign)| == |CsvKeys(keys)|
  {
    if keys != [] {
      assert forall k :: k in keys[1..] ==> k in keys;
      EveryCsvListed(keys[1..], info, presign);
    }
  }

  /**
   * The files listed are the `.csv` keys in listing order, up to the first
   * presign that fails: the i-th file is the i-th `.csv` key.
   */
  lemma {:induction false} FilesFollowCsvKeys(keys: seq<string>, info: string -> ObjectInfo,
                                              presign: string -> Option<string>)
    ensures var files := CsvFiles(keys, info, presign);
      |files| <= |CsvKeys(keys)| && forall i :: 0 <= i < |files| ==> files[i].s3Key == CsvKeys(keys)[i]
  {
    if keys != [] {
      var files := CsvFiles(keys, info, presign);
      var rest := CsvFiles(keys[1..], info, presign);
      var csv := CsvKeys(keys);
      FilesFollowCsvKeys(keys[1..], info, presign);
      if !Text.EndsWith(keys[0], CsvExtension) {
        assert files == rest;
        assert csv == CsvKeys(keys[1..]);
      } else if presign(keys[0]).Some? {
        assert csv == [keys[0]] + CsvKeys(keys[1..]);
        assert files == [files[0]] + rest;
        KeysFollowCons(files[0], rest, CsvKeys(keys[1..]));
      } else {
        assert files == [];
      }
    }
  }

  /** Putting a file with the key `x` in front of a list that follows `tail` follows `[x] + tail`. */
  lemma KeysFollowCons(file: FileInfo, rest: seq<FileInfo>, tail: seq<string>)
    requires |rest| <= |tail| && forall i :: 0 <= i < |rest| ==> rest[i].s3Key == tail[i]
    ensures var files := [file] + rest;
      forall i :: 0 <= i < |files| ==> files[i].s3Key == ([file.s3Key] + tail)[i]
  {
  }

  /** The files the response lists. */
  function ListedFiles(objects: seq<S3Object>, listFailure: bool, info: string -> ObjectInfo,
                       presign: string -> Option<string>): seq<FileInfo>
  {
    if listFailure then [] else CsvFiles(ListPrefix(objects, ProcessedPrefix), info, presign)
  }

  /** The job counters. */
  datatype JobStats = JobStats(total: nat, completed: nat, processing: nat)

  /** The jobs among `ids` whose stored status is exactly `status`. */
  function HavingStatus(jobs: map<string, JobRecord>, ids: set<string>, status: string): set<string>
  {
    set id | id in ids && id in jobs && jobs[id].status == Some(status)
  }

  /**
   * `job_stats`: all zero when the scan fails; otherwise the number of items
   * and the numbers whose status is exactly `completed` and `processing`.
   */
  function Statistics(jobs: map<string, JobRecord>, scanFailure: bool): JobStats
  {
    if scanFailure then JobStats(0, 0, 0)
    else JobStats(|jobs|, |HavingStatus(jobs, jobs.Keys, "completed")|, |HavingStatus(jobs, jobs.Keys, "processing")|)
  }

  lemma {:induction false} SubsetSize(a: set<string>, b: set<string>)
    requires a <= b
    ensures |a| <= |b|
    decreases a
  {
    if a != {} {
      var x :| x in a;
      SubsetSize(a - {x}, b - {x});
    }
  }

  /**
   * Other or missing statuses count only toward the total, so the completed
   * and processing counts never add up to more than the total.
   */
  lemma StatisticsBounded(jobs: map<string, JobRecord>, scanFailure: bool)
    ensures var s := Statistics(jobs, scanFailure);
      s.completed + s.processing <= s.total
  {
    var c := HavingStatus(jobs, jobs.Keys, "completed");
    var p := HavingStatus(jobs, jobs.Keys, "processing");
    assert c * p == {};
    SubsetSize(c + p, jobs.Keys);
  }

  /** The counting loop over the scanned items. */
  method CountJobs(jobs: map<string, JobRecord>) returns (stats: JobStats)
    ensures stats == Statistics(jobs, false)
  {
    var completed := 0;
    var processing := 0;
    var remaining := jobs.Keys;
    while remaining != {}
      invariant remaining <= jobs.Keys
      invariant completed == |HavingStatus(jobs, jobs.Keys - remaining, "completed")|
      invariant processing == |HavingStatus(jobs, jobs.Keys - remaining, "processing")|
      decreases remaining
    {
      var id :| id in remaining;
      var status := jobs[id].status.GetOr("unknown");
      ghost var seen := jobs.Keys - remaining;
      assert jobs.Keys - (remaining - {id}) == seen + {id};
      CountStep(jobs, seen, id, "completed");
      CountStep(jobs, seen, id, "processing");
      if status == "completed" {
        completed := completed + 1;
      } else if status == "processing" {
        processing := processing + 1;
      }
      remaining := remaining - {id};
    }
    assert jobs.Keys - remaining == jobs.Keys;
    stats := JobStats(|jobs|, completed, processing);
  }

  lemma CountStep(jobs: map<string, JobRecord>, seen: set<string>, id: string, status: string)
    requires id in jobs && id !in seen
    ensures |HavingStatus(jobs, seen + {id}, status)| ==
      |HavingStatus(jobs, seen, status)| + (if jobs[id].status == Some(status) then 1 else 0)
  {
    if jobs[id].status == Some(status) {
      assert HavingStatus(jobs, seen + {id}, status) == HavingStatus(jobs, seen, status) + {id};
    } else {
      assert HavingStatus(jobs, seen + {id}, status) == HavingStatus(jobs, seen, status);
    }
  }

  /** One entry of `processed_files`, as the response shows it. */
  function FileValue(f: FileInfo): Value
  {
    Obj([Entry("file_name", Str(f.fileName)),
         Entry("s3_key", Str(f.s3Key)),
         Entry("size", Int(f.size)),
         Entry("last_modified", Str(f.lastModified)),
         Entry("download_url", Str(f.downloadUrl))])
  }

  /** The 200 body: the files, the counters, and `total_files`, which is the number of files listed. */
  function ResultsBody(files: seq<FileInfo>, stats: JobStats): (v: Value)
    ensures Field(v, "total_files") == Some(Int(|files|))
    ensures Field(v, "processed_files") == Some(List(seq(|files|, i requires 0 <= i < |files| => FileValue(files[i]))))
  {
    var fields := [Entry("processed_files", List(seq(|files|, i requires 0 <= i < |files| => FileValue(files[i])))),
                   Entry("statistics", Obj([Entry("total_jobs", Int(stats.total)),
                                            Entry("completed_jobs", Int(stats.completed)),
                                            Entry("processing_jobs", Int(stats.processing))])),
                   Entry("total_files", Int(|files|))];
    LookupDistinct(fields, 0);
    LookupDistinct(fields, 2);
    Obj(fields)
  }

  /** What one GET /results answers. */
  function Results(objects: seq<S3Object>, jobs: map<string, JobRecord>, listFailure: bool,
                   info: string -> ObjectInfo, presign: string -> Option<string>, scanFailure: bool): (r: Response)
    ensures r.statusCode == 200 && r.headers == CorsHeaders
  {
    CreateResponse(200, ResultsBody(ListedFiles(objects, listFailure, info, presign), Statistics(jobs, scanFailure)))
  }

  /**
   * The listing loop: keep the `.csv` keys in order and stop at the first
   * presign that fails.
   */
  method ListCsvFiles(keys: seq<string>, info: string -> ObjectInfo, presign: string -> Option<string>)
    returns (files: seq<FileInfo>)
    ensures files == CsvFiles(keys, info, presign)
  {
    files := [];
    var i := 0;
    var stopped := false;
    while i < |keys| && !stopped
      invariant 0 <= i <= |keys|
      invariant !stopped ==> files + CsvFiles(keys[i..], info, presign) == CsvFiles(keys, info, presign)
      invariant stopped ==> files == CsvFiles(keys, info, presign)
      decreases |keys| - i, if stopped then 0 else 1
    {
      var key := keys[i];
      assert keys[i..][1..] == keys[i + 1..];
      if Text.EndsWith(key, CsvExtension) {
        var url := presign(key);
        if url.None? {
          stopped := true;
        } else {
          var meta := info(key);
          var file := FileInfo(Text.LastSegment(key), key, meta.size, meta.lastModified, url.value);
          assert CsvFiles(keys[i..], info, presign) == [file] + CsvFiles(keys[i + 1..], info, presign);
          files := files + [file];
          i := i + 1;
        }
      } else {
        i := i + 1;
      }
    }
    if !stopped {
      assert keys[i..] == [];
    }
  }

  /**
   * The handler: the listing loop, then the counting loop. It changes
   * nothing.
   */
  method HandleResultsRequest(bucket: Bucket, table: JobTable, listFailure: bool, info: string -> ObjectInfo,
                              presign: string -> Option<string>, scanFailure: bool)
    returns (response: Response)
    ensures response == Results(bucket.objects, table.jobs, listFailure, info, presign, scanFailure)
  {
    var processedFiles: seq<FileInfo> := [];
    if !listFailure {
      processedFiles := ListCsvFiles(ListPrefix(bucket.objects, ProcessedPrefix), info, presign);
    }
    var stats := JobStats(0, 0, 0);
    if !scanFailure {
      stats := CountJobs(table.jobs);
    }
    response := CreateResponse(200, ResultsBody(processedFiles, stats));
  }

  /**
   * Every listed file is a `.csv` object under the processed prefix, named by
   * the text after its last slash, and `total_files` is their number.
   */
  lemma ListedFilesAreCsv(objects: seq<S3Object>, jobs: map<string, JobRecord>, listFailure: bool,
                          info: string -> ObjectInfo, presign: string -> Option<string>, scanFailure: bool)
    ensures var files := ListedFiles(objects, listFailure, info, presign);
      && (forall i :: 0 <= i < |files| ==>
            && Text.EndsWith(files[i].s3Key, CsvExtension)
            && ProcessedPrefix <= files[i].s3Key
            && files[i].s3Key in ObjectKeys(objects)
            && files[i].fileName == Text.LastSegment(files[i].s3Key))
      && Field(Results(objects, jobs, listFailure, info, presign, scanFailure).body, "total_files")
         == Some(Int(|files|))
  {
    var files := ListedFiles(objects, listFailure, info, presign);
    if !listFailure {
      var keys := ListPrefix(objects, ProcessedPrefix);
      forall i | 0 <= i < |files|
        ensures Text.EndsWith(files[i].s3Key, CsvExtension) && ProcessedPrefix <= files[i].s3Key
             && files[i].s3Key in ObjectKeys(objects)
      {
        assert files[i] in files;
      }
    }
  }
}
