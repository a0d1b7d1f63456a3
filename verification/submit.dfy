/**
 * POST /process (lambda/api_handler.py, `handle_process_request`): validate
 * the request, download the URL, store the raw text, try to derive a CSV
 * table from it, record the job, and answer 202.
 *
 * The job id (`uuid4`), the clock readings, the download (with what
 * `json.loads` makes of it) and the outcome of every service call are inputs.
 */
module Submission {
  import opened Wrappers
  import opened Json
  import Text
  import opened Storage
  import opened Responses

  /**
   * The request body: text (given with what `json.loads` makes of it), or a
   * value that is already decoded (`BodyValue(Null)` for a null body).
   */
  datatype RequestBody = BodyText(parsed: Parsed) | BodyValue(value: Value)

  /** What `urlopen(url).read().decode('utf-8')` gave: the text and its parse, or the exception's text. */
  datatype Download = Downloaded(text: string, parsed: Parsed) | DownloadFailed(message: string)

  /** The raw object's key: `data.json` under `raw-data/` and the job id. */
  function RawKey(jobId: string): string
  {
    "raw-data/" + jobId + "/data.json"
  }

  /** The processed object's key: `data.csv` under `processed-data/` and the job id. */
  function ProcessedKey(jobId: string): string
  {
    "processed-data/" + jobId + "/data.csv"
  }

  /**
   * The processed key is what the status poll lists for the job and what the
   * results listing shows, as `data.csv`.
   */
  lemma ProcessedKeyShape(jobId: string)
    ensures "processed-data/" + jobId + "/" <= ProcessedKey(jobId)
    ensures "processed-data/" <= ProcessedKey(jobId)
    ensures Text.EndsWith(ProcessedKey(jobId), ".csv")
    ensures Text.LastSegment(ProcessedKey(jobId)) == "data.csv"
  {
    var dir := "processed-data/" + jobId;
    var k := ProcessedKey(jobId);
    assert k == dir + "/data.csv";
    assert "processed-data/" + jobId + "/" <= k by {
      assert k == (dir + "/") + "data.csv";
    }
    assert "processed-data/" <= k by {
      assert k == "processed-data/" + (jobId + "/data.csv");
    }
    assert Text.EndsWith(k, ".csv") by {
      assert k == (dir + "/data") + ".csv";
    }
    Text.LastSegmentAfterSlash(dir, "data.csv");
  }

  /** The request after validation: rejected with a response, or accepted with its `url`. */
  datatype Checked = Rejected(response: Response) | Accepted(url: Value)

  /**
   * Parsing the body and reading `url`: malformed JSON is a 400, a body that
   * is not a dict makes `.get` raise (500), and a missing or falsy `url` is a
   * 400.
   */
  function CheckRequest(body: RequestBody): (c: Checked)
    ensures c.Accepted? ==> Truthy(c.url)
    ensures c.Rejected? ==> c.response.statusCode == 400 || c.response.statusCode == 500
    ensures body.BodyText? && body.parsed.Malformed? ==> c == Rejected(ErrorResponse(400, "Invalid JSON in request body"))
    ensures body.BodyValue? && body.value.Obj? ==>
      (c.Accepted? <==> Truthy(Lookup(body.value.fields, "url").GetOr(Null)))
    ensures body.BodyText? && body.parsed.Parsed? && body.parsed.value.Obj? ==>
      (c.Accepted? <==> Truthy(Lookup(body.parsed.value.fields, "url").GetOr(Null)))
  {
    if body.BodyText? && body.parsed.Malformed? then Rejected(ErrorResponse(400, "Invalid JSON in request body"))
    else
      var request := if body.BodyText? then body.parsed.value else body.value;
      if !request.Obj? then Rejected(ErrorResponse(500, "'" + TypeName(request) + "' object has no attribute 'get'"))
      else
        var url := Lookup(request.fields, "url").GetOr(Null);
        if !Truthy(url) then Rejected(ErrorResponse(400, "URL is required"))
        else Accepted(url)
  }

  /**
   * The assignments `flattened_row[key] = text` one field of a record makes,
   * in order: a dict value gives one per nested key, with `str()` of the
   * nested value (one level only); any other value gives one, with None as
   * the empty string.
   */
  function FieldPairs(e: Entry): seq<(string, string)>
  {
    if e.val.Obj? then
      seq(|e.val.fields|, i requires 0 <= i < |e.val.fields| =>
        (e.key + "_" + e.val.fields[i].key, PyStr(e.val.fields[i].val)))
    else [(e.key, if e.val == Null then "" else PyStr(e.val))]
  }

  /** The assignments of a whole record, field by field. */
  function RowPairs(fields: seq<Entry>): seq<(string, string)>
  {
    if fields == [] then [] else FieldPairs(fields[0]) + RowPairs(fields[1..])
  }

  /** A run of dict assignments: a later assignment to a key overwrites an earlier one. */
  function Assign(m: map<string, string>, pairs: seq<(string, string)>): (r: map<string, string>)
    ensures r.Keys == m.Keys + set p | p in pairs :: p.0
    decreases |pairs|
  {
    if pairs == [] then m
    else
      var rest := Assign(m[pairs[0].0 := pairs[0].1], pairs[1..]);
      assert (set p | p in pairs :: p.0) == {pairs[0].0} + set p | p in pairs[1..] :: p.0;
      rest
  }

  /** `flattened_row` for one record. */
  function FlatRow(fields: seq<Entry>): map<string, string>
  {
    Assign(map[], RowPairs(fields))
  }

  lemma {:induction false} AssignConcat(m: map<string, string>, p: seq<(string, string)>, q: seq<(string, string)>)
    ensures Assign(m, p + q) == Assign(Assign(m, p), q)
    decreases |p|
  {
    if p != [] {
      assert (p + q)[1..] == p[1..] + q;
      AssignConcat(m[p[0].0 := p[0].1], p[1..], q);
    } else {
      assert p + q == q;
    }
  }

  lemma {:induction false} AssignKeeps(m: map<string, string>, q: seq<(string, string)>, k: string)
    requires k in m
    requires forall i :: 0 <= i < |q| ==> q[i].0 != k
    ensures k in Assign(m, q) && Assign(m, q)[k] == m[k]
    decreases |q|
  {
    if q != [] {
      AssignKeeps(m[q[0].0 := q[0].1], q[1..], k);
    }
  }

  /** The last assignment to a key decides its text. */
  lemma LastAssignmentWins(m: map<string, string>, p: seq<(string, string)>, k: string, v: string,
                           q: seq<(string, string)>)
    requires forall i :: 0 <= i < |q| ==> q[i].0 != k
    ensures k in Assign(m, p + [(k, v)] + q) && Assign(m, p + [(k, v)] + q)[k] == v
  {
    AssignConcat(m, p + [(k, v)], q);
    AssignConcat(m, p, [(k, v)]);
    AssignKeeps(Assign(m, p + [(k, v)]), q, k);
  }

  /** The flattened row has exactly the keys the assignments name. */
  lemma FlatRowKeys(fields: seq<Entry>)
    ensures FlatRow(fields).Keys == set p | p in RowPairs(fields) :: p.0
  {
  }

  /** A top-level None becomes the empty string. */
  lemma TopLevelNoneIsEmpty(key: string)
    ensures FlatRow([Entry(key, Null)]) == map[key := ""]
  {
    var fields := [Entry(key, Null)];
    assert RowPairs(fields) == FieldPairs(fields[0]) + RowPairs(fields[1..]);
    assert RowPairs(fields) == [(key, "")];
    assert Assign(map[], [(key, "")]) == Assign(map[key := ""], []);
  }

  /** A nested None becomes the text `None`. */
  lemma NestedNoneIsText(key: string, nested: string)
    ensures FlatRow([Entry(key, Obj([Entry(nested, Null)]))]) == map[key + "_" + nested := "None"]
  {
    var fields := [Entry(key, Obj([Entry(nested, Null)]))];
    assert RowPairs(fields) == FieldPairs(fields[0]) + RowPairs(fields[1..]);
    assert RowPairs(fields) == [(key + "_" + nested, "None")];
    assert Assign(map[], [(key + "_" + nested, "None")]) == Assign(map[key + "_" + nested := "None"], []);
  }

  /** Flattening goes one level deep: a dict inside a dict becomes its `str()`, not more keys. */
  lemma OneLevelOnly(key: string, nested: string, inner: seq<Entry>)
    ensures FlatRow([Entry(key, Obj([Entry(nested, Obj(inner))]))]) == map[key + "_" + nested := ReprOf(Obj(inner))]
  {
    var fields := [Entry(key, Obj([Entry(nested, Obj(inner))]))];
    var text := ReprOf(Obj(inner));
    assert RowPairs(fields) == FieldPairs(fields[0]) + RowPairs(fields[1..]);
    assert RowPairs(fields) == [(key + "_" + nested, text)];
    assert Assign(map[], [(key + "_" + nested, text)]) == Assign(map[key + "_" + nested := text], []);
  }

  /** `csv.DictWriter.writerow` raises unless every key of the row is a field name. */
  predicate Writable(fieldnames: seq<string>, row: map<string, string>)
  {
    forall k :: k in row ==> k in fieldnames
  }

  /** Every record is a dict whose flattened row the writer accepts. */
  predicate AllWritable(items: seq<Value>)
    requires |items| > 0
  {
    && items[0].Obj?
    && forall k :: 0 <= k < |items| ==> items[k].Obj? && Writable(Keys(items[0].fields), FlatRow(items[k].fields))
  }

  /** The flattened rows of a list of dicts. */
  function Rows(items: seq<Value>): (rows: seq<map<string, string>>)
    requires forall k :: 0 <= k < |items| ==> items[k].Obj?
    ensures |rows| == |items|
    ensures forall k :: 0 <= k < |items| ==> rows[k] == FlatRow(items[k].fields)
  {
    seq(|items|, k requires 0 <= k < |items| => FlatRow(items[k].fields))
  }

  /**
   * The CSV derivation: attempted only for a non-empty list; the header is
   * the first record's own (unflattened) keys; it succeeds exactly when every
   * record is a dict whose flattened row fits that header.
   */
  function Derive(parsed: Parsed): (t: Option<Payload>)
    ensures t.Some? <==> parsed.Parsed? && parsed.value.List? && |parsed.value.items| > 0 && AllWritable(parsed.value.items)
    ensures t.Some? ==> t.value.CsvTable? && t.value.fieldnames == Keys(parsed.value.items[0].fields)
                        && |t.value.rows| == |parsed.value.items| && t.value.rows == Rows(parsed.value.items)
  {
    if parsed.Parsed? && parsed.value.List? && |parsed.value.items| > 0 && AllWritable(parsed.value.items) then
      var items := parsed.value.items;
      Some(CsvTable(Keys(items[0].fields), Rows(items)))
    else None
  }

  /**
   * When the first record holds a non-empty dict under `key` and the joined
   * name of its first nested key is not itself a top-level key, the row does
   * not fit the header, so no CSV is derived.
   */
  lemma NestedFirstRecordNotWritable(items: seq<Value>, i: nat)
    requires |items| > 0 && items[0].Obj?
    requires i < |items[0].fields|
    requires items[0].fields[i].val.Obj? && |items[0].fields[i].val.fields| > 0
    requires items[0].fields[i].key + "_" + items[0].fields[i].val.fields[0].key !in Keys(items[0].fields)
    ensures Derive(Parsed(List(items))) == None
  {
    var fields := items[0].fields;
    var e := fields[i];
    var joined := e.key + "_" + e.val.fields[0].key;
    RowPairsHas(fields, i, 0);
    FlatRowKeys(fields);
    assert joined in FlatRow(fields);
  }

  lemma {:induction false} RowPairsHas(fields: seq<Entry>, i: nat, j: nat)
    requires i < |fields| && j < |FieldPairs(fields[i])|
    ensures FieldPairs(fields[i])[j] in RowPairs(fields)
  {
    var pair := FieldPairs(fields[i])[j];
    var head := FieldPairs(fields[0]);
    assert RowPairs(fields) == head + RowPairs(fields[1..]);
    if i == 0 {
      assert pair == (head + RowPairs(fields[1..]))[j];
    } else {
      assert fields[1..][i - 1] == fields[i];
      RowPairsHas(fields[1..], i - 1, j);
      assert pair in RowPairs(fields[1..]);
    }
  }

  /**
   * `flattened_row`, built as the source builds it: one assignment per flat
   * field, and an inner loop over the nested keys of a dict field.
   */
  method FlattenRow(fields: seq<Entry>) returns (row: map<string, string>)
    ensures row == FlatRow(fields)
  {
    row := map[];
    var i := 0;
    assert fields[0..] == fields;
    while i < |fields|
      invariant 0 <= i <= |fields|
      invariant Assign(row, RowPairs(fields[i..])) == FlatRow(fields)
    {
      var key := fields[i].key;
      var value := fields[i].val;
      var pairs := FieldPairs(fields[i]);
      assert fields[i..][1..] == fields[i + 1..];
      AssignConcat(row, pairs, RowPairs(fields[i + 1..]));
      ghost var start := row;
      if value.Obj? {
        var nested := value.fields;
        var j := 0;
        while j < |nested|
          invariant 0 <= j <= |nested|
          invariant Assign(row, pairs[j..]) == Assign(start, pairs)
        {
          assert pairs[j..][1..] == pairs[j + 1..];
          row := row[key + "_" + nested[j].key := PyStr(nested[j].val)];
          j := j + 1;
        }
        assert pairs[j..] == [];
      } else {
        row := row[key := if value == Null then "" else PyStr(value)];
      }
      i := i + 1;
    }
    assert fields[i..] == [];
  }

  /** The derivation as the source runs it: header from the first record, then one row at a time. */
  method DeriveTable(parsed: Parsed) returns (t: Option<Payload>)
    ensures t == Derive(parsed)
  {
    if !(parsed.Parsed? && parsed.value.List? && |parsed.value.items| > 0) {
      return None;
    }
    var items := parsed.value.items;
    if !items[0].Obj? {
      return None;
    }
    var fieldnames := Keys(items[0].fields);
    var rows: seq<map<string, string>> := [];
    var i := 0;
    while i < |items|
      invariant 0 <= i <= |items|
      invariant |rows| == i
      invariant forall k :: 0 <= k < i ==> items[k].Obj? && Writable(fieldnames, FlatRow(items[k].fields))
      invariant forall k :: 0 <= k < i ==> rows[k] == FlatRow(items[k].fields)
    {
      if !items[i].Obj? {
        assert !AllWritable(items);
        return None;
      }
      var row := FlattenRow(items[i].fields);
      if !Writable(fieldnames, row) {
        assert !AllWritable(items);
        return None;
      }
      ghost var before := rows;
      rows := rows + [row];
      forall k | 0 <= k < i + 1 ensures rows[k] == FlatRow(items[k].fields) {
        if k < i {
          assert rows[k] == before[k];
        }
      }
      i := i + 1;
    }
    assert AllWritable(items);
    assert rows == Rows(items);
    return Some(CsvTable(fieldnames, rows));
  }

  /** One submission: its response, the objects written in order, and the table item stored. */
  datatype SubmitRun = SubmitRun(response: Response, puts: seq<S3Object>, item: Option<JobRecord>)

  /** The 202 answer: always `processing`, pointing at the raw object. */
  function Accepted202(bucketName: string, jobId: string): (r: Response)
    ensures r.statusCode == 202 && r.headers == CorsHeaders
    ensures r.body.Obj? && Lookup(r.body.fields, "status") == Some(Str("processing"))
  {
    CreateResponse(202, Obj([Entry("job_id", Str(jobId)),
                             Entry("status", Str("processing")),
                             Entry("message", Str("Data processing started")),
                             Entry("s3_location", Str("s3://" + bucketName + "/" + RawKey(jobId)))]))
  }

  /** The item `put_item` stores. */
  function JobItem(url: Value, jobId: string, processed: bool, createdAt: string, updatedAt: string): JobRecord
  {
    JobRecord(Some(if processed then "completed" else "processing"), Some(url), Some(RawKey(jobId)),
              if processed then Some(ProcessedKey(jobId)) else None, Some(createdAt), Some(updatedAt))
  }

  /** What one POST /process answers, writes and records. */
  function Submit(bucketName: string, body: RequestBody, jobId: string, download: Download,
                  rawPutFailure: Option<string>, processedPutFailure: Option<string>, tablePutFailure: Option<string>,
                  createdAt: string, updatedAt: string): (run: SubmitRun)
    ensures run.response.headers == CorsHeaders
    ensures |run.puts| <= 2
    ensures run.puts != [] ==> download.Downloaded? && run.puts[0] == S3Object(RawKey(jobId), RawText(download.text))
    ensures run.response.statusCode == 202 <==> run.puts != []
    ensures run.item.Some? ==> run.puts != [] && tablePutFailure.None?
  {
    match CheckRequest(body)
    case Rejected(r) => SubmitRun(r, [], None)
    case Accepted(url) =>
      match download
      case DownloadFailed(m) => SubmitRun(ErrorResponse(400, "Failed to download from URL: " + m), [], None)
      case Downloaded(text, parsed) =>
        if rawPutFailure.Some? then
          SubmitRun(ErrorResponse(500, "Failed to upload to S3: " + rawPutFailure.value), [], None)
        else
          var raw := S3Object(RawKey(jobId), RawText(text));
          var table := Derive(parsed);
          var puts := if table.Some? && processedPutFailure.None? then [raw, S3Object(ProcessedKey(jobId), table.value)]
                      else [raw];
          var item := JobItem(url, jobId, table.Some?, createdAt, updatedAt);
          SubmitRun(Accepted202(bucketName, jobId), puts, if tablePutFailure.None? then Some(item) else None)
  }

  /**
   * The handler: the same steps against the bucket and the table. The table
   * write's failure is swallowed, as is every failure of the CSV step.
   */
  method HandleProcessRequest(bucket: Bucket, table: JobTable, bucketName: string, body: RequestBody, jobId: string,
                              download: Download, rawPutFailure: Option<string>, processedPutFailure: Option<string>,
                              tablePutFailure: Option<string>, createdAt: string, updatedAt: string)
    returns (response: Response)
    requires bucket.Valid()
    modifies bucket, table
    ensures bucket.Valid()
    ensures var run := Submit(bucketName, body, jobId, download, rawPutFailure, processedPutFailure, tablePutFailure,
                              createdAt, updatedAt);
      && response == run.response
      && bucket.objects == ApplyPuts(old(bucket.objects), run.puts)
      && table.jobs == if run.item.Some? then old(table.jobs)[jobId := run.item.value] else old(table.jobs)
  {
    ghost var run := Submit(bucketName, body, jobId, download, rawPutFailure, processedPutFailure, tablePutFailure,
                            createdAt, updatedAt);
    var checked := CheckRequest(body);
    if checked.Rejected? {
      return checked.response;
    }
    if download.DownloadFailed? {
      return ErrorResponse(400, "Failed to download from URL: " + download.message);
    }
    var err := bucket.PutObject(RawKey(jobId), RawText(download.text), rawPutFailure);
    if err.Some? {
      return ErrorResponse(500, "Failed to upload to S3: " + err.value);
    }
    var raw := S3Object(RawKey(jobId), RawText(download.text));
    ghost var puts := [raw];
    ApplyOnePut(old(bucket.objects), raw);
    var processedKey: Option<string> := None;
    var csvTable := DeriveTable(download.parsed);
    if csvTable.Some? {
      processedKey := Some(ProcessedKey(jobId));
      var processed := S3Object(ProcessedKey(jobId), csvTable.value);
      var ignored := bucket.PutObject(processed.key, processed.body, processedPutFailure);
      if processedPutFailure.None? {
        puts := [raw, processed];
        ApplyTwoPuts(old(bucket.objects), raw, processed);
      }
    }
    assert bucket.objects == ApplyPuts(old(bucket.objects), puts);
    var item := JobRecord(Some(if processedKey.Some? then "completed" else "processing"), Some(checked.url),
                          Some(RawKey(jobId)), processedKey, Some(createdAt), Some(updatedAt));
    assert item == JobItem(checked.url, jobId, csvTable.Some?, createdAt, updatedAt);
    assert run == SubmitRun(Accepted202(bucketName, jobId), puts, if tablePutFailure.None? then Some(item) else None);
    var ignored := table.PutItem(jobId, item, tablePutFailure);
    response := Accepted202(bucketName, jobId);
  }

  /** A rejected request (bad JSON, a body that is not a dict, no url) writes nothing anywhere. */
  lemma RejectedWritesNothing(bucketName: string, body: RequestBody, jobId: string, download: Download,
                              rawPutFailure: Option<string>, processedPutFailure: Option<string>,
                              tablePutFailure: Option<string>, createdAt: string, updatedAt: string)
    requires CheckRequest(body).Rejected?
    ensures var run := Submit(bucketName, body, jobId, download, rawPutFailure, processedPutFailure, tablePutFailure,
                              createdAt, updatedAt);
      run.puts == [] && run.item == None && run.response == CheckRequest(body).response
  {
  }

  /** A dict body without a truthy `url` is a 400 `URL is required`. */
  lemma MissingUrlIs400(fields: seq<Entry>)
    requires !Truthy(Lookup(fields, "url").GetOr(Null))
    ensures CheckRequest(BodyText(Parsed(Obj(fields)))) == Rejected(ErrorResponse(400, "URL is required"))
    ensures CheckRequest(BodyValue(Obj(fields))) == Rejected(ErrorResponse(400, "URL is required"))
  {
  }

  /** A failed download is a 400 carrying the error's text, and nothing is written. */
  lemma DownloadFailureWritesNothing(bucketName: string, body: RequestBody, jobId: string, message: string,
                                     rawPutFailure: Option<string>, processedPutFailure: Option<string>,
                                     tablePutFailure: Option<string>, createdAt: string, updatedAt: string)
    requires CheckRequest(body).Accepted?
    ensures var run := Submit(bucketName, body, jobId, DownloadFailed(message), rawPutFailure, processedPutFailure,
                              tablePutFailure, createdAt, updatedAt);
      && run.response == ErrorResponse(400, "Failed to download from URL: " + message)
      && run.puts == [] && run.item == None
  {
  }

  /** A failed raw upload is a 500, and neither an object nor a job item is stored. */
  lemma RawUploadFailureIs500(bucketName: string, body: RequestBody, jobId: string, text: string, parsed: Parsed,
                              message: string, processedPutFailure: Option<string>,
                              tablePutFailure: Option<string>, createdAt: string, updatedAt: string)
    requires CheckRequest(body).Accepted?
    ensures var run := Submit(bucketName, body, jobId, Downloaded(text, parsed), Some(message), processedPutFailure,
                              tablePutFailure, createdAt, updatedAt);
      && run.response == ErrorResponse(500, "Failed to upload to S3: " + message)
      && run.puts == [] && run.item == None
  {
  }

  /**
   * Once the raw text is stored the answer is the 202 `processing` response,
   * whatever happens next. The stored status is `completed` exactly when a
   * CSV table was derived, and the processed key is recorded then; the
   * processed object exists only if its upload also succeeded; a failed
   * table write stores nothing and changes no answer.
   */
  lemma AcceptedSubmission(bucketName: string, body: RequestBody, jobId: string, text: string, parsed: Parsed,
                           processedPutFailure: Option<string>, tablePutFailure: Option<string>,
                           createdAt: string, updatedAt: string)
    requires CheckRequest(body).Accepted?
    ensures var run := Submit(bucketName, body, jobId, Downloaded(text, parsed), None, processedPutFailure,
                              tablePutFailure, createdAt, updatedAt);
      var derived := Derive(parsed).Some?;
      && run.response == Accepted202(bucketName, jobId)
      && run.puts[0] == S3Object(RawKey(jobId), RawText(text))
      && (|run.puts| == 2 <==> derived && processedPutFailure.None?)
      && (run.item.Some? <==> tablePutFailure.None?)
      && (run.item.Some? ==>
            && (run.item.value.status == Some("completed") <==> derived)
            && (run.item.value.status == Some("processing") <==> !derived)
            && (run.item.value.processedKey.Some? <==> derived)
            && run.item.value.sourceUrl == Some(CheckRequest(body).url)
            && run.item.value.s3Key == Some(RawKey(jobId)))
  {
  }

  /**
   * The processed key is recorded before its upload is attempted, so a failed
   * upload still leaves the job `completed` with no processed object.
   */
  lemma CompletedWithoutProcessedObject(bucketName: string, body: RequestBody, jobId: string, text: string,
                                        parsed: Parsed, message: string, createdAt: string, updatedAt: string)
    requires CheckRequest(body).Accepted? && Derive(parsed).Some?
    ensures var run := Submit(bucketName, body, jobId, Downloaded(text, parsed), None, Some(message), None,
                              createdAt, updatedAt);
      && run.item.Some? && run.item.value.status == Some("completed")
      && run.item.value.processedKey == Some(ProcessedKey(jobId))
      && run.puts == [S3Object(RawKey(jobId), RawText(text))]
  {
  }
}
