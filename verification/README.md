# AWS data pipeline: a Dafny model of its two Lambda handlers

This project models the runtime logic of a small AWS data pipeline and
proves properties of it. The pipeline has two Lambda functions.

- **The extraction function** (`lambda/lambda_function.py`) fetches a public
  API. It stores the response in S3 twice:
  - a JSON envelope under `data/users/{ts}_users.json`;
  - a CSV rendering under `data/users_csv/{ts}_users.csv`.

  The CSV comes from `convert_to_csv`. That routine flattens nested
  records into `parent_child` keys, takes its header from the first record,
  and escapes string fields.
- **The API function** (`lambda/api_handler.py`) sits behind API Gateway.
  - `POST /process` downloads a URL. It stores the raw text, tries to derive
    a CSV table with one level of flattening, and records a job in
    DynamoDB.
  - `GET /status/{job_id}` reports a job. It promotes the job to
    `completed` once an object exists under its processed prefix.
  - `GET /results` lists the processed `.csv` objects with download links
    and counts the jobs by status.
  - `GET /health` answers a fixed health report.
  - Every answer goes through `create_response`, which adds the same CORS
    headers.

The managed services become abstract state:
- the bucket is a class holding a sequence of objects with distinct keys,
  in listing order;
- the job table is a class holding a map from job id to item.

Everything else an invocation learns from outside is a parameter:
- the clock readings, the job id `uuid4` draws and the timestamp string;
- the extraction function's HTTP reply: the text of the exception the
  request raised, or the status and what `json.loads` makes of the body;
- the submit handler's download: the text together with what `json.loads`
  makes of it, or the exception's text;
- the outcome of a service call whose exception text the handler reads:
  `None` when the call succeeds, `Some(text)` for the exception's text
  (the status handler only logs the text of a failed listing or update);
- a failure the handler swallows without reading its text (the results
  handler's listing and scan): a `bool`;
- a presigned URL: `Some(url)`, or `None` when `generate_presigned_url`
  raised.

JSON values are a datatype. Objects are *ordered* entry lists, because
Python dicts keep insertion order. Python's `str()` is modelled exactly for
`None`, booleans, integers and strings. For floats, lists and dicts it is an
uninterpreted function, `Json.ReprOf`.

Modules, by file:

| file | module | models |
|---|---|---|
| `wrappers.dfy` | `Wrappers` | `Option` and `Result` |
| `text.dfy` | `Text` | `str.join`, `str.split`, `endswith`, the last path segment, `str()` of an integer |
| `json.dfy` | `Json` | JSON values, truthiness, `str()`, `type().__name__`, dict lookup |
| `flatten.dfy` | `Flatten` | `flatten_dict` and `dict(items)` |
| `csv.dfy` | `Csv` | `convert_to_csv`: escaping, header, rows, the loop method |
| `storage.dfy` | `Storage` | the bucket (`put_object`, `list_objects_v2`) and the job table (`put_item`, `get_item`, `update_item`) |
| `extraction.dfy` | `Extraction` | the extraction function's `lambda_handler` |
| `response.dfy` | `Responses` | `create_response` and `handle_health_check` |
| `submit.dfy` | `Submission` | `handle_process_request` |
| `status.dfy` | `JobStatus` | `handle_status_request` |
| `results.dfy` | `Results` | `handle_results_request` |
| `api.dfy` | `Api` | the API function's `lambda_handler` (routing) |
| `example.dfy` | `ExampleRecord` | the record of the repository's CSV test, run through both flattenings |

How each handler is modelled:
- Each handler that changes state has two parts:
  - a *specification function*, which returns the response together with
    the writes made or the new table;
  - an imperative *method*, which performs the same steps on the `Bucket`
    and `JobTable` objects, in the source's order, and is proved equal to
    the function.
- The source's loops are methods with loop invariants, each proved against
  a recursive specification function. They are:
  - the CSV builder;
  - the row flattening of the submit handler;
  - the results listing;
  - the job counter.

Two behaviours of the code a reader may not expect:
- The submit handler sets `processed_s3_key` *before* it uploads the CSV.
  So a job whose table was derived but whose upload failed is still stored
  as `completed`, with a processed key that names no object
  (`Submission.CompletedWithoutProcessedObject`).
- The submit handler's header is the first record's *unflattened* keys.
  `csv.DictWriter` rejects a row with other keys. So any record with a
  non-empty nested object makes the derivation fail, unless the first
  record happens to hold the flattened key too
  (`Submission.NestedFirstRecordNotWritable`).
  The record of the repository's own CSV test is one such input
  (`ExampleRecord.TestRecordNotDerived`), although `convert_to_csv` renders it
  fine (`ExampleRecord.TestRecordCsv`).

## Model

| member | source | states |
|---|---|---|
| Text.Split | lambda/api_handler.py:263 | `str.split` always gives at least one part |
| Text.SplitJoin | lambda/lambda_function.py:131 | splitting a joined line on a separator that no part contains gives the parts back |
| Text.SplitPrefix | lambda/api_handler.py:263 | a leading piece without the separator becomes the start of the first part |
| Text.LastSegment | lambda/api_handler.py:263 | the file name has no `/`, ends the key, and is preceded by a `/` when the key has one; a key without `/` is its own name |
| Text.SplitWithout | lambda/api_handler.py:263 | a key splits into a single part iff it has no `/`, and that part is the key itself |
| Text.SplitStep | lambda/api_handler.py:263 | how the last part of a split changes when one character is put in front |
| Text.LastWithout | lambda/api_handler.py:263 | the last part of a split holds no separator |
| Text.LastEnds | lambda/api_handler.py:263 | the last part of a split ends the string |
| Text.LastAfterSeparator | lambda/api_handler.py:263 | when the string holds the separator, one stands right before the last part |
| Text.LastPiece | lambda/api_handler.py:263 | whatever precedes the last separator, the last part is the text after it |
| Text.LastSegmentAfterSlash | lambda/api_handler.py:263 | a key `dir/name` with no `/` in `name` is listed as `name` |
| Json.Keys | lambda/lambda_function.py:114 | `list(d.keys())` lists one key per entry, in insertion order |
| Json.Lookup | lambda/lambda_function.py:124 | a lookup succeeds iff the key is present, and gives a value stored under it |
| Json.LookupDistinct | lambda/lambda_function.py:124 | in a dict with distinct keys, each key finds its own value |
| Json.LookupAppend | lambda/lambda_function.py:124 | entries added under other keys do not change a lookup |
| Json.LookupSkipFront | lambda/lambda_function.py:124 | leading entries under other keys do not change a lookup |
| Json.LookupSkip | lambda/lambda_function.py:124 | entries under other keys do not change a lookup, wherever they sit in the key order |
| Flatten.SetItem | lambda/lambda_function.py:110 | `d[k] = v` grows the dict only for a new key |
| Flatten.SetItemKeys | lambda/lambda_function.py:110 | assigning an existing key keeps the key order; a new key goes last |
| Flatten.SetItemLookup | lambda/lambda_function.py:110 | after `d[k] = v`, `k` reads `v` and every other key reads as before |
| Flatten.SetItemNew | lambda/lambda_function.py:110 | assigning a new key appends it |
| Flatten.LastValue | lambda/lambda_function.py:110 | the last pair for a key exists iff the key occurs among the pairs |
| Flatten.DictOfKeys | lambda/lambda_function.py:110 | `dict(items)` keeps each key at its first position |
| Flatten.DictOfLookup | lambda/lambda_function.py:110 | `dict(items)` gives each key the value of its last pair |
| Flatten.DedupDistinct | lambda/lambda_function.py:110 | the first-occurrence key list has no repeats |
| Flatten.DictOfDistinct | lambda/lambda_function.py:110 | `dict(items)` never holds a key twice |
| Flatten.DictOfIdentity | lambda/lambda_function.py:110 | `dict(items)` of pairs with distinct keys is those pairs, unchanged |
| Flatten.FlatItemsAppend | lambda/lambda_function.py:104-109 | flattening a concatenation is the concatenation of the flattenings |
| Flatten.DictOfValues | lambda/lambda_function.py:110 | every entry of `dict(items)` is one of the pairs |
| Flatten.FlatItemsLeaves | lambda/lambda_function.py:104-109 | the accumulated pairs never hold an object value |
| Flatten.FlatEntryLeaves | lambda/lambda_function.py:106-109 | one key's contribution never holds an object value |
| Flatten.FlattenIsFlat | lambda/lambda_function.py:102-110 | a flattened record has only leaf values and distinct keys, at any depth |
| Flatten.DictOfKeysFrom | lambda/lambda_function.py:110 | every key of `dict(items)` comes from the pairs |
| Flatten.FlatItemsPrefix | lambda/lambda_function.py:105 | under a non-empty parent, every produced key starts with `parent_` |
| Flatten.FlatEntryPrefix | lambda/lambda_function.py:105 | the same for one key's contribution |
| Flatten.FlattenPrefix | lambda/lambda_function.py:105 | every key of a nested flattening starts with `parent_` |
| Flatten.FlatItemsHasLeaf | lambda/lambda_function.py:105-109 | a non-dict entry is appended under its joined key with its own value |
| Flatten.LeafKeyKept | lambda/lambda_function.py:105-110 | a non-dict entry keeps a column under `parent_key`; at the top level, with no parent, under its own key with no `_` added |
| Flatten.FlatRecordUnchanged | lambda/lambda_function.py:102-110 | a record with no nested objects flattens to itself |
| Flatten.FlatItemsOfFlat | lambda/lambda_function.py:104-109 | a record with no nested objects yields its own pairs |
| Flatten.EmptyObjectVanishes | lambda/lambda_function.py:106-107 | a key holding an empty object contributes no column |
| Flatten.NestedLeaf | lambda/lambda_function.py:102-110 | a leaf nested at any depth surfaces under its `_`-joined path |
| Flatten.FlatItemsCons | lambda/lambda_function.py:104-109 | the pairs of a record are the first key's contribution followed by the rest's |
| Flatten.DuplicateFlattenedKey | lambda/lambda_function.py:110 | when `a_b` and `a.b` both flatten to `a_b`, the key keeps its first position and takes the last value |
| Csv.DoubleQuotesChars | lambda/lambda_function.py:127 | doubling quotes adds no other character and removes none |
| Csv.UndoubleDouble | lambda/lambda_function.py:127 | doubling quotes is undone by undoubling them |
| Csv.EscapeRoundTrip | lambda/lambda_function.py:126-129 | the escaped field always decodes back to the original string |
| Csv.EscapeQuotesIff | lambda/lambda_function.py:128-129 | a field is wrapped in quotes iff it holds `,`, `"` or a newline; otherwise it passes through unchanged |
| Csv.NoQuoteUnchanged | lambda/lambda_function.py:127 | a string without `"` is unchanged by doubling |
| Csv.EscapeQuotedText | lambda/lambda_function.py:126-129 | `a"b"c` becomes `"a""b""c"`, as in `He said "hi", ok` |
| Csv.DoubledQuotedText | lambda/lambda_function.py:127 | in `a"b"c` without other quotes, exactly the two quotes are doubled |
| Csv.EscapeQuoting | lambda/lambda_function.py:127-129 | a string whose doubled form needs quotes is escaped as that form enclosed in quotes |
| Csv.PlainPrefix | lambda/lambda_function.py:127 | a prefix without quotes passes through the doubling unchanged |
| Csv.QuoteFirst | lambda/lambda_function.py:127 | a leading `"` becomes `""` |
| Csv.DoubleQuotesConcat | lambda/lambda_function.py:127 | doubling quotes distributes over concatenation |
| Csv.CarriageReturnNotQuoted | lambda/lambda_function.py:128 | a lone `\r` does not cause quoting |
| Csv.ConvertToCsv | lambda/lambda_function.py:91-133 | the nested loops build exactly the specified CSV text, and an empty list gives `""` |
| Csv.LinesAreCsvLines | lambda/lambda_function.py:117-131 | the header line followed by one rendered line per record is the specified line list |
| Csv.RenderRow | lambda/lambda_function.py:122-130 | the inner loop builds one cell per header, in header order |
| Csv.EmptyInput | lambda/lambda_function.py:95-96 | an empty record list gives the empty string |
| Csv.HeaderFirst | lambda/lambda_function.py:112-118 | the text is the unescaped, comma-joined header of the first record, then a newline, then the data lines |
| Csv.LineCount | lambda/lambda_function.py:117-133 | there are exactly 1 + len(data) lines, the first of them the header |
| Csv.SplitLines | lambda/lambda_function.py:133 | when no line holds a newline, splitting the text gives back exactly those 1 + len(data) lines |
| Csv.RowWidth | lambda/lambda_function.py:123-131 | each data row has exactly len(headers) fields and splits back into them when no cell holds a comma |
| Csv.MissingKeyEmpty | lambda/lambda_function.py:124 | a header the record lacks renders as an empty field |
| Csv.ExtraKeysDropped | lambda/lambda_function.py:123-124 | entries under keys outside the header do not change the row, wherever they sit in the record |
| Csv.NonStringUnquoted | lambda/lambda_function.py:126-130 | a non-string value renders as `str()` with no quoting: `None` becomes `None`, and a list is not quoted even with commas |
| Csv.IntFieldPlain | lambda/lambda_function.py:130 | an integer field never needs quotes |
| Csv.StringFieldRecovered | lambda/lambda_function.py:124-130 | a string field decodes back to the stored string |
| Csv.PlainField | lambda/lambda_function.py:126-130 | a string with no `"`, `,` or newline is written as it is |
| Csv.OwnKeysCells | lambda/lambda_function.py:120-130 | a record with distinct keys, read under its own keys, gives one field per entry: that entry's rendered value, in order |
| Csv.RowOfOwnKeys | lambda/lambda_function.py:120-130 | such a record's row is its values, when its strings are plain and its other values read as `str()` gives them |
| Csv.OneRecordLines | lambda/lambda_function.py:117-131 | a single record gives its header line and then its own data row, nothing else |
| Csv.TwoLineCsv | lambda/lambda_function.py:133 | two lines without newlines are joined by one newline and split back into the same two lines |
| Storage.ObjectKeys | lambda/api_handler.py:209 | one key per object, in listing order |
| Storage.Upsert | lambda/api_handler.py:95-100 | a put stores the object, replaces the one under the same key, keeps every other object, and grows the bucket only for a new key |
| Storage.ApplyOnePut | lambda/lambda_function.py:50-55 | applying one write is one put |
| Storage.ApplyTwoPuts | lambda/lambda_function.py:50-68 | applying two writes is two puts in order |
| Storage.Get | lambda/api_handler.py:95-100 | the body a later read of a key sees, the observer that states what `put_object` leaves behind: found iff the key is stored, and then that object's body |
| Storage.ListPrefix | lambda/api_handler.py:203-209 | the listing holds exactly the stored keys that start with the prefix |
| Storage.UpsertDistinct | lambda/api_handler.py:95-100 | writing keeps the bucket's keys distinct |
| Storage.UpsertGet | lambda/api_handler.py:95-100 | after a write, the key reads the new body and every other key reads as before |
| Storage.UpsertTwice | lambda/api_handler.py:95-100 | writing the same object twice is writing it once |
| Storage.ApplyPutsDistinct | lambda/lambda_function.py:50-68 | any sequence of writes keeps the keys distinct |
| Storage.Bucket.PutObject | lambda/api_handler.py:95-103 | a successful put upserts the object; a failed one changes nothing and returns its error |
| Storage.WithStatus | lambda/api_handler.py:213-221 | `update_item` sets the status and `updated_at` and keeps the other attributes; a missing item gets only those two |
| Storage.JobTable.PutItem | lambda/api_handler.py:155-167 | a successful put replaces the whole item; a failed one changes nothing |
| Storage.JobTable.UpdateStatus | lambda/api_handler.py:213-221 | a successful update rewrites the item as above; a failed one changes nothing |
| Extraction.StampOf | lambda/lambda_function.py:46-47 | a key recovered as prefix + stamp + suffix really has that shape |
| Extraction.KeysGiveBackStamp | lambda/lambda_function.py:46-61 | the JSON and CSV keys both carry the one timestamp string, which can be read back from each |
| Extraction.KeysNeverCollide | lambda/lambda_function.py:47-61 | the JSON key and the CSV key are never the same object, whatever the stamps |
| Extraction.PyLen | lambda/lambda_function.py:35 | `len(data)` is defined exactly for strings, lists and dicts, and is 0 exactly when the value is falsy |
| Extraction.FirstNonObject | lambda/lambda_function.py:120-121 | the index of the first record that is not a dict: every earlier one is |
| Extraction.FirstNonObjectIs | lambda/lambda_function.py:120-121 | that index is unique |
| Extraction.Records | lambda/lambda_function.py:120 | one record per list element: the k-th record is the k-th element's entries |
| Extraction.CsvOf | lambda/lambda_function.py:91-133 | falsy data gives `""`; a truthy list of dicts gives exactly the CSV text of its records, and no other truthy value gives text; a truthy dict raises `0` |
| Extraction.Extract | lambda/lambda_function.py:16-89 | the function answers 200 or 500, writes at most two objects, and answers 200 iff both were written |
| Extraction.LambdaHandler | lambda/lambda_function.py:16-89 | the handler returns the specified result and leaves the bucket with exactly the specified writes applied in order |
| Extraction.ConvertData | lambda/lambda_function.py:91-133 | `convert_to_csv` on any JSON value, with the list case run by the loop method |
| Extraction.NonOkStatusWritesNothing | lambda/lambda_function.py:30-89 | a non-200 reply or a failed request gives 500, `API error: N` where there is a status, and no write |
| Extraction.SuccessWritesJsonThenCsv | lambda/lambda_function.py:46-79 | 200 iff everything succeeds; then the JSON write precedes the CSV write, both keys share the stamp, and `records_processed == len(data)` |
| Extraction.EmptyDataStillWritesCsv | lambda/lambda_function.py:60-96 | empty data still writes an empty CSV object and reports 0 records |
| Extraction.JsonStandsWhenCsvFails | lambda/lambda_function.py:50-68 | when the CSV step fails, the JSON object stays written and the result is 500 |
| Extraction.DictDataFailsAfterJsonWrite | lambda/lambda_function.py:82-100 | a non-empty dict payload fails on `data[0]` with error `0`, after the JSON write |
| Responses.CreateResponse | lambda/api_handler.py:313-326 | status and body pass through unchanged, and the four CORS headers are attached |
| Responses.ErrorResponse | lambda/api_handler.py:313-326 | an error answer carries its status, the CORS headers and `error` set to the message |
| Responses.HealthCheck | lambda/api_handler.py:302-311 | always 200 `healthy`, version `1.0.0`, stamped with the given time |
| Submission.ProcessedKeyShape | lambda/api_handler.py:138 | the processed key lies under the job's status prefix and the results prefix, ends in `.csv`, and is listed as `data.csv` |
| Submission.CheckRequest | lambda/api_handler.py:68-180 | invalid JSON gives 400; a dict body is accepted iff its `url` is truthy; anything else is rejected with 400 or 500 |
| Submission.Assign | lambda/api_handler.py:127-134 | assigning pairs adds exactly their keys |
| Submission.AssignConcat | lambda/api_handler.py:128-134 | assigning two runs of pairs is assigning one after the other |
| Submission.AssignKeeps | lambda/api_handler.py:128-134 | a key not assigned again keeps its value |
| Submission.LastAssignmentWins | lambda/api_handler.py:128-134 | a key takes the value of its last assignment |
| Submission.FlatRowKeys | lambda/api_handler.py:127-134 | the row's keys are exactly the produced column names |
| Submission.TopLevelNoneIsEmpty | lambda/api_handler.py:134 | a top-level `None` becomes `''` |
| Submission.NestedNoneIsText | lambda/api_handler.py:132 | a nested `None` becomes the text `None` |
| Submission.OneLevelOnly | lambda/api_handler.py:129-132 | an object nested two levels deep is not flattened further but rendered with `str()` |
| Submission.Rows | lambda/api_handler.py:125-135 | one flattened row per record |
| Submission.Derive | lambda/api_handler.py:109-148 | a table is derived iff the payload parses to a non-empty list of dicts whose rows all fit the first record's unflattened keys; it has that header and exactly the flattened rows of the records, in order |
| Submission.NestedFirstRecordNotWritable | lambda/api_handler.py:120-135 | a first record with a non-empty nested object and no matching flattened key makes the derivation fail |
| Submission.RowPairsHas | lambda/api_handler.py:128-134 | every pair a field produces is among the row's pairs |
| Submission.FlattenRow | lambda/api_handler.py:127-134 | the nested loops build exactly the specified row |
| Submission.DeriveTable | lambda/api_handler.py:109-148 | the derivation method returns exactly the specified table or none |
| Submission.Accepted202 | lambda/api_handler.py:169-174 | the 202 always says `processing` |
| Submission.Submit | lambda/api_handler.py:64-180 | CORS headers always; at most two writes, the first being the raw text; 202 iff something was written; an item only when a write happened and `put_item` succeeded |
| Submission.HandleProcessRequest | lambda/api_handler.py:64-180 | the handler answers as specified, applies exactly the specified writes, and stores the specified item |
| Submission.RejectedWritesNothing | lambda/api_handler.py:70-180 | a rejected request writes nothing anywhere |
| Submission.MissingUrlIs400 | lambda/api_handler.py:75-77 | a missing or falsy `url` is 400 `URL is required` |
| Submission.DownloadFailureWritesNothing | lambda/api_handler.py:85-89 | a failed download is 400 with the error text and no writes |
| Submission.RawUploadFailureIs500 | lambda/api_handler.py:94-103 | a failed raw upload is 500 and nothing is stored |
| Submission.AcceptedSubmission | lambda/api_handler.py:91-174 | after a successful raw upload: 202; the processed write happens iff a table was derived and its upload succeeded; the status is `completed` iff a table was derived; the table-write failure is swallowed |
| Submission.CompletedWithoutProcessedObject | lambda/api_handler.py:138-153 | a derived table whose upload fails still records `completed` with a processed key |
| JobStatus.KeyList | lambda/api_handler.py:209 | `processed_files` lists the keys, in order |
| JobStatus.StatusBody | lambda/api_handler.py:225-232 | the body reports the status (`unknown` if none), the listed keys and the stored `updated_at` |
| JobStatus.PollStored | lambda/api_handler.py:197-232 | a poll of a stored job answers 200 with CORS headers, and changes no other job's item |
| JobStatus.Poll | lambda/api_handler.py:182-236 | CORS headers always; the table keeps its ids and no other job's item changes |
| JobStatus.HandleStatusRequest | lambda/api_handler.py:182-236 | the handler answers and updates the table as specified |
| JobStatus.MissingJobIdIs400 | lambda/api_handler.py:186-187 | a missing or empty job id is 400 and changes nothing |
| JobStatus.UnknownJobIs404 | lambda/api_handler.py:192-195 | an absent job is 404 and changes nothing |
| JobStatus.ProcessedObjectCompletesJob | lambda/api_handler.py:199-232 | with an object under the job's prefix, the answer is `completed` with the listed keys, and the stored item is set to `completed` unless the update fails |
| JobStatus.NothingListedReportsStored | lambda/api_handler.py:199-232 | with nothing listed, the stored status (or `unknown`) is reported and nothing changes |
| JobStatus.PollIdempotent | lambda/api_handler.py:199-232 | a second poll reports the same status and files, and leaves the statuses as the first one did |
| Results.CsvKeys | lambda/api_handler.py:252-253 | exactly the listed keys ending in `.csv` |
| Results.CsvFiles | lambda/api_handler.py:252-268 | every file is a listed `.csv` key, named by its last segment, with its presigned URL |
| Results.EveryCsvListed | lambda/api_handler.py:252-268 | when every presign succeeds, there is one file per `.csv` key |
| Results.FilesFollowCsvKeys | lambda/api_handler.py:252-270 | the i-th file is the i-th `.csv` key: a failing presign cuts the list short and never skips a key |
| Results.SubsetSize | lambda/api_handler.py:280-287 | a subset of the jobs is no larger than the jobs |
| Results.StatisticsBounded | lambda/api_handler.py:280-287 | `completed_jobs + processing_jobs <= total_jobs` |
| Results.CountJobs | lambda/api_handler.py:279-287 | the counting loop gives the number of items and the numbers with status exactly `completed` and exactly `processing` |
| Results.CountStep | lambda/api_handler.py:283-287 | one item adds one to the counter of its own status only |
| Results.ResultsBody | lambda/api_handler.py:292-296 | `total_files` is the number of files listed in `processed_files` |
| Results.Results | lambda/api_handler.py:238-300 | always 200 with the CORS headers |
| Results.ListCsvFiles | lambda/api_handler.py:252-270 | the listing loop builds exactly the specified file list |
| Results.HandleResultsRequest | lambda/api_handler.py:238-300 | the handler answers as specified and changes nothing |
| Results.ListedFilesAreCsv | lambda/api_handler.py:245-295 | every listed file is a stored `.csv` object under `processed-data/`, named by its last segment, and `total_files` counts them |
| Api.RouteOf | lambda/api_handler.py:40-58 | POST `/process` submits; GET under `/status/` polls, with the id from `pathParameters`; GET `/results` and `/health` go to their handlers; a GET with a null path raises; any other method is 404 |
| Api.ConfiguredBucket | lambda/api_handler.py:31 | the bucket name is the environment's, or `data-pipeline-bucket-12345` |
| Api.CrashResponse | lambda/api_handler.py:60-62 | an escaped exception is 500 with `Internal server error` and its text as `details` |
| Api.Dispatch | lambda/api_handler.py:34-62 | CORS headers always; only a submission writes objects; only a submission or a poll changes the table |
| Api.LambdaHandler | lambda/api_handler.py:34-62 | the handler answers, writes and updates exactly as specified |
| Api.OtherMethodsNotFound | lambda/api_handler.py:57-58 | any method but GET and POST is 404 `Endpoint not found` and changes nothing |
| Api.StatusIgnoresPathSuffix | lambda/api_handler.py:50-52 | the status answer depends on the path parameter only, not on the rest of the path |
| Api.SubmitStoresProcessed | lambda/api_handler.py:138-178 | a submission that derives a table and whose writes succeed answers 202, records its job, and leaves an object under the job's processed prefix |
| Api.SubmitThenPollCompleted | lambda/api_handler.py:48-211 | after a submission whose table is derived and whose writes succeed, a poll of its id answers 200 `completed` |
| ExampleRecord.TestKeyJoins | test_lambda.py:77-84 | the test's nested keys join to `address_city`, `address_zipcode` and `company_name` |
| ExampleRecord.TestFlatDistinct | test_lambda.py:72-85 | the test record's flattened keys are distinct |
| ExampleRecord.TestFlatValues | test_lambda.py:72-85 | the test record's flattened values, in column order |
| ExampleRecord.TestAddressFlattens | test_lambda.py:77-80 | the `address` dict becomes `address_city` and `address_zipcode`, in that order |
| ExampleRecord.TestCompanyFlattens | test_lambda.py:81-83 | the `company` dict becomes `company_name` |
| ExampleRecord.TestRecordFlattens | test_lambda.py:72-85 | the test's record flattens to `id, name, email, address_city, address_zipcode, company_name` with their values |
| ExampleRecord.TestRecordHeader | test_lambda.py:72-88 | the test's record gets the header `id,name,email,address_city,address_zipcode,company_name` |
| ExampleRecord.TestFlatCells | test_lambda.py:72-88 | its flattened fields render as `1`, `Test User`, `test@example.com`, `Test City`, `12345`, `Test Company` |
| ExampleRecord.TestRecordRow | test_lambda.py:72-88 | its data row is `1,Test User,test@example.com,Test City,12345,Test Company` |
| ExampleRecord.TestRecordLines | test_lambda.py:72-88 | the test's data gives exactly that header line and then that row |
| ExampleRecord.TestRecordCsv | test_lambda.py:72-94 | `convert_to_csv` of the test's data is non-empty, and splitting it on newlines gives exactly that header line and that row |
| ExampleRecord.TestRecordNotDerived | lambda/api_handler.py:120-135 | the CSV test's record derives no table: `address_city` is not among its top-level keys |

## Left out

- Serialisation: `json.loads` and `json.dumps` are not modelled.
  - A parsed value is given together with its text, and a response body is the value `json.dumps` would serialise.
  - `indent=2` and the exact JSON text are out.
- `csv.DictWriter`: its output format is not modelled (its quoting rules and the `\r\n` terminator).
  - The processed object is kept as the header and the rows the writer accepted.
  - A row is accepted iff its keys are among the field names.
- Clocks and ids: `datetime.utcnow`, `isoformat`, `strftime` and `uuid.uuid4` are parameters.
  - Two readings of the clock can differ.
- `Json.ReprOf`: Python's `str()` of floats, lists and dicts is uninterpreted.
  - Only its use (never quoted, never escaped) is modelled.
  - Its text is not modelled.
- S3 listing:
  - the lexicographic key order and the 1000-key page limit of `list_objects_v2` are not modelled;
  - the bucket lists objects in its own order;
  - object sizes and modification times are parameters.
- DynamoDB `scan` paging is not modelled: a scan sees every item.
- Item attributes in DynamoDB:
  - attributes other than the six the handlers write are not modelled;
  - a status stored as something other than a string is not modelled.
- `Api.Event`:
  - only `httpMethod`, `path`, `pathParameters.job_id` and `body` are modelled;
  - an event that is not a dict is out;
  - a null `httpMethod` and a `pathParameters` that is not a dict are out;
  - a `job_id` that is not a string is out.
- `ContentType` on `put_object` is not modelled, because nothing reads it.
- `TABLE_NAME`: there is only one table.
- Logging is left out.
- Races between concurrent invocations on the same job item are left out (last writer wins).
- The CDK stack, the deployment script and the mock-based tests carry no runtime logic. They are not part of this model, except that the CSV test's record is used as an example.
