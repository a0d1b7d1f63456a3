/**
 * The scheduled extraction function (lambda/lambda_function.py,
 * `lambda_handler`): fetch the configured API, store the records wrapped in
 * an envelope as JSON, then store them as CSV, both under keys built from one
 * timestamp. Every exception becomes a 500 result carrying its text.
 *
 * The environment, the HTTP reply (with what `json.loads` makes of it), the
 * two clock readings and the outcome of each `put_object` are inputs.
 */
module Extraction {
  import opened Wrappers
  import opened Json
  import Text
  import Csv
  import opened Storage

  /** The `BUCKET_NAME` and `API_URL` environment variables; `None` when unset. */
  datatype Settings = Settings(bucketName: Option<string>, apiUrl: Option<string>)

  /** What the GET request to the API did: it raised, or it answered with a status and a body. */
  datatype HttpReply = RequestRaised(message: string) | Reply(status: int, body: Parsed)

  /** The dict the handler returns; `body` is the dict it passes to `json.dumps`. */
  datatype HandlerResult = HandlerResult(statusCode: int, body: Value)

  /** One invocation: its result and the objects it wrote, in the order written. */
  datatype Run = Run(result: HandlerResult, puts: seq<S3Object>)

  const JsonPrefix := "data/users/"
  const JsonSuffix := "_users.json"
  const CsvPrefix := "data/users_csv/"
  const CsvSuffix := "_users.csv"

  /** The JSON object's key: the timestamp between `data/users/` and `_users.json`. */
  function JsonKey(stamp: string): string
  {
    JsonPrefix + stamp + JsonSuffix
  }

  /** The CSV object's key: the timestamp between `data/users_csv/` and `_users.csv`. */
  function CsvKey(stamp: string): string
  {
    CsvPrefix + stamp + CsvSuffix
  }

  /** The timestamp a key was built from, when the key has the given shape. */
  function StampOf(key: string, prefix: string, suffix: string): (r: Option<string>)
    ensures r.Some? ==> key == prefix + r.value + suffix
  {
    if |prefix| + |suffix| <= |key| && prefix <= key && Text.EndsWith(key, suffix) then
      var stamp := key[|prefix|..|key| - |suffix|];
      assert key == key[..|prefix|] + stamp + key[|key| - |suffix|..];
      Some(stamp)
    else None
  }

  /** Both keys give back the timestamp they were built from. */
  lemma KeysGiveBackStamp(stamp: string)
    ensures StampOf(JsonKey(stamp), JsonPrefix, JsonSuffix) == Some(stamp)
    ensures StampOf(CsvKey(stamp), CsvPrefix, CsvSuffix) == Some(stamp)
  {
    var j := JsonKey(stamp);
    assert j[..|JsonPrefix|] == JsonPrefix;
    assert j[|j| - |JsonSuffix|..] == JsonSuffix;
    assert j[|JsonPrefix|..|j| - |JsonSuffix|] == stamp;
    var c := CsvKey(stamp);
    assert c[..|CsvPrefix|] == CsvPrefix;
    assert c[|c| - |CsvSuffix|..] == CsvSuffix;
    assert c[|CsvPrefix|..|c| - |CsvSuffix|] == stamp;
  }

  /** No JSON key is ever a CSV key, so the second write never replaces the first. */
  lemma KeysNeverCollide(s: string, t: string)
    ensures JsonKey(s) != CsvKey(t)
  {
    assert JsonKey(s)[10] == '/';
    assert CsvKey(t)[10] == '_';
  }

  /** `len(data)`: defined for strings, lists and dicts only. */
  function PyLen(v: Value): (r: Option<nat>)
    ensures r.Some? <==> v.Str? || v.List? || v.Obj?
    ensures r.Some? ==> (r.value == 0 <==> !Truthy(v))
  {
    match v
    case Str(s) => Some(|s|)
    case List(items) => Some(|items|)
    case Obj(fields) => Some(|fields|)
    case _ => None
  }

  /** The TypeError `len()` raises for any other value. */
  function LenError(v: Value): string
  {
    "object of type '" + TypeName(v) + "' has no len()"
  }

  /** The index of the first element that is not a dict, or the length when there is none. */
  function FirstNonObject(items: seq<Value>): (i: nat)
    ensures i <= |items|
    ensures forall k :: 0 <= k < i ==> items[k].Obj?
    ensures i < |items| ==> !items[i].Obj?
  {
    if items == [] then 0
    else if !items[0].Obj? then 0
    else 1 + FirstNonObject(items[1..])
  }

  /** The records of a list of dicts. */
  function Records(items: seq<Value>): (rs: seq<Csv.Record>)
    requires forall k :: 0 <= k < |items| ==> items[k].Obj?
    ensures |rs| == |items|
    ensures forall k :: 0 <= k < |items| ==> rs[k] == items[k].fields
  {
    seq(|items|, k requires 0 <= k < |items| => items[k].fields)
  }

  /**
   * `convert_to_csv(data)` for any value: a falsy value gives `""`; a list of
   * dicts gives its CSV text; anything else raises, and the result is the
   * exception's text.
   */
  function CsvOf(data: Value): (r: Result<string>)
    ensures !Truthy(data) ==> r == Ok("")
    ensures r.Ok? && Truthy(data) ==> data.List? && forall k :: 0 <= k < |data.items| ==> data.items[k].Obj?
    ensures Truthy(data) && data.List? && (forall k :: 0 <= k < |data.items| ==> data.items[k].Obj?) ==>
      r == Ok(Csv.CsvText(Records(data.items)))
    ensures Truthy(data) && data.Obj? ==> r == Err("0")
  {
    if !Truthy(data) then Ok("")
    else match data
      case List(items) =>
        var i := FirstNonObject(items);
        assert (forall k :: 0 <= k < |items| ==> items[k].Obj?) ==> i == |items|;
        if i < |items| then Err("'" + TypeName(items[i]) + "' object has no attribute 'items'")
        else Ok(Csv.CsvText(Records(items)))
      case Obj(_) => Err("0")
      case Str(_) => Err("'str' object has no attribute 'items'")
      case _ => Err("'" + TypeName(data) + "' object is not subscriptable")
  }

  /** The 500 result for an exception whose text is `message`. */
  function Failed(message: string, puts: seq<S3Object>): Run
  {
    Run(HandlerResult(500, Obj([Entry("error", Str(message))])), puts)
  }

  /** The 200 result's body. */
  function SuccessBody(count: nat, jsonFile: string, csvFile: string): Value
  {
    Obj([Entry("message", Str("Data extracted and saved successfully")),
         Entry("records_processed", Int(count)),
         Entry("json_file", Str(jsonFile)),
         Entry("csv_file", Str(csvFile))])
  }

  /** What one invocation returns and writes. */
  function Extract(settings: Settings, reply: HttpReply, extractedAt: string, stamp: string,
                   jsonFailure: Option<string>, csvFailure: Option<string>): (run: Run)
    ensures run.result.statusCode == 200 || run.result.statusCode == 500
    ensures |run.puts| <= 2
    ensures run.result.statusCode == 200 <==> |run.puts| == 2
  {
    if settings.bucketName.None? then Failed("'BUCKET_NAME'", [])
    else if settings.apiUrl.None? then Failed("'API_URL'", [])
    else match reply
      case RequestRaised(m) => Failed(m, [])
      case Reply(status, body) =>
        if status != 200 then Failed("API error: " + Text.Decimal(status), [])
        else if body.Malformed? then Failed(body.message, [])
        else
          var data := body.value;
          match PyLen(data)
          case None => Failed(LenError(data), [])
          case Some(n) =>
            var jsonObject := S3Object(JsonKey(stamp), Envelope(extractedAt, settings.apiUrl.value, n, data));
            if jsonFailure.Some? then Failed(jsonFailure.value, [])
            else match CsvOf(data)
              case Err(m) => Failed(m, [jsonObject])
              case Ok(csv) =>
                if csvFailure.Some? then Failed(csvFailure.value, [jsonObject])
                else Run(HandlerResult(200, SuccessBody(n, JsonKey(stamp), CsvKey(stamp))),
                         [jsonObject, S3Object(CsvKey(stamp), CsvFile(csv))])
  }

  /**
   * The handler: the same steps in the same order, writing to `bucket` and
   * building the CSV text with the loop of `convert_to_csv`.
   */
  method LambdaHandler(bucket: Bucket, settings: Settings, reply: HttpReply, extractedAt: string, stamp: string,
                       jsonFailure: Option<string>, csvFailure: Option<string>)
    returns (result: HandlerResult)
    requires bucket.Valid()
    modifies bucket
    ensures bucket.Valid()
    ensures result == Extract(settings, reply, extractedAt, stamp, jsonFailure, csvFailure).result
    ensures bucket.objects ==
      ApplyPuts(old(bucket.objects), Extract(settings, reply, extractedAt, stamp, jsonFailure, csvFailure).puts)
  {
    ghost var run := Extract(settings, reply, extractedAt, stamp, jsonFailure, csvFailure);
    if settings.bucketName.None? {
      return Failed("'BUCKET_NAME'", []).result;
    }
    if settings.apiUrl.None? {
      return Failed("'API_URL'", []).result;
    }
    if reply.RequestRaised? {
      return Failed(reply.message, []).result;
    }
    if reply.status != 200 {
      return Failed("API error: " + Text.Decimal(reply.status), []).result;
    }
    if reply.body.Malformed? {
      return Failed(reply.body.message, []).result;
    }
    var data := reply.body.value;
    var count := PyLen(data);
    if count.None? {
      return Failed(LenError(data), []).result;
    }
    var jsonObject := S3Object(JsonKey(stamp), Envelope(extractedAt, settings.apiUrl.value, count.value, data));
    var err := bucket.PutObject(jsonObject.key, jsonObject.body, jsonFailure);
    if err.Some? {
      assert run == Failed(err.value, []);
      return Failed(err.value, []).result;
    }
    ghost var afterJson := bucket.objects;
    assert afterJson == Upsert(old(bucket.objects), jsonObject);
    assert ApplyPuts(afterJson, []) == afterJson;
    assert afterJson == ApplyPuts(old(bucket.objects), [jsonObject]);
    var csv := ConvertData(data);
    if csv.Err? {
      assert run == Failed(csv.message, [jsonObject]);
      return Failed(csv.message, []).result;
    }
    var csvObject := S3Object(CsvKey(stamp), CsvFile(csv.value));
    err := bucket.PutObject(csvObject.key, csvObject.body, csvFailure);
    if err.Some? {
      assert run == Failed(err.value, [jsonObject]);
      return Failed(err.value, []).result;
    }
    result := HandlerResult(200, SuccessBody(count.value, JsonKey(stamp), CsvKey(stamp)));
    assert run.puts == [jsonObject, csvObject];
    assert [jsonObject, csvObject][1..] == [csvObject];
    ghost var afterCsv := bucket.objects;
    assert afterCsv == Upsert(afterJson, csvObject);
    assert ApplyPuts(afterCsv, []) == afterCsv;
    assert ApplyPuts(afterJson, [csvObject]) == afterCsv;
  }

  /** `convert_to_csv(data)`, with the list case run by the loop method. */
  method ConvertData(data: Value) returns (r: Result<string>)
    ensures r == CsvOf(data)
  {
    if !Truthy(data) {
      return Ok("");
    }
    match data {
      case List(items) =>
        var i := 0;
        while i < |items| && items[i].Obj?
          invariant 0 <= i <= |items|
          invariant forall k :: 0 <= k < i ==> items[k].Obj?
        {
          i := i + 1;
        }
        FirstNonObjectIs(items, i);
        if i < |items| {
          return Err("'" + TypeName(items[i]) + "' object has no attribute 'items'");
        }
        var text := Csv.ConvertToCsv(Records(items));
        return Ok(text);
      case Obj(_) =>
        return Err("0");
      case Str(_) =>
        return Err("'str' object has no attribute 'items'");
      case _ =>
        return Err("'" + TypeName(data) + "' object is not subscriptable");
    }
  }

  lemma {:induction false} FirstNonObjectIs(items: seq<Value>, i: nat)
    requires i <= |items|
    requires forall k :: 0 <= k < i ==> items[k].Obj?
    requires i < |items| ==> !items[i].Obj?
    ensures FirstNonObject(items) == i
  {
    if i > 0 {
      FirstNonObjectIs(items[1..], i - 1);
    }
  }

  /**
   * A reply other than 200 fails with `API error: <status>` before anything
   * is written; so does a request that raised.
   */
  lemma NonOkStatusWritesNothing(settings: Settings, reply: HttpReply, extractedAt: string, stamp: string,
                                 jsonFailure: Option<string>, csvFailure: Option<string>)
    requires settings.bucketName.Some? && settings.apiUrl.Some?
    requires reply.RequestRaised? || reply.status != 200
    ensures var run := Extract(settings, reply, extractedAt, stamp, jsonFailure, csvFailure);
      && run.result.statusCode == 500
      && run.puts == []
      && (reply.Reply? ==> run.result.body == Obj([Entry("error", Str("API error: " + Text.Decimal(reply.status)))]))
  {
  }

  /**
   * Success happens exactly when the settings are present, the reply is a
   * 200 whose body parses to a value with a length that `convert_to_csv`
   * accepts, and both writes succeed. Then the JSON envelope is written
   * first and the CSV second, under keys sharing the timestamp, and
   * `records_processed` is `len(data)`.
   */
  lemma SuccessWritesJsonThenCsv(settings: Settings, reply: HttpReply, extractedAt: string, stamp: string,
                                 jsonFailure: Option<string>, csvFailure: Option<string>)
    ensures var run := Extract(settings, reply, extractedAt, stamp, jsonFailure, csvFailure);
      run.result.statusCode == 200 <==>
        && settings.bucketName.Some? && settings.apiUrl.Some?
        && reply.Reply? && reply.status == 200 && reply.body.Parsed?
        && PyLen(reply.body.value).Some? && CsvOf(reply.body.value).Ok?
        && jsonFailure.None? && csvFailure.None?
    ensures var run := Extract(settings, reply, extractedAt, stamp, jsonFailure, csvFailure);
      run.result.statusCode == 200 ==>
        var data := reply.body.value;
        var n := PyLen(data).value;
        && run.puts == [S3Object(JsonKey(stamp), Envelope(extractedAt, settings.apiUrl.value, n, data)),
                        S3Object(CsvKey(stamp), CsvFile(CsvOf(data).value))]
        && Lookup(run.result.body.fields, "records_processed") == Some(Int(n))
        && StampOf(run.puts[0].key, JsonPrefix, JsonSuffix) == StampOf(run.puts[1].key, CsvPrefix, CsvSuffix)
  {
    KeysGiveBackStamp(stamp);
  }

  /** An empty list (or any empty value with a length) still produces a CSV object, with empty text. */
  lemma EmptyDataStillWritesCsv(settings: Settings, extractedAt: string, stamp: string, data: Value)
    requires settings.bucketName.Some? && settings.apiUrl.Some?
    requires PyLen(data) == Some(0)
    ensures var run := Extract(settings, Reply(200, Parsed(data)), extractedAt, stamp, None, None);
      && run.result.statusCode == 200
      && run.puts[1] == S3Object(CsvKey(stamp), CsvFile(""))
      && Lookup(run.result.body.fields, "records_processed") == Some(Int(0))
  {
  }

  /** A failed CSV step leaves the JSON object written and still answers 500. */
  lemma JsonStandsWhenCsvFails(settings: Settings, data: Value, extractedAt: string, stamp: string,
                               csvFailure: Option<string>)
    requires settings.bucketName.Some? && settings.apiUrl.Some?
    requires PyLen(data).Some?
    requires CsvOf(data).Err? || csvFailure.Some?
    ensures var run := Extract(settings, Reply(200, Parsed(data)), extractedAt, stamp, None, csvFailure);
      && run.result.statusCode == 500
      && run.puts == [S3Object(JsonKey(stamp), Envelope(extractedAt, settings.apiUrl.value, PyLen(data).value, data))]
  {
  }

  /** A non-empty dict passes `len()` but fails at `data[0]`, after the JSON write. */
  lemma DictDataFailsAfterJsonWrite(settings: Settings, fields: seq<Entry>, extractedAt: string, stamp: string)
    requires settings.bucketName.Some? && settings.apiUrl.Some?
    requires fields != []
    ensures var run := Extract(settings, Reply(200, Parsed(Obj(fields))), extractedAt, stamp, None, None);
      && run.result == HandlerResult(500, Obj([Entry("error", Str("0"))]))
      && |run.puts| == 1 && run.puts[0].key == JsonKey(stamp)
  {
  }
}
