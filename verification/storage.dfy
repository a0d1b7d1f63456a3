/**
 * The managed services the handlers write to, as abstract state: an S3
 * bucket (objects with distinct keys, in listing order) and the DynamoDB job
 * table (a map from job id to record). Each call that can fail takes the
 * failure as an input: `Some(text)` is the exception the service raised.
 */
module Storage {
  import opened Wrappers
  import opened Json

  /**
   * What an object holds. The bodies are kept as the values they serialise
   * (`json.dumps`, `csv.DictWriter`), not as bytes.
   */
  datatype Payload =
    | RawText(text: string)
      // the downloaded text, stored as is
    | Envelope(extractedAt: string, sourceApi: string, recordCount: nat, data: Value)
      // the JSON envelope the extraction handler serialises
    | CsvFile(text: string)
      // the text `convert_to_csv` built
    | CsvTable(fieldnames: seq<string>, rows: seq<map<string, string>>)
      // what `csv.DictWriter` was given: its header and the rows it accepted

  datatype S3Object = S3Object(key: string, body: Payload)

  /**
   * The keys of the stored objects, in listing order. This mirrors `Json.Keys`
   * for a different element type: a bucket's objects, not a dict's entries.
   */
  function ObjectKeys(objs: seq<S3Object>): (ks: seq<string>)
    ensures |ks| == |objs|
    ensures forall i :: 0 <= i < |objs| ==> ks[i] == objs[i].key
  {
    seq(|objs|, i requires 0 <= i < |objs| => objs[i].key)
  }

  /** A bucket never holds two objects under one key. */
  predicate DistinctObjectKeys(objs: seq<S3Object>)
  {
    forall i, j :: 0 <= i < j < |objs| ==> objs[i].key != objs[j].key
  }

  /**
   * `put_object`: the object replaces the one stored under its key, in that
   * one's place, or is added at the end when the key is new.
   */
  function Upsert(objs: seq<S3Object>, o: S3Object): (r: seq<S3Object>)
    ensures o in r
    ensures |r| == if o.key in ObjectKeys(objs) then |objs| else |objs| + 1
    ensures forall x :: x in r ==> x == o || x in objs
    ensures forall x :: x in objs && x.key != o.key ==> x in r
  {
    if objs == [] then [o]
    else if objs[0].key == o.key then [o] + objs[1..]
    else
      assert ObjectKeys(objs) == [objs[0].key] + ObjectKeys(objs[1..]);
      [objs[0]] + Upsert(objs[1..], o)
  }

  /** The successful writes of one invocation, applied in order. */
  function ApplyPuts(objs: seq<S3Object>, puts: seq<S3Object>): seq<S3Object>
    decreases |puts|
  {
    if puts == [] then objs else ApplyPuts(Upsert(objs, puts[0]), puts[1..])
  }

  lemma ApplyOnePut(objs: seq<S3Object>, a: S3Object)
    ensures ApplyPuts(objs, [a]) == Upsert(objs, a)
  {
    assert ApplyPuts(Upsert(objs, a), []) == Upsert(objs, a);
  }

  lemma ApplyTwoPuts(objs: seq<S3Object>, a: S3Object, b: S3Object)
    ensures ApplyPuts(objs, [a, b]) == Upsert(Upsert(objs, a), b)
  {
    assert [a, b][1..] == [b];
    ApplyOnePut(Upsert(objs, a), b);
  }

  /** The body a later read of `key` sees, if any: how `UpsertGet` states what `put_object` leaves behind. */
  function Get(objs: seq<S3Object>, key: string): (r: Option<Payload>)
    ensures r.Some? <==> key in ObjectKeys(objs)
    ensures r.Some? ==> S3Object(key, r.value) in objs
  {
    if objs == [] then None
    else if objs[0].key == key then Some(objs[0].body)
    else
      assert ObjectKeys(objs) == [objs[0].key] + ObjectKeys(objs[1..]);
      Get(objs[1..], key)
  }

  /**
   * `list_objects_v2(Prefix=prefix)`: the keys that start with `prefix`, in
   * listing order.
   */
  function ListPrefix(objs: seq<S3Object>, prefix: string): (r: seq<string>)
    ensures |r| <= |objs|
    ensures forall k :: k in r <==> k in ObjectKeys(objs) && prefix <= k
  {
    if objs == [] then []
    else
      assert ObjectKeys(objs) == [objs[0].key] + ObjectKeys(objs[1..]);
      (if prefix <= objs[0].key then [objs[0].key] else []) + ListPrefix(objs[1..], prefix)
  }

  /** Writing keeps the keys distinct. */
  lemma {:induction false} UpsertDistinct(objs: seq<S3Object>, o: S3Object)
    requires DistinctObjectKeys(objs)
    ensures DistinctObjectKeys(Upsert(objs, o))
  {
    if objs != [] && objs[0].key != o.key {
      UpsertDistinct(objs[1..], o);
      var rest := Upsert(objs[1..], o);
      forall x | x in rest ensures x.key != objs[0].key {
        if x != o {
          var k :| 0 <= k < |objs[1..]| && objs[1..][k] == x;
          assert objs[k + 1] == x;
        }
      }
    }
  }

  /** After a write, reading the key gives the new body and every other key is unaffected. */
  lemma {:induction false} UpsertGet(objs: seq<S3Object>, o: S3Object, key: string)
    ensures Get(Upsert(objs, o), key) == if key == o.key then Some(o.body) else Get(objs, key)
  {
    if objs != [] && objs[0].key != o.key && objs[0].key != key {
      UpsertGet(objs[1..], o, key);
    }
  }

  /** Writing the same object twice is the same as writing it once. */
  lemma {:induction false} UpsertTwice(objs: seq<S3Object>, o: S3Object)
    ensures Upsert(Upsert(objs, o), o) == Upsert(objs, o)
  {
    if objs != [] && objs[0].key != o.key {
      UpsertTwice(objs[1..], o);
    }
  }

  lemma {:induction false} ApplyPutsDistinct(objs: seq<S3Object>, puts: seq<S3Object>)
    requires DistinctObjectKeys(objs)
    ensures DistinctObjectKeys(ApplyPuts(objs, puts))
    decreases |puts|
  {
    if puts != [] {
      UpsertDistinct(objs, puts[0]);
      ApplyPutsDistinct(Upsert(objs, puts[0]), puts[1..]);
    }
  }

  /** The bucket named by the handler's configuration. */
  class Bucket {
    var objects: seq<S3Object>

    ghost predicate Valid()
      reads this
    {
      DistinctObjectKeys(objects)
    }

    constructor (initial: seq<S3Object>)
      requires DistinctObjectKeys(initial)
      ensures Valid() && objects == initial
    {
      objects := initial;
    }

    /**
     * `s3_client.put_object(Key=key, Body=body)`. When the service fails the
     * bucket is unchanged and the exception's text is returned.
     */
    method PutObject(key: string, body: Payload, failure: Option<string>) returns (err: Option<string>)
      requires Valid()
      modifies this
      ensures Valid()
      ensures err == failure
      ensures objects == if failure.None? then Upsert(old(objects), S3Object(key, body)) else old(objects)
    {
      err := failure;
      if failure.None? {
        UpsertDistinct(objects, S3Object(key, body));
        objects := Upsert(objects, S3Object(key, body));
      }
    }
  }

  /**
   * A job table item. Every attribute but the key may be missing from an
   * item; `processedKey` is `None` both when it is missing and when it was
   * stored as null.
   */
  datatype JobRecord = JobRecord(
    status: Option<string>,
    sourceUrl: Option<Value>,
    s3Key: Option<string>,
    processedKey: Option<string>,
    createdAt: Option<string>,
    updatedAt: Option<string>)

  /**
   * `update_item(SET #status = :status, updated_at = :updated_at)`: the two
   * attributes are set and the others kept; an absent item is created with
   * only those two.
   */
  function WithStatus(item: Option<JobRecord>, status: string, updatedAt: string): (r: JobRecord)
    ensures r.status == Some(status) && r.updatedAt == Some(updatedAt)
    ensures item.Some? ==>
      r.sourceUrl == item.value.sourceUrl && r.s3Key == item.value.s3Key &&
      r.processedKey == item.value.processedKey && r.createdAt == item.value.createdAt
    ensures item.None? ==> r == JobRecord(Some(status), None, None, None, None, Some(updatedAt))
  {
    var base := item.GetOr(JobRecord(None, None, None, None, None, None));
    base.(status := Some(status), updatedAt := Some(updatedAt))
  }

  /** The job table: a map from job id to item. */
  class JobTable {
    var jobs: map<string, JobRecord>

    constructor (initial: map<string, JobRecord>)
      ensures jobs == initial
    {
      jobs := initial;
    }

    /** `table.put_item(Item=...)`: the whole item is replaced. */
    method PutItem(jobId: string, item: JobRecord, failure: Option<string>) returns (err: Option<string>)
      modifies this
      ensures err == failure
      ensures jobs == if failure.None? then old(jobs)[jobId := item] else old(jobs)
    {
      err := failure;
      if failure.None? {
        jobs := jobs[jobId := item];
      }
    }

    /** `table.update_item` setting the status and the update time of one item. */
    method UpdateStatus(jobId: string, status: string, updatedAt: string, failure: Option<string>)
      returns (err: Option<string>)
      modifies this
      ensures err == failure
      ensures jobs == if failure.None? then old(jobs)[jobId := WithStatus(GetItem(old(jobs), jobId), status, updatedAt)]
                      else old(jobs)
    {
      err := failure;
      if failure.None? {
        jobs := jobs[jobId := WithStatus(GetItem(jobs, jobId), status, updatedAt)];
      }
    }
  }

  /** `get_item(Key=...)`: the item stored under `jobId`, if any. */
  function GetItem(jobs: map<string, JobRecord>, jobId: string): Option<JobRecord>
  {
    if jobId in jobs then Some(jobs[jobId]) else None
  }
}
