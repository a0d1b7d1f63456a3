/**
 * The API handler's uniform response (lambda/api_handler.py,
 * `create_response`) and its health check. A response's body is the dict
 * that `json.dumps` serialises; the serialisation itself is not modelled.
 */
module Responses {
  import opened Wrappers
  import opened Json

  datatype Response = Response(statusCode: int, headers: seq<(string, string)>, body: Value)

  /** The header set attached to every response: JSON content and open CORS. */
  const CorsHeaders: seq<(string, string)> := [
    ("Content-Type", "application/json"),
    ("Access-Control-Allow-Origin", "*"),
    ("Access-Control-Allow-Headers", "Content-Type,X-Amz-Date,Authorization,X-Api-Key,X-Amz-Security-Token"),
    ("Access-Control-Allow-Methods", "GET,POST,OPTIONS")
  ]

  /** `create_response(status_code, body)`: the status and body pass through, the CORS headers are added. */
  function CreateResponse(statusCode: int, body: Value): (r: Response)
    ensures r.statusCode == statusCode && r.body == body
    ensures r.headers == CorsHeaders
  {
    Response(statusCode, CorsHeaders, body)
  }

  /** `create_response(code, {'error': message})`. */
  function ErrorResponse(statusCode: int, message: string): (r: Response)
    ensures r.statusCode == statusCode && r.headers == CorsHeaders
    ensures r.body.Obj? && Lookup(r.body.fields, "error") == Some(Str(message))
  {
    CreateResponse(statusCode, Obj([Entry("error", Str(message))]))
  }

  /** `handle_health_check()`, with the clock reading as input. */
  function HealthCheck(now: string): (r: Response)
    ensures r.statusCode == 200 && r.headers == CorsHeaders
    ensures r.body.Obj? && Lookup(r.body.fields, "status") == Some(Str("healthy"))
    ensures Lookup(r.body.fields, "version") == Some(Str("1.0.0"))
    ensures Lookup(r.body.fields, "timestamp") == Some(Str(now))
  {
    var fields := [Entry("status", Str("healthy")),
                   Entry("service", Str("AWS Data Pipeline API")),
                   Entry("timestamp", Str(now)),
                   Entry("version", Str("1.0.0"))];
    LookupDistinct(fields, 2);
    LookupDistinct(fields, 3);
    CreateResponse(200, Obj(fields))
  }
}
