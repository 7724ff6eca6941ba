/** The response envelope (backend/src/utils/response.js): every handler
    answers with a status, the fixed cross-origin headers and a body
    `{success, data}` or `{success, error}`. The body stays structured; its
    JSON text is not modelled. */
module Envelope {
  import opened Wrappers

  /** `{success, data?, error?}`; an attribute the body lacks is None. */
  datatype Body<T> = Body(success: bool, data: Option<T>, error: Option<string>)

  datatype Response<T> = Response(statusCode: int, headers: seq<(string, string)>, body: Body<T>)

  /** The headers every response carries, in their declared order. */
  const CorsHeaders: seq<(string, string)> := [
    ("Access-Control-Allow-Origin", "*"),
    ("Access-Control-Allow-Headers", "Content-Type,X-Amz-Date,Authorization,X-Api-Key,X-Amz-Security-Token"),
    ("Access-Control-Allow-Methods", "GET,POST,PUT,DELETE,OPTIONS"),
    ("Content-Type", "application/json")
  ]

  /** `createResponse`: the status and body as given, and the same four headers whatever they are. */
  function CreateResponse<T>(statusCode: int, body: Body<T>): (r: Response<T>)
    ensures r.statusCode == statusCode && r.body == body
    ensures r.headers == CorsHeaders && |r.headers| == 4
  {
    Response(statusCode, CorsHeaders, body)
  }

  /** `success(data, statusCode = 200)`: a successful body carrying `data` and no error. */
  function Success<T>(data: T, statusCode: Option<int>): (r: Response<T>)
    ensures r.body.success && r.body.data == Some(data) && r.body.error.None?
    ensures statusCode.None? ==> r.statusCode == 200
    ensures statusCode.Some? ==> r.statusCode == statusCode.value
    ensures r.headers == CorsHeaders
  {
    CreateResponse(if statusCode.Some? then statusCode.value else 200, Body(true, Some(data), None))
  }

  /** `error(message, statusCode = 500)`: a failed body carrying `message` and no data. */
  function Error<T>(message: string, statusCode: Option<int>): (r: Response<T>)
    ensures !r.body.success && r.body.error == Some(message) && r.body.data.None?
    ensures statusCode.None? ==> r.statusCode == 500
    ensures statusCode.Some? ==> r.statusCode == statusCode.value
    ensures r.headers == CorsHeaders
  {
    CreateResponse(if statusCode.Some? then statusCode.value else 500, Body(false, None, Some(message)))
  }
}
