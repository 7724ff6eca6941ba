/** The client API adapter (frontend/src/services/api.ts): the request
    interceptor that attaches the stored token, and the unwrapping of the
    envelope each `itemsApi` call performs. The HTTP client is not modelled:
    what it hands back for a request is the `Reply` parameter. */
module ItemsApi {
  import opened Wrappers
  import opened JsText
  import opened Envelope

  const FetchItemsFallback := "Failed to fetch items"
  const FetchItemFallback := "Failed to fetch item"
  const CreateItemFallback := "Failed to create item"
  const UpdateItemFallback := "Failed to update item"
  const DeleteItemFallback := "Failed to delete item"

  /** What the HTTP client yields for a request: the envelope of a response it
      accepted, or the message of the error it rejected the request with (a
      network failure, or a status it does not accept). */
  datatype Reply<T> = Delivered(body: Body<T>) | Rejected(message: string)

  /** `getItems`, `getItem`, `createItem`, `updateItem`: the envelope's `data`
      when `success` is set and `data` is present; otherwise the error they
      throw, carrying the envelope's `error` or, when that is missing or
      empty, the call's own fallback message. */
  function Unwrap<T>(reply: Reply<T>, fallback: string): (r: Result<T, string>)
    ensures r.Ok? <==> reply.Delivered? && reply.body.success && reply.body.data.Some?
    ensures r.Ok? ==> r.value == reply.body.data.value
    ensures reply.Rejected? ==> r == Err(reply.message)
    ensures reply.Delivered? && r.Err? ==> r.error == OrElse(reply.body.error, fallback)
  {
    match reply
    case Rejected(message) => Err(message)
    case Delivered(body) =>
      if body.success && body.data.Some? then Ok(body.data.value)
      else Err(OrElse(body.error, fallback))
  }

  /** `deleteItem`: succeeds exactly when `success` is set, whatever `data` holds. */
  function UnwrapDelete<T>(reply: Reply<T>): (r: Result<(), string>)
    ensures r.Ok? <==> reply.Delivered? && reply.body.success
    ensures reply.Rejected? ==> r == Err(reply.message)
    ensures reply.Delivered? && r.Err? ==> r.error == OrElse(reply.body.error, DeleteItemFallback)
  {
    match reply
    case Rejected(message) => Err(message)
    case Delivered(body) =>
      if body.success then Ok(()) else Err(OrElse(body.error, DeleteItemFallback))
  }

  /** The message axios rejects a request with when the status is not accepted. */
  const StatusRejectionPrefix := "Request failed with status code "

  /** The character of a decimal digit. */
  function Digit(d: nat): (c: char)
    requires d < 10
    ensures '0' <= c <= '9' && c as int - '0' as int == d
  {
    ('0' as int + d) as char
  }

  /** `String(n)` for a non-negative integer: its decimal digits, most significant first. */
  function Decimal(n: nat): (r: string)
    ensures |r| >= 1
    ensures forall i :: 0 <= i < |r| ==> '0' <= r[i] <= '9'
    ensures DigitsValue(r) == n
  {
    if n < 10 then [Digit(n)]
    else
      var r := Decimal(n / 10) + [Digit(n % 10)];
      assert r[..|r| - 1] == Decimal(n / 10);
      r
  }

  /** The number a string of decimal digits denotes. */
  function DigitsValue(s: string): int {
    if s == [] then 0 else DigitsValue(s[..|s| - 1]) * 10 + (s[|s| - 1] as int - '0' as int)
  }

  /** The rejection message for a status: the prefix and the status as `String` writes it. */
  function StatusRejection(statusCode: int): string {
    StatusRejectionPrefix + (if statusCode >= 0 then Decimal(statusCode) else "-" + Decimal(-statusCode))
  }

  /** What the axios instance makes of a server response. It is created without
      a `validateStatus`, so the default accepts exactly the 2xx statuses: their
      envelope is delivered; any other status rejects the request before the
      envelope is read. */
  function Receive<T>(resp: Response<T>): (r: Reply<T>)
    ensures r.Delivered? <==> 200 <= resp.statusCode < 300
    ensures r.Delivered? ==> r.body == resp.body
    ensures r.Rejected? ==> r.message == StatusRejection(resp.statusCode)
  {
    if 200 <= resp.statusCode < 300 then Delivered(resp.body) else Rejected(StatusRejection(resp.statusCode))
  }

  /** The client gets back exactly the data the server's `success` wrapped,
      for the statuses the backend uses (200 by default, 201 for create); a
      non-2xx status would reject the call instead. */
  lemma UnwrapSuccess<T>(data: T, statusCode: Option<int>, fallback: string)
    ensures var code := if statusCode.Some? then statusCode.value else 200;
      200 <= code < 300 ==>
        Unwrap(Receive(Success(data, statusCode)), fallback) == Ok(data)
        && UnwrapDelete(Receive(Success(data, statusCode))) == Ok(())
    ensures var code := if statusCode.Some? then statusCode.value else 200;
      !(200 <= code < 300) ==>
        Unwrap(Receive(Success(data, statusCode)), fallback) == Err(StatusRejection(code))
  {
  }

  /** A response built by the server's `error` always makes the call throw.
      With a 2xx status the thrown message is the server's, or the fallback
      when that message is empty; with any other status, and so with every
      status the backend's handlers use (400, 403, 404, 500), it is axios's
      "Request failed with status code N" and the server's message is never read. */
  lemma UnwrapError<T>(message: string, statusCode: Option<int>, fallback: string)
    ensures var code := if statusCode.Some? then statusCode.value else 500;
      200 <= code < 300 ==>
        Unwrap(Receive(Error<T>(message, statusCode)), fallback) == Err(OrElse(Some(message), fallback))
    ensures var code := if statusCode.Some? then statusCode.value else 500;
      !(200 <= code < 300) ==>
        Unwrap(Receive(Error<T>(message, statusCode)), fallback) == Err(StatusRejection(code))
        && UnwrapDelete(Receive(Error<T>(message, statusCode))) == Err(StatusRejection(code))
    ensures UnwrapDelete(Receive(Error<T>(message, statusCode))).Err?
  {
  }

  /** The backend's 404 for a missing item reaches the client as the status
      message, whatever the envelope's error says. */
  lemma NotFoundSeenAsStatus<T>(message: string, fallback: string)
    ensures Unwrap(Receive(Error<T>(message, Some(404))), fallback) == Err("Request failed with status code 404")
  {
    assert Digit(4) == '4' && Digit(0) == '0';
    assert Decimal(40) == Decimal(4) + [Digit(0)] == "40";
    assert Decimal(404) == Decimal(40) + [Digit(4)] == "404";
    assert StatusRejection(404) == StatusRejectionPrefix + "404" == "Request failed with status code 404";
    assert Receive(Error<T>(message, Some(404))) == Rejected(StatusRejection(404));
  }

  /** The configuration of an outgoing request; only its headers matter here. */
  class RequestConfig {
    var headers: map<string, string>

    constructor (headers: map<string, string>)
      ensures this.headers == headers
    {
      this.headers := headers;
    }
  }

  /** The request interceptor: with a stored (non-empty) token, set
      `Authorization` to `Bearer <token>`; without one, leave the headers alone.
      `token` is what local storage holds under `cognito_token`. */
  method AttachToken(config: RequestConfig, token: Option<string>)
    modifies config
    ensures token.Some? && token.value != "" ==>
      config.headers == old(config.headers)["Authorization" := "Bearer " + token.value]
    ensures token.None? || token.value == "" ==> config.headers == old(config.headers)
  {
    if token.Some? && token.value != "" {
      config.headers := config.headers["Authorization" := "Bearer " + token.value];
    }
  }
}
