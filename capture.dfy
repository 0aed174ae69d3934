/** `write_logs`: the log worker takes the response body from the hand-off
    queue and assembles the structured record written to the traffic log. */
module Capture {
  import opened Types
  import opened Tee

  /** The record handed to the traffic logger. `url` is the request path only.
      The clock reading and the rounded duration are supplied by the caller. */
  datatype LogRecord = LogRecord(
    timestamp: string,
    verb: string,
    url: string,
    requestHeaders: Headers,
    requestBody: string,
    responseHeaders: ResponseHeaders,
    responseBody: string,
    durationMs: real)

  /** `request_body.decode() if request_body else ""`: an empty body is logged
      as `""` without decoding; `decode` returns `None` where the bytes are
      not valid UTF-8, in which case the call raises. */
  function RequestBodyText(body: seq<byte>, decode: seq<byte> -> Option<string>): Option<string> {
    if |body| == 0 then Some("") else decode(body)
  }

  /** The `log_data` dictionary, or `None` when building it raises (only the
      request body decoding can). */
  function BuildRecord(
    timestamp: string, request: Request, requestHeaders: Headers, requestBody: seq<byte>,
    responseHeaders: ResponseHeaders, responseBody: string, durationMs: real,
    decode: seq<byte> -> Option<string>): (record: Option<LogRecord>)
    ensures record.Some? <==> (|requestBody| == 0 || decode(requestBody).Some?)
    ensures record.Some? ==>
              && record.value.responseBody == responseBody
              && record.value.verb == request.verb
              && record.value.url == request.url.path
              && record.value.requestHeaders == requestHeaders
              && (|requestBody| == 0 ==> record.value.requestBody == "")
              && (|requestBody| > 0 ==> decode(requestBody) == Some(record.value.requestBody))
              && record.value.responseHeaders == responseHeaders
              && record.value.durationMs == durationMs
              && record.value.timestamp == timestamp
  {
    match RequestBodyText(requestBody, decode)
    case None => None
    case Some(text) =>
      Some(LogRecord(timestamp, request.verb, request.url.path, requestHeaders, text,
                     responseHeaders, responseBody, durationMs))
  }

  /** `write_logs`, given the clock reading `now`: takes one item from the
      queue, which becomes the response body of the record. */
  method WriteLogs(
    request: Request, requestHeaders: Headers, requestBody: seq<byte>,
    responseHeaders: ResponseHeaders, queue: ChunkQueue, durationMs: real,
    now: string, decode: seq<byte> -> Option<string>)
    returns (record: Option<LogRecord>)
    requires |queue.items| > 0
    modifies queue
    ensures queue.items == old(queue.items)[1..]
    ensures record == BuildRecord(now, request, requestHeaders, requestBody, responseHeaders,
                                  old(queue.items)[0], durationMs, decode)
  {
    var responseBody := queue.Get();
    record := BuildRecord(now, request, requestHeaders, requestBody, responseHeaders,
                          responseBody, durationMs, decode);
  }
}
