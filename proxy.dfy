/** `log_requests`: the middleware that forwards one exchange and captures
    it, run sequentially. The log worker runs after the generator has
    finished, which gives it the same queue item it would block for. */
module Proxy {
  import opened Types
  import opened Text
  import opened Forwarding
  import opened Tee
  import opened Capture

  /** The end of one exchange as the middleware sees it. */
  datatype Outcome =
    /** `anext` found the generator already exhausted and raised: no response
        was built and no log record was submitted. */
    | Unhandled
    /** The response opened with the upstream status and headers and relayed
        `body`; `record` is the log record (`None` when building it raised). */
    | Relayed(status: int, headers: ResponseHeaders, body: seq<string>, record: Option<LogRecord>)

  /** One exchange: `sent` is the request issued upstream, `server` says how
      the upstream responds to it, and `now`, `durationMs` are the clock
      readings the source takes. */
  method LogRequests(
    request: Request, target: string, server: Outbound -> Upstream,
    now: string, durationMs: real, decode: seq<byte> -> Option<string>)
    returns (sent: Outbound, out: Outcome)
    ensures sent.verb == request.verb && sent.content == request.body
    ensures sent.url == OutboundUrl(target, request.url)
    ensures ForwardedHeaders(request.headers, target, sent.headers)
    ensures server(sent).Refused? <==> out.Unhandled?
    ensures out.Relayed? ==>
              && out.status == server(sent).status
              && out.headers == server(sent).headers
              && out.body == server(sent).chunks
              && (out.record.Some? <==> (|request.body| == 0 || decode(request.body).Some?))
    ensures out.Relayed? && out.record.Some? ==>
              && out.record.value.verb == request.verb
              && out.record.value.url == request.url.path
              && out.record.value.requestHeaders == sent.headers
              && (|request.body| == 0 ==> out.record.value.requestBody == "")
              && (|request.body| > 0 ==> decode(request.body) == Some(out.record.value.requestBody))
              && out.record.value.responseHeaders == out.headers
              && out.record.value.responseBody ==
                   (if server(sent).ending.Complete? then Join(out.body) else "")
              && out.record.value.timestamp == now
              && out.record.value.durationMs == durationMs
  {
    var requestHeaders := RewriteHeaders(request.headers, target);
    var queue := new ChunkQueue();
    sent := Outbound(request.verb, OutboundUrl(target, request.url), requestHeaders, request.body);
    var emitted := Generate(sent, server, queue);
    if emitted == [] {
      out := Unhandled;
    } else {
      var first := emitted[0];
      var record := WriteLogs(request, requestHeaders, request.body, first.headers, queue,
                              durationMs, now, decode);
      RelayedBody(server(sent));
      out := Relayed(first.status, first.headers, Texts(emitted[1..]), record);
    }
  }
}
