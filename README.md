# http_probe: forwarding-and-capture model

A Dafny model of the core of `http_probe`, a single-upstream HTTP reverse
proxy. For each inbound request it forwards a copy to a fixed target and
streams the response back to the client. While streaming, it tees the body
into a capture that a background worker logs.

The model covers three sequential pieces of `main.py` and the middleware
that joins them:

- **Forwarding** (`forwarding.dfy`). The header map is copied and `host` is
  overwritten with the target URL minus its scheme. The scheme is removed by
  two chained `str.replace` calls. The outbound URL is the target followed by
  the request path. `text.dfy` models Python's `str.replace` and `"".join`.
- **The stream tee** (`tee.dfy`). `aiter_response_generator` is a loop over an
  abstract upstream. `Upstream.Refused` means the client call raised before a
  response existed. `Upstream.Opened` is a status/header pair, the decoded
  text chunks in arrival order, and an `Ending` that says whether the
  iteration then ends or raises; a failure at chunk k is the response with
  the first k chunks and `Raised`. `Generate` is the imperative generator. Its
  emitted sequence and the single string it puts on the `ChunkQueue` are tied
  to the specification functions `Emitted` and `HandOff`, and the lemmas
  state what the capture means.
- **Log-record assembly** (`capture.dfy`). `WriteLogs` takes one item from the
  queue and builds the `log_data` record.
- **The exchange** (`proxy.dfy`). `LogRequests` runs the middleware
  sequentially. It rewrites headers, builds the outbound request, runs the
  generator, takes its first item and runs the log worker. The upstream is a
  parameter `server: Outbound -> Upstream`, so the contract can state what was
  sent.

Parameters stand in for what the model does not compute: the target URL
(`TARGET_URL`), the clock readings (`now` for `datetime.now().isoformat()`,
`durationMs`), the upstream behaviour, and UTF-8 decoding of the request body
(`decode`, where `None` is a `UnicodeDecodeError`).

Behaviour of `main.py` that the model keeps:

- Upstream failure before the response opens has no 502/504 mapping. The
  generator catches the error, puts `""` and yields nothing. `anext` then
  raises `StopAsyncIteration` in the middleware, so no response is built and
  no log record is submitted (`Outcome.Unhandled`).
- After a mid-body failure the generator catches the error and returns
  normally (main.py:92-94), so the response body it hands on ends after the
  chunks already yielded, exactly as a complete one would. The record's
  `response_body` is `""`: it is neither the truncated body nor an error
  description.
- The query string is not forwarded (`OutboundUrl` uses the path only) and not
  logged (`url` is the path).
- `host` is the target after removing each `"http://"` and then each
  `"https://"` that `str.replace` finds, so it is not just the target's
  authority. Removal is not limited to a leading scheme, and the result can
  still contain one: `hthttp://tp://` followed by any scheme-free `a` gives
  `http://` followed by `a`, so `hthttp://tp://x` gives `http://x`
  (`StripCanLeaveScheme`). A target carrying a path such as
  `http://svc:8080/api` gives `host` = `svc:8080/api` (`StripHttp`).
- A request body that is not valid UTF-8 makes `write_logs` raise. The
  record is lost; there is no fallback text.
- Nothing is stripped from the forwarded headers, hop-by-hop ones included.

## Model

| member | source | states |
|---|---|---|
| Text.Replace | main.py:102 | `str.replace` leaves a string with no occurrence of the pattern unchanged, and removing the pattern never makes the string longer |
| Text.ReplaceLeading | main.py:102 | an occurrence at the front is replaced and the left-to-right scan resumes right after it |
| Text.HttpsPrefixAddsNoHttp | main.py:102 | a target starting with `https://` contains `http://` exactly when the rest does, so the first `replace` leaves an HTTPS scheme alone |
| Text.JoinAppend | main.py:88 | `"".join` of two part lists concatenated is the concatenation of the two joins |
| Text.JoinAt | main.py:88 | in the joined capture, each chunk sits right after the join of the chunks before it and right before the join of those after it |
| Forwarding.StripScheme | main.py:102 | the host value is never longer than the target, and a target containing neither scheme string is used unchanged |
| Forwarding.StripHttp | main.py:102 | for `"http://" + a`, with `a` containing neither scheme string, the host value is exactly `a`, port and path included |
| Forwarding.StripHttps | main.py:102 | for `"https://" + a`, with `a` containing neither scheme string, the host value is exactly `a` |
| Forwarding.StripCanLeaveScheme | main.py:102 | removing one `http://` can join its neighbours into a new one: for any `a` containing neither scheme string, `"hthttp://tp://" + a` gives the host value `"http://" + a` |
| Forwarding.RewriteHeaders | main.py:101-102 | the outbound header map has the inbound keys plus `host`; `host` holds the stripped target whether or not it was present; every other entry is unchanged |
| Forwarding.ForwardedHeadersUnique | main.py:101-102 | that description of the header rewrite determines a single map |
| Forwarding.ForwardedHeadersIdempotent | main.py:101-102 | rewriting an already rewritten map again gives the same map |
| Forwarding.OutboundUrl | main.py:109 | the outbound URL is the target verbatim followed by the request path verbatim, with nothing in between and no query string |
| Tee.ChunkItems | main.py:85-86 | each upstream chunk becomes one yielded item, at the same position |
| Tee.TextsOfChunkItems | main.py:85-86 | reading the text back from the yielded chunk items gives the upstream chunk sequence |
| Tee.Emitted | main.py:76-86 | an upstream that fails to open yields nothing; otherwise the first item is `(headers, status_code)` and item i+1 is chunk i, so the head comes before every chunk and there is one item per chunk |
| Tee.RelayedBody | main.py:83-86 | the body text yielded to the client is the upstream chunk sequence, in order, each chunk once (nothing when the upstream fails to open) |
| Tee.CaptureIsRelayedBody | main.py:84-88 | on normal end the queued capture equals the join of the chunks yielded to the client, an empty body included |
| Tee.CaptureMatchesRelay | main.py:84-88 | on normal end each yielded chunk sits in the queued capture at its own offset, after the join of the chunks before it |
| Tee.FailureDiscardsCapture | main.py:76-94 | on any failure the queued item is `""`, while the chunks already yielded stay yielded |
| Tee.ChunkQueue.constructor | main.py:105 | a new hand-off queue is empty |
| Tee.ChunkQueue.Put | main.py:88 | `put` appends the item at the back and changes nothing else |
| Tee.ChunkQueue.Get | main.py:58 | `get` returns the oldest item and removes it |
| Tee.Generate | main.py:73-94 | the generator yields exactly `Emitted` of the upstream's behaviour and puts exactly one item, `HandOff`, on the queue: the joined chunks on normal end, `""` on failure |
| Capture.BuildRecord | main.py:60-69 | a record is built exactly when the request body is empty or decodes. Its request body is `""` for an empty body; otherwise `decode` of the body gives it. Response body, method, path, request headers, response headers, duration and timestamp are copied from the inputs |
| Capture.WriteLogs | main.py:50-69 | the worker takes exactly one item from the queue, the oldest, and the record is `BuildRecord` with that item as response body |
| Proxy.LogRequests | main.py:97-127 | the upstream receives the same method and body, the target+path URL and the rewritten headers. An upstream that fails to open leaves the exchange unhandled. Otherwise the client gets the upstream status, headers and chunk sequence. The record then holds the rewritten headers, the path, the upstream headers, and as response body the join of the chunks sent to the client on normal end or `""` on failure |

## Left out

- The FastAPI application, middleware registration and `StreamingResponse` wiring (main.py:26, 97-98, 129-132): framework plumbing. The model's relayed body is the chunk sequence the response would send.
- The httpx `AsyncClient` lifecycle, its 30-second timeout and `verify=False` (main.py:35-47, 77-82): a network client. It is abstracted as the `server` parameter.
- The single-worker `ThreadPoolExecutor` and the concurrency of the blocking `queue.Queue.get` (main.py:33, 55, 58, 119-127): the model runs the log worker after the generator has finished. That hands the worker the same item, so `ChunkQueue.Get` requires a present item.
- Consumer abandonment: a client that disconnects mid-stream closes the generator with `GeneratorExit`, which `except Exception` does not catch, so nothing is put on the queue and the log worker blocks. The model assumes the stream is driven to its end.
- An exception raised when the `async with` block closes the response after the hand-off was put would lead to a second `put("")`. The upstream model has no close-time failure.
- The two `logger.error` lines (main.py:90, 93) and `logger.info(log_data)` (main.py:70), with the loguru sink, rotation and retention (main.py:16-23): logging I/O. The two `except` branches behave the same on the queue and are modelled as one failure path.
- `.env` loading and the `TARGET_URL` presence check (main.py:13, 27-30): configuration. The target is a parameter.
- `time.monotonic`, the rounding of `duration_ms` and `datetime.now().isoformat()` (main.py:61, 99, 116): clock and floating point. They are parameters copied into the record.
- Text decoding in `aiter_text` and `bytes.decode` (main.py:65, 85): chunks arrive already decoded, and request-body decoding is the `decode` parameter.
- How the framework builds `dict(request.headers)` from the raw header lines (lower-casing names, keeping the first of duplicate names) is not part of this model. The inbound headers are already a map.
- Header order: `Headers` is an unordered map, whereas `dict(request.headers)` keeps insertion order and the `host` assignment keeps an existing `host` in place or adds it last. That order reaches the upstream client and the record; no logic here depends on it.
- What the client sees on the wire after a mid-body failure depends on the server library (for example an upstream `content-length` forwarded unchanged) and is not modelled.
- Response headers are passed through as an opaque list of pairs; how the record renders them as text is not modelled.
- `Outcome.headers` and `Outcome.body` are the values the middleware hands to `StreamingResponse` (main.py:129-131), not the bytes on the wire. The header and body libraries are not part of this model: the framework rebuilding the client's headers (repeated names), and `aiter_text` decoding the body while the upstream's `content-encoding` and `content-length` go through unchanged.
