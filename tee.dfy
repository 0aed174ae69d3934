/** The response generator: it relays the upstream response item by item and
    tees the body into a local list, handing exactly one string to the log
    worker through a queue when it finishes, whichever way it finishes. */
module Tee {
  import opened Types
  import opened Text

  /** How the upstream body iteration ends after its last delivered chunk. */
  datatype Ending = Complete | Raised

  /** What the upstream client does for one request: it fails before any
      response is available, or it opens a response whose decoded text chunks
      arrive in order and then either end or raise. A failure while reading
      chunk k is the response whose `chunks` are the k chunks before it. */
  datatype Upstream =
    | Refused
    | Opened(headers: ResponseHeaders, status: int, chunks: seq<string>, ending: Ending)

  /** An item the generator yields: the `(headers, status_code)` pair, or one
      body chunk. */
  datatype Item = Head(headers: ResponseHeaders, status: int) | Chunk(text: string)

  /** The chunks as yielded items, one item per chunk, in order. */
  function ChunkItems(chunks: seq<string>): (items: seq<Item>)
    ensures |items| == |chunks|
    ensures forall i :: 0 <= i < |chunks| ==> items[i] == Chunk(chunks[i])
  {
    if chunks == [] then [] else [Chunk(chunks[0])] + ChunkItems(chunks[1..])
  }

  /** The body text carried by a run of items, in order; a `Head` carries none. */
  function Texts(items: seq<Item>): seq<string> {
    if items == [] then []
    else (if items[0].Chunk? then [items[0].text] else []) + Texts(items[1..])
  }

  lemma {:induction false} TextsOfChunkItems(chunks: seq<string>)
    ensures Texts(ChunkItems(chunks)) == chunks
  {
    if chunks != [] {
      TextsOfChunkItems(chunks[1..]);
      assert ChunkItems(chunks)[1..] == ChunkItems(chunks[1..]);
    }
  }

  /** Everything the generator yields for an upstream behaviour. */
  function Emitted(u: Upstream): (items: seq<Item>)
    ensures u.Refused? ==> items == []
    ensures u.Opened? ==> |items| == |u.chunks| + 1 && items[0] == Head(u.headers, u.status)
    ensures u.Opened? ==> forall i :: 0 < i < |items| ==> items[i] == Chunk(u.chunks[i - 1])
  {
    match u
    case Refused => []
    case Opened(headers, status, chunks, _) => [Head(headers, status)] + ChunkItems(chunks)
  }

  /** The one string the generator puts on the hand-off queue. */
  function HandOff(u: Upstream): string {
    if u.Opened? && u.ending.Complete? then Join(u.chunks) else ""
  }

  /** The body relayed to the client is the upstream body, chunk for chunk. */
  lemma RelayedBody(u: Upstream)
    ensures Texts(Emitted(u)) == if u.Opened? then u.chunks else []
  {
    if u.Opened? {
      var items := Emitted(u);
      assert items == [items[0]] + ChunkItems(u.chunks);
      TextsOfChunkItems(u.chunks);
    }
  }

  /** On normal completion the captured body is exactly what the client was
      sent, an empty body included. */
  lemma CaptureIsRelayedBody(u: Upstream)
    requires u.Opened? && u.ending.Complete?
    ensures HandOff(u) == Join(Texts(Emitted(u)))
  {
    RelayedBody(u);
  }

  /** On normal completion every relayed chunk sits in the captured body at
      its own offset. */
  lemma CaptureMatchesRelay(u: Upstream, i: nat)
    requires u.Opened? && u.ending.Complete?
    requires i < |u.chunks|
    ensures HandOff(u) == Join(u.chunks[..i]) + Emitted(u)[i + 1].text + Join(u.chunks[i + 1..])
  {
    JoinAt(u.chunks, i);
  }

  /** On any failure the partial capture is dropped: the hand-off is empty even
      though the chunks already yielded stay yielded. */
  lemma FailureDiscardsCapture(u: Upstream)
    requires u.Refused? || u.ending.Raised?
    ensures HandOff(u) == ""
    ensures Texts(Emitted(u)) == if u.Opened? then u.chunks else []
  {
    RelayedBody(u);
  }

  /** The blocking `queue.Queue` shared by the generator and the log worker;
      `items` are the strings put and not yet taken, oldest first. */
  class ChunkQueue {
    var items: seq<string>

    constructor ()
      ensures items == []
    {
      items := [];
    }

    method Put(x: string)
      modifies this
      ensures items == old(items) + [x]
    {
      items := items + [x];
    }

    /** `get()` blocks until an item is there; here the producer has already
        run, so an item is present. */
    method Get() returns (x: string)
      requires |items| > 0
      modifies this
      ensures x == old(items)[0] && items == old(items)[1..]
    {
      x := items[0];
      items := items[1..];
    }
  }

  /** `aiter_response_generator`, run to completion: issues the request, yields
      the head and then each chunk, appending each to a local list, and puts
      one string on `queue`: the joined list on normal end, `""` on failure. */
  method Generate(request: Outbound, server: Outbound -> Upstream, queue: ChunkQueue)
    returns (emitted: seq<Item>)
    modifies queue
    ensures emitted == Emitted(server(request))
    ensures queue.items == old(queue.items) + [HandOff(server(request))]
  {
    var response := server(request);
    match response
    case Refused =>
      emitted := [];
      queue.Put("");
    case Opened(headers, status, chunks, ending) =>
      emitted := [Head(headers, status)];
      var responseBodyChunks: seq<string> := [];
      var i := 0;
      while i < |chunks|
        invariant 0 <= i <= |chunks|
        invariant emitted == [Head(headers, status)] + ChunkItems(chunks[..i])
        invariant responseBodyChunks == chunks[..i]
        invariant queue.items == old(queue.items)
      {
        emitted := emitted + [Chunk(chunks[i])];
        responseBodyChunks := responseBodyChunks + [chunks[i]];
        assert chunks[..i + 1] == chunks[..i] + [chunks[i]];
        i := i + 1;
      }
      assert chunks[..i] == chunks;
      if ending.Complete? {
        queue.Put(Join(responseBodyChunks));
      } else {
        queue.Put("");
      }
  }
}
