/** Values shared by the whole proxy model: requests as the middleware sees
    them, the header map it copies, and the request it sends upstream. */
module Types {

  datatype Option<+T> = None | Some(value: T)

  /** One octet of a request body. */
  newtype byte = x: int | 0 <= x < 256

  /** A header dictionary (`dict(request.headers)`): lower-case name to value. */
  type Headers = map<string, string>

  /** Response headers as the upstream client hands them to the middleware:
      an ordered list of name/value pairs. The middleware passes this value on
      unchanged; how the framework then writes it to the client is not modelled. */
  type ResponseHeaders = seq<(string, string)>

  /** The parts of `request.url` the proxy reads. */
  datatype Url = Url(path: string, query: string)

  /** An inbound request: method (`verb`), URL, header map and the full body. */
  datatype Request = Request(verb: string, url: Url, headers: Headers, body: seq<byte>)

  /** The request handed to the upstream client's `stream` call. */
  datatype Outbound = Outbound(verb: string, url: string, headers: Headers, content: seq<byte>)
}
