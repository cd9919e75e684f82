/** The parts of an HTTP exchange the bot looks at; the transfer itself is not modelled. */
module Http {
  import opened Common

  /** Header fields by canonical name, each with its values in order. */
  type Header = map<string, seq<string>>

  /** The first value of a header field, or "" when it has none. */
  function HeaderGet(h: Header, key: string): (v: string)
    ensures key !in h || h[key] == [] ==> v == ""
    ensures key in h && h[key] != [] ==> v == h[key][0]
  {
    if key in h && |h[key]| > 0 then h[key][0] else ""
  }

  /**
   * What draining a response body to its end gives: the bytes read, and the
   * read error that ended it early, if any (the bytes read before the error
   * are still returned, as the read-all helper does).
   */
  datatype BodyStream = BodyStream(data: seq<byte>, failure: Option<string>)

  /** A response: status code and text, header, and body stream (None for a nil body). */
  datatype Response = Response(statusCode: int, status: string, header: Header, body: Option<BodyStream>)
}
