/**
 * The request interceptor: every outgoing request gets its User-Agent set
 * (the configured one, or a default) before the wrapped transport sends it.
 */
module Transport {
  import opened Common
  import opened Http

  /** The User-Agent sent when none has been configured. */
  const DefaultUserAgent := "Mozilla/5.0 (compatible)"

  /** What the wrapped transport returns for a request: a response, an error, or both nil. */
  datatype Outcome = Outcome(resp: Option<Response>, err: Option<string>)

  /** An outgoing request, as far as the interceptor touches it: its header map. */
  class Request {
    /** The header map; None is a nil map. */
    var header: Option<Header>

    constructor (h: Option<Header>)
      ensures header == h
    {
      header := h;
    }

    /** The header map, created empty first if it was nil; an existing map is returned untouched. */
    method GetHeader() returns (h: Header)
      modifies this
      ensures old(header).None? ==> h == map[]
      ensures old(header).Some? ==> h == old(header).value
      ensures header == Some(h)
    {
      if header.None? {
        header := Some(map[]);
      }
      h := header.value;
    }

    /** Sets User-Agent to exactly `ua`, dropping any value it had; other fields stay. */
    method SetUserAgent(ua: string)
      modifies this
      ensures header == Some(old(header).GetOr(map[])["User-Agent" := [ua]])
      ensures HeaderGet(header.value, "User-Agent") == ua
    {
      var h := GetHeader();
      header := Some(h["User-Agent" := [ua]]);
    }
  }

  class Transport {
    /** The configured User-Agent; "" means none. */
    var ua: string

    constructor ()
      ensures ua == ""
    {
      ua := "";
    }

    /** The User-Agent to send: the configured one, or the default when none is set; never empty. */
    function UserAgent(): (r: string)
      reads this
      ensures ua == "" ==> r == DefaultUserAgent
      ensures ua != "" ==> r == ua
      ensures r != ""
    {
      if ua == "" then DefaultUserAgent else ua
    }

    /**
     * Sets the User-Agent on the request, then hands it to the wrapped
     * transport `next` and returns its answer unchanged.
     */
    method RoundTrip(r: Request, next: Header -> Outcome) returns (o: Outcome)
      modifies r
      ensures r.header == Some(old(r.header).GetOr(map[])["User-Agent" := [UserAgent()]])
      ensures o == next(r.header.value)
    {
      r.SetUserAgent(UserAgent());
      o := next(r.header.value);
    }
  }
}
