/**
 * A Page wraps one response. Its body is read at most once, on first use,
 * transcoded from Latin-1 when the response declares that charset, and
 * cached; forms and tables are extracted from the cached bytes.
 */
module Pages {
  import opened Common
  import opened Http
  import opened Text
  import opened Latin1
  import opened Dom
  import opened FormExtraction
  import opened TableExtraction

  datatype PageError =
    | NilPage
    | NilResp
    | NilRespBody
    | ReadFailed(msg: string)
    | ParseFailed(msg: string)

  /** The marker that switches on the Latin-1 conversion, searched for in the lower-cased Content-Type. */
  const Latin1Marker := "charset=iso-8859-1"

  /** The response declares ISO-8859-1 in its Content-Type, in any letter case. */
  predicate DeclaresLatin1(resp: Response)
  {
    Contains(ToLower(HeaderGet(resp.header, "Content-Type")), Latin1Marker)
  }

  /** The lower-cased `ct` has the marker at `i`: the marker, in any letter case, starts at `i`. */
  predicate MarkerAt(ct: string, i: nat)
  {
    i + |Latin1Marker| <= |ct| && ToLower(ct[i..i + |Latin1Marker|]) == Latin1Marker
  }

  /** The Latin-1 switch fires exactly when the Content-Type carries the marker in some letter case. */
  lemma MarkerAnyCase(resp: Response)
    ensures DeclaresLatin1(resp) <==> exists i: nat :: MarkerAt(HeaderGet(resp.header, "Content-Type"), i)
  {
    var ct := HeaderGet(resp.header, "Content-Type");
    var n := |Latin1Marker|;
    if DeclaresLatin1(resp) {
      var i: nat :| i <= |ToLower(ct)| && OccursAt(ToLower(ct), Latin1Marker, i);
      assert ToLower(ct)[i..i + n] == ToLower(ct[i..i + n]);
      assert MarkerAt(ct, i);
    }
    if exists i: nat :: MarkerAt(ct, i) {
      var i: nat :| MarkerAt(ct, i);
      assert ToLower(ct)[i..i + n] == ToLower(ct[i..i + n]);
      assert OccursAt(ToLower(ct), Latin1Marker, i);
    }
  }

  /** The bytes a successful read of `data` is cached as. */
  function Materialize(resp: Response, data: seq<byte>): (r: seq<byte>)
    ensures !DeclaresLatin1(resp) ==> r == data
    ensures DeclaresLatin1(resp) ==> |r| == |data| + HighCount(data) && Utf8ToLatin1(r) == Some(data)
  {
    if DeclaresLatin1(resp) then
      TranscodedLength(data);
      TranscodeRoundTrip(data);
      Latin1ToUtf8(data)
    else data
  }

  class Page {
    /** The wrapped response; None is a nil response. */
    var resp: Option<Response>
    /** The cached body; None until it has been read. */
    var body: Option<seq<byte>>
    /** The response body has been closed. */
    var closed: bool
    /** How many times the response body stream has been drained. */
    ghost var drains: nat

    /** A page over `r`, with nothing read yet. */
    constructor (r: Option<Response>)
      ensures resp == r && body == None && !closed && drains == 0
    {
      resp := r;
      body := None;
      closed := false;
      drains := 0;
    }

    /**
     * Reads the body once: when nothing is cached yet, drains the stream,
     * caches what was read, and on success converts Latin-1 and closes the
     * stream. A cached body is never read again.
     */
    method EnsureBodyReady() returns (err: Option<string>)
      requires resp.Some? && resp.value.body.Some?
      modifies this
      ensures resp == old(resp)
      ensures old(body).Some? ==> unchanged(this) && err == None
      ensures old(body).None? ==> drains == old(drains) + 1
      ensures old(body).None? && resp.value.body.value.failure.Some? ==>
                err == resp.value.body.value.failure && body == Some(resp.value.body.value.data) && closed == old(closed)
      ensures old(body).None? && resp.value.body.value.failure.None? ==>
                err == None && body == Some(Materialize(resp.value, resp.value.body.value.data)) && closed
    {
      if body.None? {
        var stream := resp.value.body.value;
        body := Some(stream.data);
        drains := drains + 1;
        if stream.failure.Some? {
          return stream.failure;
        }
        closed := true;
        if DeclaresLatin1(resp.value) {
          var converted := TranscodeLatin1(body.value);
          body := Some(converted);
        }
      }
      return None;
    }
  }

  /** The validity check: nil page first, then nil response, then nil body. */
  function SanityCheck(p: Page?): (r: Option<PageError>)
    reads p
    ensures r == Some(NilPage) <==> p == null
    ensures r == Some(NilResp) <==> p != null && p.resp.None?
    ensures r == Some(NilRespBody) <==> p != null && p.resp.Some? && p.resp.value.body.None?
    ensures r == None <==> p != null && p.resp.Some? && p.resp.value.body.Some?
  {
    if p == null then Some(NilPage)
    else if p.resp.None? then Some(NilResp)
    else if p.resp.value.body.None? then Some(NilRespBody)
    else None
  }

  /**
   * What a body accessor promises for its outcome `r`: an invalid page
   * yields its sanity error and changes nothing; a cached body is returned
   * as it is, without a read; otherwise the stream is drained once and
   * either its error is returned (the partial bytes stay cached) or the
   * materialized bytes are cached and returned.
   */
  twostate predicate BodyAccess(p: Page?, new r: Result<seq<byte>, PageError>)
    reads p
  {
    && (p != null ==> p.resp == old(p.resp))
    && (SanityCheck(p).Some? ==> r == Err(SanityCheck(p).value) && (p != null ==> unchanged(p)))
    && (SanityCheck(p).None? ==>
          if old(p.body).Some? then r == Ok(old(p.body).value) && unchanged(p)
          else
            var s := p.resp.value.body.value;
            && p.drains == old(p.drains) + 1
            && (s.failure.Some? ==> r == Err(ReadFailed(s.failure.value)) && p.body == Some(s.data))
            && (s.failure.None? ==> r == Ok(Materialize(p.resp.value, s.data)) && p.body == Some(r.value) && p.closed))
  }

  /** The page body bytes, read once and cached. */
  method Bytes(p: Page?) returns (r: Result<seq<byte>, PageError>)
    modifies p
    ensures BodyAccess(p, r)
    ensures r.Ok? ==> p != null && p.body == Some(r.value)
  {
    var bad := SanityCheck(p);
    if bad.Some? {
      return Err(bad.value);
    }
    var err := p.EnsureBodyReady();
    if err.Some? {
      return Err(ReadFailed(err.value));
    }
    return Ok(p.body.value);
  }

  /** A fresh reader over the body: its contents are exactly the cached bytes. */
  method Body(p: Page?) returns (r: Result<seq<byte>, PageError>)
    modifies p
    ensures BodyAccess(p, r)
    ensures r.Ok? ==> p != null && p.body == Some(r.value)
  {
    var b := Bytes(p);
    if b.Err? {
      return Err(b.error);
    }
    return Ok(b.value);
  }

  /** The wrapped response, returned only once its body has been read into memory. */
  method Raw(p: Page?) returns (r: Result<Response, PageError>)
    modifies p
    ensures r.Ok? ==> p != null && p.resp == Some(r.value) && p.body.Some?
    ensures BodyAccess(p, match r case Ok(_) => Ok(p.body.value) case Err(e) => Err(e))
  {
    var b := Body(p);
    if b.Err? {
      return Err(b.error);
    }
    return Ok(p.resp.value);
  }

  /** One Form per `<form>` of the page, after reading the body and parsing it with `parse`. */
  method Forms(p: Page?, parse: seq<byte> -> Result<Document, string>) returns (r: Result<seq<Form>, PageError>, ghost read: Result<seq<byte>, PageError>)
    modifies p
    ensures BodyAccess(p, read)
    ensures read.Ok? ==> p != null && p.body == Some(read.value)
    ensures read.Err? ==> r == Err(read.error)
    ensures read.Ok? && parse(read.value).Err? ==> r == Err(ParseFailed(parse(read.value).error))
    ensures read.Ok? && parse(read.value).Ok? ==>
              var doc := parse(read.value).value;
              r.Ok? && |r.value| == |doc.forms| && forall i :: 0 <= i < |doc.forms| ==> r.value[i] == FormOf(doc.forms[i])
  {
    var b := Body(p);
    read := b;
    if b.Err? {
      return Err(b.error), read;
    }
    var doc := parse(b.value);
    if doc.Err? {
      return Err(ParseFailed(doc.error)), read;
    }
    var forms := ExtractForms(doc.value);
    return Ok(forms), read;
  }

  /** One Table per `<table>` of the page, after reading the body and parsing it with `parse`. */
  method Tables(p: Page?, parse: seq<byte> -> Result<Document, string>) returns (r: Result<seq<Table>, PageError>, ghost read: Result<seq<byte>, PageError>)
    modifies p
    ensures BodyAccess(p, read)
    ensures read.Ok? ==> p != null && p.body == Some(read.value)
    ensures read.Err? ==> r == Err(read.error)
    ensures read.Ok? && parse(read.value).Err? ==> r == Err(ParseFailed(parse(read.value).error))
    ensures read.Ok? && parse(read.value).Ok? ==>
              var doc := parse(read.value).value;
              r.Ok? && |r.value| == |doc.tables| && forall i :: 0 <= i < |doc.tables| ==> r.value[i] == TableOf(doc.tables[i])
  {
    var b := Body(p);
    read := b;
    if b.Err? {
      return Err(b.error), read;
    }
    var doc := parse(b.value);
    if doc.Err? {
      return Err(ParseFailed(doc.error)), read;
    }
    var tables := ExtractTables(doc.value);
    return Ok(tables), read;
  }

  /** Two reads in a row: once the first has succeeded, the second returns the same bytes without draining again. */
  method BytesTwice(p: Page?) returns (first: Result<seq<byte>, PageError>, second: Result<seq<byte>, PageError>)
    modifies p
    ensures first.Ok? ==> second == first
    ensures first.Ok? ==> p != null && p.drains <= old(p.drains) + 1
  {
    first := Bytes(p);
    second := Bytes(p);
  }

  /** Two extractions in a row: once the first has succeeded, the second yields the same forms. */
  method FormsTwice(p: Page?, parse: seq<byte> -> Result<Document, string>) returns (first: Result<seq<Form>, PageError>, second: Result<seq<Form>, PageError>)
    modifies p
    ensures first.Ok? ==> second == first
  {
    ghost var read1, read2;
    first, read1 := Forms(p, parse);
    second, read2 := Forms(p, parse);
    if first.Ok? {
      assert read2 == read1;
      assert second.value == first.value;
    }
  }
}
