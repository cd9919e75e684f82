/**
 * Re-encoding of an ISO-8859-1 (Latin-1) body as UTF-8. Every Latin-1 byte
 * is the code point of the same number (U+0000..U+00FF), and each code point
 * is written as UTF-8 following section 3 of RFC 3629: one byte below 0x80,
 * otherwise the two bytes 110xxxxx 10xxxxxx.
 */
module Latin1 {
  import opened Common

  /** A code point that a Latin-1 byte can stand for. */
  type Latin1Rune = r: int | 0 <= r < 0x100

  /** The UTF-8 octets of one code point below U+0100. */
  function EncodeRune(c: Latin1Rune): (r: seq<byte>)
    ensures c < 0x80 ==> r == [c]
    ensures 0x80 <= c ==> |r| == 2 && 0xC2 <= r[0] <= 0xC3 && 0x80 <= r[1] < 0xC0
    ensures 0x80 <= c ==> (r[0] - 0xC0) * 64 + (r[1] - 0x80) == c
  {
    if c < 0x80 then [c] else [0xC0 + c / 64, 0x80 + c % 64]
  }

  /** The UTF-8 encoding of a run of Latin-1 code points. */
  function EncodeRunes(s: seq<Latin1Rune>): seq<byte>
  {
    if s == [] then [] else EncodeRune(s[0]) + EncodeRunes(s[1..])
  }

  /** How many bytes of `s` lie outside ASCII. */
  function HighCount(s: seq<byte>): nat
  {
    if s == [] then 0 else (if s[0] >= 0x80 then 1 else 0) + HighCount(s[1..])
  }

  /** The body bytes read as Latin-1 and written back as UTF-8. */
  function Latin1ToUtf8(body: seq<byte>): seq<byte>
  {
    EncodeRunes(body)
  }

  /**
   * The inverse: a UTF-8 text made only of code points below U+0100 back to
   * its Latin-1 bytes; None for any other octet sequence.
   */
  function Utf8ToLatin1(u: seq<byte>): Option<seq<byte>>
  {
    if u == [] then Some([])
    else if u[0] < 0x80 then
      match Utf8ToLatin1(u[1..])
      case Some(rest) => Some([u[0]] + rest)
      case None => None
    else if (u[0] == 0xC2 || u[0] == 0xC3) && |u| >= 2 && 0x80 <= u[1] < 0xC0 then
      match Utf8ToLatin1(u[2..])
      case Some(rest) => Some([(u[0] - 0xC0) * 64 + (u[1] - 0x80)] + rest)
      case None => None
    else None
  }

  /** Encoding one code point more appends exactly its own octets. */
  lemma {:induction false} EncodeRunesSnoc(s: seq<Latin1Rune>, c: Latin1Rune)
    ensures EncodeRunes(s + [c]) == EncodeRunes(s) + EncodeRune(c)
  {
    if s == [] {
      assert s + [c] == [c];
    } else {
      assert (s + [c])[1..] == s[1..] + [c];
      EncodeRunesSnoc(s[1..], c);
    }
  }

  /** The output grows by one byte for every byte at or above 0x80. */
  lemma {:induction false} TranscodedLength(body: seq<byte>)
    ensures |Latin1ToUtf8(body)| == |body| + HighCount(body)
  {
    if body != [] {
      TranscodedLength(body[1..]);
    }
  }

  /** An all-ASCII body is left exactly as it was. */
  lemma {:induction false} AsciiUnchanged(body: seq<byte>)
    requires forall i :: 0 <= i < |body| ==> body[i] < 0x80
    ensures Latin1ToUtf8(body) == body
  {
    if body != [] {
      AsciiUnchanged(body[1..]);
      assert body == [body[0]] + body[1..];
    }
  }

  /** Decoding the transcoded body gives back the original Latin-1 bytes. */
  lemma {:induction false} TranscodeRoundTrip(body: seq<byte>)
    ensures Utf8ToLatin1(Latin1ToUtf8(body)) == Some(body)
  {
    if body != [] {
      var head := EncodeRune(body[0]);
      var tail := EncodeRunes(body[1..]);
      assert Latin1ToUtf8(body) == head + tail;
      TranscodeRoundTrip(body[1..]);
      if body[0] < 0x80 {
        assert (head + tail)[1..] == tail;
      } else {
        assert (head + tail)[2..] == tail;
      }
      assert body == [body[0]] + body[1..];
    }
  }

  /**
   * The conversion as the page does it: each byte is copied into a rune
   * array, and the runes are then written out as a UTF-8 string.
   */
  method TranscodeLatin1(body: seq<byte>) returns (out: seq<byte>)
    ensures out == Latin1ToUtf8(body)
    ensures |out| == |body| + HighCount(body)
    ensures Utf8ToLatin1(out) == Some(body)
  {
    var runes := new Latin1Rune[|body|];
    for i := 0 to |body|
      invariant runes[..i] == body[..i]
    {
      runes[i] := body[i];
    }
    assert runes[..] == body by {
      assert runes[..] == runes[..|body|] && body == body[..|body|];
    }
    out := [];
    for i := 0 to runes.Length
      invariant runes[..] == body
      invariant out == EncodeRunes(runes[..i])
    {
      EncodeRunesSnoc(runes[..i], runes[i]);
      assert runes[..i + 1] == runes[..i] + [runes[i]];
      out := out + EncodeRune(runes[i]);
    }
    assert runes[..runes.Length] == body;
    TranscodedLength(body);
    TranscodeRoundTrip(body);
  }
}
