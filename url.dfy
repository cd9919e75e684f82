/**
 * Reading a URL string as Go's `url.Parse` reads it, for the strings whose
 * parse fits `Url`: a scheme (lower-cased), an optional "//" authority that
 * is the host, and a path. Query, fragment, percent escapes, user info and
 * opaque URLs (a scheme followed by something other than '/') do not fit and
 * read as None here.
 */
module Urls {
  import opened Common
  import opened Text
  import opened Jar

  predicate IsLetter(c: char) { 'a' <= c <= 'z' || 'A' <= c <= 'Z' }

  predicate IsDigit(c: char) { '0' <= c <= '9' }

  /** A character allowed in a scheme after its first letter. */
  predicate SchemeChar(c: char) { IsLetter(c) || IsDigit(c) || c == '+' || c == '-' || c == '.' }

  /** A scheme: a letter, then letters, digits, '+', '-' or '.'. */
  predicate ValidScheme(sc: string)
  {
    |sc| > 0 && IsLetter(sc[0]) && forall j :: 0 <= j < |sc| ==> SchemeChar(sc[j])
  }

  /**
   * The characters a modelled URL is made of: those `URL.String` writes
   * back unescaped in a host and in a path, leaving out '?', '#', '%' and '@'.
   */
  predicate UrlChar(c: char)
  {
    IsLetter(c) || IsDigit(c)
    || c == '-' || c == '_' || c == '.' || c == '~' || c == '$' || c == '&' || c == '+' || c == ','
    || c == '/' || c == ':' || c == ';' || c == '=' || c == '!' || c == '\'' || c == '(' || c == ')' || c == '*'
  }

  predicate UrlChars(s: string)
  {
    forall i :: 0 <= i < |s| ==> UrlChar(s[i])
  }

  /** Where the scan for a scheme stops: no scheme, a ':' at the very start, or the ':' ending a scheme. */
  datatype SchemeScan = NoScheme | MissingScheme | SchemeEnd(at: nat)

  /**
   * The scheme scan from position `i` on: letters go on; digits, '+', '-'
   * and '.' go on except at the start; a ':' ends the scheme (an error at
   * the start); anything else means there is no scheme.
   */
  function ScanScheme(s: string, i: nat): (r: SchemeScan)
    decreases |s| - i
    ensures r.SchemeEnd? ==> 0 < r.at && i <= r.at < |s| && s[r.at] == ':'
    ensures r.SchemeEnd? ==> forall j :: i <= j < r.at ==> SchemeChar(s[j])
    ensures r.SchemeEnd? && i == 0 ==> IsLetter(s[0])
  {
    if i >= |s| then NoScheme
    else if IsLetter(s[i]) then ScanScheme(s, i + 1)
    else if IsDigit(s[i]) || s[i] == '+' || s[i] == '-' || s[i] == '.' then
      (if i == 0 then NoScheme else ScanScheme(s, i + 1))
    else if s[i] == ':' then (if i == 0 then MissingScheme else SchemeEnd(i))
    else NoScheme
  }

  /** The position of the first '/' in `a`, or its length when there is none. */
  function SlashAt(a: string): (k: nat)
    ensures k <= |a|
    ensures forall j :: 0 <= j < k ==> a[j] != '/'
    ensures k < |a| ==> a[k] == '/'
  {
    if a == [] || a[0] == '/' then 0 else 1 + SlashAt(a[1..])
  }

  /** The port check on a host: whatever follows its last ':' is all digits. */
  predicate PortOk(h: string)
  {
    if h == [] || h[|h| - 1] == ':' then true
    else if IsDigit(h[|h| - 1]) then PortOk(h[..|h| - 1])
    else ':' !in h
  }

  /** What follows the scheme (or the whole string, without one), read into a `Url`. */
  function ParseRest(scheme: string, rest: string): Option<Url>
  {
    if rest == [] || rest[0] != '/' then
      if scheme != "" then (if rest == [] then Some(Url(scheme, "", "")) else None)
      else if FirstSegmentHasColon(rest) then None
      else Some(Url("", "", rest))
    else if |rest| >= 2 && rest[1] == '/' && (scheme != "" || !(|rest| >= 3 && rest[2] == '/')) then
      var a := rest[2..];
      var k := SlashAt(a);
      if PortOk(a[..k]) then Some(Url(scheme, a[..k], a[k..])) else None
    else Some(Url(scheme, "", rest))
  }

  /** A scheme followed by something other than '/': an opaque URL, which `Url` cannot hold. */
  predicate Opaque(s: string)
  {
    var scan := ScanScheme(s, 0);
    scan.SchemeEnd? && scan.at + 1 < |s| && s[scan.at + 1] != '/'
  }

  /** The strings this model reads as `url.Parse` does. */
  predicate Modelled(s: string)
  {
    UrlChars(s) && !Opaque(s)
  }

  /**
   * `url.Parse` on a modelled string: None for a missing scheme, for a
   * colon in the first segment of a relative path, and for a bad port;
   * otherwise the lower-cased scheme, the host and the path.
   */
  function ParseUrl(s: string): (r: Option<Url>)
    ensures r.Some? ==> Modelled(s)
    ensures r.Some? ==> r.value.scheme == "" || ValidScheme(r.value.scheme)
  {
    if !UrlChars(s) then None
    else
      match ScanScheme(s, 0)
      case MissingScheme => None
      case NoScheme => ParseRest("", s)
      case SchemeEnd(i) =>
        assert ValidScheme(s[..i]);
        LowerKeepsScheme(s[..i]);
        ParseRest(ToLower(s[..i]), s[i + 1..])
  }

  /** Lower-casing keeps a scheme a scheme, and lower-casing twice is lower-casing once. */
  lemma LowerKeepsScheme(sc: string)
    requires ValidScheme(sc)
    ensures ValidScheme(ToLower(sc))
    ensures ToLower(ToLower(sc)) == ToLower(sc)
  {
  }

  /** The scan finds the ':' right after a valid scheme. */
  lemma {:induction false} ScanFindsScheme(s: string, n: nat, i: nat)
    requires n < |s| && s[n] == ':' && ValidScheme(s[..n])
    requires i <= n
    decreases n - i
    ensures ScanScheme(s, i) == SchemeEnd(n)
  {
    if i < n {
      assert s[..n][i] == s[i];
      ScanFindsScheme(s, n, i + 1);
    }
  }

  /** Written after a lower-case scheme, a rest that fits is read back by `ParseRest` under that scheme. */
  lemma ParseAfterScheme(sc: string, rest: string)
    requires ValidScheme(sc) && ToLower(sc) == sc
    requires UrlChars(rest)
    ensures ParseUrl(sc + ":" + rest) == ParseRest(sc, rest)
  {
    var s := sc + ":" + rest;
    assert s[..|sc|] == sc;
    ScanFindsScheme(s, |sc|, 0);
    assert s[|sc| + 1..] == rest;
    assert UrlChars(s) by {
      forall j | 0 <= j < |s|
        ensures UrlChar(s[j])
      {
        if j > |sc| {
          assert s[j] == rest[j - |sc| - 1];
        }
      }
    }
  }

  /** "//host/path" without a scheme writes back to exactly itself. */
  lemma AuthorityWritesBack(s: string)
    requires |s| >= 3 && s[0] == '/' && s[1] == '/' && s[2] != '/'
    ensures var a := s[2..]; var k := SlashAt(a); Serialize(Url("", a[..k], a[k..])) == s
  {
    var a := s[2..];
    var k := SlashAt(a);
    var host, path := a[..k], a[k..];
    assert a[0] == s[2];
    assert host != [];
    assert Serialize(Url("", host, path)) == "//" + host + path;
    assert host + path == a;
    assert s == s[..2] + a && s[..2] == "//";
  }

  /** Without a scheme, a parsed string other than "//" writes back to exactly itself. */
  lemma NoSchemeWritesBack(s: string)
    requires ParseRest("", s).Some? && s != "//"
    ensures Serialize(ParseRest("", s).value) == s
  {
    if |s| >= 2 && s[0] == '/' && s[1] == '/' && !(|s| >= 3 && s[2] == '/') {
      AuthorityWritesBack(s);
    } else {
      var u := Url("", "", s);
      assert ParseRest("", s) == Some(u);
      SerializeRelative(u);
    }
  }

  /** The empty string reads as the empty URL. */
  lemma ParseEmpty()
    ensures ParseUrl("") == Some(Url("", "", ""))
  {
    assert ScanScheme("", 0) == NoScheme;
  }

  /** A string with no scheme reads back as itself when its parse writes back to it. */
  lemma RoundTripNoScheme(s: string)
    requires UrlChars(s) && ScanScheme(s, 0) == NoScheme
    requires ParseRest("", s).Some?
    ensures ParseUrl(Serialize(ParseRest("", s).value)) == ParseRest("", s)
  {
    if s == "//" {
      assert s[2..] == "" && SlashAt("") == 0;
      assert ParseRest("", s) == Some(Url("", "", ""));
      assert Serialize(Url("", "", "")) == "";
      ParseEmpty();
    } else {
      NoSchemeWritesBack(s);
      assert ParseUrl(s) == ParseRest("", s);
    }
  }

  /** "scheme:" with nothing after it reads back as the bare scheme. */
  lemma RoundTripSchemeOnly(sc: string)
    requires ValidScheme(sc) && ToLower(sc) == sc
    ensures ParseUrl(Serialize(Url(sc, "", ""))) == Some(Url(sc, "", ""))
  {
    SerializeAbsolute(Url(sc, "", ""));
    ParseAfterScheme(sc, "");
    assert sc + ":" + "" == sc + ":";
    assert ParseRest(sc, "") == Some(Url(sc, "", ""));
  }

  lemma Regroup(sc: string, host: string, path: string)
    ensures sc + "://" + host + path == sc + ":" + ("//" + (host + path))
  {
    assert "://" == ":" + "//";
    calc {
      sc + "://" + host + path;
      sc + (":" + "//") + host + path;
      (sc + ":") + ("//" + (host + path));
    }
  }

  /** "scheme://host/path" writes back as it was read. */
  lemma RoundTripAuthority(sc: string, rest: string)
    requires ValidScheme(sc) && ToLower(sc) == sc
    requires UrlChars(rest) && |rest| >= 2 && rest[0] == '/' && rest[1] == '/'
    requires ParseRest(sc, rest).Some?
    ensures ParseUrl(Serialize(ParseRest(sc, rest).value)) == ParseRest(sc, rest)
  {
    var a := rest[2..];
    var k := SlashAt(a);
    var host, path := a[..k], a[k..];
    var u := Url(sc, host, path);
    assert ParseRest(sc, rest) == Some(u);
    if host == "" && path == "" {
      RoundTripSchemeOnly(sc);
    } else {
      assert path == "" || path[0] == '/';
      SerializeAbsolute(u);
      assert host + path == a;
      assert Serialize(u) == sc + "://" + host + path;
      Regroup(sc, host, path);
      assert "//" + a == rest;
      ParseAfterScheme(sc, rest);
    }
  }

  /** "scheme:/path" (no "//") writes back as "scheme:///path", which reads as the same URL. */
  lemma RoundTripNoAuthority(sc: string, rest: string)
    requires ValidScheme(sc) && ToLower(sc) == sc
    requires UrlChars(rest) && |rest| >= 1 && rest[0] == '/' && !(|rest| >= 2 && rest[1] == '/')
    ensures ParseRest(sc, rest) == Some(Url(sc, "", rest))
    ensures ParseUrl(Serialize(Url(sc, "", rest))) == Some(Url(sc, "", rest))
  {
    var u := Url(sc, "", rest);
    SerializeAbsolute(u);
    var w := "//" + rest;
    assert Serialize(u) == sc + ":" + w;
    assert UrlChars(w) by {
      forall j | 0 <= j < |w|
        ensures UrlChar(w[j])
      {
        if j >= 2 {
          assert w[j] == rest[j - 2];
        }
      }
    }
    ParseAfterScheme(sc, w);
    assert w[2..] == rest;
    assert SlashAt(rest) == 0;
    assert rest[..0] == "" && rest[0..] == rest;
    assert ParseRest(sc, w) == Some(u);
  }

  /** After a scheme, the parse of the rest writes back to something that reads as the same URL. */
  lemma RoundTripScheme(sc: string, rest: string)
    requires ValidScheme(sc) && ToLower(sc) == sc
    requires UrlChars(rest)
    requires ParseRest(sc, rest).Some?
    ensures ParseUrl(Serialize(ParseRest(sc, rest).value)) == ParseRest(sc, rest)
  {
    if rest == [] {
      RoundTripSchemeOnly(sc);
    } else if |rest| >= 2 && rest[1] == '/' {
      RoundTripAuthority(sc, rest);
    } else {
      RoundTripNoAuthority(sc, rest);
    }
  }

  /** The rest after a scheme that ends at `i` is made of URL characters too. */
  lemma RestChars(s: string, i: nat)
    requires UrlChars(s) && i < |s|
    ensures UrlChars(s[i + 1..])
  {
    var rest := s[i + 1..];
    forall j | 0 <= j < |rest|
      ensures UrlChar(rest[j])
    {
      assert rest[j] == s[i + 1 + j];
    }
  }

  /**
   * The round trip `url.Parse`, `URL.String`, `url.Parse` on modelled
   * strings: a URL read from a string, written back, reads as the same URL.
   */
  lemma ParseUrlRoundTrip(s: string)
    requires ParseUrl(s).Some?
    ensures ParseUrl(Serialize(ParseUrl(s).value)) == ParseUrl(s)
  {
    var scan := ScanScheme(s, 0);
    if scan.NoScheme? {
      assert ParseUrl(s) == ParseRest("", s);
      RoundTripNoScheme(s);
    } else {
      var i := scan.at;
      var sc := ToLower(s[..i]);
      var rest := s[i + 1..];
      assert ParseUrl(s) == ParseRest(sc, rest);
      assert ValidScheme(s[..i]);
      LowerKeepsScheme(s[..i]);
      RestChars(s, i);
      RoundTripScheme(sc, rest);
    }
  }

  /** `url.Parse` keeps a path with neither scheme nor host as it is: "/login" and "login". */
  lemma ParseRelativeExamples()
    ensures ParseUrl("/login") == Some(Url("", "", "/login"))
    ensures ParseUrl("login") == Some(Url("", "", "login"))
  {
    assert ScanScheme("/login", 0) == NoScheme;
    assert ScanScheme("login", 0) == NoScheme;
  }

  /** `url.Parse` refuses a string that starts with ':' ("missing protocol scheme"). */
  lemma ParseMissingSchemeExample()
    ensures ParseUrl("://login") == None
  {
    assert ScanScheme("://login", 0) == MissingScheme;
  }

  /** `url.Parse` reads "http:" as a scheme with nothing after it. */
  lemma ParseBareSchemeExample()
    ensures ParseUrl("http:") == Some(Url("http", "", ""))
  {
    assert ToLower("http") == "http";
    ParseAfterScheme("http", "");
    assert "http" + ":" + "" == "http:";
  }

  /** Once the scan has found a scheme, `url.Parse` reads the rest under the lower-cased scheme. */
  lemma ParseAt(s: string, i: nat)
    requires UrlChars(s) && ScanScheme(s, 0) == SchemeEnd(i)
    ensures ParseUrl(s) == ParseRest(ToLower(s[..i]), s[i + 1..])
  {
  }

  /** `url.Parse` lower-cases the scheme and splits host from path at the first '/'. */
  lemma ParseAbsoluteExample()
    ensures ParseUrl("HTTP://h/a") == Some(Url("http", "h", "/a"))
  {
    var s := "HTTP://h/a";
    assert UrlChars(s);
    ScanFindsScheme(s, 4, 0);
    ParseAt(s, 4);
    assert s[..4] == "HTTP" && ToLower("HTTP") == "http";
    assert s[5..] == "//h/a";
    assert "//h/a"[2..] == "h/a";
    assert SlashAt("h/a") == 1;
    assert "h/a"[..1] == "h" && "h/a"[1..] == "/a";
  }

  /** A host whose text after the last ':' has a letter fails the port check. */
  lemma BadPortRest()
    ensures ParseRest("http", "//h:8x") == None
  {
    assert "//h:8x"[2..] == "h:8x";
    assert SlashAt("h:8x") == 4;
    assert "h:8x"[..4] == "h:8x";
    assert !PortOk("h:8x");
  }

  /** `url.Parse` refuses a port that is not all digits. */
  lemma ParseBadPortExample()
    ensures ParseUrl("http://h:8x") == None
  {
    var rest := "//h:8x";
    assert UrlChars(rest);
    assert ToLower("http") == "http";
    ParseAfterScheme("http", rest);
    assert "http" + ":" + rest == "http://h:8x";
    BadPortRest();
  }
}
