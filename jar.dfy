/**
 * The cookie jar and URLs as the bot uses them. The jar keeps, per origin
 * (scheme and host, no path), the cookies set for it; a URL asks the jar
 * for the cookies of its origin.
 */
module Jar {
  import opened Common

  /** A parsed URL: scheme, host, and everything after the host. */
  datatype Url = Url(scheme: string, host: string, path: string)

  datatype Cookie = Cookie(name: string, value: string, domain: string, path: string)

  /** The jar: cookies by origin. */
  type Store = map<Url, seq<Cookie>>

  /** The first segment of a path (everything before its first '/') holds a ':'. */
  predicate FirstSegmentHasColon(p: string)
  {
    p != [] && p[0] != '/' && (p[0] == ':' || FirstSegmentHasColon(p[1..]))
  }

  /**
   * The URL written back as a string, as `URL.String` writes it: "scheme:"
   * only for a scheme, "//" and the host only when there is a scheme or a
   * host and something follows, a '/' between a host and a relative path,
   * and "./" before a bare path whose first segment would read as a scheme.
   */
  function Serialize(u: Url): (r: string)
  {
    var scheme := if u.scheme == "" then "" else u.scheme + ":";
    var authority := if (u.scheme != "" || u.host != "") && (u.host != "" || u.path != "") then "//" + u.host else "";
    var slash := if u.path != "" && u.path[0] != '/' && u.host != "" then "/" else "";
    var dot := if scheme + authority == "" && FirstSegmentHasColon(u.path) then "./" else "";
    scheme + authority + slash + dot + u.path
  }

  /** The origin a URL belongs to: its scheme and host, without a path. */
  function Origin(u: Url): (o: Url)
    ensures o.scheme == u.scheme && o.host == u.host && o.path == ""
  {
    Url(u.scheme, u.host, "")
  }

  /** An absolute URL is written as scheme, "://", host and path; with neither host nor path it is just "scheme:". */
  lemma SerializeAbsolute(u: Url)
    requires u.scheme != "" && (u.path == "" || u.path[0] == '/')
    ensures u.host != "" || u.path != "" ==> Serialize(u) == u.scheme + "://" + u.host + u.path
    ensures u.host == "" && u.path == "" ==> Serialize(u) == u.scheme + ":"
  {
  }

  /** A URL with neither scheme nor host is written as its bare path, unless that path's first segment holds a ':'. */
  lemma SerializeRelative(u: Url)
    requires u.scheme == "" && u.host == ""
    ensures !FirstSegmentHasColon(u.path) ==> Serialize(u) == u.path
    ensures FirstSegmentHasColon(u.path) ==> Serialize(u) == "./" + u.path
  {
  }

  /** The cookies the jar holds for the origin of `u`. */
  function CookiesFor(s: Store, u: Url): seq<Cookie>
  {
    Lookup(s, Origin(u))
  }

  /** The names a cookie list sets. */
  function Names(cs: seq<Cookie>): set<string>
  {
    set c | c in cs :: c.name
  }

  /** The cookies of `current` that `incoming` does not rename, then `incoming`. */
  function Merge(current: seq<Cookie>, incoming: seq<Cookie>): (r: seq<Cookie>)
    ensures |incoming| <= |r| && r[|r| - |incoming|..] == incoming
    ensures forall c :: c in r ==> c in current || c in incoming
    ensures forall c :: c in current && c.name !in Names(incoming) ==> c in r
    ensures forall c :: c in r && c !in incoming ==> c.name !in Names(incoming)
  {
    if current == [] then incoming
    else
      (if current[0].name in Names(incoming) then [] else [current[0]]) + Merge(current[1..], incoming)
  }

  /** Installing a list over itself, or over nothing, leaves exactly that list. */
  lemma {:induction false} MergeSelf(cs: seq<Cookie>)
    ensures Merge([], cs) == cs
    ensures Merge(cs, cs) == cs
  {
    MergeDropsAll(cs, cs);
  }

  lemma {:induction false} MergeDropsAll(current: seq<Cookie>, incoming: seq<Cookie>)
    requires forall c :: c in current ==> c in incoming
    ensures Merge(current, incoming) == incoming
  {
    if current != [] {
      assert current[0].name in Names(incoming);
      MergeDropsAll(current[1..], incoming);
    }
  }

  /** The jar after `cs` has been set for the origin of `u`; no other origin changes. */
  function SetCookies(s: Store, u: Url, cs: seq<Cookie>): (r: Store)
    ensures r.Keys == s.Keys + {Origin(u)}
    ensures forall o :: o in s && o != Origin(u) ==> r[o] == s[o]
    ensures CookiesFor(r, u) == Merge(CookiesFor(s, u), cs)
  {
    s[Origin(u) := Merge(Lookup(s, Origin(u)), cs)]
  }
}
