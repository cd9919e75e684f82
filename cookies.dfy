/**
 * Cookie persistence for a bot: seeding a single cookie, exporting the jar
 * per visited URL, and importing such an export back, re-seeding the
 * history with every origin imported. JSON encoding is not modelled: the
 * export is the map the encoder would write, and the import receives the
 * decoder's outcome.
 */
module CookieStore {
  import opened Common
  import opened Jar
  import opened Session
  import opened Urls

  /** The host a cookie's Domain names: one leading '.' removed, nothing else touched. */
  function HostOf(domain: string): (h: string)
    ensures |domain| > 0 && domain[0] == '.' ==> h == domain[1..]
    ensures !(|domain| > 0 && domain[0] == '.') ==> h == domain
  {
    if |domain| > 0 && domain[0] == '.' then domain[1..] else domain
  }

  /** The origin a manually set cookie is filed under: http, its host, no path. */
  function OriginFor(c: Cookie): (u: Url)
    ensures u.scheme == "http" && u.host == HostOf(c.domain) && u.path == ""
    ensures Origin(u) == u
    ensures HostOf(c.domain) != "" ==> Serialize(u) == "http://" + HostOf(c.domain)
    ensures HostOf(c.domain) == "" ==> Serialize(u) == "http:"
  {
    Url("http", HostOf(c.domain), "")
  }

  /** Only the first dot goes: ".." + d becomes "." + d, and "." + d files under the same origin as d. */
  lemma LeadingDotStrippedOnce(c: Cookie, d: string)
    requires c.domain == "." + d
    ensures OriginFor(c) == OriginFor(c.(domain := d)) <==> |d| == 0 || d[0] != '.'
  {
  }

  /** Sets one cookie by hand: filed under its origin, and that origin recorded in the history. */
  method SetCookie(bot: Bot, c: Cookie)
    modifies bot, bot.history
    ensures bot.jar == SetCookies(old(bot.jar), OriginFor(c), [c])
    ensures bot.history == old(bot.history)
    ensures bot.history.entries == old(bot.history.entries) + [Serialize(OriginFor(c))]
    ensures bot.base == old(bot.base) && bot.debug == old(bot.debug) && bot.transport == old(bot.transport)
  {
    var host := c.domain;
    if |host| > 0 && host[0] == '.' {
      host := host[1..];
    }
    var u := Url("http", host, "");
    bot.jar := SetCookies(bot.jar, u, [c]);
    bot.history.Add(Serialize(u));
  }

  /** The export of a jar for a history: each parseable entry, written back, maps to its cookies. */
  function ExportOf(history: seq<string>, s: Store, parse: string -> Option<Url>): map<string, seq<Cookie>>
  {
    if history == [] then map[]
    else
      var m := ExportOf(history[..|history| - 1], s, parse);
      match parse(history[|history| - 1])
      case None => m
      case Some(u) => m[Serialize(u) := CookiesFor(s, u)]
  }

  /** The export's keys are exactly the written-back forms of the parseable history entries. */
  lemma {:induction false} ExportKeys(history: seq<string>, s: Store, parse: string -> Option<Url>, k: string)
    ensures k in ExportOf(history, s, parse) <==>
              exists i :: 0 <= i < |history| && parse(history[i]).Some? && Serialize(parse(history[i]).value) == k
  {
    if history != [] {
      var init := history[..|history| - 1];
      ExportKeys(init, s, parse, k);
      if k in ExportOf(init, s, parse) {
        var i :| 0 <= i < |init| && parse(init[i]).Some? && Serialize(parse(init[i]).value) == k;
        assert history[i] == init[i];
      }
      if exists i :: 0 <= i < |history| && parse(history[i]).Some? && Serialize(parse(history[i]).value) == k {
        var i :| 0 <= i < |history| && parse(history[i]).Some? && Serialize(parse(history[i]).value) == k;
        if i < |init| {
          assert init[i] == history[i];
        }
      }
    }
  }

  /** Every exported list is what the jar holds for the origin of a history entry that writes back to its key. */
  lemma {:induction false} ExportValues(history: seq<string>, s: Store, parse: string -> Option<Url>, k: string)
    requires k in ExportOf(history, s, parse)
    ensures exists i :: 0 <= i < |history| && parse(history[i]).Some? && Serialize(parse(history[i]).value) == k
                        && ExportOf(history, s, parse)[k] == CookiesFor(s, parse(history[i]).value)
  {
    var init := history[..|history| - 1];
    var last := |history| - 1;
    match parse(history[last])
    case None =>
      ExportValues(init, s, parse, k);
      var i :| 0 <= i < |init| && parse(init[i]).Some? && Serialize(parse(init[i]).value) == k
               && ExportOf(init, s, parse)[k] == CookiesFor(s, parse(init[i]).value);
      assert history[i] == init[i];
    case Some(u) =>
      if k != Serialize(u) {
        ExportValues(init, s, parse, k);
        var i :| 0 <= i < |init| && parse(init[i]).Some? && Serialize(parse(init[i]).value) == k
                 && ExportOf(init, s, parse)[k] == CookiesFor(s, parse(init[i]).value);
        assert history[i] == init[i];
      } else {
        assert parse(history[last]).Some? && Serialize(parse(history[last]).value) == k;
      }
  }

  /** Visiting a URL again, or an unparseable one, adds no key to the export. */
  lemma RevisitAddsNoKey(history: seq<string>, s: Store, parse: string -> Option<Url>, e: string)
    requires e in history || parse(e).None?
    ensures ExportOf(history + [e], s, parse).Keys == ExportOf(history, s, parse).Keys
  {
    var h := history + [e];
    assert h[..|h| - 1] == history;
    if parse(e).Some? {
      var i :| 0 <= i < |history| && history[i] == e;
      ExportKeys(history, s, parse, Serialize(parse(e).value));
    }
  }

  /**
   * Exports the jar: walks the history in order, skipping entries that do
   * not parse, and files each parsed URL's cookies under its written-back form.
   */
  method EncodeCookies(bot: Bot, parse: string -> Option<Url>) returns (data: map<string, seq<Cookie>>)
    ensures data == ExportOf(bot.history.entries, bot.jar, parse)
  {
    var history := bot.history.Entries();
    data := map[];
    for i := 0 to |history|
      invariant data == ExportOf(history[..i], bot.jar, parse)
    {
      assert history[..i + 1][..i] == history[..i];
      var u := parse(history[i]);
      if u.None? {
        continue;
      }
      data := data[Serialize(u.value) := CookiesFor(bot.jar, u.value)];
    }
    assert history[..|history|] == history;
  }

  /** The history entries an import adds when it visits the keys in `order`. */
  function ImportedEntries(order: seq<string>, parse: string -> Option<Url>): seq<string>
  {
    if order == [] then []
    else
      var last := order[|order| - 1];
      ImportedEntries(order[..|order| - 1], parse)
      + (match parse(last) case Some(u) => [Serialize(u)] case None => [])
  }

  /** Every key in `order` is a key of `data`. */
  predicate KeysOf(order: seq<string>, data: map<string, seq<Cookie>>)
  {
    forall i :: 0 <= i < |order| ==> order[i] in data
  }

  /** The jar after an import has visited the keys of `data` in `order`. */
  function ImportOf(s: Store, data: map<string, seq<Cookie>>, order: seq<string>, parse: string -> Option<Url>): Store
    requires KeysOf(order, data)
  {
    if order == [] then s
    else
      var last := order[|order| - 1];
      var t := ImportOf(s, data, order[..|order| - 1], parse);
      match parse(last)
      case Some(u) => SetCookies(t, u, data[last])
      case None => t
  }

  /** How many of the keys visited parse: the number of entries an import adds. */
  function ParseableCount(order: seq<string>, parse: string -> Option<Url>): nat
  {
    if order == [] then 0
    else ParseableCount(order[..|order| - 1], parse) + (if parse(order[|order| - 1]).Some? then 1 else 0)
  }

  lemma {:induction false} ImportedEntriesCount(order: seq<string>, parse: string -> Option<Url>)
    ensures |ImportedEntries(order, parse)| == ParseableCount(order, parse)
  {
    if order != [] {
      ImportedEntriesCount(order[..|order| - 1], parse);
    }
  }

  /** Visiting one more key extends the import by that key alone. */
  lemma ImportStep(s: Store, data: map<string, seq<Cookie>>, order: seq<string>, k: string, parse: string -> Option<Url>)
    requires KeysOf(order, data)
    requires k in data
    ensures KeysOf(order + [k], data)
    ensures parse(k).None? ==> ImportOf(s, data, order + [k], parse) == ImportOf(s, data, order, parse)
                               && ImportedEntries(order + [k], parse) == ImportedEntries(order, parse)
    ensures parse(k).Some? ==>
              ImportOf(s, data, order + [k], parse) == SetCookies(ImportOf(s, data, order, parse), parse(k).value, data[k])
              && ImportedEntries(order + [k], parse) == ImportedEntries(order, parse) + [Serialize(parse(k).value)]
  {
    assert (order + [k])[..|order|] == order;
  }

  /** `order` lists every key of `data` exactly once: one possible iteration order of the map. */
  ghost predicate Enumerates(order: seq<string>, data: map<string, seq<Cookie>>)
  {
    Visiting(order, {}, data)
  }

  /**
   * Mid-iteration: `order` lists distinct keys of `data` visited so far, and
   * `remaining` holds exactly the keys not yet visited.
   */
  ghost predicate Visiting(order: seq<string>, remaining: set<string>, data: map<string, seq<Cookie>>)
  {
    && KeysOf(order, data)
    && remaining <= data.Keys
    && (forall i :: 0 <= i < |order| ==> order[i] !in remaining)
    && (forall k :: k in data ==> k in remaining || k in order)
    && (forall i, j :: 0 <= i < j < |order| ==> order[i] != order[j])
  }

  /** Moving one remaining key to the end of the visit keeps the bookkeeping right. */
  lemma VisitNext(order: seq<string>, remaining: set<string>, data: map<string, seq<Cookie>>, k: string)
    requires Visiting(order, remaining, data) && k in remaining
    ensures Visiting(order + [k], remaining - {k}, data)
  {
  }

  lemma AppendRegroup(a: seq<string>, b: seq<string>, x: string)
    ensures a + (b + [x]) == (a + b) + [x]
  {
  }

  /** One step of an import: the cookies installed for `u`, and `u` appended to the history. */
  method Install(bot: Bot, u: Url, cookies: seq<Cookie>)
    modifies bot, bot.history
    ensures bot.jar == SetCookies(old(bot.jar), u, cookies)
    ensures bot.history == old(bot.history)
    ensures bot.history.entries == old(bot.history.entries) + [Serialize(u)]
    ensures bot.base == old(bot.base) && bot.debug == old(bot.debug) && bot.transport == old(bot.transport)
  {
    bot.jar := SetCookies(bot.jar, u, cookies);
    bot.history.Add(Serialize(u));
  }

  /**
   * Imports an export. A decoding failure is returned before anything is
   * touched. Otherwise the keys are visited in the map's (unspecified)
   * iteration order `order`; a key that does not parse is skipped, and each
   * other key has its cookies installed and its written-back URL appended to
   * the history.
   */
  method DecodeCookies(bot: Bot, decoded: Result<map<string, seq<Cookie>>, string>, parse: string -> Option<Url>)
    returns (err: Option<string>, ghost order: seq<string>)
    modifies bot, bot.history
    ensures bot.history == old(bot.history)
    ensures bot.base == old(bot.base) && bot.debug == old(bot.debug) && bot.transport == old(bot.transport)
    ensures decoded.Err? ==> err == Some(decoded.error) && bot.jar == old(bot.jar)
                             && bot.history.entries == old(bot.history.entries)
    ensures decoded.Ok? ==>
              && err == None
              && Enumerates(order, decoded.value)
              && bot.jar == ImportOf(old(bot.jar), decoded.value, order, parse)
              && bot.history.entries == old(bot.history.entries) + ImportedEntries(order, parse)
              && |bot.history.entries| == |old(bot.history.entries)| + ParseableCount(order, parse)
  {
    order := [];
    if decoded.Err? {
      return Some(decoded.error), order;
    }
    var data := decoded.value;
    ghost var jar0, entries0 := bot.jar, bot.history.entries;
    var remaining := data.Keys;
    while remaining != {}
      invariant Visiting(order, remaining, data)
      invariant bot.history == old(bot.history)
      invariant bot.base == old(bot.base) && bot.debug == old(bot.debug) && bot.transport == old(bot.transport)
      invariant bot.jar == ImportOf(jar0, data, order, parse)
      invariant bot.history.entries == entries0 + ImportedEntries(order, parse)
      decreases remaining
    {
      var k :| k in remaining;
      VisitNext(order, remaining, data, k);
      ImportStep(jar0, data, order, k, parse);
      ghost var added := ImportedEntries(order, parse);
      remaining := remaining - {k};
      order := order + [k];
      var u := parse(k);
      if u.None? {
        continue;
      }
      Install(bot, u.value, data[k]);
      AppendRegroup(entries0, added, Serialize(u.value));
    }
    ImportedEntriesCount(order, parse);
    return None, order;
  }

  /**
   * The parser is stable on the entries of `history`: an entry's URL,
   * written back, parses to that same URL.
   */
  ghost predicate HistoryStable(history: seq<string>, parse: string -> Option<Url>)
  {
    forall i :: 0 <= i < |history| && parse(history[i]).Some? ==>
      parse(Serialize(parse(history[i]).value)) == parse(history[i])
  }

  /** `parse` reads every modelled string as `url.Parse` does. */
  ghost predicate ReadsLikeUrlParse(parse: string -> Option<Url>)
  {
    forall s :: Modelled(s) ==> parse(s) == ParseUrl(s)
  }

  /** `url.Parse` is stable on every history. */
  lemma ParseUrlStable(history: seq<string>)
    ensures HistoryStable(history, ParseUrl)
  {
    forall i | 0 <= i < |history| && ParseUrl(history[i]).Some?
      ensures ParseUrl(Serialize(ParseUrl(history[i]).value)) == ParseUrl(history[i])
    {
      ParseUrlRoundTrip(history[i]);
    }
  }

  /** A parser that reads modelled strings as `url.Parse` does is stable on a history of modelled strings. */
  lemma UrlParseHistoryStable(history: seq<string>, parse: string -> Option<Url>)
    requires ReadsLikeUrlParse(parse)
    requires forall i :: 0 <= i < |history| ==> Modelled(history[i])
    ensures HistoryStable(history, parse)
  {
    forall i | 0 <= i < |history| && parse(history[i]).Some?
      ensures parse(Serialize(parse(history[i]).value)) == parse(history[i])
    {
      var h := history[i];
      assert parse(h) == ParseUrl(h);
      ParseUrlRoundTrip(h);
      var w := Serialize(ParseUrl(h).value);
      assert ParseUrl(w).Some?;
      assert parse(w) == ParseUrl(w);
    }
  }

  /** With a parser stable on the history, each export key parses back to itself and carries its origin's cookies. */
  lemma ExportKeyParses(history: seq<string>, s: Store, parse: string -> Option<Url>, k: string)
    requires HistoryStable(history, parse)
    requires k in ExportOf(history, s, parse)
    ensures parse(k).Some? && Serialize(parse(k).value) == k
    ensures ExportOf(history, s, parse)[k] == CookiesFor(s, parse(k).value)
  {
    ExportValues(history, s, parse, k);
    var i :| 0 <= i < |history| && parse(history[i]).Some? && Serialize(parse(history[i]).value) == k
             && ExportOf(history, s, parse)[k] == CookiesFor(s, parse(history[i]).value);
    assert parse(Serialize(parse(history[i]).value)) == parse(history[i]);
  }

  /** Importing keys that all parse and write back to themselves appends exactly those keys. */
  lemma {:induction false} ImportedEntriesAreKeys(order: seq<string>, parse: string -> Option<Url>)
    requires forall i :: 0 <= i < |order| ==> parse(order[i]).Some? && Serialize(parse(order[i]).value) == order[i]
    ensures ImportedEntries(order, parse) == order
  {
    if order != [] {
      ImportedEntriesAreKeys(order[..|order| - 1], parse);
      assert order[..|order| - 1] + [order[|order| - 1]] == order;
    }
  }

  /** Every origin `t` holds carries exactly the cookies `s` holds for it. */
  ghost predicate Mirrors(t: Store, s: Store)
  {
    forall o :: o in t ==> t[o] == Lookup(s, o)
  }

  /** Installing, for one more URL, the cookies `s` holds for it keeps a mirror of `s`. */
  lemma MirrorStep(t: Store, s: Store, u: Url)
    requires Mirrors(t, s)
    ensures Mirrors(SetCookies(t, u, CookiesFor(s, u)), s)
  {
    var o := Origin(u);
    var cs := Lookup(s, o);
    var r := SetCookies(t, u, cs);
    MergeSelf(cs);
    assert r[o] == Merge(Lookup(t, o), cs);
    forall p | p in r
      ensures r[p] == Lookup(s, p)
    {
      if p != o {
        assert p in t;
      }
    }
  }

  /**
   * Importing an export of `s` into an empty jar recreates, for every origin
   * it touches, exactly the cookies `s` held for that origin.
   */
  lemma {:induction false} ImportRestores(s: Store, data: map<string, seq<Cookie>>, order: seq<string>, parse: string -> Option<Url>)
    requires KeysOf(order, data)
    requires forall k :: k in data ==> parse(k).Some? && data[k] == CookiesFor(s, parse(k).value)
    ensures Mirrors(ImportOf(map[], data, order, parse), s)
  {
    if order != [] {
      var init := order[..|order| - 1];
      var last := order[|order| - 1];
      assert KeysOf(init, data);
      ImportRestores(s, data, init, parse);
      var t := ImportOf(map[], data, init, parse);
      assert last in data;
      var u := parse(last).value;
      assert data[last] == CookiesFor(s, u);
      assert ImportOf(map[], data, order, parse) == SetCookies(t, u, data[last]);
      MirrorStep(t, s, u);
    }
  }

  /** An import files something under the origin of every parseable key it visits. */
  lemma {:induction false} ImportCovers(s: Store, data: map<string, seq<Cookie>>, order: seq<string>, parse: string -> Option<Url>)
    requires KeysOf(order, data)
    ensures forall i :: 0 <= i < |order| && parse(order[i]).Some? ==> Origin(parse(order[i]).value) in ImportOf(s, data, order, parse)
  {
    if order != [] {
      var init := order[..|order| - 1];
      assert KeysOf(init, data);
      ImportCovers(s, data, init, parse);
      var t := ImportOf(s, data, init, parse);
      assert t.Keys <= ImportOf(s, data, order, parse).Keys;
      forall i | 0 <= i < |init| && parse(order[i]).Some?
        ensures Origin(parse(order[i]).value) in ImportOf(s, data, order, parse)
      {
        assert order[i] == init[i];
      }
    }
  }

  /** Re-exporting after visiting exactly the keys of `data`, each of which parses back to itself, gives the same keys. */
  lemma ReexportKeys(order: seq<string>, j: Store, data: map<string, seq<Cookie>>, parse: string -> Option<Url>)
    requires KeysOf(order, data)
    requires forall k :: k in data ==> exists i :: 0 <= i < |order| && order[i] == k
    requires forall k :: k in data ==> parse(k).Some? && Serialize(parse(k).value) == k
    ensures ExportOf(order, j, parse).Keys == data.Keys
  {
    forall k
      ensures k in ExportOf(order, j, parse) <==> k in data
    {
      ExportKeys(order, j, parse, k);
      if k in data {
        var i :| 0 <= i < |order| && order[i] == k;
      }
    }
  }

  /** A re-exported key whose origin the mirror holds carries the mirrored store's cookies. */
  lemma ReexportValue(order: seq<string>, j: Store, s: Store, parse: string -> Option<Url>, k: string)
    requires HistoryStable(order, parse)
    requires Mirrors(j, s)
    requires k in ExportOf(order, j, parse)
    requires parse(k).Some? && Origin(parse(k).value) in j
    ensures ExportOf(order, j, parse)[k] == CookiesFor(s, parse(k).value)
  {
    ExportKeyParses(order, j, parse, k);
  }

  /** The facts a full visit of `data` in `order` provides. */
  lemma EnumerationCovers(order: seq<string>, data: map<string, seq<Cookie>>)
    requires Enumerates(order, data)
    ensures KeysOf(order, data)
    ensures forall k :: k in data ==> exists i :: 0 <= i < |order| && order[i] == k
  {
  }

  /** With a parser stable on the history, every export key parses back to itself and carries its origin's cookies. */
  lemma ExportParsesBack(history: seq<string>, s: Store, parse: string -> Option<Url>)
    requires HistoryStable(history, parse)
    ensures forall k :: k in ExportOf(history, s, parse) ==>
              parse(k).Some? && Serialize(parse(k).value) == k && ExportOf(history, s, parse)[k] == CookiesFor(s, parse(k).value)
  {
    forall k | k in ExportOf(history, s, parse)
      ensures parse(k).Some? && Serialize(parse(k).value) == k && ExportOf(history, s, parse)[k] == CookiesFor(s, parse(k).value)
    {
      ExportKeyParses(history, s, parse, k);
    }
  }

  /** A mirror of `s` covering every key's origin re-exports, with the same keys, to exactly `data`. */
  lemma ReexportEqual(order: seq<string>, j: Store, s: Store, data: map<string, seq<Cookie>>, parse: string -> Option<Url>)
    requires HistoryStable(order, parse)
    requires Mirrors(j, s)
    requires forall i :: 0 <= i < |order| && parse(order[i]).Some? ==> Origin(parse(order[i]).value) in j
    requires ExportOf(order, j, parse).Keys == data.Keys
    requires forall k :: k in data ==> parse(k).Some? && data[k] == CookiesFor(s, parse(k).value)
    requires forall k :: k in data ==> exists i :: 0 <= i < |order| && order[i] == k
    ensures ExportOf(order, j, parse) == data
  {
    var again := ExportOf(order, j, parse);
    forall k | k in again
      ensures again[k] == data[k]
    {
      var i :| 0 <= i < |order| && order[i] == k;
      ReexportValue(order, j, s, parse, k);
    }
  }

  /** Keys that parse and write back to themselves are a history the parser is stable on. */
  lemma KeysStable(order: seq<string>, data: map<string, seq<Cookie>>, parse: string -> Option<Url>)
    requires KeysOf(order, data)
    requires forall k :: k in data ==> parse(k).Some? && Serialize(parse(k).value) == k
    ensures HistoryStable(order, parse)
  {
    forall i | 0 <= i < |order| && parse(order[i]).Some?
      ensures parse(Serialize(parse(order[i]).value)) == parse(order[i])
    {
      assert order[i] in data;
    }
  }

  /**
   * Persistence round trip: exporting a jar, importing the export into an
   * empty jar and history (keys visited in any order), and exporting again
   * gives back the same origins with the same cookies.
   */
  lemma ExportImportExport(history: seq<string>, s: Store, parse: string -> Option<Url>, order: seq<string>)
    requires HistoryStable(history, parse)
    requires Enumerates(order, ExportOf(history, s, parse))
    ensures var data := ExportOf(history, s, parse);
            ExportOf(ImportedEntries(order, parse), ImportOf(map[], data, order, parse), parse) == data
  {
    var data := ExportOf(history, s, parse);
    EnumerationCovers(order, data);
    ExportParsesBack(history, s, parse);
    ImportedEntriesAreKeys(order, parse);
    KeysStable(order, data, parse);
    ImportRestores(s, data, order, parse);
    ImportCovers(map[], data, order, parse);
    var j := ImportOf(map[], data, order, parse);
    ReexportKeys(order, j, data, parse);
    ReexportEqual(order, j, s, data, parse);
  }

  /**
   * The round trip with `url.Parse` as the parser: it holds for every
   * history whose entries are modelled strings (absolute or relative URLs
   * with no query, fragment, escape or user info).
   */
  lemma UrlParseRoundTrip(history: seq<string>, s: Store, parse: string -> Option<Url>, order: seq<string>)
    requires ReadsLikeUrlParse(parse)
    requires forall i :: 0 <= i < |history| ==> Modelled(history[i])
    requires Enumerates(order, ExportOf(history, s, parse))
    ensures var data := ExportOf(history, s, parse);
            ExportOf(ImportedEntries(order, parse), ImportOf(map[], data, order, parse), parse) == data
  {
    UrlParseHistoryStable(history, parse);
    ExportImportExport(history, s, parse, order);
  }

  /**
   * Resuming a session elsewhere: the export of a bot, imported into a new
   * bot, exports to the same cookies per URL.
   */
  method ResumeSession(bot: Bot, parse: string -> Option<Url>) returns (saved: map<string, seq<Cookie>>, restored: map<string, seq<Cookie>>)
    requires HistoryStable(bot.history.entries, parse)
    ensures saved == ExportOf(bot.history.entries, bot.jar, parse)
    ensures restored == saved
  {
    saved := EncodeCookies(bot, parse);
    var resumed := New();
    var err, order := DecodeCookies(resumed, Ok(saved), parse);
    assert resumed.jar == ImportOf(map[], saved, order, parse);
    assert [] + ImportedEntries(order, parse) == ImportedEntries(order, parse);
    restored := EncodeCookies(resumed, parse);
    ExportImportExport(bot.history.entries, bot.jar, parse, order);
  }
}
