# bot: a stateful HTTP client for scripting websites, modelled in Dafny

`bot` wraps Go's HTTP client in a session object. A `Bot` does several things:
- It keeps a base URL, a debug flag, a cookie jar and a navigation history.
- It sends every request through a transport that stamps a User-Agent on it.
- It records every requested URL and every redirect hop in the history.
- It turns each response into a `Page`.
- It can export its cookies, keyed by visited URL, and import them again later.

A `Page` reads its response body once and caches it. When the response declares ISO-8859-1, it re-encodes the body as UTF-8. From the cached bytes it extracts every `<form>`, as a method, id, name, action and a map of field values, and every `<table>`, as its header texts, data rows and raw cell HTML.

The model has these parts:

- `Navigation` (history.dfy): `History` is a class whose append-only log is the field `entries`.
- `Transport` (transport.dfy):
  - the request's header map, created lazily;
  - the User-Agent override;
  - `RoundTrip`, which hands the stamped request to the wrapped transport. That transport is a function parameter.
- `Session` (bot.dfy):
  - the `Bot` class with GET, POST, the redirect callback and the chaining setters;
  - classification of the client's answer. The client is a function that takes the URL (and the form) and the cookie jar, and gives back the answer together with the jar it leaves, with any `Set-Cookie` stored;
  - the error messages. `%d` is written out as decimal digits.
- `Urls` (url.dfy): `url.Parse` as a function over the strings whose parse fits `Url`, with its round trip through `URL.String` proved.
- `Jar` (jar.dfy): `URL.String` and the cookie jar as a value. It is a map from origin (scheme and host) to the cookie list. Setting cookies replaces same-named cookies.
- `CookieStore` (cookies.dfy):
  - `SetCookie`, `EncodeCookies` and `DecodeCookies`;
  - the export and import specifications;
  - the persistence round trip. It holds for any URL parser that is stable on the exported history: each entry's URL, once written back, parses to that same URL. `UrlParseRoundTrip` shows that `url.Parse` meets this on every history of modelled strings.
- `Latin1` (latin1.dfy): the byte-to-rune-to-UTF-8 conversion, which is a loop over a rune array. Its inverse is proved.
- `Text` (text.dfy): `strings.ToLower`, `strings.Contains` and `strings.TrimSpace`, restricted to what the page needs.
- `Dom` (dom.dfy): the parsed document as the extraction walks it.
- `FormExtraction` and `TableExtraction` (forms.dfy, tables.dfy): the extraction loops as methods, each proved against a fold that specifies it, with lemmas about the folds.
- `Pages` (page.dfy):
  - the `Page` class with its cached body;
  - `sanityCheck`;
  - the body accessors, sharing one two-state contract (`BodyAccess`);
  - `Forms`/`Tables` over an abstract parser.
- `SamplePage` (samples.dfy): the sample HTML page of the package's page tests, as a parsed document, and the forms and table extracted from it.

The code and its doc comments disagree in three places. The model follows the code:

- `GET`/`POST` return a nil page with the non-2xx error, although the doc comment promises a non-nil page.
- `EncodeCookies`/`DecodeCookies` use a field `bot.j` that the `Bot` struct does not declare. The model gives `Bot` an explicit `jar` field and treats it as the client's jar.
- A body read that fails caches the partly read bytes and does not close the stream. A later access then returns those bytes with no error. `Page.EnsureBodyReady` and `BodyAccess` state this as written.

## Model

| member | source | states |
|---|---|---|
| Navigation.LastOr | history.go:15-20 | the current entry is "" for an empty log, else the last entry |
| Navigation.History.constructor | history.go:3-6 | a zero history has no entries and current "" |
| Navigation.History.Entries | history.go:8-11 | returns exactly the recorded entries, oldest first |
| Navigation.History.Current | history.go:13-20 | the last recorded URL, or "" when none |
| Navigation.History.Add | history.go:22-26 | appends the entry at the end, keeps every earlier entry as a prefix, and makes it current |
| Transport.Request.GetHeader | transport.go:17-22 | a nil header map is replaced by an empty one; an existing map is returned unchanged |
| Transport.Request.SetUserAgent | transport.go:24-26 | User-Agent holds exactly `[ua]` afterwards; other header fields are kept; a nil map is created first |
| Transport.Transport.UserAgent | transport.go:36-41 | the configured agent, or "Mozilla/5.0 (compatible)" when it is empty; never empty |
| Transport.Transport.RoundTrip | transport.go:43-61 | stamps the User-Agent on the request, then returns the wrapped transport's outcome for the stamped header unchanged |
| Session.DigitsRoundTrip | bot.go:67 | the decimal digits printed for a status code read back as that code |
| Session.Non2xxMessageNamesCode | bot.go:66-68 | the non-2xx error text carries the status code in decimal right after its fixed prefix |
| Session.Classify | bot.go:62-69 | accepted iff the client answered with a code in 200..299; a network error passes through; any other code becomes the non-2xx error with code and status |
| Session.RedirectVerdict | bot.go:115-118 | too many redirects iff more than 10 requests came before the hop |
| Session.Bot.ReuseClient | bot.go:36-54 | a new bot has an empty jar and history, no base URL, debug off and no configured agent |
| Session.New | bot.go:31-34 | a new bot whose transport sends the default User-Agent and whose history is empty |
| Session.Message | bot.go:17-67 | the too-many-redirects error reads exactly "bot: too many redirects"; a network error keeps its own message; the non-2xx text starts with the fixed prefix and ends with the status text, with the code between them |
| Session.Bot.Dispatch | bot.go:61-69 | the URL is recorded first; a nil page with the classified error, or a fresh unread page over the 2xx response |
| Session.Bot.GET | bot.go:56-70 | base + path is recorded before the request, whatever the outcome; the jar becomes the one the client leaves after the exchange; a nil page with the classified error, or a fresh unread page over the 2xx response |
| Session.Bot.POST | bot.go:72-87 | as GET, for the client's answer to the posted form; the jar becomes the one the client leaves |
| Session.Bot.Debug | bot.go:89-93 | sets the flag, returns the same bot, and leaves everything else unchanged |
| Session.Bot.SetUA | bot.go:95-99 | the transport's agent becomes the given one; the same bot is returned |
| Session.Bot.BaseURL | bot.go:101-106 | sets the prefix, returns the same bot, and leaves everything else unchanged |
| Session.Bot.CheckRedirect | bot.go:112-119 | the hop is recorded first, then the chain is refused iff more than 10 requests preceded it |
| Jar.SerializeAbsolute | cookies.go:57-63 | a URL with a scheme is written "scheme://host/path", or just "scheme:" when it has neither host nor path |
| Jar.SerializeRelative | cookies.go:26 | a URL with neither scheme nor host is written as its bare path, such as "/login", with "./" in front when its first segment holds a ':' |
| Jar.Merge | cookies.go:46 | setting cookies keeps the incoming list at the end, keeps every current cookie whose name is not set again, drops the others, and introduces no cookie from elsewhere |
| Jar.MergeSelf | cookies.go:46 | setting a list over nothing, or over itself, leaves exactly that list |
| Jar.SetCookies | cookies.go:46 | only the URL's origin changes, and its list becomes the merge of old and new |
| CookieStore.HostOf | cookies.go:53-56 | one leading dot is stripped from the cookie domain; any other domain is kept as it is |
| CookieStore.OriginFor | cookies.go:57-60 | a set cookie is filed under http and its host, with no path, which is its own origin; it is written "http://host", or "http:" for an empty domain |
| CookieStore.LeadingDotStrippedOnce | cookies.go:53-56 | ".d" files under the same origin as "d" exactly when d does not itself start with a dot |
| CookieStore.SetCookie | cookies.go:52-63 | the jar gains the cookie for that origin, and the origin's URL is appended to the history |
| CookieStore.ExportKeys | cookies.go:20-27 | a key is in the export iff it is the written-back form of some parseable history entry |
| CookieStore.ExportValues | cookies.go:26 | each key comes from a history entry that parses to a URL written as that key, and carries the jar's cookies for that URL |
| Urls.ParseUrl | cookies.go:21 | a parsed string is a modelled one, and the scheme it yields is empty or a valid scheme |
| Urls.ParseUrlRoundTrip | cookies.go:21-26 | a URL read by `url.Parse` and written back by `URL.String` reads back as the same URL |
| Urls.ParseRelativeExamples | cookies.go:21 | "/login" and "login" read as paths with neither scheme nor host |
| Urls.ParseMissingSchemeExample | cookies.go:21 | "://login" fails with a missing scheme |
| Urls.ParseBareSchemeExample | cookies.go:21 | "http:" reads as the scheme alone |
| Urls.ParseAbsoluteExample | cookies.go:21 | the scheme is lower-cased and the host ends at the first '/' |
| Urls.ParseBadPortExample | cookies.go:21 | a port that is not all digits fails |
| CookieStore.ParseUrlStable | cookies.go:20-27 | `url.Parse` is stable on every history |
| CookieStore.UrlParseHistoryStable | cookies.go:20-27 | a parser that reads modelled strings as `url.Parse` does is stable on a history of modelled strings |
| CookieStore.RevisitAddsNoKey | cookies.go:20-27 | revisiting a URL, or recording an unparseable one, adds no key to the export |
| CookieStore.EncodeCookies | cookies.go:15-29 | the loop over the history builds exactly the export map, skipping entries that do not parse |
| CookieStore.Install | cookies.go:46-47 | one imported key: the jar gains its cookies for that URL's origin and the URL's string is appended to the history |
| CookieStore.ImportedEntriesCount | cookies.go:39-49 | an import adds one history entry per key that parses |
| CookieStore.ImportStep | cookies.go:39-49 | each visited key installs its cookies and appends its URL, or changes nothing when it does not parse |
| CookieStore.DecodeCookies | cookies.go:31-50 | a decode failure is returned with nothing changed; otherwise every key is visited once, in some order, the jar becomes the import and the history gains the parsed keys |
| CookieStore.ExportKeyParses | cookies.go:26 | with a parser stable on the history, each export key parses to a URL whose cookies it carries |
| CookieStore.ImportedEntriesAreKeys | cookies.go:47 | importing such keys appends exactly those keys to the history |
| CookieStore.MirrorStep | cookies.go:46 | installing, for one more URL, the stored cookies keeps every imported origin equal to the store |
| CookieStore.KeysStable | cookies.go:41-47 | keys that parse and write back to themselves form a history the parser is stable on |
| CookieStore.ImportRestores | cookies.go:39-49 | importing an export into an empty jar gives every origin exactly the exported jar's cookies |
| CookieStore.ImportCovers | cookies.go:39-49 | an import files something under every parseable key's origin |
| CookieStore.ExportParsesBack | cookies.go:20-27 | with a parser stable on the history, every export key parses back to itself and carries its origin's cookies |
| CookieStore.ReexportKeys | cookies.go:20-27 | re-exporting after visiting exactly an export's keys yields exactly those keys |
| CookieStore.ReexportValue | cookies.go:26 | a re-exported key whose origin holds the restored cookies carries the original store's cookies |
| CookieStore.ReexportEqual | cookies.go:15-29 | a restored jar covering every key re-exports to exactly the original export |
| CookieStore.ExportImportExport | cookies.go:15-50 | exporting, importing into an empty jar and history, and exporting again yields the same map, in any iteration order |
| CookieStore.UrlParseRoundTrip | cookies.go:15-50 | with `url.Parse` as the parser, exporting, importing and exporting again yields the same map for every history of modelled strings |
| CookieStore.ResumeSession | cookies.go:15-50 | a bot's export, imported into a new bot, exports to the same map when the parser is stable on the bot's history |
| Latin1.EncodeRune | page.go:294 | ASCII stays one byte; every other Latin-1 code point becomes two bytes C2/C3 xx that decode back to it |
| Latin1.EncodeRunesSnoc | page.go:294 | encoding one more rune appends exactly its bytes |
| Latin1.TranscodedLength | page.go:290-294 | the converted body is one byte longer per non-ASCII byte |
| Latin1.AsciiUnchanged | page.go:290-294 | an all-ASCII body is left exactly as it was |
| Latin1.TranscodeRoundTrip | page.go:290-294 | decoding the UTF-8 result gives back the original Latin-1 bytes |
| Latin1.TranscodeLatin1 | page.go:290-294 | the rune-array loop computes the UTF-8 conversion, with its length and its inverse |
| Text.LowerChar | page.go:220 | a letter A..Z is lowered by 32; the result is a..z exactly when the input is a letter or one of the two non-ASCII capitals that lower to ASCII |
| Text.ToLower | page.go:288 | lower-casing keeps the length and lowers each character |
| Text.Contains | page.go:289 | a match fits inside the text; the empty needle, and any prefix, is contained |
| Text.TrimLeft | page.go:246 | the result is a suffix; exactly the leading white space is removed |
| Text.TrimRight | page.go:246 | the result is a prefix; exactly the trailing white space is removed |
| Text.TrimSpace | page.go:246 | the result neither starts nor ends with white space, and is the input with only white space removed around it |
| FormExtraction.ApplyInput | page.go:215-234 | text, hidden and untyped inputs append their value; a checked radio or a named submit replaces the list with its value; all other inputs, and every other name, leave the fields as they were |
| FormExtraction.RadioChecked | page.go:225 | a radio is checked iff it has a `checked` attribute whose value is not "unchecked" |
| FormExtraction.IsSelected | page.go:242 | an option is selected iff it has a `selected` attribute whose value is not "notselected" |
| FormExtraction.OptionValue | page.go:243-247 | an option contributes its value attribute when present, else its text with surrounding white space trimmed |
| FormExtraction.ApplySelect | page.go:238-240 | an unnamed select adds nothing |
| FormExtraction.SelectAppendsSelected | page.go:241-249 | a named select appends exactly its selected options' values in order and touches no other name |
| FormExtraction.SelectsOnlyAppend | page.go:237-251 | selects only append, so the input values stay a prefix of every list |
| FormExtraction.InputsPrecedeSelects | page.go:214-251 | in a form's fields, every input value comes before any select value of the same name |
| FormExtraction.TextValuesInOrder | page.go:221-222 | when only text-like inputs carry a name, its list is their values in document order |
| FormExtraction.RadioKeepsOne | page.go:223-227 | when only radios carry a name, at most one value survives |
| FormExtraction.IgnoredInputsKeepFields | page.go:215-234 | inputs of other types, unchecked radios and unnamed submits change nothing |
| FormExtraction.FormOf | page.go:206-212 | the method attribute is taken when present, otherwise GET |
| FormExtraction.ParseInputs | page.go:215-234 | the input loop computes the input fold |
| FormExtraction.ParseOptions | page.go:241-249 | the option loop of a named select computes the option fold |
| FormExtraction.ParseSelects | page.go:237-251 | the nested select and option loops compute the select fold |
| FormExtraction.ParseForm | page.go:206-259 | one form's extraction equals its specification, inputs before selects |
| FormExtraction.ExtractForms | page.go:204-261 | one Form per form element, in document order |
| TableExtraction.Texts | page.go:147 | one text per cell, in order |
| TableExtraction.Htmls | page.go:148-160 | a row never has more raw entries than cells, since a cell whose HTML fails to render is skipped |
| TableExtraction.HtmlsAllRender | page.go:148-160 | when every cell renders, the raw entries are the cells' HTML in order |
| TableExtraction.RawRowAllRender | page.go:144-166 | when every cell renders, a row's raw cells are its th HTML followed by its td HTML |
| TableExtraction.HeaderOfSnoc | page.go:145-147 | one more row appends its th texts to the header |
| TableExtraction.DataOfSnoc | page.go:154-165 | one more row adds a data row iff it has a td |
| TableExtraction.AddRowsShape | page.go:143-167 | header, data and raw cells accumulate row by row; id and class are kept |
| TableExtraction.TableOfShape | page.go:137-170 | the header is all th texts; data has one row per row with a td; there is one raw-cell entry for every row |
| TableExtraction.DataRowCountBound | page.go:163-165 | a table never has more data rows than rows |
| TableExtraction.ParseRow | page.go:143-166 | the th and td loops of one row compute its step |
| TableExtraction.ParseTable | page.go:137-170 | one table's extraction equals its specification |
| TableExtraction.ExtractTables | page.go:136-172 | one Table per table element, in document order |
| Http.HeaderGet | page.go:288 | the first value of the header field, or "" when the field is absent or has no value |
| Pages.MarkerAnyCase | page.go:288-289 | the body is declared Latin-1 iff the Content-Type holds "charset=iso-8859-1" in any letter case |
| Pages.Materialize | page.go:287-295 | without the Latin-1 marker the bytes are kept; with it they are converted, one byte longer per high byte, and convert back |
| Pages.Page.constructor | page.go:73-77 | a page over a response starts with nothing read |
| Pages.Page.EnsureBodyReady | page.go:278-298 | a cached body is never read again; a first read drains the stream once, caches partial bytes on failure, or caches the converted bytes and closes the stream |
| Pages.SanityCheck | page.go:264-276 | nil page, then nil response, then nil body, each iff its condition; no error iff the page is usable |
| Pages.Bytes | page.go:102-111 | an invalid page fails with its sanity error; otherwise the first read's outcome or the cached bytes |
| Pages.Body | page.go:91-100 | a reader over exactly the bytes `Bytes` yields |
| Pages.Raw | page.go:79-89 | the response is returned only after its body has been read into memory |
| Pages.Forms | page.go:190-262 | a body error or a parse error is returned; otherwise one Form per form of the parsed body |
| Pages.Tables | page.go:123-173 | a body error or a parse error is returned; otherwise one Table per table of the parsed body |
| Pages.BytesTwice | page.go:278-280 | after a successful read, a second read returns the same bytes without draining again |
| Pages.FormsTwice | page_test.go:42-59 | after a successful extraction, a second one yields the same forms |
| SamplePage.LogoutFormFields | page_test.go:96-103 | the logout form posts action=logout and today="Option One", the selected option's trimmed text |
| SamplePage.MyFormFields | page_test.go:105-122 | the second form defaults to GET, keeps an empty action for the misspelled attribute, and collects both tags in order |
| SamplePage.SampleTableExtracted | page_test.go:61-89 | the sample table has the two headers, data rows of 2, 1 and 2 cells, and 4 raw-cell entries |

## Left out

- The HTTP client itself is not part of this model: connections, TLS, request bodies, and the redirect loop in `net/http`. `GET`/`POST` take the client's final answer as a function of the URL, or of the URL and form. `CheckRedirect` is the callback the client would call for each hop.
- The count "history length = requests plus redirect hops" is stated per call only: one entry per `GET`/`POST` and one per redirect hop. The redirect loop that interleaves them is not modelled.
- Session.Classify: a network error is modelled as its message alone. The `*url.Error` wrapping that `net/http` adds to it is not modelled.
- HTML parsing and CSS selection in goquery are not modelled. A page is parsed by a function parameter into the `Dom` document: forms with their inputs and selects, tables with their rows and cells, all in document order. A nested table's rows therefore belong to whichever element the parser lists them under. `Text()` and `Html()` results are fields of the element.
- Jar.Merge: incoming cookies that share a name are all kept, whereas the Go jar keeps only the last one per name, domain and path.
- Session.Bot.GET, Session.Bot.POST: how the client stores `Set-Cookie` headers in the jar (RFC 6265 storage) is part of the abstract client, which returns the jar it leaves; the redirect hops inside one exchange are not tied to it.
- Cookie scoping as in RFC 6265 is not modelled, including domain matching, paths, expiry and the Secure and HttpOnly attributes. `Jar` files cookies per origin (scheme and host). Setting replaces cookies by name. Reading returns the origin's list.
- `url.Parse` is a function parameter of the cookie operations. The round-trip lemmas assume it is stable on the history being exported (`HistoryStable`). `UrlParseRoundTrip` derives that for any parser that agrees with `ParseUrl` on modelled strings, when the history holds only modelled strings.
- Urls.ParseUrl: only modelled strings are read as `url.Parse` reads them. These are strings made of letters, digits and ``-_.~$&+,/:;=!'()*``, and not opaque. Any other string reads as None, whereas `url.Parse` accepts most of them: a query ('?'), a fragment ('#'), percent escapes, user info ('@'), IPv6 hosts, characters that `URL.String` escapes, and opaque URLs such as "mailto:x".
- Jar.Serialize: `URL.String` is modelled without escaping, user info, query, fragment, opaque part or the `OmitHost` flag. So "http:/x" read by `url.Parse` is written "http:///x" (Go writes "http:/x"), which reads back as the same URL.
- JSON encoding and decoding are not modelled. `EncodeCookies` returns the map that would be marshalled, and `DecodeCookies` receives the unmarshalling outcome.
- Go's map iteration order is left open: `DecodeCookies` returns the order it used as a ghost value, and every result holds for any order.
- Text.ToLower: only characters whose lower case is ASCII are lowered (A..Z, U+0130, U+212A). Every other character is left as it is. These are all the characters that matter for matching ASCII input types and the ASCII charset marker.
- `ioutil.ReadAll` is modelled as a stream that yields its bytes with an optional error. Chunking is not modelled. `Close` errors are ignored, as the source ignores them.
- Logging, `debugf`, request and response dumps, and the `DEBUG` environment switch (log.go) only print, so they are left out. The debug flag is kept as state.
- `Form.Print` is left out: it only formats text for display.
- `Bot.History()` is not a separate member: the model reads the `history` field directly.
- Concurrency is not modelled. The source documents `History` as not safe for concurrent use.
