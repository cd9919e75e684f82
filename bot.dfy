/**
 * The bot: a session holding a base URL, a debug flag, a transport with
 * its User-Agent, a cookie jar and the navigation history. GET and POST
 * record their target before the request and classify the outcome; the
 * redirect callback records every hop and stops long chains.
 */
module Session {
  import opened Common
  import opened Http
  import opened Navigation
  import opened Transport
  import opened Pages
  import Jar

  /** More redirects than this abort the chain. */
  const MaxRedirects := 10

  datatype BotError =
    | Network(msg: string)
    | Non2xx(code: int, status: string)
    | TooManyRedirects

  /** What the HTTP client gives back for a request, redirects already followed. */
  datatype NetResult = NetError(msg: string) | Received(resp: Response)

  /**
   * One exchange of the HTTP client: the cookie jar as the client leaves it
   * (with the cookies of every response stored, redirect hops included) and
   * the client's result.
   */
  datatype Exchange = Exchange(jar: Jar.Store, result: NetResult)

  /** The decimal digits of `n`, most significant first. */
  function Digits(n: nat): (r: string)
    ensures |r| > 0 && forall i :: 0 <= i < |r| ==> '0' <= r[i] <= '9'
  {
    if n < 10 then [(n + '0' as int) as char] else Digits(n / 10) + [(n % 10 + '0' as int) as char]
  }

  /** The number a string of decimal digits stands for. */
  function DigitsValue(s: string): int
  {
    if s == [] then 0 else DigitsValue(s[..|s| - 1]) * 10 + (s[|s| - 1] as int - '0' as int)
  }

  /** `n` written in decimal, with a leading '-' when negative, as `%d` prints it. */
  function Decimal(n: int): string
  {
    if n < 0 then "-" + Digits(-n) else Digits(n)
  }

  /** Reading the printed digits back gives the number printed. */
  lemma {:induction false} DigitsRoundTrip(n: nat)
    ensures DigitsValue(Digits(n)) == n
  {
    if n >= 10 {
      DigitsRoundTrip(n / 10);
      var d := Digits(n / 10) + [(n % 10 + '0' as int) as char];
      assert d[..|d| - 1] == Digits(n / 10);
    }
  }

  /** The error text each failure reads as; a network error passes through as it came. */
  function Message(e: BotError): (m: string)
    ensures e.Network? ==> m == e.msg
    ensures e.TooManyRedirects? ==> m == "bot: too many redirects"
    ensures e.Non2xx? ==> var prefix := "bot: non 2xx response code: ";
                          |prefix| + |e.status| < |m| && m[..|prefix|] == prefix && m[|m| - |e.status|..] == e.status
  {
    match e
    case Network(msg) => msg
    case Non2xx(code, status) => "bot: non 2xx response code: " + Decimal(code) + ": " + status
    case TooManyRedirects => "bot: too many redirects"
  }

  /** A non-2xx error names its status code, in decimal, right after the fixed prefix. */
  lemma Non2xxMessageNamesCode(code: nat, status: string)
    ensures var m := Message(Non2xx(code, status));
            var prefix := "bot: non 2xx response code: ";
            var digits := Digits(code);
            |prefix| + |digits| <= |m| && m[|prefix|..|prefix| + |digits|] == digits
            && DigitsValue(m[|prefix|..|prefix| + |digits|]) == code
  {
    DigitsRoundTrip(code);
  }

  /** A status code in 200..299. */
  predicate IsSuccess(code: int)
  {
    200 <= code <= 299
  }

  /**
   * How GET and POST turn the client's result into their answer: a network
   * error stays that error; a response outside 2xx becomes a status error;
   * a 2xx response is accepted.
   */
  function Classify(net: NetResult): (r: Result<Response, BotError>)
    ensures r.Ok? <==> net.Received? && IsSuccess(net.resp.statusCode)
    ensures r.Ok? ==> r.value == net.resp
    ensures net.NetError? ==> r == Err(Network(net.msg))
    ensures net.Received? && !IsSuccess(net.resp.statusCode) ==>
              r == Err(Non2xx(net.resp.statusCode, net.resp.status))
  {
    match net
    case NetError(msg) => Err(Network(msg))
    case Received(resp) =>
      if !IsSuccess(resp.statusCode) then Err(Non2xx(resp.statusCode, resp.status))
      else Ok(resp)
  }

  /** The redirect verdict for a hop reached through `viaLen` earlier requests. */
  function RedirectVerdict(viaLen: nat): (r: Option<BotError>)
    ensures r == Some(TooManyRedirects) <==> viaLen > MaxRedirects
    ensures r.None? <==> viaLen <= MaxRedirects
  {
    if viaLen > MaxRedirects then Some(TooManyRedirects) else None
  }

  class Bot {
    /** The base URL prefixed to every GET and POST path. */
    var base: string
    var debug: bool
    var transport: Transport
    var history: History
    /** The cookie jar the client uses. */
    var jar: Jar.Store

    /** A bot with an empty cookie jar, an empty history, no base URL and the default User-Agent. */
    constructor ReuseClient()
      ensures base == "" && !debug && jar == map[]
      ensures fresh(history) && history.entries == []
      ensures fresh(transport) && transport.ua == ""
    {
      base := "";
      debug := false;
      jar := map[];
      history := new History();
      transport := new Transport();
    }

    /** Records `url`, then wraps the client's answer for it as a page or an error. */
    method Dispatch(url: string, net: NetResult) returns (page: Page?, err: Option<BotError>)
      modifies history
      ensures history.entries == old(history.entries) + [url]
      ensures Classify(net).Err? ==> page == null && err == Some(Classify(net).error)
      ensures Classify(net).Ok? ==>
                err == None && page != null && fresh(page)
                && page.resp == Some(net.resp) && page.body == None && page.drains == 0
    {
      history.Add(url);
      var verdict := Classify(net);
      if verdict.Err? {
        return null, Some(verdict.error);
      }
      page := new Page(Some(verdict.value));
      return page, None;
    }

    /**
     * GET of base + path through `client`: the full URL is recorded in the
     * history before the request, even when the request then fails, and the
     * jar becomes the one the client leaves behind.
     */
    method GET(path: string, client: (string, Jar.Store) -> Exchange) returns (page: Page?, err: Option<BotError>)
      modifies this, history
      ensures base == old(base) && debug == old(debug) && transport == old(transport) && history == old(history)
      ensures var ex := client(old(base) + path, old(jar));
              && jar == ex.jar
              && history.entries == old(history.entries) + [old(base) + path]
              && (Classify(ex.result).Err? ==> page == null && err == Some(Classify(ex.result).error))
              && (Classify(ex.result).Ok? ==>
                    err == None && page != null && fresh(page) && page.body == None
                    && page.resp == Some(ex.result.resp))
    {
      var ex := client(base + path, jar);
      jar := ex.jar;
      page, err := Dispatch(base + path, ex.result);
    }

    /** POST of `form` to base + path through `client`; recorded, stored and classified like GET. */
    method POST(path: string, form: map<string, seq<string>>, client: (string, map<string, seq<string>>, Jar.Store) -> Exchange)
      returns (page: Page?, err: Option<BotError>)
      modifies this, history
      ensures base == old(base) && debug == old(debug) && transport == old(transport) && history == old(history)
      ensures var ex := client(old(base) + path, form, old(jar));
              && jar == ex.jar
              && history.entries == old(history.entries) + [old(base) + path]
              && (Classify(ex.result).Err? ==> page == null && err == Some(Classify(ex.result).error))
              && (Classify(ex.result).Ok? ==>
                    err == None && page != null && fresh(page) && page.body == None
                    && page.resp == Some(ex.result.resp))
    {
      var ex := client(base + path, form, jar);
      jar := ex.jar;
      page, err := Dispatch(base + path, ex.result);
    }

    /** Turns debugging on or off; nothing else changes. */
    method Debug(enabled: bool) returns (self: Bot)
      modifies this
      ensures self == this && debug == enabled
      ensures base == old(base) && transport == old(transport) && history == old(history) && jar == old(jar)
    {
      debug := enabled;
      return this;
    }

    /** Configures the User-Agent the transport sends; nothing else changes. */
    method SetUA(userAgent: string) returns (self: Bot)
      modifies transport
      ensures self == this && transport.ua == userAgent
    {
      transport.ua := userAgent;
      return this;
    }

    /** Sets the prefix of every GET and POST path; nothing else changes. */
    method BaseURL(baseURL: string) returns (self: Bot)
      modifies this
      ensures self == this && base == baseURL
      ensures debug == old(debug) && transport == old(transport) && history == old(history) && jar == old(jar)
    {
      base := baseURL;
      return this;
    }

    /**
     * The client's redirect callback: records the hop's target, then aborts
     * the chain when more than ten requests came before it.
     */
    method CheckRedirect(target: string, viaLen: nat) returns (err: Option<BotError>)
      modifies history
      ensures history.entries == old(history.entries) + [target]
      ensures err == RedirectVerdict(viaLen)
    {
      history.Add(target);
      err := RedirectVerdict(viaLen);
    }
  }

  /** A new bot with in-memory cookie handling. */
  method New() returns (bot: Bot)
    ensures fresh(bot) && fresh(bot.history) && fresh(bot.transport)
    ensures bot.base == "" && !bot.debug && bot.jar == map[] && bot.history.entries == []
    ensures bot.history.Current() == "" && bot.transport.UserAgent() == DefaultUserAgent
  {
    bot := new Bot.ReuseClient();
  }
}
