/**
 * The Ordnance Survey maps proxy: the director that retargets an inbound request at the
 * upstream API and injects its key, and the response modifiers that rewrite the body and
 * set the cache policy on the way back.
 */
module OsProxy {

  import opened Wrappers
  import opened HttpHeader
  import Decimal
  import Replace

  /** The upstream credential header, `key`, in the canonical form Go stores it under. */
  const OsApiKeyHeader := "Key"
  const UserAgent := "User-Agent"
  const AcceptEncoding := "Accept-Encoding"
  const CacheControl := "Cache-Control"

  /** The parts of a URL the proxy reads or writes; `path` stands for everything else. */
  datatype Url = Url(scheme: string, host: string, path: string, rawQuery: string)

  /** The configuration values the proxy uses: the upstream key and the cache lifetime in whole seconds. */
  datatype Config = Config(ordnanceSurveyApiKey: string, cacheMaxAgeSeconds: nat)

  /** An error value; errors are passed along, never inspected. */
  datatype Error = Error(message: string)

  // ---------------------------------------------------------------- requests

  /** The outbound request the director rewrites in place. */
  class Request {
    var url: Url
    var host: string
    var header: Header

    constructor (url: Url, host: string, header: Header)
      ensures this.url == url && this.host == host && this.header == header
    {
      this.url := url;
      this.host := host;
      this.header := header;
    }
  }

  /**
   * The query the upstream receives: the target's fixed query first, then the inbound one,
   * separated by a single `&` only when both are non-empty.
   */
  function MergeQuery(targetQuery: string, inbound: string): (q: string)
    ensures |q| == |targetQuery| + |inbound| + (if targetQuery != "" && inbound != "" then 1 else 0)
    ensures q[..|targetQuery|] == targetQuery
    ensures q[|q| - |inbound|..] == inbound
    ensures |q| > |targetQuery| + |inbound| ==> q[|targetQuery|] == '&'
  {
    if targetQuery == "" || inbound == "" then targetQuery + inbound
    else targetQuery + "&" + inbound
  }

  /** Every key other than the three the director manages, compared between two header maps. */
  ghost predicate OthersUnchanged(before: Header, after: Header) {
    forall k :: k != UserAgent && k != OsApiKeyHeader && k != AcceptEncoding ==>
      (k in after <==> k in before) && (k in after ==> after[k] == before[k])
  }

  // ------------------------------------------------------------- responses

  /** A response body: bytes that read back in full, or a stream whose read fails. */
  datatype Body = Readable(data: seq<Replace.byte>) | Unreadable(err: Error)

  /** What a response modifier can see and change; `header == None` is Go's nil header map. */
  datatype ResponseState = ResponseState(header: Option<Header>, body: Body)

  /** The response after a modifier ran, and the error it returned (`None` is Go's nil). */
  datatype Outcome = Outcome(response: ResponseState, err: Option<Error>)

  /** The upstream response, changed in place by the modifiers. */
  class Response {
    var header: Option<Header>
    var body: Body

    constructor (header: Option<Header>, body: Body)
      ensures this.header == header && this.body == body
    {
      this.header := header;
      this.body := body;
    }

    function State(): (st: ResponseState)
      reads this
    {
      ResponseState(header, body)
    }
  }

  /**
   * A response modifier (`func(*http.Response) error`).
   * `Custom` is one supplied by a caller, whatever it does; `StringReplace` is
   * `StringReplaceResponseModifier(from, to)`; `Cache` is what `CacheModifier` returns,
   * holding the already rendered max-age and the optional parent it wraps.
   */
  datatype Modifier =
    | Custom(run: ResponseState -> Outcome)
    | StringReplace(from: Replace.Pattern, to: seq<Replace.byte>)
    | Cache(maxAge: string, parent: Option<Modifier>)

  /**
   * `CacheModifier(cfg, parent)`: the max-age is rendered once, when the modifier is built,
   * as decimal digits that read back as the configured number of seconds.
   */
  function CacheModifier(cfg: Config, parent: Option<Modifier>): (m: Modifier)
    ensures m.Cache? && m.parent == parent
    ensures |m.maxAge| > 0 && (m.maxAge[0] == '0' ==> cfg.cacheMaxAgeSeconds == 0 && m.maxAge == "0")
    ensures forall i :: 0 <= i < |m.maxAge| ==> Decimal.IsDigit(m.maxAge[i])
    ensures Decimal.DecimalValue(m.maxAge) == cfg.cacheMaxAgeSeconds
  {
    Decimal.DecimalRoundTrip(cfg.cacheMaxAgeSeconds);
    Cache(Decimal.DecimalString(cfg.cacheMaxAgeSeconds), parent)
  }

  /** The header value the cache modifier sets. */
  function CacheControlValue(maxAge: string): (h: string) {
    "max-age=" + maxAge
  }

  /**
   * What running a modifier on a response does: the specification of `Modify`. The body
   * rewrite fails exactly when the body cannot be read and never touches the headers; the
   * cache modifier either fails with its parent's outcome, nothing of its own applied, or
   * succeeds with the directive set.
   */
  function Run(m: Modifier, s: ResponseState): (o: Outcome)
    ensures m.StringReplace? ==> (o.err.Some? <==> s.body.Unreadable?)
    ensures m.StringReplace? ==> o.response.header == s.header
    ensures m.Cache? && o.err.Some? ==> m.parent.Some? && o == Run(m.parent.value, s)
    ensures m.Cache? && o.err.None? ==>
      && o.response.header.Some?
      && CacheControl in o.response.header.value
      && o.response.header.value[CacheControl] == [CacheControlValue(m.maxAge)]
    decreases m
  {
    match m
    case Custom(run) => run(s)
    case StringReplace(from, to) =>
      (match s.body
       case Unreadable(e) => Outcome(s, Some(e))
       case Readable(data) => Outcome(s.(body := Readable(Replace.ReplaceAll(data, from, to))), None))
    case Cache(maxAge, parent) =>
      var first := if parent.Some? then Run(parent.value, s) else Outcome(s, None);
      if first.err.Some? then first
      else
        var h := if first.response.header.Some? then first.response.header.value else map[];
        Outcome(first.response.(header := Some(Set(h, CacheControl, CacheControlValue(maxAge)))), None)
  }

  /** Runs a modifier on `resp` in place and returns its error. */
  method Modify(m: Modifier, resp: Response) returns (err: Option<Error>)
    modifies resp
    ensures resp.State() == Run(m, old(resp.State())).response
    ensures err == Run(m, old(resp.State())).err
    decreases m
  {
    match m
    case Custom(run) =>
      var o := run(resp.State());
      resp.header, resp.body := o.response.header, o.response.body;
      err := o.err;
    case StringReplace(from, to) =>
      match resp.body {
        case Unreadable(e) =>
          return Some(e);
        case Readable(data) =>
          var rewritten := Replace.ReplaceAll(data, from, to);
          resp.body := Readable(rewritten);
          return None;
      }
    case Cache(maxAge, parent) =>
      if parent.Some? {
        var e := Modify(parent.value, resp);
        if e.Some? {
          return e;
        }
      }
      if resp.header.None? {
        resp.header := Some(map[]);
      }
      resp.header := Some(Set(resp.header.value, CacheControl, CacheControlValue(maxAge)));
      return None;
  }

  /** A failing parent's error comes back unchanged and the cache header is not set. */
  lemma CacheParentFails(maxAge: string, parent: Modifier, s: ResponseState)
    requires Run(parent, s).err.Some?
    ensures Run(Cache(maxAge, Some(parent)), s) == Run(parent, s)
  {
  }

  /**
   * With no parent, or a parent that succeeds, the cache modifier succeeds, leaves a header
   * map in place holding the directive, and keeps the parent's body and other headers.
   */
  lemma CacheAfterSuccess(maxAge: string, parent: Option<Modifier>, s: ResponseState)
    requires parent.Some? ==> Run(parent.value, s).err.None?
    ensures var first := if parent.Some? then Run(parent.value, s).response else s;
      var o := Run(Cache(maxAge, parent), s);
      && o.err.None?
      && o.response.header.Some?
      && o.response.header.value[CacheControl] == [CacheControlValue(maxAge)]
      && o.response.body == first.body
      && (forall k :: k != CacheControl ==>
            (k in o.response.header.value <==> first.header.Some? && k in first.header.value))
      && (forall k :: k != CacheControl && k in o.response.header.value ==>
            o.response.header.value[k] == first.header.value[k])
  {
  }

  /** A body that cannot be read: its error is returned and nothing is changed. */
  lemma ReplaceReadError(from: Replace.Pattern, to: seq<Replace.byte>, s: ResponseState)
    requires s.body.Unreadable?
    ensures Run(StringReplace(from, to), s) == Outcome(s, Some(s.body.err))
  {
  }

  /**
   * A readable body is replaced by its rewrite (see `Replace.ReplaceAllAtFirstMatch` for
   * what the rewrite is); the modifier succeeds and the headers are untouched.
   */
  lemma ReplaceRewritesBody(from: Replace.Pattern, to: seq<Replace.byte>, s: ResponseState)
    requires s.body.Readable?
    ensures var o := Run(StringReplace(from, to), s);
      && o.err.None?
      && o.response.header == s.header
      && o.response.body == Readable(Replace.ReplaceAll(s.body.data, from, to))
  {
  }

  /** A cache lifetime of two minutes gives the directive `max-age=120`. */
  lemma TwoMinutesIsMaxAge120(key: string)
    ensures CacheModifier(Config(key, 120), None).maxAge == "120"
    ensures CacheControlValue(CacheModifier(Config(key, 120), None).maxAge) == "max-age=120"
  {
  }

  // ----------------------------------------------------------------- proxy

  /** What `CreateOSMapsProxy` builds: the director's captured values and `ModifyResponse`. */
  datatype ReverseProxy = ReverseProxy(
    target: Url,
    apiKey: string,
    hasResponseModifier: bool,
    modifyResponse: Modifier)

  /**
   * The director keeps the target, the key and whether a response modifier was given; the
   * cache modifier, wrapping that modifier, is always the outermost response step.
   */
  function CreateOSMapsProxy(target: Url, cfg: Config, responseModifier: Option<Modifier>): (p: ReverseProxy)
    ensures p.target == target && p.apiKey == cfg.ordnanceSurveyApiKey
    ensures p.hasResponseModifier <==> responseModifier.Some?
    ensures p.modifyResponse.Cache? && p.modifyResponse.parent == responseModifier
    ensures |p.modifyResponse.maxAge| > 0
    ensures p.modifyResponse.maxAge[0] == '0' ==> cfg.cacheMaxAgeSeconds == 0 && p.modifyResponse.maxAge == "0"
    ensures forall i :: 0 <= i < |p.modifyResponse.maxAge| ==> Decimal.IsDigit(p.modifyResponse.maxAge[i])
    ensures Decimal.DecimalValue(p.modifyResponse.maxAge) == cfg.cacheMaxAgeSeconds
  {
    ReverseProxy(target, cfg.ordnanceSurveyApiKey, responseModifier.Some?,
                 CacheModifier(cfg, responseModifier))
  }

  /** The director: retargets `req` at the upstream and sets the headers it needs. */
  method Direct(p: ReverseProxy, req: Request)
    modifies req
    ensures req.url == old(req.url).(scheme := p.target.scheme, host := p.target.host,
                                     rawQuery := MergeQuery(p.target.rawQuery, old(req.url.rawQuery)))
    ensures req.host == p.target.host
    ensures UserAgent in req.header
    ensures UserAgent in old(req.header) ==> req.header[UserAgent] == old(req.header)[UserAgent]
    ensures UserAgent !in old(req.header) ==> req.header[UserAgent] == [""]
    ensures OsApiKeyHeader in req.header && req.header[OsApiKeyHeader] == [p.apiKey]
    ensures AcceptEncoding in req.header <==> !p.hasResponseModifier && AcceptEncoding in old(req.header)
    ensures AcceptEncoding in req.header ==> req.header[AcceptEncoding] == old(req.header)[AcceptEncoding]
    ensures OthersUnchanged(old(req.header), req.header)
  {
    var targetQuery := p.target.rawQuery;
    req.url := req.url.(scheme := p.target.scheme);
    req.url := req.url.(host := p.target.host);
    req.host := req.url.host;
    if targetQuery == "" || req.url.rawQuery == "" {
      req.url := req.url.(rawQuery := targetQuery + req.url.rawQuery);
    } else {
      req.url := req.url.(rawQuery := targetQuery + "&" + req.url.rawQuery);
    }
    if UserAgent !in req.header {
      req.header := Set(req.header, UserAgent, "");
    }
    req.header := Set(req.header, OsApiKeyHeader, p.apiKey);
    if p.hasResponseModifier {
      req.header := Del(req.header, AcceptEncoding);
    }
  }

  /** Whatever modifier the proxy wraps, a response it lets through carries the configured max-age. */
  lemma ProxyAlwaysSetsMaxAge(target: Url, cfg: Config, responseModifier: Option<Modifier>, s: ResponseState)
    requires responseModifier.Some? ==> Run(responseModifier.value, s).err.None?
    ensures var o := Run(CreateOSMapsProxy(target, cfg, responseModifier).modifyResponse, s);
      && o.err.None?
      && o.response.header.Some?
      && o.response.header.value[CacheControl] ==
           [CacheControlValue(Decimal.DecimalString(cfg.cacheMaxAgeSeconds))]
  {
  }

  /**
   * A supplied modifier that fails makes the whole response step fail with its error, and
   * the response is left as that modifier left it, no directive added.
   */
  lemma ProxyPassesOnFailure(target: Url, cfg: Config, responseModifier: Modifier, s: ResponseState)
    requires Run(responseModifier, s).err.Some?
    ensures Run(CreateOSMapsProxy(target, cfg, Some(responseModifier)).modifyResponse, s)
              == Run(responseModifier, s)
  {
  }

  /**
   * The modifying proxy's chain, the body rewrite wrapped by the cache modifier: a readable
   * body is rewritten and the directive set; an unreadable one yields its read error and
   * leaves the response as it was.
   */
  lemma RewriteThenCache(target: Url, cfg: Config, from: Replace.Pattern, to: seq<Replace.byte>, s: ResponseState)
    ensures var o := Run(CreateOSMapsProxy(target, cfg, Some(StringReplace(from, to))).modifyResponse, s);
      && (s.body.Readable? ==>
            && o.err.None?
            && o.response.body == Readable(Replace.ReplaceAll(s.body.data, from, to))
            && o.response.header.Some?
            && o.response.header.value[CacheControl] ==
                 [CacheControlValue(Decimal.DecimalString(cfg.cacheMaxAgeSeconds))])
      && (s.body.Unreadable? ==> o == Outcome(s, Some(s.body.err)))
  {
  }
}
