/** `StarfishApiClient`: looks a site up in the STARFISH API by id or by
    code. As for the master client, the HTTP exchange is an oracle; the
    model keeps the URLs, the Basic authentication header and the
    classification of outcomes. */
module StarfishApiClient {
  import opened Wrappers
  import opened JavaLang
  import opened Http
  import Base64

  /** The injected configuration (`starfish.api.*` properties). */
  datatype Config = Config(baseUrl: string, username: Option<string>, password: Option<string>)

  /** `String.getBytes()` uses the platform's default charset, which the
      model takes as a parameter. */
  type Charset = string -> seq<Base64.Byte>

  const JsonType := "application/json"
  const BasicPrefix := "Basic "

  predicate Given(x: Option<string>) {
    x.Some? && x.value != ""
  }

  /** The user-id and password pair of section 2 of RFC 7617, joined by a colon. */
  function UserPass(cfg: Config): string
    requires Given(cfg.username) && Given(cfg.password)
  {
    cfg.username.value + ":" + cfg.password.value
  }

  /** The credential bytes an Authorization value carries, if it is a
      well-formed Basic value. */
  function BasicCredential(value: string): Option<seq<Base64.Byte>> {
    if |value| >= |BasicPrefix| && value[..|BasicPrefix|] == BasicPrefix then Base64.Decode(value[|BasicPrefix|..])
    else None
  }

  /** `createHeaders()`: JSON content type and accept headers always, and
      `Authorization: Basic <base64(username ":" password)>` iff both the
      username and the password are non-null and non-empty. The header then
      decodes back to the encoded credentials. */
  function StarfishHeaders(cfg: Config, charset: Charset): (h: Headers)
    ensures "Content-Type" in h && h["Content-Type"] == JsonType
    ensures "Accept" in h && h["Accept"] == JsonType
    ensures "Authorization" in h <==> Given(cfg.username) && Given(cfg.password)
    ensures h.Keys == {"Content-Type", "Accept"} + (if "Authorization" in h then {"Authorization"} else {})
    ensures "Authorization" in h ==> BasicCredential(h["Authorization"]) == Some(charset(UserPass(cfg)))
  {
    var base := map["Content-Type" := JsonType, "Accept" := JsonType];
    if Given(cfg.username) && Given(cfg.password) then
      var encoded := Base64.Encode(charset(UserPass(cfg)));
      var value := BasicPrefix + encoded;
      assert value[..|BasicPrefix|] == BasicPrefix && value[|BasicPrefix|..] == encoded;
      Base64.DecodeEncode(charset(UserPass(cfg)));
      base["Authorization" := value]
    else base
  }

  const SitesPath := "/api/sites/"
  const SiteCodesPath := "/api/sites/code/"

  /** `baseUrl + "/api/sites/" + siteId`; a null id is spelled "null". */
  function SiteUrl(baseUrl: string, siteId: Option<string>): (url: string)
    ensures |url| == |baseUrl| + |SitesPath| + |NullableText(siteId)|
    ensures url[..|baseUrl|] == baseUrl
    ensures url[|baseUrl|..|baseUrl| + |SitesPath|] == SitesPath
    ensures url[|baseUrl| + |SitesPath|..] == NullableText(siteId)
  {
    baseUrl + SitesPath + NullableText(siteId)
  }

  /** `baseUrl + "/api/sites/code/" + siteCode`. */
  function SiteCodeUrl(baseUrl: string, siteCode: Option<string>): (url: string)
    ensures |url| == |baseUrl| + |SiteCodesPath| + |NullableText(siteCode)|
    ensures url[..|baseUrl|] == baseUrl
    ensures url[|baseUrl|..|baseUrl| + |SiteCodesPath|] == SiteCodesPath
    ensures url[|baseUrl| + |SiteCodesPath|..] == NullableText(siteCode)
  {
    baseUrl + SiteCodesPath + NullableText(siteCode)
  }

  /** The outcome of one lookup: the site (null when absent), or the exception
      that escapes. */
  type Lookup<B> = Result<Option<B>, Throwable>

  /** What `getSiteInfo` and `getSiteInfoByCode` share once the exchange is done. */
  function Classify<B>(e: Exchange<B>, failMessage: string): Lookup<B>
  {
    match e
    case Response(status, body) =>
      if Is2xx(status) && body.Some? then Success(body) else Success(None)
    case Raised(err) =>
      match err.kind
      case HttpClientError(code) => if code == 404 then Success(None) else Failure(err)
      case HttpServerError(_) => Failure(err)
      case ResourceAccess => Failure(err)
      case _ => Failure(WrapRuntime(failMessage, err))
  }

  /** The three exception classes the lookups rethrow as they are. */
  predicate Rethrown(k: Kind) {
    (k.HttpClientError? && k != HttpClientError(404)) || k.HttpServerError? || k.ResourceAccess?
  }

  /** `getSiteInfo(siteId)` for one attempt: one GET of the by-id URL with the
      client's headers. The site comes back iff the answer is 2xx with a body;
      a 404 or any other answer gives null; client (other than 404), server
      and resource-access errors escape unchanged; anything else escapes
      wrapped, with the id in the message. */
  function GetSiteInfo<B>(cfg: Config, charset: Charset, siteId: Option<string>, exchange: Request -> Exchange<B>): (r: Lookup<B>)
    ensures var e := exchange(Request(SiteUrl(cfg.baseUrl, siteId), StarfishHeaders(cfg, charset)));
      && (r.Success? && r.value.Some? <==> e.Response? && Is2xx(e.status) && e.body.Some?)
      && (r.Success? && r.value.Some? ==> r.value == e.body)
      && (r == Success(None) <==> (e.Response? && !(Is2xx(e.status) && e.body.Some?)) || (e.Raised? && e.error.kind == HttpClientError(404)))
      && (e.Raised? && Rethrown(e.error.kind) ==> r == Failure(e.error))
      && (e.Raised? && e.error.kind != HttpClientError(404) && !Rethrown(e.error.kind) ==>
            r == Failure(WrapRuntime("Failed to fetch site " + NullableText(siteId) + " from STARFISH API", e.error)))
  {
    var e := exchange(Request(SiteUrl(cfg.baseUrl, siteId), StarfishHeaders(cfg, charset)));
    Classify(e, "Failed to fetch site " + NullableText(siteId) + " from STARFISH API")
  }

  /** `getSiteInfoByCode(siteCode)` for one attempt: as `getSiteInfo`, with the
      by-code URL and the code in the wrapping message. */
  function GetSiteInfoByCode<B>(cfg: Config, charset: Charset, siteCode: Option<string>, exchange: Request -> Exchange<B>): (r: Lookup<B>)
    ensures var e := exchange(Request(SiteCodeUrl(cfg.baseUrl, siteCode), StarfishHeaders(cfg, charset)));
      && (r.Success? && r.value.Some? <==> e.Response? && Is2xx(e.status) && e.body.Some?)
      && (r.Success? && r.value.Some? ==> r.value == e.body)
      && (r == Success(None) <==> (e.Response? && !(Is2xx(e.status) && e.body.Some?)) || (e.Raised? && e.error.kind == HttpClientError(404)))
      && (e.Raised? && Rethrown(e.error.kind) ==> r == Failure(e.error))
      && (e.Raised? && e.error.kind != HttpClientError(404) && !Rethrown(e.error.kind) ==>
            r == Failure(WrapRuntime("Failed to fetch site with code " + NullableText(siteCode) + " from STARFISH API", e.error)))
  {
    var e := exchange(Request(SiteCodeUrl(cfg.baseUrl, siteCode), StarfishHeaders(cfg, charset)));
    Classify(e, "Failed to fetch site with code " + NullableText(siteCode) + " from STARFISH API")
  }

  /** Given the same exchange outcome, the lookup by id and the lookup by
      code answer alike: the same site or null, the same rethrown exception,
      and for a wrapped one the same wrapper apart from its message. */
  lemma {:induction false} LookupsAgree<B>(cfg: Config, charset: Charset, siteId: Option<string>, siteCode: Option<string>,
                                           byId: Request -> Exchange<B>, byCode: Request -> Exchange<B>)
    requires byId(Request(SiteUrl(cfg.baseUrl, siteId), StarfishHeaders(cfg, charset)))
          == byCode(Request(SiteCodeUrl(cfg.baseUrl, siteCode), StarfishHeaders(cfg, charset)))
    ensures var a := GetSiteInfo(cfg, charset, siteId, byId);
            var b := GetSiteInfoByCode(cfg, charset, siteCode, byCode);
            && (a.Success? <==> b.Success?)
            && (a.Success? ==> a == b)
            && (a.Failure? ==> a.error.(message := b.error.message) == b.error)
  {
    var e := byId(Request(SiteUrl(cfg.baseUrl, siteId), StarfishHeaders(cfg, charset)));
    ClassifyIgnoresMessage(e, "Failed to fetch site " + NullableText(siteId) + " from STARFISH API",
                           "Failed to fetch site with code " + NullableText(siteCode) + " from STARFISH API");
  }

  /** The failure message only ever lands in the wrapper's message. */
  lemma ClassifyIgnoresMessage<B>(e: Exchange<B>, m1: string, m2: string)
    ensures var a := Classify(e, m1);
            var b := Classify(e, m2);
            && (a.Success? <==> b.Success?)
            && (a.Success? ==> a == b)
            && (a.Failure? ==> a.error.(message := b.error.message) == b.error)
  {
  }

  /** `isApiHealthy()`. */
  function IsApiHealthy(cfg: Config, get: string -> Exchange<string>): bool {
    HealthCheck(cfg.baseUrl, get)
  }
}
