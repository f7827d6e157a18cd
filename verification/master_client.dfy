/** `MasterServiceClient`: fetches the site list from the master service.
    The HTTP exchange is an oracle (`Request -> Exchange`); what the model
    keeps is what the client does around it: the URL and headers it sends,
    how it classifies the outcome, and how it maps each JSON object of the
    body onto a site record. */
module MasterServiceClient {
  import opened Wrappers
  import opened JavaLang
  import opened Http

  // ---------------------------------------------------------------------
  // JSON values and the per-site mapping
  // ---------------------------------------------------------------------

  /** One object of the JSON array body, as Jackson deserializes it. */
  type SiteMap = map<string, Obj>

  /** The site record the mapping fills, one field per source key, each the
      string form of the key's value; `location` is derived. */
  datatype SiteFields = SiteFields(
    id: Option<string>,
    name: Option<string>,
    locationCode: Option<string>,
    active: Option<string>,
    city: Option<string>,
    street: Option<string>,
    clusterName: Option<string>,
    clusterId: Option<string>,
    location: Option<string>)

  /** The eight keys copied one-to-one. */
  const CopiedKeys: seq<string> := ["id", "name", "locationCode", "active", "city", "street", "clusterName", "clusterId"]

  /** The fields filled from `CopiedKeys`, in the same order. */
  function CopiedFields(f: SiteFields): (r: seq<Option<string>>)
    ensures |r| == |CopiedKeys|
  {
    [f.id, f.name, f.locationCode, f.active, f.city, f.street, f.clusterName, f.clusterId]
  }

  /** The value `toString()` of a key when it is present; absent or null yields null. */
  function Copy(m: SiteMap, key: string): Option<string> {
    if key in m then Render(m[key]) else None
  }

  /** The text a location part contributes: "" when the key is absent. */
  function Part(m: SiteMap, key: string): string {
    if key in m then Render(m[key]).GetOr("") else ""
  }

  /** The NullPointerException of `siteMap.get(key).toString()` on a null value. */
  const NullValue: Throwable :=
    JvmRaised(NullPointer, "Cannot invoke \"Object.toString()\" because the return value of \"java.util.Map.get(Object)\" is null")

  /** True when some copied key is present with a JSON null value. */
  predicate HasNullCopiedValue(m: SiteMap) {
    exists i :: 0 <= i < |CopiedKeys| && CopiedKeys[i] in m && m[CopiedKeys[i]] == Null
  }

  /** `convertToSiteDto`: each of the eight keys is copied, as text, iff it
      is present; a present key holding null makes `toString()` throw.
      `location` is `trim(city + " " + street)`, where an absent key counts
      as "", and is set iff city or street is non-empty. */
  function ConvertSite(m: SiteMap): (r: Result<SiteFields, Throwable>)
    ensures r.Failure? <==> HasNullCopiedValue(m)
    ensures r.Failure? ==> RaisedByJvm(r.error, NullPointer)
    ensures r.Success? ==> forall i :: 0 <= i < |CopiedKeys| ==>
              (CopiedFields(r.value)[i].Some? <==> CopiedKeys[i] in m) && CopiedFields(r.value)[i] == Copy(m, CopiedKeys[i])
    ensures r.Success? ==> (r.value.location.Some? <==> Part(m, "city") != "" || Part(m, "street") != "")
    ensures r.Success? && r.value.location.Some? ==>
              r.value.location.value == Trim(Part(m, "city") + " " + Part(m, "street"))
  {
    if HasNullCopiedValue(m) then Failure(NullValue) else Success(CopySite(m))
  }

  /** The record `convertToSiteDto` fills when no copied key holds null. */
  function CopySite(m: SiteMap): (f: SiteFields)
    requires !HasNullCopiedValue(m)
    ensures forall i :: 0 <= i < |CopiedKeys| ==>
              (CopiedFields(f)[i].Some? <==> CopiedKeys[i] in m) && CopiedFields(f)[i] == Copy(m, CopiedKeys[i])
    ensures f.location.Some? <==> Part(m, "city") != "" || Part(m, "street") != ""
    ensures f.location.Some? ==> f.location.value == Trim(Part(m, "city") + " " + Part(m, "street"))
  {
    var city := Part(m, "city");
    var street := Part(m, "street");
    var f := SiteFields(
      Copy(m, "id"), Copy(m, "name"), Copy(m, "locationCode"), Copy(m, "active"),
      Copy(m, "city"), Copy(m, "street"), Copy(m, "clusterName"), Copy(m, "clusterId"),
      if city != "" || street != "" then Some(Trim(city + " " + street)) else None);
    assert forall i :: 0 <= i < |CopiedKeys| ==> CopiedFields(f)[i] == Copy(m, CopiedKeys[i]);
    f
  }

  /** The derived location never carries leading or trailing blanks, and it
      is empty only when city and street are both blank. */
  lemma LocationIsTrimmed(m: SiteMap)
    requires ConvertSite(m).Success? && ConvertSite(m).value.location.Some?
    ensures var loc := ConvertSite(m).value.location.value;
            Trim(loc) == loc && (loc == [] <==> AllTrimmable(Part(m, "city") + " " + Part(m, "street")))
  {
    TrimIdempotent(Part(m, "city") + " " + Part(m, "street"));
  }

  /** `stream().map(this::convertToSiteDto).toList()`: the first element whose
      mapping throws aborts the whole list. */
  function ConvertAll(body: seq<SiteMap>): (r: Result<seq<SiteFields>, Throwable>)
    ensures r.Success? <==> forall i :: 0 <= i < |body| ==> ConvertSite(body[i]).Success?
    ensures r.Success? ==> |r.value| == |body|
                           && forall i :: 0 <= i < |body| ==> r.value[i] == ConvertSite(body[i]).value
    ensures r.Failure? ==> RaisedByJvm(r.error, NullPointer)
  {
    if body == [] then Success([])
    else
      match ConvertSite(body[0])
      case Failure(e) => Failure(e)
      case Success(f) =>
        match ConvertAll(body[1..])
        case Failure(e) =>
          assert forall i :: 0 <= i < |body| - 1 ==> body[1..][i] == body[i + 1];
          Failure(e)
        case Success(rest) =>
          assert forall i :: 1 <= i < |body| ==> ConvertSite(body[i]) == ConvertSite(body[1..][i - 1]);
          Success([f] + rest)
  }

  // ---------------------------------------------------------------------
  // Request
  // ---------------------------------------------------------------------

  const SitesPath := "/amsp/api/masterdata/v1/sites"

  /** The request URL: the configured base URL followed by the sites path. */
  function SitesUrl(baseUrl: string): (url: string)
    ensures |url| == |baseUrl| + |SitesPath|
    ensures url[..|baseUrl|] == baseUrl && url[|baseUrl|..] == SitesPath
  {
    baseUrl + SitesPath
  }

  const BearerPrefix := "Bearer "

  /** The five headers every request carries. */
  const FixedHeaders: Headers := map[
    "Content-Type" := "application/json",
    "Accept" := "application/json",
    "Accept-Encoding" := "gzip, deflate",
    "Connection" := "keep-alive",
    "Cache-Control" := "no-cache"]

  /** The bearer token carried by an Authorization value, if it has the
      "Bearer " scheme prefix (section 2.1 of RFC 6750). */
  function BearerCredential(value: string): Option<string> {
    if |value| >= |BearerPrefix| && value[..|BearerPrefix|] == BearerPrefix then Some(value[|BearerPrefix|..])
    else None
  }

  /** `createHeaders()`: the five fixed headers, and `Authorization: Bearer
      <token>` iff the token is non-null and non-empty; the token is then
      read back unchanged from that header. */
  function MasterHeaders(token: Option<string>): (h: Headers)
    ensures forall name :: name in FixedHeaders ==> name in h && h[name] == FixedHeaders[name]
    ensures "Authorization" in h <==> token.Some? && token.value != ""
    ensures h.Keys == FixedHeaders.Keys + (if "Authorization" in h then {"Authorization"} else {})
    ensures "Authorization" in h ==> BearerCredential(h["Authorization"]) == token
  {
    if token.Some? && token.value != "" then
      var value := BearerPrefix + token.value;
      assert value[..|BearerPrefix|] == BearerPrefix && value[|BearerPrefix|..] == token.value;
      FixedHeaders["Authorization" := value]
    else FixedHeaders
  }

  /** The injected configuration (`master.service.*` properties). */
  datatype Config = Config(baseUrl: string, bearerToken: Option<string>)

  const FetchFailedMessage := "Failed to fetch sites from Master Service"

  /** `getSites()` for one attempt. A 2xx answer with a body yields the body
      mapped element by element, in order; any other answer yields the empty
      list. Rest-client exceptions (client, server, resource-access and the
      rest) escape unchanged; anything else, including a failing mapping,
      escapes wrapped in a RuntimeException. */
  function GetSites(cfg: Config, exchange: Request -> Exchange<seq<SiteMap>>): (r: Result<seq<SiteFields>, Throwable>)
    ensures var e := exchange(Request(SitesUrl(cfg.baseUrl), MasterHeaders(cfg.bearerToken)));
      && (e.Response? && Is2xx(e.status) && e.body.Some? ==>
            if forall i :: 0 <= i < |e.body.value| ==> ConvertSite(e.body.value[i]).Success? then
              r.Success? && |r.value| == |e.body.value|
              && forall i :: 0 <= i < |e.body.value| ==> r.value[i] == ConvertSite(e.body.value[i]).value
            else r.Failure? && r.error.kind == Runtime && r.error.message == Some(FetchFailedMessage)
                 && r.error.cause.Some? && RaisedByJvm(r.error.cause.value, NullPointer))
      && (e.Response? && !(Is2xx(e.status) && e.body.Some?) ==> r == Success([]))
      && (e.Raised? && IsRestClientException(e.error.kind) ==> r == Failure(e.error))
      && (e.Raised? && !IsRestClientException(e.error.kind) ==> r == Failure(WrapRuntime(FetchFailedMessage, e.error)))
  {
    var e := exchange(Request(SitesUrl(cfg.baseUrl), MasterHeaders(cfg.bearerToken)));
    match e
    case Response(status, body) =>
      if Is2xx(status) && body.Some? then
        match ConvertAll(body.value)
        case Success(sites) => Success(sites)
        case Failure(err) => Failure(WrapRuntime(FetchFailedMessage, err))
      else Success([])
    case Raised(err) =>
      if IsRestClientException(err.kind) then Failure(err)
      else Failure(WrapRuntime(FetchFailedMessage, err))
  }

  /** `isServiceHealthy()`. */
  function IsServiceHealthy(cfg: Config, get: string -> Exchange<string>): bool {
    HealthCheck(cfg.baseUrl, get)
  }

  // ---------------------------------------------------------------------
  // Cause-chain inspection
  // ---------------------------------------------------------------------

  /** Some link of the cause chain of `t` is a TruncatedChunkException. */
  predicate HasTruncatedChunk(t: Throwable) {
    exists i :: 0 <= i < |Chain(t)| && Chain(t)[i].kind == TruncatedChunk
  }

  /** When the exchange throws, what escapes `getSites` ends with the
      exchange's exception: it is that exception, or a RuntimeException
      wrapping it. Its cause chain therefore ends with the exchange's chain,
      and the truncated-chunk test answers the same for both. */
  lemma GetSitesKeepsCause(cfg: Config, exchange: Request -> Exchange<seq<SiteMap>>)
    requires exchange(Request(SitesUrl(cfg.baseUrl), MasterHeaders(cfg.bearerToken))).Raised?
    ensures var e := exchange(Request(SitesUrl(cfg.baseUrl), MasterHeaders(cfg.bearerToken))).error;
            var r := GetSites(cfg, exchange);
            && r.Failure? && |Chain(e)| <= |Chain(r.error)|
            && Chain(r.error)[|Chain(r.error)| - |Chain(e)|..] == Chain(e)
            && (HasTruncatedChunk(r.error) <==> HasTruncatedChunk(e))
  {
  }


  /** `isTruncatedChunkException(e)`: walks the cause chain from `e` and
      answers whether any link is a TruncatedChunkException. (In `getSites`
      the answer only chooses the log line; the exception is rethrown either
      way.) */
  method IsTruncatedChunkException(e: Throwable) returns (found: bool)
    ensures found <==> HasTruncatedChunk(e)
  {
    var cause: Option<Throwable> := Some(e);
    ghost var seen: nat := 0;
    while cause.Some?
      invariant seen <= |Chain(e)|
      invariant cause.Some? ==> Chain(e)[seen..] == Chain(cause.value)
      invariant cause.None? ==> seen == |Chain(e)|
      invariant forall i :: 0 <= i < seen ==> Chain(e)[i].kind != TruncatedChunk
      decreases |Chain(e)| - seen
    {
      var c := cause.value;
      assert Chain(e)[seen] == c;
      if c.kind == TruncatedChunk {
        return true;
      }
      cause := c.cause;
      seen := seen + 1;
    }
    return false;
  }
}
