/** What the two HTTP clients share: headers, the request they build and
    the outcome of `RestTemplate.exchange`, which the model treats as an
    oracle. */
module Http {
  import opened Wrappers
  import opened JavaLang

  /** Request headers by name; `HttpHeaders.set` replaces any earlier value. */
  type Headers = map<string, string>

  datatype Request = Request(url: string, headers: Headers)

  /** What `restTemplate.exchange` did: answered with a status code and a
      possibly null body, or threw. */
  datatype Exchange<B> = Response(status: int, body: Option<B>) | Raised(error: Throwable)

  /** `HttpStatusCode.is2xxSuccessful()`. */
  predicate Is2xx(status: int) {
    200 <= status < 300
  }

  const HealthPath := "/health"

  /** The health check both clients make: one plain GET of the base URL
      followed by "/health", without the clients' headers. Healthy iff it
      answers 2xx; any other answer, and any exception, means unhealthy. */
  function HealthCheck(baseUrl: string, get: string -> Exchange<string>): (healthy: bool)
    ensures var e := get(baseUrl + HealthPath);
            healthy <==> e.Response? && 200 <= e.status < 300
    ensures get(baseUrl + HealthPath).Raised? ==> !healthy
  {
    match get(baseUrl + HealthPath)
    case Response(status, _) => Is2xx(status)
    case Raised(_) => false
  }
}
