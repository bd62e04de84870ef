/** The edge runtime's entry point: how a request path is routed, and the address the
    server listens on. */
module Router {
  import opened JsValues
  import opened Strings
  import opened Numbers

  /** The handler a path is routed to. */
  datatype Route = Root | HealthCheck | ApiHandler | WebhookProcessor | NotFound

  /** The if/else-if chain over the path name: the first test that holds wins. */
  function RouteOf(path: string): (r: Route)
    ensures r == Root <==> path == "/" || path == "/main"
    ensures r == HealthCheck <==> path == "/health" || path == "/health-check"
    ensures r == ApiHandler <==> StartsWith(path, "/api-handler")
    ensures r == WebhookProcessor <==> StartsWith(path, "/webhook-processor")
    ensures r == NotFound <==> path !in {"/", "/main", "/health", "/health-check"}
                               && !StartsWith(path, "/api-handler")
                               && !StartsWith(path, "/webhook-processor")
  {
    PrefixesExclusive(path);
    if path == "/" || path == "/main" then Root
    else if path == "/health" || path == "/health-check" then HealthCheck
    else if StartsWith(path, "/api-handler") then ApiHandler
    else if StartsWith(path, "/webhook-processor") then WebhookProcessor
    else NotFound
  }

  /** No path passes two of the tests, so the order of the chain changes no answer. */
  lemma PrefixesExclusive(path: string)
    ensures StartsWith(path, "/api-handler") ==> !StartsWith(path, "/webhook-processor")
    ensures StartsWith(path, "/api-handler") || StartsWith(path, "/webhook-processor")
            ==> path !in {"/", "/main", "/health", "/health-check"}
  {
    if StartsWith(path, "/api-handler") {
      assert path[1] == 'a';
    }
    if StartsWith(path, "/webhook-processor") {
      assert path[1] == 'w';
    }
  }

  /** What the entry point answers. `Delegated` stands for the health-check handler's own
      response, returned unchanged. */
  datatype MainResponse =
    | PlainText(status: nat, text: string)
    | JsonEcho(message: string, path: string, httpMethod: string)
    | Delegated

  const RunningText: string := "Edge Runtime is running!"
  const NotFoundText: string := "Not Found"

  function Respond(httpMethod: string, path: string): (r: MainResponse)
    ensures r == PlainText(200, RunningText) <==> RouteOf(path) == Root
    ensures r == Delegated <==> RouteOf(path) == HealthCheck
    ensures r.JsonEcho? <==> RouteOf(path) in {ApiHandler, WebhookProcessor}
    ensures r.JsonEcho? ==> r.path == path && r.httpMethod == httpMethod
    ensures r == PlainText(404, NotFoundText) <==> RouteOf(path) == NotFound
  {
    match RouteOf(path)
    case Root => PlainText(200, RunningText)
    case HealthCheck => Delegated
    case ApiHandler => JsonEcho("API Handler endpoint", path, httpMethod)
    case WebhookProcessor => JsonEcho("Webhook Processor endpoint", path, httpMethod)
    case NotFound => PlainText(404, NotFoundText)
  }

  /** Only the two exact health paths are delegated: a longer path sharing the prefix is not. */
  lemma HealthNeedsExactPath()
    ensures RouteOf("/healthz") == NotFound
    ensures RouteOf("/health/") == NotFound
  {
    assert !StartsWith("/healthz", "/api-handler");
    assert !StartsWith("/health/", "/api-handler");
  }

  /** Any extension of the two prefixes is still echoed, whatever follows. */
  lemma PrefixRoutesAcceptAnySuffix(httpMethod: string, rest: string)
    ensures Respond(httpMethod, "/api-handler" + rest) == JsonEcho("API Handler endpoint", "/api-handler" + rest, httpMethod)
    ensures Respond(httpMethod, "/webhook-processor" + rest)
            == JsonEcho("Webhook Processor endpoint", "/webhook-processor" + rest, httpMethod)
  {
    assert StartsWith("/api-handler" + rest, "/api-handler");
    assert ("/webhook-processor" + rest)[..|"/webhook-processor"|] == "/webhook-processor";
  }

  const DefaultPort: string := "9000"
  const DefaultHostname: string := "0.0.0.0"

  /** `parseInt(PORT || "9000")`; `None` is `NaN`. */
  function Port(env: map<string, string>): (r: Option<int>)
    ensures !Truthy(EnvGet(env, "PORT")) ==> r == ParseInt(DefaultPort)
  {
    ParseInt(OrElse(EnvGet(env, "PORT"), DefaultPort))
  }

  /** `HOST || "0.0.0.0"`. */
  function Hostname(env: map<string, string>): (r: string)
    ensures r != ""
    ensures Truthy(EnvGet(env, "HOST")) ==> r == env["HOST"]
    ensures !Truthy(EnvGet(env, "HOST")) ==> r == DefaultHostname
  {
    OrElse(EnvGet(env, "HOST"), DefaultHostname)
  }

  /** With no `PORT`, or an empty one, the server listens on 9000. */
  lemma PortDefaultsTo9000(env: map<string, string>)
    requires "PORT" !in env || env["PORT"] == ""
    ensures Port(env) == Some(9000)
  {
    assert NatToDecimal(9) == "9";
    assert NatToDecimal(90) == "90";
    assert NatToDecimal(900) == "900";
    assert NatToDecimal(9000) == DefaultPort;
    ParseIntReadsDecimal(9000, []);
    assert NatToDecimal(9000) + [] == DefaultPort;
  }

  /** A `PORT` holding a decimal number, possibly followed by text that is not a digit, gives
      that number. */
  lemma PortReadsDecimal(env: map<string, string>, n: nat, rest: string)
    requires rest == [] || (DigitValue(rest[0]) >= 10 && (n != 0 || (rest[0] != 'x' && rest[0] != 'X')))
    requires "PORT" in env && env["PORT"] == NatToDecimal(n) + rest
    ensures Port(env) == Some(n)
  {
    ParseIntReadsDecimal(n, rest);
  }

  /** A `PORT` that does not start with a number yields `NaN`. */
  lemma NonNumericPortIsNaN(env: map<string, string>)
    requires "PORT" in env && env["PORT"] == "auto"
    ensures Port(env) == None
  {
  }
}
