/** The health-check endpoint: three independent probes (Supabase, RabbitMQ, MinIO), each
    recorded as a check, and an overall verdict that is unhealthy exactly when a probe failed. */
module HealthCheck {
  import opened JsValues
  import opened Strings
  import opened Numbers

  datatype CheckStatus = Pending | Success | Failed

  /** One entry of `results.checks`; `error` is `null` unless the probe failed. */
  datatype Check = Check(status: CheckStatus, message: string, error: Option<string>)

  const PendingCheck: Check := Check(Pending, "", None)

  // ---------------------------------------------------------------- Supabase

  const MissingSupabaseMessage: string := "Missing SUPABASE_URL or SUPABASE_SERVICE_ROLE_KEY"
  const SupabaseFailure: string := "Failed to configure Supabase client"

  /** Railway-internal hosts are reached over plain HTTP, every other host over HTTPS; a URL
      that already names its scheme is kept. */
  function FormatSupabaseUrl(url: string): (r: string)
    ensures StartsWith(r, "http")
    ensures EndsWith(r, url)
    ensures StartsWith(url, "http") ==> r == url
    ensures !StartsWith(url, "http") ==>
              r == (if Contains(url, ".railway.internal") then "http://" else "https://") + url
  {
    if Contains(url, ".railway.internal") then
      if StartsWith(url, "http") then url else "http://" + url
    else
      if StartsWith(url, "http") then url else "https://" + url
  }

  lemma FormatSupabaseUrlIdempotent(url: string)
    ensures FormatSupabaseUrl(FormatSupabaseUrl(url)) == FormatSupabaseUrl(url)
  {
  }

  /** The Supabase client library as the check uses it: whether building a client for a URL and
      key throws (and with what message), and whether the admin user listing then succeeds. */
  datatype SupabaseProbe = SupabaseProbe(
    createClient: (string, string) -> Option<string>,
    listUsers: (string, string) -> bool)

  /** Test 1. A failing user listing does not fail the check: only missing variables and a
      client that cannot be built do. */
  function SupabaseCheck(env: map<string, string>, probe: SupabaseProbe): (c: Check)
    ensures c.status != Pending
    ensures c.status == Failed <==>
              || !Truthy(EnvGet(env, "SUPABASE_URL"))
              || !Truthy(EnvGet(env, "SUPABASE_SERVICE_ROLE_KEY"))
              || probe.createClient(FormatSupabaseUrl(env["SUPABASE_URL"]), env["SUPABASE_SERVICE_ROLE_KEY"]).Some?
    ensures !Truthy(EnvGet(env, "SUPABASE_URL")) || !Truthy(EnvGet(env, "SUPABASE_SERVICE_ROLE_KEY"))
            ==> c == Check(Failed, SupabaseFailure, Some(MissingSupabaseMessage))
    ensures c.status == Success ==> c.error == None && Contains(c.message, FormatSupabaseUrl(env["SUPABASE_URL"]))
  {
    var url := EnvGet(env, "SUPABASE_URL");
    var key := EnvGet(env, "SUPABASE_SERVICE_ROLE_KEY");
    if !Truthy(url) || !Truthy(key) then Check(Failed, SupabaseFailure, Some(MissingSupabaseMessage))
    else
      var formatted := FormatSupabaseUrl(url.value);
      match probe.createClient(formatted, key.value)
      case Some(m) => Check(Failed, SupabaseFailure, Some(m))
      case None =>
        if probe.listUsers(formatted, key.value) then
          ContainsSuffix(ConnectedPrefix, formatted, "");
          Check(Success, ConnectedPrefix + formatted + "", None)
        else
          ContainsSuffix(ConfiguredPrefix, formatted, NotVerifiedSuffix);
          Check(Success, ConfiguredPrefix + formatted + NotVerifiedSuffix, None)
  }

  const ConnectedPrefix: string := "Connected to Supabase at "
  const ConfiguredPrefix: string := "Supabase client configured for "
  const NotVerifiedSuffix: string := " (connection not verified)"

  /** `s` contains what follows any prefix. */
  lemma ContainsSuffix(pre: string, s: string, post: string)
    ensures Contains(pre + s + post, s)
  {
    assert OccursAt(pre + s + post, s, |pre|);
  }

  /** The verdict of the Supabase check does not depend on the verification query. */
  lemma SupabaseStatusIgnoresQuery(env: map<string, string>, p: SupabaseProbe, q: SupabaseProbe)
    requires p.createClient == q.createClient
    ensures SupabaseCheck(env, p).status == SupabaseCheck(env, q).status
  {
  }

  // ---------------------------------------------------------------- RabbitMQ

  const MissingRabbitMessage: string := "Missing RABBITMQ_PRIVATE_URL"
  const RabbitFailure: string := "Failed to connect to RabbitMQ"

  /** The parts of a parsed URL the check reads; an absent part is "". */
  datatype UrlParts = UrlParts(username: string, password: string, hostname: string, port: string)

  /** `new URL(text)` (which throws on text that is not a URL), and the AMQP connection
      attempt followed by `close()`: `Some(message)` when either throws. */
  datatype RabbitProbe = RabbitProbe(
    parseUrl: string -> Result<UrlParts>,
    connect: (string, Option<int>, string, string) -> Option<string>)

  /** Test 2, with the AMQP defaults for the parts the URL leaves out. */
  function RabbitCheck(env: map<string, string>, probe: RabbitProbe): (c: Check)
    ensures c.status != Pending
    ensures !Truthy(EnvGet(env, "RABBITMQ_PRIVATE_URL")) ==> c == Check(Failed, RabbitFailure, Some(MissingRabbitMessage))
    ensures Truthy(EnvGet(env, "RABBITMQ_PRIVATE_URL")) && probe.parseUrl(env["RABBITMQ_PRIVATE_URL"]).Thrown?
            ==> c == Check(Failed, RabbitFailure, Some(probe.parseUrl(env["RABBITMQ_PRIVATE_URL"]).message))
    ensures c.status == Success <==>
              Truthy(EnvGet(env, "RABBITMQ_PRIVATE_URL"))
              && probe.parseUrl(env["RABBITMQ_PRIVATE_URL"]).Ok?
              && var u := probe.parseUrl(env["RABBITMQ_PRIVATE_URL"]).value;
                 probe.connect(OrElse(Some(u.hostname), "localhost"), ParseInt(OrElse(Some(u.port), "5672")),
                               OrElse(Some(u.username), "guest"), OrElse(Some(u.password), "guest")).None?
    ensures c.status == Success ==> c.error == None
  {
    var text := EnvGet(env, "RABBITMQ_PRIVATE_URL");
    if !Truthy(text) then Check(Failed, RabbitFailure, Some(MissingRabbitMessage))
    else match probe.parseUrl(text.value)
      case Thrown(m) => Check(Failed, RabbitFailure, Some(m))
      case Ok(u) =>
        var username := OrElse(Some(u.username), "guest");
        var password := OrElse(Some(u.password), "guest");
        var hostname := OrElse(Some(u.hostname), "localhost");
        var port := OrElse(Some(u.port), "5672");
        match probe.connect(hostname, ParseInt(port), username, password)
        case Some(m) => Check(Failed, RabbitFailure, Some(m))
        case None => Check(Success, RabbitMessage(hostname, port), None)
  }

  function RabbitMessage(hostname: string, port: string): string {
    "Connected to RabbitMQ at " + hostname + ":" + port
  }

  /** A URL naming neither host nor port connects to the local broker on the AMQP port. */
  lemma RabbitDefaults(env: map<string, string>, probe: RabbitProbe)
    requires Truthy(EnvGet(env, "RABBITMQ_PRIVATE_URL"))
    requires probe.parseUrl(env["RABBITMQ_PRIVATE_URL"]).Ok?
    requires probe.parseUrl(env["RABBITMQ_PRIVATE_URL"]).value.hostname == ""
    requires probe.parseUrl(env["RABBITMQ_PRIVATE_URL"]).value.port == ""
    requires RabbitCheck(env, probe).status == Success
    ensures RabbitCheck(env, probe).message == RabbitMessage("localhost", "5672")
  {
  }

  // ---------------------------------------------------------------- MinIO

  const MissingMinioMessage: string :=
    "Missing MINIO_PRIVATE_ENDPOINT, MINIO_GLOBAL_ACCESS_KEY, or MINIO_GLOBAL_SECRET_KEY"
  const MinioFailure: string := "Failed to connect to MinIO"
  const DefaultRegion: string := "us-east-1"

  /** An endpoint without a scheme is reached over plain HTTP. */
  function FormatMinioEndpoint(endpoint: string): (r: string)
    ensures StartsWith(r, "http")
    ensures EndsWith(r, endpoint)
    ensures StartsWith(endpoint, "http") ==> r == endpoint
    ensures !StartsWith(endpoint, "http") ==> r == "http://" + endpoint
  {
    if StartsWith(endpoint, "http") then endpoint else "http://" + endpoint
  }

  lemma FormatMinioEndpointIdempotent(endpoint: string)
    ensures FormatMinioEndpoint(FormatMinioEndpoint(endpoint)) == FormatMinioEndpoint(endpoint)
  {
  }

  /** The S3 bucket listing for an endpoint, region, access key and secret key: the length of
      the `Buckets` array (`None` when the reply has none), or the message of what it threw. */
  datatype MinioProbe = MinioProbe(listBuckets: (string, string, string, string) -> Result<Option<nat>>)

  predicate HasMinioSettings(env: map<string, string>) {
    Truthy(EnvGet(env, "MINIO_PRIVATE_ENDPOINT")) && Truthy(EnvGet(env, "MINIO_GLOBAL_ACCESS_KEY"))
    && Truthy(EnvGet(env, "MINIO_GLOBAL_SECRET_KEY"))
  }

  function MinioListing(env: map<string, string>, probe: MinioProbe): Result<Option<nat>>
    requires HasMinioSettings(env)
  {
    probe.listBuckets(FormatMinioEndpoint(env["MINIO_PRIVATE_ENDPOINT"]),
                      OrElse(EnvGet(env, "MINIO_REGION"), DefaultRegion),
                      env["MINIO_GLOBAL_ACCESS_KEY"], env["MINIO_GLOBAL_SECRET_KEY"])
  }

  /** Test 3. */
  function MinioCheck(env: map<string, string>, probe: MinioProbe): (c: Check)
    ensures c.status != Pending
    ensures !HasMinioSettings(env) ==> c == Check(Failed, MinioFailure, Some(MissingMinioMessage))
    ensures c.status == Success <==> HasMinioSettings(env) && MinioListing(env, probe).Ok?
    ensures c.status == Failed && HasMinioSettings(env)
            ==> c.error == Some(MinioListing(env, probe).message)
    ensures c.status == Success ==> c.error == None
  {
    if !HasMinioSettings(env) then Check(Failed, MinioFailure, Some(MissingMinioMessage))
    else
      var endpoint := FormatMinioEndpoint(env["MINIO_PRIVATE_ENDPOINT"]);
      match MinioListing(env, probe)
      case Thrown(m) => Check(Failed, MinioFailure, Some(m))
      case Ok(buckets) =>
        var count := if buckets.Some? then buckets.value else 0;
        Check(Success, MinioMessage(endpoint, count), None)
  }

  function MinioMessage(endpoint: string, count: nat): string {
    "Connected to MinIO at " + endpoint + ". Found " + NatToDecimal(count) + " buckets"
  }

  /** A listing without a `Buckets` array is reported as zero buckets. */
  lemma MissingBucketsCountAsZero(env: map<string, string>, probe: MinioProbe)
    requires HasMinioSettings(env) && MinioListing(env, probe) == Ok(None)
    ensures MinioCheck(env, probe).message
            == MinioMessage(FormatMinioEndpoint(env["MINIO_PRIVATE_ENDPOINT"]), 0)
  {
  }

  // ---------------------------------------------------------------- verdict

  /** `checks.some(check => check.status === 'failed')` */
  function HasFailures(checks: seq<Check>): (r: bool)
    ensures r <==> exists i :: 0 <= i < |checks| && checks[i].status == Failed
  {
    if checks == [] then false
    else checks[0].status == Failed || HasFailures(checks[1..])
  }

  lemma HasFailuresOfThree(a: Check, b: Check, c: Check)
    ensures HasFailures([a, b, c]) <==> a.status == Failed || b.status == Failed || c.status == Failed
  {
    var cs := [a, b, c];
    assert forall i :: 0 <= i < 3 ==> cs[i] == a || cs[i] == b || cs[i] == c;
    if a.status == Failed { assert cs[0].status == Failed; }
    if b.status == Failed { assert cs[1].status == Failed; }
    if c.status == Failed { assert cs[2].status == Failed; }
  }

  datatype OverallStatus = Checking | Healthy | Unhealthy

  /** Which variables are set (and not empty), as reported back. */
  datatype EnvFlags = EnvFlags(hasSupabaseUrl: bool, hasServiceKey: bool, hasRabbitmqUrl: bool,
                               hasMinioEndpoint: bool, hasMinioAccessKey: bool)

  function EnvFlagsOf(env: map<string, string>): EnvFlags {
    EnvFlags(Truthy(EnvGet(env, "SUPABASE_URL")), Truthy(EnvGet(env, "SUPABASE_SERVICE_ROLE_KEY")),
             Truthy(EnvGet(env, "RABBITMQ_PRIVATE_URL")), Truthy(EnvGet(env, "MINIO_PRIVATE_ENDPOINT")),
             Truthy(EnvGet(env, "MINIO_GLOBAL_ACCESS_KEY")))
  }

  /** The JSON body the endpoint sends. */
  datatype HealthBody = HealthBody(timestamp: string, status: OverallStatus, environment: EnvFlags,
                                   supabase: Check, rabbitmq: Check, minio: Check)

  /** The `results` object the handler fills in as the probes complete. */
  class HealthResults {
    var timestamp: string
    var status: OverallStatus
    var environment: EnvFlags
    var supabase: Check
    var rabbitmq: Check
    var minio: Check

    constructor (timestamp: string, environment: EnvFlags)
      ensures this.timestamp == timestamp && this.environment == environment
      ensures status == Checking && supabase == PendingCheck && rabbitmq == PendingCheck && minio == PendingCheck
    {
      this.timestamp := timestamp;
      this.environment := environment;
      status := Checking;
      supabase := PendingCheck;
      rabbitmq := PendingCheck;
      minio := PendingCheck;
    }

    /** `Object.values(results.checks)` */
    function Checks(): seq<Check>
      reads this
    {
      [supabase, rabbitmq, minio]
    }

    function Body(): HealthBody
      reads this
    {
      HealthBody(timestamp, status, environment, supabase, rabbitmq, minio)
    }
  }

  datatype HealthResponse = PreflightOk | Report(httpStatus: nat, body: HealthBody)

  /** The handler. `now` is the ISO time stamp taken when the request arrives. */
  method Handle(httpMethod: string, env: map<string, string>, now: string,
                supabaseProbe: SupabaseProbe, rabbitProbe: RabbitProbe, minioProbe: MinioProbe)
    returns (resp: HealthResponse)
    ensures httpMethod == "OPTIONS" ==> resp == PreflightOk
    ensures httpMethod != "OPTIONS" ==>
              && resp.Report?
              && resp.body.timestamp == now
              && resp.body.environment == EnvFlagsOf(env)
              && resp.body.supabase == SupabaseCheck(env, supabaseProbe)
              && resp.body.rabbitmq == RabbitCheck(env, rabbitProbe)
              && resp.body.minio == MinioCheck(env, minioProbe)
    ensures httpMethod != "OPTIONS" ==>
              var failed := resp.body.supabase.status == Failed || resp.body.rabbitmq.status == Failed
                            || resp.body.minio.status == Failed;
              && (resp.body.status == Unhealthy <==> failed)
              && (resp.body.status == Healthy <==> !failed)
              && (resp.httpStatus == 503 <==> failed)
              && (resp.httpStatus == 200 <==> !failed)
  {
    if httpMethod == "OPTIONS" {
      return PreflightOk;
    }
    var supabase := SupabaseCheck(env, supabaseProbe);
    var rabbitmq := RabbitCheck(env, rabbitProbe);
    var minio := MinioCheck(env, minioProbe);
    resp := Gather(now, EnvFlagsOf(env), supabase, rabbitmq, minio);
  }

  /** The part of the handler after the probes: the `results` object is filled in, the overall
      status is derived from the three checks, and the report is sent with 503 on any failure. */
  method Gather(now: string, flags: EnvFlags, supabase: Check, rabbitmq: Check, minio: Check)
    returns (resp: HealthResponse)
    ensures resp.Report?
    ensures resp.body.timestamp == now && resp.body.environment == flags
    ensures resp.body.supabase == supabase && resp.body.rabbitmq == rabbitmq && resp.body.minio == minio
    ensures var failed := supabase.status == Failed || rabbitmq.status == Failed || minio.status == Failed;
            && (resp.body.status == Unhealthy <==> failed)
            && (resp.body.status == Healthy <==> !failed)
            && (resp.httpStatus == 503 <==> failed)
            && (resp.httpStatus == 200 <==> !failed)
  {
    var results := new HealthResults(now, flags);
    results.supabase := supabase;
    results.rabbitmq := rabbitmq;
    results.minio := minio;
    var hasFailures := HasFailures(results.Checks());
    HasFailuresOfThree(supabase, rabbitmq, minio);
    results.status := if hasFailures then Unhealthy else Healthy;
    resp := Report(if hasFailures then 503 else 200, results.Body());
  }
}
