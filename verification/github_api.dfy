/** The `gh` helper that the conversion endpoint and the repository exporter both define:
    one authenticated REST call that throws on any status outside 200..299. */
module GitHubApi {
  import opened JsValues
  import Numbers

  /** What the host answers to one call: a status with the decoded JSON body, or a failure
      of the request itself (including a body that is not JSON). */
  datatype HostReply<+T> = Response(status: nat, body: T) | NetworkFailure(message: string)

  /** `Response.ok` */
  predicate IsOk(status: nat) {
    200 <= status <= 299
  }

  function StatusError(status: nat): string {
    "GitHub API error " + Numbers.NatToDecimal(status)
  }

  /** `gh(token, path, init)`: the body of a 2xx reply, otherwise an exception. */
  function Gh<T>(reply: HostReply<T>): (r: Result<T>)
    ensures r.Ok? <==> reply.Response? && IsOk(reply.status)
    ensures r.Ok? ==> r.value == reply.body
    ensures reply.Response? && !IsOk(reply.status) ==> r == Thrown(StatusError(reply.status))
    ensures reply.NetworkFailure? ==> r == Thrown(reply.message)
  {
    match reply
    case NetworkFailure(m) => Thrown(m)
    case Response(status, body) => if IsOk(status) then Ok(body) else Thrown(StatusError(status))
  }
}
