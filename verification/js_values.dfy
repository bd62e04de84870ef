/** Values as the edge functions see them: fields of a parsed JSON body, environment
    variables, and the outcome of a computation that may throw. */
module JsValues {

  datatype Option<+T> = None | Some(value: T)

  /** A JavaScript computation either returns a value or throws an `Error` carrying a message. */
  datatype Result<+T> = Ok(value: T) | Thrown(message: string)

  /** A string-valued field or variable is truthy when it is present and not empty. */
  predicate Truthy(s: Option<string>) {
    s.Some? && s.value != ""
  }

  /** JavaScript `s || fallback` for a value that is a string or absent. */
  function OrElse(s: Option<string>, fallback: string): string {
    if Truthy(s) then s.value else fallback
  }

  /** `Deno.env.get(name)` over an environment given as a map. */
  function EnvGet(env: map<string, string>, name: string): Option<string> {
    if name in env then Some(env[name]) else None
  }

  /** The `{path, content}` record: the one file shape every endpoint consumes or produces. */
  datatype SourceFile = SourceFile(path: string, content: string)

  /** A file record as a request body carries it: either field may be absent. */
  datatype FileInput = FileInput(path: Option<string>, content: Option<string>)
}
