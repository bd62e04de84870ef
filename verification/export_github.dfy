/** The GitHub export endpoint: create a public repository, then commit the posted files to
    it one at a time, stopping at the first failure. */
module ExportGitHub {
  import opened JsValues
  import opened Strings
  import opened GitHubApi

  /** The body fields the handler reads; `files` is `None` when it is absent or falsy. */
  datatype ExportRequest = ExportRequest(token: Option<string>, repoName: Option<string>,
                                         files: Option<seq<FileInput>>)

  /** The fields of the created repository the endpoint uses. */
  datatype Repo = Repo(ownerLogin: string, name: string, htmlUrl: string)

  /** A host call: the repository creation, or one file commit carrying the target path, the
      commit message and the file text (which goes out base64-encoded). */
  datatype GhCall =
    | CreateRepo(name: string)
    | PutContent(owner: string, repo: string, path: string, message: string, text: string)

  const MissingFieldsMessage: string := "Missing fields"

  /** What reading `.replace` of an absent path throws. */
  const UndefinedPathMessage: string := "Cannot read properties of undefined (reading 'replace')"

  predicate HasRequiredFields(req: ExportRequest) {
    Truthy(req.token) && Truthy(req.repoName) && req.files.Some?
  }

  /** The commit message for a normalised path. */
  function CommitMessage(path: string): (r: string)
    ensures StartsWith(r, "add ") && r[4..] == path
  {
    "add " + path
  }

  /** The text that is encoded and uploaded: an absent content reads as "undefined". */
  function UploadText(content: Option<string>): (r: string)
    ensures content.Some? ==> r == content.value
    ensures content.None? ==> r == "undefined"
  {
    if content.Some? then content.value else "undefined"
  }

  /** The commit of one file, whose path is present. */
  function PutFor(repo: Repo, f: FileInput): GhCall
    requires f.path.Some?
  {
    var path := StripLeadingSlashes(f.path.value);
    PutContent(repo.ownerLogin, repo.name, path, CommitMessage(path), UploadText(f.content))
  }

  /** Each commit goes to the created repository, under the path with its leading slashes
      removed, with "add " and that path as its message, and carries the file's text. */
  lemma PutForTargets(repo: Repo, f: FileInput)
    requires f.path.Some?
    ensures var c := PutFor(repo, f);
      && c.owner == repo.ownerLogin && c.repo == repo.name
      && c.path == StripLeadingSlashes(f.path.value) && (c.path == [] || c.path[0] != '/')
      && StartsWith(c.message, "add ") && c.message[4..] == c.path
      && (f.content.Some? ==> c.text == f.content.value)
  {
  }

  /** The file is committed: it has a path and its PUT got a 2xx reply. */
  predicate Uploaded(f: FileInput, reply: HostReply<()>) {
    f.path.Some? && Gh(reply).Ok?
  }

  /** What the failure of one file throws. */
  function FailureMessage(f: FileInput, reply: HostReply<()>): string
    requires !Uploaded(f, reply)
  {
    if f.path.None? then UndefinedPathMessage else Gh(reply).message
  }

  /** The upload loop as a specification, the reply to the `i`-th file's PUT being `put(i)`:
      the outcome and the calls made. */
  function UploadEach(repo: Repo, files: seq<FileInput>, put: nat -> HostReply<()>): (Result<()>, seq<GhCall>) {
    if files == [] then (Ok(()), [])
    else
      var n := |files| - 1;
      var (done, calls) := UploadEach(repo, files[..n], put);
      if done.Thrown? then (done, calls)
      else if files[n].path.None? then (Thrown(UndefinedPathMessage), calls)
      else (if Gh(put(n)).Ok? then Ok(()) else Thrown(Gh(put(n)).message), calls + [PutFor(repo, files[n])])
  }

  /** The index of the first file that is not committed, or the number of files. */
  function FirstFailure(files: seq<FileInput>, put: nat -> HostReply<()>): (k: nat)
    ensures k <= |files|
    ensures forall j :: 0 <= j < k ==> Uploaded(files[j], put(j))
    ensures k < |files| ==> !Uploaded(files[k], put(k))
  {
    if files == [] then 0
    else
      var n := |files| - 1;
      var k := FirstFailure(files[..n], put);
      if k < n then k else if Uploaded(files[n], put(n)) then n + 1 else n
  }

  /** The loop succeeds exactly when every file is committed, and otherwise throws what the
      first file that is not committed throws. */
  lemma {:induction false} UploadOutcome(repo: Repo, files: seq<FileInput>, put: nat -> HostReply<()>)
    ensures var r := UploadEach(repo, files, put).0;
      var k := FirstFailure(files, put);
      && (r.Ok? <==> k == |files|)
      && (r.Thrown? ==> r.message == FailureMessage(files[k], put(k)))
  {
    if files != [] {
      var n := |files| - 1;
      var init := files[..n];
      UploadOutcome(repo, init, put);
      var k := FirstFailure(init, put);
      if k < n {
        assert init[k] == files[k];
      }
    }
  }

  /** The loop commits the files in input order, one PUT per file, up to and including the
      first file that fails (a file without a path fails before its PUT). */
  lemma {:induction false} UploadCalls(repo: Repo, files: seq<FileInput>, put: nat -> HostReply<()>)
    ensures var calls := UploadEach(repo, files, put).1;
      var k := FirstFailure(files, put);
      && |calls| == (if k < |files| && files[k].path.Some? then k + 1 else k)
      && (forall j :: 0 <= j < |calls| ==> files[j].path.Some? && calls[j] == PutFor(repo, files[j]))
  {
    if files != [] {
      var n := |files| - 1;
      var init := files[..n];
      UploadCalls(repo, init, put);
      UploadOutcome(repo, init, put);
      var k := FirstFailure(init, put);
      if k < n {
        assert init[k] == files[k];
      }
      assert forall j :: 0 <= j < n ==> init[j] == files[j];
    }
  }

  /** Once a commit has failed, no later file is sent and the outcome stays. */
  lemma {:induction false} UploadFailureIsFinal(repo: Repo, files: seq<FileInput>, put: nat -> HostReply<()>, k: nat)
    requires k <= |files|
    requires UploadEach(repo, files[..k], put).0.Thrown?
    ensures UploadEach(repo, files, put) == UploadEach(repo, files[..k], put)
    decreases |files| - k
  {
    if k < |files| {
      assert files[..k + 1][..k] == files[..k];
      UploadFailureIsFinal(repo, files, put, k + 1);
    } else {
      assert files[..k] == files;
    }
  }

  /** The `for` loop of the handler: one commit after another, stopping at the first that throws. */
  method UploadFiles(repo: Repo, files: seq<FileInput>, put: nat -> HostReply<()>)
    returns (r: Result<()>, calls: seq<GhCall>)
    ensures (r, calls) == UploadEach(repo, files, put)
  {
    calls := [];
    var i := 0;
    assert files[..0] == [];
    while i < |files|
      invariant 0 <= i <= |files|
      invariant UploadEach(repo, files[..i], put) == (Ok(()), calls)
    {
      var f := files[i];
      assert files[..i + 1][..i] == files[..i] && files[..i + 1][i] == f;
      if f.path.None? {
        r := Thrown(UndefinedPathMessage);
        assert UploadEach(repo, files[..i + 1], put) == (r, calls);
        UploadFailureIsFinal(repo, files, put, i + 1);
        return;
      }
      calls := calls + [PutFor(repo, f)];
      var reply := Gh(put(i));
      if reply.Thrown? {
        r := Thrown(reply.message);
        assert UploadEach(repo, files[..i + 1], put) == (r, calls);
        UploadFailureIsFinal(repo, files, put, i + 1);
        return;
      }
      i := i + 1;
    }
    assert files[..i] == files;
    r := Ok(());
  }

  /** A pre-flight answer, `{html_url}`, or `500 {error}`. */
  datatype ExportResponse = Preflight | Created(htmlUrl: string) | ExportError(message: string)

  /** The handler. `create` is the host's answer to the repository creation and `put(i)` its
      answer to the `i`-th file's commit. */
  method Handle(httpMethod: string, body: Result<ExportRequest>, create: HostReply<Repo>,
                put: nat -> HostReply<()>)
    returns (resp: ExportResponse, calls: seq<GhCall>)
    ensures httpMethod == "OPTIONS" ==> resp == Preflight && calls == []
    ensures httpMethod != "OPTIONS" && body.Thrown? ==> resp == ExportError(body.message) && calls == []
    ensures httpMethod != "OPTIONS" && body.Ok? && !HasRequiredFields(body.value)
            ==> resp == ExportError(MissingFieldsMessage) && calls == []
    ensures httpMethod != "OPTIONS" && body.Ok? && HasRequiredFields(body.value) ==>
              var first := CreateRepo(body.value.repoName.value);
              && (Gh(create).Thrown? ==> resp == ExportError(Gh(create).message) && calls == [first])
              && (Gh(create).Ok? ==>
                    var (r, puts) := UploadEach(Gh(create).value, body.value.files.value, put);
                    && calls == [first] + puts
                    && resp == (if r.Ok? then Created(Gh(create).value.htmlUrl) else ExportError(r.message)))
  {
    if httpMethod == "OPTIONS" {
      return Preflight, [];
    }
    if body.Thrown? {
      return ExportError(body.message), [];
    }
    if !HasRequiredFields(body.value) {
      return ExportError(MissingFieldsMessage), [];
    }
    calls := [CreateRepo(body.value.repoName.value)];
    var created := Gh(create);
    if created.Thrown? {
      return ExportError(created.message), calls;
    }
    var repo := created.value;
    var r, puts := UploadFiles(repo, body.value.files.value, put);
    calls := calls + puts;
    if r.Thrown? {
      return ExportError(r.message), calls;
    }
    resp := Created(repo.htmlUrl);
  }
}
