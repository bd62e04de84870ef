/** The conversion endpoint end to end: fetching the selected files from the origin
    repository, batching them, converting batch by batch with the fallback, and the request
    handler around it. */
module Convert {
  import opened JsValues
  import opened GitHubApi
  import opened Selection
  import opened Batching
  import opened ConversionClient

  /** The origin repository host, as the answers it gives: to the branch lookup, to the
      recursive tree listing (`None` when the listing has no `tree` array), and to the content
      request for each path, whose body is the base64 text after decoding (or the exception
      `atob` throws). */
  datatype Host = Host(
    branch: HostReply<()>,
    tree: HostReply<Option<seq<TreeNode>>>,
    content: string -> HostReply<Result<string>>)

  /** An outbound call, in the order the endpoint makes them. */
  datatype Call = BranchLookup | TreeListing | ContentFetch(path: string) | Completion(batch: seq<SourceFile>)

  /** One content request and the decoding of its body. */
  function ReadFile(host: Host, path: string): Result<string> {
    match Gh(host.content(path))
    case Thrown(m) => Thrown(m)
    case Ok(decoded) => decoded
  }

  /** The content loop of `fetchFiles` over the selected entries, as a specification: the
      results and the calls made, stopping at the first failure. */
  function FetchEach(host: Host, selected: seq<TreeNode>): (Result<seq<SourceFile>>, seq<Call>) {
    if selected == [] then (Ok([]), [])
    else
      var (done, calls) := FetchEach(host, selected[..|selected| - 1]);
      var p := selected[|selected| - 1].path;
      if done.Thrown? then (done, calls)
      else match ReadFile(host, p)
        case Thrown(m) => (Thrown(m), calls + [ContentFetch(p)])
        case Ok(text) => (Ok(done.value + [SourceFile(p, text)]), calls + [ContentFetch(p)])
  }

  /** `fetchFiles(token, owner, repo, branch)` as a specification: branch lookup, tree
      listing, selection, then the content loop. */
  function FetchRun(host: Host): (Result<seq<SourceFile>>, seq<Call>) {
    match Gh(host.branch)
    case Thrown(m) => (Thrown(m), [BranchLookup])
    case Ok(_) =>
      match Gh(host.tree)
      case Thrown(m) => (Thrown(m), [BranchLookup, TreeListing])
      case Ok(tree) =>
        var (r, calls) := FetchEach(host, SelectFiles(tree));
        (r, [BranchLookup, TreeListing] + calls)
  }

  /** The content loop succeeds exactly when every selected file can be read, and it then
      returns one file per entry, same path, same order. */
  lemma {:induction false} FetchEachResult(host: Host, selected: seq<TreeNode>)
    ensures var r := FetchEach(host, selected).0;
      && (r.Ok? <==> forall j :: 0 <= j < |selected| ==> ReadFile(host, selected[j].path).Ok?)
      && (r.Ok? ==> |r.value| == |selected|)
      && (r.Ok? ==> forall j :: 0 <= j < |selected| ==>
            r.value[j] == SourceFile(selected[j].path, ReadFile(host, selected[j].path).value))
  {
    if selected != [] {
      var init := selected[..|selected| - 1];
      FetchEachResult(host, init);
      assert forall j :: 0 <= j < |init| ==> init[j] == selected[j];
    }
  }

  /** The content loop requests the entries in order, all of them when it succeeds, and stops
      right after the first one that fails, whose failure it passes on. */
  lemma {:induction false} FetchEachCalls(host: Host, selected: seq<TreeNode>)
    ensures var (r, calls) := FetchEach(host, selected);
      && (r.Ok? ==> |calls| == |selected|)
      && 1 <= |calls| + (if r.Ok? then 1 else 0) && |calls| <= |selected|
      && (forall j :: 0 <= j < |calls| ==> calls[j] == ContentFetch(selected[j].path))
      && (r.Thrown? ==> forall j :: 0 <= j < |calls| - 1 ==> ReadFile(host, selected[j].path).Ok?)
      && (r.Thrown? ==> ReadFile(host, selected[|calls| - 1].path) == Thrown(r.message))
  {
    if selected != [] {
      var init := selected[..|selected| - 1];
      FetchEachCalls(host, init);
      FetchEachResult(host, init);
      assert forall j :: 0 <= j < |init| ==> init[j] == selected[j];
    }
  }

  /** Once a content request has failed, no later entry is requested and the outcome stays. */
  lemma {:induction false} FailureIsFinal(host: Host, selected: seq<TreeNode>, k: nat)
    requires k <= |selected|
    requires FetchEach(host, selected[..k]).0.Thrown?
    ensures FetchEach(host, selected) == FetchEach(host, selected[..k])
    decreases |selected| - k
  {
    if k < |selected| {
      assert selected[..k + 1][..k] == selected[..k];
      FailureIsFinal(host, selected, k + 1);
    } else {
      assert selected[..k] == selected;
    }
  }

  /** `fetchFiles`: branch lookup, tree listing, selection, then the content loop. */
  method FetchFiles(host: Host) returns (r: Result<seq<SourceFile>>, calls: seq<Call>)
    ensures (r, calls) == FetchRun(host)
  {
    var branch := Gh(host.branch);
    if branch.Thrown? {
      return Thrown(branch.message), [BranchLookup];
    }
    var tree := Gh(host.tree);
    if tree.Thrown? {
      return Thrown(tree.message), [BranchLookup, TreeListing];
    }
    var fetched;
    r, fetched := FetchContents(host, SelectFiles(tree.value));
    calls := [BranchLookup, TreeListing] + fetched;
  }

  /** The loop of `fetchFiles` that requests each selected file in turn. */
  method FetchContents(host: Host, files: seq<TreeNode>) returns (r: Result<seq<SourceFile>>, calls: seq<Call>)
    ensures (r, calls) == FetchEach(host, files)
  {
    var results: seq<SourceFile> := [];
    calls := [];
    var i := 0;
    assert files[..0] == [];
    while i < |files|
      invariant 0 <= i <= |files|
      invariant FetchEach(host, files[..i]) == (Ok(results), calls)
    {
      assert files[..i + 1][..i] == files[..i] && files[..i + 1][i] == files[i];
      var p := files[i].path;
      calls := calls + [ContentFetch(p)];
      var content := ReadFile(host, p);
      if content.Thrown? {
        r := Thrown(content.message);
        assert FetchEach(host, files[..i + 1]) == (r, calls);
        FailureIsFinal(host, files, i + 1);
        return;
      }
      results := results + [SourceFile(p, content.value)];
      i := i + 1;
    }
    assert files[..i] == files;
    r := Ok(results);
  }

  /** The outcome of every batch, the reply to the `i`-th request being `backend(i)`. */
  function Outcomes(batches: seq<seq<SourceFile>>, keyPresent: bool, backend: nat -> Reply,
                    parse: string -> Result<FilesField>): (r: seq<BatchOutcome>)
    ensures |r| == |batches|
  {
    seq(|batches|, i requires 0 <= i < |batches| => ConvertBatch(keyPresent, backend(i), parse))
  }

  /** Without the key every batch's conversion throws, whatever the backend would answer. */
  lemma NoKeyThrowsEverywhere(batches: seq<seq<SourceFile>>, backend: nat -> Reply,
                              parse: string -> Result<FilesField>)
    ensures forall i :: 0 <= i < |batches| ==> Outcomes(batches, false, backend, parse)[i] == Threw(MissingKeyMessage)
  {
    var outcomes := Outcomes(batches, false, backend, parse);
    forall i | 0 <= i < |batches|
      ensures outcomes[i] == Threw(MissingKeyMessage)
    {
      assert outcomes[i] == ConvertBatch(false, backend(i), parse);
    }
  }

  /** `converted`: each batch's contribution, in batch order. */
  function Merged(batches: seq<seq<SourceFile>>, outcomes: seq<BatchOutcome>): seq<SourceFile>
    requires |outcomes| == |batches|
  {
    Flatten(seq(|batches|, i requires 0 <= i < |batches| => Contribution(batches[i], outcomes[i])))
  }

  /** The merge keeps batch order: the result is everything before a batch, then exactly that
      batch's contribution, then everything after it. */
  lemma MergedAround(batches: seq<seq<SourceFile>>, outcomes: seq<BatchOutcome>, i: nat)
    requires |outcomes| == |batches| && i < |batches|
    ensures Merged(batches, outcomes)
         == Merged(batches[..i], outcomes[..i]) + Contribution(batches[i], outcomes[i])
            + Merged(batches[i + 1..], outcomes[i + 1..])
  {
    var all := seq(|batches|, k requires 0 <= k < |batches| => Contribution(batches[k], outcomes[k]));
    var before := seq(i, k requires 0 <= k < i => Contribution(batches[..i][k], outcomes[..i][k]));
    var after := seq(|batches| - i - 1, k requires 0 <= k < |batches| - i - 1 =>
                     Contribution(batches[i + 1..][k], outcomes[i + 1..][k]));
    assert all == before + [all[i]] + after;
    FlattenAppend(before + [all[i]], after);
    FlattenAppend(before, [all[i]]);
    assert [all[i]][1..] == [];
  }

  /** When every conversion throws, the result is exactly the fetched files. */
  lemma FallbackIsExact(batches: seq<seq<SourceFile>>, outcomes: seq<BatchOutcome>)
    requires |outcomes| == |batches|
    requires forall i :: 0 <= i < |batches| ==> outcomes[i].Threw?
    ensures Merged(batches, outcomes) == Flatten(batches)
  {
    var all := seq(|batches|, k requires 0 <= k < |batches| => Contribution(batches[k], outcomes[k]));
    assert all == batches;
  }

  /** `for (const b of batches) { … }`: converts each batch in turn and appends its
      contribution; a request is made for each batch only when the key is present. */
  method MergeBatches(batches: seq<seq<SourceFile>>, keyPresent: bool, backend: nat -> Reply,
                      parse: string -> Result<FilesField>)
    returns (converted: seq<SourceFile>, calls: seq<Call>)
    ensures converted == Merged(batches, Outcomes(batches, keyPresent, backend, parse))
    ensures calls == if keyPresent then Completions(batches) else []
  {
    ghost var outcomes := Outcomes(batches, keyPresent, backend, parse);
    converted := [];
    calls := [];
    for i := 0 to |batches|
      invariant converted == Merged(batches[..i], outcomes[..i])
      invariant calls == if keyPresent then Completions(batches[..i]) else []
    {
      if keyPresent {
        assert Completions(batches[..i + 1]) == Completions(batches[..i]) + [Completion(batches[i])];
        calls := calls + [Completion(batches[i])];
      }
      var out := ConvertBatch(keyPresent, backend(i), parse);
      match out {
        case Threw(_) =>
          converted := converted + batches[i];
        case Returned(FilesArray(items)) =>
          converted := converted + items;
        case Returned(NotAnArray) =>
      }
      MergedAround(batches[..i + 1], outcomes[..i + 1], i);
      assert batches[..i + 1][..i] == batches[..i] && outcomes[..i + 1][..i] == outcomes[..i];
      assert Merged(batches[..i + 1][i + 1..], outcomes[..i + 1][i + 1..]) == [];
    }
    assert batches[..|batches|] == batches && outcomes[..|batches|] == outcomes;
  }

  /** One completion request per batch, in batch order. */
  function Completions(batches: seq<seq<SourceFile>>): (r: seq<Call>)
    ensures |r| == |batches| && forall i :: 0 <= i < |batches| ==> r[i] == Completion(batches[i])
  {
    seq(|batches|, i requires 0 <= i < |batches| => Completion(batches[i]))
  }

  /** The fields of the request body the handler checks. `target` is handed to the model
      unchanged; its effect is part of the replies. */
  datatype ConvertRequest = ConvertRequest(token: Option<string>, owner: Option<string>,
                                           repo: Option<string>, branch: Option<string>)

  /** What the endpoint answers: an empty pre-flight reply, `200 {files}`, or `500 {error}`. */
  datatype ConvertResponse = Preflight | FilesResponse(files: seq<SourceFile>) | ErrorResponse(message: string)

  /** The status the handler answers with: 500 from the `catch`, 200 otherwise. */
  function HttpStatus(resp: ConvertResponse): nat {
    if resp.ErrorResponse? then 500 else 200
  }

  const MissingFieldsMessage: string := "Missing required fields"

  predicate HasRequiredFields(req: ConvertRequest) {
    Truthy(req.token) && Truthy(req.owner) && Truthy(req.repo) && Truthy(req.branch)
  }

  /** The fetch stage never asks the model anything. */
  lemma FetchMakesNoCompletion(host: Host)
    ensures forall c :: c in FetchRun(host).1 ==> !c.Completion?
  {
    if Gh(host.branch).Ok? && Gh(host.tree).Ok? {
      var sel := SelectFiles(Gh(host.tree).value);
      FetchEachCalls(host, sel);
    }
  }

  /** The request handler. `body` is the outcome of `req.json()`; `keyPresent` says whether
      `OPENROUTER_API_KEY` is set and not empty. */
  method Handle(httpMethod: string, body: Result<ConvertRequest>, host: Host, keyPresent: bool,
                backend: nat -> Reply, parse: string -> Result<FilesField>)
    returns (resp: ConvertResponse, calls: seq<Call>)
    ensures httpMethod == "OPTIONS" ==> resp == Preflight && calls == []
    ensures httpMethod != "OPTIONS" && body.Thrown? ==> resp == ErrorResponse(body.message) && calls == []
    ensures httpMethod != "OPTIONS" && body.Ok? && !HasRequiredFields(body.value)
            ==> resp == ErrorResponse(MissingFieldsMessage) && calls == []
    ensures httpMethod != "OPTIONS" && body.Ok? && HasRequiredFields(body.value) && FetchRun(host).0.Thrown?
            ==> resp == ErrorResponse(FetchRun(host).0.message) && calls == FetchRun(host).1
                && forall c :: c in calls ==> !c.Completion?
    ensures httpMethod != "OPTIONS" && body.Ok? && HasRequiredFields(body.value) && FetchRun(host).0.Ok?
            ==> var files := FetchRun(host).0.value;
                resp.FilesResponse? &&
                exists batches :: IsGreedyPartition(files, batches)
                  && resp.files == Merged(batches, Outcomes(batches, keyPresent, backend, parse))
                  && calls == FetchRun(host).1 + (if keyPresent then Completions(batches) else [])
    ensures httpMethod != "OPTIONS" ==>
              (HttpStatus(resp) == 500 <==> body.Thrown? || !HasRequiredFields(body.value) || FetchRun(host).0.Thrown?)
    ensures httpMethod != "OPTIONS" && body.Ok? && HasRequiredFields(body.value) && FetchRun(host).0.Ok? && !keyPresent
            ==> resp == FilesResponse(FetchRun(host).0.value)
  {
    if httpMethod == "OPTIONS" {
      return Preflight, [];
    }
    if body.Thrown? {
      return ErrorResponse(body.message), [];
    }
    if !HasRequiredFields(body.value) {
      return ErrorResponse(MissingFieldsMessage), [];
    }
    var fetched, fetchCalls := FetchFiles(host);
    if fetched.Thrown? {
      FetchMakesNoCompletion(host);
      return ErrorResponse(fetched.message), fetchCalls;
    }
    var batches := MakeBatches(fetched.value);
    var converted, completions := MergeBatches(batches, keyPresent, backend, parse);
    if !keyPresent {
      NoKeyThrowsEverywhere(batches, backend, parse);
      FallbackIsExact(batches, Outcomes(batches, keyPresent, backend, parse));
    }
    resp := FilesResponse(converted);
    calls := fetchCalls + completions;
  }
}
