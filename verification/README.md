# Edge functions of the stack converter, modelled in Dafny

This project models the Supabase edge functions behind the stack converter. It covers
these five:

- `convert` reads the source files of a GitHub repository branch and groups them into
  size-bounded batches. It sends each batch to a chat-completion model for conversion to
  another stack, then merges what comes back. A batch whose conversion throws keeps its
  original files.
- `main` is the edge runtime's entry point. It routes a request path to a handler and
  chooses the address to listen on.
- `export-zip` turns the posted files into archive entries.
- `export-github` creates a repository and commits the posted files to it one by one.
- `health-check` probes Supabase, RabbitMQ and MinIO and reports an overall verdict.

Everything outside the process is a parameter: the GitHub host, the model backend,
`JSON.parse`, the environment and the three probes. Each is given as the answers it returns
or the message it throws. Calls that matter for ordering are recorded as a trace of calls
(`Convert.Call`, `ExportGitHub.GhCall`). That lets the contracts say "before any fetch",
"no model request" and "one PUT per file, in order".

Modules, by file:

| file | module | source |
|---|---|---|
| `js_values.dfy` | `JsValues` | JavaScript values: optional fields, truthiness, `||`, thrown errors |
| `strings.dfy` | `Strings` | `startsWith`, `endsWith`, `includes`, `replace(/^\/+/, "")`, ASCII case folding |
| `numbers.dfy` | `Numbers` | `${n}` for integers, global `parseInt` |
| `github_api.dfy` | `GitHubApi` | the `gh` helper shared by `convert` and `export-github` |
| `convert_selection.dfy` | `Selection` | `isCodeFile` and the filter/slice in `fetchFiles` |
| `convert_batching.dfy` | `Batching` | the batching loop of the `convert` handler |
| `convert_client.dfy` | `ConversionClient` | `convertBatch`: key check, reply extraction, parse |
| `convert_pipeline.dfy` | `Convert` | `fetchFiles`, the merge loop, the `convert` handler |
| `router.dfy` | `Router` | `main/index.ts` |
| `export_zip.dfy` | `ExportZip` | `export-zip/index.ts` |
| `export_github.dfy` | `ExportGitHub` | `export-github/index.ts` |
| `health_check.dfy` | `HealthCheck` | `health-check/index.ts` |

Where the code does not do what the product's documented design says, the model follows the
code:

- **A missing `OPENROUTER_API_KEY` is not fatal.** The key is checked inside `convertBatch`,
  once per batch (`convert/index.ts:39`), and the throw is caught by the merge loop. So
  with no key the endpoint answers 200 with the original files unchanged. No model request
  is made. See `Convert.Handle` and `Convert.FallbackIsExact`.
- **A reply with no JSON object makes the batch vanish.** A reply that is prose only, empty
  or absent yields `{ files: [] }` and contributes nothing. No fallback happens. The same
  holds for a reply with anything, even a single space, after its closing brace. See
  `ConversionClient.ReplyWithoutObjectDropsBatch`.
- **An object without a `files` array is dropped too.** `parsed.files` is then not an
  array, so the batch contributes nothing (`ConversionClient.ContributionOfEachCase`).

## Model

| member | source | states |
|---|---|---|
| `GitHubApi.Gh` | supabase/functions/convert/index.ts:11-17 | the call succeeds exactly on a 2xx status and then yields the reply body; any other status throws "GitHub API error <status>"; a failed request throws its own message (the same helper is `export-github/index.ts:9-21`) |
| `Numbers.NatToDecimal` | supabase/functions/convert/index.ts:15 | the interpolated status is a non-empty run of decimal digits with no leading zero |
| `Numbers.ParseIntReadsDecimal` | supabase/functions/main/index.ts:7 | `parseInt` reads back the decimal text of any non-negative integer, whatever non-digit text follows it, except that a lone `0` followed by `x` or `X` starts a hexadecimal number |
| `Numbers.ParseIntPlainDecimal` | supabase/functions/main/index.ts:7 | a text that starts with a digit, and not with `0x`, is read as the value of its leading decimal digits |
| `Selection.IsCodeFileIffCodeExtension` | supabase/functions/convert/index.ts:19-21 | the extension pattern accepts a path exactly when the text after its last '.', folded to lower case, is one of the 18 listed extensions |
| `Selection.CodeExtensionIsCodeFile` | supabase/functions/convert/index.ts:19-21 | a path whose last extension is listed is accepted |
| `Selection.CodeFileHasCodeExtension` | supabase/functions/convert/index.ts:19-21 | an accepted path has a listed last extension |
| `Selection.DotBeforeExtension` | supabase/functions/convert/index.ts:20 | the '.' in front of a matched extension is the path's last '.' |
| `Selection.MatchedExtensionIsLast` | supabase/functions/convert/index.ts:20 | the extension the pattern matched is exactly the text after the path's last '.', folded to lower case |
| `Selection.IsCodeFileIgnoresCase` | supabase/functions/convert/index.ts:20 | the `i` flag: a path is accepted exactly when its lower-case form is |
| `Selection.UpperCaseExtensionIsCodeFile` | supabase/functions/convert/index.ts:20 | `src/App.TSX` is accepted |
| `Selection.MarkdownIsNotCodeFile` | supabase/functions/convert/index.ts:20 | `README.md` is rejected |
| `Selection.BackupCopyIsNotCodeFile` | supabase/functions/convert/index.ts:20 | the pattern is anchored at the end: `main.ts.orig` is rejected |
| `Selection.NoExtensionIsNotCodeFile` | supabase/functions/convert/index.ts:20 | every path without a '.' is rejected |
| `Selection.Candidates` | supabase/functions/convert/index.ts:27 | the filter keeps exactly the blob nodes with a code-file path |
| `Selection.CandidatesAppend` | supabase/functions/convert/index.ts:27 | filtering distributes over concatenation, so tree order is kept |
| `Selection.SelectFiles` | supabase/functions/convert/index.ts:27 | the selection is the first min(50, k) of the k candidates, in tree order; a listing without `tree` selects nothing |
| `Selection.SelectionIgnoresLaterNodes` | supabase/functions/convert/index.ts:27 | once 50 candidates have been seen, later tree nodes change nothing |
| `Selection.SmallTreeSelectsAll` | supabase/functions/convert/index.ts:27 | below the cap every selectable node is selected |
| `Convert.FetchEachResult` | supabase/functions/convert/index.ts:29-35 | the content loop succeeds exactly when every selected file can be read; it then returns one file per selected entry, with the same path and in the same order |
| `Convert.FetchEachCalls` | supabase/functions/convert/index.ts:29-35 | the content requests go out in the order of the selection, one per entry when all succeed, and stop right after the first failure, whose message is thrown |
| `Convert.FetchContents` | supabase/functions/convert/index.ts:29-35 | the imperative content loop makes the requests and reaches the outcome that `FetchEach` specifies |
| `Convert.FailureIsFinal` | supabase/functions/convert/index.ts:30-34 | after a failed read no later entry is requested and the outcome stays |
| `Convert.FetchFiles` | supabase/functions/convert/index.ts:23-36 | the branch lookup comes first, then the tree listing, then the content loop over the selection; a failure of either lookup ends the run with its message; the outcome and the calls are those the specification `FetchRun` gives |
| `Convert.FetchMakesNoCompletion` | supabase/functions/convert/index.ts:23-36 | fetching never calls the model |
| `Batching.JsLength` | supabase/functions/convert/index.ts:80 | `content.length` counts UTF-16 units: between one and two per character |
| `Batching.MakeBatches` | supabase/functions/convert/index.ts:75-89 | the loop's batches lay end to end to give the fetched files; none is empty; each holds one file or fits 80 000; each was closed only because the next file would have pushed it past the limit; no files give no batches |
| `Batching.GreedyPartitionUnique` | supabase/functions/convert/index.ts:79-89 | these conditions determine the batches: two partitions meeting them are equal |
| `Batching.OversizedFileIsAlone` | supabase/functions/convert/index.ts:81-87 | a file longer than the limit sits alone in its batch |
| `Batching.BatchesWithinLimit` | supabase/functions/convert/index.ts:76-87 | when no file exceeds the limit, no batch does |
| `Batching.NoBatchesIffNoFiles` | supabase/functions/convert/index.ts:89 | a partition is empty exactly when the input is |
| `Batching.FirstBatchClosedForGood` | supabase/functions/convert/index.ts:81-85 | a first batch that leaves files over is too small to take the next file |
| `Batching.FirstBatchFits` | supabase/functions/convert/index.ts:81-87 | a first batch of two or more files, and each prefix of it, fits the limit |
| `Batching.FirstBatchesEqual` | supabase/functions/convert/index.ts:79-88 | two greedy partitions of the same files start with the same batch |
| `Batching.SmallFilesShareOneBatch` | supabase/functions/convert/index.ts:79-89 | two files of length 10 form the single batch [a, b] |
| `Batching.FileWithinSize` | supabase/functions/convert/index.ts:87 | a batch's size is at least the length of each of its files |
| `ConversionClient.FirstIndexOf` | supabase/functions/convert/index.ts:62 | the leftmost occurrence of a character, or none |
| `ConversionClient.ExtractObject` | supabase/functions/convert/index.ts:61-62 | the match exists exactly when the text ends with '}' and has a '{' before it; it runs from the first '{' to the end |
| `ConversionClient.TrailingSpaceDefeatsExtraction` | supabase/functions/convert/index.ts:62 | white space after the closing brace means no match |
| `ConversionClient.LeadingProseIsSkipped` | supabase/functions/convert/index.ts:62 | prose without '{' before an object is skipped, and the object is extracted whole |
| `ConversionClient.ContributionOfEachCase` | supabase/functions/convert/index.ts:38-99 | a missing key or a failed request falls back to the batch; no object gives nothing; a parse error falls back; a parsed array gives its items; a non-array gives nothing |
| `ConversionClient.ReplyWithoutObjectDropsBatch` | supabase/functions/convert/index.ts:61-63 | prose-only, absent, and trailing-space replies contribute nothing |
| `ConversionClient.MalformedObjectFallsBack` | supabase/functions/convert/index.ts:63-98 | an object that does not parse gives back the batch's originals |
| `Convert.Outcomes` | supabase/functions/convert/index.ts:92-94 | one conversion outcome per batch |
| `Convert.MergedAround` | supabase/functions/convert/index.ts:91-100 | the merged list is everything before a batch, then exactly that batch's contribution, then everything after it |
| `Convert.FallbackIsExact` | supabase/functions/convert/index.ts:96-98 | when every conversion throws, the result is exactly the fetched files |
| `Convert.NoKeyThrowsEverywhere` | supabase/functions/convert/index.ts:39 | with no key, the conversion of every batch throws "Missing OPENROUTER_API_KEY", whatever the backend and the parser would have done |
| `Convert.MergeBatches` | supabase/functions/convert/index.ts:91-100 | the loop returns the specification's merge and makes one model request per batch, in order, only when the key is set |
| `Convert.Handle` | supabase/functions/convert/index.ts:67-106 | OPTIONS answers without any call; an unreadable body or a missing token, owner, repo or branch gives 500 before any call; a failed fetch gives 500 with its message and no model request; otherwise the answer is the merge over the greedy batches of the fetched files, and all host calls come before the model requests; with no key the answer is the fetched files unchanged |
| `Router.RouteOf` | supabase/functions/main/index.ts:26-55 | `/` and `/main` go to the root answer; exactly `/health` and `/health-check` go to the health check; any path with prefix `/api-handler` or `/webhook-processor` goes to its echo; every other path is not found |
| `Router.PrefixesExclusive` | supabase/functions/main/index.ts:26-43 | no path passes two of the tests |
| `Router.Respond` | supabase/functions/main/index.ts:26-55 | the root answer is the plain text "Edge Runtime is running!"; the health paths delegate; the echo carries the path and method; the rest is 404 "Not Found" |
| `Router.HealthNeedsExactPath` | supabase/functions/main/index.ts:30 | `/healthz` and `/health/` are not found |
| `Router.PrefixRoutesAcceptAnySuffix` | supabase/functions/main/index.ts:33-52 | any continuation of the two prefixes is echoed with its path and method |
| `Router.Port` | supabase/functions/main/index.ts:7 | without a usable `PORT` the port is `parseInt("9000")` |
| `Router.PortDefaultsTo9000` | supabase/functions/main/index.ts:7 | an absent or empty `PORT` gives 9000 |
| `Router.PortReadsDecimal` | supabase/functions/main/index.ts:7 | a `PORT` that starts with a decimal number gives that number, whatever non-digit text follows (a lone `0` followed by `x` excepted) |
| `Router.NonNumericPortIsNaN` | supabase/functions/main/index.ts:7 | a `PORT` of "auto" gives `NaN` |
| `Router.Hostname` | supabase/functions/main/index.ts:9 | a set `HOST` is used, otherwise "0.0.0.0" |
| `Strings.Slashes` | supabase/functions/export-zip/index.ts:18 | a run of n slashes |
| `Strings.StripLeadingSlashes` | supabase/functions/export-zip/index.ts:18 | the result never starts with '/', is no longer than the input, and only slashes were removed |
| `Strings.StripLeavesSuffix` | supabase/functions/export-zip/index.ts:18 | the result is the end of the input |
| `Strings.StripKeepsUnslashed` | supabase/functions/export-zip/index.ts:18 | a path not starting with '/' is unchanged |
| `Strings.StripIdempotent` | supabase/functions/export-github/index.ts:35 | stripping twice is stripping once |
| `Strings.StripIgnoresSlashRun` | supabase/functions/export-zip/index.ts:18 | any number of leading slashes strip to the same path |
| `Strings.LowerSuffix` | supabase/functions/convert/index.ts:20 | folding the case of a path and then taking its end is the same as taking the end and folding it |
| `Strings.LowerIdempotent` | supabase/functions/convert/index.ts:20 | folding the case twice is folding it once |
| `ExportZip.EntryPath` | supabase/functions/export-zip/index.ts:18 | an entry name never starts with '/'; a missing or empty path becomes "file.txt"; a given path is stripped of its leading slashes |
| `ExportZip.EntryContent` | supabase/functions/export-zip/index.ts:19 | a missing content becomes "" and a present one is kept |
| `ExportZip.EntryPathIdempotent` | supabase/functions/export-zip/index.ts:18 | a normalised non-empty name submitted again is unchanged |
| `ExportZip.UnslashedPathKept` | supabase/functions/export-zip/index.ts:18 | a given path without a leading '/' is used as it is |
| `ExportZip.SlashOnlyPathIsEmpty` | supabase/functions/export-zip/index.ts:18 | a path of slashes only becomes "", not the default |
| `ExportZip.Archive.AddFile` | supabase/functions/export-zip/index.ts:19 | `zip.file` appends one entry to the archive |
| `ExportZip.Handle` | supabase/functions/export-zip/index.ts:9-33 | OPTIONS answers the pre-flight; an unreadable body gives 500 with its message; a `files` that is not an array gives 500 "No files provided"; otherwise there is exactly one entry per file, in input order, with the normalised name and content |
| `ExportGitHub.CommitMessage` | supabase/functions/export-github/index.ts:38 | the message is "add " followed by the path |
| `ExportGitHub.UploadText` | supabase/functions/export-github/index.ts:36 | a present content is uploaded as it is |
| `ExportGitHub.PutForTargets` | supabase/functions/export-github/index.ts:35-38 | each commit goes to the created repository's owner and name, under the stripped path, with "add <path>" as message, carrying the file's content |
| `ExportGitHub.FirstFailure` | supabase/functions/export-github/index.ts:34-39 | every file before the index is committed, and the file at it is not |
| `ExportGitHub.UploadOutcome` | supabase/functions/export-github/index.ts:19-39 | the upload succeeds exactly when every file is committed; otherwise it throws what the first failing file throws |
| `ExportGitHub.UploadCalls` | supabase/functions/export-github/index.ts:34-39 | one PUT per file, in input order, up to and including the first failing file; a file without a path fails before its PUT |
| `ExportGitHub.UploadFailureIsFinal` | supabase/functions/export-github/index.ts:34-39 | after a failure no later file is sent |
| `ExportGitHub.UploadFiles` | supabase/functions/export-github/index.ts:34-39 | the imperative loop makes the calls and reaches the outcome that `UploadEach` specifies |
| `ExportGitHub.Handle` | supabase/functions/export-github/index.ts:23-45 | OPTIONS answers without any call; an unreadable body or a missing token, repository name or file list gives 500 before any call; the repository is created first; a failed creation gives 500 with its message; then the uploads follow, and the answer is the new repository's `html_url`, or 500 with the upload's message |
| `HealthCheck.FormatSupabaseUrl` | supabase/functions/health-check/index.ts:46-54 | the result starts with "http" and ends with the input; a value that already starts with "http" is kept (so "httpbin.org" stays without a scheme); otherwise ".railway.internal" hosts get "http://" and every other value "https://", even one with another scheme such as "ftp://h" |
| `HealthCheck.FormatSupabaseUrlIdempotent` | supabase/functions/health-check/index.ts:46-54 | formatting twice is formatting once |
| `HealthCheck.SupabaseCheck` | supabase/functions/health-check/index.ts:37-95 | the check never stays pending; it fails exactly when a variable is missing or the client cannot be built; missing variables give the fixed message; success has no error and names the formatted URL |
| `HealthCheck.SupabaseStatusIgnoresQuery` | supabase/functions/health-check/index.ts:66-88 | the verdict does not depend on the verification query |
| `HealthCheck.RabbitCheck` | supabase/functions/health-check/index.ts:97-132 | never pending; a missing URL or an unparsable one fails with its message; it succeeds exactly when the connection to the host and port, with defaults for missing parts, succeeds; success has no error |
| `HealthCheck.RabbitDefaults` | supabase/functions/health-check/index.ts:107-123 | a URL without host and port reports "localhost:5672" |
| `HealthCheck.FormatMinioEndpoint` | supabase/functions/health-check/index.ts:146 | the result starts with "http" and ends with the input; a value that already starts with "http" is kept, and any other value gets "http://" in front, even one with another scheme |
| `HealthCheck.FormatMinioEndpointIdempotent` | supabase/functions/health-check/index.ts:146 | formatting twice is formatting once |
| `HealthCheck.MinioCheck` | supabase/functions/health-check/index.ts:134-174 | never pending; missing settings give the fixed message; it succeeds exactly when the bucket listing does; a failure carries the listing's message; success has no error |
| `HealthCheck.MissingBucketsCountAsZero` | supabase/functions/health-check/index.ts:165 | a listing without `Buckets` reports 0 buckets |
| `HealthCheck.HasFailures` | supabase/functions/health-check/index.ts:177-178 | true exactly when some check has status failed |
| `HealthCheck.HasFailuresOfThree` | supabase/functions/health-check/index.ts:177-178 | over the three checks: true exactly when one of them failed |
| `HealthCheck.HealthResults.constructor` | supabase/functions/health-check/index.ts:20-35 | the results start with status checking and all three checks pending |
| `HealthCheck.Gather` | supabase/functions/health-check/index.ts:176-189 | the report carries the time stamp, the environment flags and the three checks it is given; status unhealthy with 503 exactly when one of them failed, healthy with 200 otherwise |
| `HealthCheck.Handle` | supabase/functions/health-check/index.ts:9-190 | OPTIONS answers "ok" whatever the environment and probes; otherwise the report carries the timestamp, the environment flags and the three checks; status is unhealthy with 503 exactly when some check failed, healthy with 200 otherwise |

## Left out

- Network traffic is not modelled. This covers GitHub REST requests, the chat-completion
  request, and Supabase, AMQP and S3 connections. Each is a parameter giving the answer or
  the thrown message.
- Request bodies, headers and CORS header maps are not modelled; the only headers kept are
  the status codes.
- `JSON.parse` and `JSON.stringify` are out: parsing is a partial function given as a
  parameter, and the response bodies are datatypes.
- `atob`, `btoa`, `unescape`, `encodeURIComponent` and `URL` parsing are out. The contents
  a host returns are given already decoded. An upload records the text before encoding.
  RabbitMQ URL parsing is a parameter.
- Strings are sequences of Unicode scalar values. Lone surrogates cannot occur, so the
  `URIError` that `encodeURIComponent` would throw on them is not modelled.
- The prompt text (`convert/index.ts:40-41`), the model name and the temperature are out.
  Only their effect on the reply matters, and the reply is a parameter.
- The `target` field of the conversion request is out. It only reaches the prompt.
- `ExportZip.Archive.AddFile` records each `zip.file` call in order. JSZip's own handling
  of a repeated name (replacement) and of folder names, and the generated bytes, are not
  modelled.
- `ExportGitHub.Handle` takes `files` as absent or an array. A truthy `files` that is not
  an array (a string, an object) would be iterated or throw a `TypeError`. That case is
  not modelled.
- `ConversionClient.FilesField` takes the items of a parsed `files` array to be `{path, content}`
  records. `converted.push(...out)` (`convert/index.ts:95`) appends whatever JSON values the
  array holds (numbers, strings, objects without `path` or `content`), and the response sends
  them unchanged. So `Convert.Handle`'s `FilesResponse` promises a record shape the program
  does not check.
- Body fields of a non-string type are not modelled, and neither are `null` entries in
  `files` (which throw on property access).
- `Router.Port` models `parseInt` on integers only. The double-precision result for very
  long digit runs and `-0` are not modelled. What `serve` does with a `NaN` port is not
  modelled either.
- `Router.Respond` returns `Delegated` for the health paths instead of the health-check
  response. `main/index.ts:56-62` turns a failure of the dynamic import into a 500; that
  path is not modelled.
- Console logging and the time stamp's source (`new Date()`) are out; the time stamp is a
  parameter.
- `github-auth-start`, `github-oauth-callback`, `github-repos` and `webhook-processor` are
  not part of this model.
