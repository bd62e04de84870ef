/** The zip export endpoint: every posted file becomes one archive entry, with its path
    defaulted and stripped of leading slashes and its content defaulted to "". */
module ExportZip {
  import opened JsValues
  import opened Strings

  /** One `zip.file(path, content)` call. */
  datatype Entry = Entry(path: string, content: string)

  const DefaultPath: string := "file.txt"
  const NoFilesMessage: string := "No files provided"

  /** `(f.path || "file.txt").replace(/^\/+/, "")` */
  function EntryPath(f: FileInput): (r: string)
    ensures r == [] || r[0] != '/'
    ensures !Truthy(f.path) ==> r == DefaultPath
    ensures Truthy(f.path) ==> r == StripLeadingSlashes(f.path.value)
  {
    StripLeadingSlashes(OrElse(f.path, DefaultPath))
  }

  /** `f.content || ""` */
  function EntryContent(f: FileInput): (r: string)
    ensures f.content.Some? ==> r == f.content.value
    ensures f.content.None? ==> r == ""
  {
    OrElse(f.content, "")
  }

  function EntryOf(f: FileInput): Entry {
    Entry(EntryPath(f), EntryContent(f))
  }

  /** Submitting a normalised path again yields it unchanged (an empty one would turn into the
      default instead). */
  lemma EntryPathIdempotent(f: FileInput, content: Option<string>)
    requires EntryPath(f) != ""
    ensures EntryPath(FileInput(Some(EntryPath(f)), content)) == EntryPath(f)
  {
    StripKeepsUnslashed(EntryPath(f));
  }

  /** A given path that does not start with '/' is used as it is. */
  lemma UnslashedPathKept(f: FileInput)
    requires Truthy(f.path) && f.path.value[0] != '/'
    ensures EntryPath(f) == f.path.value
  {
    StripKeepsUnslashed(f.path.value);
  }

  /** A path made only of slashes leaves an empty entry name, not the default. */
  lemma SlashOnlyPathIsEmpty(n: nat)
    requires n > 0
    ensures EntryPath(FileInput(Some(Slashes(n)), None)) == ""
  {
    StripIgnoresSlashRun(n, "");
    assert Slashes(n) + "" == Slashes(n);
  }

  /** The archive being built: the entries added so far, in order. */
  class Archive {
    var entries: seq<Entry>

    constructor ()
      ensures entries == []
    {
      entries := [];
    }

    /** `zip.file(path, content)` */
    method AddFile(path: string, content: string)
      modifies this
      ensures entries == old(entries) + [Entry(path, content)]
    {
      entries := entries + [Entry(path, content)];
    }
  }

  /** A pre-flight answer, the archive, or `500 {error}`. */
  datatype ZipResponse = Preflight | ZipArchive(entries: seq<Entry>) | ZipError(message: string)

  /** The handler. `files` is the body's `files` field: `None` when it is not an array, and
      the whole body is `Thrown` when it cannot be read. */
  method Handle(httpMethod: string, body: Result<Option<seq<FileInput>>>) returns (resp: ZipResponse)
    ensures httpMethod == "OPTIONS" ==> resp == Preflight
    ensures httpMethod != "OPTIONS" && body.Thrown? ==> resp == ZipError(body.message)
    ensures httpMethod != "OPTIONS" && body.Ok? && body.value.None? ==> resp == ZipError(NoFilesMessage)
    ensures httpMethod != "OPTIONS" && body.Ok? && body.value.Some? ==>
              && resp.ZipArchive?
              && |resp.entries| == |body.value.value|
              && forall i :: 0 <= i < |resp.entries| ==> resp.entries[i] == EntryOf(body.value.value[i])
  {
    if httpMethod == "OPTIONS" {
      return Preflight;
    }
    if body.Thrown? {
      return ZipError(body.message);
    }
    if body.value.None? {
      return ZipError(NoFilesMessage);
    }
    var files := body.value.value;
    var zip := new Archive();
    for i := 0 to |files|
      invariant |zip.entries| == i
      invariant forall k :: 0 <= k < i ==> zip.entries[k] == EntryOf(files[k])
    {
      zip.AddFile(EntryPath(files[i]), EntryContent(files[i]));
    }
    resp := ZipArchive(zip.entries);
  }
}
