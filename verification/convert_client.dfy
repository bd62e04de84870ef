/** The conversion client (`convertBatch`): one chat-completion request per batch, and the
    extraction of a JSON object from the text of the reply. */
module ConversionClient {
  import opened JsValues

  /** The value of `parsed.files` once the extracted text has been parsed. */
  datatype FilesField = FilesArray(items: seq<SourceFile>) | NotAnArray

  /** What the model backend gives back for one request. `Answered` carries
      `data?.choices?.[0]?.message?.content` (absent when any step of that chain is missing);
      `RequestFailed` stands for a `fetch` that throws, a body that is not JSON, or reply
      content that is not text. */
  datatype Reply = Answered(content: Option<string>) | RequestFailed(message: string)

  /** How one call of `convertBatch` ends: it returns `parsed.files`, or it throws. */
  datatype BatchOutcome = Returned(files: FilesField) | Threw(message: string)

  const MissingKeyMessage: string := "Missing OPENROUTER_API_KEY"

  /** `content || ""` */
  function ReplyText(content: Option<string>): string {
    OrElse(content, "")
  }

  /** The index of the first occurrence of `c` in `s`, if any. */
  function FirstIndexOf(s: string, c: char): (r: Option<nat>)
    ensures r.Some? ==> r.value < |s| && s[r.value] == c && forall j :: 0 <= j < r.value ==> s[j] != c
    ensures r.None? ==> forall j :: 0 <= j < |s| ==> s[j] != c
  {
    if s == [] then None
    else if s[0] == c then Some(0)
    else match FirstIndexOf(s[1..], c)
      case None => None
      case Some(i) => Some(i + 1)
  }

  /** `text.match(/\{[\s\S]*\}$/)`: without the `m` flag `$` matches only at the very end, so a
      match must end with the last character, which must be '}'; the leftmost start wins, so
      the match runs from the first '{' to the end of the text. */
  function ExtractObject(text: string): (r: Option<string>)
    ensures r.Some? <==> text != [] && text[|text| - 1] == '}' && exists i :: 0 <= i < |text| - 1 && text[i] == '{'
    ensures r.Some? ==> exists i :: 0 <= i < |text| - 1 && text[i] == '{' && r.value == text[i..]
                                    && forall j :: 0 <= j < i ==> text[j] != '{'
  {
    if text != [] && text[|text| - 1] == '}' then
      match FirstIndexOf(text, '{')
      case None => None
      case Some(i) => Some(text[i..])
    else None
  }

  /** Text that ends in white space after the closing brace yields no object at all. */
  lemma TrailingSpaceDefeatsExtraction(text: string, c: char)
    requires c == ' ' || c == '\n' || c == '\t' || c == '\r'
    ensures ExtractObject(text + [c]) == None
  {
  }

  /** Leading prose before the object is skipped. */
  lemma LeadingProseIsSkipped(prose: string, obj: string)
    requires forall j :: 0 <= j < |prose| ==> prose[j] != '{'
    requires |obj| >= 2 && obj[0] == '{' && obj[|obj| - 1] == '}'
    ensures ExtractObject(prose + obj) == Some(obj)
  {
    var text := prose + obj;
    assert text[|prose|] == '{';
    assert forall j :: 0 <= j < |prose| ==> text[j] != '{';
    assert FirstIndexOf(text, '{') == Some(|prose|);
    assert text[|prose|..] == obj;
  }

  /** `convertBatch(batch, target)`: the key check, the request, the extraction and the parse.
      The reply to the request and `JSON.parse` are given: the request is only made when the
      key is present. */
  function ConvertBatch(keyPresent: bool, reply: Reply, parse: string -> Result<FilesField>): BatchOutcome {
    if !keyPresent then Threw(MissingKeyMessage)
    else match reply
      case RequestFailed(m) => Threw(m)
      case Answered(content) =>
        match ExtractObject(ReplyText(content))
        case None => Returned(FilesArray([]))
        case Some(json) =>
          match parse(json)
          case Thrown(m) => Threw(m)
          case Ok(files) => Returned(files)
  }

  /** What the merge loop appends for one batch: the converted files when the result is an
      array, nothing when it is not, and the batch's own files when the call threw. */
  function Contribution(batch: seq<SourceFile>, outcome: BatchOutcome): seq<SourceFile> {
    match outcome
    case Threw(_) => batch
    case Returned(FilesArray(items)) => items
    case Returned(NotAnArray) => []
  }

  /** The fallback is exact for every way the call can throw, and nothing else falls back. */
  lemma ContributionOfEachCase(batch: seq<SourceFile>, keyPresent: bool, reply: Reply, parse: string -> Result<FilesField>)
    ensures !keyPresent ==> Contribution(batch, ConvertBatch(keyPresent, reply, parse)) == batch
    ensures keyPresent && reply.RequestFailed? ==> Contribution(batch, ConvertBatch(keyPresent, reply, parse)) == batch
    ensures keyPresent && reply.Answered? && ExtractObject(ReplyText(reply.content)).None?
            ==> Contribution(batch, ConvertBatch(keyPresent, reply, parse)) == []
    ensures keyPresent && reply.Answered? && ExtractObject(ReplyText(reply.content)).Some?
            ==> var parsed := parse(ExtractObject(ReplyText(reply.content)).value);
                Contribution(batch, ConvertBatch(keyPresent, reply, parse))
                == match parsed
                   case Thrown(_) => batch
                   case Ok(FilesArray(items)) => items
                   case Ok(NotAnArray) => []
  {
  }

  /** A reply of prose with no JSON object, or with white space after the object, makes the
      batch vanish from the result rather than fall back to its originals. */
  lemma ReplyWithoutObjectDropsBatch(batch: seq<SourceFile>, parse: string -> Result<FilesField>)
    ensures Contribution(batch, ConvertBatch(true, Answered(Some("Sorry, I cannot convert this file.")), parse)) == []
    ensures Contribution(batch, ConvertBatch(true, Answered(Some("Here you go: {\"files\":[]} ")), parse)) == []
    ensures Contribution(batch, ConvertBatch(true, Answered(None), parse)) == []
  {
    TrailingSpaceDefeatsExtraction("Here you go: {\"files\":[]}", ' ');
    assert "Here you go: {\"files\":[]}" + [' '] == "Here you go: {\"files\":[]} ";
  }

  /** An object that fails to parse does fall back to the originals. */
  lemma MalformedObjectFallsBack(batch: seq<SourceFile>, parse: string -> Result<FilesField>)
    requires parse("{not json}").Thrown?
    ensures Contribution(batch, ConvertBatch(true, Answered(Some("{not json}")), parse)) == batch
  {
    var text := "{not json}";
    assert ReplyText(Some(text)) == text;
    assert FirstIndexOf(text, '{') == Some(0);
    assert ExtractObject(text) == Some(text);
  }
}
