/**
 * `src/services/editorial_service.py`: the editorial pipeline that turns a raw
 * post into a news item through the Ollama LLM.
 *
 * The LLM call is a function from the prompt to its outcome, and `json.loads`
 * is a partial decoder given as a parameter; the processing time is left out.
 */
module Editorial {
  import opened Wrappers
  import PyStr
  import Singleton

  /** The editorial dict returned by `process_post` (without `processing_time`). */
  datatype EditorialResult = EditorialResult(
    isNews: bool,
    originalSummary: Option<string>,
    rewrittenPost: Option<string>,
    title: Option<string>,
    teaser: Option<string>,
    imagePrompt: Option<string>,
    error: Option<string>)

  /** What `self.ollama.generate(...)` does: return a text (possibly `None`) or raise. */
  datatype LlmCall = Returned(text: Option<string>) | Raised(message: string)

  /** The fields `json.loads` yields for the JSON block; `error` is overwritten afterwards. */
  type Decoder = string -> Result<EditorialResult, string>

  const MaxLength: nat := 3000
  const CutMarker: string := "\n\n[текст обрезан]"

  /** `f"Заголовок: {title}\n\nТекст:\n{content}"` */
  function PostContent(title: string, content: string): (r: string)
    ensures PyStr.StartsWith(r, "Заголовок: " + title)
    ensures PyStr.EndsWith(r, "\n\nТекст:\n" + content)
  {
    var head := "Заголовок: " + title;
    var tail := "\n\nТекст:\n" + content;
    var r := head + tail;
    assert r[..|head|] == head && r[|r| - |tail|..] == tail;
    r
  }

  /**
   * The post content after the 3000-character limit: never longer than 3000
   * characters plus the cut marker, unchanged when it fits.
   */
  function LlmInput(title: string, content: string): (r: string)
    ensures |r| <= MaxLength + |CutMarker|
    ensures var pc := PostContent(title, content);
      && (|pc| <= MaxLength ==> r == pc)
      && (|pc| > MaxLength ==> |r| == MaxLength + |CutMarker| && r[..MaxLength] == pc[..MaxLength]
                               && r[MaxLength..] == CutMarker)
  {
    var pc := PostContent(title, content);
    if |pc| > MaxLength then pc[..MaxLength] + CutMarker else pc
  }

  /** The user prompt wrapping the (possibly cut) post content. */
  function UserPrompt(postContent: string): string
  {
    "Обработай следующий пост:\n\n<<<\n" + postContent + "\n>>>\n\nВерни ТОЛЬКО JSON, без дополнительного текста."
  }

  /**
   * `response_clean[json_start:json_end]` for an already stripped response,
   * or `None` when there is no '{' or no '}'.
   */
  function JsonSpan(clean: string): (r: Option<string>)
    ensures r.None? <==> '{' !in clean || '}' !in clean
    ensures r.Some? && r.value != [] ==> r.value[0] == '{' && r.value[|r.value| - 1] == '}'
  {
    var start := PyStr.Find(clean, '{');
    var end := PyStr.RFind(clean, '}') + 1;
    if start == -1 || end == 0 then None
    else Some(if start <= end then clean[start..end] else [])
  }

  /** The JSON block of a raw LLM response. */
  function JsonBlock(response: string): Option<string>
  {
    JsonSpan(PyStr.Strip(response))
  }

  /**
   * A JSON object surrounded by text with no braces on the outside is found
   * exactly: the block runs from the first '{' to the last '}'.
   */
  lemma JsonSpanFindsObject(before: string, obj: string, after: string)
    requires |obj| >= 2 && obj[0] == '{' && obj[|obj| - 1] == '}'
    requires '{' !in before && '}' !in after
    ensures JsonSpan(before + obj + after) == Some(obj)
  {
    var s := before + obj + after;
    var i := |before|;
    var j := |before| + |obj|;
    assert s[i] == '{' && s[j - 1] == '}';
    assert s[..i] == before;
    assert s[j..] == after;
    var start := PyStr.Find(s, '{');
    var end := PyStr.RFind(s, '}') + 1;
    assert s[i..j] == obj;
  }

  /** When every '}' precedes the first '{' the block is empty, and it cannot decode as an object. */
  lemma JsonSpanEmptyWhenReversed(before: string, after: string)
    requires '{' !in before && '}' !in after && '}' in before
    ensures JsonSpan(before + "{" + after) == Some([])
  {
    var s := before + "{" + after;
    assert s[..|before|] == before && s[|before| + 1..] == after;
    var start := PyStr.Find(s, '{');
    var end := PyStr.RFind(s, '}') + 1;
  }

  predicate Truthy(s: Option<string>)
  {
    s.Some? && s.value != []
  }

  function Failure(error: string): (r: EditorialResult)
    ensures !r.isNews && r.error == Some(error)
  {
    EditorialResult(false, None, None, None, None, None, Some(error))
  }

  /** `process_post(title, content)` with the LLM as `llm` and `json.loads` as `decode`. */
  function ProcessPost(title: string, content: string, llm: string -> LlmCall, decode: Decoder): EditorialResult
  {
    match llm(UserPrompt(LlmInput(title, content)))
    case Raised(message) => Failure(message)
    case Returned(response) =>
      if !Truthy(response) then Failure("Empty response from LLM")
      else
        match JsonBlock(response.value)
        case None => Failure("Invalid JSON response")
        case Some(block) =>
          match decode(block)
          case Ok(fields) => fields.(error := None)
          case Err(message) => Failure("JSON decode error: " + message)
  }

  /**
   * The outcomes of `process_post`: a decoded block gives its fields with
   * `error` None; every other path gives is_news False and an error, which is
   * empty only when the LLM call raised an exception with an empty message.
   */
  lemma ProcessPostOutcomes(title: string, content: string, llm: string -> LlmCall, decode: Decoder)
    ensures var r := ProcessPost(title, content, llm, decode);
      var call := llm(UserPrompt(LlmInput(title, content)));
      && (r.error.None? <==> call.Returned? && Truthy(call.text) && JsonBlock(call.text.value).Some?
                              && decode(JsonBlock(call.text.value).value).Ok?)
      && (r.error.Some? ==> !r.isNews)
      && (r.error.Some? && r.error.value == [] ==> call.Raised? && call.message == [])
      && (call.Returned? && !Truthy(call.text) ==> r.error == Some("Empty response from LLM"))
      && (call.Returned? && Truthy(call.text) && JsonBlock(call.text.value).None? ==> r.error == Some("Invalid JSON response"))
  {
  }

  /** `model or os.getenv("OLLAMA_MODEL", "gpt-oss:20b")` */
  function ModelName(model: Option<string>, envModel: Option<string>): (r: string)
    ensures Truthy(model) ==> r == model.value
    ensures !Truthy(model) && envModel.None? ==> r == "gpt-oss:20b"
    ensures !Truthy(model) && envModel.Some? ==> r == envModel.value
  {
    if Truthy(model) then model.value else if envModel.Some? then envModel.value else "gpt-oss:20b"
  }

  /** The state an `EditorialService` holds that matters here. */
  datatype EditorialService = EditorialService(model: string)

  /** `get_editorial_service()`: built from the environment on the first call only. */
  method GetEditorialService(cell: Singleton.Lazy<EditorialService>, envModel: Option<string>)
    returns (s: EditorialService)
    modifies cell
    ensures old(cell.instance).Some? ==> s == old(cell.instance).value
    ensures old(cell.instance).None? ==> s == EditorialService(ModelName(None, envModel))
    ensures cell.instance == Some(s)
  {
    s := cell.Get(EditorialService(ModelName(None, envModel)));
  }
}
