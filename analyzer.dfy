// The analyzer (analyzer.py): a four-tier cascade that classifies one file
// by asking a local language model about its content, then by extension,
// then by file-name keywords, and finally falls back to the catch-all
// category.
//
// The language model is not modelled: the chat call is a parameter
// `backend`, the reply the model gives to each prompt it answers (a prompt
// missing from it is one for which the call raises), and `json.loads`
// followed by the reads of the three reply fields is a parameter `decode`
// (a text missing from it is one that is not a JSON object whose fields
// convert).
//
// The functions below take the category table they consult as an argument,
// `registry`; the analyzer object is bound to `Table()` (`CATEGORIES`) when
// it is built, and the lemmas about the real table pass `Table()`.

module Analyzer {
  import opened Wrappers
  import opened Text
  import opened Categories
  import opened Scanner
  import opened Settings

  /** How a file was classified: the `method` field of `AnalysisResult`. */
  datatype Tier = Ai | ByExtension | ByKeyword | Fallback

  /** The string the source stores for each tier. */
  function MethodName(t: Tier): (s: string)
    ensures s in {"ai", "extension", "keyword", "fallback"}
  {
    match t
    case Ai => "ai"
    case ByExtension => "extension"
    case ByKeyword => "keyword"
    case Fallback => "fallback"
  }

  /** Distinct tiers are recorded under distinct names. */
  lemma MethodNamesDistinct(s: Tier, t: Tier)
    requires s != t
    ensures MethodName(s) != MethodName(t)
  {
  }

  /** `AnalysisResult`; `tier` is the source's `method` field. */
  datatype AnalysisResult = AnalysisResult(fileInfo: FileInfo, category: Category, confidence: real,
                                           reasoning: string, tier: Tier)

  /** The three fields `_parse_ai_response` reads from the decoded reply; None where the key is absent. */
  datatype AiReply = AiReply(category: Option<string>, confidence: Option<real>, reasoning: Option<string>)

  /**
   * The user message sent to the model, field by field. The message also
   * lists the registry (`CATEGORY_DESCRIPTIONS`), which is the same in every
   * prompt and so is left out of the record.
   */
  datatype Prompt = Prompt(model: string, name: string, extension: string, sizeBytes: nat,
                           mimeType: string, preview: string)

  // ---------------------------------------------------------------------------
  // Building the prompt

  /** The number of content characters quoted in a prompt. It is fixed: `max_content_chars` is not consulted. */
  const PreviewLimit := 2000

  /** The content preview of `_build_prompt`: at most the first 2000 characters, or a placeholder when there is no content. */
  function Preview(info: FileInfo): (p: string)
    ensures HasContent(info) ==> p <= info.content.value
    ensures HasContent(info) ==> |p| == if |info.content.value| < PreviewLimit then |info.content.value| else PreviewLimit
    ensures !HasContent(info) ==> p == "No content available"
  {
    if HasContent(info) then
      var c := info.content.value;
      if |c| < PreviewLimit then c else c[..PreviewLimit]
    else "No content available"
  }

  /** `_build_prompt`. */
  function BuildPrompt(config: Config, info: FileInfo): (p: Prompt)
    ensures |p.preview| <= PreviewLimit || p.preview == "No content available"
    ensures p.mimeType != ""
    ensures p.mimeType == (if info.mimeType.Some? && info.mimeType.value != "" then info.mimeType.value else "Unknown")
    ensures p.model == config.ollamaModel && p.name == info.name && p.extension == info.extension
    ensures p.sizeBytes == info.sizeBytes && p.preview == Preview(info)
  {
    var mime := if info.mimeType.Some? && info.mimeType.value != "" then info.mimeType.value else "Unknown";
    Prompt(config.ollamaModel, info.name, info.extension, info.sizeBytes, mime, Preview(info))
  }

  /** However large `max_content_chars` is, the prompt quotes at most 2000 characters of content. */
  lemma PreviewIgnoresConfig(config: Config, info: FileInfo)
    requires HasContent(info) && config.maxContentChars > PreviewLimit
    requires |info.content.value| > PreviewLimit
    ensures BuildPrompt(config, info).preview == info.content.value[..PreviewLimit]
    ensures |BuildPrompt(config, info).preview| < config.maxContentChars
  {
  }

  // ---------------------------------------------------------------------------
  // Parsing the reply

  const Fence := "```"
  const JsonFence := "```json"

  lemma JsonFenceHasFence(s: string)
    requires Contains(s, JsonFence)
    ensures Contains(s, Fence)
  {
    var i :| 0 <= i <= |s| - |JsonFence| && OccursAt(s, JsonFence, i);
    assert s[i..i + 3] == s[i..i + 7][..3];
    assert OccursAt(s, Fence, i);
  }

  /**
   * The markdown unwrapping of `_parse_ai_response`: after the first "```json"
   * marker, the text up to the next marker and then up to the first fence in
   * it; otherwise, after the first bare fence, the text up to the next fence;
   * otherwise the reply itself.
   */
  function StripFence(response: string): (r: string)
    ensures !Contains(response, Fence) ==> r == response
    ensures Contains(response, Fence) ==> !Contains(r, Fence)
  {
    if Contains(response, JsonFence) then
      JsonFenceHasFence(response);
      UpToFence(SecondPiece(response, JsonFence))
    else if Contains(response, Fence) then
      SecondPiece(response, Fence)
    else response
  }

  /** `piece.split("```")[0]`. */
  function UpToFence(piece: string): (r: string)
    ensures !Contains(r, Fence)
    ensures r == piece[..Find(piece, Fence).GetOr(|piece|)]
  {
    var r := Before(piece, Fence);
    assert r == piece[..Find(piece, Fence).GetOr(|piece|)];
    r
  }

  /**
   * With a "```json" marker, `StripFence` keeps the text from the end of the
   * first marker up to the next marker (or the end), cut at its first fence.
   */
  lemma StripFenceJson(response: string, m: nat, e: nat)
    requires Find(response, JsonFence).Some? && Find(response, JsonFence).value == m
    requires FindFrom(response, JsonFence, m + |JsonFence|).GetOr(|response|) == e
    ensures m + |JsonFence| <= e <= |response|
    ensures StripFence(response) == UpToFence(response[m + |JsonFence|..e])
  {
    JsonFenceHasFence(response);
    var inner := SecondPiece(response, JsonFence);
    assert inner == response[m + |JsonFence|..e];
  }

  /**
   * With fences but no "```json" marker, `StripFence` keeps the text from the
   * end of the first fence up to the next fence (or the end).
   */
  lemma StripFenceBare(response: string)
    requires Contains(response, Fence) && !Contains(response, JsonFence)
    ensures var start := Find(response, Fence).value + |Fence|;
      StripFence(response) == response[start..FindFrom(response, Fence, start).GetOr(|response|)]
  {
  }

  /**
   * A reply holding a "```json" block comes out as the block's body, provided
   * the marker is the reply's first, the closing fence is the body's first
   * fence, and the closing fence is exactly three backticks.
   */
  lemma StripFenceOfJsonBlock(pre: string, body: string, post: string)
    requires Find(pre + JsonFence, JsonFence) == Some(|pre|)
    requires Find(body + Fence, Fence) == Some(|body|)
    requires post == [] || post[0] != '`'
    ensures StripFence(pre + JsonFence + body + Fence + post) == body
  {
    Regroup(pre, JsonFence, body, Fence, post);
    var e := JsonBlockEnd(pre, body, post);
    JsonPieceBody(pre, body, post, e);
    StripFenceOfJsonPiece((pre + JsonFence) + ((body + Fence) + post), |pre|, e, body);
  }

  /** The same five-part concatenation, grouped the way the block lemmas take it apart. */
  lemma Regroup(a: string, b: string, c: string, d: string, e: string)
    ensures a + b + c + d + e == (a + b) + ((c + d) + e)
  {
  }

  /**
   * `StripFence` on a reply whose first marker is at `m` and whose next one
   * starts at `e`, when the text in between, cut at its first fence, is `body`.
   */
  lemma StripFenceOfJsonPiece(response: string, m: nat, e: nat, body: string)
    requires Find(response, JsonFence).Some? && Find(response, JsonFence).value == m
    requires FindFrom(response, JsonFence, m + |JsonFence|).GetOr(|response|) == e
    requires m + |JsonFence| <= e <= |response|
    requires UpToFence(response[m + |JsonFence|..e]) == body
    ensures StripFence(response) == body
  {
    StripFenceJson(response, m, e);
  }

  /** Where the text after the marker ends: at `e`, the body's end or past its closing fence. */
  lemma JsonBlockEnd(pre: string, body: string, post: string) returns (e: nat)
    requires Find(pre + JsonFence, JsonFence) == Some(|pre|)
    requires Find(body + Fence, Fence) == Some(|body|)
    requires post == [] || post[0] != '`'
    ensures var reply := (pre + JsonFence) + ((body + Fence) + post);
      && Find(reply, JsonFence).Some? && Find(reply, JsonFence).value == |pre|
      && FindFrom(reply, JsonFence, |pre| + |JsonFence|).GetOr(|reply|) == e
      && |pre| + |JsonFence| <= e <= |reply|
      && (e == |pre| + |JsonFence| + |body| || |pre| + |JsonFence| + |body| + |Fence| <= e)
  {
    var rest := (body + Fence) + post;
    FindInPrefix(pre + JsonFence, rest, JsonFence);
    FindFromJoin(pre + JsonFence, rest, JsonFence);
    MarkerAfterBody(body, post);
    e := |pre| + |JsonFence| + Find(rest, JsonFence).GetOr(|rest|);
  }

  /** The text between the marker and `e`, cut at its first fence, is the body. */
  lemma JsonPieceBody(pre: string, body: string, post: string, e: nat)
    requires Find(body + Fence, Fence) == Some(|body|)
    requires e <= |pre| + |JsonFence| + |body| + |Fence| + |post|
    requires e == |pre| + |JsonFence| + |body| || |pre| + |JsonFence| + |body| + |Fence| <= e
    ensures var reply := (pre + JsonFence) + ((body + Fence) + post);
      UpToFence(reply[|pre| + |JsonFence|..e]) == body
  {
    var rest := (body + Fence) + post;
    var reply := (pre + JsonFence) + rest;
    var k := e - (|pre| + |JsonFence|);
    assert reply[|pre| + |JsonFence|..e] == rest[..k];
    JsonBlockBody(body, post, k);
  }

  /** The piece after the marker, cut at its first fence, is the body. */
  lemma JsonBlockBody(body: string, post: string, k: nat)
    requires Find(body + Fence, Fence) == Some(|body|)
    requires k <= |body| + |Fence| + |post| && (k == |body| || |body| + |Fence| <= k)
    ensures UpToFence(((body + Fence) + post)[..k]) == body
  {
    var rest := (body + Fence) + post;
    var piece := rest[..k];
    if k == |body| {
      assert piece == body;
      FirstAtEnd(body, Fence);
    } else {
      assert piece == (body + Fence) + rest[|body| + |Fence|..k];
      FindInPrefix(body + Fence, rest[|body| + |Fence|..k], Fence);
    }
  }

  /** When the body's first fence is the closing one, which is exactly three backticks, no "```json" marker starts before the closing fence or inside it. */
  lemma MarkerAfterBody(body: string, post: string)
    requires Find(body + Fence, Fence) == Some(|body|)
    requires post == [] || post[0] != '`'
    ensures Find(body + Fence + post, JsonFence).Some? ==>
              var k := Find(body + Fence + post, JsonFence).value;
              k == |body| || k >= |body| + 3
  {
    var rest := body + Fence + post;
    if Find(rest, JsonFence).Some? {
      var j := Find(rest, JsonFence).value;
      assert rest[j..j + 3] == rest[j..j + 7][..3];
      if j < |body| {
        assert rest[j..j + 3] == (body + Fence)[j..j + 3];
        assert OccursAt(body + Fence, Fence, j);
      } else if j < |body| + 3 {
        assert rest[|body| + 3] == rest[j..j + 7][|body| + 3 - j];
      }
    }
  }

  /**
   * A reply holding a bare fence block and no "```json" marker comes out as
   * the block's body, provided the opening fence is the reply's first and the
   * closing fence is the body's first.
   */
  lemma StripFenceOfBareBlock(pre: string, body: string, post: string)
    requires Find(pre + Fence, Fence) == Some(|pre|)
    requires Find(body + Fence, Fence) == Some(|body|)
    requires !Contains(pre + Fence + body + Fence + post, JsonFence)
    ensures StripFence(pre + Fence + body + Fence + post) == body
  {
    var reply := (pre + Fence) + ((body + Fence) + post);
    assert pre + Fence + body + Fence + post == reply;
    BareBlockPieces(pre, body, post);
    StripFenceBare(reply);
  }

  /** The positions `StripFence` looks up in a reply holding a bare fence block. */
  lemma BareBlockPieces(pre: string, body: string, post: string)
    requires Find(pre + Fence, Fence) == Some(|pre|)
    requires Find(body + Fence, Fence) == Some(|body|)
    ensures var reply := (pre + Fence) + ((body + Fence) + post);
      && Find(reply, Fence) == Some(|pre|)
      && FindFrom(reply, Fence, |pre| + |Fence|).Some?
      && FindFrom(reply, Fence, |pre| + |Fence|).value == |pre| + |Fence| + |body|
      && reply[|pre| + |Fence|..|pre| + |Fence| + |body|] == body
  {
    OpeningFence(pre, body, post);
    BodyAfterOpening(pre, body, post);
    ClosingFence(pre, body, post);
  }

  lemma OpeningFence(pre: string, body: string, post: string)
    requires Find(pre + Fence, Fence) == Some(|pre|)
    ensures Find((pre + Fence) + ((body + Fence) + post), Fence) == Some(|pre|)
  {
    FindInPrefix(pre + Fence, (body + Fence) + post, Fence);
  }

  lemma BodyAfterOpening(pre: string, body: string, post: string)
    ensures var reply := (pre + Fence) + ((body + Fence) + post);
      reply[|pre| + |Fence|..|pre| + |Fence| + |body|] == body
  {
    var rest := (body + Fence) + post;
    var reply := (pre + Fence) + rest;
    assert reply[|pre| + |Fence|..] == rest;
  }

  lemma ClosingFence(pre: string, body: string, post: string)
    requires Find(body + Fence, Fence) == Some(|body|)
    ensures var reply := (pre + Fence) + ((body + Fence) + post);
      && FindFrom(reply, Fence, |pre| + |Fence|).Some?
      && FindFrom(reply, Fence, |pre| + |Fence|).value == |pre| + |Fence| + |body|
  {
    FindInPrefix(body + Fence, post, Fence);
    FindFromJoin(pre + Fence, (body + Fence) + post, Fence);
  }

  /** `key in name or name in key`, the test of the near-miss search. */
  predicate Related(key: string, name: string) {
    Contains(name, key) || Contains(key, name)
  }

  /** The position of the first entry whose key is related to `name`. */
  function RelatedIndex(entries: seq<Entry>, name: string): (r: Option<nat>)
    ensures r.Some? ==> r.value < |entries| && Related(entries[r.value].key, name)
    ensures r.Some? ==> forall j :: 0 <= j < r.value ==> !Related(entries[j].key, name)
    ensures r.None? ==> forall j :: 0 <= j < |entries| ==> !Related(entries[j].key, name)
  {
    if entries == [] then None
    else if Related(entries[0].key, name) then Some(0)
    else
      match RelatedIndex(entries[1..], name)
      case None => None
      case Some(i) => Some(i + 1)
  }

  lemma ContainsSelf(s: string)
    ensures Contains(s, s)
  {
    assert OccursAt(s, s, 0);
  }

  /**
   * The category validation of `_parse_ai_response`: the entry stored under
   * the (already lower-cased) name; failing that, the first entry in table
   * order whose key contains the name or is contained in it; failing that,
   * none.
   */
  function ResolveCategory(registry: seq<Entry>, name: string): (r: Option<nat>)
    ensures r.Some? ==> r.value < |registry| && Related(registry[r.value].key, name)
    ensures (exists i :: 0 <= i < |registry| && registry[i].key == name) ==>
              r.Some? && registry[r.value].key == name
    ensures r.Some? && registry[r.value].key != name ==>
              forall j :: 0 <= j < r.value ==> !Related(registry[j].key, name)
    ensures r.None? <==> forall j :: 0 <= j < |registry| ==> !Related(registry[j].key, name)
  {
    match KeyIndex(registry, name)
    case Some(i) =>
      ContainsSelf(name);
      Some(i)
    case None =>
      RelatedIndex(registry, name)
  }

  /** A reply without a category, or with an empty one, is filed under `work`: the empty name is contained in every key, and `work` comes first. */
  lemma EmptyCategoryIsWork()
    ensures ResolveCategory(Table(), "") == Some(0) && Table()[0].key == "work"
  {
    forall i | 0 <= i < |Table()| ensures Table()[i].key != "" {
      KeysNonEmpty(i);
    }
    assert OccursAt(Table()[0].key, "", 0);
  }

  /** `min(confidence, 1.0)`: capped above, not below. */
  function CapConfidence(c: real): (r: real)
    ensures r <= 1.0
    ensures c <= 1.0 ==> r == c
    ensures c > 1.0 ==> r == 1.0
  {
    if c < 1.0 then c else 1.0
  }

  /** The second half of `_parse_ai_response`: from the decoded reply to a result, or None when the category cannot be resolved. */
  function FromReply(registry: seq<Entry>, info: FileInfo, reply: AiReply): (r: Option<AnalysisResult>)
    ensures r.Some? ==> r.value.fileInfo == info && r.value.tier == Ai && r.value.confidence <= 1.0
    ensures r.Some? ==> exists i :: 0 <= i < |registry| && r.value.category == registry[i].category
    ensures r.None? <==> ResolveCategory(registry, Lower(reply.category.GetOr(""))).None?
    ensures r.Some? ==>
              r.value == AnalysisResult(info, registry[ResolveCategory(registry, Lower(reply.category.GetOr(""))).value].category,
                                        CapConfidence(reply.confidence.GetOr(0.8)),
                                        reply.reasoning.GetOr("AI classification"), Ai)
  {
    match ResolveCategory(registry, Lower(reply.category.GetOr("")))
    case None => None
    case Some(i) =>
      Some(AnalysisResult(info, registry[i].category, CapConfidence(reply.confidence.GetOr(0.8)),
                          reply.reasoning.GetOr("AI classification"), Ai))
  }

  /** `_parse_ai_response`: unwrap, strip, decode, then resolve; None when decoding fails. */
  function ParseAiResponse(registry: seq<Entry>, info: FileInfo, response: string, decode: map<string, AiReply>)
    : (r: Option<AnalysisResult>)
    ensures Strip(StripFence(response)) !in decode ==> r.None?
    ensures Strip(StripFence(response)) in decode ==>
              r == FromReply(registry, info, decode[Strip(StripFence(response))])
  {
    var text := Strip(StripFence(response));
    if text in decode then FromReply(registry, info, decode[text]) else None
  }

  /** A reply naming a key in any letter case is filed under that key's category, with its confidence capped at 1.0 and its reasoning kept. */
  lemma ReplyNamingKey(info: FileInfo, reply: AiReply, i: nat)
    requires i < |Table()| && reply.category.Some? && Lower(reply.category.value) == Table()[i].key
    ensures FromReply(Table(), info, reply) == Some(AnalysisResult(info, Table()[i].category,
              CapConfidence(reply.confidence.GetOr(0.8)), reply.reasoning.GetOr("AI classification"), Ai))
  {
    KeyIndexOfKey(i);
  }

  /** A decoded reply without any of the three fields is filed under `work` with confidence 0.8. */
  lemma ReplyWithoutFields(info: FileInfo)
    ensures FromReply(Table(), info, AiReply(None, None, None))
              == Some(AnalysisResult(info, Table()[0].category, 0.8, "AI classification", Ai))
  {
    EmptyCategoryIsWork();
    assert Lower("") == "";
  }

  /** A negative confidence from the model is kept as it is: the cap has no lower bound. */
  lemma NegativeConfidenceKept(registry: seq<Entry>, info: FileInfo, reply: AiReply)
    requires reply.confidence.Some? && reply.confidence.value < 0.0
    requires FromReply(registry, info, reply).Some?
    ensures FromReply(registry, info, reply).value.confidence == reply.confidence.value
  {
  }

  // ---------------------------------------------------------------------------
  // The cascade

  /** The registry holds the catch-all entry, as `CATEGORIES` does. */
  predicate HasFallback(registry: seq<Entry>) {
    KeyIndex(registry, FallbackKey).Some?
  }

  /** `get_fallback_category` on a given registry: the entry stored under "misc". */
  function FallbackOf(registry: seq<Entry>): (c: Category)
    requires HasFallback(registry)
    ensures exists i :: 0 <= i < |registry| && registry[i] == Entry(FallbackKey, c)
  {
    registry[KeyIndex(registry, FallbackKey).value].category
  }

  /** `CATEGORIES` holds the catch-all entry, and it is the one `get_fallback_category` returns. */
  lemma RegistryFallback()
    ensures HasFallback(Table()) && FallbackOf(Table()) == GetFallbackCategory()
  {
    FallbackKeyIsLast();
  }

  /** `_analyze_with_ai` once a client exists: ask, strip the reply, parse it; None when the call fails. */
  function AiTier(config: Config, registry: seq<Entry>, info: FileInfo, backend: map<Prompt, string>,
                  decode: map<string, AiReply>): (r: Option<AnalysisResult>)
    ensures BuildPrompt(config, info) !in backend ==> r.None?
    ensures BuildPrompt(config, info) in backend ==>
              r == ParseAiResponse(registry, info, Strip(backend[BuildPrompt(config, info)]), decode)
    ensures r.Some? ==> r.value.fileInfo == info && r.value.tier == Ai && r.value.confidence <= 1.0
    ensures r.Some? ==> exists i :: 0 <= i < |registry| && r.value.category == registry[i].category
  {
    var prompt := BuildPrompt(config, info);
    if prompt in backend then ParseAiResponse(registry, info, Strip(backend[prompt]), decode) else None
  }

  /** Tiers two to four of `analyze_file`: extension, then keywords, then the catch-all. */
  function RuleTiers(registry: seq<Entry>, info: FileInfo): (r: AnalysisResult)
    requires HasFallback(registry)
    ensures r.fileInfo == info && r.tier != Ai
    ensures r.tier == ByExtension <==> LookupExtension(registry, info.extension).Some?
    ensures r.tier == ByExtension ==>
              r.category == LookupExtension(registry, info.extension).value && r.confidence == 0.9
              && Lower(info.extension) in r.category.extensions
    ensures r.tier == ByKeyword <==>
              LookupExtension(registry, info.extension).None? && LookupKeywords(registry, info.name).Some?
    ensures r.tier == ByKeyword ==>
              r.category == LookupKeywords(registry, info.name).value && r.confidence == 0.7
              && exists k :: k in r.category.keywords && Contains(Lower(info.name), k)
    ensures r.tier == Fallback ==> r.confidence == 0.3 && r.category == FallbackOf(registry)
  {
    match LookupExtension(registry, info.extension)
    case Some(c) => AnalysisResult(info, c, 0.9, "Matched by file extension: " + info.extension, ByExtension)
    case None =>
      match LookupKeywords(registry, info.name)
      case Some(c) => AnalysisResult(info, c, 0.7, "Matched by filename keywords", ByKeyword)
      case None => AnalysisResult(info, FallbackOf(registry), 0.3, "No matching category found, using fallback", Fallback)
  }

  /**
   * On `CATEGORIES`, without an answer from the model: an extension match
   * gives `get_category_by_extension`'s category with confidence 0.9,
   * otherwise a keyword match gives `get_category_by_keywords`'s with 0.7,
   * otherwise `get_fallback_category()` with 0.3.
   */
  lemma RuleTiersOnRegistry(info: FileInfo)
    ensures HasFallback(Table())
    ensures var r := RuleTiers(Table(), info);
      && (r.tier == ByExtension <==> GetCategoryByExtension(info.extension).Some?)
      && (r.tier == ByExtension ==> r.category == GetCategoryByExtension(info.extension).value)
      && (r.tier == ByKeyword <==>
            GetCategoryByExtension(info.extension).None? && GetCategoryByKeywords(info.name).Some?)
      && (r.tier == ByKeyword ==> r.category == GetCategoryByKeywords(info.name).value)
      && (r.tier == Fallback <==>
            GetCategoryByExtension(info.extension).None? && GetCategoryByKeywords(info.name).None?)
      && (r.tier == Fallback ==> r.category == GetFallbackCategory())
  {
    RegistryFallback();
  }

  /** `analyze_file` for a given answer to "is the model server available". */
  function Classify(config: Config, registry: seq<Entry>, info: FileInfo, available: bool,
                    backend: map<Prompt, string>, decode: map<string, AiReply>): (r: AnalysisResult)
    requires HasFallback(registry)
    ensures r.fileInfo == info
    ensures r.tier == Ai <==> HasContent(info) && available && AiTier(config, registry, info, backend, decode).Some?
    ensures r.tier == Ai ==> r == AiTier(config, registry, info, backend, decode).value
    ensures r.tier != Ai ==> r == RuleTiers(registry, info)
  {
    if HasContent(info) && available then
      match AiTier(config, registry, info, backend, decode)
      case Some(r) => r
      case None => RuleTiers(registry, info)
    else RuleTiers(registry, info)
  }

  /** Server availability matters only for a file with content: a file without content never reaches the model. */
  lemma ClassifyWithoutContent(config: Config, registry: seq<Entry>, info: FileInfo, a: bool, b: bool,
                               backend: map<Prompt, string>, decode: map<string, AiReply>)
    requires HasFallback(registry)
    requires !HasContent(info)
    ensures Classify(config, registry, info, a, backend, decode) == Classify(config, registry, info, b, backend, decode)
    ensures Classify(config, registry, info, a, backend, decode).tier != Ai
  {
  }

  /** Every file ends up in some category of the registry, the catch-all included. */
  lemma ClassifyInRegistry(config: Config, registry: seq<Entry>, info: FileInfo, available: bool,
                           backend: map<Prompt, string>, decode: map<string, AiReply>)
    requires HasFallback(registry)
    ensures exists i :: 0 <= i < |registry|
              && Classify(config, registry, info, available, backend, decode).category == registry[i].category
  {
    var r := Classify(config, registry, info, available, backend, decode);
    if r.tier == ByExtension {
      var i := ExtensionIndex(registry, Lower(info.extension)).value;
      assert r.category == registry[i].category;
    } else if r.tier == ByKeyword {
      var i := KeywordIndex(registry, Lower(info.name)).value;
      assert r.category == registry[i].category;
    } else if r.tier == Fallback {
      var i := KeyIndex(registry, FallbackKey).value;
      assert r.category == registry[i].category;
    }
  }

  // ---------------------------------------------------------------------------
  // The analyzer object

  /** `_client`: not yet created, connected, or `False` after a failed probe. */
  datatype ClientState = NoClient | Connected | Disabled

  /** `_ollama_available`: `None`, `True` or `False`. */
  datatype Availability = Unchecked | Available | Unavailable

  /** What the availability becomes after probing once, given whether the probe succeeds. */
  function AfterProbe(a: Availability, probeOk: bool): (b: Availability)
    ensures b != Unchecked
    ensures a != Unchecked ==> b == a
  {
    if a != Unchecked then a else if probeOk then Available else Unavailable
  }

  /**
   * `FileAnalyzer`. `registry` is the table it consults (`CATEGORIES`);
   * `probes` counts the connection probes made so far.
   */
  class FileAnalyzer {
    const config: Config
    const registry: seq<Entry>
    var client: ClientState
    var availability: Availability
    ghost var probes: nat

    /** The client and the availability flag change together, and the server is probed at most once. */
    ghost predicate Valid()
      reads this
    {
      && HasFallback(registry)
      && (client == NoClient <==> availability == Unchecked)
      && (client == Connected <==> availability == Available)
      && probes == (if availability == Unchecked then 0 else 1)
    }

    /** `__init__`; a missing config means `DEFAULT_CONFIG`. `registry` is the table the analyzer consults, `CATEGORIES`. */
    constructor (config: Option<Config>, registry: seq<Entry>)
      requires HasFallback(registry)
      ensures Valid()
      ensures this.config == config.GetOr(DefaultConfig) && this.registry == registry && availability == Unchecked
    {
      this.config := config.GetOr(DefaultConfig);
      this.registry := registry;
      client := NoClient;
      availability := Unchecked;
      probes := 0;
    }

    /** `_get_client`: creates and probes the client on first use only; `probeOk` is whether that probe succeeds. */
    method GetClient(probeOk: bool) returns (connected: bool)
      requires Valid()
      modifies this
      ensures Valid()
      ensures availability == AfterProbe(old(availability), probeOk)
      ensures old(availability) != Unchecked ==> probes == old(probes)
      ensures connected <==> availability == Available
    {
      if client == NoClient {
        if probeOk {
          client := Connected;
          availability := Available;
        } else {
          client := Disabled;
          availability := Unavailable;
        }
        probes := probes + 1;
      }
      connected := client == Connected;
    }

    /** The `ollama_available` property. */
    method OllamaAvailable(probeOk: bool) returns (available: bool)
      requires Valid()
      modifies this
      ensures Valid()
      ensures availability == AfterProbe(old(availability), probeOk)
      ensures old(availability) != Unchecked ==> probes == old(probes)
      ensures available <==> availability == Available
    {
      if availability == Unchecked {
        var _ := GetClient(probeOk);
      }
      available := availability == Available;
    }

    /** `_analyze_with_ai`. */
    method AnalyzeWithAi(info: FileInfo, probeOk: bool, backend: map<Prompt, string>,
                         decode: map<string, AiReply>) returns (r: Option<AnalysisResult>)
      requires Valid()
      modifies this
      ensures Valid()
      ensures availability == AfterProbe(old(availability), probeOk)
      ensures old(availability) != Unchecked ==> probes == old(probes)
      ensures r == if availability == Available then AiTier(config, registry, info, backend, decode) else None
    {
      var connected := GetClient(probeOk);
      if !connected {
        return None;
      }
      r := AiTier(config, registry, info, backend, decode);
    }

    /**
     * `analyze_file`: the server is probed only for a file with content, and
     * the result is the cascade's under the availability known after that
     * probe.
     */
    method AnalyzeFile(info: FileInfo, probeOk: bool, backend: map<Prompt, string>,
                       decode: map<string, AiReply>) returns (r: AnalysisResult)
      requires Valid()
      modifies this
      ensures Valid()
      ensures HasContent(info) ==> availability == AfterProbe(old(availability), probeOk)
      ensures !HasContent(info) ==> availability == old(availability)
      ensures old(availability) != Unchecked ==> probes == old(probes)
      ensures r == Classify(config, registry, info, AfterProbe(old(availability), probeOk) == Available,
                            backend, decode)
    {
      if HasContent(info) {
        var available := OllamaAvailable(probeOk);
        if available {
          var ai := AnalyzeWithAi(info, probeOk, backend, decode);
          if ai.Some? {
            return ai.value;
          }
        }
      }
      r := RuleTiers(registry, info);
    }

    /**
     * `analyze_files`: one result per file, in order. Every file is
     * classified under the availability known after the first probe; the
     * availability afterwards is the old one or the outcome of that probe.
     */
    method AnalyzeFiles(files: seq<FileInfo>, probeOk: bool, backend: map<Prompt, string>,
                        decode: map<string, AiReply>) returns (results: seq<AnalysisResult>)
      requires Valid()
      modifies this
      ensures Valid()
      ensures |results| == |files|
      ensures forall i :: 0 <= i < |files| ==>
                results[i] == Classify(config, registry, files[i], AfterProbe(old(availability), probeOk) == Available,
                                       backend, decode)
      ensures AfterProbe(availability, probeOk) == AfterProbe(old(availability), probeOk)
    {
      ghost var a0 := availability;
      ghost var available := AfterProbe(a0, probeOk) == Available;
      results := [];
      var k := 0;
      while k < |files|
        invariant 0 <= k <= |files| && |results| == k
        invariant Valid()
        invariant forall i :: 0 <= i < k ==> results[i] == Classify(config, registry, files[i], available, backend, decode)
        invariant AfterProbe(availability, probeOk) == AfterProbe(a0, probeOk)
      {
        var r := AnalyzeFile(files[k], probeOk, backend, decode);
        results := results + [r];
        k := k + 1;
      }
    }
  }

  /** The module-level `analyze_files`: a fresh analyzer classifies every file, in order, against the probe's outcome. */
  method AnalyzeAll(files: seq<FileInfo>, config: Option<Config>, probeOk: bool,
                    backend: map<Prompt, string>, decode: map<string, AiReply>)
    returns (results: seq<AnalysisResult>)
    ensures HasFallback(Table())
    ensures |results| == |files|
    ensures forall i :: 0 <= i < |files| ==>
              results[i] == Classify(config.GetOr(DefaultConfig), Table(), files[i], probeOk, backend, decode)
  {
    RegistryFallback();
    var analyzer := new FileAnalyzer(config, Table());
    results := analyzer.AnalyzeFiles(files, probeOk, backend, decode);
  }
}
