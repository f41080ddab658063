/**
 * The response generator of the RAG pipeline (BioMind/rag/response_generator.py):
 * the grounded prompt, the extraction of text from the chat model's reply,
 * citation validation and the enhanced summary.
 *
 * The chat model is a parameter from prompt to raw reply; `json.dumps` of the
 * optional response format is given as its rendered string.
 */
module ResponseGenerator {
  import opened Common
  import ContextManager
  import Confidence
  import TextUtils

  // ------------------------------------------------------------------ prompt

  /** The fixed instruction lines that open every prompt, by position. */
  function Instruction(n: nat): string
    requires n < 13
  {
    match n
    case 0 => "You are a biomedical research assistant. Provide detailed, comprehensive answers using EXTENSIVE citations."
    case 1 => "CRITICAL CITATION REQUIREMENTS:"
    case 2 => "- EVERY sentence must include [Source ID: <id>] citations. Never write uncited sentences."
    case 3 => "- Use multiple sources per sentence when possible: [Source ID: 123, 456]"
    case 4 => "- Synthesize information from ALL provided " + "sources, citing each one multiple times."
    case 5 => "- Provide detailed explanations with 3-4 paragraphs per section minimum."
    case 6 => "- Be scientifically rigorous and comprehensive. Include specific mechanisms, pathways, and evidence."
    case 7 => "- Output sections exactly as follows:"
    case 8 => "  1) Title"
    case 9 => "  2) Testable hypotheses (exactly 3 bullets) — each with 2-3 sentences and extensive [Source ID] citations"
    case 10 => "  3) Proposed experiments (exactly 2 bullets) — detailed protocols with specific endpoints and [Source ID] citations"
    case 11 => "  4) Risks and confounders (detailed bullets with citations)"
    case _ => "  5) Limitations (detailed with citations)"
  }

  function Instructions(): (r: seq<string>)
    ensures |r| == 13
  {
    seq(13, n requires 0 <= n < 13 => Instruction(n))
  }

  const FormatIntro: string :=
    "\nPlease adhere to this JSON-like outline when structuring the sections (do not output raw JSON):"

  /** The lines before the context blocks. */
  function Head(query: string): seq<string>
  {
    Instructions() + ["", "Query: " + query, "", "Context (verbatim excerpts with IDs):"]
  }

  /** `str(doc.metadata.get("source_id", "unknown"))` */
  function SourceIdText(d: Document): string
  {
    Show(Get(d.metadata, "source_id", Str("unknown")))
  }

  function CitationTag(id: string): string
  {
    "[Source ID: " + id + "]"
  }

  /** One context block: the citation tag of the document, then its text. */
  function ContextBlock(d: Document): string
  {
    "\n" + CitationTag(SourceIdText(d)) + "\n" + d.content
  }

  /** The line of the sources index for the `i`-th document (1-based). */
  function IndexLine(i: nat, d: Document): string
  {
    "[" + NatToString(i) + "] id=" + SourceIdText(d)
      + " source=" + Show(Get(d.metadata, "source", Str("")))
      + " url=" + Show(Get(d.metadata, "url", Str("")))
  }

  function IndexLines(docs: seq<Document>): (r: seq<string>)
    ensures |r| == |docs|
  {
    seq(|docs|, i requires 0 <= i < |docs| => IndexLine(i + 1, docs[i]))
  }

  /** The lines that `construct_prompt` joins with newlines. `format` is the
      rendered response format, or None when none (or an empty one) is given. */
  function PromptLines(query: string, docs: seq<Document>, format: Option<string>): seq<string>
  {
    Head(query)
      + Map(ContextBlock, docs)
      + ["\n" + Join("\n", ["Sources Index:"] + IndexLines(docs))]
      + (if format.Some? then [FormatIntro, format.value] else [])
  }

  /** The sources index of `construct_prompt`: a header line, then one
      numbered line per document. */
  method SourcesIndex(docs: seq<Document>) returns (index: seq<string>)
    ensures index == ["Sources Index:"] + IndexLines(docs)
  {
    index := ["Sources Index:"];
    var i := 0;
    while i < |docs|
      invariant 0 <= i <= |docs|
      invariant index == ["Sources Index:"] + IndexLines(docs[..i])
    {
      IndexLinesAppend(docs, i);
      index := index + [IndexLine(i + 1, docs[i])];
      i := i + 1;
    }
    assert docs[..i] == docs;
  }

  lemma IndexLinesAppend(docs: seq<Document>, i: nat)
    requires i < |docs|
    ensures IndexLines(docs[..i + 1]) == IndexLines(docs[..i]) + [IndexLine(i + 1, docs[i])]
  {
  }

  /** The context loop of `construct_prompt`: one block per document, in order. */
  method AppendContextBlocks(lines: seq<string>, docs: seq<Document>) returns (r: seq<string>)
    ensures r == lines + Map(ContextBlock, docs)
  {
    r := lines;
    var i := 0;
    while i < |docs|
      invariant 0 <= i <= |docs|
      invariant |r| == |lines| + i && r[..|lines|] == lines
      invariant forall k :: 0 <= k < i ==> r[|lines| + k] == ContextBlock(docs[k])
    {
      r := r + [ContextBlock(docs[i])];
      i := i + 1;
    }
  }

  /** `construct_prompt` */
  method ConstructPrompt(query: string, docs: seq<Document>, format: Option<string>)
    returns (prompt: string)
    ensures prompt == Join("\n", PromptLines(query, docs, format))
  {
    var index := SourcesIndex(docs);
    var lines := AppendContextBlocks(Head(query), docs);
    lines := lines + ["\n" + Join("\n", index)];
    if format.Some? {
      lines := lines + [FormatIntro, format.value];
    } else {
      assert lines + [] == lines;
    }
    prompt := Join("\n", lines);
  }

  /** Where the query, the context blocks and the sources index sit among
      the prompt lines. */
  lemma PromptLinesAt(query: string, docs: seq<Document>, format: Option<string>)
    ensures var lines, h := PromptLines(query, docs, format), |Head(query)|;
      && h == 17 && |lines| > h + |docs|
      && lines[14] == "Query: " + query
      && (forall i :: 0 <= i < |docs| ==> lines[h + i] == ContextBlock(docs[i]))
      && lines[h + |docs|] == "\n" + Join("\n", ["Sources Index:"] + IndexLines(docs))
  {
  }

  /** The prompt carries the query line. */
  lemma PromptMentionsQuery(query: string, docs: seq<Document>, format: Option<string>)
    ensures Contains(Join("\n", PromptLines(query, docs, format)), "Query: " + query)
  {
    PromptLinesAt(query, docs, format);
    JoinContainsPart("\n", PromptLines(query, docs, format), 14);
  }

  /** For every context document the prompt carries its citation tag, the id
      defaulting to "unknown". */
  lemma PromptCitesEverySource(query: string, docs: seq<Document>, format: Option<string>, i: nat)
    requires i < |docs|
    ensures Contains(Join("\n", PromptLines(query, docs, format)), CitationTag(SourceIdText(docs[i])))
  {
    PromptLinesAt(query, docs, format);
    ContextBlockHasTag(docs[i]);
    ContainsInPart("\n", PromptLines(query, docs, format), 17 + i, CitationTag(SourceIdText(docs[i])));
  }

  lemma ContextBlockHasTag(d: Document)
    ensures Contains(ContextBlock(d), CitationTag(SourceIdText(d)))
  {
    var tag := CitationTag(SourceIdText(d));
    ContainsConcat("\n", tag, "\n" + d.content);
    assert ContextBlock(d) == "\n" + tag + ("\n" + d.content);
  }

  /** For every context document the prompt carries its index line, numbered
      from 1. */
  lemma PromptIndexesEverySource(query: string, docs: seq<Document>, format: Option<string>, i: nat)
    requires i < |docs|
    ensures Contains(Join("\n", PromptLines(query, docs, format)), IndexLine(i + 1, docs[i]))
  {
    var index := ["Sources Index:"] + IndexLines(docs);
    var line := IndexLine(i + 1, docs[i]);
    assert index[i + 1] == line;
    ContainsAt(line, line, 0);
    ContainsInPart("\n", index, i + 1, line);
    ContainsConcat("\n", Join("\n", index), "");
    assert "\n" + Join("\n", index) + "" == "\n" + Join("\n", index);
    ContainsTrans("\n" + Join("\n", index), Join("\n", index), line);
    PromptLinesAt(query, docs, format);
    ContainsInPart("\n", PromptLines(query, docs, format), 17 + |docs|, line);
  }

  // ------------------------------------------------------- text extraction

  /** One element of a list-valued message content. */
  datatype Part =
    | StrPart(s: string)
    | DictPart(fields: map<string, Value>)
    | TextPart(text: string)       // an object whose `text` attribute is a string
    | OtherPart(repr: string)      // anything else, with its `str()`

  datatype Content =
    | StrContent(s: string)
    | ListContent(parts: seq<Part>)
    | OtherContent(repr: string)

  /** The raw reply of the chat model. */
  datatype Raw =
    | Message(content: Content)    // has a `content` attribute
    | TextObject(text: string)     // no `content`, a string `text` attribute
    | RawString(s: string)
    | RawDict(fields: map<string, Value>, repr: string)
    | RawOther(repr: string)

  /** The text a part contributes: none, or one (possibly empty) string. */
  function PartText(p: Part): (r: seq<string>)
    ensures |r| <= 1
  {
    match p
    case StrPart(s) => [s]
    case DictPart(m) =>
      (match Or(Get(m, "text", Null), Get(m, "content", Null))
       case Str(s) => [s]
       case _ => [])
    case TextPart(t) => [t]
    case OtherPart(r) => [r]
  }

  function NonEmpty(xs: seq<string>): (r: seq<string>)
    ensures forall k :: 0 <= k < |r| ==> r[k] != ""
  {
    if xs == [] then []
    else NonEmpty(xs[..|xs| - 1]) + (if xs[|xs| - 1] != "" then [xs[|xs| - 1]] else [])
  }

  function PartsText(parts: seq<Part>): seq<string>
  {
    NonEmpty(Concat(Map(PartText, parts)))
  }

  /** The text extraction of `generate_response`. */
  function ExtractText(raw: Raw): string
  {
    match raw
    case Message(StrContent(s)) => s
    case Message(ListContent(parts)) => Join("\n", PartsText(parts))
    case Message(OtherContent(r)) => r
    case TextObject(t) => t
    case RawString(s) => s
    case RawDict(m, r) => if "text" in m && m["text"].Str? then m["text"].s else r
    case RawOther(r) => r
  }

  /** Empty parts leave no trace: a trailing empty text part changes nothing. */
  lemma ExtractIgnoresEmptyPart(parts: seq<Part>)
    ensures ExtractText(Message(ListContent(parts + [StrPart("")])))
         == ExtractText(Message(ListContent(parts)))
  {
    MapAppend(PartText, parts, StrPart(""));
    assert PartText(StrPart("")) == [""];
    ConcatAppend(Map(PartText, parts), [""]);
    var ys := Concat(Map(PartText, parts));
    var xs := ys + [""];
    assert Concat(Map(PartText, parts + [StrPart("")])) == xs;
    assert xs[..|xs| - 1] == ys;
    assert NonEmpty(xs) == NonEmpty(ys) + [];
    assert NonEmpty(ys) + [] == NonEmpty(ys);
    assert PartsText(parts + [StrPart("")]) == PartsText(parts);
  }

  /** A list of plain string parts is joined with newlines once the empty
      ones are dropped. */
  lemma {:induction false} ExtractOfStringParts(parts: seq<Part>)
    requires forall k :: 0 <= k < |parts| ==> parts[k].StrPart?
    ensures ExtractText(Message(ListContent(parts)))
         == Join("\n", NonEmpty(seq(|parts|, k requires 0 <= k < |parts| => parts[k].s)))
  {
    StringPartsText(parts);
  }

  lemma {:induction false} StringPartsText(parts: seq<Part>)
    requires forall k :: 0 <= k < |parts| ==> parts[k].StrPart?
    ensures Concat(Map(PartText, parts)) == seq(|parts|, k requires 0 <= k < |parts| => parts[k].s)
  {
    if parts != [] {
      var init := parts[..|parts| - 1];
      StringPartsText(init);
      MapAppend(PartText, init, parts[|parts| - 1]);
      assert init + [parts[|parts| - 1]] == parts;
      ConcatAppend(Map(PartText, init), PartText(parts[|parts| - 1]));
    }
  }

  // ------------------------------------------------------------- validation

  const CitePrefix: string := "[Source ID: "

  /** The captures of `re.finditer(r'\[Source ID: ([^\]]+)\]', s)`: scanning
      left to right, a match needs the prefix, at least one character other
      than ']' and a closing ']'; the scan resumes after a match, or one
      character further on after a failed attempt. */
  function Captures(s: string): (r: seq<string>)
    ensures forall k :: 0 <= k < |r| ==> r[k] != "" && ']' !in r[k]
    decreases |s|
  {
    if |s| < |CitePrefix| then []
    else if s[..|CitePrefix|] == CitePrefix then
      var rest := s[|CitePrefix|..];
      var k := IndexOf(rest, ']');
      if 0 < k < |rest| then [rest[..k]] + Captures(rest[k + 1..]) else Captures(s[1..])
    else Captures(s[1..])
  }

  /** A citation tag at the front is captured whole, whatever its id holds
      besides ']' — so "[Source ID: 1, 2]" yields the single id "1, 2". */
  lemma CapturesOfTag(id: string, tail: string)
    requires id != "" && ']' !in id
    ensures Captures(CitationTag(id) + tail) == [id] + Captures(tail)
  {
    var s := CitationTag(id) + tail;
    assert s[..|CitePrefix|] == CitePrefix;
    var rest := s[|CitePrefix|..];
    assert rest == id + "]" + tail;
    assert rest[|id|] == ']';
    assert IndexOf(rest, ']') == |id|;
    assert rest[..|id|] == id;
    assert rest[|id| + 1..] == tail;
  }

  lemma CapturesOfMultiIdTag()
    ensures Captures("[Source ID: 1, 2]") == ["1, 2"]
  {
    CapturesOfTag("1, 2", "");
    assert CitationTag("1, 2") + "" == "[Source ID: 1, 2]";
  }

  datatype Warning =
    | ManyUncited(ids: set<Value>)
    | SomeUncited(ids: set<Value>)
    | TooShort
    | Speculation(marker: string)

  datatype Validation = Validation(passed: bool, warnings: seq<Warning>, sourceCoverage: real)

  const Markers: seq<string> := ["I believe", "I think", "probably", "might be", "could be"]

  /** The set of cited ids; an id is compared with the provenance ids as a
      string value. */
  function CitedSet(caps: seq<string>): set<Value>
  {
    if caps == [] then {} else CitedSet(caps[..|caps| - 1]) + {Str(caps[|caps| - 1])}
  }

  function Available(sources: seq<ContextManager.SourceInfo>): set<Value>
  {
    set s | s in sources :: s.sourceId
  }

  predicate IsDrugbank(avail: set<Value>)
  {
    exists v :: v in avail && Contains(Lower(Show(v)), "drugbank")
  }

  function UncitedThreshold(avail: set<Value>): real
  {
    if IsDrugbank(avail) then 0.9 else 0.7
  }

  /** `len(uncited) > len(available_sources) * uncited_threshold` */
  predicate ManyUncitedRule(avail: set<Value>, cited: set<Value>)
  {
    |avail - cited| as real > |avail| as real * UncitedThreshold(avail)
  }

  function Coverage(avail: set<Value>, cited: set<Value>): real
  {
    if avail == {} then 0.0 else |cited| as real / |avail| as real
  }

  /** The speculation warnings for the markers found in the lower-cased text,
      in marker order. */
  function SpeculationWarnings(lowered: string, markers: seq<string>): (r: seq<Warning>)
    ensures |r| <= |markers|
  {
    if markers == [] then []
    else
      var m := markers[|markers| - 1];
      SpeculationWarnings(lowered, markers[..|markers| - 1])
      + (if Contains(lowered, m) then [Speculation(m)] else [])
  }

  function UncitedWarnings(avail: set<Value>, cited: set<Value>): seq<Warning>
  {
    if ManyUncitedRule(avail, cited) then [ManyUncited(avail - cited)]
    else if avail - cited != {} then [SomeUncited(avail - cited)]
    else []
  }

  /** The citation loop of `validate_response`. */
  method CollectCitations(text: string) returns (cited: set<Value>)
    ensures cited == CitedSet(Captures(text))
  {
    var caps := Captures(text);
    cited := {};
    var i := 0;
    while i < |caps|
      invariant 0 <= i <= |caps|
      invariant cited == CitedSet(caps[..i])
    {
      assert caps[..i + 1][..i] == caps[..i];
      cited := cited + {Str(caps[i])};
      i := i + 1;
    }
    assert caps[..i] == caps;
  }

  /** The speculation-marker loop of `validate_response`. */
  method ScanMarkers(lowered: string) returns (ws: seq<Warning>)
    ensures ws == SpeculationWarnings(lowered, Markers)
  {
    ws := [];
    var j := 0;
    while j < |Markers|
      invariant 0 <= j <= |Markers|
      invariant ws == SpeculationWarnings(lowered, Markers[..j])
    {
      assert Markers[..j + 1][..j] == Markers[..j];
      if Contains(lowered, Markers[j]) {
        ws := ws + [Speculation(Markers[j])];
      }
      j := j + 1;
    }
    assert Markers[..j] == Markers;
  }

  /** `validate_response` */
  method ValidateResponse(text: string, sources: seq<ContextManager.SourceInfo>)
    returns (v: Validation)
    ensures var avail, cited := Available(sources), CitedSet(Captures(text));
      && v.sourceCoverage == Coverage(avail, cited)
      && (v.passed <==> !(ManyUncitedRule(avail, cited) && !IsDrugbank(avail)))
      && v.warnings == UncitedWarnings(avail, cited)
                       + (if WordCount(text) < 15 then [TooShort] else [])
                       + SpeculationWarnings(Lower(text), Markers)
  {
    var cited := CollectCitations(text);
    var avail := Available(sources);
    var coverage := 0.0;
    if avail != {} {
      coverage := |cited| as real / |avail| as real;
    }
    var uncited := avail - cited;
    var drugbank := IsDrugbank(avail);
    var threshold := if drugbank then 0.9 else 0.7;
    assert threshold == UncitedThreshold(avail);
    var passed := true;
    var warnings: seq<Warning> := [];
    if |uncited| as real > |avail| as real * threshold {
      assert ManyUncitedRule(avail, cited);
      warnings := [ManyUncited(uncited)];
      if !drugbank {
        passed := false;
      }
    } else if uncited != {} {
      warnings := [SomeUncited(uncited)];
    }
    assert warnings == UncitedWarnings(avail, cited);
    if WordCount(text) < 15 {
      warnings := warnings + [TooShort];
    } else {
      assert warnings + [] == warnings;
    }
    var speculation := ScanMarkers(Lower(text));
    warnings := warnings + speculation;
    v := Validation(passed, warnings, coverage);
  }

  /** The two first-person markers are written with a capital 'I' and matched
      against lower-cased text, so they are never reported. */
  lemma FirstPersonMarkersNeverFire(text: string)
    ensures Speculation("I believe") !in SpeculationWarnings(Lower(text), Markers)
    ensures Speculation("I think") !in SpeculationWarnings(Lower(text), Markers)
  {
    LowerMissesUpper(text, "I believe", 0);
    LowerMissesUpper(text, "I think", 0);
    SpeculationOnlyFound(Lower(text), Markers);
  }

  lemma {:induction false} SpeculationOnlyFound(lowered: string, markers: seq<string>)
    ensures forall w :: w in SpeculationWarnings(lowered, markers) ==>
      w.Speculation? && w.marker in markers && Contains(lowered, w.marker)
  {
    if markers != [] {
      SpeculationOnlyFound(lowered, markers[..|markers| - 1]);
    }
  }

  /** Validation fails only in the many-uncited branch, and never when some
      available id mentions DrugBank. */
  lemma FailureNeedsManyUncited(avail: set<Value>, cited: set<Value>, v: Validation)
    requires v.passed <==> !(ManyUncitedRule(avail, cited) && !IsDrugbank(avail))
    requires v.warnings == UncitedWarnings(avail, cited)
    ensures !v.passed ==> |v.warnings| == 1 && v.warnings[0] == ManyUncited(avail - cited)
    ensures IsDrugbank(avail) ==> v.passed
    ensures cited >= avail ==> v.passed && v.warnings == []
  {
    if cited >= avail {
      assert avail - cited == {};
    }
  }

  lemma {:induction false} CitedSetMembers(caps: seq<string>)
    ensures forall v :: v in CitedSet(caps) <==> v.Str? && v.s in caps
  {
    if caps != [] {
      CitedSetMembers(caps[..|caps| - 1]);
      assert caps == caps[..|caps| - 1] + [caps[|caps| - 1]];
    }
  }

  /** Ids cited but absent from the provenance still count, so coverage can
      exceed 1: with one available source, a reply citing it and one other
      id has coverage 2. */
  lemma CoverageCanExceedOne(src: ContextManager.SourceInfo, x: string, y: string)
    requires x != "" && ']' !in x && y != "" && ']' !in y && x != y
    requires src.sourceId == Str(x)
    ensures Coverage(Available([src]), CitedSet(Captures(CitationTag(x) + CitationTag(y)))) == 2.0
  {
    CapturesOfTwoTags(x, y);
    CitedTwo(x, y);
    AvailableOne(src);
    assert |{Str(x), Str(y)}| == 2;
  }

  lemma CitedTwo(x: string, y: string)
    ensures CitedSet([x, y]) == {Str(x), Str(y)}
  {
    var caps := [x, y];
    assert caps[..1] == [x];
    assert [x][..0] == [];
    assert CitedSet([x]) == {Str(x)};
  }

  lemma AvailableOne(src: ContextManager.SourceInfo)
    ensures Available([src]) == {src.sourceId}
  {
  }

  lemma CapturesOfTwoTags(x: string, y: string)
    requires x != "" && ']' !in x && y != "" && ']' !in y
    ensures Captures(CitationTag(x) + CitationTag(y)) == [x, y]
  {
    CapturesOfTag(y, "");
    assert CitationTag(y) + "" == CitationTag(y);
    CapturesOfTag(x, CitationTag(y));
  }

  // -------------------------------------------------------------- responses

  /** The generator's constructor arguments that `format_response` reports. */
  datatype Generator = Generator(modelName: string, temperature: real)

  const DefaultGenerator: Generator := Generator("gemini-2.5-flash-lite", 0.3)

  /** The `metadata` entry of a formatted response; the timestamp is the
      moment of formatting, in whole seconds. */
  datatype ResponseMetadata = ResponseMetadata(timestamp: int, model: string, temperature: real)

  /** The formatted response: the query, the model's text, the metadata and
      the provenance it was generated from. */
  datatype Response = Response(query: string, text: string, metadata: ResponseMetadata,
                               provenance: ContextManager.Provenance)

  /** `format_response` at time `now`. */
  function FormatResponse(gen: Generator, text: string, prov: ContextManager.Provenance,
                          query: string, now: int): (r: Response)
    ensures r.query == query && r.text == text && r.provenance == prov
    ensures r.metadata.timestamp == now
    ensures r.metadata.model == gen.modelName && r.metadata.temperature == gen.temperature
  {
    Response(query, text, ResponseMetadata(now, gen.modelName, gen.temperature), prov)
  }

  /** `generate_response` at time `now`: build the prompt, ask the model,
      extract its text and format it. */
  method GenerateResponse(gen: Generator, query: string, docs: seq<Document>, prov: ContextManager.Provenance,
                          format: Option<string>, llm: string -> Raw, now: int)
    returns (prompt: string, r: Response)
    ensures prompt == Join("\n", PromptLines(query, docs, format))
    ensures r.query == query && r.text == ExtractText(llm(prompt)) && r.provenance == prov
    ensures r.metadata == ResponseMetadata(now, gen.modelName, gen.temperature)
  {
    prompt := ConstructPrompt(query, docs, format);
    r := FormatResponse(gen, ExtractText(llm(prompt)), prov, query, now);
  }

  datatype SourceSummary = SourceSummary(id: Value, sourceType: Value, date: Value, relevanceScore: real)

  datatype Metrics = Metrics(
    sourceCoverage: real,
    averageSourceScore: real,
    validationPassed: bool,
    detailed: Option<real>)

  datatype Enhanced = Enhanced(
    response: Response,
    validation: Validation,
    sourceSummary: seq<SourceSummary>,
    metrics: Metrics)

  function SummaryOf(s: ContextManager.SourceInfo): SourceSummary
  {
    SourceSummary(s.sourceId, Get(s.metadata, "source_type", Str("unknown")),
                  Get(s.metadata, "date", Str("unknown")), s.score)
  }

  function ScoreOf(s: ContextManager.SourceInfo): real { s.score }

  function AverageScore(sources: seq<ContextManager.SourceInfo>): real
  {
    if sources == [] then 0.0 else SumReal(Map(ScoreOf, sources)) / |sources| as real
  }

  /** The source-summary loop of `enhance_response`. */
  method SummarizeSources(sources: seq<ContextManager.SourceInfo>) returns (summary: seq<SourceSummary>)
    ensures summary == Map(SummaryOf, sources)
  {
    summary := [];
    var i := 0;
    while i < |sources|
      invariant 0 <= i <= |sources|
      invariant |summary| == i
      invariant forall k :: 0 <= k < i ==> summary[k] == SummaryOf(sources[k])
    {
      summary := summary + [SummaryOf(sources[i])];
      i := i + 1;
    }
    MapEq(SummaryOf, sources, summary);
  }

  /** `enhance_response`. A provenance entry has no 'text' key, so every
      evidence text is '' and the detailed confidence depends on the reply
      text alone. */
  method EnhanceResponse(resp: Response, validation: Validation, nli: seq<string> -> bool,
                         embed: string -> Option<Confidence.Vector>,
                         cosine: (Confidence.Vector, Confidence.Vector) -> real)
    returns (e: Enhanced)
    ensures e.response == resp && e.validation == validation
    ensures e.sourceSummary == Map(SummaryOf, resp.provenance.sources)
    ensures e.metrics.sourceCoverage == validation.sourceCoverage
    ensures e.metrics.validationPassed == validation.passed
    ensures e.metrics.averageSourceScore == AverageScore(resp.provenance.sources)
    ensures e.metrics.detailed == Some(Confidence.WithoutEvidence(TextUtils.CleanText(resp.text)))
  {
    var sources := resp.provenance.sources;
    var summary := SummarizeSources(sources);
    var evidence := seq(|sources|, k => "");
    Confidence.CleanEvidenceOfBlanks(evidence);
    var conf := Confidence.EvaluateConfidence(resp.text, evidence, nli, embed, cosine);
    var h := TextUtils.CleanText(resp.text);
    Confidence.ConfidenceOfNoEvidence(h, nli, embed, cosine);
    assert conf == 100.0 * (0.4 * Confidence.EvidenceScore([]) + 0.35 * Confidence.ConsistencyScore([], nli, embed, cosine)
                     + 0.25 * Confidence.Novelty(h));
    assert conf == Confidence.WithoutEvidence(h);
    var total := SumReal(Map(ScoreOf, sources));
    var average := if |sources| > 0 then total / |sources| as real else 0.0;
    e := Enhanced(resp, validation, summary, Metrics(validation.sourceCoverage, average, validation.passed, Some(conf)));
  }
}
