/**
 * Hypothesis synthesis: the evidence section and the instruction prompt
 * handed to the generation model, the extraction of the generated text from
 * the model's response, and the error strings returned in its place. The
 * generation call is an input.
 */
module HypothesisSynthesizer {
  import opened Common

  // ---------------------------------------------------------- evidence

  const LiteratureHeader := "Literature Findings:"
  const ProteinHeader := "\nProtein Analysis:"
  const DrugHeader := "\nDrug Information:"
  const ImagingHeader := "\nImaging / Figures:"
  const NoLiterature := "- No published research data available."
  const NoProtein := "- No protein interaction data available."
  const NoDrug := "- No pharmaceutical data available."

  /** A value of the image payload: a string, or another object whose
      `repr` succeeded (`Some`) or raised (`None`). */
  datatype ImageValue = Text(s: string) | Other(repr: Option<string>)

  function Bullet(s: string): string
  {
    "- " + s
  }

  /** `f"- {k}: {text}"` with a non-string value shown by its `repr`. */
  function ImageLine(entry: (string, ImageValue)): string
  {
    var text := match entry.1
      case Text(s) => s
      case Other(r) => if r.Some? then r.value else "<unserializable>";
    "- " + entry.0 + ": " + text
  }

  /** A header, then one bullet per item or the placeholder when there is
      none. */
  function Section(header: string, items: seq<string>, placeholder: string): (r: seq<string>)
    ensures |r| == SectionLength(items) && r[0] == header
  {
    [header] + (if items != [] then Map(Bullet, items) else [placeholder])
  }

  /** The number of lines of a section. */
  function SectionLength(items: seq<string>): nat
  {
    1 + (if items == [] then 1 else |items|)
  }

  /** The lines of `_build_evidence_prompt`; the image payload is the
      dictionary's items in order. */
  function EvidenceLines(lit: seq<string>, prot: seq<string>, drug: seq<string>,
                         image: seq<(string, ImageValue)>): (r: seq<string>)
    ensures |r| == SectionLength(lit) + SectionLength(prot) + SectionLength(drug)
                   + (if image == [] then 0 else 1 + |image|)
  {
    Section(LiteratureHeader, lit, NoLiterature) + Section(ProteinHeader, prot, NoProtein)
      + Section(DrugHeader, drug, NoDrug)
      + (if image != [] then [ImagingHeader] + Map(ImageLine, image) else [])
  }

  function Evidence(lit: seq<string>, prot: seq<string>, drug: seq<string>,
                    image: seq<(string, ImageValue)>): string
  {
    Join("\n", EvidenceLines(lit, prot, drug, image))
  }

  /** `_build_evidence_prompt` */
  method BuildEvidence(lit: seq<string>, prot: seq<string>, drug: seq<string>,
                       image: seq<(string, ImageValue)>) returns (evidence: string)
    ensures evidence == Evidence(lit, prot, drug, image)
  {
    var sections := AddSection([], LiteratureHeader, lit, NoLiterature);
    assert sections == Section(LiteratureHeader, lit, NoLiterature);
    sections := AddSection(sections, ProteinHeader, prot, NoProtein);
    sections := AddSection(sections, DrugHeader, drug, NoDrug);
    sections := AddImaging(sections, image);
    evidence := Join("\n", sections);
  }

  /** One section: its header, then its bullets or its placeholder. */
  method AddSection(sections: seq<string>, header: string, items: seq<string>, placeholder: string)
    returns (sections': seq<string>)
    ensures sections' == sections + Section(header, items, placeholder)
  {
    sections' := sections + [header];
    if items != [] {
      sections' := sections' + Map(Bullet, items);
    } else {
      sections' := sections' + [placeholder];
    }
  }

  /** The optional imaging section, one line per payload entry. */
  method AddImaging(sections: seq<string>, image: seq<(string, ImageValue)>) returns (sections': seq<string>)
    ensures sections' == sections + (if image != [] then [ImagingHeader] + Map(ImageLine, image) else [])
  {
    sections' := sections;
    if image != [] {
      sections' := sections' + [ImagingHeader];
      var i := 0;
      while i < |image|
        invariant 0 <= i <= |image|
        invariant sections' == sections + [ImagingHeader] + Map(ImageLine, image[..i])
      {
        TakeSnoc(image, i);
        MapAppend(ImageLine, image[..i], image[i]);
        sections' := sections' + [ImageLine(image[i])];
        i := i + 1;
      }
      TakeAll(image);
    }
  }

  /** A section is its header followed by exactly one line per item, each the
      item as a bullet, or by the placeholder alone. */
  lemma SectionShape(header: string, items: seq<string>, placeholder: string)
    ensures var s := Section(header, items, placeholder);
      && s[0] == header
      && |s| == 1 + (if items == [] then 1 else |items|)
      && (items == [] ==> s[1] == placeholder)
      && (forall k :: 0 <= k < |items| ==> s[k + 1] == "- " + items[k])
  {
  }

  /** The sections come in the order literature, protein, drug, imaging;
      the imaging section is there exactly when the payload is non-empty,
      with one line per entry. */
  lemma EvidenceOrder(lit: seq<string>, prot: seq<string>, drug: seq<string>, image: seq<(string, ImageValue)>)
    ensures var ls := EvidenceLines(lit, prot, drug, image);
      var n1, n2, n3 := SectionLength(lit), SectionLength(prot), SectionLength(drug);
      && |ls| == n1 + n2 + n3 + (if image == [] then 0 else 1 + |image|)
      && ls[0] == LiteratureHeader && ls[n1] == ProteinHeader && ls[n1 + n2] == DrugHeader
      && (image != [] ==>
            (ls[n1 + n2 + n3] == ImagingHeader &&
             forall k :: 0 <= k < |image| ==> ls[n1 + n2 + n3 + 1 + k] == ImageLine(image[k])))
  {
    var n1, n2, n3 := SectionLength(lit), SectionLength(prot), SectionLength(drug);
    var head := SectionsHead(lit, prot, drug);
    if image != [] {
      var tail := [ImagingHeader] + Map(ImageLine, image);
      assert EvidenceLines(lit, prot, drug, image) == head + tail;
      forall k | 0 <= k < |image|
        ensures (head + tail)[n1 + n2 + n3 + 1 + k] == ImageLine(image[k])
      {
        AppendIndex(head, tail, 1 + k);
      }
      AppendIndex(head, tail, 0);
      AppendPrefix(head, tail, 0);
      AppendPrefix(head, tail, n1);
      AppendPrefix(head, tail, n1 + n2);
    } else {
      assert EvidenceLines(lit, prot, drug, image) == head;
    }
  }

  /** The three fixed sections, with their headers where their lengths put them. */
  lemma SectionsHead(lit: seq<string>, prot: seq<string>, drug: seq<string>) returns (head: seq<string>)
    ensures head == Section(LiteratureHeader, lit, NoLiterature) + Section(ProteinHeader, prot, NoProtein)
                    + Section(DrugHeader, drug, NoDrug)
    ensures var n1, n2, n3 := SectionLength(lit), SectionLength(prot), SectionLength(drug);
      |head| == n1 + n2 + n3 && head[0] == LiteratureHeader && head[n1] == ProteinHeader && head[n1 + n2] == DrugHeader
  {
    var s1, s2, s3 := Section(LiteratureHeader, lit, NoLiterature), Section(ProteinHeader, prot, NoProtein),
                      Section(DrugHeader, drug, NoDrug);
    SectionShape(LiteratureHeader, lit, NoLiterature);
    SectionShape(ProteinHeader, prot, NoProtein);
    SectionShape(DrugHeader, drug, NoDrug);
    head := s1 + s2 + s3;
    AppendIndex(s1, s2, 0);
    AppendIndex(s1 + s2, s3, 0);
    AppendPrefix(s1, s2, 0);
    AppendPrefix(s1 + s2, s3, 0);
    AppendPrefix(s1 + s2, s3, |s1|);
  }

  /** Every literature finding appears in the evidence as a bullet. */
  lemma FindingInEvidence(lit: seq<string>, prot: seq<string>, drug: seq<string>,
                          image: seq<(string, ImageValue)>, k: nat)
    requires k < |lit|
    ensures Contains(Evidence(lit, prot, drug, image), "- " + lit[k])
  {
    EvidenceOrder(lit, prot, drug, image);
    JoinContainsPart("\n", EvidenceLines(lit, prot, drug, image), k + 1);
  }

  // ---------------------------------------------------------- prompt

  const PromptHead := "You are a biomedical research expert. Based on the available evidence below, analyze this research question: "
  /** The instructions after the evidence, line by line. */
  const PromptTailLines: seq<string> := [
    "Generate a focused biomedical hypothesis and analysis with clear sections:", "",
    "1. A specific testable hypothesis", "2. The underlying biological mechanisms",
    "3. Key supporting evidence from the data", "4. Clinical and therapeutic implications",
    "5. Concrete next research steps", "", "Format exactly as:", "",
    "HYPOTHESIS:", "[A clear, testable scientific hypothesis]", "",
    "MECHANISM:", "[Key biological pathways and mechanisms]", "",
    "EVIDENCE:", "[Summary of supporting data]", "",
    "IMPLICATIONS:", "[Clinical/therapeutic relevance]", "",
    "NEXT STEPS:", "[Specific research priorities]"]
  const PromptTail := Join("\n", PromptTailLines)

  const ParagraphBreak := "\n\n"

  /** `_build_prompt(query, evidence)` */
  function BuildPrompt(query: string, evidence: string): string
  {
    PromptHead + query + ParagraphBreak + evidence + ParagraphBreak + PromptTail
  }

  /** The prompt holds the query and the evidence verbatim, at positions
      fixed by the query's length, so both can be read back from it. */
  lemma PromptEmbeds(query: string, evidence: string)
    ensures var p := BuildPrompt(query, evidence);
      var q0 := |PromptHead|;
      var e0 := q0 + |query| + |ParagraphBreak|;
      && p[q0..q0 + |query|] == query
      && p[e0..e0 + |evidence|] == evidence
      && PromptHead <= p
  {
    Framed(PromptHead, query, ParagraphBreak, evidence, PromptTail);
  }

  lemma Framed(h: string, q: string, sep: string, e: string, t: string)
    ensures var p := h + q + sep + e + sep + t;
      && p[|h|..|h| + |q|] == q
      && p[|h| + |q| + |sep|..|h| + |q| + |sep| + |e|] == e
      && h <= p
  {
    var p := h + q + sep + e + sep + t;
    assert p == (h + q + sep) + e + (sep + t);
    assert p == h + q + (sep + e + sep + t);
  }

  // ---------------------------------------------------------- extraction

  /** A part of a candidate's content: one with a string `text`, or one
      without. */
  datatype Part = TextPart(text: string) | OtherPart

  /** A candidate: one whose attributes raise when read, one with no
      content, or one whose content has these parts. */
  datatype Candidate = Broken | NoContent | Parts(parts: seq<Part>)

  /** The non-blank texts of the parts, in order. */
  function Texts(ps: seq<Part>): (r: seq<string>)
    ensures forall t :: t in r ==> !IsBlank(t)
  {
    if ps == [] then []
    else
      var p := ps[|ps| - 1];
      Texts(ps[..|ps| - 1]) + (if p.TextPart? && !IsBlank(p.text) then [p.text] else [])
  }

  /** `_extract_text_from_genai_response`: the first candidate with a
      non-blank text part gives its texts joined with newlines and stripped;
      a candidate that raises ends the scan with "". */
  function Extract(cs: seq<Candidate>): string
  {
    if cs == [] then ""
    else match cs[0]
      case Broken => ""
      case NoContent => Extract(cs[1..])
      case Parts(ps) =>
        if Texts(ps) != [] then Strip(Join("\n", Texts(ps))) else Extract(cs[1..])
  }

  method ExtractText(cs: seq<Candidate>) returns (text: string)
    ensures text == Extract(cs)
  {
    var i := 0;
    while i < |cs|
      invariant 0 <= i <= |cs|
      invariant Extract(cs) == Extract(cs[i..])
    {
      assert cs[i..][1..] == cs[i + 1..];
      match cs[i] {
        case Broken =>
          return "";
        case NoContent =>
        case Parts(ps) =>
          var texts := CollectTexts(ps);
          if texts != [] {
            return Strip(Join("\n", texts));
          }
      }
      i := i + 1;
    }
    return "";
  }

  /** The part loop of one candidate. */
  method CollectTexts(ps: seq<Part>) returns (texts: seq<string>)
    ensures texts == Texts(ps)
  {
    texts := [];
    var j := 0;
    while j < |ps|
      invariant 0 <= j <= |ps|
      invariant texts == Texts(ps[..j])
    {
      TakeNext([], ps, j);
      if ps[j].TextPart? && !IsBlank(ps[j].text) {
        texts := texts + [ps[j].text];
      }
      j := j + 1;
    }
    TakeAll(ps);
  }

  /** Joining non-blank texts gives a non-blank text. */
  lemma JoinNonBlank(sep: string, ts: seq<string>)
    requires ts != [] && !IsBlank(ts[0])
    ensures !IsBlank(Join(sep, ts))
  {
    var k :| 0 <= k < |ts[0]| && !IsSpace(ts[0][k]);
    if |ts| > 1 {
      assert Join(sep, ts) == ts[0] + (sep + Join(sep, ts[1..]));
    }
    assert Join(sep, ts)[k] == ts[0][k];
  }

  /** The extracted text is empty exactly when no candidate with a non-blank
      text part comes before the first broken one; otherwise it is the
      stripped join of the first such candidate's texts. */
  lemma {:induction false} ExtractFirst(cs: seq<Candidate>) returns (j: int)
    ensures -1 <= j < |cs|
    ensures j == -1 <==> Extract(cs) == ""
    ensures j >= 0 ==>
      (cs[j].Parts? && Texts(cs[j].parts) != [] &&
       Extract(cs) == Strip(Join("\n", Texts(cs[j].parts))) &&
       forall i :: 0 <= i < j ==> cs[i].NoContent? || (cs[i].Parts? && Texts(cs[i].parts) == []))
    ensures j == -1 ==> forall i :: 0 <= i < |cs| && cs[i].Parts? && Texts(cs[i].parts) != [] ==>
      exists b :: 0 <= b < i && cs[b].Broken?
  {
    if cs == [] {
      j := -1;
    } else if cs[0].Broken? {
      j := -1;
    } else if cs[0].Parts? && Texts(cs[0].parts) != [] {
      j := 0;
      var ts := Texts(cs[0].parts);
      assert ts[0] in ts;
      JoinNonBlank("\n", ts);
      StripEmptyIffBlank(Join("\n", ts));
    } else {
      var r := ExtractFirst(cs[1..]);
      j := if r == -1 then -1 else r + 1;
      if r == -1 {
        forall i | 0 <= i < |cs| && cs[i].Parts? && Texts(cs[i].parts) != []
          ensures exists b :: 0 <= b < i && cs[b].Broken?
        {
          assert cs[i] == cs[1..][i - 1];
          var b :| 0 <= b < i - 1 && cs[1..][b].Broken?;
          assert cs[b + 1].Broken?;
        }
      } else {
        forall i | 0 <= i < j
          ensures cs[i].NoContent? || (cs[i].Parts? && Texts(cs[i].parts) == [])
        {
          if i > 0 {
            assert cs[i] == cs[1..][i - 1];
          }
        }
      }
    }
  }

  // ---------------------------------------------------------- synthesis

  /** The outcome of the generation call: a raised error with its message,
      or the response's candidates. */
  datatype Generation = Raised(message: string) | Response(candidates: seq<Candidate>)

  const NoTextError := "Error: Model returned no text. Please verify model name/permissions and try again."
  const ErrorPrefix := "Error generating hypothesis: "

  /** `synthesize_hypothesis`, with `generate` standing for the model call
      on the prompt. */
  function Synthesize(query: string, lit: seq<string>, prot: seq<string>, drug: seq<string>,
                      image: seq<(string, ImageValue)>, generate: string -> Generation): string
  {
    var g := generate(BuildPrompt(query, Evidence(lit, prot, drug, image)));
    if g.Raised? then ErrorPrefix + g.message
    else
      var h := Extract(g.candidates);
      if h == "" then NoTextError else h
  }

  /** The result is never empty: the generated text when there is one, the
      fixed no-text error when extraction finds nothing, and the error
      prefix and message when the call raises. */
  lemma SynthesizeOutcome(query: string, lit: seq<string>, prot: seq<string>, drug: seq<string>,
                          image: seq<(string, ImageValue)>, generate: string -> Generation)
    ensures var g := generate(BuildPrompt(query, Evidence(lit, prot, drug, image)));
      var r := Synthesize(query, lit, prot, drug, image, generate);
      && r != ""
      && (g.Raised? ==> ErrorPrefix <= r && r[|ErrorPrefix|..] == g.message)
      && (g.Response? && Extract(g.candidates) == "" ==> r == NoTextError)
      && (g.Response? && Extract(g.candidates) != "" ==> r == Extract(g.candidates))
  {
    var g := generate(BuildPrompt(query, Evidence(lit, prot, drug, image)));
    if g.Raised? {
      var r := ErrorPrefix + g.message;
      assert r[..|ErrorPrefix|] == ErrorPrefix;
      assert r[|ErrorPrefix|..] == g.message;
    }
  }
}
