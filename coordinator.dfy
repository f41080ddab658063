/**
 * The coordinator's pipeline (`CoordinatorAgent.run_pipeline`): the exit
 * taken when retrieval finds nothing, the partition of the retrieved
 * documents by source, the inputs built for the literature, protein and drug
 * agents, and the normalisation of the confidence result. Retrieval, the
 * analysis agents, generation and the confidence evaluator are inputs.
 */
module Coordinator {
  import opened Common
  import HypothesisSynthesizer

  /** A retrieved document: its `source` and `content` values and its
      metadata (`{}` when missing or `None`). */
  datatype Doc = Doc(source: Value, content: Value, metadata: map<string, Value>)

  /** The guidance returned when nothing was retrieved. */
  const Guidance := GuidanceLines[0] + GuidanceLines[1] + GuidanceLines[2]

  const GuidanceLines: seq<string> := [
    "No evidence was retrieved from the enabled sources for this question. ",
    "Try refining your query with more specific biomedical keywords (e.g., a condition, biomarker, or pathway), ",
    "or type 'help' to see example queries."]

  // ---------------------------------------------------------- partitions

  const PubmedSource := "pubmed"
  const UniprotSource := "uniprot"
  const DrugbankSource := "drugbank"
  const GoogleHealthSource := "google_health"

  /** `[d for d in docs if d.get('source') == src and d.get('content')]` */
  function Partition(docs: seq<Doc>, src: string): (r: seq<Doc>)
    ensures |r| <= |docs|
  {
    if docs == [] then []
    else
      var d := docs[|docs| - 1];
      Partition(docs[..|docs| - 1], src) + (if d.source == Str(src) && Truthy(d.content) then [d] else [])
  }

  /** A document lands in a partition exactly when its source is that one
      and its content is truthy; the partition keeps the retrieval order. */
  lemma {:induction false} PartitionExactly(docs: seq<Doc>, src: string, d: Doc)
    ensures d in Partition(docs, src) <==> d in docs && d.source == Str(src) && Truthy(d.content)
  {
    if docs != [] {
      var init := docs[..|docs| - 1];
      PartitionExactly(init, src, d);
      assert docs == init + [docs[|docs| - 1]];
    }
  }

  /** Partitions of different sources share no document. */
  lemma PartitionsDisjoint(docs: seq<Doc>, a: string, b: string, d: Doc)
    requires a != b
    ensures !(d in Partition(docs, a) && d in Partition(docs, b))
  {
    PartitionExactly(docs, a, d);
    PartitionExactly(docs, b, d);
  }

  // ---------------------------------------------------------- title fallback

  /** The index of the first `\n` in `s`, or `|s|`. */
  function NextBreak(s: string): (i: nat)
    ensures i <= |s| && (i < |s| ==> s[i] == '\n')
  {
    if s == [] || s[0] == '\n' then 0 else 1 + NextBreak(s[1..])
  }

  /** Where the first line of `s` that starts with `marker` starts, as
      `^` in multi-line mode finds it (at the start or after a `\n`). */
  function MarkedLine(s: string, marker: string): Option<nat>
    decreases |s|
  {
    if StartsWith(s, marker) then Some(0)
    else
      var i := NextBreak(s);
      if i < |s| then
        var r := MarkedLine(s[i + 1..], marker);
        if r.Some? then Some(i + 1 + r.value) else None
      else None
  }

  /** What `\s*(.*)$` captures after the marker: the leading whitespace is
      skipped, line breaks included, and the rest of that line is taken;
      the caller strips it. */
  function Capture(tail: string): string
  {
    var rest := StripLeft(tail);
    Strip(rest[..IndexOf(rest, '\n')])
  }

  /** `re.search(r"^Label:\s*(.*)$", content, re.MULTILINE)`, the group
      stripped. */
  function LabelMatch(s: string, marker: string): Option<string>
  {
    var line := MarkedLine(s, marker);
    if line.Some? && line.value + |marker| <= |s| then Some(Capture(s[line.value + |marker|..])) else None
  }

  /** `marker` occurs in `s` at `j`. */
  predicate MarkerAt(s: string, marker: string, j: nat)
  {
    j + |marker| <= |s| && s[j..j + |marker|] == marker
  }

  /** The line found starts with the marker. */
  lemma {:induction false} MarkedLineFound(s: string, marker: string)
    requires MarkedLine(s, marker).Some?
    ensures MarkerAt(s, marker, MarkedLine(s, marker).value)
    decreases |s|
  {
    if StartsWith(s, marker) {
      MarkedLineHere(s, marker);
    } else {
      var i := MarkedLineStep(s, marker);
      MarkedLineFound(s[i + 1..], marker);
      MarkerAtShift(s, marker, i + 1, MarkedLine(s[i + 1..], marker).value);
    }
  }

  lemma MarkedLineHere(s: string, marker: string)
    requires StartsWith(s, marker)
    ensures MarkedLine(s, marker) == Some(0) && MarkerAt(s, marker, 0)
  {
    assert s[0..|marker|] == s[..|marker|];
  }

  lemma MarkerAtShift(s: string, marker: string, d: nat, k: nat)
    requires d <= |s| && MarkerAt(s[d..], marker, k)
    ensures MarkerAt(s, marker, d + k)
  {
    assert s[d..][k..k + |marker|] == s[d + k..d + k + |marker|];
  }

  /** Past a first line without the marker, the search resumes after the
      line break `i`. */
  lemma MarkedLineStep(s: string, marker: string) returns (i: nat)
    requires MarkedLine(s, marker).Some? && !StartsWith(s, marker)
    ensures i < |s| && MarkedLine(s[i + 1..], marker).Some?
    ensures MarkedLine(s, marker).value == i + 1 + MarkedLine(s[i + 1..], marker).value
  {
    i := NextBreak(s);
  }

  /** The line found starts the content or follows a line break. */
  lemma {:induction false} MarkedLineStart(s: string, marker: string)
    requires MarkedLine(s, marker).Some?
    ensures var j := MarkedLine(s, marker).value;
      j == 0 || (j <= |s| && s[j - 1] == '\n')
    decreases |s|
  {
    if !StartsWith(s, marker) {
      var i := NextBreak(s);
      var next := s[i + 1..];
      var k := MarkedLine(next, marker).value;
      MarkedLineStart(next, marker);
      if k > 0 {
        assert next[k - 1] == s[i + k];
      }
    }
  }

  lemma LabelMatchLine(s: string, marker: string)
    requires LabelMatch(s, marker).Some?
    ensures MarkedLine(s, marker).Some?
  {
  }

  /** A marker found is in the content. */
  lemma LabelMatchFound(s: string, marker: string)
    requires LabelMatch(s, marker).Some?
    ensures Contains(s, marker)
  {
    LabelMatchLine(s, marker);
    MarkedLineContains(s, marker);
  }

  lemma MarkedLineContains(s: string, marker: string)
    requires MarkedLine(s, marker).Some?
    ensures Contains(s, marker)
  {
    MarkedLineFound(s, marker);
    var j := MarkedLine(s, marker).value;
    ContainsAt(s, marker, j);
  }

  /** Content opening with the marker: the capture is the remainder after
      leading whitespace, up to the next line break, stripped. */
  lemma LabelHead(marker: string, tail: string)
    ensures LabelMatch(marker + tail, marker) == Some(Capture(tail))
  {
    var s := marker + tail;
    assert s[..|marker|] == marker;
    assert s[|marker|..] == tail;
  }

  /** On a first line `marker x`, the capture is `x` stripped. */
  lemma LabelOnFirstLine(marker: string, x: string, rest: string)
    requires '\n' !in x && !IsBlank(x)
    ensures LabelMatch(marker + (x + "\n" + rest), marker) == Some(Strip(x))
  {
    LabelHead(marker, x + "\n" + rest);
    CaptureLine(x, rest);
  }

  /** `\s*` runs over a blank remainder and its line break: the capture is
      then the next line. */
  lemma BlankLabelTakesNextLine(marker: string, x: string, y: string, rest: string)
    requires '\n' !in y && IsBlank(x) && y != [] && !IsSpace(y[0])
    ensures LabelMatch(marker + (x + "\n" + y + "\n" + rest), marker) == Some(Strip(y))
  {
    LabelHead(marker, x + "\n" + y + "\n" + rest);
    CaptureSkipsBlank(x, y, rest);
  }

  lemma CaptureLine(x: string, rest: string)
    requires '\n' !in x && !IsBlank(x)
    ensures Capture(x + "\n" + rest) == Strip(x)
  {
    assert x + "\n" + rest == x + ("\n" + rest);
    StripLeftOfNonBlank(x, "\n" + rest);
    var l := StripLeft(x);
    StripLeftNoBreak(x);
    NoBreakIndex(l, rest);
    StripLeftIdem(x);
  }

  lemma StripLeftNoBreak(x: string)
    requires '\n' !in x
    ensures '\n' !in StripLeft(x)
  {
    var l := StripLeft(x);
    forall k | 0 <= k < |l|
      ensures l[k] != '\n'
    {
      assert l[k] == x[|x| - |l| + k];
    }
  }

  lemma CaptureSkipsBlank(x: string, y: string, rest: string)
    requires '\n' !in y && IsBlank(x) && y != [] && !IsSpace(y[0])
    ensures Capture(x + "\n" + y + "\n" + rest) == Strip(y)
  {
    assert x + "\n" + y + "\n" + rest == (x + "\n") + (y + ("\n" + rest));
    forall k | 0 <= k < |x + "\n"|
      ensures IsSpace((x + "\n")[k])
    {
      if k < |x| {
        assert (x + "\n")[k] == x[k];
      }
    }
    StripLeftBlank(x + "\n", y + ("\n" + rest));
    NoBreakIndex(y, rest);
  }

  lemma {:induction false} StripLeftOfNonBlank(x: string, tail: string)
    requires !IsBlank(x)
    ensures StripLeft(x + tail) == StripLeft(x) + tail
    decreases |x|
  {
    if IsSpace(x[0]) {
      assert (x + tail)[1..] == x[1..] + tail;
      StripLeftOfNonBlank(x[1..], tail);
    }
  }

  lemma {:induction false} StripLeftBlank(x: string, tail: string)
    requires IsBlank(x) && (tail == [] || !IsSpace(tail[0]))
    ensures StripLeft(x + tail) == tail
    decreases |x|
  {
    if x != [] {
      assert (x + tail)[1..] == x[1..] + tail;
      StripLeftBlank(x[1..], tail);
    } else {
      assert x + tail == tail;
    }
  }

  lemma NoBreakIndex(l: string, rest: string)
    requires '\n' !in l
    ensures IndexOf(l + ("\n" + rest), '\n') == |l|
    ensures (l + ("\n" + rest))[..|l|] == l
  {
    var s := l + ("\n" + rest);
    assert s[|l|] == '\n';
  }

  lemma {:induction false} StripLeftIdem(x: string)
    ensures StripLeft(StripLeft(x)) == StripLeft(x)
    ensures Strip(StripLeft(x)) == Strip(x)
    decreases |x|
  {
    if x != [] && IsSpace(x[0]) {
      StripLeftIdem(x[1..]);
    }
  }

  // ---------------------------------------------------------- agent inputs

  /** A paper handed to `summarize_papers`. */
  datatype Paper = Paper(title: Value, abstractText: Value)

  /** Title and abstract from the metadata; only the missing ones are taken
      from `Title:` / `Abstract:` lines of a string content. */
  function PaperOf(d: Doc): Paper
  {
    var title := Get(d.metadata, "title", Str(""));
    var abs := Get(d.metadata, "abstract", Str(""));
    if (!Truthy(title) || !Truthy(abs)) && d.content.Str? then
      var t := LabelMatch(d.content.s, "Title:");
      var a := LabelMatch(d.content.s, "Abstract:");
      Paper(if t.Some? && !Truthy(title) then Str(t.value) else title,
            if a.Some? && !Truthy(abs) then Str(a.value) else abs)
    else Paper(title, abs)
  }

  predicate HasText(p: Paper)
  {
    Truthy(p.title) || Truthy(p.abstractText)
  }

  predicate PaperHasText(d: Doc)
  {
    HasText(PaperOf(d))
  }

  /** A Google Health post as a paper: its summary (else its description)
      stands for the abstract. */
  function PostOf(d: Doc): Paper
  {
    Paper(Get(d.metadata, "title", Str("")),
          Get(d.metadata, "summary", Get(d.metadata, "description", Str(""))))
  }

  predicate PostHasText(d: Doc)
  {
    HasText(PostOf(d))
  }

  /** A protein handed to `parse_proteins`; `genes` falls back to `gene`. */
  datatype ProteinInput = ProteinInput(proteinName: Value, genes: Value, sequence: Value)

  function ProteinOf(d: Doc): ProteinInput
  {
    ProteinInput(Get(d.metadata, "protein_name", Str("")),
                 Get(d.metadata, "genes", Get(d.metadata, "gene", Str(""))),
                 Get(d.metadata, "sequence", Str("")))
  }

  /** A drug handed to `analyze_drugs`; `indication` falls back to
      `description`. */
  datatype DrugInput = DrugInput(name: Value, indication: Value)

  function DrugOf(d: Doc): DrugInput
  {
    DrugInput(Get(d.metadata, "name", Str("")),
              Get(d.metadata, "indication", Get(d.metadata, "description", Str(""))))
  }

  /** The filtering loop of one agent input list. */
  method Collect<A, B>(xs: seq<A>, keep: A -> bool, f: A -> B) returns (ys: seq<B>)
    ensures ys == FilterMap(xs, keep, f)
  {
    ys := [];
    var i := 0;
    while i < |xs|
      invariant 0 <= i <= |xs|
      invariant ys == FilterMap(xs[..i], keep, f)
    {
      TakeSnoc(xs, i);
      FilterMapAppend(xs[..i], keep, f, xs[i]);
      if keep(xs[i]) {
        ys := ys + [f(xs[i])];
      }
      i := i + 1;
    }
    TakeAll(xs);
  }

  /** A metadata title and abstract are used as they are; a document is
      handed on as a paper exactly when one of the two ends up truthy. */
  lemma PaperFromMetadata(d: Doc)
    requires Truthy(Get(d.metadata, "title", Str(""))) && Truthy(Get(d.metadata, "abstract", Str("")))
    ensures PaperOf(d) == Paper(Get(d.metadata, "title", Str("")), Get(d.metadata, "abstract", Str("")))
    ensures PaperHasText(d)
  {
  }

  /** A missing title is taken from the content's `Title:` line. */
  lemma TitleFromContent(d: Doc, x: string, rest: string)
    requires !Truthy(Get(d.metadata, "title", Str("")))
    requires d.content == Str("Title:" + (x + "\n" + rest)) && '\n' !in x && !IsBlank(x)
    ensures PaperOf(d).title == Str(Strip(x))
    ensures PaperHasText(d)
  {
    LabelOnFirstLine("Title:", x, rest);
    PaperTitle(d);
    StripEmptyIffBlank(x);
  }

  /** With no title in the metadata, a string content's `Title:` line, when
      there is one, gives the title. */
  lemma PaperTitle(d: Doc)
    requires !Truthy(Get(d.metadata, "title", Str(""))) && d.content.Str?
    ensures var t := LabelMatch(d.content.s, "Title:");
      PaperOf(d).title == if t.Some? then Str(t.value) else Get(d.metadata, "title", Str(""))
  {
  }

  // ---------------------------------------------------------- the pipeline

  /** What `evaluate_confidence` returned: a dictionary, a number, or
      anything else. */
  datatype Confidence = Dict(fields: map<string, Value>) | Number(x: real) | Unknown

  /** The confidence reported: the dictionary's `confidence_percentage`, the
      number as a float, or 0.0. */
  function NormalizeConfidence(c: Confidence): Value
  {
    match c
    case Dict(fs) => if "confidence_percentage" in fs then fs["confidence_percentage"] else Real(0.0)
    case Number(x) => Real(x)
    case Unknown => Real(0.0)
  }

  /** The analysis calls, each applied to the list it is handed. */
  datatype Agents = Agents(
    summarize: seq<Paper> -> seq<string>,
    parseProteins: seq<ProteinInput> -> seq<string>,
    analyzeDrugs: seq<DrugInput> -> seq<string>,
    generate: string -> HypothesisSynthesizer.Generation,
    evaluate: (string, seq<string>) -> Confidence)

  /** The lists each agent was handed, `None` for an agent not called. */
  datatype Calls = Calls(papers: Option<seq<Paper>>, proteins: Option<seq<ProteinInput>>,
                         drugs: Option<seq<DrugInput>>, posts: Option<seq<Paper>>, synthesized: bool)

  datatype Run = Run(hypothesis: string, confidence: Value, calls: Calls)

  /** Apply `f` when the list is non-empty. */
  function CallIf<A>(xs: seq<A>, f: seq<A> -> seq<string>): seq<string>
  {
    if xs != [] then f(xs) else []
  }

  function Handed<A>(xs: seq<A>): Option<seq<A>>
  {
    if xs != [] then Some(xs) else None
  }

  /** The lists handed to the agents. */
  datatype Inputs = Inputs(papers: seq<Paper>, proteins: seq<ProteinInput>, drugs: seq<DrugInput>, posts: seq<Paper>)

  /** The agent inputs built from the retrieved documents. */
  function InputsOf(docs: seq<Doc>): Inputs
  {
    Inputs(FilterMap(Partition(docs, PubmedSource), PaperHasText, PaperOf),
           Map(ProteinOf, Partition(docs, UniprotSource)),
           Map(DrugOf, Partition(docs, DrugbankSource)),
           FilterMap(Partition(docs, GoogleHealthSource), PostHasText, PostOf))
  }

  /** The literature summaries: the papers' then the posts'. */
  function Literature(ins: Inputs, agents: Agents): seq<string>
  {
    CallIf(ins.papers, agents.summarize) + CallIf(ins.posts, agents.summarize)
  }

  /** Analysis, synthesis and confidence once there is evidence. */
  function Analyze(question: string, ins: Inputs, agents: Agents): Run
  {
    var lit := Literature(ins, agents);
    var prot := CallIf(ins.proteins, agents.parseProteins);
    var drug := CallIf(ins.drugs, agents.analyzeDrugs);
    var h := HypothesisSynthesizer.Synthesize(question, lit, prot, drug, [], agents.generate);
    Run(h, NormalizeConfidence(agents.evaluate(h, lit + prot + drug)),
        Calls(Handed(ins.papers), Handed(ins.proteins), Handed(ins.drugs), Handed(ins.posts), true))
  }

  const NoEvidence := Run(Guidance, Real(0.0), Calls(None, None, None, None, false))

  /** `run_pipeline(question)` after retrieval returned `docs`. */
  function Pipeline(question: string, docs: seq<Doc>, agents: Agents): Run
  {
    if docs == [] then NoEvidence else Analyze(question, InputsOf(docs), agents)
  }

  /** The agent inputs, built loop by loop. */
  method AgentInputs(docs: seq<Doc>) returns (ins: Inputs)
    ensures ins == InputsOf(docs)
  {
    var papers := Collect(Partition(docs, PubmedSource), PaperHasText, PaperOf);
    var proteins := Collect(Partition(docs, UniprotSource), d => true, ProteinOf);
    FilterMapAll(Partition(docs, UniprotSource), d => true, ProteinOf);
    var drugs := Collect(Partition(docs, DrugbankSource), d => true, DrugOf);
    FilterMapAll(Partition(docs, DrugbankSource), d => true, DrugOf);
    var posts := Collect(Partition(docs, GoogleHealthSource), PostHasText, PostOf);
    ins := Inputs(papers, proteins, drugs, posts);
  }

  /** The analysis calls, each made only when its list is non-empty. */
  method RunAnalysis(question: string, ins: Inputs, agents: Agents) returns (run: Run)
    ensures run == Analyze(question, ins, agents)
  {
    var lit: seq<string> := [];
    if ins.papers != [] {
      lit := agents.summarize(ins.papers);
    }
    var prot: seq<string> := [];
    if ins.proteins != [] {
      prot := agents.parseProteins(ins.proteins);
    }
    var drug: seq<string> := [];
    if ins.drugs != [] {
      drug := agents.analyzeDrugs(ins.drugs);
    }
    if ins.posts != [] {
      lit := lit + agents.summarize(ins.posts);
    }
    assert lit == Literature(ins, agents);
    var h := HypothesisSynthesizer.Synthesize(question, lit, prot, drug, [], agents.generate);
    var conf := agents.evaluate(h, lit + prot + drug);
    run := Run(h, NormalizeConfidence(conf),
               Calls(Handed(ins.papers), Handed(ins.proteins), Handed(ins.drugs), Handed(ins.posts), true));
  }

  method RunPipeline(question: string, docs: seq<Doc>, agents: Agents) returns (run: Run)
    ensures run == Pipeline(question, docs, agents)
  {
    if docs == [] {
      return NoEvidence;
    }
    var ins := AgentInputs(docs);
    run := RunAnalysis(question, ins, agents);
  }

  /** With no documents the guidance and 0.0 come back and no agent runs;
      with documents the hypothesis is synthesised and is never empty, and
      each analysis agent is called, with its list, exactly when that list
      is non-empty. */
  lemma PipelineShape(question: string, docs: seq<Doc>, agents: Agents)
    ensures var r := Pipeline(question, docs, agents);
      && (r.calls.synthesized <==> docs != [])
      && (docs == [] ==> r.hypothesis == Guidance && r.confidence == Real(0.0) && r.calls == Calls(None, None, None, None, false))
      && (docs != [] ==> r.hypothesis != "")
      && (docs != [] ==> var ins := InputsOf(docs);
            && (r.calls.papers.Some? <==> ins.papers != []) && (r.calls.papers.Some? ==> r.calls.papers.value == ins.papers)
            && (r.calls.proteins.Some? <==> ins.proteins != []) && (r.calls.proteins.Some? ==> r.calls.proteins.value == ins.proteins)
            && (r.calls.drugs.Some? <==> ins.drugs != []) && (r.calls.drugs.Some? ==> r.calls.drugs.value == ins.drugs)
            && (r.calls.posts.Some? <==> ins.posts != []) && (r.calls.posts.Some? ==> r.calls.posts.value == ins.posts))
  {
    if docs != [] {
      var ins := InputsOf(docs);
      var lit := Literature(ins, agents);
      var prot := CallIf(ins.proteins, agents.parseProteins);
      var drug := CallIf(ins.drugs, agents.analyzeDrugs);
      HypothesisSynthesizer.SynthesizeOutcome(question, lit, prot, drug, [], agents.generate);
    }
  }

  /** The protein agent's list has one entry per UniProt document with
      content, in retrieval order, and is empty exactly when there is none;
      likewise the drug agent's list for DrugBank. */
  lemma EntriesPerDocument(docs: seq<Doc>)
    ensures var ins := InputsOf(docs);
      && (ins.proteins != [] <==> (exists d :: d in docs && d.source == Str(UniprotSource) && Truthy(d.content)))
      && (ins.drugs != [] <==> (exists d :: d in docs && d.source == Str(DrugbankSource) && Truthy(d.content)))
      && |ins.proteins| == |Partition(docs, UniprotSource)| && |ins.drugs| == |Partition(docs, DrugbankSource)|
      && (forall k :: 0 <= k < |ins.proteins| ==> ins.proteins[k] == ProteinOf(Partition(docs, UniprotSource)[k]))
      && (forall k :: 0 <= k < |ins.drugs| ==> ins.drugs[k] == DrugOf(Partition(docs, DrugbankSource)[k]))
  {
    PartitionEmpty(docs, UniprotSource);
    PartitionEmpty(docs, DrugbankSource);
  }

  /** A partition is empty exactly when no document of that source has
      content. */
  lemma PartitionEmpty(docs: seq<Doc>, src: string)
    ensures Partition(docs, src) != [] <==> exists d :: d in docs && d.source == Str(src) && Truthy(d.content)
  {
    var p := Partition(docs, src);
    if p != [] {
      PartitionExactly(docs, src, p[0]);
    }
    forall d | d in docs && d.source == Str(src) && Truthy(d.content)
      ensures p != []
    {
      PartitionExactly(docs, src, d);
    }
  }

  /** Every paper handed to the literature agent comes from a PubMed document
      with content and has a title or an abstract; every post from a Google
      Health document with content. */
  lemma PaperOrigin(docs: seq<Doc>, k: nat) returns (d: Doc)
    requires k < |InputsOf(docs).papers|
    ensures d in docs && d.source == Str(PubmedSource) && Truthy(d.content)
    ensures InputsOf(docs).papers[k] == PaperOf(d) && HasText(PaperOf(d))
  {
    var part := Partition(docs, PubmedSource);
    var j := FilterMapOrigin(part, PaperHasText, PaperOf, k);
    d := part[j];
    PartitionExactly(docs, PubmedSource, d);
  }

  lemma PostOrigin(docs: seq<Doc>, k: nat) returns (d: Doc)
    requires k < |InputsOf(docs).posts|
    ensures d in docs && d.source == Str(GoogleHealthSource) && Truthy(d.content)
    ensures InputsOf(docs).posts[k] == PostOf(d) && HasText(PostOf(d))
  {
    var part := Partition(docs, GoogleHealthSource);
    var j := FilterMapOrigin(part, PostHasText, PostOf, k);
    d := part[j];
    PartitionExactly(docs, GoogleHealthSource, d);
  }

  /** The confidence is the dictionary's percentage when it has one, the
      number as a float, and 0.0 otherwise. */
  lemma ConfidenceCases(c: Confidence)
    ensures c.Dict? && "confidence_percentage" in c.fields ==> NormalizeConfidence(c) == c.fields["confidence_percentage"]
    ensures c.Number? ==> NormalizeConfidence(c) == Real(c.x)
    ensures !(c.Dict? && "confidence_percentage" in c.fields) && !c.Number? ==> NormalizeConfidence(c) == Real(0.0)
  {
  }
}
