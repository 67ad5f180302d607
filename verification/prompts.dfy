/**
 * The prompt builders of src/prompts/prompt_templates.py: the context block that lists
 * the retrieved documents, the RAG prompt with its optional few-shot example, the
 * structured-output prompt with its format detection, and the self-reflection prompt.
 */
module PromptTemplates {
  import opened Wrappers
  import opened Text
  import opened Documents
  import opened Settings

  const NoContextMessage: string :=
    "No relevant context information was found" + " in the documents to answer this question."

  // ---------------------------------------------------------------------------
  // The context block
  // ---------------------------------------------------------------------------

  /** The hundredths of x >= 0 after rounding to the nearest hundredth (ties upwards). */
  function Cents(x: real): (c: nat)
    requires x >= 0.0
  {
    (x * 100.0 + 0.5).Floor
  }

  /** "{:.2f}" for x >= 0: whole part, a dot, two digits. */
  function TwoDecimals(x: real): (r: string)
    requires x >= 0.0
    ensures |r| >= 4 && r[|r| - 3] == '.'
  {
    var c := Cents(x);
    NatToString(c / 100) + "." + [DigitChar(c % 100 / 10), DigitChar(c % 10)]
  }

  /** "{:.2f}" for any real: a minus sign in front of a negative value. */
  function Fixed2(x: real): (r: string)
    ensures |r| >= 4
    ensures r[0] == '-' <==> x < 0.0
  {
    if x < 0.0 then "-" + TwoDecimals(-x) else TwoDecimals(x)
  }

  /** The hundredths are the nearest ones to x. */
  lemma CentsNearest(x: real)
    requires x >= 0.0
    ensures -0.5 <= x * 100.0 - Cents(x) as real < 0.5
  {
  }

  /** The whole part and the two decimals read back to the hundredths they render. */
  lemma TwoDecimalsReadsBack(x: real)
    requires x >= 0.0
    ensures var r := TwoDecimals(x);
      ParseNat(r[..|r| - 3]) * 100 + ParseNat(r[|r| - 2..]) == Cents(x)
  {
    var c := Cents(x);
    var r := TwoDecimals(x);
    var w := NatToString(c / 100);
    assert r[..|r| - 3] == w;
    ParseNatToString(c / 100);
    assert r[|r| - 2..] == [DigitChar(c % 100 / 10), DigitChar(c % 10)];
    ParseTwoDigits(c % 100 / 10, c % 10);
  }

  function SourceLabel(m: Meta): string {
    match m.source
    case Some(s) => s
    case None => "Unknown Source"
  }

  function PageLabel(m: Meta): string {
    match m.pageNum
    case Some(n) => NatToString(n)
    case None => "N/A"
  }

  /** The relevance tag: present exactly when the document carries a distance, showing 1 - distance. */
  function RelevanceTag(d: Doc): (r: string)
    ensures r == [] <==> d.distance.None?
    ensures r != [] ==> StartsWith(r, " [Relevance: ")
  {
    match d.distance
    case None => ""
    case Some(dist) => " [Relevance: " + Fixed2(1.0 - dist) + "]"
  }

  /** The fixed text of a section's f-string, around its five placeholders. */
  const SectionText: seq<string> := ["[DOCUMENT ", "]: ", " (Page/Slide: ", ")", "\n", ""]

  /** The i-th (zero-based) section of the context block: number, source, page, relevance, stripped content. */
  function Section(i: nat, d: Doc): string {
    Interleave(SectionText, [NatToString(i + 1), SourceLabel(d.meta), PageLabel(d.meta), RelevanceTag(d), Strip(d.content)])
  }

  function Sections(docs: seq<Doc>): (r: seq<string>)
    ensures |r| == |docs|
    ensures forall i :: 0 <= i < |docs| ==> r[i] == Section(i, docs[i])
  {
    seq(|docs|, i requires 0 <= i < |docs| => Section(i, docs[i]))
  }

  /** format_context_documents: the fixed message for no documents, otherwise the numbered sections. */
  function FormatContext(docs: seq<Doc>): string {
    if docs == [] then NoContextMessage else "\n\n" + Join("\n\n", Sections(docs))
  }

  /** The fixed message is produced for an empty list and for nothing else. */
  lemma FormatContextEmpty(docs: seq<Doc>)
    ensures FormatContext(docs) == NoContextMessage <==> docs == []
  {
    assert NoContextMessage[0] == 'N';
    if docs != [] {
      assert FormatContext(docs)[0] == ("\n\n" + Join("\n\n", Sections(docs)))[0] == '\n';
    }
  }

  /** Every document's section, and so its stripped content, appears in the context block. */
  lemma FormatContextShowsDoc(docs: seq<Doc>, i: nat)
    requires i < |docs|
    ensures Contains(FormatContext(docs), Section(i, docs[i]))
    ensures Contains(FormatContext(docs), Strip(docs[i].content))
  {
    var s := Section(i, docs[i]);
    JoinContainsPart("\n\n", Sections(docs), i);
    ContainsWithin("\n\n", Join("\n\n", Sections(docs)), "", s);
    assert "\n\n" + Join("\n\n", Sections(docs)) + "" == FormatContext(docs);
    var d := docs[i];
    InterleaveContains(SectionText, [NatToString(i + 1), SourceLabel(d.meta), PageLabel(d.meta), RelevanceTag(d), Strip(d.content)], 4);
    ContainsTransitive(FormatContext(docs), s, Strip(d.content));
  }

  lemma SectionsSnoc(docs: seq<Doc>, d: Doc)
    ensures Sections(docs + [d]) == Sections(docs) + [Section(|docs|, d)]
  {
    var a := Sections(docs + [d]);
    var b := Sections(docs) + [Section(|docs|, d)];
    forall i | 0 <= i < |a| ensures a[i] == b[i] {
      if i < |docs| {
        assert (docs + [d])[i] == docs[i];
      }
    }
  }

  /** One more document adds one more section, numbered after the others, at the end. */
  lemma FormatContextSnoc(docs: seq<Doc>, d: Doc)
    requires docs != []
    ensures FormatContext(docs + [d]) == FormatContext(docs) + "\n\n" + Section(|docs|, d)
  {
    var sep := "\n\n";
    var j := Join(sep, Sections(docs));
    var last := Section(|docs|, d);
    SectionsSnoc(docs, d);
    JoinSnoc(sep, Sections(docs), last);
    assert FormatContext(docs + [d]) == sep + (j + sep + last);
    ConcatAssoc(sep, j, sep, last);
  }

  // ---------------------------------------------------------------------------
  // Format detection and the question-complexity test
  // ---------------------------------------------------------------------------

  datatype Format = Steps | Comparison | Table | DefaultFormat

  const StepPhrases: seq<string> := ["steps", "process", "how to", "procedure", "workflow"]
  const ComparisonPhrases: seq<string> := ["compare", "difference between", "versus", "vs", "pros and cons"]
  const TablePhrases: seq<string> := ["list", "summarize", "overview", "key aspects", "characteristics"]
  const ComplexIndicators: seq<string> :=
    ["compare", "explain", "analyze", "evaluate", "why", "how does", "implications", "relationship between"]

  /** _detect_appropriate_format: the first phrase list, in this order, with a phrase in the lower-cased question. */
  function DetectFormat(question: string): Format {
    var l := Lower(question);
    if ContainsAny(l, StepPhrases) then Steps
    else if ContainsAny(l, ComparisonPhrases) then Comparison
    else if ContainsAny(l, TablePhrases) then Table
    else DefaultFormat
  }

  /** _is_complex_question: longer than 100 characters, or an indicator in the lower-cased question. */
  predicate IsComplexQuestion(question: string) {
    |question| > 100 || ContainsAny(Lower(question), ComplexIndicators)
  }

  /** Detection looks only at the lower-cased question. */
  lemma DetectFormatIgnoresCase(q1: string, q2: string)
    requires Lower(q1) == Lower(q2)
    ensures DetectFormat(q1) == DetectFormat(q2)
    ensures IsComplexQuestion(q1) <==> IsComplexQuestion(q2)
  {
  }

  /** None of the step phrases occurs in "do devs like rust?": each has a 'p', 'h' or 'w' it lacks. */
  lemma DevsHasNoStepPhrase()
    ensures !ContainsAny("do devs like rust?", StepPhrases)
  {
    var l := "do devs like rust?";
    MissingCharExcludes(l, "steps", 3);
    MissingCharExcludes(l, "process", 0);
    MissingCharExcludes(l, "how to", 0);
    MissingCharExcludes(l, "procedure", 0);
    MissingCharExcludes(l, "workflow", 0);
  }

  lemma LowerDevs()
    ensures Lower("Do devs like Rust?") == "do devs like rust?"
  {
  }

  /**
   * Phrases are matched as substrings, not as words: "devs" contains "vs", so a question
   * about developers is answered in the comparison format.
   */
  lemma DevsReadsAsComparison()
    ensures DetectFormat("Do devs like Rust?") == Comparison
  {
    var l := "do devs like rust?";
    LowerDevs();
    DevsHasNoStepPhrase();
    assert l == "do de" + "vs" + " like rust?";
    OccursInConcat("do de", "vs", " like rust?");
    assert Contains(l, ComparisonPhrases[3]);
  }

  /** The key of each format in the instruction table. */
  function FormatName(f: Format): string {
    match f
    case Steps => "steps"
    case Comparison => "comparison"
    case Table => "table"
    case DefaultFormat => "default"
  }

  /** Looks a name up among the instruction table's keys. */
  function ParseFormat(name: string): (r: Option<Format>)
    ensures r.Some? ==> FormatName(r.value) == name
  {
    if name == "default" then Some(DefaultFormat)
    else if name == "table" then Some(Table)
    else if name == "steps" then Some(Steps)
    else if name == "comparison" then Some(Comparison)
    else None
  }

  /** The position of each format's instructions in the instruction table. */
  function FormatIndex(f: Format): nat {
    match f
    case DefaultFormat => 0
    case Table => 1
    case Steps => 2
    case Comparison => 3
  }

  lemma ParseFormatName(f: Format)
    ensures ParseFormat(FormatName(f)) == Some(f)
  {
  }

  /**
   * The format whose instructions the structured prompt uses: "default" asks for detection,
   * a known name is taken as is, any other name falls back to the default instructions
   * without detection.
   */
  function ChosenFormat(question: string, name: string): (f: Format)
    ensures name != "default" && ParseFormat(name) == None ==> f == DefaultFormat
    ensures name == "default" ==> f == DetectFormat(question)
  {
    if name == "default" then DetectFormat(question)
    else match ParseFormat(name)
      case Some(f) => f
      case None => DefaultFormat
  }

  /** An explicitly requested format other than "default" always wins over detection. */
  lemma ExplicitFormatWins(question: string, f: Format)
    requires f != DefaultFormat
    ensures ChosenFormat(question, FormatName(f)) == f
  {
    ParseFormatName(f);
  }

  // ---------------------------------------------------------------------------
  // The fixed prose of the prompts
  // ---------------------------------------------------------------------------

  /**
   * The literal text the prompt builders write around their placeholders, one sequence of
   * pieces per f-string. It is a value so that the builders and the lemmas about them hold
   * for whatever the text says; SourceProse holds the text of the templates.
   */
  datatype Prose = Prose(
    template: RagTemplate,        // RAG_PROMPT_TEMPLATE
    ragInstruction: seq<string>,  // around the no-context message
    fewShot: seq<string>,         // around the example's question and answer
    structured: seq<string>,      // around the context block, the question and the format instructions
    instructions: seq<string>,    // the format instructions, in the order of FormatIndex
    reflection: seq<string>)      // around the question, the previous answer, the criteria lines and the context block

  const RagInstructionText: seq<string> := [
    "\n\nImportant: Answer based *only* on the provided context. If the answer cannot be found in the context, state that '",
    "' or that the information is not available in the provided documents.EXPLICITLY SEND THIS REPLY 'NO RELEVANT DATA FOUND TO REPLY'When using information from the context, cite the document and page/slide number (e.g., Document 1: filename.pdf)."
  ]

  const FewShotFixed: seq<string> := [
    "\nHere's an example of how to answer a similar question:\n\nEXAMPLE QUESTION: ",
    "\n\nEXAMPLE ANSWER: ",
    "\n\nNow, please answer the original question following a similar format and approach:\n"
  ]

  const StructuredText: seq<string> := [
    "\nYou are a university-level educational assistant specialized in Current Trends in Software Engineering.\n\nBased on the following context information from CTSE lecture notes:\n",
    "\n\nPlease answer this question:\n",
    "\n\n",
    "\n\nImportant: Answer based *only* on the provided context. \nIf the answer cannot be found in the context, state that the information is not available in the provided documents.\nWhen using information from the context, cite the specific document and page/slide number (e.g., \"According to Document 1: lecture_notes.pdf, Page 5...\").\nBe concise but comprehensive, and ensure all information is accurate according to the provided context.\n    "
  ]

  const InstructionTexts: seq<string> := [
    "\nFormat your response using appropriate Markdown with:\n- Clear headings with ## and ### for sections\n- Bullet points for lists\n- **Bold** for important concepts\n- `code blocks` for technical terms or code\n- > blockquotes for definitions\n        ",
    "\nInclude a Markdown table in your response to summarize key points:\n| Concept | Description | Example |\n| ------- | ----------- | ------- |\n| Concept 1 | Description 1 | Example 1 |\n| ... | ... | ... |\n        ",
    "\nFormat your response as a step-by-step guide using:\n## Process Overview\nBrief overview of the process\n\n## Step 1: [Step Name]\nExplanation of step 1\n\n## Step 2: [Step Name]\nExplanation of step 2\n\nAnd so on, with clear numbered steps and explanations.\n        ",
    "\nFormat your response as a comparison between concepts:\n## Concept A\n- Key characteristics\n- Advantages\n- Disadvantages\n\n## Concept B\n- Key characteristics\n- Advantages\n- Disadvantages\n\n## Comparison\n| Aspect | Concept A | Concept B |\n| ------ | --------- | --------- |\n| Aspect 1 | Value for A | Value for B |\n| ... | ... | ... |\n        "
  ]

  const ReflectionText: seq<string> := [
    "\nYou are an educational assistant that's reviewing your previous response to ensure it meets high academic standards.\n\nOriginal question: ",
    "\n\nYour previous response: \n",
    "\n\nPlease reflect on your response using these criteria:\n",
    "\n- Citation: Does the response properly cite sources and page/slide numbers from the context when information is used (e.g., Document 1: filename.pdf, Page X)?\n\nFirst, identify any issues with your previous response, including missing citations.\nThen, provide an improved version that addresses these issues while maintaining academic accuracy.\nBase your improved answer strictly on this context information:\n\n",
    "\n\nImportant: Your improved answer must be based *only* on the provided context. \nIf the answer cannot be found in the context, state that the information is not available in the provided documents.\nEnsure all information taken from the context is properly cited with document and page/slide number.\n\nBegin your response with \"## Self-Reflection\" followed by your analysis, then \"## Improved Answer\" with your revised response.\n    "
  ]

  const SourceProse: Prose := Prose(RagPromptTemplate, RagInstructionText, FewShotFixed, StructuredText, InstructionTexts, ReflectionText)

  // ---------------------------------------------------------------------------
  // The structured-output prompt
  // ---------------------------------------------------------------------------

  function Instruction(prose: Prose, f: Format): string {
    Piece(prose.instructions, FormatIndex(f))
  }

  /** get_structured_prompt. */
  function StructuredPrompt(prose: Prose, question: string, docs: seq<Doc>, formatName: string): string {
    Interleave(prose.structured, [FormatContext(docs), question, Instruction(prose, ChosenFormat(question, formatName))])
  }

  /** The structured prompt carries the context block, the question and the chosen format's instructions. */
  lemma StructuredPromptMentions(prose: Prose, question: string, docs: seq<Doc>, formatName: string)
    ensures var p := StructuredPrompt(prose, question, docs, formatName);
      Contains(p, FormatContext(docs)) && Contains(p, question)
      && Contains(p, Instruction(prose, ChosenFormat(question, formatName)))
  {
    var holes := [FormatContext(docs), question, Instruction(prose, ChosenFormat(question, formatName))];
    InterleaveContains(prose.structured, holes, 0);
    InterleaveContains(prose.structured, holes, 1);
    InterleaveContains(prose.structured, holes, 2);
  }

  // ---------------------------------------------------------------------------
  // The RAG prompt
  // ---------------------------------------------------------------------------

  /** _add_few_shot_examples' text for the example drawn. */
  function FewShotText(prose: Prose, ex: FewShotExample): string {
    Interleave(prose.fewShot, [ex.question, ex.answer])
  }

  /** RAG_PROMPT_TEMPLATE filled with the context block and the question, followed by the instruction. */
  function RagBase(prose: Prose, question: string, contextText: string): string {
    var t := prose.template;
    Interleave([t.beforeContext, t.beforeQuestion, t.afterQuestion], [contextText, question])
    + Interleave(prose.ragInstruction, [NoContextMessage])
  }

  /** Room for an example: the context is counted once on its own and once inside the prompt. */
  predicate WantsExample(question: string, contextText: string, base: string) {
    IsComplexQuestion(question) && |contextText| + |base| < 6000
  }

  /** get_rag_prompt; `example` is the entry that random.choice would draw from FEW_SHOT_EXAMPLES. */
  function RagPrompt(prose: Prose, question: string, docs: seq<Doc>, example: FewShotExample): string {
    var ctx := FormatContext(docs);
    var base := RagBase(prose, question, ctx);
    if WantsExample(question, ctx, base) then base + FewShotText(prose, example) else base
  }

  /**
   * The filled-in template always comes first; the example follows it exactly when the question
   * is complex and the prompt is short enough (the example text opens with a fixed line).
   */
  lemma RagPromptExample(prose: Prose, question: string, docs: seq<Doc>, example: FewShotExample)
    requires Piece(prose.fewShot, 0) != ""
    ensures var ctx := FormatContext(docs);
      var base := RagBase(prose, question, ctx);
      var p := RagPrompt(prose, question, docs, example);
      StartsWith(p, base)
      && (p != base <==> WantsExample(question, ctx, base))
      && (WantsExample(question, ctx, base) ==> p == base + FewShotText(prose, example))
  {
    var ctx := FormatContext(docs);
    var base := RagBase(prose, question, ctx);
    if WantsExample(question, ctx, base) {
      var ex := FewShotText(prose, example);
      InterleaveContains(prose.fewShot, [example.question, example.answer], 0);
      assert |base + ex| > |base|;
      assert (base + ex)[..|base|] == base;
    }
  }

  /** A context block of 3000 characters or more never leaves room for an example. */
  lemma LongContextHasNoExample(prose: Prose, question: string, docs: seq<Doc>, example: FewShotExample)
    requires |FormatContext(docs)| >= 3000
    ensures RagPrompt(prose, question, docs, example) == RagBase(prose, question, FormatContext(docs))
  {
    var ctx := FormatContext(docs);
    var t := prose.template;
    InterleaveContains([t.beforeContext, t.beforeQuestion, t.afterQuestion], [ctx, question], 0);
  }

  /** The filled-in template carries the context block, the question and the no-context message. */
  lemma RagBaseMentions(prose: Prose, question: string, contextText: string)
    ensures var b := RagBase(prose, question, contextText);
      Contains(b, contextText) && Contains(b, question) && Contains(b, NoContextMessage)
  {
    var t := prose.template;
    var filled := Interleave([t.beforeContext, t.beforeQuestion, t.afterQuestion], [contextText, question]);
    var instruction := Interleave(prose.ragInstruction, [NoContextMessage]);
    assert RagBase(prose, question, contextText) == "" + filled + instruction;
    InterleaveContains([t.beforeContext, t.beforeQuestion, t.afterQuestion], [contextText, question], 0);
    InterleaveContains([t.beforeContext, t.beforeQuestion, t.afterQuestion], [contextText, question], 1);
    ContainsWithin("", filled, instruction, contextText);
    ContainsWithin("", filled, instruction, question);
    InterleaveContains(prose.ragInstruction, [NoContextMessage], 0);
    ContainsWithin(filled, instruction, "", NoContextMessage);
    assert filled + instruction + "" == filled + instruction;
  }

  /** The RAG prompt carries the context block, the question and the no-context message. */
  lemma RagPromptMentions(prose: Prose, question: string, docs: seq<Doc>, example: FewShotExample)
    ensures var p := RagPrompt(prose, question, docs, example);
      Contains(p, FormatContext(docs)) && Contains(p, question) && Contains(p, NoContextMessage)
  {
    var ctx := FormatContext(docs);
    var base := RagBase(prose, question, ctx);
    RagBaseMentions(prose, question, ctx);
    if WantsExample(question, ctx, base) {
      var rest := FewShotText(prose, example);
      ContainsExtended(base, rest, ctx);
      ContainsExtended(base, rest, question);
      ContainsExtended(base, rest, NoContextMessage);
    }
  }

  // ---------------------------------------------------------------------------
  // The self-reflection prompt
  // ---------------------------------------------------------------------------

  /** One line per evaluation criterion, naming the criterion and repeating the user's question. */
  function EvaluationQuestions(question: string): (r: seq<string>)
    ensures |r| == |EvaluationCriteria|
    ensures forall k :: 0 <= k < |r| ==> r[k] == "- " + EvaluationCriteria[k] + ": " + question
  {
    seq(|EvaluationCriteria|, k requires 0 <= k < |EvaluationCriteria| => "- " + EvaluationCriteria[k] + ": " + question)
  }

  /** get_reflection_prompt. */
  function ReflectionPrompt(prose: Prose, question: string, initialAnswer: string, docs: seq<Doc>): string {
    Interleave(prose.reflection, [question, initialAnswer, Join("\n", EvaluationQuestions(question)), FormatContext(docs)])
  }

  /**
   * The reflection prompt carries the question, the previous answer, the context block, and for
   * every criterion a line "- <criterion>: <question>" (the question, not the criterion's text).
   */
  lemma ReflectionPromptMentions(prose: Prose, question: string, initialAnswer: string, docs: seq<Doc>, k: nat)
    requires k < |EvaluationCriteria|
    ensures var p := ReflectionPrompt(prose, question, initialAnswer, docs);
      Contains(p, question) && Contains(p, initialAnswer) && Contains(p, FormatContext(docs))
      && Contains(p, "- " + EvaluationCriteria[k] + ": " + question)
  {
    var lines := Join("\n", EvaluationQuestions(question));
    var holes := [question, initialAnswer, lines, FormatContext(docs)];
    var p := ReflectionPrompt(prose, question, initialAnswer, docs);
    InterleaveContains(prose.reflection, holes, 0);
    InterleaveContains(prose.reflection, holes, 1);
    InterleaveContains(prose.reflection, holes, 2);
    InterleaveContains(prose.reflection, holes, 3);
    JoinContainsPart("\n", EvaluationQuestions(question), k);
    ContainsTransitive(p, lines, EvaluationQuestions(question)[k]);
  }
}
