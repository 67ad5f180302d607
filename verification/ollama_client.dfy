/**
 * The Ollama client of src/llm/ollama_client.py: the question classifier, the strategy
 * dispatch of `generate` with its error mapping, and the plain, RAG, structured and
 * self-reflection generation paths. The HTTP server is an oracle from request to result;
 * every path returns its outcome together with the requests it posted, in order.
 */
module OllamaClient {
  import opened Wrappers
  import opened Text
  import opened Documents
  import opened Settings
  import opened PromptTemplates

  // ---------------------------------------------------------------------------
  // The client and its requests
  // ---------------------------------------------------------------------------

  /** The fields OllamaLLM sets in __init__ (they are never updated), plus the prompt prose its builders use. */
  datatype Client = Client(model: string, baseUrl: string, apiUrl: string, systemPrompt: string,
                           useReflection: bool, prose: Prose)

  /** base_url.rstrip('/'). */
  function NormalizeBase(url: string): (r: string)
    ensures r == [] || r[|r| - 1] != '/'
  {
    StripTrailing(url, '/')
  }

  /**
   * OllamaLLM.__init__; `systemPrompt` is the optional argument, `defaultSystem` SYSTEM_PROMPT
   * (an empty argument counts as absent, as with Python's `or`).
   */
  function NewClient(model: string, baseUrl: string, systemPrompt: Option<string>, defaultSystem: string,
                     useReflection: bool, prose: Prose): (c: Client)
    ensures c.baseUrl == NormalizeBase(baseUrl) && c.apiUrl == c.baseUrl + "/api/generate"
    ensures c.systemPrompt == (if systemPrompt == None || systemPrompt == Some("") then defaultSystem else systemPrompt.value)
  {
    var base := NormalizeBase(baseUrl);
    var system := match systemPrompt
      case Some(s) => if s == "" then defaultSystem else s
      case None => defaultSystem;
    Client(model, base, base + "/api/generate", system, useReflection, prose)
  }

  /** Normalising twice changes nothing, and trailing slashes never reach the request URL. */
  lemma {:induction false} NormalizeBaseIgnoresSlashes(url: string, slashes: string)
    requires forall i :: 0 <= i < |slashes| ==> slashes[i] == '/'
    ensures NormalizeBase(NormalizeBase(url)) == NormalizeBase(url)
    ensures NormalizeBase(url + slashes) == NormalizeBase(url)
    decreases |slashes|
  {
    if slashes != [] {
      var longer := url + slashes;
      assert longer[|longer| - 1] == '/';
      assert longer[..|longer| - 1] == url + slashes[..|slashes| - 1];
      NormalizeBaseIgnoresSlashes(url, slashes[..|slashes| - 1]);
      assert StripTrailing(longer, '/') == StripTrailing(longer[..|longer| - 1], '/');
    } else {
      assert url + slashes == url;
    }
  }

  /** The body posted to /api/generate; `keepAliveZero` says whether it carries "keep_alive": 0. */
  datatype Request = Request(url: string, model: string, prompt: string, system: string, keepAliveZero: bool)

  function Post(c: Client, prompt: string, keepAliveZero: bool): Request {
    Request(c.apiUrl, c.model, prompt, c.systemPrompt, keepAliveZero)
  }

  /** What reading response.json()["response"] gives: the field, or the message of the exception it raises. */
  datatype Body = Field(text: string) | Unreadable(message: string)

  /** What requests.post gives: a response, a connection error, or another exception with its message. */
  datatype HttpResult = Received(status: nat, body: Body) | Unreachable | Broken(message: string)

  /** The failures that propagate out of a generation path. */
  datatype Failure = ConnectionFailure | OtherFailure(message: string)

  /** One post as the generation paths see it: the answer on status 200, another status, or an exception. */
  datatype Posted = Ok(text: string) | BadStatus(status: nat) | Thrown(failure: Failure)

  function Interpret(res: HttpResult): (p: Posted)
    ensures p.Ok? <==> res.Received? && res.status == 200 && res.body.Field?
    ensures p.Ok? ==> p.text == res.body.text
    ensures p.BadStatus? <==> res.Received? && res.status != 200
    ensures p.BadStatus? ==> p.status == res.status
    ensures res.Unreachable? <==> p == Thrown(ConnectionFailure)
    ensures res.Broken? ==> p == Thrown(OtherFailure(res.message))
    ensures res.Received? && res.status == 200 && res.body.Unreadable? ==> p == Thrown(OtherFailure(res.body.message))
  {
    match res
    case Received(status, body) =>
      if status != 200 then BadStatus(status)
      else (match body
        case Field(t) => Ok(t)
        case Unreadable(m) => Thrown(OtherFailure(m)))
    case Unreachable => Thrown(ConnectionFailure)
    case Broken(m) => Thrown(OtherFailure(m))
  }

  datatype Outcome = Returned(text: string) | Raised(failure: Failure)

  /** A generation path's outcome and the requests it posted, in order. */
  datatype Run = Run(outcome: Outcome, calls: seq<Request>)

  // ---------------------------------------------------------------------------
  // The question classifier
  // ---------------------------------------------------------------------------

  datatype QuestionType = Factual | Comparative | Procedural | Complex

  const ComparativePhrases: seq<string> := ["compare", "difference between", "versus", "vs", "pros and cons",
    "advantages and disadvantages", "similarities", "differences"]
  const ProceduralPhrases: seq<string> := ["how to", "steps", "process", "procedure", "implement", "develop",
    "create", "build", "set up", "configure", "method", "approach"]
  const ComplexPhrases: seq<string> := ["why", "explain", "analyze", "evaluate", "assess", "implications",
    "impact", "effect", "relationship", "critically"]

  /**
   * _analyze_question_type: phrase lists in the order comparative, procedural, complex, tested
   * on the lower-cased question; a question longer than 100 characters or with more than 15
   * spaces is complex too; everything else is factual.
   */
  function AnalyzeQuestionType(question: string): QuestionType {
    var l := Lower(question);
    if ContainsAny(l, ComparativePhrases) then Comparative
    else if ContainsAny(l, ProceduralPhrases) then Procedural
    else if ContainsAny(l, ComplexPhrases) || |question| > 100 || CountChar(question, ' ') > 15 then Complex
    else Factual
  }

  /** The classifier gives the same label to questions that differ only in letter case. */
  lemma AnalyzeIgnoresCase(q1: string, q2: string)
    requires Lower(q1) == Lower(q2)
    ensures AnalyzeQuestionType(q1) == AnalyzeQuestionType(q2)
  {
    CountSpacesUnderLower(q1);
    CountSpacesUnderLower(q2);
  }

  /** The length test and the space count make a question complex, unless an earlier list matches. */
  lemma LongOrSpacedIsComplex(question: string)
    requires |question| > 100 || CountChar(question, ' ') > 15
    ensures AnalyzeQuestionType(question) in {Comparative, Procedural, Complex}
  {
  }

  // ---------------------------------------------------------------------------
  // The generation paths
  // ---------------------------------------------------------------------------

  /** The text returned for a non-200 status by plain and RAG generation. */
  function StatusError(status: nat): string {
    "Error: Failed to generate response from Ollama (Status " + NatToString(status) + ")"
  }

  /** Different statuses give different texts: the status reads back from the text. */
  lemma StatusErrorInjective(s1: nat, s2: nat)
    requires StatusError(s1) == StatusError(s2)
    ensures s1 == s2
  {
    var pre := "Error: Failed to generate response from Ollama (Status ";
    var e1 := StatusError(s1);
    var e2 := StatusError(s2);
    assert |NatToString(s1)| == |NatToString(s2)|;
    assert NatToString(s1) == e1[|pre|..|e1| - 1] == e2[|pre|..|e2| - 1] == NatToString(s2);
    ParseNatToString(s1);
    ParseNatToString(s2);
  }

  /** A post whose answer (or status text) is returned and whose exceptions propagate. */
  function Answered(req: Request, res: HttpResult): (r: Run)
    ensures r.calls == [req]
    ensures res.Received? && res.status != 200 ==> r.outcome == Returned(StatusError(res.status))
    ensures res.Received? && res.status == 200 && res.body.Field? ==> r.outcome == Returned(res.body.text)
    ensures res.Unreachable? ==> r.outcome == Raised(ConnectionFailure)
    ensures res.Broken? ==> r.outcome == Raised(OtherFailure(res.message))
    ensures res.Received? && res.status == 200 && res.body.Unreadable? ==>
      r.outcome == Raised(OtherFailure(res.body.message))
  {
    match Interpret(res)
    case Ok(t) => Run(Returned(t), [req])
    case BadStatus(n) => Run(Returned(StatusError(n)), [req])
    case Thrown(f) => Run(Raised(f), [req])
  }

  /** _simple_generate: the question itself as prompt, with keep_alive 0. */
  function SimpleGenerate(c: Client, http: Request -> HttpResult, prompt: string): Run {
    var req := Post(c, prompt, true);
    Answered(req, http(req))
  }

  /** _generate_with_rag: the RAG prompt, without keep_alive. */
  function RagGenerate(c: Client, http: Request -> HttpResult, question: string, docs: seq<Doc>,
                       example: FewShotExample): (r: Run)
    ensures r.calls == [Post(c, RagPrompt(c.prose, question, docs, example), false)]
    ensures var res := http(r.calls[0]);
      (res.Received? && res.status != 200 ==> r.outcome == Returned(StatusError(res.status)))
      && (res.Received? && res.status == 200 && res.body.Field? ==> r.outcome == Returned(res.body.text))
  {
    var req := Post(c, RagPrompt(c.prose, question, docs, example), false);
    Answered(req, http(req))
  }

  /** _generate_structured: the structured prompt with keep_alive 0; any other status than 200 falls back to RAG. */
  function StructuredGenerate(c: Client, http: Request -> HttpResult, question: string, docs: seq<Doc>,
                              formatName: string, example: FewShotExample): Run {
    var req := Post(c, StructuredPrompt(c.prose, question, docs, formatName), true);
    match Interpret(http(req))
    case Ok(t) => Run(Returned(t), [req])
    case BadStatus(_) =>
      var fallback := RagGenerate(c, http, question, docs, example);
      Run(fallback.outcome, [req] + fallback.calls)
    case Thrown(f) => Run(Raised(f), [req])
  }

  const ImprovedMarker: string := "## Improved Answer"

  /**
   * What the reflection path keeps of the model's reply: the stripped text after the last
   * marker when there is one (the marker cannot overlap itself, so this is split(marker)[-1]),
   * otherwise the whole reply.
   */
  function ExtractImproved(reply: string): (r: string)
    ensures !Contains(reply, ImprovedMarker) ==> r == reply
  {
    if Contains(reply, ImprovedMarker) then Strip(AfterLast(reply, ImprovedMarker)) else reply
  }

  /** After extraction no marker is left, so extracting again changes nothing. */
  lemma ExtractImprovedIdempotent(reply: string)
    ensures Contains(reply, ImprovedMarker) ==> !Contains(ExtractImproved(reply), ImprovedMarker)
    ensures ExtractImproved(ExtractImproved(reply)) == ExtractImproved(reply)
  {
    if Contains(reply, ImprovedMarker) {
      AfterLastHasNoMarker(reply, ImprovedMarker);
      StripKeepsAbsence(AfterLast(reply, ImprovedMarker), ImprovedMarker);
    }
  }

  /** Whether the reflection round is skipped: a short first answer, or a model other than mistral:7b. */
  predicate SkipsReflection(c: Client, initialAnswer: string) {
    |initialAnswer| < 200 || !Contains(c.model, "mistral:7b")
  }

  /**
   * _generate_with_reflection: a RAG answer first; then, unless skipped, a reflection request
   * with keep_alive 0. A non-200 reflection falls back to the first answer; exceptions from
   * either request propagate.
   */
  function ReflectionGenerate(c: Client, http: Request -> HttpResult, question: string, docs: seq<Doc>,
                              example: FewShotExample): (r: Run)
    ensures |r.calls| >= 1 && r.calls[0] == Post(c, RagPrompt(c.prose, question, docs, example), false)
  {
    var initial := RagGenerate(c, http, question, docs, example);
    match initial.outcome
    case Raised(_) => initial
    case Returned(a) =>
      if SkipsReflection(c, a) then initial
      else
        var req := Post(c, ReflectionPrompt(c.prose, question, a, docs), true);
        match Interpret(http(req))
        case Ok(reply) => Run(Returned(ExtractImproved(reply)), initial.calls + [req])
        case BadStatus(_) => Run(Returned(a), initial.calls + [req])
        case Thrown(f) => Run(Raised(f), initial.calls + [req])
  }

  // ---------------------------------------------------------------------------
  // generate: dispatch and error mapping
  // ---------------------------------------------------------------------------

  const ConnectionErrorText: string :=
    "# Connection Error\n\n" + "Cannot connect to Ollama. Please make sure the Ollama server is running.\n\n"
    + "To start Ollama:\n" + "1. Open a new terminal\n" + "2. Run the Ollama application\n" + "3. Try your question again"

  function OtherErrorText(message: string): string {
    "# Error\n\n" + message + "\n\nPlease try again or check the logs for more information."
  }

  /** The path `generate` takes: plain generation without context, otherwise by question type. */
  function Dispatch(c: Client, http: Request -> HttpResult, question: string, context: seq<Doc>,
                    example: FewShotExample): Run {
    if context == [] then SimpleGenerate(c, http, question)
    else match AnalyzeQuestionType(question)
      case Factual => RagGenerate(c, http, question, context, example)
      case Comparative => StructuredGenerate(c, http, question, context, "comparison", example)
      case Procedural => StructuredGenerate(c, http, question, context, "steps", example)
      case Complex => ReflectionGenerate(c, http, question, context, example)
  }

  /** What generate returns and the requests it posted. */
  datatype Generation = Generation(answer: string, calls: seq<Request>)

  /** generate: every exception becomes a text answer. */
  function Generate(c: Client, http: Request -> HttpResult, question: string, context: seq<Doc>,
                    example: FewShotExample): (g: Generation)
    ensures var run := Dispatch(c, http, question, context, example);
      g.calls == run.calls
      && (run.outcome.Returned? ==> g.answer == run.outcome.text)
      && (run.outcome == Raised(ConnectionFailure) ==> g.answer == ConnectionErrorText)
      && (run.outcome.Raised? && run.outcome.failure.OtherFailure? ==>
            g.answer == OtherErrorText(run.outcome.failure.message))
  {
    var run := Dispatch(c, http, question, context, example);
    match run.outcome
    case Returned(t) => Generation(t, run.calls)
    case Raised(ConnectionFailure) => Generation(ConnectionErrorText, run.calls)
    case Raised(OtherFailure(m)) => Generation(OtherErrorText(m), run.calls)
  }

  /** Without context: one plain request carrying the question itself, and no classification. */
  lemma NoContextIsPlain(c: Client, http: Request -> HttpResult, question: string, example: FewShotExample)
    ensures var g := Generate(c, http, question, [], example);
      g.calls == [Request(c.apiUrl, c.model, question, c.systemPrompt, true)]
  {
  }

  /** With context, the first request carries the prompt of the strategy the question type selects. */
  lemma FirstRequestByType(c: Client, http: Request -> HttpResult, question: string, context: seq<Doc>,
                           example: FewShotExample)
    requires context != []
    ensures var g := Generate(c, http, question, context, example);
      var t := AnalyzeQuestionType(question);
      |g.calls| >= 1
      && (t in {Factual, Complex} ==> g.calls[0] == Post(c, RagPrompt(c.prose, question, context, example), false))
      && (t == Comparative ==> g.calls[0] == Post(c, StructuredPrompt(c.prose, question, context, "comparison"), true))
      && (t == Procedural ==> g.calls[0] == Post(c, StructuredPrompt(c.prose, question, context, "steps"), true))
  {
    var run := Dispatch(c, http, question, context, example);
    var rag := Post(c, RagPrompt(c.prose, question, context, example), false);
    match AnalyzeQuestionType(question)
    case Factual =>
      assert run == RagGenerate(c, http, question, context, example);
    case Complex =>
      assert run == ReflectionGenerate(c, http, question, context, example);
      assert run.calls[0] == rag;
    case Comparative =>
      assert run == StructuredGenerate(c, http, question, context, "comparison", example);
    case Procedural =>
      assert run == StructuredGenerate(c, http, question, context, "steps", example);
  }

  /** The structured strategies always use the instructions of the format they ask for, whatever detection would say. */
  lemma StructuredUsesRequestedFormat(question: string)
    ensures ChosenFormat(question, "comparison") == Comparison
    ensures ChosenFormat(question, "steps") == Steps
  {
    ExplicitFormatWins(question, Comparison);
    ExplicitFormatWins(question, Steps);
  }

  /** When the server cannot be reached, every strategy raises the connection failure. */
  lemma {:induction false} ServerDownRaises(c: Client, http: Request -> HttpResult, question: string,
                                            context: seq<Doc>, example: FewShotExample)
    requires forall r :: http(r) == Unreachable
    ensures Dispatch(c, http, question, context, example).outcome == Raised(ConnectionFailure)
  {
    var run := Dispatch(c, http, question, context, example);
    if context == [] {
      assert run == SimpleGenerate(c, http, question);
    } else {
      match AnalyzeQuestionType(question)
      case Factual =>
        assert run == RagGenerate(c, http, question, context, example);
      case Complex =>
        assert run == ReflectionGenerate(c, http, question, context, example);
        assert RagGenerate(c, http, question, context, example).outcome.Raised?;
      case Comparative =>
        assert run == StructuredGenerate(c, http, question, context, "comparison", example);
        var req := Post(c, StructuredPrompt(c.prose, question, context, "comparison"), true);
        assert Interpret(http(req)) == Thrown(ConnectionFailure);
      case Procedural =>
        assert run == StructuredGenerate(c, http, question, context, "steps", example);
        var req := Post(c, StructuredPrompt(c.prose, question, context, "steps"), true);
        assert Interpret(http(req)) == Thrown(ConnectionFailure);
    }
  }

  /** So every question gets the connection-error text. */
  lemma ServerDownGivesConnectionError(c: Client, http: Request -> HttpResult, question: string,
                                       context: seq<Doc>, example: FewShotExample)
    requires forall r :: http(r) == Unreachable
    ensures Generate(c, http, question, context, example).answer == ConnectionErrorText
  {
    ServerDownRaises(c, http, question, context, example);
  }

  /** A reflection round is skipped for a short first answer or another model: one request, the first answer. */
  lemma ReflectionSkipped(c: Client, http: Request -> HttpResult, question: string, context: seq<Doc>,
                          example: FewShotExample)
    requires context != [] && AnalyzeQuestionType(question) == Complex
    requires var first := RagGenerate(c, http, question, context, example);
      first.outcome.Returned? && SkipsReflection(c, first.outcome.text)
    ensures var g := Generate(c, http, question, context, example);
      g.answer == RagGenerate(c, http, question, context, example).outcome.text && |g.calls| == 1
  {
  }

  /**
   * A reflection round that is not skipped posts a second request; its 200 reply yields the
   * extracted improved answer, any other status the first answer. Only a status falls back:
   * an exception from the reflection request reaches generate's handler, whose error text
   * is the answer.
   */
  lemma ReflectionRound(c: Client, http: Request -> HttpResult, question: string, context: seq<Doc>,
                        example: FewShotExample)
    requires context != [] && AnalyzeQuestionType(question) == Complex
    requires var first := RagGenerate(c, http, question, context, example);
      first.outcome.Returned? && !SkipsReflection(c, first.outcome.text)
    ensures var a := RagGenerate(c, http, question, context, example).outcome.text;
      var req := Post(c, ReflectionPrompt(c.prose, question, a, context), true);
      var g := Generate(c, http, question, context, example);
      |g.calls| == 2 && g.calls[1] == req
      && (http(req).Received? && http(req).status != 200 ==> g.answer == a)
      && (http(req).Received? && http(req).status == 200 && http(req).body.Field? ==>
            g.answer == ExtractImproved(http(req).body.text))
      && (http(req).Unreachable? ==> g.answer == ConnectionErrorText)
      && (http(req).Broken? ==> g.answer == OtherErrorText(http(req).message))
      && (http(req).Received? && http(req).status == 200 && http(req).body.Unreadable? ==>
            g.answer == OtherErrorText(http(req).body.message))
  {
    var run := Dispatch(c, http, question, context, example);
    var first := RagGenerate(c, http, question, context, example);
    var a := first.outcome.text;
    var req := Post(c, ReflectionPrompt(c.prose, question, a, context), true);
    assert run == ReflectionGenerate(c, http, question, context, example);
    assert run.calls == first.calls + [req];
    match Interpret(http(req))
    case Ok(reply) =>
      assert run.outcome == Returned(ExtractImproved(reply));
    case BadStatus(_) =>
      assert run.outcome == Returned(a);
    case Thrown(f) =>
      assert run.outcome == Raised(f);
  }

  /** A structured request answered with another status than 200 is retried as a RAG request, whose result stands. */
  lemma StructuredFallsBackToRag(c: Client, http: Request -> HttpResult, question: string, context: seq<Doc>,
                                 example: FewShotExample)
    requires context != []
    requires AnalyzeQuestionType(question) in {Comparative, Procedural}
    requires var name := if AnalyzeQuestionType(question) == Comparative then "comparison" else "steps";
      var req := Post(c, StructuredPrompt(c.prose, question, context, name), true);
      http(req).Received? && http(req).status != 200
    ensures var g := Generate(c, http, question, context, example);
      var rag := RagGenerate(c, http, question, context, example);
      |g.calls| >= 1 && g.calls[1..] == rag.calls
      && (rag.outcome.Returned? ==> g.answer == rag.outcome.text)
  {
    var run := Dispatch(c, http, question, context, example);
    var name := if AnalyzeQuestionType(question) == Comparative then "comparison" else "steps";
    var req := Post(c, StructuredPrompt(c.prose, question, context, name), true);
    assert run == StructuredGenerate(c, http, question, context, name, example);
    assert Interpret(http(req)).BadStatus?;
  }

  /**
   * A server that answers every request with the same status other than 200 gets the status
   * text back, whatever the strategy: the structured strategies fall back to RAG generation,
   * and a reflection request answered with that status keeps the first answer.
   */
  lemma {:induction false} ServerErrorGivesStatusText(c: Client, http: Request -> HttpResult, question: string,
                                                      context: seq<Doc>, example: FewShotExample, n: nat)
    requires n != 200 && forall r :: http(r).Received? && http(r).status == n
    ensures Generate(c, http, question, context, example).answer == StatusError(n)
  {
    var run := Dispatch(c, http, question, context, example);
    var rag := RagGenerate(c, http, question, context, example);
    if context == [] {
      assert run == SimpleGenerate(c, http, question);
    } else {
      match AnalyzeQuestionType(question)
      case Factual =>
        assert run == rag;
      case Complex =>
        assert run == ReflectionGenerate(c, http, question, context, example);
        assert rag.outcome == Returned(StatusError(n));
      case Comparative =>
        assert run == StructuredGenerate(c, http, question, context, "comparison", example);
        var req := Post(c, StructuredPrompt(c.prose, question, context, "comparison"), true);
        assert Interpret(http(req)) == BadStatus(n);
      case Procedural =>
        assert run == StructuredGenerate(c, http, question, context, "steps", example);
        var req := Post(c, StructuredPrompt(c.prose, question, context, "steps"), true);
        assert Interpret(http(req)) == BadStatus(n);
    }
  }

  /** When every post raises another exception than a connection error, its message is shown as an error. */
  lemma {:induction false} BrokenGivesOtherErrorText(c: Client, http: Request -> HttpResult, question: string,
                                                     context: seq<Doc>, example: FewShotExample, m: string)
    requires forall r :: http(r) == Broken(m)
    ensures Generate(c, http, question, context, example).answer == OtherErrorText(m)
  {
    var run := Dispatch(c, http, question, context, example);
    if context == [] {
      assert run == SimpleGenerate(c, http, question);
    } else {
      match AnalyzeQuestionType(question)
      case Factual =>
        assert run == RagGenerate(c, http, question, context, example);
      case Complex =>
        assert run == ReflectionGenerate(c, http, question, context, example);
        assert RagGenerate(c, http, question, context, example).outcome == Raised(OtherFailure(m));
      case Comparative =>
        assert run == StructuredGenerate(c, http, question, context, "comparison", example);
        var req := Post(c, StructuredPrompt(c.prose, question, context, "comparison"), true);
        assert Interpret(http(req)) == Thrown(OtherFailure(m));
      case Procedural =>
        assert run == StructuredGenerate(c, http, question, context, "steps", example);
        var req := Post(c, StructuredPrompt(c.prose, question, context, "steps"), true);
        assert Interpret(http(req)) == Thrown(OtherFailure(m));
    }
  }
}
