/**
 * The application class of src/main.py: the decision to (re)process the lecture notes,
 * the processing loop that filters, chunks, saves and indexes them, the question pipeline
 * from retrieval to answer, the model switch and the system information for the UI.
 * Directory listings are inputs (the data files and the number of processed files), the
 * vector store and the BM25 index are the sequences of chunks added to them, and a saved
 * text file is the chunk list written under its output name.
 */
module RagChitChat {
  import opened Wrappers
  import opened Text
  import opened Documents
  import opened Settings
  import opened PromptTemplates
  import Paths
  import DocumentProcessor
  import HaystackRetriever
  import OllamaClient

  type DataFile = DocumentProcessor.DataFile

  /** The loop's filter on files. */
  const NoteFilter: DataFile -> bool := (f: DataFile) => IsNoteFile(f.path)

  /** The chunks the factory's processor yields for a file. */
  const FileChunks: DataFile -> seq<Chunk> := DocumentProcessor.FileChunks

  // ---------------------------------------------------------------------------
  // Processing the lecture notes
  // ---------------------------------------------------------------------------

  /** _ensure_data_processed: no processed text files yet, or more data files than processed ones. */
  predicate NeedsProcessing(dataFiles: nat, processedFiles: nat) {
    processedFiles == 0 || dataFiles > processedFiles
  }

  /** The loop's filter: the lower-cased suffix is .pdf or .pptx. */
  predicate IsNoteFile(path: string) {
    var suffix := Lower(Paths.Suffix(path));
    suffix == ".pdf" || suffix == ".pptx"
  }

  /** Every file the filter lets through has a processor, so the factory never declines one. */
  lemma NoteFileHasProcessor(path: string)
    ensures IsNoteFile(path) <==> DocumentProcessor.GetProcessor(path).Some?
  {
  }

  /** The name the chunks of a file are saved under: "<stem>.txt". */
  function OutputName(path: string): (r: string)
    ensures |r| >= 4 && r[|r| - 4..] == ".txt"
  {
    Paths.Stem(path) + ".txt"
  }

  /**
   * all_documents: the chunks of the files `keep` lets through, file after file, where
   * `chunksOf` gives a file's chunks (for the application, NoteFilter and FileChunks).
   */
  function NotesChunks(files: seq<DataFile>, keep: DataFile -> bool, chunksOf: DataFile -> seq<Chunk>): seq<Chunk>
    decreases |files|
  {
    if files == [] then []
    else
      var last := files[|files| - 1];
      NotesChunks(files[..|files| - 1], keep, chunksOf) + (if keep(last) then chunksOf(last) else [])
  }

  /**
   * The saved text files after the loop: each file `keep` lets through writes its chunks
   * under its output name, later files overwriting earlier ones.
   */
  function SavedFiles(before: map<string, seq<Chunk>>, files: seq<DataFile>, keep: DataFile -> bool, chunksOf: DataFile -> seq<Chunk>): map<string, seq<Chunk>>
    decreases |files|
  {
    if files == [] then before
    else
      var last := files[|files| - 1];
      var earlier := SavedFiles(before, files[..|files| - 1], keep, chunksOf);
      if keep(last) then earlier[OutputName(last.path) := chunksOf(last)] else earlier
  }

  /** Accumulation follows file order: the chunks of a list of files are those of its parts, in order. */
  lemma {:induction false} NotesChunksAppend(a: seq<DataFile>, b: seq<DataFile>, keep: DataFile -> bool, chunksOf: DataFile -> seq<Chunk>)
    ensures NotesChunks(a + b, keep, chunksOf) == NotesChunks(a, keep, chunksOf) + NotesChunks(b, keep, chunksOf)
    decreases |b|
  {
    if b == [] {
      assert a + b == a;
    } else {
      var init, last := b[..|b| - 1], b[|b| - 1];
      var tail := if keep(last) then chunksOf(last) else [];
      assert (a + b)[..|a + b| - 1] == a + init && (a + b)[|a + b| - 1] == last;
      assert NotesChunks(a + b, keep, chunksOf) == NotesChunks(a + init, keep, chunksOf) + tail;
      assert NotesChunks(b, keep, chunksOf) == NotesChunks(init, keep, chunksOf) + tail;
      NotesChunksAppend(a, init, keep, chunksOf);
    }
  }

  /** One more file extends both folds the way one iteration of the loop does. */
  lemma CollectStep(before: map<string, seq<Chunk>>, files: seq<DataFile>, i: nat,
                    keep: DataFile -> bool, chunksOf: DataFile -> seq<Chunk>)
    requires i < |files|
    ensures NotesChunks(files[..i + 1], keep, chunksOf)
      == NotesChunks(files[..i], keep, chunksOf) + (if keep(files[i]) then chunksOf(files[i]) else [])
    ensures SavedFiles(before, files[..i + 1], keep, chunksOf)
      == if keep(files[i]) then SavedFiles(before, files[..i], keep, chunksOf)[OutputName(files[i].path) := chunksOf(files[i])]
         else SavedFiles(before, files[..i], keep, chunksOf)
  {
    assert files[..i + 1][..i] == files[..i];
  }

  /** Files the filter rejects contribute no chunks and write no file. */
  lemma {:induction false} OtherFilesIgnored(before: map<string, seq<Chunk>>, files: seq<DataFile>, keep: DataFile -> bool, chunksOf: DataFile -> seq<Chunk>)
    requires forall i :: 0 <= i < |files| ==> !keep(files[i])
    ensures NotesChunks(files, keep, chunksOf) == [] && SavedFiles(before, files, keep, chunksOf) == before
    decreases |files|
  {
    if files != [] {
      OtherFilesIgnored(before, files[..|files| - 1], keep, chunksOf);
    }
  }

  /** A file's chunks are saved under its output name unless a later kept file has the same output name. */
  lemma {:induction false} LastWriterSaved(before: map<string, seq<Chunk>>, files: seq<DataFile>, keep: DataFile -> bool, chunksOf: DataFile -> seq<Chunk>, i: nat)
    requires i < |files| && keep(files[i])
    requires forall j :: i < j < |files| && keep(files[j]) ==> OutputName(files[j].path) != OutputName(files[i].path)
    ensures var saved := SavedFiles(before, files, keep, chunksOf);
      OutputName(files[i].path) in saved && saved[OutputName(files[i].path)] == chunksOf(files[i])
    decreases |files|
  {
    var init := files[..|files| - 1];
    if i < |files| - 1 {
      assert init[i] == files[i];
      forall j | i < j < |init| && keep(init[j])
        ensures OutputName(init[j].path) != OutputName(init[i].path)
      {
        assert init[j] == files[j];
      }
      LastWriterSaved(before, init, keep, chunksOf, i);
    }
  }

  /**
   * The loop of _process_lecture_notes: skip files outside the filter, chunk each other
   * file with the processor the factory picks, save its chunks under its output name and
   * accumulate them. `saved` is the processed directory before the loop.
   */
  method CollectNotes(dataFiles: seq<DataFile>, saved: map<string, seq<Chunk>>)
    returns (allDocuments: seq<Chunk>, written: map<string, seq<Chunk>>)
    ensures allDocuments == NotesChunks(dataFiles, NoteFilter, FileChunks)
    ensures written == SavedFiles(saved, dataFiles, NoteFilter, FileChunks)
  {
    allDocuments := [];
    written := saved;
    var i := 0;
    while i < |dataFiles|
      invariant 0 <= i <= |dataFiles|
      invariant allDocuments == NotesChunks(dataFiles[..i], NoteFilter, FileChunks)
      invariant written == SavedFiles(saved, dataFiles[..i], NoteFilter, FileChunks)
    {
      var file := dataFiles[i];
      CollectStep(saved, dataFiles, i, NoteFilter, FileChunks);
      if IsNoteFile(file.path) {
        // the factory has a processor for every file the filter lets through
        NoteFileHasProcessor(file.path);
        var kind := DocumentProcessor.GetProcessor(file.path);
        var chunks := DocumentProcessor.Process(kind.value, file);
        written := written[OutputName(file.path) := chunks];
        allDocuments := allDocuments + chunks;
      }
      i := i + 1;
    }
    assert dataFiles[..i] == dataFiles;
  }

  /**
   * _process_lecture_notes on the application's state: collect and save the chunks, then
   * add them to the vector store and the BM25 index when there are any.
   */
  method ProcessNotes(dataFiles: seq<DataFile>, saved: map<string, seq<Chunk>>, vectorStore: seq<Chunk>, bm25Store: seq<Chunk>)
    returns (saved': map<string, seq<Chunk>>, vectorStore': seq<Chunk>, bm25Store': seq<Chunk>)
    ensures saved' == SavedFiles(saved, dataFiles, NoteFilter, FileChunks)
    ensures vectorStore' == vectorStore + NotesChunks(dataFiles, NoteFilter, FileChunks)
    ensures bm25Store' == bm25Store + NotesChunks(dataFiles, NoteFilter, FileChunks)
  {
    var allDocuments;
    allDocuments, saved' := CollectNotes(dataFiles, saved);
    vectorStore', bm25Store' := vectorStore, bm25Store;
    if allDocuments != [] {
      vectorStore' := vectorStore + allDocuments;
      bm25Store' := bm25Store + allDocuments;
    }
  }

  // ---------------------------------------------------------------------------
  // The question pipeline
  // ---------------------------------------------------------------------------

  /** The stage name generate_response reports. */
  const RetrievalComplete: string := "retrieval_complete"

  /** What the question pipeline makes visible, in order: progress notifications and posted requests. */
  datatype Event = Progress(stage: string, numDocs: nat) | Posted(request: OllamaClient.Request)

  /** The answer of generate_response and the events it caused. */
  datatype Response = Response(answer: string, events: seq<Event>)

  function Posts(calls: seq<OllamaClient.Request>): (r: seq<Event>)
    ensures |r| == |calls| && forall i :: 0 <= i < |r| ==> r[i] == Posted(calls[i])
  {
    seq(|calls|, i requires 0 <= i < |calls| => Posted(calls[i]))
  }

  /** A value of the system-information dictionary shown by the UI. */
  datatype InfoValue = InfoText(text: string) | InfoNames(names: seq<string>) | InfoCount(count: nat)

  /** The processed-file list of the system information: the first five names, then "..." when there are more. */
  function TruncateFileList(names: seq<string>): (r: seq<string>)
    ensures |names| <= 5 ==> r == names
    ensures |names| > 5 ==> |r| == 6 && r[..5] == names[..5] && r[5] == "..."
  {
    if |names| > 5 then names[..5] + ["..."] else names
  }

  /** Truncating a truncated list changes nothing. */
  lemma TruncateIdempotent(names: seq<string>)
    ensures TruncateFileList(TruncateFileList(names)) == TruncateFileList(names)
  {
    if |names| > 5 {
      var r := TruncateFileList(names);
      assert r[..5] == names[..5];
    }
  }

  // ---------------------------------------------------------------------------
  // The application
  // ---------------------------------------------------------------------------

  /**
   * RagChitChat. `systemPrompt` and `prose` are the texts a new OllamaLLM is built with
   * (SYSTEM_PROMPT and the prompt templates); `vectorStore` and `bm25Store` are the chunks
   * added to the two indexes; `saved` maps each processed text file to the chunks it holds.
   */
  class App {
    var modelName: string
    var llm: OllamaClient.Client
    var systemPrompt: string
    var prose: Prose
    var vectorStore: seq<Chunk>
    var bm25Store: seq<Chunk>
    var saved: map<string, seq<Chunk>>

    /** The client OllamaLLM(model=name) builds: default URL, the settings' system prompt, reflection on. */
    function ClientFor(name: string): (c: OllamaClient.Client)
      reads this
      ensures c.model == name && c.systemPrompt == systemPrompt && c.prose == prose && c.useReflection
    {
      OllamaClient.NewClient(name, DefaultBaseUrl, None, systemPrompt, true, prose)
    }

    /**
     * __init__: the components start empty and the notes are processed if needed.
     * `dataFiles` are the files under the data directory, `processedFiles` the number of
     * text files already in the processed directory.
     */
    constructor(modelName: string, systemPrompt: string, prose: Prose,
                dataFiles: seq<DataFile>, processedFiles: nat)
      ensures this.modelName == modelName && this.systemPrompt == systemPrompt && this.prose == prose
      ensures llm == ClientFor(modelName)
      ensures var process := NeedsProcessing(|dataFiles|, processedFiles);
        vectorStore == bm25Store == (if process then NotesChunks(dataFiles, NoteFilter, FileChunks) else [])
        && saved == (if process then SavedFiles(map[], dataFiles, NoteFilter, FileChunks) else map[])
    {
      this.modelName := modelName;
      this.systemPrompt := systemPrompt;
      this.prose := prose;
      llm := OllamaClient.NewClient(modelName, DefaultBaseUrl, None, systemPrompt, true, prose);
      // _ensure_data_processed on the empty indexes
      var written, vs, bs := map[], [], [];
      if processedFiles == 0 || |dataFiles| > processedFiles {
        written, vs, bs := ProcessNotes(dataFiles, map[], [], []);
      }
      saved, vectorStore, bm25Store := written, vs, bs;
    }

    /** _ensure_data_processed: process the notes exactly when NeedsProcessing holds. */
    method EnsureDataProcessed(dataFiles: seq<DataFile>, processedFiles: nat)
      modifies this
      ensures modelName == old(modelName) && llm == old(llm) && systemPrompt == old(systemPrompt) && prose == old(prose)
      ensures NeedsProcessing(|dataFiles|, processedFiles) ==>
        vectorStore == old(vectorStore) + NotesChunks(dataFiles, NoteFilter, FileChunks) && bm25Store == old(bm25Store) + NotesChunks(dataFiles, NoteFilter, FileChunks)
        && saved == SavedFiles(old(saved), dataFiles, NoteFilter, FileChunks)
      ensures !NeedsProcessing(|dataFiles|, processedFiles) ==>
        vectorStore == old(vectorStore) && bm25Store == old(bm25Store) && saved == old(saved)
    {
      if processedFiles == 0 || |dataFiles| > processedFiles {
        ProcessLectureNotes(dataFiles);
      }
    }

    /** _process_lecture_notes. */
    method ProcessLectureNotes(dataFiles: seq<DataFile>)
      modifies this
      ensures modelName == old(modelName) && llm == old(llm) && systemPrompt == old(systemPrompt) && prose == old(prose)
      ensures vectorStore == old(vectorStore) + NotesChunks(dataFiles, NoteFilter, FileChunks)
      ensures bm25Store == old(bm25Store) + NotesChunks(dataFiles, NoteFilter, FileChunks)
      ensures saved == SavedFiles(old(saved), dataFiles, NoteFilter, FileChunks)
    {
      saved, vectorStore, bm25Store := ProcessNotes(dataFiles, saved, vectorStore, bm25Store);
    }

    /** generate_response, with the current client. */
    method GenerateResponse(question: string, dense: HaystackRetriever.DenseAnswer, bm25: HaystackRetriever.Bm25Answer,
                            hasCallback: bool, http: OllamaClient.Request -> OllamaClient.HttpResult,
                            example: FewShotExample) returns (r: Response)
      ensures r == Respond(llm, question, dense, bm25, hasCallback, http, example)
    {
      var context := HaystackRetriever.HybridRetrieve(Some(dense), bm25, TopKResults);
      var progress := if hasCallback then [Progress(RetrievalComplete, |context|)] else [];
      if context == [] {
        return Response(NoContextMessage, progress);
      }
      var g := OllamaClient.Generate(llm, http, question, context, example);
      r := Response(g.answer, progress + Posts(g.calls));
    }

    /** switch_model: adopt a client for `name` only when the new client lists it among the available models. */
    method SwitchModel(name: string, available: seq<string>) returns (ok: bool)
      modifies this
      ensures ok <==> name in available
      ensures ok ==> modelName == name && llm == old(ClientFor(name))
      ensures !ok ==> modelName == old(modelName) && llm == old(llm)
      ensures systemPrompt == old(systemPrompt) && prose == old(prose) && vectorStore == old(vectorStore)
      ensures bm25Store == old(bm25Store) && saved == old(saved)
    {
      var newLlm := OllamaClient.NewClient(name, DefaultBaseUrl, None, systemPrompt, true, prose);
      if name !in available {
        return false;
      }
      llm := newLlm;
      modelName := name;
      return true;
    }

    /** get_system_info: the current model, the models listed, the store's count and the truncated file list. */
    function SystemInfo(available: seq<string>, documentCount: nat, processedNames: seq<string>): (info: map<string, InfoValue>)
      reads this
      ensures info.Keys == {"current_model", "available_models", "document_count", "processed_files", "vector_db"}
      ensures info["current_model"] == InfoText(modelName)
      ensures info["processed_files"] == InfoNames(TruncateFileList(processedNames))
    {
      map["current_model" := InfoText(modelName), "available_models" := InfoNames(available),
          "document_count" := InfoCount(documentCount), "processed_files" := InfoNames(TruncateFileList(processedNames)),
          "vector_db" := InfoText("ChromaDB")]
    }
  }

  /**
   * The specification of generate_response, which App.GenerateResponse is proved equal to and
   * the pipeline lemmas below are about: hybrid retrieval with top_k = TOP_K_RESULTS over the
   * two indexes' answers for the question, the progress notification when a callback is given,
   * and then either the no-context message or the client's answer.
   */
  function Respond(llm: OllamaClient.Client, question: string, dense: HaystackRetriever.DenseAnswer,
                   bm25: HaystackRetriever.Bm25Answer, hasCallback: bool,
                   http: OllamaClient.Request -> OllamaClient.HttpResult, example: FewShotExample): Response
  {
    var context := HaystackRetriever.Hybrid(Some(dense), bm25, TopKResults);
    var progress := if hasCallback then [Progress(RetrievalComplete, |context|)] else [];
    if context == [] then Response(NoContextMessage, progress)
    else
      var g := OllamaClient.Generate(llm, http, question, context, example);
      Response(g.answer, progress + Posts(g.calls))
  }

  /** Without retrieved documents the answer is the no-context message and no request is posted. */
  lemma NoDocumentsNoCall(llm: OllamaClient.Client, question: string, dense: HaystackRetriever.DenseAnswer, bm25: HaystackRetriever.Bm25Answer,
                          hasCallback: bool, http: OllamaClient.Request -> OllamaClient.HttpResult, example: FewShotExample)
    requires HaystackRetriever.Hybrid(Some(dense), bm25, TopKResults) == []
    ensures var r := Respond(llm, question, dense, bm25, hasCallback, http, example);
      r.answer == NoContextMessage && forall e :: e in r.events ==> !e.Posted?
  {
  }

  /**
   * The callback, when given, is notified exactly once, with the number of retrieved
   * documents, before any request; without one there is no notification.
   */
  lemma ProgressBeforeRequests(llm: OllamaClient.Client, question: string, dense: HaystackRetriever.DenseAnswer, bm25: HaystackRetriever.Bm25Answer,
                               hasCallback: bool, http: OllamaClient.Request -> OllamaClient.HttpResult, example: FewShotExample)
    ensures var r := Respond(llm, question, dense, bm25, hasCallback, http, example);
      var context := HaystackRetriever.Hybrid(Some(dense), bm25, TopKResults);
      (hasCallback ==> |r.events| >= 1 && r.events[0] == Progress(RetrievalComplete, |context|))
      && (forall i :: (if hasCallback then 1 else 0) <= i < |r.events| ==> r.events[i].Posted?)
  {
  }

  /** With retrieved documents, the answer and the requests are exactly those of the client's generate. */
  lemma ContextAnswerIsGenerate(llm: OllamaClient.Client, question: string, dense: HaystackRetriever.DenseAnswer, bm25: HaystackRetriever.Bm25Answer,
                                hasCallback: bool, http: OllamaClient.Request -> OllamaClient.HttpResult, example: FewShotExample)
    requires HaystackRetriever.Hybrid(Some(dense), bm25, TopKResults) != []
    ensures var r := Respond(llm, question, dense, bm25, hasCallback, http, example);
      var context := HaystackRetriever.Hybrid(Some(dense), bm25, TopKResults);
      var g := OllamaClient.Generate(llm, http, question, context, example);
      var skip := if hasCallback then 1 else 0;
      r.answer == g.answer && |r.events| >= skip && r.events[skip..] == Posts(g.calls)
  {
    var context := HaystackRetriever.Hybrid(Some(dense), bm25, TopKResults);
    var g := OllamaClient.Generate(llm, http, question, context, example);
    var progress: seq<Event> := if hasCallback then [Progress(RetrievalComplete, |context|)] else [];
    assert Respond(llm, question, dense, bm25, hasCallback, http, example) == Response(g.answer, progress + Posts(g.calls));
    assert (progress + Posts(g.calls))[|progress|..] == Posts(g.calls);
  }

  /** When the vector store answers, the context holds at most TOP_K_RESULTS documents with distinct contents. */
  lemma ContextBounded(dense: seq<Doc>, bm25: HaystackRetriever.Bm25Answer)
    ensures var context := HaystackRetriever.Hybrid(Some(HaystackRetriever.Answered(dense)), bm25, TopKResults);
      |context| <= 5 && HaystackRetriever.Distinct(context)
  {
    HaystackRetriever.HybridBoundedDistinct(dense, HaystackRetriever.ConvertToDicts(HaystackRetriever.Retrieve(bm25)), TopKResults);
  }
}
