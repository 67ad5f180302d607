# RagChitChat, modelled in Dafny

RagChitChat is a terminal chatbot that answers questions about lecture notes. Its
pipeline has these stages:

1. PDF pages and PowerPoint slides are cut into overlapping text chunks.
2. Both a vector store and a BM25 index receive the chunks.
3. For each question, the dense and BM25 hits are merged into a de-duplicated context of
   at most `TOP_K_RESULTS` documents.
4. The question is classified to pick a prompting strategy, and the prompt is sent to a
   local Ollama server.
5. The answers are kept in a bounded history that the terminal UI can page through.

This project models the decision logic of that pipeline and proves its properties:

| module | file | models |
|---|---|---|
| `DocumentProcessor` | `processor.dfy` | the sliding-window chunker, the slide-text join and the extension-based factory |
| `HaystackRetriever` | `retriever.dfy` | the BM25 error rule, dictionary conversion and the hybrid merge |
| `PromptTemplates` | `prompts.dfy` | the context block, format detection, the few-shot gate, and the structured and reflection prompts |
| `OllamaClient` | `ollama_client.dfy` | URL normalisation, the question classifier, the strategy dispatch with its fallbacks and error texts, and the reflection post-processing |
| `RagChitChat` | `rag_chit_chat.dfy` | the application object: reprocessing decision, note collection, the question pipeline, model switching and the system information |
| `TerminalUi` | `terminal_ui.dfy` | the UI object: bounded history, paging, command routing, page counter, loading message and the main loop |

Helper modules:

- `Wrappers`: `Option`.
- `Text`: strip, lower, contains, join, decimal rendering.
- `Paths`: basename, suffix, stem.
- `Documents`: chunk and document records.
- `Settings`: configuration values.

The model keeps the form of each source file:

- The chunking loops and the hybrid merge are methods with loop invariants. Each is proved
  equal to a closed-form or fold specification, and the properties are proved about that
  specification.
- The application object (`RagChitChat.App`) is a class whose fields its methods update.
- The terminal UI (`TerminalUi.TerminalUI`) is a class whose fields its methods update.
- The client and the prompt builders are pure functions.

Outside effects are inputs:

- The Ollama HTTP API is a function from request to result. A result is a status and body,
  a connection failure, or another exception.
- Vector-store and BM25 results are given lists.
- The page and slide texts of each file are given.
- Directory listings are given as counts and file lists.
- Each line typed in the UI comes with the user's exit confirmation, the pipeline's answer
  and whether the model switch succeeded.

Notes on what the code does, which the model follows:

- A page longer than `chunk_size` yields `ceil(len / stride)` chunks, with `stride =
  chunk_size - chunk_overlap`. The last chunks can lie wholly inside an earlier one.
- When `chunk_overlap >= chunk_size`, the stride is not positive and `PDFProcessor.process`
  never ends on a non-blank page longer than `chunk_size`. The model covers only pages on
  which the loop ends (`Terminates`). The factory's 1000/200 defaults end on every page
  (`DefaultPdfTerminates`).
- The classifier's "more than 15" test counts space characters in the question.
- Reflection falls back to the first answer only on a non-200 status. An exception in the
  reflection request escapes to `generate`'s handler.
- The factory builds `PDFProcessor()` with its own 1000/200 defaults.
- The UI is built with its default history capacity of 10.
- A client is built with its default base URL.
- The reflection prompt's criterion lines repeat the user's question after each
  criterion's name.
- The RAG request carries no `keep_alive`. The plain, structured and reflection requests
  carry `keep_alive: 0`.
- With an empty history, `/next` and `/prev` are sent as questions.

## Model

| member | source | states |
|---|---|---|
| DocumentProcessor.WindowChunk | src/document_processor/processor.py:72-81 | a window chunk holds at most chunk_size characters, is non-empty for a positive size, and is labelled with its source, page number and "start-end" part, where end is min(start + size, len) |
| DocumentProcessor.Windows | src/document_processor/processor.py:70-84 | the loop's chunks in closed form: ceil(len / stride) windows, window k starting at k * stride and equal to the text from there for chunk_size characters, clipped at the end |
| DocumentProcessor.PageChunks | src/document_processor/processor.py:57-84 | a page yields no chunk exactly when its text is blank; a page of at most chunk_size characters yields one chunk with the whole unstripped text, page number index + 1 and no part label; a longer page yields the windows |
| DocumentProcessor.SlideWindow | src/document_processor/processor.py:70-84 | the while loop that advances `start` by chunk_size - chunk_overlap produces exactly the closed-form windows |
| DocumentProcessor.ChunkPage | src/document_processor/processor.py:57-84 | the per-page branch of PDFProcessor.process produces exactly the page's specified chunks |
| DocumentProcessor.CeilDivBelow | src/document_processor/processor.py:71-84 | every window index below the count starts inside the text |
| DocumentProcessor.CeilDivPositive | src/document_processor/processor.py:70-73 | a non-empty page longer than chunk_size yields at least one window |
| DocumentProcessor.CeilDivExact | src/document_processor/processor.py:82-84 | the count whose last start is inside the text and whose next start is not is the ceiling, so the loop's break yields exactly ceil(len / stride) chunks |
| DocumentProcessor.WindowExists | src/document_processor/processor.py:71-84 | every multiple of the stride below the length is the start of a window the loop emits |
| DocumentProcessor.WindowsOverlap | src/document_processor/processor.py:72-82 | a full-length chunk and the next one share exactly chunk_size - stride (the configured overlap) characters, at the same text positions |
| DocumentProcessor.WindowsCover | src/document_processor/processor.py:70-84 | every character of the page appears in the window of its stride block, at the matching offset |
| DocumentProcessor.Contents | src/document_processor/processor.py:73-75 | the texts of a chunk list, one per chunk and in order |
| DocumentProcessor.CeilDivCovers | src/document_processor/processor.py:82-84 | the windows reach the end of the text |
| DocumentProcessor.ReassembleWindowsFrom | src/document_processor/processor.py:70-84 | the first stride characters of each window from k on, followed by the last window, give back the text from k * stride on |
| DocumentProcessor.ReassembleStep | src/document_processor/processor.py:72-82 | a window that is not the last, holding the text from st on for up to chunk_size characters, contributes text[st .. st + stride] to the reassembly |
| DocumentProcessor.PageChunksReassemble | src/document_processor/processor.py:57-84 | round trip: a non-blank page is recovered from its chunks when overlap < size |
| DocumentProcessor.LaterWindowsRedundant | src/document_processor/processor.py:82-84 | once a window reaches the end of the text, every later window is a strictly shorter suffix of it: the loop emits chunks already contained in an earlier one |
| DocumentProcessor.DefaultsEmitRedundantChunk | src/document_processor/processor.py:43-45 | with the 1000/200 defaults a 1700-character page yields three chunks (1000, 900 and 100 characters), the third repeating the tail of the second, where ceil((1700 - 200) / 800) would be two |
| DocumentProcessor.DashPosition | src/document_processor/processor.py:79 | the first '-' of a part label follows the start offset's digits |
| DocumentProcessor.PartLabelInjective | src/document_processor/processor.py:79 | the "start-end" label determines the start and end offsets |
| DocumentProcessor.PdfChunks | src/document_processor/processor.py:56-84 | the chunks of all pages, page by page in page order (its step is PdfChunksSnoc) |
| DocumentProcessor.PdfChunksSnoc | src/document_processor/processor.py:56-84 | one more page appends that page's chunks, in page order |
| DocumentProcessor.ProcessPdf | src/document_processor/processor.py:47-91 | PDFProcessor.process: the chunks of all pages in order, with the file's base name as source; a failure anywhere yields no chunks |
| DocumentProcessor.SlideLines | src/document_processor/processor.py:110-114 | the stripped texts of the shapes that have non-blank text, in shape order: never more lines than shapes |
| DocumentProcessor.SlideLinesTrimmed | src/document_processor/processor.py:110-113 | every line of a slide is non-empty with no surrounding whitespace |
| DocumentProcessor.AddShapeText | src/document_processor/processor.py:110-113 | one shape of the inner loop appends exactly the line that shape contributes to the slide's lines |
| DocumentProcessor.CollectLines | src/document_processor/processor.py:106-113 | the inner loop over a slide's shapes collects exactly the slide's lines |
| DocumentProcessor.SlideLinesEmpty | src/document_processor/processor.py:110-116 | a slide yields no lines exactly when none of its shapes has non-blank text |
| DocumentProcessor.JoinTrimmed | src/document_processor/processor.py:118 | the "\n"-join of trimmed lines is trimmed |
| DocumentProcessor.TextSlides | src/document_processor/processor.py:105-117 | the 1-based numbers of the slides that yield a chunk, each a valid slide number |
| DocumentProcessor.TextSlidesHaveLines | src/document_processor/processor.py:115-117 | only slides with text are listed |
| DocumentProcessor.TextSlidesComplete | src/document_processor/processor.py:106-117 | every slide with text is listed |
| DocumentProcessor.TextSlidesIncreasing | src/document_processor/processor.py:106-117 | the listed slide numbers strictly increase, so slide order is kept |
| DocumentProcessor.SlidesChunks | src/document_processor/processor.py:106-123 | one chunk per slide with text, in slide order, each the "\n"-join of that slide's lines with page number = slide index + 1 |
| DocumentProcessor.SlideChunksTrimmed | src/document_processor/processor.py:112-118 | every slide chunk's text is non-empty with no surrounding whitespace |
| DocumentProcessor.AddSlideChunk | src/document_processor/processor.py:115-122 | after the shapes are read, the slide loop appends exactly the chunk the slide contributes |
| DocumentProcessor.SlidesChunksSnoc | src/document_processor/processor.py:106-123 | one more slide appends its chunk exactly when it has text |
| DocumentProcessor.SlideLinesSnoc | src/document_processor/processor.py:110-114 | one more shape appends its stripped text exactly when it has any |
| DocumentProcessor.ProcessPptx | src/document_processor/processor.py:97-130 | PPTXProcessor.process's nested loops produce exactly the specified slide chunks; a failure yields no chunks |
| DocumentProcessor.GetProcessor | src/document_processor/processor.py:137-147 | the processor kind of the lower-cased suffix, if any (its meaning is proved in GetProcessorByExtension, FactoryIgnoresCase and FactorySkipsDotFile) |
| DocumentProcessor.GetProcessorByExtension | src/document_processor/processor.py:137-147 | the factory looks only at the lower-cased text after the last dot of the file name: .pdf gives the PDF processor, .pptx the PPTX processor, anything else none |
| DocumentProcessor.FactoryIgnoresCase | src/document_processor/processor.py:139 | extensions equal up to case get the same processor |
| DocumentProcessor.FactorySkipsDotFile | src/document_processor/processor.py:139-147 | a file named ".pdf" has no suffix and gets no processor |
| DocumentProcessor.DefaultPdfTerminates | src/document_processor/processor.py:43-45 | with the factory's 1000/200 the chunking loop ends on every page |
| DocumentProcessor.FileChunks | src/document_processor/processor.py:47-130 | the chunks of a file: none without a processor or when reading fails, otherwise the PDF or PPTX chunks |
| DocumentProcessor.Process | src/document_processor/processor.py:137-147 | running the processor the factory picked yields the file's specified chunks |
| Paths.Basename | src/document_processor/processor.py:64 | os.path.basename: the part of the path after its last '/', which holds no '/' |
| Paths.Suffix | src/document_processor/processor.py:139 | the suffix is empty or starts with '.' |
| Paths.StemSuffixSplitName | src/main.py:84-94 | stem and suffix split the file name without losing a character |
| Paths.SuffixOfPath | src/main.py:84-94 | for "dir/stem.ext" the suffix is ".ext" and the stem is stem, whatever dots the stem holds |
| Paths.DotFileHasNoSuffix | src/main.py:84 | a name whose only dot is its first character has no suffix, and its stem is the whole name |
| HaystackRetriever.Retrieve | src/retriever/haystack_retriever.py:60-68 | a BM25 error yields no documents; otherwise the ranked documents as returned |
| HaystackRetriever.ConvertToDicts | src/retriever/haystack_retriever.py:124-135 | one dictionary per document, in order, copying content, metadata, id and score |
| HaystackRetriever.ConvertToDictsRoundTrip | src/retriever/haystack_retriever.py:124-135 | conversion loses nothing: reading the dictionaries back gives the documents, in order |
| HaystackRetriever.Tag | src/retriever/haystack_retriever.py:104-112 | tagging sets retrieval_method on every result and changes nothing else |
| HaystackRetriever.ContentsOfMember | src/retriever/haystack_retriever.py:93-113 | a content is in the seen-set exactly when some result walked carries it |
| HaystackRetriever.Dedup | src/retriever/haystack_retriever.py:100-113 | de-duplication never lengthens the list |
| HaystackRetriever.DedupContents | src/retriever/haystack_retriever.py:100-113 | de-duplication drops no content |
| HaystackRetriever.DedupDistinct | src/retriever/haystack_retriever.py:93-113 | no two kept results share content |
| HaystackRetriever.OriginsFirst | src/retriever/haystack_retriever.py:100-113 | each kept result is the first occurrence of its content, in input order, duplicates inside one list included |
| HaystackRetriever.Take | src/retriever/haystack_retriever.py:116 | xs[:top_k]: the prefix of min(top_k, len) items, the whole list when it is shorter |
| HaystackRetriever.DedupSnoc | src/retriever/haystack_retriever.py:101-113 | one more result is kept exactly when its content was not seen, and its content joins the seen-set |
| HaystackRetriever.AddUnseen | src/retriever/haystack_retriever.py:100-113 | each merge loop keeps the output list equal to the de-duplication of everything walked so far and the seen-set equal to its contents |
| HaystackRetriever.Merged | src/retriever/haystack_retriever.py:93-113 | the dense results tagged 'vector' followed by the BM25 results tagged 'bm25', de-duplicated by content (properties in HybridBoundedDistinct, MergedProvenance, HybridDenseFirst) |
| HaystackRetriever.Hybrid | src/retriever/haystack_retriever.py:70-122 | the BM25 results alone without a vector store or when its query raises, otherwise the first top_k of the merge |
| HaystackRetriever.HybridRetrieve | src/retriever/haystack_retriever.py:70-122 | hybrid_retrieve: BM25 results alone without a vector store or when the vector query raises, otherwise the first top_k of the de-duplicated dense-then-BM25 list |
| HaystackRetriever.HybridBoundedDistinct | src/retriever/haystack_retriever.py:93-116 | the merged result is exactly the first min(top_k, len) entries of the de-duplicated merge, no two with the same content |
| HaystackRetriever.MergedProvenance | src/retriever/haystack_retriever.py:99-113 | each merged entry is a dense result tagged 'vector', or a BM25 result tagged 'bm25' whose content no dense result has |
| HaystackRetriever.HybridDenseFirst | src/retriever/haystack_retriever.py:99-116 | all dense-derived entries precede all BM25-derived ones, before and after truncation |
| PromptTemplates.TwoDecimals | src/prompts/prompt_templates.py:219 | "{:.2f}" of a non-negative value: digits, a dot, two digits |
| PromptTemplates.Fixed2 | src/prompts/prompt_templates.py:219 | "{:.2f}": a leading minus exactly for a negative value |
| PromptTemplates.CentsNearest | src/prompts/prompt_templates.py:219 | the rendered hundredths are the nearest ones to the value |
| PromptTemplates.TwoDecimalsReadsBack | src/prompts/prompt_templates.py:219 | the whole part and the two decimals read back to the hundredths they render |
| PromptTemplates.RelevanceTag | src/prompts/prompt_templates.py:216-219 | a relevance tag appears exactly when the document carries a distance, and starts " [Relevance: " |
| PromptTemplates.Sections | src/prompts/prompt_templates.py:207-223 | one section per document, in order, section i numbered i + 1 |
| PromptTemplates.FormatContext | src/prompts/prompt_templates.py:195-225 | the no-context message for no documents, else "\n\n" followed by the sections joined by "\n\n" (properties in FormatContextEmpty, FormatContextShowsDoc, FormatContextSnoc) |
| PromptTemplates.FormatContextEmpty | src/prompts/prompt_templates.py:204-205 | the no-context message is produced for an empty list and for no other |
| PromptTemplates.FormatContextShowsDoc | src/prompts/prompt_templates.py:209-225 | every document's section, and so its stripped content, appears in the context block |
| PromptTemplates.FormatContextSnoc | src/prompts/prompt_templates.py:225 | one more document adds one more section, numbered after the others, after "\n\n" at the end |
| PromptTemplates.DetectFormat | src/prompts/prompt_templates.py:228-252 | the first phrase list the lower-cased question contains picks the format, else the default |
| PromptTemplates.IsComplexQuestion | src/prompts/prompt_templates.py:255-272 | more than 100 characters, or a complexity indicator in the lower-cased question |
| PromptTemplates.DetectFormatIgnoresCase | src/prompts/prompt_templates.py:237-272 | format detection and the complexity test look only at the lower-cased question |
| PromptTemplates.DevsReadsAsComparison | src/prompts/prompt_templates.py:240-245 | phrases are matched as substrings, not words: "Do devs like Rust?" is answered in the comparison format |
| PromptTemplates.ParseFormat | src/prompts/prompt_templates.py:172 | a name found in the instruction table is the key of the format returned |
| PromptTemplates.ParseFormatName | src/prompts/prompt_templates.py:115-172 | every format's key looks up that format |
| PromptTemplates.ChosenFormat | src/prompts/prompt_templates.py:168-172 | "default" is resolved by detection; an unknown name falls back to the default instructions without detection |
| PromptTemplates.ExplicitFormatWins | src/prompts/prompt_templates.py:168-172 | an explicitly requested known format always wins over detection |
| PromptTemplates.StructuredPrompt | src/prompts/prompt_templates.py:100-190 | the structured template filled with the context block, the question and the chosen format's instructions (proved in StructuredPromptMentions) |
| PromptTemplates.StructuredPromptMentions | src/prompts/prompt_templates.py:175-190 | the structured prompt carries the context block, the question and the chosen format's instructions |
| PromptTemplates.RagBase | src/prompts/prompt_templates.py:34-42 | the RAG template filled with the context block and question, then the instruction suffix with the no-context message |
| PromptTemplates.RagPrompt | src/prompts/prompt_templates.py:19-49 | the filled template, with a few-shot example appended when the question is complex and the prompt short enough |
| PromptTemplates.RagPromptExample | src/prompts/prompt_templates.py:34-49 | the RAG prompt starts with the filled template and suffix; an example is appended exactly when the question is complex and len(context) + len(prompt) < 6000 |
| PromptTemplates.LongContextHasNoExample | src/prompts/prompt_templates.py:46 | a context block of 3000 characters or more never leaves room for an example |
| PromptTemplates.RagBaseMentions | src/prompts/prompt_templates.py:34-42 | the filled template carries the context block, the question and the no-context message |
| PromptTemplates.RagPromptMentions | src/prompts/prompt_templates.py:19-49 | the RAG prompt carries the context block, the question and the no-context message |
| PromptTemplates.EvaluationQuestions | src/prompts/prompt_templates.py:66-69 | one line per criterion, in order, "- <criterion>: <user's question>" |
| PromptTemplates.ReflectionPrompt | src/prompts/prompt_templates.py:52-97 | the reflection template filled with the question, the first answer, the criterion lines and the context block (proved in ReflectionPromptMentions) |
| PromptTemplates.ReflectionPromptMentions | src/prompts/prompt_templates.py:63-97 | the reflection prompt carries the question, the previous answer, the context block and every criterion line |
| OllamaClient.NormalizeBase | src/llm/ollama_client.py:41 | base_url.rstrip('/'): the result does not end in '/' |
| OllamaClient.NewClient | src/llm/ollama_client.py:40-44 | the API URL is the normalised base URL + "/api/generate"; a missing or empty system prompt becomes the settings' SYSTEM_PROMPT |
| OllamaClient.NormalizeBaseIgnoresSlashes | src/llm/ollama_client.py:41-42 | normalising is idempotent, and trailing slashes never reach the request URL |
| OllamaClient.Interpret | src/llm/ollama_client.py:125-139 | a post gives the "response" field's text exactly on status 200 with a readable field, the status itself exactly on any other status, the connection failure exactly when the server cannot be reached, and the exception's message for any other exception |
| OllamaClient.AnalyzeQuestionType | src/llm/ollama_client.py:243-276 | the comparative, procedural and complex phrase lists in that order on the lower-cased question, then the length and space tests, else factual (properties in AnalyzeIgnoresCase and LongOrSpacedIsComplex) |
| OllamaClient.AnalyzeIgnoresCase | src/llm/ollama_client.py:252-276 | the classifier gives one label to questions that differ only in letter case |
| OllamaClient.LongOrSpacedIsComplex | src/llm/ollama_client.py:269-273 | more than 100 characters or more than 15 space characters make a question complex unless a comparative or procedural phrase matched first |
| OllamaClient.StatusErrorInjective | src/llm/ollama_client.py:139 | the status error text determines the status |
| OllamaClient.Answered | src/llm/ollama_client.py:125-139 | a single post; status 200 returns the field's text, another status N returns "Error: Failed to generate response from Ollama (Status N)"; a connection failure raises ConnectionFailure, and another exception, or status 200 with an unreadable body, raises OtherFailure with its message |
| OllamaClient.SimpleGenerate | src/llm/ollama_client.py:116-139 | one post of the prompt itself with keep_alive 0, answered as Answered says (used by NoContextIsPlain) |
| OllamaClient.RagGenerate | src/llm/ollama_client.py:141-166 | RAG generation posts exactly the RAG prompt, without keep_alive; status 200 returns the field's text and another status N the status error text |
| OllamaClient.StructuredGenerate | src/llm/ollama_client.py:213-241 | the structured prompt with keep_alive 0; status 200 returns the text, another status retries as RAG generation, exceptions propagate (proved in StructuredFallsBackToRag) |
| OllamaClient.ExtractImproved | src/llm/ollama_client.py:202-207 | without the "## Improved Answer" marker the whole reply is returned |
| OllamaClient.ExtractImprovedIdempotent | src/llm/ollama_client.py:202-204 | the text after the last marker holds no marker, so extracting twice changes nothing |
| OllamaClient.ReflectionGenerate | src/llm/ollama_client.py:178-179 | reflection first posts the RAG prompt (its outcomes are stated by OllamaClient.ReflectionSkipped and OllamaClient.ReflectionRound) |
| OllamaClient.Dispatch | src/llm/ollama_client.py:81-100 | plain generation without context, otherwise RAG, structured "comparison", structured "steps" or reflection by question type (proved in FirstRequestByType) |
| OllamaClient.Generate | src/llm/ollama_client.py:71-114 | generate posts exactly the requests of the path it dispatches to and returns its answer; a connection failure becomes the connection-error text and any other exception "# Error" with its message |
| OllamaClient.NoContextIsPlain | src/llm/ollama_client.py:82-84 | without context: one plain request carrying the question itself with keep_alive 0 |
| OllamaClient.FirstRequestByType | src/llm/ollama_client.py:86-100 | with context the first request carries the RAG prompt for factual and complex questions, and the structured prompt with "comparison" or "steps" for comparative and procedural ones |
| OllamaClient.StructuredUsesRequestedFormat | src/llm/ollama_client.py:93-95 | the structured strategies always get the instructions of the format they name |
| OllamaClient.ServerDownRaises | src/llm/ollama_client.py:81-100 | when the server cannot be reached every strategy raises the connection failure |
| OllamaClient.ServerDownGivesConnectionError | src/llm/ollama_client.py:102-111 | so every question gets the connection-error text instead of an exception |
| OllamaClient.ReflectionSkipped | src/llm/ollama_client.py:179-183 | a first answer under 200 characters, or a model without "mistral:7b", is returned after one request |
| OllamaClient.ReflectionRound | src/llm/ollama_client.py:186-211 | otherwise a reflection request follows; on 200 the answer is the extracted improvement, on another status the first answer; only a status falls back: a connection failure in the reflection request gives the connection-error text, and another exception or an unreadable 200 body gives "# Error…" with its message |
| OllamaClient.ServerErrorGivesStatusText | src/llm/ollama_client.py:71-114 | a server answering every request with the same status N other than 200 gets the status error text for N back, whatever the strategy |
| OllamaClient.BrokenGivesOtherErrorText | src/llm/ollama_client.py:112-114 | when every post raises another exception than a connection error, generate returns "# Error" with its message |
| OllamaClient.StructuredFallsBackToRag | src/llm/ollama_client.py:234-241 | a structured request answered with another status than 200 is retried as a RAG request, whose result stands |
| RagChitChat.NeedsProcessing | src/main.py:62-74 | notes are processed when no file was processed yet or there are more data files than processed ones |
| RagChitChat.IsNoteFile | src/main.py:84-85 | the lower-cased suffix is .pdf or .pptx |
| RagChitChat.NoteFileHasProcessor | src/main.py:84-89 | the suffix filter lets through exactly the files the factory has a processor for |
| RagChitChat.OutputName | src/main.py:94 | the chunks are saved under a name ending in ".txt" |
| RagChitChat.NotesChunksAppend | src/main.py:82-98 | chunks accumulate in file order: the chunks of a list of files are those of its parts, in order |
| RagChitChat.CollectStep | src/main.py:82-98 | one more file extends the collected chunks and the saved files as one loop iteration does |
| RagChitChat.OtherFilesIgnored | src/main.py:84-85 | files the filter rejects contribute no chunks and write no file |
| RagChitChat.LastWriterSaved | src/main.py:94-95 | a file's chunks stay saved under its output name unless a later note file has the same stem |
| RagChitChat.CollectNotes | src/main.py:78-98 | the loop of _process_lecture_notes collects the chunks of the .pdf and .pptx files in file order and saves each file's chunks under "<stem>.txt" |
| RagChitChat.ProcessNotes | src/main.py:76-104 | the indexes get the collected chunks appended; they are unchanged when there are none |
| RagChitChat.Posts | src/main.py:135 | one posted-request event per request, in order |
| RagChitChat.TruncateFileList | src/main.py:186 | at most five names are kept as they are; more become the first five followed by "..." |
| RagChitChat.TruncateIdempotent | src/main.py:186 | truncating a truncated list changes nothing |
| RagChitChat.App.ClientFor | src/main.py:57 | OllamaLLM(model=name) has that model, the settings' system prompt and reflection on |
| RagChitChat.App.constructor | src/main.py:36-60 | the client is built for the model name, and the notes are processed into both indexes exactly when reprocessing is needed |
| RagChitChat.App.EnsureDataProcessed | src/main.py:62-74 | notes are processed exactly when there are no processed files or more data files than processed ones |
| RagChitChat.App.ProcessLectureNotes | src/main.py:76-104 | both indexes get the collected chunks appended and the saved files are updated; the model and client are unchanged |
| RagChitChat.App.GenerateResponse | src/main.py:106-137 | generate_response with the current client returns the specified answer and events |
| RagChitChat.App.SwitchModel | src/main.py:139-169 | the switch succeeds exactly when the name is among the available models; only then are the client and model name replaced, and nothing else changes |
| RagChitChat.App.SystemInfo | src/main.py:171-188 | the five keys, the current model and the truncated processed-file list |
| RagChitChat.Respond | src/main.py:106-137 | the specification of generate_response: hybrid retrieval with top_k 5, the progress event when a callback is given, then the no-context message or the client's answer |
| RagChitChat.NoDocumentsNoCall | src/main.py:120-126 | without retrieved documents the answer is the no-context message and no request is posted |
| RagChitChat.ProgressBeforeRequests | src/main.py:122-135 | with a callback there is exactly one "retrieval_complete" notification with the number of documents, before any request |
| RagChitChat.ContextAnswerIsGenerate | src/main.py:131-137 | with documents the answer and requests are exactly those of the client's generate on them |
| RagChitChat.ContextBounded | src/main.py:118 | when the vector store answers, the context holds at most TOP_K_RESULTS documents with distinct contents (when it has no answer or raises, the context is the whole BM25 list) |
| TerminalUi.AppendBounded | src/interface/terminal_ui.py:314-316 | appending to a history within capacity keeps its last min(len + 1, capacity) turns, the new turn last |
| TerminalUi.AppendKeepsLast | src/interface/terminal_ui.py:314-316 | appending one turn to the last min(len, capacity) turns of a history keeps the last min(len + 1, capacity) turns of the longer history |
| TerminalUi.AppendAllKeepsLast | src/interface/terminal_ui.py:314-316 | after N more questions the history holds the last min(len + N, capacity) turns of all, in order |
| TerminalUi.FreshHistoryKeepsLast | src/interface/terminal_ui.py:40 | from the empty history, N questions leave the last min(N, capacity) turns |
| TerminalUi.TotalPages | src/interface/terminal_ui.py:235 | (n + per_page - 1) // per_page (proved the ceiling in TotalPagesIsCeiling) |
| TerminalUi.TotalPagesIsCeiling | src/interface/terminal_ui.py:235 | total_pages is ceil(len / items_per_page): the pages hold every turn and the last one is not empty |
| TerminalUi.Slice | src/interface/terminal_ui.py:234 | Python slicing clips both bounds to the length |
| TerminalUi.ShowHistory | src/interface/terminal_ui.py:216-273 | the empty-history view, or the page's slice with its number, total pages and the controls shown (properties in PageEntries, PagePastEndIsEmpty, PagesCoverHistory) |
| TerminalUi.PageEntries | src/interface/terminal_ui.py:232-240 | entry k of page p is history[(p - 1) * per_page + k], numbered (p - 1) * per_page + k + 1 |
| TerminalUi.PagePastEndIsEmpty | src/interface/terminal_ui.py:232-234 | a page past the last one, which /next can reach, shows no turns |
| TerminalUi.PagesUpToPrefix | src/interface/terminal_ui.py:232-234 | pages 1..n show exactly the first n * per_page turns |
| TerminalUi.PagesCoverHistory | src/interface/terminal_ui.py:232-235 | paging through all pages shows every turn exactly once, in order |
| TerminalUi.Route | src/interface/terminal_ui.py:437-470 | the command a typed line selects, tested in the source's order on the lower-cased line (properties in RouteIgnoresCase, NavigationNeedsHistory, BlankLineIgnored, SwitchNamesStrippedRest) |
| TerminalUi.RouteIgnoresCase | src/interface/terminal_ui.py:437-461 | the fixed commands match regardless of letter case |
| TerminalUi.NavigationNeedsHistory | src/interface/terminal_ui.py:450-470 | with an empty history /next and /prev are sent as questions; otherwise they navigate |
| TerminalUi.NotACommand | src/interface/terminal_ui.py:437-462 | a line that does not start with '/' is none of the slash commands and no model switch |
| TerminalUi.BlankLineIgnored | src/interface/terminal_ui.py:468-470 | blank input does nothing |
| TerminalUi.SwitchNamesStrippedRest | src/interface/terminal_ui.py:462-465 | a switch names the stripped rest of the line after "/model ", which is non-empty |
| TerminalUi.NextPage | src/interface/terminal_ui.py:446-455 | the page counter stays at 1 or more |
| TerminalUi.PrevUndoesNext | src/interface/terminal_ui.py:450-455 | /prev undoes /next, and /prev on page 1 stays there |
| TerminalUi.LoadingStage | src/interface/terminal_ui.py:76-87 | the message changes at 20, 40, 60 and 80 percent, the last one open-ended |
| TerminalUi.LoadingMessage | src/interface/terminal_ui.py:76-87 | the message of the progress band (LoadingStage) |
| TerminalUi.LoadingStageMonotone | src/interface/terminal_ui.py:76-87 | as progress grows the message never goes back |
| TerminalUi.InfoAfterSwitch | src/interface/terminal_ui.py:387-410 | current_model is set to the new name only after a successful switch and only when the key exists; no key is added and nothing else changes |
| TerminalUi.Apply | src/interface/terminal_ui.py:437-470 | every command keeps the page counter at 1 or more and the history within capacity |
| TerminalUi.Step | src/interface/terminal_ui.py:431-470 | one loop iteration keeps the page counter at 1 or more and the history within capacity |
| TerminalUi.Replay | src/interface/terminal_ui.py:426-470 | the main loop over a list of lines, one Step per line (properties in ReplayInvariant, ReplaySnoc, ReplayAppend, StoppedStaysStopped) |
| TerminalUi.ReplayInvariant | src/interface/terminal_ui.py:431-470 | the whole loop keeps the page counter at 1 or more and the history within capacity |
| TerminalUi.StoppedStaysStopped | src/interface/terminal_ui.py:437-440 | after a confirmed /exit later lines change nothing |
| TerminalUi.ReplaySnoc | src/interface/terminal_ui.py:431-470 | running one more line is one more loop step after the earlier lines |
| TerminalUi.ReplayAppend | src/interface/terminal_ui.py:431-470 | running two stretches of input one after the other is running their concatenation |
| TerminalUi.TerminalUI.constructor | src/interface/terminal_ui.py:25-43 | the UI starts with an empty history and the given capacity, system information and switch function |
| TerminalUi.TerminalUI.HandleQuestion | src/interface/terminal_ui.py:314-316 | the turn is appended and the oldest dropped when over capacity; nothing else changes |
| TerminalUi.TerminalUI.ClearHistory | src/interface/terminal_ui.py:443-444 | /clear empties the history and changes nothing else |
| TerminalUi.TerminalUI.SwitchModel | src/interface/terminal_ui.py:381-410 | the system information is updated as the switch rule says; the history is untouched |
| TerminalUi.TerminalUI.HandleLine | src/interface/terminal_ui.py:437-470 | one iteration of the main loop changes the history, system information and page counter exactly as the specified step does, and stops exactly at a confirmed /exit |
| TerminalUi.TerminalUI.Run | src/interface/terminal_ui.py:426-470 | the main loop leaves the history and system information the specified replay of the lines gives, stopping at a confirmed /exit |

## Left out

- HTTP is not performed. The Ollama API is a deterministic function from request to
  result, so a repeated identical request gets the same reply.
- `_check_availability` and `list_models` are not modelled. They only log, or return the
  server's model list. The list of available models is an input to `App.SwitchModel` and
  `App.SystemInfo`.
- The exceptions `switch_model` can raise are not modelled; building a client is total in
  the model. The `list_models` failure that yields an empty list is covered by an empty
  `available` input.
- `save_chunks` is not modelled: it renders the chunks into a text file. The saved files
  are a map from output name to chunks, so a later file with the same stem overwrites an
  earlier one.
- src/vector_store/chroma_store.py and the BM25 store's internals are not modelled: no
  embeddings, no scoring and no persistence. Dense and BM25 answers are inputs, and the
  indexes are the lists of chunks added to them.
- Text extraction is not modelled (pypdf, python-pptx). Page texts and shape texts are
  inputs. Any exception while reading a file is the `Unreadable` extraction.
- Directory globbing is not modelled. The data files and the count of processed files are
  inputs.
- Logging, the Rich rendering, the splash screen, the screen clearing, the timers and the
  help, about, info and model-list panels are not modelled.
- Python's `hash(content)` is not modelled. De-duplication compares contents, since equal
  contents hash equally and a collision is not something the source relies on.
- `random.choice` over `FEW_SHOT_EXAMPLES` is not modelled. The drawn example is a
  parameter.
- The prompt prose is a parameter. The literal texts of the templates are a `Prose` value,
  and the concrete source texts are written out in `PromptTemplates.SourceProse` and
  `Settings`. The proved properties hold for any prose.
- PromptTemplates.Fixed2: Python's binary floating point is not modelled. The similarity is
  an exact real, rounded half up at the hundredths, so values whose binary representation
  sits just below a tie can render one hundredth apart from Python.
- Text.Lower: it lower-cases one character at a time, A to Z only. Python's `str.lower` also
  folds non-ASCII letters, and a few of those change the string's length.
- The UI's main loop runs over a finite list of typed lines. The source loops until a
  confirmed exit; when the lines run out, the model's loop simply ends.
- OllamaClient.Client: `use_reflection` is kept as a field, but no code path reads it, just
  as in the source.
- Settings: `OLLAMA_URL`, `CHUNK_SIZE`, `CHUNK_OVERLAP`, `HISTORY_CAPACITY` and
  `OUT_OF_SCOPE_TEMPLATE` are not read by the modelled code paths. The code uses its own
  defaults, which are equal in value.
