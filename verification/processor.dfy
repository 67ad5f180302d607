/**
 * Document processing (src/document_processor/processor.py): the PDF chunking loop
 * over page texts, the PPTX slide-text join, and the extension-based factory.
 * Text extraction is not modelled: a file's pages or slides are given as an
 * Extraction, and a failure anywhere while reading a file is `Unreadable`.
 */
module DocumentProcessor {
  import opened Wrappers
  import opened Text
  import opened Documents
  import Paths

  /** What a text extractor yields for one file: its units in order, or a failure. */
  datatype Extraction<T> = Extracted(units: seq<T>) | Unreadable

  /** A slide's shapes in order; None stands for a shape without a text attribute. */
  type Slide = seq<Option<string>>

  /** A file of the data directory with what each extractor would read from it. */
  datatype DataFile = DataFile(path: string, asPdf: Extraction<string>, asPptx: Extraction<Slide>)

  /** PDFProcessor's two constructor arguments. */
  datatype PdfProcessor = PdfProcessor(chunkSize: nat, chunkOverlap: nat)

  /** PDFProcessor() as the factory builds it. */
  const DefaultPdf := PdfProcessor(1000, 200)

  function Min(a: int, b: int): int {
    if a <= b then a else b
  }

  function CeilDiv(a: nat, b: nat): nat
    requires b > 0
  {
    (a + b - 1) / b
  }

  lemma {:induction false} MulMono(x: nat, y: nat, b: nat)
    requires x <= y
    ensures x * b <= y * b
  {
    assert y * b == x * b + (y - x) * b;
  }

  /** The quotient is pinned down by the two products around the dividend. */
  lemma {:induction false} DivBetween(x: nat, b: nat, n: nat)
    requires b > 0 && n * b <= x < n * b + b
    ensures x / b == n
  {
    var q, r := x / b, x % b;
    assert x == q * b + r && 0 <= r < b;
    if q < n {
      MulMono(q + 1, n, b);
      assert false;
    } else if q > n {
      MulMono(n + 1, q, b);
      assert false;
    }
  }

  /** Every window index below the count starts inside the text. */
  lemma {:induction false} CeilDivBelow(k: nat, a: nat, b: nat)
    requires b > 0 && k < CeilDiv(a, b)
    ensures k * b < a
  {
    var q := CeilDiv(a, b);
    assert q * b <= a + b - 1;
    MulMono(k + 1, q, b);
  }

  /** A non-empty text has at least one window. */
  lemma {:induction false} CeilDivPositive(a: nat, b: nat)
    requires b > 0 && a > 0
    ensures CeilDiv(a, b) >= 1
  {
    DivBetween(a + b - 1, b, (a + b - 1) / b);
  }

  /** A count whose last start is inside the text and whose next start is not is the ceiling. */
  lemma {:induction false} CeilDivExact(n: nat, a: nat, b: nat)
    requires b > 0 && n >= 1 && (n - 1) * b < a <= n * b
    ensures n == CeilDiv(a, b)
  {
    DivBetween(a + b - 1, b, n);
  }

  // ---------------------------------------------------------------------------
  // PDF: overlapping character windows over one page
  // ---------------------------------------------------------------------------

  /** The loop's advance: chunk_size - chunk_overlap. */
  function Stride(p: PdfProcessor): int {
    p.chunkSize - p.chunkOverlap
  }

  /**
   * The loop ends for this page: the page is skipped, fits in one chunk, or the
   * stride is positive. Nothing in the source checks this.
   */
  predicate Terminates(p: PdfProcessor, text: string) {
    IsBlank(text) || |text| <= p.chunkSize || p.chunkOverlap < p.chunkSize
  }

  /** The metadata value 'chunk_part': "start-end". */
  function PartLabel(start: nat, end: nat): string {
    NatToString(start) + "-" + NatToString(end)
  }

  /** The chunk the loop emits for the window starting at `start`: at most `size` characters. */
  function WindowChunk(text: string, start: nat, size: nat, source: string, pageNum: nat): (c: Chunk)
    requires start < |text|
    ensures |c.content| <= size && (size > 0 ==> c.content != [])
    ensures c.meta == Meta(Some(source), Some(pageNum), Some(PartLabel(start, Min(start + size, |text|))))
  {
    var end := Min(start + size, |text|);
    Chunk(text[start..end], Meta(Some(source), Some(pageNum), Some(PartLabel(start, end))))
  }

  /** The windows in closed form: window k starts at k * stride; there are ceil(len / stride) of them. */
  function Windows(text: string, size: nat, stride: nat, source: string, pageNum: nat): (r: seq<Chunk>)
    requires stride > 0
    ensures |r| == CeilDiv(|text|, stride)
    ensures forall k :: 0 <= k < |r| ==>
      k * stride < |text| && r[k] == WindowChunk(text, k * stride, size, source, pageNum)
  {
    var n := CeilDiv(|text|, stride);
    assert forall k :: 0 <= k < n ==> k * stride < |text| by {
      forall k | 0 <= k < n ensures k * stride < |text| {
        CeilDivBelow(k, |text|, stride);
      }
    }
    seq(n, k requires 0 <= k < n && k * stride < |text| => WindowChunk(text, k * stride, size, source, pageNum))
  }

  /** The chunk of a page that fits whole. */
  function PageChunk(text: string, pageNum: nat, source: string): Chunk {
    Chunk(text, Meta(Some(source), Some(pageNum), None))
  }

  /** The chunks one page yields (page index `index`, counted from 0). */
  function PageChunks(p: PdfProcessor, text: string, index: nat, source: string): (r: seq<Chunk>)
    requires Terminates(p, text)
    ensures r == [] <==> IsBlank(text)
    ensures forall k :: 0 <= k < |r| ==>
      r[k].content != "" && |r[k].content| <= p.chunkSize &&
      r[k].meta.source == Some(source) && r[k].meta.pageNum == Some(index + 1) &&
      (r[k].meta.chunkPart == None <==> |text| <= p.chunkSize)
    ensures !IsBlank(text) && |text| <= p.chunkSize ==> r == [PageChunk(text, index + 1, source)]
  {
    if Strip(text) == "" then []
    else if |text| <= p.chunkSize then [PageChunk(text, index + 1, source)]
    else
      CeilDivPositive(|text|, Stride(p));
      Windows(text, p.chunkSize, Stride(p), source, index + 1)
  }

  /** The window loop of PDFProcessor.process: a chunk from every multiple of the stride below the length. */
  method SlideWindow(text: string, size: nat, stride: nat, source: string, pageNum: nat) returns (chunks: seq<Chunk>)
    requires stride > 0
    ensures chunks == Windows(text, size, stride, source, pageNum)
  {
    chunks := [];
    var start := 0;
    while start < |text|
      invariant start == |chunks| * stride
      invariant |chunks| == 0 || (|chunks| - 1) * stride < |text|
      invariant forall k :: 0 <= k < |chunks| ==>
        k * stride < |text| && chunks[k] == WindowChunk(text, k * stride, size, source, pageNum)
      decreases |text| - start
    {
      chunks := chunks + [WindowChunk(text, start, size, source, pageNum)];
      assert (|chunks| - 1) * stride == start;
      assert |chunks| * stride == start + stride;
      start := start + stride;
      if start >= |text| {
        break;
      }
    }
    if |text| > 0 {
      CeilDivExact(|chunks|, |text|, stride);
    }
  }

  /** PDFProcessor.process for one page: skip a blank page, keep a short one whole, else slide a window. */
  method ChunkPage(p: PdfProcessor, text: string, index: nat, source: string) returns (chunks: seq<Chunk>)
    requires Terminates(p, text)
    ensures chunks == PageChunks(p, text, index, source)
  {
    if Strip(text) == "" {
      chunks := [];
    } else if |text| <= p.chunkSize {
      chunks := [PageChunk(text, index + 1, source)];
    } else {
      chunks := SlideWindow(text, p.chunkSize, Stride(p), source, index + 1);
    }
  }

  lemma {:induction false} DivLower(x: nat, b: nat, n: nat)
    requires b > 0 && n * b <= x
    ensures n <= x / b
  {
    var q := x / b;
    assert x == q * b + x % b;
    if q < n {
      MulMono(q + 1, n, b);
    }
  }

  /** Window k exists when the window after it would still start inside the text. */
  lemma {:induction false} WindowExists(len: nat, stride: nat, k: nat)
    requires stride > 0 && k * stride < len
    ensures k < CeilDiv(len, stride)
  {
    assert (k + 1) * stride == k * stride + stride;
    DivLower(len + stride - 1, stride, k + 1);
  }

  /** Consecutive full windows share exactly `size - stride` characters (the configured overlap). */
  lemma {:induction false} WindowsOverlap(text: string, size: nat, stride: nat, source: string, pageNum: nat, k: nat)
    requires 0 < stride < size
    requires k * stride + size <= |text|
    ensures var w := Windows(text, size, stride, source, pageNum);
      k + 1 < |w| &&
      w[k].content[stride..] == w[k + 1].content[..size - stride] == text[k * stride + stride..k * stride + size]
  {
    var w := Windows(text, size, stride, source, pageNum);
    var st := k * stride;
    assert (k + 1) * stride == st + stride;
    WindowExists(|text|, stride, k + 1);
    var e := Min(st + stride + size, |text|);
    assert w[k].content == text[st..st + size];
    assert w[k + 1].content == text[st + stride..e];
    SliceOfSlice(text, st, st + size, stride, size);
    SliceOfSlice(text, st + stride, e, 0, size - stride);
  }

  /**
   * No character is lost: the window starting at the last multiple of the stride at or
   * before position i exists and holds text[i] at the matching offset.
   */
  lemma {:induction false} WindowsCover(text: string, size: nat, stride: nat, source: string, pageNum: nat, i: nat, k: nat)
    requires 0 < stride <= size && i < |text|
    requires k * stride <= i < k * stride + stride
    ensures var w := Windows(text, size, stride, source, pageNum);
      k < |w| && i - k * stride < |w[k].content| && w[k].content[i - k * stride] == text[i]
  {
    var w := Windows(text, size, stride, source, pageNum);
    WindowExists(|text|, stride, k);
    var st := k * stride;
    assert w[k].content == text[st..Min(st + size, |text|)];
  }

  /** The texts of a list of chunks. */
  function Contents(cs: seq<Chunk>): (r: seq<string>)
    ensures |r| == |cs| && forall k :: 0 <= k < |cs| ==> r[k] == cs[k].content
  {
    seq(|cs|, k requires 0 <= k < |cs| => cs[k].content)
  }

  /** Put chunks back together: the first `stride` characters of each piece but the last, then the last piece. */
  function Reassemble(pieces: seq<string>, stride: nat): string
  {
    if pieces == [] then ""
    else if |pieces| == 1 then pieces[0]
    else pieces[0][..Min(stride, |pieces[0]|)] + Reassemble(pieces[1..], stride)
  }

  /** The windows reach the end of the text. */
  lemma {:induction false} CeilDivCovers(a: nat, b: nat)
    requires b > 0
    ensures a <= CeilDiv(a, b) * b
  {
    var x := a + b - 1;
    assert x == (x / b) * b + x % b;
  }

  /** Reassembling the windows from window k on gives back the text from k * stride on. */
  lemma {:induction false} ReassembleWindowsFrom(text: string, size: nat, stride: nat, source: string, pageNum: nat, k: nat)
    requires 0 < stride <= size
    requires k < |Windows(text, size, stride, source, pageNum)|
    ensures Reassemble(Contents(Windows(text, size, stride, source, pageNum)[k..]), stride) == text[k * stride..]
    decreases |Windows(text, size, stride, source, pageNum)| - k
  {
    var w := Windows(text, size, stride, source, pageNum);
    var st := k * stride;
    var pieces := Contents(w[k..]);
    assert (k + 1) * stride == st + stride;
    if k == |w| - 1 {
      CeilDivCovers(|text|, stride);
      assert pieces == [w[k].content];
    } else {
      ReassembleWindowsFrom(text, size, stride, source, pageNum, k + 1);
      ContentsFrom(w, k);
      WindowExists(|text|, stride, k + 1);
      ReassembleStep(text, pieces, size, stride, st);
    }
  }

  /** One step of the reassembly: a window holding text[st..] up to `size` characters contributes text[st..st + stride]. */
  lemma ReassembleStep(text: string, pieces: seq<string>, size: nat, stride: nat, st: nat)
    requires 0 < stride <= size && |pieces| >= 2 && st + stride < |text|
    requires pieces[0] == text[st..Min(st + size, |text|)]
    requires Reassemble(pieces[1..], stride) == text[st + stride..]
    ensures Reassemble(pieces, stride) == text[st..]
  {
    var c, e := pieces[0], Min(st + size, |text|);
    assert |c| == e - st >= stride;
    SliceOfSlice(text, st, e, 0, stride);
    SplitFrom(text, st, st + stride);
  }

  /** The contents of a suffix of chunks, split into its first text and the rest. */
  lemma ContentsFrom(cs: seq<Chunk>, k: nat)
    requires k < |cs|
    ensures Contents(cs[k..])[0] == cs[k].content
    ensures Contents(cs[k..])[1..] == Contents(cs[k + 1..])
  {
  }

  /** Reconstruction: a non-blank page is recovered from its chunks when the stride is positive. */
  lemma PageChunksReassemble(p: PdfProcessor, text: string, index: nat, source: string)
    requires p.chunkOverlap < p.chunkSize && !IsBlank(text)
    ensures Reassemble(Contents(PageChunks(p, text, index, source)), Stride(p)) == text
  {
    var r := PageChunks(p, text, index, source);
    var stride: nat := Stride(p);
    if |text| > p.chunkSize {
      var w := Windows(text, p.chunkSize, stride, source, index + 1);
      assert r == w;
      ReassembleWindowsFrom(text, p.chunkSize, stride, source, index + 1, 0);
      assert 0 * stride == 0;
      SuffixAll(w);
    } else {
      assert r == [PageChunk(text, index + 1, source)];
      assert Contents(r)[0] == text;
    }
  }

  /**
   * Once a window reaches the end of the text, every later window is a suffix of it:
   * the loop keeps emitting chunks whose text an earlier chunk already holds.
   */
  lemma {:induction false} LaterWindowsRedundant(text: string, size: nat, stride: nat, source: string, pageNum: nat, k: nat, j: nat)
    requires 0 < stride <= size
    ensures var w := Windows(text, size, stride, source, pageNum);
      k < j < |w| && k * stride + size >= |text| ==>
      |w[j].content| < |w[k].content| && w[j].content == w[k].content[(j - k) * stride..]
  {
    var w := Windows(text, size, stride, source, pageNum);
    if k < j < |w| && k * stride + size >= |text| {
      var a, b := k * stride, j * stride;
      assert b == a + (j - k) * stride;
      MulMono(1, j - k, stride);
      assert w[k].content == text[a..|text|];
      assert w[j].content == text[b..|text|];
      SliceOfSlice(text, a, |text|, (j - k) * stride, |text| - a);
    }
  }

  /**
   * With the factory's settings (1000 and 200) a 1700-character page yields three chunks,
   * the third of which repeats the tail of the second; ceil((1700 - 200) / 800) would be two.
   */
  lemma DefaultsEmitRedundantChunk()
    ensures var text := seq(1700, _ => 'a');
      var r := PageChunks(DefaultPdf, text, 0, "notes.pdf");
      |r| == 3 && CeilDiv(1700 - 200, 800) == 2 &&
      |r[0].content| == 1000 && |r[1].content| == 900 && |r[2].content| == 100 &&
      r[2].content == r[1].content[800..]
  {
    var text := seq(1700, _ => 'a');
    assert text[0] == 'a' && !IsSpace('a');
    var w := Windows(text, 1000, 800, "notes.pdf", 1);
    assert |w| == 3;
    LaterWindowsRedundant(text, 1000, 800, "notes.pdf", 1, 1, 2);
  }

  /** The first '-' of a part label is the one right after the start offset. */
  lemma DashPosition(a: nat, b: nat)
    ensures var l, x := PartLabel(a, b), NatToString(a);
      |x| < |l| && l[|x|] == '-' && forall j :: 0 <= j < |x| ==> l[j] != '-'
  {
    var l, x := PartLabel(a, b), NatToString(a);
    forall j | 0 <= j < |x| ensures l[j] != '-' {
      assert l[j] == x[j] && IsDigit(x[j]);
    }
  }

  /** Part labels tell windows apart: the label determines the character range. */
  lemma {:induction false} PartLabelInjective(a: nat, b: nat, c: nat, d: nat)
    requires PartLabel(a, b) == PartLabel(c, d)
    ensures a == c && b == d
  {
    var x, y := NatToString(a), NatToString(c);
    var l := PartLabel(a, b);
    DashPosition(a, b);
    DashPosition(c, d);
    assert |x| == |y|;
    assert x == l[..|x|] == y;
    assert NatToString(b) == l[|x| + 1..] == NatToString(d);
    ParseNatToString(a);
    ParseNatToString(b);
    ParseNatToString(c);
    ParseNatToString(d);
  }

  /** Every page of the list lets the chunking loop end. */
  predicate AllTerminate(p: PdfProcessor, pages: seq<string>) {
    forall i :: 0 <= i < |pages| ==> Terminates(p, pages[i])
  }

  /** All chunks of a PDF's pages, page by page. */
  function PdfChunks(p: PdfProcessor, pages: seq<string>, source: string): seq<Chunk>
    requires AllTerminate(p, pages)
  {
    if pages == [] then []
    else PdfChunks(p, pages[..|pages| - 1], source) + PageChunks(p, pages[|pages| - 1], |pages| - 1, source)
  }

  /** One more page appends that page's chunks. */
  lemma PdfChunksSnoc(p: PdfProcessor, pages: seq<string>, i: nat, source: string)
    requires i < |pages| && AllTerminate(p, pages)
    ensures AllTerminate(p, pages[..i]) && AllTerminate(p, pages[..i + 1])
    ensures PdfChunks(p, pages[..i + 1], source) == PdfChunks(p, pages[..i], source) + PageChunks(p, pages[i], i, source)
  {
    assert pages[..i + 1][..i] == pages[..i];
  }

  /** PDFProcessor.process: chunk every page; any failure yields no chunks at all. */
  method ProcessPdf(p: PdfProcessor, path: string, file: Extraction<string>) returns (chunks: seq<Chunk>)
    requires file.Extracted? ==> AllTerminate(p, file.units)
    ensures chunks == if file.Unreadable? then [] else PdfChunks(p, file.units, Paths.Basename(path))
  {
    chunks := [];
    if file.Extracted? {
      var pages := file.units;
      var source := Paths.Basename(path);
      var i := 0;
      while i < |pages|
        invariant 0 <= i <= |pages|
        invariant AllTerminate(p, pages[..i])
        invariant chunks == PdfChunks(p, pages[..i], source)
      {
        var pageChunks := ChunkPage(p, pages[i], i, source);
        PdfChunksSnoc(p, pages, i, source);
        chunks := chunks + pageChunks;
        i := i + 1;
      }
      PrefixAll(pages);
    }
  }

  // ---------------------------------------------------------------------------
  // PPTX: one chunk per slide that has text
  // ---------------------------------------------------------------------------

  /** A shape that contributes a line: it has a text attribute that is not blank. */
  predicate HasText(shape: Option<string>) {
    shape.Some? && !IsBlank(shape.value)
  }

  /** Non-empty, with no whitespace at either end. */
  predicate Trimmed(s: string) {
    s != [] && !IsSpace(s[0]) && !IsSpace(s[|s| - 1])
  }

  /** The stripped, non-empty shape texts of a slide, in shape order. */
  function SlideLines(shapes: Slide): (r: seq<string>)
    ensures |r| <= |shapes|
  {
    if shapes == [] then []
    else
      var rest := SlideLines(shapes[..|shapes| - 1]);
      var last := shapes[|shapes| - 1];
      if last.Some? && Strip(last.value) != "" then rest + [Strip(last.value)] else rest
  }

  /** Every line of a slide is non-empty, with no whitespace at either end. */
  lemma {:induction false} SlideLinesTrimmed(shapes: Slide)
    ensures forall k :: 0 <= k < |SlideLines(shapes)| ==> Trimmed(SlideLines(shapes)[k])
  {
    if shapes != [] {
      var init, last := shapes[..|shapes| - 1], shapes[|shapes| - 1];
      SlideLinesTrimmed(init);
      if last.Some? && Strip(last.value) != "" {
        AllTrimmedSnoc(SlideLines(init), Strip(last.value));
      }
    }
  }

  /** Appending a trimmed line to trimmed lines keeps them all trimmed. */
  lemma AllTrimmedSnoc(lines: seq<string>, t: string)
    requires forall k :: 0 <= k < |lines| ==> Trimmed(lines[k])
    requires Trimmed(t)
    ensures forall k :: 0 <= k < |lines + [t]| ==> Trimmed((lines + [t])[k])
  {
    forall k | 0 <= k < |lines + [t]| ensures Trimmed((lines + [t])[k]) {
      if k < |lines| {
        assert (lines + [t])[k] == lines[k];
      }
    }
  }

  /** A slide yields no lines exactly when none of its shapes has text. */
  lemma {:induction false} SlideLinesEmpty(shapes: Slide)
    ensures SlideLines(shapes) == [] <==> forall j :: 0 <= j < |shapes| ==> !HasText(shapes[j])
  {
    if shapes != [] {
      var init := shapes[..|shapes| - 1];
      SlideLinesEmpty(init);
      assert forall j :: 0 <= j < |init| ==> init[j] == shapes[j];
    }
  }

  /** Joining trimmed parts gives a trimmed string. */
  lemma {:induction false} JoinTrimmed(sep: string, parts: seq<string>)
    requires |parts| >= 1 && forall k :: 0 <= k < |parts| ==> Trimmed(parts[k])
    ensures Trimmed(Join(sep, parts))
    decreases |parts|
  {
    if |parts| > 1 {
      JoinTrimmed(sep, parts[..|parts| - 1]);
    }
  }

  /** The numbers (from 1) of the slides that yield a chunk, in slide order. */
  function TextSlides(slides: seq<Slide>): (ns: seq<nat>)
    ensures forall k :: 0 <= k < |ns| ==> 1 <= ns[k] <= |slides|
  {
    if slides == [] then []
    else TextSlides(slides[..|slides| - 1]) + (if SlideLines(slides[|slides| - 1]) != [] then [|slides|] else [])
  }

  /** Only slides with text are listed. */
  lemma {:induction false} TextSlidesHaveLines(slides: seq<Slide>)
    ensures forall k :: 0 <= k < |TextSlides(slides)| ==> SlideLines(slides[TextSlides(slides)[k] - 1]) != []
  {
    if slides != [] {
      var init := slides[..|slides| - 1];
      var rest, ns := TextSlides(init), TextSlides(slides);
      TextSlidesHaveLines(init);
      assert ns == rest + (if SlideLines(slides[|slides| - 1]) != [] then [|slides|] else []);
      forall k | 0 <= k < |ns| ensures SlideLines(slides[ns[k] - 1]) != [] {
        if k < |rest| {
          assert ns[k] == rest[k] && init[rest[k] - 1] == slides[rest[k] - 1];
        }
      }
    }
  }

  /** Every slide with text is listed. */
  lemma {:induction false} TextSlidesComplete(slides: seq<Slide>, n: nat)
    requires 1 <= n <= |slides| && SlideLines(slides[n - 1]) != []
    ensures n in TextSlides(slides)
  {
    var init := slides[..|slides| - 1];
    if n < |slides| {
      assert init[n - 1] == slides[n - 1];
      TextSlidesComplete(init, n);
    }
  }

  /** The listed slide numbers strictly increase, so slide order is kept. */
  lemma {:induction false} TextSlidesIncreasing(slides: seq<Slide>)
    ensures forall k, l :: 0 <= k < l < |TextSlides(slides)| ==> TextSlides(slides)[k] < TextSlides(slides)[l]
  {
    if slides != [] {
      var init := slides[..|slides| - 1];
      TextSlidesIncreasing(init);
    }
  }

  /** The chunk of slide number `number` (counted from 1). */
  function SlideChunk(slides: seq<Slide>, number: nat, source: string): Chunk
    requires 1 <= number <= |slides|
  {
    Chunk(Join("\n", SlideLines(slides[number - 1])), Meta(Some(source), Some(number), None))
  }

  /** Dropping the last slide leaves the chunks of the other slides as they were. */
  lemma SlideChunkOfInit(slides: seq<Slide>, source: string)
    requires slides != []
    ensures forall n :: 1 <= n < |slides| ==> SlideChunk(slides[..|slides| - 1], n, source) == SlideChunk(slides, n, source)
  {
    var init := slides[..|slides| - 1];
    forall n | 1 <= n < |slides| ensures SlideChunk(init, n, source) == SlideChunk(slides, n, source) {
      assert init[n - 1] == slides[n - 1];
    }
  }

  /** The chunks of a presentation: one per slide with text, numbered by slide, in slide order. */
  function SlidesChunks(slides: seq<Slide>, source: string): (r: seq<Chunk>)
    ensures |r| == |TextSlides(slides)|
    ensures forall k :: 0 <= k < |r| ==> r[k] == SlideChunk(slides, TextSlides(slides)[k], source)
  {
    if slides == [] then []
    else
      var init := slides[..|slides| - 1];
      var rest := SlidesChunks(init, source);
      SlideChunkOfInit(slides, source);
      if SlideLines(slides[|slides| - 1]) == [] then rest
      else rest + [SlideChunk(slides, |slides|, source)]
  }

  /** Every slide chunk's text is non-empty and has no whitespace at either end. */
  lemma SlideChunksTrimmed(slides: seq<Slide>, source: string)
    ensures forall k :: 0 <= k < |SlidesChunks(slides, source)| ==> Trimmed(SlidesChunks(slides, source)[k].content)
  {
    var r := SlidesChunks(slides, source);
    TextSlidesHaveLines(slides);
    forall k | 0 <= k < |r| ensures Trimmed(r[k].content) {
      SlideLinesTrimmed(slides[TextSlides(slides)[k] - 1]);
      JoinTrimmed("\n", SlideLines(slides[TextSlides(slides)[k] - 1]));
    }
  }

  /** The chunks one slide adds: none without lines, else its lines joined by newlines. */
  function SlideChunkOf(lines: seq<string>, number: nat, source: string): (r: seq<Chunk>)
    ensures |r| <= 1
  {
    if lines == [] then [] else [Chunk(Join("\n", lines), Meta(Some(source), Some(number), None))]
  }

  /** The body of PPTXProcessor.process's slide loop after the shapes are read. */
  method AddSlideChunk(chunks: seq<Chunk>, lines: seq<string>, number: nat, source: string) returns (r: seq<Chunk>)
    ensures r == chunks + SlideChunkOf(lines, number, source)
  {
    r := chunks;
    if lines != [] {
      r := r + [Chunk(Join("\n", lines), Meta(Some(source), Some(number), None))];
    }
  }

  /** One more slide appends its chunk when it has text. */
  lemma SlidesChunksSnoc(slides: seq<Slide>, i: nat, source: string)
    requires i < |slides|
    ensures SlidesChunks(slides[..i + 1], source) ==
      SlidesChunks(slides[..i], source) +
      SlideChunkOf(SlideLines(slides[i]), i + 1, source)
  {
    assert slides[..i + 1][..i] == slides[..i];
  }

  /** One more shape appends its stripped text when it has any. */
  lemma SlideLinesSnoc(shapes: Slide, j: nat)
    requires j < |shapes|
    ensures SlideLines(shapes[..j + 1]) ==
      SlideLines(shapes[..j]) + (if shapes[j].Some? && Strip(shapes[j].value) != "" then [Strip(shapes[j].value)] else [])
  {
    assert shapes[..j + 1][..j] == shapes[..j];
  }

  /** One shape of the inner loop: its stripped text is kept when the shape has a non-blank one. */
  method AddShapeText(lines: seq<string>, shape: Option<string>) returns (r: seq<string>)
    ensures r == lines + (if shape.Some? && Strip(shape.value) != "" then [Strip(shape.value)] else [])
  {
    r := lines;
    if shape.Some? {
      var text := Strip(shape.value);
      if text != "" {
        r := r + [text];
      }
    }
  }

  /** The inner loop of PPTXProcessor.process: the stripped, non-empty texts of a slide's shapes. */
  method CollectLines(shapes: Slide) returns (lines: seq<string>)
    ensures lines == SlideLines(shapes)
  {
    lines := [];
    var j := 0;
    while j < |shapes|
      invariant 0 <= j <= |shapes|
      invariant lines == SlideLines(shapes[..j])
    {
      SlideLinesSnoc(shapes, j);
      lines := AddShapeText(lines, shapes[j]);
      j := j + 1;
    }
    PrefixAll(shapes);
  }

  /** PPTXProcessor.process: the nested loops over slides and shapes. */
  method ProcessPptx(path: string, file: Extraction<Slide>) returns (chunks: seq<Chunk>)
    ensures chunks == if file.Unreadable? then [] else SlidesChunks(file.units, Paths.Basename(path))
  {
    chunks := [];
    if file.Extracted? {
      var slides := file.units;
      var source := Paths.Basename(path);
      var i := 0;
      while i < |slides|
        invariant 0 <= i <= |slides|
        invariant chunks == SlidesChunks(slides[..i], source)
      {
        var slideText := CollectLines(slides[i]);
        SlidesChunksSnoc(slides, i, source);
        chunks := AddSlideChunk(chunks, slideText, i + 1, source);
        i := i + 1;
      }
      PrefixAll(slides);
    }
  }

  // ---------------------------------------------------------------------------
  // Factory
  // ---------------------------------------------------------------------------

  datatype ProcessorKind = PdfKind | PptxKind

  /** The factory's table from lower-cased extension to processor. */
  function KindOf(ext: string): Option<ProcessorKind> {
    if ext == ".pdf" then Some(PdfKind)
    else if ext == ".pptx" then Some(PptxKind)
    else None
  }

  /** DocumentProcessorFactory.get_processor: by extension, case-insensitively. */
  function GetProcessor(path: string): (r: Option<ProcessorKind>)
  {
    KindOf(Lower(Paths.Suffix(path)))
  }

  /**
   * The factory looks only at what follows the last dot of the file name, lower-cased:
   * "dir/stem.ext" gets the processor of ".ext" whatever dots the stem holds.
   */
  lemma {:induction false} GetProcessorByExtension(dir: string, stem: string, ext: string)
    requires stem != "" && ext != ""
    requires Paths.Free(stem, '/') && Paths.Free(ext, '/') && Paths.Free(ext, '.')
    ensures GetProcessor(dir + "/" + stem + "." + ext) == KindOf(Lower("." + ext))
  {
    Paths.SuffixOfPath(dir, stem, ext);
  }

  /** The factory ignores the case of the extension: extensions equal up to case get the same processor. */
  lemma FactoryIgnoresCase(dir: string, stem: string, e1: string, e2: string)
    requires stem != "" && e1 != "" && Paths.Free(stem, '/')
    requires Paths.Free(e1, '/') && Paths.Free(e1, '.') && Paths.Free(e2, '/') && Paths.Free(e2, '.')
    requires Lower(e1) == Lower(e2)
    ensures GetProcessor(dir + "/" + stem + "." + e1) == GetProcessor(dir + "/" + stem + "." + e2)
  {
    GetProcessorByExtension(dir, stem, e1);
    GetProcessorByExtension(dir, stem, e2);
    LowerSamePrefix(".", e1, e2);
  }

  /** A file named ".pdf" has no extension, so it is not processed. */
  lemma FactorySkipsDotFile(dir: string)
    ensures GetProcessor(dir + "/.pdf") == None
  {
    Paths.DotFileHasNoSuffix(dir, "pdf");
    assert dir + "/.pdf" == dir + "/." + "pdf";
    assert Lower("") == "";
  }

  /** What the processor the factory picks yields for a file; an unsupported file yields nothing. */
  function FileChunks(f: DataFile): seq<Chunk> {
    match GetProcessor(f.path)
    case None => []
    case Some(PdfKind) =>
      if f.asPdf.Unreadable? then []
      else
        DefaultPdfTerminates(f.asPdf.units);
        PdfChunks(DefaultPdf, f.asPdf.units, Paths.Basename(f.path))
    case Some(PptxKind) =>
      if f.asPptx.Unreadable? then [] else SlidesChunks(f.asPptx.units, Paths.Basename(f.path))
  }

  /** With the factory's 1000/200 the chunking loop always ends. */
  lemma DefaultPdfTerminates(pages: seq<string>)
    ensures AllTerminate(DefaultPdf, pages)
  {
  }

  /** Run the processor the factory picked. */
  method Process(kind: ProcessorKind, f: DataFile) returns (chunks: seq<Chunk>)
    requires GetProcessor(f.path) == Some(kind)
    ensures chunks == FileChunks(f)
  {
    match kind
    case PdfKind =>
      DefaultPdfTerminates(if f.asPdf.Extracted? then f.asPdf.units else []);
      chunks := ProcessPdf(DefaultPdf, f.path, f.asPdf);
    case PptxKind =>
      chunks := ProcessPptx(f.path, f.asPptx);
  }
}
