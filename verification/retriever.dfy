/**
 * The hybrid retriever (src/retriever/haystack_retriever.py): BM25 retrieval with its
 * error-to-empty rule, the conversion of Haystack documents to dictionaries, and the
 * merge of dense and sparse results with content de-duplication and truncation.
 * The BM25 scorer and the vector store are not modelled: their answers are inputs.
 */
module HaystackRetriever {
  import opened Wrappers
  import opened Documents
  import opened Text

  /** A Haystack Document as the BM25 retriever returns it. */
  datatype StoredDoc = StoredDoc(content: string, meta: Meta, id: string, score: Option<real>)

  /** What the BM25 retriever does for a query: rank stored documents, or raise. */
  datatype Bm25Answer = Ranked(docs: seq<StoredDoc>) | Bm25Raised

  /** What the vector store does for a query: return result dictionaries, or raise. */
  datatype DenseAnswer = Answered(docs: seq<Doc>) | DenseRaised

  /** HaystackRetriever.retrieve: a BM25 error yields no documents. */
  function Retrieve(answer: Bm25Answer): (r: seq<StoredDoc>)
    ensures answer.Bm25Raised? ==> r == []
    ensures answer.Ranked? ==> r == answer.docs
  {
    match answer
    case Ranked(docs) => docs
    case Bm25Raised => []
  }

  /** One Haystack document as a result dictionary (no distance, no tag). */
  function ToDict(d: StoredDoc): Doc {
    Doc(d.content, d.meta, Some(d.id), d.score, None, None)
  }

  /** _convert_to_dicts: one dictionary per document, in order. */
  function ConvertToDicts(docs: seq<StoredDoc>): (r: seq<Doc>)
    ensures |r| == |docs|
    ensures forall k :: 0 <= k < |docs| ==> r[k] == ToDict(docs[k])
  {
    seq(|docs|, k requires 0 <= k < |docs| => ToDict(docs[k]))
  }

  /** Reads a converted dictionary back as the document it came from. */
  function FromDict(d: Doc): StoredDoc
    requires d.id.Some?
  {
    StoredDoc(d.content, d.meta, d.id.value, d.score)
  }

  /** Conversion loses nothing: reading the dictionaries back gives the documents, in order. */
  lemma ConvertToDictsRoundTrip(docs: seq<StoredDoc>)
    ensures var r := ConvertToDicts(docs);
      |r| == |docs| && forall k :: 0 <= k < |r| ==> r[k].id.Some? && FromDict(r[k]) == docs[k]
  {
  }

  /** The dictionaries with 'retrieval_method' set to m. */
  function Tag(ds: seq<Doc>, m: RetrievalMethod): (r: seq<Doc>)
    ensures |r| == |ds|
    ensures forall k :: 0 <= k < |ds| ==> r[k] == ds[k].(retrievalMethod := Some(m))
  {
    seq(|ds|, k requires 0 <= k < |ds| => ds[k].(retrievalMethod := Some(m)))
  }

  /** The set of contents of a list of results (the seen-set after walking it). */
  function ContentsOf(ds: seq<Doc>): set<string>
  {
    if ds == [] then {} else ContentsOf(ds[..|ds| - 1]) + {ds[|ds| - 1].content}
  }

  /** A content is in the set exactly when some result carries it. */
  lemma {:induction false} ContentsOfMember(ds: seq<Doc>, c: string)
    ensures c in ContentsOf(ds) <==> exists k :: 0 <= k < |ds| && ds[k].content == c
  {
    if ds != [] {
      var init := ds[..|ds| - 1];
      ContentsOfMember(init, c);
      if c in ContentsOf(init) {
        var k :| 0 <= k < |init| && init[k].content == c;
        assert ds[k].content == c;
      }
      if exists k :: 0 <= k < |ds| && ds[k].content == c {
        var k :| 0 <= k < |ds| && ds[k].content == c;
        if k < |init| {
          assert init[k].content == c;
        }
      }
    }
  }

  /** No two results share content. */
  predicate Distinct(ds: seq<Doc>) {
    forall k, l :: 0 <= k < l < |ds| ==> ds[k].content != ds[l].content
  }

  /**
   * The content-de-duplicated list: each result is kept unless an earlier one had the
   * same content (the first occurrence wins).
   */
  function Dedup(ds: seq<Doc>): (r: seq<Doc>)
    ensures |r| <= |ds|
  {
    if ds == [] then []
    else
      var init := ds[..|ds| - 1];
      var last := ds[|ds| - 1];
      if last.content in ContentsOf(init) then Dedup(init) else Dedup(init) + [last]
  }

  /** De-duplication drops no content. */
  lemma {:induction false} DedupContents(ds: seq<Doc>)
    ensures ContentsOf(Dedup(ds)) == ContentsOf(ds)
  {
    if ds != [] {
      var init := ds[..|ds| - 1];
      var last := ds[|ds| - 1];
      DedupContents(init);
      if last.content !in ContentsOf(init) {
        var rest := Dedup(init);
        assert (rest + [last])[..|rest|] == rest;
      }
    }
  }

  /** No two de-duplicated results share content. */
  lemma {:induction false} DedupDistinct(ds: seq<Doc>)
    ensures Distinct(Dedup(ds))
  {
    if ds != [] {
      var init := ds[..|ds| - 1];
      var last := ds[|ds| - 1];
      var rest := Dedup(init);
      DedupDistinct(init);
      if last.content !in ContentsOf(init) {
        DedupContents(init);
        forall k | 0 <= k < |rest| ensures rest[k].content != last.content {
          ContentsOfMember(rest, rest[k].content);
        }
      }
    }
  }

  /** No earlier result has the content of result i. */
  predicate FirstOccurrence(ds: seq<Doc>, i: nat)
    requires i < |ds|
  {
    forall j :: 0 <= j < i ==> ds[j].content != ds[i].content
  }

  /**
   * Where each kept result comes from: increasing positions in the input, so
   * de-duplication keeps the input order.
   */
  ghost function Origins(ds: seq<Doc>): (idx: seq<nat>)
    ensures |idx| == |Dedup(ds)|
    ensures forall k :: 0 <= k < |idx| ==> idx[k] < |ds| && Dedup(ds)[k] == ds[idx[k]]
    ensures forall k, l :: 0 <= k < l < |idx| ==> idx[k] < idx[l]
  {
    if ds == [] then []
    else
      var init := ds[..|ds| - 1];
      var last := ds[|ds| - 1];
      if last.content in ContentsOf(init) then Origins(init) else Origins(init) + [|ds| - 1]
  }

  /** Each kept result is the first occurrence of its content, duplicates inside one list included. */
  lemma {:induction false} OriginsFirst(ds: seq<Doc>)
    ensures forall k :: 0 <= k < |Origins(ds)| ==> FirstOccurrence(ds, Origins(ds)[k])
  {
    if ds != [] {
      var init := ds[..|ds| - 1];
      var last := ds[|ds| - 1];
      var o := Origins(init);
      OriginsFirst(init);
      forall k | 0 <= k < |o| ensures FirstOccurrence(ds, o[k]) {
        assert FirstOccurrence(init, o[k]);
      }
      if last.content !in ContentsOf(init) {
        forall j | 0 <= j < |ds| - 1 ensures ds[j].content != last.content {
          ContentsOfMember(init, last.content);
          assert init[j] == ds[j];
        }
      }
    }
  }

  /** Python's xs[:n] for n >= 0. */
  function Take(ds: seq<Doc>, n: nat): (r: seq<Doc>)
    ensures |r| == (if n <= |ds| then n else |ds|) && r == ds[..|r|]
    ensures |ds| <= n ==> r == ds
  {
    if n <= |ds| then ds[..n] else ds
  }

  /** The merge: dense results tagged 'vector', then BM25 results tagged 'bm25', de-duplicated. */
  function Merged(dense: seq<Doc>, sparse: seq<Doc>): seq<Doc> {
    Dedup(Tag(dense, Vector) + Tag(sparse, Bm25))
  }

  /** hybrid_retrieve: the merge when a vector store answers, else the BM25 results alone. */
  function Hybrid(store: Option<DenseAnswer>, bm25: Bm25Answer, topK: nat): seq<Doc> {
    var sparse := ConvertToDicts(Retrieve(bm25));
    match store
    case None => sparse
    case Some(DenseRaised) => sparse
    case Some(Answered(dense)) => Take(Merged(dense, sparse), topK)
  }

  /** One more result extends the de-duplicated list the way the merge loop does. */
  lemma DedupSnoc(ds: seq<Doc>, d: Doc)
    ensures Dedup(ds + [d]) == if d.content in ContentsOf(ds) then Dedup(ds) else Dedup(ds) + [d]
    ensures ContentsOf(ds + [d]) == ContentsOf(ds) + {d.content}
  {
    assert (ds + [d])[..|ds|] == ds;
  }

  /**
   * One loop of hybrid_retrieve: walk `docs`, and add each one whose content is not yet
   * seen, tagged with `m`. Given the list and the seen-set built from `before`, the
   * result is the list and seen-set built from `before` followed by the tagged docs.
   */
  method AddUnseen(ghost before: seq<Doc>, hybrid: seq<Doc>, seen: set<string>, docs: seq<Doc>, m: RetrievalMethod)
    returns (hybrid': seq<Doc>, seen': set<string>)
    requires hybrid == Dedup(before) && seen == ContentsOf(before)
    ensures hybrid' == Dedup(before + Tag(docs, m)) && seen' == ContentsOf(before + Tag(docs, m))
  {
    ghost var all := before + Tag(docs, m);
    ghost var done := before;
    hybrid', seen' := hybrid, seen;
    var i := 0;
    while i < |docs|
      invariant 0 <= i <= |docs|
      invariant done == all[..|before| + i]
      invariant hybrid' == Dedup(done) && seen' == ContentsOf(done)
    {
      var doc := docs[i].(retrievalMethod := Some(m));
      PrefixSnoc(all, |before| + i);
      assert all[|before| + i] == doc;
      DedupSnoc(done, doc);
      if docs[i].content !in seen' {
        seen' := seen' + {docs[i].content};
        hybrid' := hybrid' + [doc];
      }
      done := done + [doc];
      i := i + 1;
    }
    assert all[..|before| + i] == all;
  }

  /** HaystackRetriever.hybrid_retrieve: dense results first, then BM25 results, then truncation. */
  method HybridRetrieve(store: Option<DenseAnswer>, bm25: Bm25Answer, topK: nat) returns (results: seq<Doc>)
    ensures results == Hybrid(store, bm25, topK)
  {
    if store.None? {
      results := ConvertToDicts(Retrieve(bm25));
      return;
    }
    var sparse := ConvertToDicts(Retrieve(bm25));
    if store.value.DenseRaised? {
      results := ConvertToDicts(Retrieve(bm25));
      return;
    }
    var dense := store.value.docs;
    var hybrid, seen := AddUnseen([], [], {}, dense, Vector);
    assert [] + Tag(dense, Vector) == Tag(dense, Vector);
    hybrid, seen := AddUnseen(Tag(dense, Vector), hybrid, seen, sparse, Bm25);
    assert hybrid == Merged(dense, sparse);
    results := Take(hybrid, topK);
  }

  /** The merged result is the first min(top_k, len) entries of the merge, with no repeated content. */
  lemma HybridBoundedDistinct(dense: seq<Doc>, sparse: seq<Doc>, topK: nat)
    ensures var m := Merged(dense, sparse);
      var r := Take(m, topK);
      |r| == (if topK <= |m| then topK else |m|) && Distinct(r) && r == m[..|r|]
  {
    DedupDistinct(Tag(dense, Vector) + Tag(sparse, Bm25));
  }

  /**
   * Provenance: every merged entry is a dense result tagged 'vector', or a BM25 result
   * tagged 'bm25' whose content no dense result has (shared content stays the dense entry).
   */
  lemma {:induction false} MergedProvenance(dense: seq<Doc>, sparse: seq<Doc>, k: nat)
    requires k < |Merged(dense, sparse)|
    ensures var d := Merged(dense, sparse)[k];
      (d.retrievalMethod == Some(Vector) && exists i :: 0 <= i < |dense| && d == dense[i].(retrievalMethod := Some(Vector))) ||
      (d.retrievalMethod == Some(Bm25) && d.content !in ContentsOf(dense) &&
       exists j :: 0 <= j < |sparse| && d == sparse[j].(retrievalMethod := Some(Bm25)))
  {
    var all := Tag(dense, Vector) + Tag(sparse, Bm25);
    var idx := Origins(all);
    OriginsFirst(all);
    var i := idx[k];
    var d := all[i];
    assert Merged(dense, sparse)[k] == d;
    if i < |dense| {
      assert d == dense[i].(retrievalMethod := Some(Vector));
    } else {
      var j := i - |dense|;
      assert d == sparse[j].(retrievalMethod := Some(Bm25));
      assert FirstOccurrence(all, i);
      assert d.content !in ContentsOf(dense) by {
        ContentsOfMember(dense, d.content);
        forall j' | 0 <= j' < |dense| ensures dense[j'].content != d.content {
          assert all[j'].content == dense[j'].content;
        }
      }
    }
  }

  /** Dense-derived entries precede all BM25-derived entries, before and after truncation. */
  lemma HybridDenseFirst(dense: seq<Doc>, sparse: seq<Doc>, topK: nat)
    ensures var r := Take(Merged(dense, sparse), topK);
      forall k, l :: 0 <= k < l < |r| && r[l].retrievalMethod == Some(Vector) ==> r[k].retrievalMethod == Some(Vector)
  {
    var all := Tag(dense, Vector) + Tag(sparse, Bm25);
    var m := Merged(dense, sparse);
    var idx := Origins(all);
    var r := Take(m, topK);
    forall k, l | 0 <= k < l < |r| && r[l].retrievalMethod == Some(Vector) ensures r[k].retrievalMethod == Some(Vector) {
      assert r[l] == m[l] == all[idx[l]];
      assert idx[l] < |dense|;
      assert idx[k] < idx[l];
      assert r[k] == all[idx[k]];
    }
  }
}
