/**
 * The dictionaries that flow through the pipeline, as typed records: a chunk's
 * metadata, and a retrieved document annotated with its provenance.
 */
module Documents {
  import opened Wrappers

  /** The 'metadata' dictionary: each key may be absent. */
  datatype Meta = Meta(source: Option<string>, pageNum: Option<nat>, chunkPart: Option<string>)

  /** A chunk produced by a document processor: {'content', 'metadata'}. */
  datatype Chunk = Chunk(content: string, meta: Meta)

  /** The 'retrieval_method' tag of a hybrid result. */
  datatype RetrievalMethod = Vector | Bm25

  /**
   * A retrieved document dictionary. Dense results carry an id and a distance,
   * converted BM25 results an id and a score; the hybrid merge adds the tag.
   */
  datatype Doc = Doc(
    content: string,
    meta: Meta,
    id: Option<string>,
    score: Option<real>,
    distance: Option<real>,
    retrievalMethod: Option<RetrievalMethod>)
}
