/**
 * Shared data model of the retrieval backend: knowledge entries, embedding
 * records, the outcomes of the remote embedding service, and the persisted
 * embedding index (`data/embeddings.json`), reduced to "absent" or "present
 * with these records".
 */
module Index {
  import opened Wrappers

  /** A dense embedding vector; JavaScript numbers are modelled as reals. */
  type Vector = seq<real>

  /** One knowledge-base entry after ingestion has copied its three fields. */
  datatype KnowledgeEntry = KnowledgeEntry(id: string, text: string, category: string)

  /** One record of the embedding index: an entry plus its vector. */
  datatype EmbeddingData = EmbeddingData(id: string, text: string, category: string, embedding: Vector)

  /** What one call of the remote embedding model gives back: a vector, or a thrown error. */
  datatype EmbedOutcome = Embedded(vector: Vector) | EmbedFailed(message: string)

  /**
   * The index file as the chat route finds it: not there, there but not
   * readable as JSON, or parsed into records.
   */
  datatype IndexFile = Missing | Unparsable(message: string) | Loaded(records: seq<EmbeddingData>)

  /** The durable copy of the embedding index, which only ingestion writes. */
  class IndexStore {
    var saved: Option<seq<EmbeddingData>>

    constructor ()
      ensures saved == None
    {
      saved := None;
    }

    /** What a later chat request reads from the store. */
    function Snapshot(): (f: IndexFile)
      reads this
      ensures f.Missing? <==> saved.None?
      ensures saved.Some? ==> f == Loaded(saved.value)
    {
      match saved
      case None => Missing
      case Some(records) => Loaded(records)
    }
  }
}
