/**
 * The two routes together: what a chat request finds in the store after an
 * ingestion run, whether or not that run succeeded.
 */
module Site {
  import opened Wrappers
  import opened Index
  import opened ChatRoute
  import opened IngestRoute

  /**
   * Run ingestion, then ask `q` against the index the store now holds.
   * `answer` is `None` exactly when the stored vectors cannot all be scored
   * against the question's embedding.
   */
  method IngestThenAsk(store: IndexStore, file: KnowledgeFile, embed: string -> EmbedOutcome,
                       generate: string -> GenOutcome, sqrt: real -> real, q: string)
    returns (ingested: IngestResponse, answer: Option<ChatReply>)
    modifies store
    ensures answer.None? <==> !ScoresDefined(Json(Some(q)), store.Snapshot(), embed, sqrt)
    ensures answer.Some? ==> answer.value == Chat(Json(Some(q)), store.Snapshot(), embed, generate, sqrt)
    ensures ingested.IngestOk? ==> store.Snapshot().Loaded?
    ensures ingested.IngestOk? && q != "" && answer.Some? ==>
      answer.value.response.Status() != 400 && answer.value.calls != [] && answer.value.calls[0] == EmbedCall(q)
    ensures ingested.IngestFailed? ==> store.Snapshot() == old(store.Snapshot())
    ensures ingested.IngestFailed? && old(store.saved).None? && q != "" ==>
      answer == Some(ChatReply(ChatErr(400, IndexMissing), []))
  {
    var calls;
    ingested, calls := Ingest(store, file, embed);
    var index := store.Snapshot();
    if ScoresDefined(Json(Some(q)), index, embed, sqrt) {
      answer := Some(Chat(Json(Some(q)), index, embed, generate, sqrt));
    } else {
      answer := None;
    }
  }
}
