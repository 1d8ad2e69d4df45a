/**
 * The chat route (`POST /api/chat`): validate the request, load the index,
 * embed the query, take the two most similar records, join their texts into
 * a context block, wrap context and question in a fixed prompt, generate the
 * answer and return it with its provenance.
 *
 * The remote models are oracles passed in as functions; every call the route
 * makes to them is recorded, in order, in the reply's `calls`.
 */
module ChatRoute {
  import opened Wrappers
  import opened Index
  import opened VectorMath
  import opened Ranking

  /** What the body's `request.json()` gives: a parse failure, or the `query` field if there is one. */
  datatype RequestBody = BadJson(message: string) | Json(query: Option<string>)

  /** What one call of the remote text model gives back. */
  datatype GenOutcome = Generated(text: string) | GenFailed(message: string)

  datatype OracleCall = EmbedCall(text: string) | GenerateCall(prompt: string)

  datatype IdScore = IdScore(id: string, similarity: real)

  /** The JSON reply; a success carries HTTP status 200 (the default). */
  datatype ChatResponse =
    | ChatOk(response: string, context: seq<string>, similarities: seq<IdScore>)
    | ChatErr(status: int, error: string)
  {
    function Status(): int
    {
      if ChatOk? then 200 else status
    }
  }

  datatype ChatReply = ChatReply(response: ChatResponse, calls: seq<OracleCall>)

  const QueryRequired := "Query is required"
  const IndexMissing := "Embeddings not found. Please run /api/ingest first."
  const Separator := "\n\n"
  const TopK := 2

  const Persona := "You are Sailappan's AI bro. Answer casually but informatively based on the following context about Sailappan. Keep responses conversational and engaging, but always accurate to the information provided.\n\nContext about Sailappan:\n"
  const Guidance := "\n\nRemember to:\n- Be friendly and casual in tone\n- Provide specific details about Sailappan's skills, projects, and experience\n- If asked about something not in the context, politely redirect to what you do know\n- Keep responses concise but informative\n- Use emojis occasionally to keep the tone light\n\nUser question: "
  const Closing := "\n\nPlease provide a helpful and engaging response:"

  /** `!query`: the field is missing (or null) or the empty string. */
  predicate QueryRejected(query: Option<string>)
  {
    query.None? || query.value == ""
  }

  /** JavaScript's `Array.prototype.join(sep)`. */
  function Join(parts: seq<string>, sep: string): string
  {
    if |parts| == 0 then ""
    else if |parts| == 1 then parts[0]
    else parts[0] + sep + Join(parts[1..], sep)
  }

  /** `similarDocs.map(doc => doc.text)` */
  function Texts(docs: seq<SimilarityResult>): (r: seq<string>)
    ensures |r| == |docs| && forall i :: 0 <= i < |docs| ==> r[i] == docs[i].doc.text
  {
    seq(|docs|, i requires 0 <= i < |docs| => docs[i].doc.text)
  }

  /** `similarDocs.map(doc => ({ id: doc.id, similarity: doc.similarity }))` */
  function IdScores(docs: seq<SimilarityResult>): (r: seq<IdScore>)
    ensures |r| == |docs| && forall i :: 0 <= i < |docs| ==> r[i] == IdScore(docs[i].doc.id, docs[i].similarity)
  {
    seq(|docs|, i requires 0 <= i < |docs| => IdScore(docs[i].doc.id, docs[i].similarity))
  }

  /** The template literal of the system prompt. */
  function Prompt(context: string, query: string): string
  {
    Persona + context + Guidance + query + Closing
  }

  /**
   * The source performs no dimension or zero-vector check; where the query
   * would be scored, every stored vector must be comparable with it.
   */
  predicate ScoresDefined(body: RequestBody, file: IndexFile, embed: string -> EmbedOutcome, sqrt: real -> real)
  {
    body.Json? && !QueryRejected(body.query) && file.Loaded? && embed(body.query.value).Embedded? ==>
      AllComparable(embed(body.query.value).vector, file.records, sqrt)
  }

  function Chat(body: RequestBody, file: IndexFile, embed: string -> EmbedOutcome,
                generate: string -> GenOutcome, sqrt: real -> real): (r: ChatReply)
    requires ScoresDefined(body, file, embed, sqrt)
    ensures r.response.Status() == 400 <==> body.Json? && (QueryRejected(body.query) || file.Missing?)
    ensures r.response.ChatErr? ==> r.response.status == 400 || r.response.status == 500
    ensures r.response.Status() == 400 ==> r.calls == []
    ensures |r.calls| <= 2
    ensures r.calls != [] ==> body.Json? && r.calls[0] == EmbedCall(body.query.value)
    ensures r.response.ChatOk? <==> |r.calls| == 2 && r.calls[1].GenerateCall? && generate(r.calls[1].prompt).Generated?
  {
    match body
    case BadJson(m) => ChatReply(ChatErr(500, m), [])
    case Json(query) =>
      if QueryRejected(query) then ChatReply(ChatErr(400, QueryRequired), [])
      else
        match file
        case Missing => ChatReply(ChatErr(400, IndexMissing), [])
        case Unparsable(m) => ChatReply(ChatErr(500, m), [])
        case Loaded(records) =>
          var q := query.value;
          match embed(q)
          case EmbedFailed(m) => ChatReply(ChatErr(500, m), [EmbedCall(q)])
          case Embedded(v) =>
            var docs := FindSimilarDocuments(v, records, TopK, sqrt);
            var prompt := Prompt(Join(Texts(docs), Separator), q);
            match generate(prompt)
            case GenFailed(m) => ChatReply(ChatErr(500, m), [EmbedCall(q), GenerateCall(prompt)])
            case Generated(answer) =>
              ChatReply(ChatOk(answer, Texts(docs), IdScores(docs)), [EmbedCall(q), GenerateCall(prompt)])
  }

  // ---------------------------------------------------------------------
  // Joining the context block

  lemma {:induction false} JoinSplit(parts: seq<string>, sep: string, i: nat)
    requires 0 < i < |parts|
    ensures Join(parts, sep) == Join(parts[..i], sep) + sep + Join(parts[i..], sep)
    decreases i
  {
    if i > 1 {
      JoinSplit(parts[1..], sep, i - 1);
      assert parts[1..][..i - 1] == parts[..i][1..];
      assert parts[1..][i - 1..] == parts[i..];
    }
  }

  /**
   * Part `i` sits in the joined string right after the join of the parts
   * before it and one separator, and right before one separator and the join
   * of the parts after it.
   */
  lemma JoinAt(parts: seq<string>, sep: string, i: nat)
    requires i < |parts|
    ensures Join(parts, sep) ==
      (if i == 0 then "" else Join(parts[..i], sep) + sep) + parts[i] +
      (if i == |parts| - 1 then "" else sep + Join(parts[i + 1..], sep))
  {
    var before := if i == 0 then "" else Join(parts[..i], sep) + sep;
    var after := if i == |parts| - 1 then "" else sep + Join(parts[i + 1..], sep);
    var rest := parts[i..];
    assert Join(rest, sep) == parts[i] + after by {
      if |rest| > 1 {
        assert rest[1..] == parts[i + 1..];
      }
    }
    if i > 0 {
      JoinSplit(parts, sep, i);
    }
  }

  /** With at most two retrieved records the context block is one of three shapes. */
  lemma ContextShapes(texts: seq<string>)
    requires |texts| <= 2
    ensures |texts| == 0 ==> Join(texts, Separator) == ""
    ensures |texts| == 1 ==> Join(texts, Separator) == texts[0]
    ensures |texts| == 2 ==> Join(texts, Separator) == texts[0] + "\n\n" + texts[1]
  {
    if |texts| == 2 {
      assert texts[1..] == [texts[1]];
    }
  }

  // ---------------------------------------------------------------------
  // The prompt: persona, context, guidance, question, closing -- in that order

  /** Where each of five concatenated strings sits in the concatenation. */
  lemma ConcatLayout(a: string, b: string, c: string, d: string, e: string)
    ensures var p := a + b + c + d + e;
      var b0 := |a|;
      var d0 := b0 + |b| + |c|;
      && |p| == d0 + |d| + |e|
      && p[..b0] == a
      && p[b0..b0 + |b|] == b
      && p[b0 + |b|..d0] == c
      && p[d0..d0 + |d|] == d
      && p[d0 + |d|..] == e
  {
    var p := a + b + c + d + e;
    assert p == (((a + b) + c) + d) + e;
  }

  lemma PromptLayout(context: string, query: string)
    ensures var p := Prompt(context, query);
      var c0 := |Persona|;
      var q0 := c0 + |context| + |Guidance|;
      && |p| == q0 + |query| + |Closing|
      && p[..c0] == Persona
      && p[c0..c0 + |context|] == context
      && p[c0 + |context|..q0] == Guidance
      && p[q0..q0 + |query|] == query
      && p[q0 + |query|..] == Closing
      && c0 + |context| < q0
  {
    ConcatLayout(Persona, context, Guidance, query, Closing);
    assert |Guidance| > 0;
  }

  /** The prompt determines the context block and the question once the block's length is known. */
  lemma PromptInjective(c1: string, q1: string, c2: string, q2: string)
    requires Prompt(c1, q1) == Prompt(c2, q2)
    requires |c1| == |c2|
    ensures c1 == c2 && q1 == q2
  {
    PromptLayout(c1, q1);
    PromptLayout(c2, q2);
  }

  // ---------------------------------------------------------------------
  // The route's validation order and result shape

  /** A missing or empty query is refused first, even when the index is missing too, and nothing is called. */
  lemma ChatRejectsMissingQuery(query: Option<string>, file: IndexFile, embed: string -> EmbedOutcome,
                                generate: string -> GenOutcome, sqrt: real -> real)
    requires QueryRejected(query)
    ensures ScoresDefined(Json(query), file, embed, sqrt)
    ensures Chat(Json(query), file, embed, generate, sqrt) == ChatReply(ChatErr(400, QueryRequired), [])
  {
  }

  /** A valid query against a missing index is refused in the caller's terms, and nothing is called. */
  lemma ChatRequiresIndex(q: string, embed: string -> EmbedOutcome, generate: string -> GenOutcome, sqrt: real -> real)
    requires q != ""
    ensures ScoresDefined(Json(Some(q)), Missing, embed, sqrt)
    ensures Chat(Json(Some(q)), Missing, embed, generate, sqrt) == ChatReply(ChatErr(400, IndexMissing), [])
  {
  }

  /** `!query` accepts a whitespace-only query: it is embedded like any other. */
  lemma ChatAcceptsBlankQuery(records: seq<EmbeddingData>, embed: string -> EmbedOutcome,
                              generate: string -> GenOutcome, sqrt: real -> real)
    requires ScoresDefined(Json(Some(" ")), Loaded(records), embed, sqrt)
    ensures var r := Chat(Json(Some(" ")), Loaded(records), embed, generate, sqrt);
      r.response.Status() != 400 && r.calls != [] && r.calls[0] == EmbedCall(" ")
  {
  }

  /**
   * A failure after validation (unreadable index, embedding error, generation
   * error) gives status 500, the error's message and no answer.
   */
  lemma ChatServerFaults(q: string, file: IndexFile, embed: string -> EmbedOutcome,
                         generate: string -> GenOutcome, sqrt: real -> real)
    requires q != "" && !file.Missing?
    requires ScoresDefined(Json(Some(q)), file, embed, sqrt)
    ensures var r := Chat(Json(Some(q)), file, embed, generate, sqrt);
      && (file.Unparsable? ==> r == ChatReply(ChatErr(500, file.message), []))
      && (file.Loaded? && embed(q).EmbedFailed? ==> r == ChatReply(ChatErr(500, embed(q).message), [EmbedCall(q)]))
      && (r.response.ChatErr? ==> r.response.status == 500)
      && (file.Loaded? && embed(q).Embedded? && r.response.ChatErr? ==>
            r.calls[1].GenerateCall? && r.response.error == generate(r.calls[1].prompt).message)
      && (file.Loaded? && embed(q).Embedded? ==>
            |r.calls| == 2 && r.calls[1].GenerateCall? &&
            (r.response.ChatErr? <==> generate(r.calls[1].prompt).GenFailed?))
  {
  }

  /**
   * A success embedded the query once, generated once from the prompt built
   * around the joined texts of the top-two records, and reports those records'
   * texts and (id, similarity) pairs in ranked order.
   */
  lemma ChatSuccess(q: string, records: seq<EmbeddingData>, embed: string -> EmbedOutcome,
                    generate: string -> GenOutcome, sqrt: real -> real)
    requires ScoresDefined(Json(Some(q)), Loaded(records), embed, sqrt)
    requires Chat(Json(Some(q)), Loaded(records), embed, generate, sqrt).response.ChatOk?
    ensures q != "" && embed(q).Embedded?
    ensures var v := embed(q).vector;
      var docs := FindSimilarDocuments(v, records, 2, sqrt);
      var r := Chat(Json(Some(q)), Loaded(records), embed, generate, sqrt);
      var prompt := Prompt(Join(Texts(docs), "\n\n"), q);
      && |docs| == (if |records| < 2 then |records| else 2)
      && r.calls == [EmbedCall(q), GenerateCall(prompt)]
      && r.response.response == generate(prompt).text
      && |r.response.context| == |docs| && |r.response.similarities| == |docs|
      && (forall i :: 0 <= i < |docs| ==> r.response.context[i] == docs[i].doc.text)
      && (forall i :: 0 <= i < |docs| ==>
            r.response.similarities[i].id == docs[i].doc.id &&
            r.response.similarities[i].similarity == docs[i].similarity)
  {
  }
}
