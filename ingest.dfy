/**
 * The ingestion route (`GET /api/ingest`): flatten the knowledge base's
 * categories into one entry list, embed every entry's text with one remote
 * call each, in order, zip entries with vectors into index records, write the
 * index, and report how many entries were ingested.
 */
module IngestRoute {
  import opened Wrappers
  import opened Index

  /**
   * An entry as the knowledge file holds it. `extra` stands for any further
   * fields the file's entries carry; ingestion does not copy them.
   */
  datatype SourceEntry = SourceEntry(id: string, text: string, category: string, extra: map<string, string>)

  /**
   * The knowledge file after `readFileSync` and `JSON.parse`: an error, or the
   * entry lists of `Object.values(knowledgeData)`, in that order.
   */
  datatype KnowledgeFile = Unreadable(message: string) | Parsed(categories: seq<seq<SourceEntry>>)

  /** What `generateEmbeddings` gives: one vector per text, or the first error thrown. */
  datatype EmbedBatch = Vectors(vectors: seq<Vector>) | BatchFailed(message: string)

  /** The JSON reply; a success carries HTTP status 200 (the default). */
  datatype IngestResponse =
    | IngestOk(message: string, entries: nat, savedTo: string)
    | IngestFailed(status: int, error: string)

  const SavedTo := "data/embeddings.json"
  const MessagePrefix := "Successfully ingested "
  const MessageSuffix := " entries using Gemini embeddings"

  // ---------------------------------------------------------------------
  // Flattening the categories

  /** `{ id: entry.id, text: entry.text, category: entry.category }` */
  function Copy(e: SourceEntry): KnowledgeEntry
  {
    KnowledgeEntry(e.id, e.text, e.category)
  }

  function CopyAll(entries: seq<SourceEntry>): (r: seq<KnowledgeEntry>)
    ensures |r| == |entries| && forall j :: 0 <= j < |entries| ==> r[j] == Copy(entries[j])
  {
    seq(|entries|, j requires 0 <= j < |entries| => Copy(entries[j]))
  }

  /** The entry list the nested loops build: category by category, entry by entry. */
  function Flatten(categories: seq<seq<SourceEntry>>): seq<KnowledgeEntry>
    decreases |categories|
  {
    if |categories| == 0 then []
    else Flatten(categories[..|categories| - 1]) + CopyAll(categories[|categories| - 1])
  }

  /** The number of entries over all categories. */
  function EntryCount(categories: seq<seq<SourceEntry>>): nat
    decreases |categories|
  {
    if |categories| == 0 then 0
    else EntryCount(categories[..|categories| - 1]) + |categories[|categories| - 1]|
  }

  /** Lines 36-45: push a copy of every entry of every category, in order. */
  method FlattenCategories(categories: seq<seq<SourceEntry>>) returns (allEntries: seq<KnowledgeEntry>)
    ensures allEntries == Flatten(categories)
  {
    allEntries := [];
    var c := 0;
    while c < |categories|
      invariant 0 <= c <= |categories|
      invariant allEntries == Flatten(categories[..c])
    {
      var entries := categories[c];
      var j := 0;
      while j < |entries|
        invariant 0 <= j <= |entries|
        invariant allEntries == Flatten(categories[..c]) + CopyAll(entries[..j])
      {
        assert CopyAll(entries[..j + 1]) == CopyAll(entries[..j]) + [Copy(entries[j])];
        allEntries := allEntries + [Copy(entries[j])];
        j := j + 1;
      }
      assert categories[..c + 1][..c] == categories[..c];
      assert entries[..j] == entries;
      c := c + 1;
    }
    assert categories[..c] == categories;
  }

  lemma {:induction false} FlattenAppend(a: seq<seq<SourceEntry>>, b: seq<seq<SourceEntry>>)
    ensures Flatten(a + b) == Flatten(a) + Flatten(b)
    decreases |b|
  {
    if |b| > 0 {
      var b' := b[..|b| - 1];
      assert (a + b)[..|a + b| - 1] == a + b';
      assert (a + b)[|a + b| - 1] == b[|b| - 1];
      FlattenAppend(a, b');
    } else {
      assert a + b == a;
    }
  }

  lemma {:induction false} FlattenLength(categories: seq<seq<SourceEntry>>)
    ensures |Flatten(categories)| == EntryCount(categories)
    decreases |categories|
  {
    if |categories| > 0 {
      FlattenLength(categories[..|categories| - 1]);
    }
  }

  /**
   * Entry `j` of category `c` lands right after all entries of the earlier
   * categories, with its three fields copied unchanged.
   */
  lemma {:induction false} FlattenAt(categories: seq<seq<SourceEntry>>, c: nat, j: nat)
    requires c < |categories| && j < |categories[c]|
    ensures EntryCount(categories[..c]) + j < |Flatten(categories)|
    ensures Flatten(categories)[EntryCount(categories[..c]) + j] == Copy(categories[c][j])
    decreases |categories|
  {
    var n := |categories|;
    var init := categories[..n - 1];
    var fi := Flatten(init);
    assert Flatten(categories) == fi + CopyAll(categories[n - 1]);
    FlattenLength(init);
    if c == n - 1 {
      assert categories[..c] == init;
    } else {
      assert init[..c] == categories[..c] && init[c] == categories[c];
      FlattenAt(init, c, j);
    }
  }

  /** Every flattened entry is the copy of some entry of some category. */
  lemma {:induction false} FlattenFrom(categories: seq<seq<SourceEntry>>, k: nat)
    requires k < |Flatten(categories)|
    ensures exists c, j :: 0 <= c < |categories| && 0 <= j < |categories[c]| && Flatten(categories)[k] == Copy(categories[c][j])
    decreases |categories|
  {
    var n := |categories|;
    var init := categories[..n - 1];
    if k < |Flatten(init)| {
      FlattenFrom(init, k);
      var c, j :| 0 <= c < |init| && 0 <= j < |init[c]| && Flatten(init)[k] == Copy(init[c][j]);
      assert categories[c] == init[c];
    } else {
      var j := k - |Flatten(init)|;
      assert Flatten(categories)[k] == Copy(categories[n - 1][j]);
    }
  }

  // ---------------------------------------------------------------------
  // Embedding the texts

  /** `allEntries.map(entry => entry.text)` */
  function EntryTexts(entries: seq<KnowledgeEntry>): (r: seq<string>)
    ensures |r| == |entries| && forall i :: 0 <= i < |entries| ==> r[i] == entries[i].text
  {
    seq(|entries|, i requires 0 <= i < |entries| => entries[i].text)
  }

  /**
   * Lines 16-27: call the embedding model once per text, in order, and push
   * each vector; the first call that throws ends the loop and the error
   * propagates. `calls` are the texts sent to the model, in order.
   */
  method GenerateEmbeddings(texts: seq<string>, embed: string -> EmbedOutcome) returns (res: EmbedBatch, calls: seq<string>)
    ensures calls <= texts
    ensures res.Vectors? <==> forall i :: 0 <= i < |texts| ==> embed(texts[i]).Embedded?
    ensures res.Vectors? ==> calls == texts && |res.vectors| == |texts|
    ensures res.Vectors? ==> forall i :: 0 <= i < |texts| ==> embed(texts[i]) == Embedded(res.vectors[i])
    ensures res.BatchFailed? ==>
      && |calls| > 0
      && embed(calls[|calls| - 1]) == EmbedFailed(res.message)
      && forall i :: 0 <= i < |calls| - 1 ==> embed(calls[i]).Embedded?
  {
    var embeddings: seq<Vector> := [];
    calls := [];
    var i := 0;
    while i < |texts|
      invariant 0 <= i <= |texts|
      invariant calls == texts[..i]
      invariant |embeddings| == i
      invariant forall k :: 0 <= k < i ==> embed(texts[k]) == Embedded(embeddings[k])
    {
      var text := texts[i];
      calls := calls + [text];
      var result := embed(text);
      if result.EmbedFailed? {
        res := BatchFailed(result.message);
        return;
      }
      embeddings := embeddings + [result.vector];
      i := i + 1;
    }
    assert calls == texts;
    res := Vectors(embeddings);
  }

  /** Lines 52-57: record `i` is entry `i` with vector `i`. */
  function BuildRecords(entries: seq<KnowledgeEntry>, vectors: seq<Vector>): (r: seq<EmbeddingData>)
    requires |vectors| == |entries|
    ensures |r| == |entries|
    ensures forall i :: 0 <= i < |r| ==>
      r[i] == EmbeddingData(entries[i].id, entries[i].text, entries[i].category, vectors[i])
  {
    seq(|entries|, i requires 0 <= i < |entries| =>
      EmbeddingData(entries[i].id, entries[i].text, entries[i].category, vectors[i]))
  }

  // ---------------------------------------------------------------------
  // The reported count

  function DigitChar(d: nat): (c: char)
    requires d < 10
    ensures '0' <= c <= '9'
  {
    (48 + d) as char
  }

  function DigitValue(c: char): nat
    requires '0' <= c <= '9'
  {
    c as int - 48
  }

  predicate AllDigits(s: string)
  {
    forall i :: 0 <= i < |s| ==> '0' <= s[i] <= '9'
  }

  /** `${n}` for a non-negative integer: its decimal digits, most significant first. */
  function NatToString(n: nat): (s: string)
    ensures |s| > 0 && AllDigits(s)
    ensures s[0] == '0' ==> n == 0
    ensures |s| == 1 <==> n < 10
    decreases n
  {
    if n < 10 then [DigitChar(n)]
    else NatToString(n / 10) + [DigitChar(n % 10)]
  }

  /** Reads a string of decimal digits back as a number. */
  function ParseNat(s: string): nat
    requires AllDigits(s)
    decreases |s|
  {
    if |s| == 0 then 0
    else ParseNat(s[..|s| - 1]) * 10 + DigitValue(s[|s| - 1])
  }

  lemma {:induction false} ParseNatToString(n: nat)
    ensures ParseNat(NatToString(n)) == n
    decreases n
  {
    var s := NatToString(n);
    if n >= 10 {
      ParseNatToString(n / 10);
      assert s[..|s| - 1] == NatToString(n / 10);
    }
  }

  function SuccessMessage(n: nat): string
  {
    MessagePrefix + NatToString(n) + MessageSuffix
  }

  /** The count written in the message reads back as the reported count. */
  lemma MessageReportsCount(n: nat)
    ensures var m := SuccessMessage(n);
      && |m| == |MessagePrefix| + |NatToString(n)| + |MessageSuffix|
      && m[..|MessagePrefix|] == MessagePrefix
      && m[|m| - |MessageSuffix|..] == MessageSuffix
      && AllDigits(m[|MessagePrefix|..|m| - |MessageSuffix|])
      && ParseNat(m[|MessagePrefix|..|m| - |MessageSuffix|]) == n
  {
    var m := SuccessMessage(n);
    var digits := NatToString(n);
    assert m == MessagePrefix + digits + MessageSuffix;
    assert m[|MessagePrefix|..|m| - |MessageSuffix|] == digits;
    ParseNatToString(n);
  }

  // ---------------------------------------------------------------------
  // The route

  /**
   * The whole route. It writes the store only after every embedding call has
   * succeeded, so a failure leaves the previous index in place.
   */
  method Ingest(store: IndexStore, file: KnowledgeFile, embed: string -> EmbedOutcome)
    returns (res: IngestResponse, calls: seq<string>)
    modifies store
    ensures res.IngestFailed? ==> res.status == 500 && store.saved == old(store.saved)
    ensures file.Unreadable? ==> res == IngestFailed(500, file.message) && calls == []
    ensures file.Parsed? ==>
      var entries := Flatten(file.categories);
      && calls <= EntryTexts(entries)
      && (res.IngestOk? <==> forall i :: 0 <= i < |entries| ==> embed(entries[i].text).Embedded?)
      && (res.IngestFailed? ==> |calls| > 0 && embed(calls[|calls| - 1]) == EmbedFailed(res.error))
    ensures res.IngestOk? ==>
      && file.Parsed?
      && var entries := Flatten(file.categories);
      && (forall i :: 0 <= i < |entries| ==> embed(entries[i].text).Embedded?)
      && res == IngestOk(SuccessMessage(|entries|), |entries|, SavedTo)
      && calls == EntryTexts(entries)
      && store.saved.Some? && |store.saved.value| == |entries|
      && forall i :: 0 <= i < |entries| ==>
           store.saved.value[i] == EmbeddingData(entries[i].id, entries[i].text, entries[i].category, embed(entries[i].text).vector)
  {
    match file
    case Unreadable(m) =>
      res, calls := IngestFailed(500, m), [];
    case Parsed(categories) =>
      var allEntries := FlattenCategories(categories);
      var texts := EntryTexts(allEntries);
      var batch;
      batch, calls := GenerateEmbeddings(texts, embed);
      match batch
      case BatchFailed(m) =>
        res := IngestFailed(500, m);
      case Vectors(embeddings) =>
        var embeddingsData := BuildRecords(allEntries, embeddings);
        store.saved := Some(embeddingsData);
        res := IngestOk(SuccessMessage(|allEntries|), |allEntries|, SavedTo);
  }
}
