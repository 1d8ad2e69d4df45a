# Portfolio retrieval backend and front-end state, in Dafny

This project models the core of a personal portfolio site built on Next.js:

- **Chat route** (`POST /api/chat`). It validates the question, loads the
  embedding index, embeds the question, ranks the stored records by cosine
  similarity, keeps the top two, joins their texts into a context block, wraps
  that and the question in a fixed prompt, asks the text model, and returns
  the answer with the records it used.
- **Ingest route** (`GET /api/ingest`). It flattens the knowledge base's
  categories into one list of entries, embeds every entry's text one call at
  a time, pairs each entry with its vector, saves the index and reports how
  many entries it stored.
- **Projects page**. The catalogue filter is a case-insensitive substring
  search over title, description and tech tags, combined with a category
  button. The page also has the three-badge truncation with a `+N` badge, and
  the "Clear Filters" reset.
- **Hero banner**. A typewriter with three state variables: it types a
  target text, pauses, deletes it and moves on to the next target.

The two remote models are **oracles**. The embedding model and the text model
are function parameters (`embed: string -> EmbedOutcome`,
`generate: string -> GenOutcome`), and each outcome is either a value or a
thrown error. Every call a route makes is recorded in a trace, so a contract
can say which calls happened, in which order, and that none happened before
validation. `Math.sqrt` is also an oracle (`sqrt: real -> real`), and numbers
are reals.

Modules:
- `Wrappers`: `Option`.
- `Index`: entries, records, the index file and the `IndexStore` class.
- `VectorMath`: dot product, magnitude, cosine.
- `Ranking`: `findSimilarDocuments` and the stable sort it relies on.
- `ChatRoute`: the chat route.
- `IngestRoute`: the ingest route.
- `ProjectsPage`: the projects page.
- `Typewriter`: the hero banner.
- `Site`: an ingestion run followed by a chat request on the same store.

**Blank questions.** The route's only check is `!query` (route.ts:55), so a
question made only of spaces is accepted and sent to the embedding model;
`ChatRoute.ChatAcceptsBlankQuery` states this.

## Model

| member | source | states |
|---|---|---|
| VectorMath.Dot | src/app/api/chat/route.ts:33 | definition, no contract: the left fold of `a[i] * b[i]` over the indices of `a`, starting from 0; it requires equal lengths |
| VectorMath.SumSquares | src/app/api/chat/route.ts:34-35 | definition, no contract: the left fold of `x * x` over the vector, starting from 0 |
| VectorMath.Magnitude | src/app/api/chat/route.ts:34-35 | definition, no contract: the square-root oracle applied to the sum of squares |
| VectorMath.Comparable | src/app/api/chat/route.ts:32-37 | definition, no contract: equal lengths and a non-zero product of magnitudes, the cases in which the score is a well-defined real |
| VectorMath.CosineSimilarity | src/app/api/chat/route.ts:32-37 | definition, no contract: the dot product divided by the product of the two magnitudes; it requires `Comparable` |
| VectorMath.DotSymmetric | src/app/api/chat/route.ts:33 | the dot product of equal-length vectors does not depend on the order of its arguments |
| VectorMath.DotSelf | src/app/api/chat/route.ts:33-35 | the dot product of a vector with itself is the sum of squares under its magnitude |
| VectorMath.CosineSymmetric | src/app/api/chat/route.ts:32-37 | when cosine(a, b) is defined, so is cosine(b, a), and the two values are equal |
| VectorMath.SelfSimilarity | src/app/api/chat/route.ts:32-37 | a vector with non-zero sum of squares has a strictly positive one, and cosine similarity exactly 1 with itself when sqrt is exact on that sum |
| VectorMath.SumSquaresNonNegative | src/app/api/chat/route.ts:34-35 | the sum of squares under each magnitude is never negative |
| VectorMath.ZeroVectorNotComparable | src/app/api/chat/route.ts:34-36 | an all-zero vector makes the denominator zero, so cosine is undefined on either side |
| VectorMath.ZeroVectorSumSquares | src/app/api/chat/route.ts:34 | an all-zero vector has sum of squares 0 |
| Ranking.ScoreAll | src/app/api/chat/route.ts:41-44 | one result per record, in input order, carrying that record and its cosine score against the query |
| Ranking.Insert | src/app/api/chat/route.ts:47 | one insertion step of the sort: one element longer, and the same elements plus the inserted one |
| Ranking.SortBySimilarity | src/app/api/chat/route.ts:47 | the sort keeps the length and the multiset of results (a permutation) |
| Ranking.SliceEnd | src/app/api/chat/route.ts:48 | where `slice(0, topK)` ends: topK clamped to the length, and counted from the end when topK is negative |
| Ranking.FindSimilarDocuments | src/app/api/chat/route.ts:40-49 | returns min(topK, n) results for topK >= 0 (and n + topK, floored at 0, for negative topK) with no padding; non-increasing in similarity; each result is some record paired with its own cosine score |
| Ranking.PrefixFromData | src/app/api/chat/route.ts:41-48 | every element of a prefix of the sorted scores is an input record paired with its score |
| Ranking.InsertMembers | src/app/api/chat/route.ts:47 | every element after an insertion is the inserted one or came from the list |
| Ranking.InsertSorted | src/app/api/chat/route.ts:47 | inserting into a non-increasing list keeps it non-increasing |
| Ranking.SortSorted | src/app/api/chat/route.ts:47 | the sort's result is non-increasing in similarity |
| Ranking.WithScoreAppend | src/app/api/chat/route.ts:47 | selecting the results with a given score distributes over concatenation |
| Ranking.InsertWithScore | src/app/api/chat/route.ts:47 | insertion puts the new element ahead of every equal-score element already present |
| Ranking.SortStable | src/app/api/chat/route.ts:47 | stability: for every score, the results with that score appear in the sorted output in their input order |
| Ranking.WithScoreHead | src/app/api/chat/route.ts:47 | the head of a list leads the selection of its own score |
| Ranking.WithScoreMembers | src/app/api/chat/route.ts:47 | an element belongs to the selection for score v iff it belongs to the list and has score v |
| Ranking.WithScoreSkip | src/app/api/chat/route.ts:47 | a head with a different score does not change the selection |
| Ranking.SortedUnique | src/app/api/chat/route.ts:47 | two non-increasing lists with the same equal-score groups in the same order are equal |
| Ranking.SortIsStableSort | src/app/api/chat/route.ts:47 | the sort's output is the only non-increasing arrangement that keeps equal-score records in input order |
| Ranking.FindSimilarIsStableTopK | src/app/api/chat/route.ts:41-48 | the result is exactly the topK-prefix of the stable descending sort of the scored records |
| Ranking.WithScorePrefix | src/app/api/chat/route.ts:48 | cutting a list to a prefix cuts each equal-score selection to a prefix |
| Ranking.FindSimilarStable | src/app/api/chat/route.ts:46-48 | the returned records of any one score are a prefix of the input's records of that score, in input order |
| Ranking.SortedPrefixDominates | src/app/api/chat/route.ts:47-48 | a prefix of a sorted permutation of a list is a sub-multiset of that list, and nothing it leaves out scores above its last element |
| Ranking.FindSimilarLeftOut | src/app/api/chat/route.ts:46-48 | the result is drawn from the scored records without repetition, and no record left out scores higher than the last one kept |
| ChatRoute.QueryRejected | src/app/api/chat/route.ts:55 | definition, no contract: `!query` on a string-or-absent query: true exactly for an absent query and for the empty string |
| ChatRoute.Join | src/app/api/chat/route.ts:80 | definition, no contract: `join(sep)`: the parts in order with one separator between neighbours, and the empty string for no parts |
| ChatRoute.Prompt | src/app/api/chat/route.ts:83-97 | definition, no contract: the template: persona, context block, guidance, question and closing, concatenated in that order |
| ChatRoute.ScoresDefined | src/app/api/chat/route.ts:74-77 | definition, no contract: every stored vector is `Comparable` with the question's embedding whenever the route gets as far as scoring |
| ChatRoute.Texts | src/app/api/chat/route.ts:105 | the context list holds each retrieved record's text, in rank order |
| ChatRoute.IdScores | src/app/api/chat/route.ts:106 | the similarities list holds each retrieved record's (id, score), in rank order |
| ChatRoute.Chat | src/app/api/chat/route.ts:51-116 | status 400 iff the body parsed and either the query is missing or empty or the index is absent; every other error is 500; a 400 makes no model call; at most two calls, the first always embeds the question; success iff a generation call was made and succeeded |
| ChatRoute.JoinSplit | src/app/api/chat/route.ts:80 | `join` of a list splits at any inner position into the joins of the two halves around one separator |
| ChatRoute.JoinAt | src/app/api/chat/route.ts:80 | each text sits in the joined context between the joins of its neighbours, separated by exactly one separator on each inner side |
| ChatRoute.ContextShapes | src/app/api/chat/route.ts:77-80 | with at most two records the context is empty, the one text, or the two texts around one blank line |
| ChatRoute.ConcatLayout | src/app/api/chat/route.ts:83-97 | each of five concatenated strings can be read back from its own position |
| ChatRoute.PromptLayout | src/app/api/chat/route.ts:83-97 | the prompt is persona, context, guidance, question and closing in that order, each at its computed position, with the context ending before the question starts |
| ChatRoute.PromptInjective | src/app/api/chat/route.ts:83-97 | once the context's length is known, the prompt determines both the context and the question |
| ChatRoute.ChatRejectsMissingQuery | src/app/api/chat/route.ts:55-60 | a missing or empty query gets 400 "Query is required" before any model call or index read |
| ChatRoute.ChatRequiresIndex | src/app/api/chat/route.ts:63-69 | with a query but no index file the answer is 400 with the "run /api/ingest first" message, and no model is called |
| ChatRoute.ChatAcceptsBlankQuery | src/app/api/chat/route.ts:55 | a question of one space passes validation and is sent to the embedding model |
| ChatRoute.ChatServerFaults | src/app/api/chat/route.ts:71-115 | an unreadable index, a failed embedding and a failed generation each give 500 with that error's message, and the trace shows how far the route got |
| ChatRoute.ChatSuccess | src/app/api/chat/route.ts:74-107 | a success embedded the question, ranked up to two records, generated from the prompt around their joined texts, and returns that answer plus their texts and (id, score) pairs in rank order |
| IngestRoute.Copy | src/app/api/ingest/route.ts:39-43 | definition, no contract: the pushed object: the entry's id, text and category |
| IngestRoute.Flatten | src/app/api/ingest/route.ts:36-45 | definition, no contract: the copies of all categories' entries, category by category, each category's entries in order |
| IngestRoute.EntryCount | src/app/api/ingest/route.ts:66 | definition, no contract: the total number of entries over all categories |
| IngestRoute.CopyAll | src/app/api/ingest/route.ts:38-44 | each entry keeps its id, text and category, in order, and drops every other field |
| IngestRoute.FlattenCategories | src/app/api/ingest/route.ts:36-45 | the nested loops build exactly the category-by-category concatenation of the copied entries |
| IngestRoute.FlattenAppend | src/app/api/ingest/route.ts:37-45 | flattening distributes over joining two lists of categories |
| IngestRoute.FlattenLength | src/app/api/ingest/route.ts:37-45 | the flattened list has as many entries as all categories together |
| IngestRoute.FlattenAt | src/app/api/ingest/route.ts:37-45 | entry j of category c lands at position (entries before c) + j |
| IngestRoute.FlattenFrom | src/app/api/ingest/route.ts:37-45 | every flattened entry is the copy of some entry of some category |
| IngestRoute.EntryTexts | src/app/api/ingest/route.ts:48 | one text per entry, in order |
| IngestRoute.GenerateEmbeddings | src/app/api/ingest/route.ts:16-27 | the loop embeds the texts in order, stopping at the first failure; it succeeds iff every text embeds, and then returns one vector per text; a failure carries the failing call's message after earlier calls all succeeded |
| IngestRoute.BuildRecords | src/app/api/ingest/route.ts:52-57 | record i has entry i's fields and vector i |
| IngestRoute.DigitChar | src/app/api/ingest/route.ts:65 | a digit value prints as a decimal digit character |
| IngestRoute.NatToString | src/app/api/ingest/route.ts:65 | the count prints as a non-empty run of decimal digits with no leading zero unless it is 0, and as exactly one digit iff it is below 10 |
| IngestRoute.ParseNatToString | src/app/api/ingest/route.ts:65 | reading the printed count back gives the count |
| IngestRoute.SuccessMessage | src/app/api/ingest/route.ts:65 | definition, no contract: "Successfully ingested ", the printed count, " entries using Gemini embeddings" |
| IngestRoute.MessageReportsCount | src/app/api/ingest/route.ts:63-67 | the success message is the fixed prefix, the count's digits and the fixed suffix, and the digits between them read back as the reported `entries` |
| IngestRoute.Ingest | src/app/api/ingest/route.ts:29-77 | any failure is 500 and leaves the saved index as it was; an unreadable knowledge file makes no call; success iff every entry embeds, and then reports the entry count, saves one record per entry carrying that entry's vector, and names `data/embeddings.json` |
| Index.IndexStore.constructor | src/app/api/chat/route.ts:64 | definition, no contract beyond its postcondition: a new store holds no saved index, the state in which chat finds no `embeddings.json` |
| Index.IndexStore.Snapshot | src/app/api/chat/route.ts:63-71 | a later chat request finds the index absent iff nothing was saved, and otherwise finds the saved records |
| ProjectsPage.LowerChar | src/app/projects/page.tsx:90-92 | definition, no contract: maps an ASCII upper-case letter to its lower-case form and leaves every other character alone |
| ProjectsPage.Contains | src/app/projects/page.tsx:90-92 | definition, no contract: `includes`: the needle matches at the front of the haystack or, recursively, in its tail |
| ProjectsPage.MatchesSearch | src/app/projects/page.tsx:90-92 | definition, no contract: the lower-cased term occurs in the lower-cased title, the lower-cased description, or some lower-cased tag |
| ProjectsPage.MatchesCategory | src/app/projects/page.tsx:94 | definition, no contract: the selected category is "All" or equals the project's category |
| ProjectsPage.Keep | src/app/projects/page.tsx:96 | definition, no contract: both the search and the category test hold |
| ProjectsPage.FilterProjects | src/app/projects/page.tsx:88-98 | definition, no contract: the projects that satisfy `Keep`, in their original order |
| ProjectsPage.ToLower | src/app/projects/page.tsx:90-92 | lower-casing keeps the length and maps each character on its own |
| ProjectsPage.ContainsIff | src/app/projects/page.tsx:90-92 | `includes` holds iff the needle occurs at some position of the haystack |
| ProjectsPage.ContainsEmpty | src/app/projects/page.tsx:90 | every string includes the empty string |
| ProjectsPage.LowerIdempotent | src/app/projects/page.tsx:90-92 | lower-casing twice is lower-casing once |
| ProjectsPage.FilterIsSubsequence | src/app/projects/page.tsx:88-98 | the filtered list keeps the catalogue's order, only leaving projects out |
| ProjectsPage.FilterMembers | src/app/projects/page.tsx:88-98 | a project is shown iff it is in the catalogue, its title, description or a tag includes the term (ignoring case), and the category is "All" or its own |
| ProjectsPage.EmptyFilterKeepsAll | src/app/projects/page.tsx:84-98 | the initial filter ("", "All") shows the whole list unchanged |
| ProjectsPage.CategoryFilterExact | src/app/projects/page.tsx:94 | with a category other than "All" chosen, every shown project has exactly that category |
| ProjectsPage.SearchIgnoresCase | src/app/projects/page.tsx:90-92 | search terms that agree after lower-casing give the same list |
| ProjectsPage.SearchSameAsLowered | src/app/projects/page.tsx:90-92 | a term and its lower-cased form give the same list |
| ProjectsPage.ClearFilters | src/app/projects/page.tsx:292-295 | definition, no contract: the filter state ("", "All") the button sets |
| ProjectsPage.ClearFiltersShowsAll | src/app/projects/page.tsx:292-295 | after "Clear Filters" the whole list comes back, in order |
| ProjectsPage.Badges | src/app/projects/page.tsx:237-249 | a card shows the first min(3, n) tags, plus a `+N` badge iff n > 3, with N counting exactly the hidden tags |
| Typewriter.Substring | src/components/HeroSection.tsx:33-35 | `substring(0, end)` is a prefix of the target, its length clamped to [0, length] |
| Typewriter.Next | src/components/HeroSection.tsx:16-40 | the index stays in range and changes only from an empty deleting state; the delay is 2000 for the pause, 0 for the advance, 50 while deleting and 100 while typing |
| Typewriter.Inv | src/components/HeroSection.tsx:20-37 | definition, no contract: the index is below the number of texts and the shown text is a prefix of the current target |
| Typewriter.NextKeepsInv | src/components/HeroSection.tsx:20-37 | the invariant holds after every tick: the index is in range, and the shown text is a prefix of the current target |
| Typewriter.TypingLengthens | src/components/HeroSection.tsx:35 | a typing tick, taken when not deleting and not yet complete, appends the target's next character |
| Typewriter.DeletingShortens | src/components/HeroSection.tsx:33 | a deleting tick, taken when the text is not empty, removes its last character |
| Typewriter.EmptyTextAdvances | src/components/HeroSection.tsx:25-29 | once the text is deleted, the flag is cleared and the index moves to the next target, wrapping to 0, with the text left empty |
| Typewriter.CompleteTextPauses | src/components/HeroSection.tsx:20-23 | a complete text only turns the deleting flag on |
| Typewriter.Run | src/components/HeroSection.tsx:16-40 | the invariant holds after any number of ticks |
| Typewriter.TypeRun | src/components/HeroSection.tsx:35 | k typing ticks from a prefix of length j give the prefix of length j + k, taking 100 ms each |
| Typewriter.DeleteRun | src/components/HeroSection.tsx:33 | j deleting ticks from the prefix of length j give the empty text, taking 50 ms each |
| Typewriter.OneTick | src/components/HeroSection.tsx:16-40 | one tick of a run is exactly one transition, with its delay |
| Typewriter.RunAdd | src/components/HeroSection.tsx:16-40 | a + b ticks are a ticks followed by b ticks, in both the state and the time |
| Typewriter.FullCycle | src/components/HeroSection.tsx:16-40 | from the empty text, 2n + 2 ticks (n the target's length) reach the next target with an empty text, in 150 ms per character plus the 2000 ms pause |
| Typewriter.HeroFirstCycle | src/components/HeroSection.tsx:11-40 | on the banner's own texts, the 16-character headline is typed, erased and replaced by the tagline in 34 ticks and 4400 ms |
| Typewriter.HeroBanner.constructor | src/components/HeroSection.tsx:7-9 | the banner starts on the first target with nothing typed and not deleting |
| Typewriter.HeroBanner.Step | src/components/HeroSection.tsx:16-40 | one run of the effect updates the three fields exactly as `Next` does, keeps the invariant, and returns that tick's delay |
| Site.IngestThenAsk | src/app/api/ingest/route.ts:59-68 | what chat/route.ts:63-71 then reads: after a successful ingestion the store holds a loaded index, and a non-empty question finds it (no 400) and is embedded first; a failed ingestion leaves what chat reads unchanged, so on an empty store the question still gets 400 "run /api/ingest first" |

## Left out

- The embedding and text models are oracles. A model call is a deterministic function of its input; network errors, retries, rate limits and the SDK's response objects are not modelled. `embed` stands for `embedContent`, and `generate` for `generateContent` followed by `response.text()`.
- File system and JSON. `existsSync`, `readFileSync`, `JSON.parse` and `writeFileSync` are not modelled. The index file is abstracted as missing, unparsable or a list of records. The knowledge file is unreadable or a list of categories. A failure of `writeFileSync` is not modelled: `Ingest` always saves once the embeddings succeed. JSON pretty-printing is not modelled.
- The order of `Object.values` over the knowledge file is taken as given: the categories arrive as a sequence in that order.
- Non-string query values (a number, an object) are not modelled. A parsed body has either no query or a string one. `BadJson` stands for a body that `request.json()` rejects, which the route reports as 500.
- ChatRoute.Chat: requires `ScoresDefined`: every stored vector has the query's length and neither magnitude is zero. The code has no such check. The dot product folds over the query (route.ts:33), so a stored vector shorter than the query reads `undefined` and gives `NaN`, while a longer one is silently cut to the query's length in the dot product but counted in full in its magnitude (route.ts:35), giving a finite but wrong score; a zero magnitude divides by zero. NaN and IEEE rounding are outside the real-number model.
- VectorMath.CosineSymmetric: scores are reals and `sqrt` is an uninterpreted oracle, so the range [-1, 1] (Cauchy–Schwarz) is not proved.
- Ranking.SortBySimilarity: JavaScript's `Array.prototype.sort` is stable since ES2019. The model realises the comparator `b.similarity - a.similarity` as a stable insertion sort, and `SortIsStableSort` shows that any stable descending sort gives the same list.
- The status route, HTTP plumbing (`NextRequest`/`NextResponse` objects, headers, `console.error`) and the `success` flag are left out. A response is a datatype carrying an HTTP status and either the payload or the error message.
- `error instanceof Error ? error.message : 'Unknown error'` is not modelled on its own: every failure an oracle reports carries a message.
- ProjectsPage.ToLower: only ASCII upper-case letters are lower-cased. Locale-independent Unicode case mapping is not modelled.
- The six catalogue entries and the list of category buttons (page.tsx:18-81) are data, not logic, and are not copied into the model: every filter, search and badge lemma holds for any list of projects, the catalogue included.
- The project detail modal (`selectedProject`), animations and the rendering of the page and banner are left out. The other components (navbar, about, skills, journey, achievements, chatbot widget) and the layout files only compose UI.
- Typewriter.HeroBanner.Step: React's timers are not modelled. An effect's update is applied at once and its delay returned. The pause timer that the effect does not cancel (it returns no cleanup) is not modelled, so overlapping effect runs are not covered.
- Typewriter.FullCycle: Dafny strings are sequences of Unicode scalar values, while JavaScript's `length` and `substring` count UTF-16 code units. On a target containing characters outside the Basic Multilingual Plane the component shows half surrogate pairs and spends two ticks per such character, so "150 ms per character" holds only for targets inside that plane, such as the two banner texts.
