/** The vector-database front end (src/lib/ai/vectordb.ts): an in-memory,
    time-bounded cache of search results in front of the Pinecone index, the
    mapping from index matches to search results, and the in-memory mock
    store that receives every inserted document.

    The two module-level arrays of the source, `searchCache` and
    `mockVectorStore`, are the two fields of `VectorStore`. The clock, the
    embedding backend and the Pinecone query are parameters. */
module VectorDb {
  import opened Wrappers
  import Embedding

  /** How long a cached result stays usable, in milliseconds (5 minutes). */
  const CacheExpiration: int := 300000
  /** The cache is trimmed once it holds more than this many entries ... */
  const CacheLimit: nat := 100
  /** ... by dropping this many of its oldest entries. */
  const CacheTrim: nat := 50

  /** A metadata value: a string, or any other JSON value together with the
      text JavaScript's `String()` gives for it. */
  datatype Value = Str(s: string) | Other(shown: string)

  type Metadata = map<string, Value>

  /** A match as the index returns it: score and metadata may be absent. */
  datatype Match = Match(id: string, score: Option<real>, metadata: Option<Metadata>)

  datatype SearchResult = SearchResult(id: string, score: real, metadata: Metadata, content: Option<Value>)

  datatype CacheEntry = CacheEntry(query: string, results: seq<SearchResult>, timestamp: int)

  datatype MockDocument = MockDocument(id: string, vector: Embedding.Vector, metadata: Metadata)

  // ---------------------------------------------------------------------
  // Matches to results

  /** `content` is the `text` entry of the result's own metadata, if any. */
  predicate ContentFromMetadata(r: SearchResult) {
    r.content == if "text" in r.metadata then Some(r.metadata["text"]) else None
  }

  /** One match as a search result: same id, score 0 when absent, metadata
      `{}` when absent, content taken from the metadata's `text`. */
  function FormatMatch(m: Match): (r: SearchResult)
    ensures r.id == m.id
    ensures r.score == (if m.score.Some? then m.score.value else 0.0)
    ensures m.metadata.Some? ==> r.metadata == m.metadata.value
    ensures m.metadata.None? ==> r.metadata == map[] && r.content == None
    ensures ContentFromMetadata(r)
  {
    var metadata := m.metadata.GetOr(map[]);
    SearchResult(m.id, m.score.GetOr(0.0), metadata,
                 if m.metadata.Some? && "text" in m.metadata.value then Some(m.metadata.value["text"]) else None)
  }

  /** `queryResponse.matches.map(...)`: one result per match, in order. */
  function FormatMatches(matches: seq<Match>): (rs: seq<SearchResult>)
    ensures |rs| == |matches|
    ensures forall i :: 0 <= i < |rs| ==> rs[i].id == matches[i].id && ContentFromMetadata(rs[i])
  {
    seq(|matches|, i requires 0 <= i < |matches| => FormatMatch(matches[i]))
  }

  // ---------------------------------------------------------------------
  // The search cache

  /** An entry answers `queryText` at time `now`: the same query text,
      stored less than `CacheExpiration` ago. */
  predicate Answers(e: CacheEntry, queryText: string, now: int) {
    e.query == queryText && e.timestamp > now - CacheExpiration
  }

  /** `searchCache.find(...)`, from position `from`: the index of the first
      entry that answers the query. */
  function FindCached(cache: seq<CacheEntry>, queryText: string, now: int, from: nat): (r: Option<nat>)
    requires from <= |cache|
    ensures r.Some? ==> from <= r.value < |cache| && Answers(cache[r.value], queryText, now)
    ensures r.Some? ==> forall j :: from <= j < r.value ==> !Answers(cache[j], queryText, now)
    ensures r.None? ==> forall j :: from <= j < |cache| ==> !Answers(cache[j], queryText, now)
    decreases |cache| - from
  {
    if from == |cache| then None
    else if Answers(cache[from], queryText, now) then Some(from)
    else FindCached(cache, queryText, now, from + 1)
  }

  function Lookup(cache: seq<CacheEntry>, queryText: string, now: int): Option<nat> {
    FindCached(cache, queryText, now, 0)
  }

  /** The cache after a miss has been recorded: the entry goes at the end,
      and if that makes the cache longer than `CacheLimit` the oldest
      `CacheTrim` entries go. */
  function CachePush(cache: seq<CacheEntry>, e: CacheEntry): seq<CacheEntry> {
    var pushed := cache + [e];
    if |pushed| > CacheLimit then pushed[CacheTrim..] else pushed
  }

  /** Pushing keeps the cache within its limit, keeps the new entry last and
      the surviving entries in their order, and drops only the oldest. */
  lemma CachePushShape(cache: seq<CacheEntry>, e: CacheEntry)
    requires |cache| <= CacheLimit
    ensures var r := CachePush(cache, e);
      && |r| <= CacheLimit
      && r != [] && r[|r| - 1] == e
      && r == (cache + [e])[|cache| + 1 - |r|..]
      && (|cache| < CacheLimit ==> r == cache + [e])
      && (|cache| == CacheLimit ==> r == cache[CacheTrim..] + [e])
  {
    var r := CachePush(cache, e);
    if |cache| == CacheLimit {
      assert (cache + [e])[CacheTrim..] == cache[CacheTrim..] + [e];
    }
  }

  /** After a miss, the same query asked again within the expiration window
      is answered by the entry just recorded. */
  lemma MissThenHit(cache: seq<CacheEntry>, queryText: string, results: seq<SearchResult>, now: int, later: int)
    requires |cache| <= CacheLimit
    requires Lookup(cache, queryText, now).None?
    requires now <= later < now + CacheExpiration
    ensures var r := CachePush(cache, CacheEntry(queryText, results, now));
      && Lookup(r, queryText, later).Some?
      && r[Lookup(r, queryText, later).value].results == results
  {
    var e := CacheEntry(queryText, results, now);
    var r := CachePush(cache, e);
    CachePushShape(cache, e);
    assert Answers(r[|r| - 1], queryText, later);
  }

  // ---------------------------------------------------------------------
  // The mock store

  /** `mockVectorStore.findIndex(doc => doc.id === id)`. */
  function FindIndex(docs: seq<MockDocument>, id: string, from: nat): (r: Option<nat>)
    requires from <= |docs|
    ensures r.Some? ==> from <= r.value < |docs| && docs[r.value].id == id
    ensures r.Some? ==> forall j :: from <= j < r.value ==> docs[j].id != id
    ensures r.None? ==> forall j :: from <= j < |docs| ==> docs[j].id != id
    decreases |docs| - from
  {
    if from == |docs| then None
    else if docs[from].id == id then Some(from)
    else FindIndex(docs, id, from + 1)
  }

  /** Every id occurs at most once. */
  predicate UniqueIds(docs: seq<MockDocument>) {
    forall i, j :: 0 <= i < j < |docs| ==> docs[i].id != docs[j].id
  }

  /** The store after upserting `d`: replaced in place if its id is present,
      appended otherwise. */
  function Upsert(docs: seq<MockDocument>, d: MockDocument): seq<MockDocument> {
    match FindIndex(docs, d.id, 0)
    case Some(i) => docs[i := d]
    case None => docs + [d]
  }

  /** Upsert puts `d` at the position of the document with the same id, or
      at the end when there is none; every other document stays where it
      was, unchanged, and ids stay unique. */
  lemma UpsertShape(docs: seq<MockDocument>, d: MockDocument)
    requires UniqueIds(docs)
    ensures var r := Upsert(docs, d);
      && UniqueIds(r)
      && ((exists i :: 0 <= i < |docs| && docs[i].id == d.id) ==> |r| == |docs|)
      && ((forall i :: 0 <= i < |docs| ==> docs[i].id != d.id) ==> r == docs + [d])
    ensures var r := Upsert(docs, d);
      && |docs| <= |r| <= |docs| + 1
      && (exists k :: 0 <= k < |r| && r[k] == d)
      && (forall j :: 0 <= j < |docs| && docs[j].id != d.id ==> r[j] == docs[j])
  {
    var r := Upsert(docs, d);
    match FindIndex(docs, d.id, 0)
    case Some(i) =>
      assert r[i] == d;
    case None =>
      assert r[|docs|] == d;
  }

  /** `{...metadata, text}`: the given metadata with `text` set to the
      document text, overriding any `text` it had. */
  function EnhancedMetadata(metadata: Metadata, text: string): (r: Metadata)
    ensures r.Keys == metadata.Keys + {"text"}
    ensures r["text"] == Str(text)
    ensures forall k :: k in metadata && k != "text" ==> r[k] == metadata[k]
  {
    metadata["text" := Str(text)]
  }

  // ---------------------------------------------------------------------
  // The module state

  class VectorStore {
    var searchCache: seq<CacheEntry>
    var mockVectorStore: seq<MockDocument>
    /** How many times the embedding backend has been called for a query. */
    ghost var queryEmbeddings: nat

    ghost predicate Valid()
      reads this
    {
      |searchCache| <= CacheLimit && UniqueIds(mockVectorStore)
    }

    constructor ()
      ensures Valid()
      ensures searchCache == [] && mockVectorStore == [] && queryEmbeddings == 0
    {
      searchCache := [];
      mockVectorStore := [];
      queryEmbeddings := 0;
    }

    /** `queryVectorDB(queryText, topK, filter)` at time `now`. A cached
        answer is returned as it is, without embedding or querying; on a miss
        the query is embedded, sent to `index` together with `topK` and
        `filter`, and the formatted matches are recorded in the cache. */
    method QueryVectorDB(queryText: string, topK: int, filter: Option<Metadata>, now: int,
                         embed: string -> Embedding.Vector,
                         index: (Embedding.Vector, int, Option<Metadata>) -> seq<Match>)
      returns (results: seq<SearchResult>)
      requires Valid()
      modifies this
      ensures Valid()
      ensures mockVectorStore == old(mockVectorStore)
      ensures match Lookup(old(searchCache), queryText, now)
        case Some(i) =>
          && results == old(searchCache)[i].results
          && searchCache == old(searchCache)
          && queryEmbeddings == old(queryEmbeddings)
        case None =>
          && results == FormatMatches(index(embed(queryText), topK, filter))
          && searchCache == CachePush(old(searchCache), CacheEntry(queryText, results, now))
          && queryEmbeddings == old(queryEmbeddings) + 1
    {
      var cached := Lookup(searchCache, queryText, now);
      if cached.Some? {
        results := searchCache[cached.value].results;
        return;
      }
      var queryEmbedding := embed(queryText);
      queryEmbeddings := queryEmbeddings + 1;
      var matches := index(queryEmbedding, topK, filter);
      results := FormatMatches(matches);
      CachePushShape(searchCache, CacheEntry(queryText, results, now));
      searchCache := searchCache + [CacheEntry(queryText, results, now)];
      if |searchCache| > CacheLimit {
        searchCache := searchCache[CacheTrim..];
      }
    }

    /** `clearVectorSearchCache`. */
    method ClearVectorSearchCache()
      modifies this
      ensures searchCache == []
      ensures mockVectorStore == old(mockVectorStore) && queryEmbeddings == old(queryEmbeddings)
      ensures old(Valid()) ==> Valid()
    {
      searchCache := [];
    }

    /** `insertDocument` in development mode, which is the only mode: the
        document, its embedding and its metadata with `text` added are
        upserted into the mock store; the call reports one upserted
        document. */
    method InsertDocument(id: string, text: string, metadata: Metadata, embed: string -> Embedding.Vector)
      returns (upsertedCount: int)
      requires Valid()
      modifies this
      ensures Valid()
      ensures upsertedCount == 1
      ensures mockVectorStore == Upsert(old(mockVectorStore), MockDocument(id, embed(text), EnhancedMetadata(metadata, text)))
      ensures searchCache == old(searchCache) && queryEmbeddings == old(queryEmbeddings)
    {
      var embedding := embed(text);
      var enhancedMetadata := EnhancedMetadata(metadata, text);
      var doc := MockDocument(id, embedding, enhancedMetadata);
      UpsertShape(mockVectorStore, doc);
      var existingIndex := FindIndex(mockVectorStore, id, 0);
      if existingIndex.Some? {
        mockVectorStore := mockVectorStore[existingIndex.value := doc];
      } else {
        mockVectorStore := mockVectorStore + [doc];
      }
      upsertedCount := 1;
    }
  }

  /** Asking the same query twice and then a different one, all within the
      expiration window, embeds exactly twice: the repeat is a cache hit
      and returns the first answer. */
  method SameSameDifferent(q1: string, q2: string, now: int,
                           embed: string -> Embedding.Vector,
                           index: (Embedding.Vector, int, Option<Metadata>) -> seq<Match>)
    returns (store: VectorStore, first: seq<SearchResult>, second: seq<SearchResult>)
    requires q1 != q2
    ensures fresh(store) && store.Valid()
    ensures second == first
    ensures store.queryEmbeddings == 2
  {
    store := new VectorStore();
    first := store.QueryVectorDB(q1, 5, None, now, embed, index);
    MissThenHit([], q1, first, now, now);
    second := store.QueryVectorDB(q1, 5, None, now, embed, index);
    var cache := store.searchCache;
    assert cache == [CacheEntry(q1, first, now)];
    assert !Answers(cache[0], q2, now);
    var third := store.QueryVectorDB(q2, 5, None, now, embed, index);
  }
}
