/** Retrieval-augmented prompting (src/lib/ai/rag.ts): the retrieved
    documents are formatted into one context text, cut down when its token
    estimate is over budget, and placed into a system message that is put
    in front of the conversation. */
module Rag {
  import opened Wrappers
  import opened Strings
  import Embedding
  import opened VectorDb

  /** The token budget of the context. */
  const MaxContextTokens: nat := 4000
  /** Characters per token assumed by the estimate. */
  const CharsPerToken: nat := 4

  /** `estimateTokenCount`: `Math.ceil(text.length / 4)`. */
  function EstimateTokenCount(text: string): (n: nat)
    ensures CharsPerToken * n >= |text|
    ensures CharsPerToken * n < |text| + CharsPerToken
  {
    (|text| + CharsPerToken - 1) / CharsPerToken
  }

  // ---------------------------------------------------------------------
  // Formatting the documents

  /** `metadata.source` is a string. */
  predicate HasStringSource(doc: SearchResult) {
    "source" in doc.metadata && doc.metadata["source"].Str?
  }

  /** The source line of a document block. */
  function SourceLine(doc: SearchResult): (r: string)
    ensures StartsWith(r, "Source: ")
    ensures HasStringSource(doc) ==> r[8..] == doc.metadata["source"].s
    ensures !HasStringSource(doc) ==> r[8..] == "Unknown"
  {
    if HasStringSource(doc) then "Source: " + doc.metadata["source"].s else "Source: Unknown"
  }

  /** `${doc.content ?? ""}`: the content as a template literal shows it. */
  function ShownContent(doc: SearchResult): string {
    match doc.content
    case None => ""
    case Some(Str(s)) => s
    case Some(Other(shown)) => shown
  }

  /** The block of one document: a `---` rule, the content, the source line. */
  function FormatDocument(doc: SearchResult): string {
    "---\n" + ShownContent(doc) + "\n" + SourceLine(doc) + "\n"
  }

  function Blocks(docs: seq<SearchResult>): (bs: seq<string>)
    ensures |bs| == |docs|
  {
    seq(|docs|, i requires 0 <= i < |docs| => FormatDocument(docs[i]))
  }

  /** The blocks of all documents, in order, separated by newlines. */
  function FormatContext(docs: seq<SearchResult>): string {
    Join(Blocks(docs), "\n")
  }

  lemma {:induction false} JoinSnoc(parts: seq<string>, p: string, sep: string)
    requires parts != []
    ensures Join(parts + [p], sep) == Join(parts, sep) + sep + p
    decreases |parts|
  {
    if |parts| == 1 {
      assert parts + [p] == [parts[0], p];
      assert [parts[0], p][1..] == [p];
    } else {
      JoinSnoc(parts[1..], p, sep);
      assert (parts + [p])[1..] == parts[1..] + [p];
    }
  }

  /** The context text is empty exactly when there are no documents; each
      further document adds a newline and its own block at the end, so the
      blocks appear in the order of the results. */
  lemma ContextOfDocuments(docs: seq<SearchResult>, d: SearchResult)
    ensures FormatContext(docs) == [] <==> docs == []
    ensures docs != [] ==> StartsWith(FormatContext(docs), "---\n")
    ensures FormatContext([d]) == FormatDocument(d)
    ensures docs != [] ==> FormatContext(docs + [d]) == FormatContext(docs) + "\n" + FormatDocument(d)
  {
    if docs != [] {
      var bs := Blocks(docs);
      assert Blocks(docs + [d]) == bs + [FormatDocument(d)];
      JoinSnoc(bs, FormatDocument(d), "\n");
      if |docs| == 1 {
        assert Join(bs, "\n") == bs[0];
      } else {
        assert Join(bs, "\n") == bs[0] + "\n" + Join(bs[1..], "\n");
      }
      assert StartsWith(bs[0], "---\n");
    }
    assert Blocks([d]) == [FormatDocument(d)];
  }

  // ---------------------------------------------------------------------
  // Keeping the context within budget

  /** The truncation step as written: over budget, the context becomes the
      first chunk of `generateChunks(contextText, 16000)`, or `""`. */
  function ContextText(text: string): string {
    if EstimateTokenCount(text) > MaxContextTokens then
      var chunks := Embedding.Chunks(text, MaxContextTokens * CharsPerToken);
      if chunks == [] then "" else chunks[0]
    else text
  }

  /** The truncation step with the budget enforced: the first chunk is cut
      to `16000` characters when it is still longer than that. */
  function BoundedContextText(text: string): string {
    var t := ContextText(text);
    if |t| > MaxContextTokens * CharsPerToken then t[..MaxContextTokens * CharsPerToken] else t
  }

  /** The corrected step always meets the budget, keeps a context that is
      within budget as it is, and differs from the step as written only
      where that one misses the budget. */
  lemma BoundedContextTextFits(text: string)
    ensures EstimateTokenCount(text) <= MaxContextTokens ==>
              ContextText(text) == text && BoundedContextText(text) == text
    ensures EstimateTokenCount(BoundedContextText(text)) <= MaxContextTokens
    ensures EstimateTokenCount(ContextText(text)) <= MaxContextTokens ==>
              BoundedContextText(text) == ContextText(text)
    ensures StartsWith(ContextText(text), BoundedContextText(text))
  {
  }

  /** One long retrieved document without a period: its block is a single
      sentence, so the first chunk is the whole text again and the context
      as written stays over budget. */
  lemma ContextTextOverBudget() returns (docs: seq<SearchResult>)
    ensures EstimateTokenCount(FormatContext(docs)) > MaxContextTokens
    ensures EstimateTokenCount(ContextText(FormatContext(docs))) > MaxContextTokens
  {
    var body: string := seq(16001, _ => 'a');
    forall i | 0 <= i < |body| ensures body[i] != '.' { }
    var doc := SearchResult("doc", 1.0, map["text" := Str(body)], Some(Str(body)));
    LongDocumentOverBudget(doc, body);
    docs := [doc];
  }

  /** The same for any document whose content is a string of more than
      16000 characters without a period and that has no source. */
  lemma LongDocumentOverBudget(doc: SearchResult, body: string)
    requires doc.content == Some(Str(body)) && !HasStringSource(doc)
    requires '.' !in body && |body| > MaxContextTokens * CharsPerToken
    ensures EstimateTokenCount(FormatContext([doc])) > MaxContextTokens
    ensures EstimateTokenCount(ContextText(FormatContext([doc]))) > MaxContextTokens
  {
    ContextOfDocuments([], doc);
    var text := FormatContext([doc]);
    var source := SourceLine(doc);
    assert source == "Source: Unknown";
    var trimmed := "---\n" + body + "\n" + source;
    assert text == trimmed + "\n" by {
      assert ShownContent(doc) == body;
    }
    assert Trim(text) == trimmed by {
      assert TrimStart(text) == text;
      assert text[..|text| - 1] == trimmed;
      assert TrimEnd(trimmed) == trimmed;
    }
    assert '.' !in text;
    Embedding.OneSentenceChunk(text, MaxContextTokens * CharsPerToken);
  }

  // ---------------------------------------------------------------------
  // Messages

  datatype Role = System | User | Assistant | Tool

  /** A chat message; `id` is absent on a message that has none yet. */
  datatype Message = Message(role: Role, content: string, id: Option<string>)

  const Placeholder: string := "{{context}}"

  /** The system prompt up to its placeholder. */
  const PromptHead: string :=
    "You are a personal knowledge assistant that helps answer questions based on the user's personal knowledge management (PKM) system.\n"
    + "When responding, follow these guidelines:\n"
    + "1. Use ONLY the provided context to answer questions.\n"
    + "2. If the context doesn't contain the answer, say \"I don't have information about that in your knowledge base\" instead of making up an answer. In this case also output the context information provided below.\n"
    + "3. Be concise and direct in your responses.\n"
    + "4. When referencing information, cite the source if available.\n"
    + "5. Focus only on answering the current question without adding unnecessary information.\n"
    + "\n"
    + "Context information:\n"

  /** `RAG_SYSTEM_PROMPT`: the guidelines, ending with the placeholder. */
  const RagSystemPrompt: string := PromptHead + Placeholder

  /** `createRagSystemMessage`, with the fresh message id as a parameter. */
  function CreateRagSystemMessage(contextText: string, id: string): Message {
    Message(System, ReplaceFirst(RagSystemPrompt, Placeholder, contextText), Some(id))
  }

  /** The system message carries the context text, in place of the first
      placeholder of the prompt and with the rest of the prompt around it. */
  lemma SystemMessageCarriesContext(contextText: string, id: string) returns (i: nat)
    ensures var m := CreateRagSystemMessage(contextText, id);
      && m.role == System && m.id == Some(id)
      && i + |Placeholder| <= |RagSystemPrompt|
      && OccursAt(RagSystemPrompt, Placeholder, i)
      && (forall j :: 0 <= j < i ==> !OccursAt(RagSystemPrompt, Placeholder, j))
      && m.content == RagSystemPrompt[..i] + contextText + RagSystemPrompt[i + |Placeholder|..]
      && |m.content| == |RagSystemPrompt| - |Placeholder| + |contextText|
  {
    assert RagSystemPrompt[|PromptHead|..|PromptHead| + |Placeholder|] == Placeholder;
    i := ReplaceFirstOccurs(RagSystemPrompt, Placeholder, contextText, |PromptHead|);
  }

  /** `messages.map(...)`: a message with an id is kept as it is; one
      without gets the fresh id at its position. */
  function WithIds(messages: seq<Message>, freshIds: seq<string>): (r: seq<Message>)
    requires |freshIds| == |messages|
    ensures |r| == |messages|
    ensures forall i :: 0 <= i < |r| ==>
      && r[i].id.Some?
      && r[i].role == messages[i].role
      && r[i].content == messages[i].content
      && (messages[i].id.Some? ==> r[i] == messages[i])
  {
    seq(|messages|, i requires 0 <= i < |messages| =>
      if messages[i].id.Some? then messages[i] else messages[i].(id := Some(freshIds[i])))
  }

  /** `[systemMessage, ...messagesWithIds]`. */
  function AssembleMessages(system: Message, messages: seq<Message>, freshIds: seq<string>): (r: seq<Message>)
    requires |freshIds| == |messages|
    ensures |r| == |messages| + 1 && r[0] == system && r[1..] == WithIds(messages, freshIds)
  {
    [system] + WithIds(messages, freshIds)
  }

  // ---------------------------------------------------------------------
  // The two entry points

  /** `getRelevantContext(queryText, filter)` at time `now`: the top five
      results for the query, and their formatted context after the
      truncation step as written. The context is unchanged when it is
      within budget; it is within budget afterwards only when the first
      chunk is (see `ContextTextOverBudget`). */
  method GetRelevantContext(store: VectorStore, queryText: string, filter: Option<Metadata>, now: int,
                            embed: string -> Embedding.Vector,
                            index: (Embedding.Vector, int, Option<Metadata>) -> seq<Match>)
    returns (documents: seq<SearchResult>, contextText: string)
    requires store.Valid()
    modifies store
    ensures store.Valid()
    ensures match Lookup(old(store.searchCache), queryText, now)
      case Some(i) => documents == old(store.searchCache)[i].results
      case None => documents == FormatMatches(index(embed(queryText), 5, filter))
    ensures store.mockVectorStore == old(store.mockVectorStore)
    ensures match Lookup(old(store.searchCache), queryText, now)
      case Some(_) =>
        && store.searchCache == old(store.searchCache)
        && store.queryEmbeddings == old(store.queryEmbeddings)
      case None =>
        && store.searchCache == CachePush(old(store.searchCache), CacheEntry(queryText, documents, now))
        && store.queryEmbeddings == old(store.queryEmbeddings) + 1
    ensures contextText == ContextText(FormatContext(documents))
    ensures EstimateTokenCount(FormatContext(documents)) <= MaxContextTokens ==>
              contextText == FormatContext(documents)
    ensures EstimateTokenCount(contextText) <= MaxContextTokens ==>
              contextText == BoundedContextText(FormatContext(documents))
  {
    documents := store.QueryVectorDB(queryText, 5, filter, now, embed, index);
    var text := FormatContext(documents);
    var chunkLimit := MaxContextTokens * CharsPerToken;
    if EstimateTokenCount(text) > MaxContextTokens {
      var chunks := Embedding.GenerateChunks(text, chunkLimit);
      contextText := if |chunks| > 0 then chunks[0] else "";
    } else {
      contextText := text;
    }
    BoundedContextTextFits(text);
  }

  /** The message list of `createRagOpenAIProvider`: the system message with
      the retrieved context, then the conversation with ids filled in. The
      retrieved documents and their context are returned as ghosts so that
      the contract can name them. */
  method CreateRagOpenAIProvider(store: VectorStore, queryText: string, messages: seq<Message>,
                                 filter: Option<Metadata>, now: int,
                                 embed: string -> Embedding.Vector,
                                 index: (Embedding.Vector, int, Option<Metadata>) -> seq<Match>,
                                 systemId: string, freshIds: seq<string>)
    returns (enhancedMessages: seq<Message>, ghost documents: seq<SearchResult>, ghost contextText: string)
    requires store.Valid()
    requires |freshIds| == |messages|
    modifies store
    ensures store.Valid()
    ensures match Lookup(old(store.searchCache), queryText, now)
      case Some(i) => documents == old(store.searchCache)[i].results
      case None => documents == FormatMatches(index(embed(queryText), 5, filter))
    ensures store.mockVectorStore == old(store.mockVectorStore)
    ensures match Lookup(old(store.searchCache), queryText, now)
      case Some(_) =>
        && store.searchCache == old(store.searchCache)
        && store.queryEmbeddings == old(store.queryEmbeddings)
      case None =>
        && store.searchCache == CachePush(old(store.searchCache), CacheEntry(queryText, documents, now))
        && store.queryEmbeddings == old(store.queryEmbeddings) + 1
    ensures contextText == ContextText(FormatContext(documents))
    ensures enhancedMessages == AssembleMessages(CreateRagSystemMessage(contextText, systemId), messages, freshIds)
  {
    var docs, text := GetRelevantContext(store, queryText, filter, now, embed, index);
    documents, contextText := docs, text;
    var systemMessage := CreateRagSystemMessage(text, systemId);
    enhancedMessages := AssembleMessages(systemMessage, messages, freshIds);
  }
}
