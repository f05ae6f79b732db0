# Personal knowledge assistant: a verified model of its core

This project models, in Dafny, the logic at the heart of a Next.js
personal-knowledge-management application:

- the retrieval helpers:
  - the sentence chunker and the embedding loop (`src/lib/ai/embedding.ts`);
  - the search cache and the mock vector store (`src/lib/ai/vectordb.ts`);
  - context assembly for retrieval-augmented chat (`src/lib/ai/rag.ts`);
- the per-IP rate limiter (`src/server/api/limiter.ts`);
- the route guard (`src/middleware.ts`);
- the NextAuth callbacks and the `authorize` decision (`src/server/auth/config.ts`);
- the settings API route (`src/app/api/settings/route.ts`) and the settings table (`src/server/db/settings.ts`);
- the chat tables with their ownership rules (`src/server/db/chat.ts`);
- the in-memory Supabase stand-in the database tests use (`tests/setup/mockSupabase.ts`);
- the search-filter updaters (`src/components/chat/SearchFilters.tsx`);
- the registration form checks (`src/app/auth/register/page.tsx`).

One Dafny module per source file:

| Dafny file | Module | Source file |
|---|---|---|
| `embedding.dfy` | `Embedding` | `embedding.ts` |
| `vectordb.dfy` | `VectorDb` | `vectordb.ts` |
| `rag.dfy` | `Rag` | `rag.ts` |
| `limiter.dfy` | `Limiter` | `limiter.ts` |
| `middleware.dfy` | `Middleware` | `middleware.ts` |
| `auth_config.dfy` | `AuthConfig` | `config.ts` |
| `settings_route.dfy` | `SettingsRoute` | `route.ts` |
| `settings_db.dfy` | `SettingsDb` | `settings.ts` |
| `chat_db.dfy` | `ChatDb` | `chat.ts` |
| `mock_supabase.dfy` | `MockSupabase` | `mockSupabase.ts` |
| `search_filters.dfy` | `SearchFiltersPanel` | `SearchFilters.tsx` |
| `register_form.dfy` | `RegisterForm` | `register/page.tsx` |

`wrappers.dfy` holds `Option` and `Result`. `strings.dfy` models the JavaScript string built-ins the code relies on: `trim`, `split`, `join`, `startsWith`, and `replace` with a string pattern.

How the source's state is modelled:

- **Module-level and in-memory state is a class.** The search cache and mock store, the rate-limit store, the settings and chat tables, the mock storage and a mock client's `lastData` are classes. Their methods update them in place. Each method's `ensures` ties the new state to a specification function of the old state, and the lemmas about those functions carry the properties.
- **Pure code is pure functions.** This covers the guard, the callbacks' decisions, context formatting, the filter updaters and the form checks.
- **Imperative code keeps its loops.** The chunker's packing loop, the embedding loop, the settings field filter, the cleanup pass and the cascade delete each stay a loop with its invariants.
- **Anything outside the code is a parameter.** This covers:
  - the clock (`Date.now()`) and fresh ids (`crypto.randomUUID()`, `uuidv4()`);
  - the embedder and the Pinecone index query;
  - the user lookup and password check of `authorize`;
  - the e-mail and UUID format checks;
  - which Supabase calls fail, and whether the error a failed call returns is an `Error` instance.

## Model

| member | source | states |
|---|---|---|
| Strings.TrimShape | src/lib/ai/embedding.ts:16-18 | `trim` gives the empty string exactly when the input is all whitespace; otherwise the result neither starts nor ends with whitespace |
| Strings.TrimSlice | src/lib/ai/embedding.ts:16-18 | `trim` removes only whitespace, and only from the two ends: the result is a contiguous slice of the input |
| Strings.TrimIdempotent | src/lib/ai/embedding.ts:16-18 | trimming twice is trimming once |
| Strings.Split | src/lib/ai/embedding.ts:17 | `split` on a character gives at least one piece, and no piece contains the separator |
| Strings.SplitJoin | src/lib/ai/embedding.ts:17 | joining the pieces of `split` with the separator gives back the input |
| Strings.SplitFirst | src/server/api/limiter.ts:28 | `split(sep)[0]` is the prefix of the input up to the first separator, or the whole input when there is none |
| Strings.IndexOfFrom | src/lib/ai/rag.ts:92 | finds the first occurrence of a pattern at or after a position, or reports that there is none |
| Strings.ReplaceFirstOccurs | src/lib/ai/rag.ts:92 | `replace` with a string pattern substitutes the first occurrence only, and leaves the text before and after it unchanged |
| Embedding.GenerateChunks | src/lib/ai/embedding.ts:10-44 | the sentence pipeline followed by the packing loop returns exactly `Chunks(input, maxChunkLength)`, with `maxChunkLength` 1000 when it is not given |
| Embedding.PackSentences | src/lib/ai/embedding.ts:22-43 | the packing loop, with its flush-or-append invariant, returns the concatenation of each greedy group |
| Embedding.SentencesWellFormed | src/lib/ai/embedding.ts:15-20 | every sentence is a non-empty, trimmed fragment without a period, followed by one period |
| Embedding.SentencesKeepContent | src/lib/ai/embedding.ts:15-20 | the sentences together hold exactly the input's non-whitespace, non-period characters, in order |
| Embedding.ChunksConcat | src/lib/ai/embedding.ts:26-41 | the chunks concatenated equal the sentences concatenated: nothing dropped, reordered or separated |
| Embedding.ChunksKeepContent | src/lib/ai/embedding.ts:10-44 | the chunks together hold exactly the input's non-whitespace, non-period characters, in order |
| Embedding.ChunksPacking | src/lib/ai/embedding.ts:27-35 | each chunk is a non-empty group of consecutive sentences; a chunk over the limit is a single sentence; the next chunk's first sentence would not have fitted into the previous chunk (greedy) |
| Embedding.GroupsShape | src/lib/ai/embedding.ts:26-36 | greedy grouping partitions the sentences in order into non-empty groups; every multi-sentence group fits the limit, and each group plus the next group's first sentence exceeds it |
| Embedding.ChunksCount | src/lib/ai/embedding.ts:26-41 | there are no more chunks than sentences, and at least one chunk when there is a sentence |
| Embedding.ChunksEndWithPeriod | src/lib/ai/embedding.ts:15-41 | every chunk is non-empty and ends with `.` |
| Embedding.ChunksEmpty | src/lib/ai/embedding.ts:15-43 | there are no chunks exactly when the input has only whitespace and periods |
| Embedding.OneSentenceChunk | src/lib/ai/embedding.ts:15-41 | an input without a period that is not blank becomes the single chunk "trimmed input + `.`", whatever the limit |
| Embedding.CreateEmbeddings | src/lib/ai/embedding.ts:76-87 | one embedding per chunk, in chunk order |
| Embedding.CheckDimensions | src/lib/ai/embedding.ts:99-101 | fails with "Embeddings must have the same dimensions" exactly when the lengths differ |
| VectorDb.FormatMatch | src/lib/ai/vectordb.ts:118-123 | a match becomes a result with the same id, the score or 0, the metadata or `{}`, and content taken from the metadata's `text` |
| VectorDb.FormatMatches | src/lib/ai/vectordb.ts:118-123 | one result per match, in match order, with the same ids |
| VectorDb.FindCached | src/lib/ai/vectordb.ts:88-92 | finds the first entry with exactly the query text and a timestamp later than `now - 300000`; expired entries are skipped, not removed |
| VectorDb.CachePushShape | src/lib/ai/vectordb.ts:126-135 | recording a miss appends one entry; the cache never exceeds 100 entries; when the push passes 100, the oldest 50 go and the rest keep their order |
| VectorDb.MissThenHit | src/lib/ai/vectordb.ts:88-135 | after a miss is recorded, the same query within five minutes hits and returns the recorded results |
| VectorDb.UpsertShape | src/lib/ai/vectordb.ts:178-194 | insert replaces the document with the same id where it stands, or appends; other documents are unchanged and ids stay unique |
| VectorDb.EnhancedMetadata | src/lib/ai/vectordb.ts:168-171 | the stored metadata is the given metadata with `text` set to the document text, overriding any earlier `text` |
| VectorDb.VectorStore.constructor | src/lib/ai/vectordb.ts:18-26 | both module-level arrays start empty |
| VectorDb.VectorStore.QueryVectorDB | src/lib/ai/vectordb.ts:81-142 | on a hit: the cached results, with no embedding and no change; on a miss: exactly one embedding, the formatted index matches, and the cache after `CachePush`. `topK` and the filter are not part of the key |
| VectorDb.VectorStore.ClearVectorSearchCache | src/lib/ai/vectordb.ts:147-149 | the cache is empty and nothing else changes |
| VectorDb.VectorStore.InsertDocument | src/lib/ai/vectordb.ts:158-196 | the mock store after the upsert of the embedded document with its enhanced metadata; returns an upserted count of 1 |
| VectorDb.SameSameDifferent | src/lib/ai/vectordb.ts:88-100 | the same query twice and then a different one embed exactly twice; the repeat returns the first answer |
| Rag.EstimateTokenCount | src/lib/ai/rag.ts:16-19 | the estimate is `ceil(length / 4)` |
| Rag.SourceLine | src/lib/ai/rag.ts:46-49 | "Source: " followed by the metadata's `source` when that is a string, else "Source: Unknown" |
| Rag.ContextOfDocuments | src/lib/ai/rag.ts:43-53 | the context is empty exactly when there are no documents; each document adds "\n" and its "---\n content \n source \n" block, in result order |
| Rag.BoundedContextTextFits | src/lib/ai/rag.ts:55-62 | the corrected truncation keeps a context within 4000 estimated tokens unchanged, always ends within budget, and is a prefix of the step as written |
| Rag.ContextTextOverBudget | src/lib/ai/rag.ts:55-62 | a context whose first sentence alone is longer than 16000 characters is still over 4000 tokens after the truncation as written |
| Rag.LongDocumentOverBudget | src/lib/ai/rag.ts:55-62 | any document with a string content of more than 16000 characters, no period and no source keeps the context over 4000 tokens after the truncation as written |
| Rag.SystemMessageCarriesContext | src/lib/ai/rag.ts:73-95 | the system message has the system role and the given id; its content is the template with the context text in place of the first occurrence of `{{context}}`, which it locates |
| Rag.WithIds | src/lib/ai/rag.ts:116-122 | every message ends up with an id and keeps its role and content; a message that had an id is unchanged |
| Rag.AssembleMessages | src/lib/ai/rag.ts:125 | the system message first, then the input messages in order: n + 1 messages |
| Rag.GetRelevantContext | src/lib/ai/rag.ts:35-68 | the documents are exactly what the search with `topK` 5 returns, from the cache or from the index; a hit leaves the store as it was, a miss pushes the new cache entry and counts one embedding, and the mock store never changes; the context is their formatted text after the truncation step as written, unchanged when within 4000 tokens, and agrees with the corrected step whenever it ends within budget |
| Rag.CreateRagOpenAIProvider | src/lib/ai/rag.ts:104-131 | the documents are the ones `getRelevantContext` retrieves, with the same effect on the search cache, and the context is their truncated formatted text; the messages are the system message built from that context, followed by the input messages with ids |
| Limiter.ClientKey | src/server/api/limiter.ts:27-28 | the key is the header text before the first comma, untrimmed, or "127.0.0.1" without the header |
| Limiter.CountShape | src/server/api/limiter.ts:33-42 | a missing or expired (`resetAt < now`, strictly) entry restarts at count 1 with `resetAt = now + 60000`; otherwise the count goes up by one and `resetAt` stays; other clients are untouched |
| Limiter.ReplayWithinWindow | src/server/api/limiter.ts:33-54 | within one window the k-th further request passes exactly when the count stays at or below 5 |
| Limiter.FiveThenRejected | src/server/api/limiter.ts:33-54 | from a fresh window, the first five requests pass and every later one in the window is rejected |
| Limiter.CleanupInvisible | src/server/api/limiter.ts:59-68 | cleaning up never changes how a later request is counted |
| Limiter.RateLimiter.constructor | src/server/api/limiter.ts:12 | the store starts empty |
| Limiter.RateLimiter.RateLimit | src/server/api/limiter.ts:25-55 | the store after counting the request; a 429 with the rate-limit message exactly when the count is over 5 |
| Limiter.RateLimiter.CleanupRateLimitStore | src/server/api/limiter.ts:59-68 | deletes exactly the entries with `resetAt < now` and leaves the others unchanged |
| Middleware.AuthPageNotProtected | src/middleware.ts:17-21 | no sign-in path is a protected path |
| Middleware.Decide | src/middleware.ts:14-41 | sign-in redirect with `callbackUrl` = pathname iff protected and signed out; redirect iff signed in on a sign-in page, to a non-empty `callbackUrl` other than "/auth/signin", else to "/dashboard"; otherwise proceed |
| Middleware.NoRedirectLoop | src/middleware.ts:24-41 | signed-out visitors are only ever sent to sign in; signed-in visitors never get the `ToSignIn` decision, and their redirect target is never the bare sign-in path; signed-out visitors of the sign-in page pass |
| Middleware.MatchedAuthPage | src/middleware.ts:46-54 | the only sign-in path the matcher selects is `/auth/signin` itself |
| Middleware.Guard | src/middleware.ts:5-54 | the guard runs only on matched paths: sign-in redirect iff the path is matched, protected and the visitor signed out; a redirect onward iff a signed-in visitor asks for `/auth/signin` |
| Middleware.MatchedShape | src/middleware.ts:18-54 | every matched path other than the sign-in page is protected except the chat API; signed-in visitors pass on all of them, and signed-out visitors are sent to sign in from all but the chat API |
| AuthConfig.Redirect | src/server/auth/config.ts:100-107 | the URL when it starts with "/" or with the base URL, else the base URL |
| AuthConfig.Jwt | src/server/auth/config.ts:84-90 | at sign-in, the token's `id` becomes the user's id; otherwise the token is unchanged |
| AuthConfig.SessionUserId | src/server/auth/config.ts:91-99 | the token's `id` if truthy, else its `sub` if truthy, else the session's existing id |
| AuthConfig.Session | src/server/auth/config.ts:91-99 | the session user's id after the callback is `SessionUserId` of the token and the old id |
| AuthConfig.SignInThenSession | src/server/auth/config.ts:84-99 | after sign-in, the session carries the signed-in user's id |
| AuthConfig.DisplayName | src/server/auth/config.ts:177 | the stored name, or the part of the e-mail before the first "@" |
| AuthConfig.Authorize | src/server/auth/config.ts:118-184 | null for malformed credentials; the fixed test user for the test credentials in test mode; otherwise a user exactly when the lookup finds a row and the password verifies, with the display-name rule |
| AuthConfig.TestUserOnlyInTestMode | src/server/auth/config.ts:135-146 | in test mode the test credentials succeed without consulting the user table; outside it they get no special treatment |
| SettingsRoute.Project | src/app/api/settings/route.ts:41-45 | a success response carries exactly the three sync flags of the row |
| SettingsRoute.FilterUpdates | src/app/api/settings/route.ts:73-85 | a key is copied only if it is an allowed field with a boolean value, with that value; every such key is copied |
| SettingsRoute.ToSettingsUpdate | src/app/api/settings/route.ts:88 | the update carries exactly the copied flags and no `settings_data` |
| SettingsRoute.Get | src/app/api/settings/route.ts:24-53 | 401 "Unauthorized" without a subject and no table change; else the flags of get-or-create, or 500 "Failed to fetch settings" |
| SettingsRoute.Put | src/app/api/settings/route.ts:56-103 | 401 without a subject; 500 "Failed to update settings" on an unreadable body or a failed update; otherwise the flags after updating with the filtered fields |
| SettingsRoute.PutChangesOnlyBooleanFlags | src/app/api/settings/route.ts:73-88 | a PUT leaves `settings_data`, the user and every flag the body does not give as a boolean unchanged |
| SettingsDb.CreatedFrom | src/server/db/settings.ts:88-96 | a row created on update takes the given values; absent flags default to true and `settings_data` to `{}` |
| SettingsDb.Apply | src/server/db/settings.ts:99-105 | an update overwrites exactly the given fields of the row |
| SettingsDb.GetSettingsCases | src/server/db/settings.ts:22-46 | the not-found code, or no row, reads as no settings; a row as itself; any other error as "Failed to fetch user settings: " followed by its message when it is an `Error`, or by "Unknown error" when it is not |
| SettingsDb.GetOrCreateExisting | src/server/db/settings.ts:127-131 | an existing row is returned unchanged and the table is untouched |
| SettingsDb.GetOrCreateMissing | src/server/db/settings.ts:133-140 | a missing user gets a row with all three flags true and empty `settings_data` |
| SettingsDb.GetOrCreateIdempotent | src/server/db/settings.ts:122-144 | a second get-or-create returns the same row and changes nothing |
| SettingsDb.UpdateMissing | src/server/db/settings.ts:86-96 | updating a missing user creates the row from the given values and the defaults |
| SettingsDb.UpdateExisting | src/server/db/settings.ts:99-111 | updating an existing user rewrites that user's row only, with the given fields |
| SettingsDb.UpdateStaysWithTheUser | src/server/db/settings.ts:77-115 | an update touches no other user's row; a failure changes nothing and reads "Failed to update user settings: …" |
| SettingsDb.GetOrCreateStaysWithTheUser | src/server/db/settings.ts:122-144 | get-or-create touches no other user's row; a failure changes nothing and reads "Failed to get or create user settings: …" |
| SettingsDb.SettingsTable.GetUserSettings | src/server/db/settings.ts:22-46 | returns what `GetSpec` gives for the table |
| SettingsDb.SettingsTable.CreateUserSettings | src/server/db/settings.ts:51-72 | result and new table as `CreateSpec`: a non-UUID user id is refused; a failed insert changes nothing |
| SettingsDb.SettingsTable.UpdateUserSettings | src/server/db/settings.ts:77-115 | result and new table as `UpdateSpec` |
| SettingsDb.SettingsTable.GetOrCreateUserSettings | src/server/db/settings.ts:122-144 | result and new table as `GetOrCreateSpec` |
| ChatDb.ApplySession | src/server/db/chat.ts:118-122 | a session update overwrites exactly the given title, favourite flag and metadata, keeps id and owner, and refreshes `updated_at` |
| ChatDb.ApplyMessage | src/server/db/chat.ts:282-285 | a message update overwrites exactly the given content and metadata |
| ChatDb.ChatStore.GetChatSessions | src/server/db/chat.ts:27-43 | exactly the sessions whose `user_id` is the user's |
| ChatDb.ChatStore.GetChatSessionById | src/server/db/chat.ts:46-80 | the session iff it exists and belongs to the user; otherwise null |
| ChatDb.ChatStore.GetMessageById | src/server/db/chat.ts:232-256 | the message's session id iff the message exists |
| ChatDb.ChatStore.GetChatMessages | src/server/db/chat.ts:170-195 | fails with the unwrapped "Chat session not found or access denied" iff the user does not own the session; otherwise exactly that session's messages |
| ChatDb.ChatStore.MessageAccess | src/server/db/chat.ts:269-279 | no refusal iff the message exists and its session is the user's; "Message not found" first, then the access error |
| ChatDb.ChatStore.CreateChatSession | src/server/db/chat.ts:83-104 | the new session with a fresh id, favourite false and metadata `{}` unless given; nothing else changes |
| ChatDb.ChatStore.UpdateChatSession | src/server/db/chat.ts:107-143 | only the owner's session changes; a stranger's session is unchanged but still read back by id; a missing one fails as "Failed to update chat session: " followed by PostgREST's no-rows message when the client hands it over as an `Error`, or by "Unknown error" when it does not |
| ChatDb.ChatStore.DeleteChatSession | src/server/db/chat.ts:146-163 | removes the session iff the user owns it; never fails |
| ChatDb.ChatStore.CreateChatMessage | src/server/db/chat.ts:198-229 | refused, unwrapped and without change, unless the user owns the session; otherwise stores the message and touches the session's `updated_at` |
| ChatDb.ChatStore.UpdateChatMessage | src/server/db/chat.ts:259-306 | "Failed to update chat message: …" with no change unless the message exists and is the user's; otherwise only that message changes |
| ChatDb.ChatStore.DeleteChatMessage | src/server/db/chat.ts:309-338 | "Failed to delete chat message: …" with no change unless the message exists and is the user's; otherwise only that message goes |
| ChatDb.StrangerIsRefused | src/server/db/chat.ts:170-338 | another user can neither read, add to, edit nor delete a session's messages, and the tables keep every row |
| MockSupabase.KeyIndex | tests/setup/mockSupabase.ts:31-37 | the first position of a key in a dictionary, or none when the key is absent |
| MockSupabase.Put | tests/setup/mockSupabase.ts:221 | assigning a key replaces its pair in place or appends; the other pairs stay; keys stay distinct; the key then reads the new value |
| MockSupabase.PutOthers | tests/setup/mockSupabase.ts:268 | assigning one key changes what no other key reads |
| MockSupabase.Remove | tests/setup/mockSupabase.ts:296 | `delete` takes out the key and keeps every other pair; keys stay distinct |
| MockSupabase.ErrorObject | tests/setup/mockSupabase.ts:125-133 | an error with the given message and code PGRST116 |
| MockSupabase.FindSession | tests/setup/mockSupabase.ts:155-158 | `find` gives the first session meeting every condition, and none exactly when no session does |
| MockSupabase.SelectById | tests/setup/mockSupabase.ts:152-162 | selecting a session by `id` finds exactly the row stored under that key |
| MockSupabase.MessagesWhere | tests/setup/mockSupabase.ts:165-170 | `filter` keeps exactly the messages whose column equals the value |
| MockSupabase.DropSessionMembers | tests/setup/mockSupabase.ts:296-304 | the cascade keeps exactly the messages of other sessions |
| MockSupabase.DropSessionAppend | tests/setup/mockSupabase.ts:296-304 | the cascade works pair by pair, so the kept messages stay in order |
| MockSupabase.CascadeDrops | tests/setup/mockSupabase.ts:299-302 | a `forEach` step on a message of the session: deleting its key, which no other pair has, leaves exactly the cascade one message further on |
| MockSupabase.CascadeKeeps | tests/setup/mockSupabase.ts:299-302 | a `forEach` step on a message of another session changes nothing, which is again the cascade one message further on |
| MockSupabase.SetupTestEnv | tests/setup/mockSupabase.ts:43-54 | both dictionaries are empty |
| MockSupabase.Patched | tests/setup/mockSupabase.ts:261-267 | the spread keeps unspecified fields, overlays the given ones, and sets `updated_at`, `id` and `user_id` |
| MockSupabase.MockClient.SelectSingle | tests/setup/mockSupabase.ts:144-151 | returns the last written row once, then resets it; with none, `{data: null}` |
| MockSupabase.MockClient.SelectEqSingle | tests/setup/mockSupabase.ts:152-179 | sessions: the first stored row with the column equal to the value, null exactly when there is none; messages: the stored messages filtered on the column, possibly none; other tables: null; never an error |
| MockSupabase.MockClient.SelectEqEqSingle | tests/setup/mockSupabase.ts:183-203 | the first stored session meeting both conditions, null only when no session does; other tables: null; never an error |
| MockSupabase.MockClient.Insert | tests/setup/mockSupabase.ts:206-247 | stores under the given id or a fresh one. Sessions default `user_id` and `title` to "", `is_favorite` false, metadata `{}`; messages default `session_id` and `content` to "" and `role` to "user". Another table stores nothing and keeps `lastData` |
| MockSupabase.MockClient.Update | tests/setup/mockSupabase.ts:248-285 | succeeds only for a `chat_sessions` update by `id` and `user_id` of an existing, owner-matched session; otherwise "Record not found" and no change |
| MockSupabase.MockClient.Delete | tests/setup/mockSupabase.ts:286-313 | an owner-matched delete removes the session and every message of it; anything else is a no-op; the reply is always empty |
| SearchFiltersPanel.DateInput | src/components/chat/SearchFilters.tsx:37 | an empty date input is stored as null, any other value verbatim |
| SearchFiltersPanel.SetStartDate | src/components/chat/SearchFilters.tsx:32-40 | sets only the start date |
| SearchFiltersPanel.SetEndDate | src/components/chat/SearchFilters.tsx:42-50 | sets only the end date |
| SearchFiltersPanel.Without | src/components/chat/SearchFilters.tsx:57 | removes every occurrence of the category and keeps the others with their counts |
| SearchFiltersPanel.WithoutAppend | src/components/chat/SearchFilters.tsx:57 | the filter distributes over concatenation, so the order of the kept categories is preserved |
| SearchFiltersPanel.ChangeCategory | src/components/chat/SearchFilters.tsx:52-59 | checking appends, even a duplicate; unchecking removes every copy; dates and scope are unchanged |
| SearchFiltersPanel.CheckThenUncheck | src/components/chat/SearchFilters.tsx:52-59 | checking then unchecking a category removes all its copies, and restores the filters when it was absent |
| SearchFiltersPanel.ChangeScope | src/components/chat/SearchFilters.tsx:61-66 | sets only the scope |
| SearchFiltersPanel.Apply | src/components/chat/SearchFilters.tsx:68-71 | passes the edited filters unchanged to `onChange` and closes the dialog |
| SearchFiltersPanel.Reset | src/components/chat/SearchFilters.tsx:73-81 | null dates, no categories and scope "all", both kept and passed to `onChange` |
| RegisterForm.Validate | src/app/auth/register/page.tsx:27-50 | "All fields are required" iff a required field is empty; then "Passwords do not match"; then "Password must be at least 8 characters"; `{email, password, name}` is posted iff all pass |
| RegisterForm.NameNeverValidated | src/app/auth/register/page.tsx:22-40 | the name never affects the verdict and is posted as given |
| RegisterForm.MismatchBeforeLength | src/app/auth/register/page.tsx:32-40 | with every field filled in, differing passwords report the mismatch whatever their length; matching passwords shorter than 8 report the length |

## Left out

- Embedding.CreateEmbeddings: the embedder is a parameter. The random 1536-dimension vector of `createEmbedding` is not modelled, and neither are its log line or rethrow.
- Embedding.CheckDimensions: only the dimension check of `calculateSimilarity` is modelled. The cosine arithmetic is floating point with `Math.sqrt`.
- VectorDb.VectorStore.QueryVectorDB: the Pinecone client and index are foreign network calls. The index query is a parameter that returns the matches. Errors it throws, and the log lines, are not modelled.
- VectorDb.VectorStore.QueryVectorDB: `Date.now()` is read twice in the source, once for the lookup and once for the new entry. The model uses one `now` for both.
- VectorDb.VectorStore.InsertDocument: the production Pinecone upsert branch is unreachable while `isDevMode` returns true, so only the mock-store branch is modelled.
- `getPineconeClient` and `getPineconeIndex` are client construction around a foreign library.
- Metadata values other than strings are kept only as their shown text (`Value.Other`). The cast `match.metadata?.text as string` is modelled as taking `text` whatever its type.
- Rag.CreateRagSystemMessage: `replace` is modelled as plain first-occurrence substitution. The special `$` patterns of `String.prototype.replace` in the replacement text are not modelled. The message id is a parameter.
- Rag.GetRelevantContext: the context is not promised to fit in 4000 estimated tokens, because the truncation as written does not always achieve that (see Findings). The contract promises the budget only where the step as written meets it.
- Rag.CreateRagOpenAIProvider: `createOpenAIProvider` is not defined in the provider module, so the provider itself is not part of this model. Only the assembled messages are.
- `Message` models only role, content and id. Other fields of a chat message are not carried. The source keeps a message whenever it has an `id` key (`"id" in msg`), even one whose value is `undefined`. The model has no such state, so an absent id always gets a fresh one.
- Lengths are counted in characters, whereas JavaScript counts UTF-16 code units. This affects the chunk limit, the token estimate and the password length for characters outside the Basic Multilingual Plane.
- Limiter.RateLimiter.RateLimit: a key that names an `Object.prototype` member (`constructor`, `toString`, `valueOf`, `__proto__`, …) finds an inherited value in the plain-object store. The source then never resets that entry, its count becomes `NaN`, and the key is never limited. The model limits every key alike.
- Limiter: the `setInterval` timer that runs the cleanup every minute is scheduling, not logic. The cleanup is a method that takes `now`.
- Limiter.RateLimiter.CleanupRateLimitStore: the loop visits the keys in an arbitrary order rather than `Object.keys` order. The result does not depend on the order.
- Middleware.Guard: the matcher is modelled as plain path prefixes. Next.js's own path matching (trailing slashes, locales, `_next` data routes) is not modelled.
- Middleware.Decide: a redirect target is kept as the `callbackUrl` string. `new URL(callbackUrl, nextUrl.origin)` can resolve it to another origin (an absolute or protocol-relative URL), and that resolution is not modelled.
- Middleware.NoRedirectLoop: only the bare `/auth/signin` is kept out of redirect targets. A `callbackUrl` such as `/auth/signin?x=1` sends a signed-in visitor back to the sign-in page, which then sends them on to the dashboard.
- AuthConfig.Authorize: the e-mail format check, the user lookup and the password verification are parameters. PBKDF2 hashing is a cryptographic foreign call, and Zod's e-mail format is library code.
- The NextAuth configuration other than the callbacks is not modelled: providers, pages, session strategy and the `getToken` cookie handling.
- SettingsDb: the `InvalidUuid` message stands for the error Zod raises for a `user_id` that is not a UUID. Zod's full error text (a JSON list of issues) is not modelled.
- SettingsDb: `settings_data` values are modelled as text. The row's generated `id` and its timestamps are not modelled.
- ChatDb: input validation by the Zod schemas is not modelled; inputs are taken as valid. Transport failures of the Supabase calls are not modelled either, so the only failures are the ones the code itself raises.
- ChatDb: the `chat_sessions` table is assumed to refresh `updated_at` on every update of a row. The empty update in `createChatMessage` relies on this to mark the session as touched, but no trigger doing so appears in the code.
- ChatDb.ChatStore.GetChatSessions: returns a set. The newest-first order of the query is not modelled.
- ChatDb.ChatStore.GetChatMessages: returns a set. The ascending `created_at` order of the query is not modelled.
- ChatDb.ChatStore.DeleteChatSession: the messages of a deleted session are left in place. Whether the database cascades the delete is not visible in the code.
- MockSupabase: the environment variables `setupTestEnv` sets, the `console.log` lines and the deep clone (`JSON.parse(JSON.stringify(...))`) are not modelled. Rows are values, so a clone is the row itself.
- MockSupabase: insert payloads are modelled as their string fields. Update payloads are modelled as the session fields a spread can overwrite; extra keys a spread would add to the stored object are not carried. `order()`, which always returns an empty list, is not modelled.
- MockSupabase: JavaScript orders integer-like keys before the other keys of an object. Keys are modelled in plain insertion order, which matches for UUIDs and other non-numeric ids.
- SearchFiltersPanel: React state, rendering and the dialog component are not modelled. Only the updater values, the open flag and what reaches `onChange` are.
- RegisterForm: the request, the response handling (`data.error ?? "Registration failed"`), the redirect and the loading flag are not modelled. They are I/O around the checks.

## Findings

| source | as written | input that shows it | evidently intended | confidence | as-written member | corrected member |
|---|---|---|---|---|---|---|
| src/lib/ai/rag.ts:58-62 | when the context is over 4000 estimated tokens, it is replaced by the first chunk of `generateChunks(contextText, 16000)`; that chunk can itself be longer than 16000 characters, because an oversized sentence is kept whole | one search result whose content is 16001 `a` characters and no period: the context and its first chunk are both estimated at more than 4000 tokens | the truncated context fits in `MAX_CONTEXT_TOKENS` | not executed | Rag.ContextTextOverBudget | Rag.BoundedContextTextFits |

`Rag.ContextText` is the truncation step as written, and `Rag.GetRelevantContext` and `Rag.CreateRagOpenAIProvider` use it, as the source does. `Rag.BoundedContextText` is the corrected step: it also cuts the first chunk to 16000 characters. `Rag.BoundedContextTextFits` proves that it always meets the budget and that it agrees with the step as written whenever that one does.
