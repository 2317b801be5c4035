# Hindu-agent WhatsApp assistant: a Dafny model of its core

The assistant answers WhatsApp questions about Hindu scripture. Its orchestrator runs several agents:

- a retrieval agent over a vector index of scripture passages;
- a conversation-memory agent over a database;
- a web-search agent;
- a Gemini agent.

The orchestrator collects the agents' results and routes the successful ones into four slots. A language model then verifies a combined answer. The orchestrator falls back to a fixed chain when verification fails and chops the final reply into at most six chat messages. It also extracts scripture citations from the answer and logs the exchange. Outbound messages are split to fit the transport's length limit. Two loader scripts fill the vector index from a Bhagavad Gita JSON file and from plain-text books.

This project models that logic. Every backend, and the orchestrator's calls into its agents, is a parameter of the model that stands in for it:

- the language model, the embedding service and the vector index;
- the search service and the message transport;
- the failure of each database call, one flag per call.

What remains is deterministic logic over strings, lists and small records, written in the form the code has:

- loops become methods with invariants, proved against specification functions;
- objects whose fields are updated in place become classes;
- the rest are functions and lemmas.

Modules, one per source file, plus shared helpers:

| module | models |
|---|---|
| `Wrappers`, `Text`, `Json` | Option/Result; the ASCII string operations the code uses (`strip`, `lower`, `capitalize`, `title`, `split`, `join`, `in`, `int()`); JSON-like values |
| `Batching`, `Gather` | stepped `range(0, n, size)` batching and the try/skip and raise/stop loops that the loaders use |
| `BaseAgent` | `BaseAgent.execute` and `get_metrics` (class `Agent`) |
| `GeminiAgent` | the confidence heuristic, the prompt builder and `process` |
| `WebSearchAgent` | query enhancement, result assembly, formatting, sources, confidence |
| `RagAgent` | the score filter, the confidence, the passage formatting and the scripture lookup filter |
| `ContextAgent` | the conversation store (class `ConversationStore`): `save_message`, history retrieval, formatting, recent topics |
| `Orchestrator` | agent dispatch, fan-in, slot routing, fallback, chunking, citation extraction, `process_query`, `quick_response` |
| `TwilioService` | `_split_message` and `send_messages` (class `Sender`) |
| `VoiceService` | `_get_audio_extension` |
| `LoadDataFixed` | `scripts/load_data_fixed.py`: txt paragraphs, ids, embeddings, batched upload (class `DataLoader`) |
| `LoadData` | `scripts/load_data.py`: Gita flattening, ids, truncation, embeddings, batched upload, file ordering (class `DataLoader`) |

## Model

| member | source | states |
|---|---|---|
| BaseAgent.Normalise | agents/base_agent.py:55-82 | A failed `process` gives a record with success false, response "", confidence 0, no sources, no metadata and the exception text as error. A success gives success true, error None, and each missing key replaced by "", 50, [] or {}. The confidence is not clamped. The agent field is always the agent's name. |
| BaseAgent.ConfidenceNotClamped | agents/base_agent.py:59 | A returned confidence of 150 is passed through unchanged. |
| BaseAgent.Agent.constructor | agents/base_agent.py:15-19 | A new agent has no response time, success false and no error. |
| BaseAgent.Agent.Execute | agents/base_agent.py:39-82 | Always returns the normalised record of `process` run on the context, with a missing context replaced by the empty one. Afterwards the success field matches the record and the response time is set. The error field is set only on failure and is kept across a later success. |
| BaseAgent.Agent.Metrics | agents/base_agent.py:84-90 | Reports exactly the name, time, success and error fields left by the last `execute`. |
| GeminiAgent.CountPresent | agents/gemini_agent.py:127-137 | The number of listed phrases present never exceeds the list's length. |
| GeminiAgent.Clamp | agents/gemini_agent.py:140 | The result is in [0,100], and a value already in range is unchanged. |
| GeminiAgent.EstimateConfidence | agents/gemini_agent.py:113-142 | The accumulator loop computes clamp(70 - 10·U + 10·D), where U and D count the distinct listed phrases in the lower-cased response. The result is in [0,100]. |
| GeminiAgent.ScoreDependsOnlyOnPresence | agents/gemini_agent.py:127-137 | Two responses containing the same listed phrases score the same, however often each phrase occurs. |
| GeminiAgent.NeutralScore | agents/gemini_agent.py:119-140 | A response with none of the listed phrases scores exactly 70. |
| GeminiAgent.LastFive | agents/gemini_agent.py:100 | Gives the last min(5, n) entries of the history. |
| GeminiAgent.BuildPrompt | agents/gemini_agent.py:78-111 | The append loop produces the newline-joined preamble, then the optional history block, then the closing lines. |
| GeminiAgent.HistoryBlockShape | agents/gemini_agent.py:96-104 | The history block appears exactly when a non-empty history is present. It is the header, then the last min(5, n) entries rendered as "Role: content" in order (role capitalised, defaulting to "user"), then a blank line. |
| GeminiAgent.PromptEndsWithQuery | agents/gemini_agent.py:107-111 | Every prompt ends with "User: <query>", a blank line and "Assistant:". |
| GeminiAgent.Process | agents/gemini_agent.py:38-76 | A generation error is re-raised. An empty text raises "Empty response from Gemini". Otherwise the result is the stripped text, its confidence (in [0,100]) and the source "Gemini AI". |
| WebSearchAgent.EnhanceQuery | agents/web_search_agent.py:72-91 | Appends " hinduism" exactly when none of the eleven keywords occurs in the lower-cased query; otherwise the query is unchanged. |
| WebSearchAgent.EnhanceQueryIdempotent | agents/web_search_agent.py:80-89 | Enhancing an enhanced query changes nothing. |
| WebSearchAgent.Results | agents/web_search_agent.py:117-144 | A failed request gives []. Otherwise the result is the organic items in order, with the knowledge-graph item inserted at index 0 when present. |
| WebSearchAgent.AssembleResults | agents/web_search_agent.py:117-144 | The append/insert loop builds exactly `Results`. |
| WebSearchAgent.FormatText | agents/web_search_agent.py:146-159 | Empty input gives "No results found.". Otherwise the text is min(5, n) entries numbered from 1, "rank. title\nsnippet", joined by blank lines. |
| WebSearchAgent.FormatResults | agents/web_search_agent.py:146-159 | The loop produces exactly `FormatText`. |
| WebSearchAgent.LinksComeFromResults | agents/web_search_agent.py:161-170 | Every extracted link is the link of some result. |
| WebSearchAgent.LinksComplete | agents/web_search_agent.py:161-170 | Every non-empty link among the results is extracted. |
| WebSearchAgent.ExtractSources | agents/web_search_agent.py:161-170 | The sources are the non-empty links of the first five results, in rank order, so there are at most five. |
| WebSearchAgent.CountConfidence | agents/web_search_agent.py:59 | min(20·n, 100): in [0,100], 20·n up to five results, and 100 from five on. |
| WebSearchAgent.Process | agents/web_search_agent.py:29-70 | Never fails. No results gives the fixed "No web results found for this query." with confidence 0 and no sources. Otherwise the result is the formatted text, the links of the first five results and the count-based confidence, all for the enhanced query. |
| WebSearchAgent.SiteQuery | agents/web_search_agent.py:189-192 | Prefixes "site:<site> " exactly when a non-empty site is given. |
| WebSearchAgent.SearchSpecific | agents/web_search_agent.py:172-201 | The search runs on the site query and returns the formatted text, the count confidence and the links. |
| WebSearchAgent.DateRangeIgnored | agents/web_search_agent.py:172-201 | The date range never changes the outcome. |
| RagAgent.Above | agents/rag_agent.py:65-66 | Every kept match has a score strictly above 0.7. |
| RagAgent.AboveExactly | agents/rag_agent.py:65-79 | A match is kept exactly when it is among the matches and scores above 0.7. |
| RagAgent.AboveAppend | agents/rag_agent.py:65-79 | The filter keeps order: filtering a concatenation concatenates the filtered parts. |
| RagAgent.FilterMatches | agents/rag_agent.py:65-79 | The loop gives passages and sources of equal length, one per kept match in order. A missing source is "Unknown" among the sources but "" in the passage. |
| RagAgent.Percent | agents/rag_agent.py:84 | `int(score * 100)` truncates: c <= 100·score < c + 1. |
| RagAgent.PercentAboveThreshold | agents/rag_agent.py:66-84 | A kept passage's confidence is at least 70. |
| RagAgent.FormatResponse | agents/rag_agent.py:99-109 | The loop renders each passage as "source:\ntext" and joins them, in order, with blank lines. |
| RagAgent.FormatPassagesAppend | agents/rag_agent.py:99-109 | Formatting two non-empty runs of passages is the two texts separated by a blank line. |
| RagAgent.PassagesJson | agents/rag_agent.py:89-96 | The passages list has one entry per kept passage, in order. Each entry is an object whose text, source, book, chapter, verse and score are that passage's. |
| RagAgent.PassageJsonFields | agents/rag_agent.py:89-96 | A passage's entry reads back its text, source, book, chapter, verse and score. |
| RagAgent.Process | agents/rag_agent.py:34-97 | Embedding and search errors propagate. Otherwise the sources follow the kept matches, num_passages counts them, and the metadata's passages are their entries. Nothing kept gives the fixed "No relevant scripture passages found for this query." with confidence 0. Otherwise the formatted passages are returned with confidence `int(first score × 100)`, which is at least 70. |
| RagAgent.BuildFilter | agents/rag_agent.py:129-135 | The filter always holds the book, and holds the chapter and the verse each exactly when given. |
| RagAgent.LookupResult | agents/rag_agent.py:137-157 | No match gives found false. Otherwise the result is the first match's fields, with a missing text, source or book replaced by "". |
| RagAgent.SearchSpecificScripture | agents/rag_agent.py:111-157 | The lookup uses the built filter. It always holds `{"$eq": book}`. It holds `{"$eq": chapter}` and `{"$eq": verse}` for the values given, and leaves out exactly the ones not given. The result is the lookup's report of the first match. |
| ContextAgent.FindUser | agents/context_agent.py:86-94 | Finds the user with the given subscriber id, or reports that none exists. |
| ContextAgent.FindUserUnique | agents/context_agent.py:86-94 | With unique ids, lookup returns the only user with that id. |
| ContextAgent.FindActive | agents/context_agent.py:196-202 | Finds an active conversation of the user, or reports that none exists. |
| ContextAgent.HistoryOf | agents/context_agent.py:68-121 | An unknown user has an empty history. Otherwise the history is the user's newest `limit` messages, oldest first. |
| ContextAgent.HistoryEndsWithNewest | agents/context_agent.py:96-117 | A message just appended for the user is the last item of their history. |
| ContextAgent.ScanNewest | agents/context_agent.py:96-101 | The query loop yields the user's newest `limit` messages, newest first. |
| ContextAgent.ReverseReverse | agents/context_agent.py:104 | Reversing twice restores the order, so the in-place reverse turns newest-first into oldest-first. |
| ContextAgent.OldestFirst | agents/context_agent.py:104-117 | The reverse-and-copy loop lists the items oldest first. |
| ContextAgent.FormatHistoryText | agents/context_agent.py:145-157 | Empty history gives "No previous conversation.". Otherwise there is one "Role: content" line per message, in order, joined by newlines. |
| ContextAgent.FormatHistory | agents/context_agent.py:145-157 | The append loop produces exactly `FormatHistoryText`. |
| ContextAgent.TopicListExactly | agents/context_agent.py:257-270 | A topic is collected exactly when some conversation of the user, active since the cut-off, lists it. |
| ContextAgent.RecentTopics | agents/context_agent.py:235-273 | An unknown user has no topics. Otherwise the result is the de-duplicated topics of the user's conversations whose last message is within the window. |
| ContextAgent.UserInfo | agents/context_agent.py:123-143 | An unknown user gives {}. Otherwise the result has exactly four keys: the user's name (null when unset), timezone, language and last interaction. |
| ContextAgent.SaveKeepsValid | agents/context_agent.py:185-226 | A save keeps the store's invariants: subscriber ids stay unique and each user has at most one active conversation. Every message stays linked to a conversation of its user, and every conversation's message count equals its number of messages. |
| ContextAgent.AfterSave | agents/context_agent.py:185-226 | A save that reaches the database appends exactly one message with the given role, content, type, agents and citations, stamped with the time. The message belongs to the user holding the subscriber id, whose last interaction is that time. A user row is added only when the id is new. |
| ContextAgent.AfterSaveValid | agents/context_agent.py:185-226 | A save that reaches the database keeps the store valid. |
| ContextAgent.ConversationStore.constructor | agents/context_agent.py:21-23 | A new store is empty and valid. |
| ContextAgent.ConversationStore.SaveMessage | agents/context_agent.py:159-233 | A database failure returns false and changes nothing. Otherwise the call returns true and the new store is `AfterSave` of the old one. The user is created only if missing, or has its last interaction stamped. An active conversation is created only if none exists; that conversation's count goes up by exactly 1. Exactly one message is appended. The store stays valid. |
| ContextAgent.ConversationStore.GetConversationHistory | agents/context_agent.py:68-121 | A failure gives []. Otherwise the result is the user's history with `limit` defaulting to 15. |
| ContextAgent.ConversationStore.Process | agents/context_agent.py:25-66 | With no subscriber, the result is "No conversation history available." with confidence 0. Otherwise the result is the formatted history, with confidence 90 exactly when the history is non-empty (else 0), the source "Conversation History", and metadata of exactly three keys: num_messages (the history length), user_info (`UserInfo`, or {} when the database fails) and history (the history's records). |
| ContextAgent.ConversationStore.GetRecentTopics | agents/context_agent.py:235-273 | A failure gives no topics. Otherwise the result is the recent topics since now − days. |
| Orchestrator.Dispatched | agents/orchestrator.py:136-145 | Quick mode dispatches RAG and Context, in that order. Full mode dispatches RAG, Context, Web and Gemini. |
| Orchestrator.DispatchModes | agents/orchestrator.py:136-145 | Quick mode is the first two agents of full mode. Full mode runs every agent exactly once. |
| Orchestrator.SurvivorsInOrder | agents/orchestrator.py:148-158 | Fan-in keeps exactly the results that returned, in dispatch order. |
| Orchestrator.SurvivorsAllReturned | agents/orchestrator.py:148-158 | When no agent raised, fan-in keeps every record. |
| Orchestrator.FanIn | agents/orchestrator.py:148-158 | The filter loop returns the surviving records. |
| Orchestrator.SlotOf | agents/orchestrator.py:178-188 | "RAG", "Web", "Gemini" and "Context" are tested in that order, and the first substring hit picks the slot. |
| Orchestrator.RouteIsLastFeeder | agents/orchestrator.py:174-188 | A slot holds the response of the last successful result routed to it, or "" when there is none. |
| Orchestrator.RouteSlot | agents/orchestrator.py:174-188 | A slot is "" when nothing feeds it. Otherwise it holds the response of a feeding result after which none feeds it. |
| Orchestrator.AgentRoutesHome | agents/orchestrator.py:174-188 | Each agent's own name routes to its own slot. |
| Orchestrator.RouteResponses | agents/orchestrator.py:169-188 | The slot-reassigning loop gives exactly the routed slots. |
| Orchestrator.Fallback | agents/orchestrator.py:212-220 | The answer is never empty. It is the Gemini slot if non-empty. Otherwise it is the RAG slot if that is non-empty and lacks "No relevant scripture". Otherwise it is the fixed apology. |
| Orchestrator.FallbackSkipsEmptyScripture | agents/orchestrator.py:212-220 | The retrieval agent's own "nothing found" text never becomes the answer. |
| Orchestrator.Verified | agents/orchestrator.py:160-220 | A non-empty verifier reply is the answer, stripped. A failed or empty reply gives the fallback. |
| Orchestrator.NonEmptyExactly | agents/orchestrator.py:236-240 | A piece survives the empty-piece filter exactly when it is non-empty and present. |
| Orchestrator.KeptExactly | agents/orchestrator.py:236-240 | The kept messages are exactly the non-empty stripped pieces. |
| Orchestrator.Messages | agents/orchestrator.py:236-253 | Always 1 to 6 messages. A failed or empty reply gives [answer]. Otherwise the result is exactly the first min(6, n) non-empty stripped pieces split on "\|\|\|", or [answer] when none is left. |
| Orchestrator.MessagesCapped | agents/orchestrator.py:238-241 | With more than 6 pieces kept, the messages are exactly the first 6. |
| Orchestrator.MessagesFallBack | agents/orchestrator.py:238-244 | When no piece is kept, the messages are just the verified answer. |
| Orchestrator.SingleMessage | agents/orchestrator.py:236-253 | A non-blank reply without "\|\|\|" gives exactly one message, the stripped reply. |
| Orchestrator.MessagesAreKept | agents/orchestrator.py:236-253 | With 1 to 6 pieces kept, the messages are exactly those pieces. |
| Orchestrator.Conversational | agents/orchestrator.py:222-253 | The conversational step always returns between 1 and 6 messages. |
| Orchestrator.MatchAt | agents/orchestrator.py:264-285 | A citation match found at a position lies within the text, past that position, with the book before the numbers. |
| Orchestrator.HitsFrom | agents/orchestrator.py:264-285 | The scanner's matches lie within the text from the scan start. |
| Orchestrator.CitationsWellFormed | agents/orchestrator.py:264-285 | Every citation's book is comma-free, and its source is rebuilt from the parsed book, chapter and verse. |
| Orchestrator.ExtractCitations | agents/orchestrator.py:264-285 | The left-to-right scanning loop yields exactly the non-overlapping case-insensitive matches, in order. |
| Orchestrator.CitationRoundTrip | agents/orchestrator.py:264-285 | The citation line written for a book, chapter and verse is read back as exactly that one citation. |
| Orchestrator.CitationTwice | agents/orchestrator.py:264-285 | A citation repeated twice is reported twice (no de-duplication). |
| Orchestrator.AgentsUsedExactly | agents/orchestrator.py:110-116 | A name is listed exactly when some successful result carries it. |
| Orchestrator.AgentsUsedAppend | agents/orchestrator.py:110-116 | The names of two runs of results, one after the other, are the names of the first followed by those of the second: order and repeats are kept. |
| Orchestrator.AgentsUsedOne | agents/orchestrator.py:110-116 | One result contributes its agent's name when it succeeded and nothing when it failed. |
| Orchestrator.Answer | agents/orchestrator.py:60-122 | A reply has 1 to 6 messages. Its agent responses are the fan-in of the dispatched agents. Its citations are those of the verified answer. |
| Orchestrator.QuickUsesEssentialAgents | agents/orchestrator.py:299-303 | In quick mode every collected response comes from the RAG or the Context agent. |
| Orchestrator.Respond | agents/orchestrator.py:60-122 | The imperative pipeline (fan-in, routing, verification, chunking, citations, agents_used) yields exactly `Answer`. |
| Orchestrator.LogExchange | agents/orchestrator.py:96-112 | Appending the user turn and then the assistant turn (" "-joined messages, agents used, citations) is the logged exchange. |
| Orchestrator.ProcessQuery | agents/orchestrator.py:60-122 | The reply is `Answer`. Each of the two saves may fail on its own. The new store is the old one after the user turn's `AfterSave` (unless that save fails), then after the assistant turn's (unless that one fails). With both saves up the exchange is logged; with both down nothing changes. The store stays valid. |
| Orchestrator.SavedTurns | agents/orchestrator.py:96-112 | Whichever save fails, the old messages stay in place. One message is added per successful save: the user's query first, the assistant's joined messages last. |
| Orchestrator.QuickResponse | agents/orchestrator.py:299-303 | Behaves as `process_query` in quick mode: the reply is the quick `Answer`, and the store changes as for `process_query` under the same two save failures. |
| TwilioService.SplitIndex | services/twilio_service.py:72-81 | The cut is the last newline if it lies past half the limit. Otherwise it is the last space, or the limit itself when there is no space. |
| TwilioService.HardSplitWithoutBreak | services/twilio_service.py:80-81 | With no space or newline before the limit, the cut is exactly at the limit. |
| TwilioService.RemainderShrinks | services/twilio_service.py:70-84 | The remaining message strictly shrinks on every iteration, so the loop terminates. |
| TwilioService.Split | services/twilio_service.py:61-89 | A message within the limit is a single unchanged chunk. There is always at least one chunk, and every chunk fits the limit. |
| TwilioService.SplitMessage | services/twilio_service.py:61-89 | The `while` loop produces exactly `Split`. |
| TwilioService.SplitKeepsText | services/twilio_service.py:83-87 | Only whitespace is lost: the chunks concatenated keep every non-whitespace character in order. |
| TwilioService.SplitWithoutSpaces | services/twilio_service.py:80-84 | Text without whitespace is cut into hard chunks of exactly the limit. |
| TwilioService.HardSplitExample | services/twilio_service.py:61-89 | 250 × 'a' at 100 gives chunks of 100, 100 and 50. |
| TwilioService.SplitAll | services/twilio_service.py:96-99 | The flattening loop gives each message's chunks, in order. |
| Batching.FirstRejected | services/twilio_service.py:101-117 | Finds the first chunk whose send fails, every earlier one having succeeded; none when all succeed. |
| TwilioService.Sender.constructor | services/twilio_service.py:15-26 | A new sender has sent nothing. |
| TwilioService.Sender.SendMessage | services/twilio_service.py:28-59 | Returns false without a client. Otherwise the result is the transport's verdict, and only an accepted message is recorded as sent. |
| TwilioService.Sender.SendMessages | services/twilio_service.py:91-117 | Sends the chunks in order. Returns true exactly when all are accepted. Stops at the first rejection, after which only the earlier chunks have been sent. |
| VoiceService.AudioExtension | services/voice_service.py:87-113 | The result is always one of .mp3, .m4a, .ogg, .oga and .wav. |
| VoiceService.AudioExtensionIsFirstHit | services/voice_service.py:87-113 | The first of .mp3, .m4a, .ogg, .oga and .wav found in the URL wins. Otherwise the content type decides, defaulting to .mp3. |
| VoiceService.UrlDecides | services/voice_service.py:90-99 | When the URL names an extension, the content type is ignored and the result occurs in the URL. |
| VoiceService.OgaOnlyFromUrl | services/voice_service.py:102-110 | .oga comes only from the URL, never from the content type. |
| VoiceService.DefaultIsMp3 | services/voice_service.py:113 | With no URL hit and no recognised content type, the result is .mp3. |
| LoadDataFixed.NonBlank | scripts/load_data_fixed.py:44 | Only non-empty stripped paragraphs are kept. |
| LoadDataFixed.NonBlankFrom | scripts/load_data_fixed.py:44 | Every kept paragraph is the stripped form of a piece of the content. |
| LoadDataFixed.ParagraphShape | scripts/load_data_fixed.py:44 | Each paragraph is non-empty, already stripped and free of blank-line breaks. |
| LoadDataFixed.SingleParagraph | scripts/load_data_fixed.py:44 | A non-blank text without a blank line is a single, stripped paragraph. |
| LoadDataFixed.PassagesOfMembers | scripts/load_data_fixed.py:46-53 | A passage is produced exactly when its paragraph is among the first 500 and longer than 100 characters. It then has verse = paragraph index + 1 and no chapter. |
| LoadDataFixed.PassagesOfOrdered | scripts/load_data_fixed.py:46-53 | Passages keep paragraph order with strictly increasing verse numbers. |
| LoadDataFixed.LoadFromTxt | scripts/load_data_fixed.py:39-57 | The loop builds exactly the txt passages. An unreadable file gives []. |
| LoadDataFixed.TxtPassagesShape | scripts/load_data_fixed.py:39-57 | There are at most 500 passages, each longer than 100 characters, with the given book, no chapter, verse in 1..500 and verses strictly increasing. |
| LoadDataFixed.TxtPassageIsParagraph | scripts/load_data_fixed.py:44-53 | Each passage is the paragraph its verse number points to. |
| LoadDataFixed.IdRoundTrip | scripts/load_data_fixed.py:73 | Splitting an id "<book>_<chapter>_<verse>" on "_" gives back the book, "None" for a missing chapter, and the verse. |
| LoadDataFixed.BookNameUnderscoreFree | scripts/load_data_fixed.py:115 | A derived book name never contains "_". |
| LoadDataFixed.TxtIdsDistinct | scripts/load_data_fixed.py:73 | The passages of one txt file get distinct ids. |
| LoadDataFixed.Truncate | scripts/load_data_fixed.py:82 | The stored text is the first min(n, 1000) characters. |
| LoadDataFixed.GenerateEmbeddings | scripts/load_data_fixed.py:59-95 | The loop gives exactly `EmbedAll`: one vector per successfully embedded passage, in order. |
| LoadDataFixed.EmbedAllMembers | scripts/load_data_fixed.py:63-92 | A vector is produced exactly when some passage embeds to it. |
| LoadDataFixed.EmbedAllComplete | scripts/load_data_fixed.py:63-92 | When every embedding succeeds, there is one vector per passage, in order. |
| LoadDataFixed.StoredTextBound | scripts/load_data_fixed.py:73-82 | Each vector's id is its passage's id, and its text is a prefix of the passage text of at most 1000 characters. |
| LoadDataFixed.UploadCoversVectors | scripts/load_data_fixed.py:100-104 | A complete upload stores every vector exactly once, in order, in batches of 1 to 100. |
| LoadDataFixed.DataLoader.constructor | scripts/load_data_fixed.py:16-21 | A new loader has uploaded nothing. |
| LoadDataFixed.DataLoader.UploadToPinecone | scripts/load_data_fixed.py:97-107 | Batches of 100 are sent in order, and the first rejected batch stops the upload. |
| LoadDataFixed.LoadTxtFiles | scripts/load_data_fixed.py:113-117 | The loop collects each file's passages, in file order. |
| LoadDataFixed.DataLoader.LoadAndProcessAll | scripts/load_data_fixed.py:109-127 | Nothing is embedded or uploaded when no passage was loaded. Otherwise the embeddings of all passages are uploaded. |
| LoadData.VerseEntry | scripts/load_data.py:84-97 | A dict verse with a truthy text (else the 'verse' field) gives a passage: book "Bhagavad Gita", int-parsed chapter and verse, source built from the raw keys. It raises exactly when such a verse has a non-numeric key. |
| LoadData.LoadBhagavadGita | scripts/load_data.py:67-100 | The nested loop gives exactly the Gita passages, or the first parse error. |
| LoadData.GitaShape | scripts/load_data.py:80-97 | Every Gita passage comes from a chapter/verse entry and carries that entry's parsed numbers and source. |
| LoadData.NonDictChapterSkipped | scripts/load_data.py:81-82 | A chapter value that is not a dict contributes nothing. |
| LoadData.Truncated | scripts/load_data.py:163 | A string text is cut to at most 500 characters. Only strings and lists can be sliced. |
| LoadData.TryPassage | scripts/load_data.py:147-174 | One passage becomes a vector, or is skipped when its embedding, source or slicing fails. |
| LoadData.EmbedBatch | scripts/load_data.py:141-175 | The inner loop tries each passage of a batch, in order, under the batch's start offset. |
| LoadData.GenerateEmbeddings | scripts/load_data.py:130-181 | The stepped loop gives exactly the vectors of all batches, in order. |
| LoadData.EmbeddingsMembers | scripts/load_data.py:141-175 | Every vector comes from one passage tried inside its batch, whose start offset it carries. |
| LoadData.VectorOfPassage | scripts/load_data.py:155-170 | A vector's id is "<book>_<chapter>_<verse>_<batch start>". Its values are the passage's embedding, and its metadata come from the passage. The stored text has at most 500 characters. |
| LoadData.SourcelessNeverEmbedded | scripts/load_data.py:167 | Passages without a source are never embedded. |
| LoadData.FromTxtAll | scripts/load_data.py:261-281 | Txt passages carry over in order, without a source. |
| LoadData.TxtFileAbortsLoad | scripts/load_data.py:219-223 | As written, any .txt file aborts the load. The corrected loader keeps the Gita passages, then the txt passages, then the CSV ones. |
| LoadData.NoTxtAgrees | scripts/load_data.py:210-227 | Without .txt files, the as-written and corrected loaders agree. |
| LoadData.DataLoader.constructor | scripts/load_data.py:22-35 | A new loader has uploaded nothing. |
| LoadData.DataLoader.UploadToPinecone | scripts/load_data.py:183-196 | Every batch is attempted in order. A failed batch is skipped, and later batches still go. |
| LoadData.DataLoader.EmbedAndUpload | scripts/load_data.py:232-235 | The loader stores the accepted batches of the embeddings. |
| LoadData.StoredBatches | scripts/load_data.py:183-196 | A batch is stored exactly when it is one of the batches and the index accepts it; it has 1 to 100 vectors. |
| LoadData.LoadCsvFiles | scripts/load_data.py:224-227 | CSV files are loaded in glob order. |
| LoadData.DataLoader.LoadAndProcessAll | scripts/load_data.py:198-237 | As written: Gita first, then txt (which fails), then CSV. A failure uploads nothing. A success uploads the accepted batches of the passages' embeddings. |
| LoadData.DataLoader.LoadAndProcessAllCorrected | scripts/load_data.py:198-237 | With the txt loader reachable, the loader loads the Gita, then txt, then CSV passages, and uploads their accepted batches. |
| Batching.Partition | scripts/load_data_fixed.py:101-102 | The stepped batches flattened give the input back, and all but the last are full. |
| Batching.KeptMembers | scripts/load_data.py:187-194 | A batch survives the skip-on-failure upload exactly when the index accepts it. |
| Gather.CollectFails | scripts/load_data.py:80-97 | The nested loop raises exactly when some entry raises. |
| Gather.CollectMembers | scripts/load_data.py:80-97 | A passage is produced exactly when some entry yields it. |

## Left out

- Backends: the Gemini generation and embedding calls, the Pinecone index (query, upsert, index creation), the Serper search, the Twilio client and OpenAI transcription. Each is a function parameter whose behaviour the model does not fix.
- Time, logging and delays: `time.time` timing (the elapsed time is a parameter), the typing delays and sleeps in `send_messages` and in the loaders, and all logging.
- Concurrency: `asyncio.gather` becomes a sequence of outcomes in dispatch order, each a record or an exception.
- Prompt templates: loading them and `.format` are an opaque rendering function. The template text is not modelled.
- The database layer: the SQLAlchemy session and ORM are replaced by the in-memory `ConversationStore`. Insertion order stands for `created_at` order. `now` is a parameter, and a database failure is a flag under which nothing changes (the session rolls back).
- Floating point: scores are `real`, so rounding of `score * 100` before truncation is not modelled. The 0.5 factor in the splitter is the integer test `2 * idx > max_length`.
- Strings are ASCII-only: `lower`, `strip`, `capitalize`, `title` and `int()` follow Python's behaviour on ASCII text only. `int()` accepts ASCII digits (single underscores between them allowed), an optional sign and surrounding whitespace; Unicode digits are not modelled.
- JSON parsing: the loaders receive the parsed value. Duplicate keys are kept as written, without Python's last-wins merge.
- `load_from_csv` (scripts/load_data.py:102-128): it relies on pandas row and NaN semantics. The CSV passages are a parameter of the model.
- `_setup_index`, `__init__` configuration and the `main` entry points of both loaders. main.py, the ManyChat and image services, and the voice download and transcription are transport plumbing and are not part of this model.
- `generate_with_context` in agents/gemini_agent.py:144-192: an alternative entry point that nothing in the modelled core calls.
- TwilioService.Split: requires `max_length >= 1`. With 0, the source's loop does not terminate unless the message is all whitespace, in which case it returns [""]. Otherwise a hard split at 0 leaves the remaining message unchanged once its leading whitespace is gone. A negative limit makes `rfind` count its end from the back of the string; that case is not modelled either.
- LoadData.GenerateEmbeddings: requires `batch_size > 0`. Python's `range` raises for 0 and yields no batches for a negative step.
- LoadData.DataLoader.UploadToPinecone: requires `batch_size > 0`, for the same reason.
- GeminiAgent.Process: the metadata (model name, prompt length) is not stated.
- UserInfo: the last interaction is the integer timestamp the store keeps, not Python's ISO text. A user row without one (None) cannot occur in the store. A database failure inside the lookup is the caller's flag, under which the caller uses {}.
- Orchestrator agents: the orchestrator runs its agents through the parameter `Oracles.run`. It gives each agent's outcome, a record or an exception, and is not tied to `BaseAgent.Agent.Execute` or to any agent's `Process`. In particular the Context agent's reply is not tied to the store that `ProcessQuery` saves into.
- Orchestrator.ProcessQuery: both saves are stamped with the same time `now`; the source reads the clock separately for each.
- WebSearchAgent.Process: the metadata (the first three results) is not stated beyond its construction.

## Findings

| source | as written | input that shows it | evidently intended | confidence | as-written member | corrected member |
|---|---|---|---|---|---|---|
| scripts/load_data.py:219-222, 259-281 | `load_from_txt` is defined inside the `if __name__ == "__main__"` block rather than as a `DataLoader` method, so `self.load_from_txt` raises AttributeError | a data directory holding `bhagavad_gita.json` and any `.txt` file: the whole load aborts before any embedding or upload | `DataLoader.load_from_txt` loads the txt passages, which are added after the Gita passages and before the CSV ones | high (not executed) | LoadData.DataLoader.LoadAndProcessAll, LoadData.TxtFileAbortsLoad | LoadData.DataLoader.LoadAndProcessAllCorrected |

The corrected loader's txt passages have no 'source' field. `generate_embeddings` reads `passage['source']`, so they are skipped at embedding (`LoadData.SourcelessNeverEmbedded`). The model keeps this behaviour and does not correct it.
