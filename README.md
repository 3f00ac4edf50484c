# Chat context management: message-retention bookkeeping

This project models the message-retention core of a chatbot backend. Every
chat turn goes through one of several strategies. Each strategy keeps part of
an unbounded message stream and hands it to a language model as context.

- **Batched summaries** (`ChatManager` in chat_manager.py and `ExistingApproach`
  in context_managers.py).
  - Each message is tagged with the user's open batch id. It is pushed onto the
    user's Redis stack and appended to a MongoDB log.
  - When the open batch reaches 5 messages (10 for `ExistingApproach`), its
    messages are summarized into the user's one summary slot and leave the
    stack, and the batch id advances by one.
  - The history is the summary followed by the stack. The stack can be rebuilt
    from the 20 newest log documents.
- **In-memory strategies** (context_managers.py):
  - a sliding window;
  - a four-level hierarchy of summaries (every 10 entries of a level roll up
    into one entry above);
  - top-n selection by TF-IDF importance score;
  - filtering by topic label;
  - a per-user cache capped at 200, with a newest-first Redis list capped at
    1000 and an unbounded archive.
- **Short-term / long-term memory** (advanced_context_manager.py).
  - Short-term memory is trimmed from the front until at most 4 messages and
    800 tokens remain.
  - Every message is archived with its embedding.
  - Recall takes the nearest neighbours, re-ranks them by recency and keeps 2.
- **History rendering** (conversation_handler.py). The history becomes one
  "role: content" line per item. The user's message is then stored, then the
  model's reply.

## How the model is built

- **External services.**
  - Redis becomes per-user Dafny maps (`stacks`, `batchIds`, `summaries`).
  - MongoDB is an append-only `seq` of documents.
  - `datetime.now()` is a `clock` field that each add advances.
- **Parameters.** The following become function-valued constants or
  parameters:
  - the summarizer and the reply generator (both language-model calls);
  - the TF-IDF scorer, the k-means labeller, the tokenizer and the embedder.
- **Nearest-neighbour search.** The faiss result is a parameter `ids`. A
  precondition gives it the shape the search returns: `min(5, n)` valid
  positions.
- **Imperative code stays imperative.** Classes whose methods update fields
  are Dafny classes with `modifies` clauses, and the source's loops are loops
  with invariants:
  - counting a batch;
  - re-pushing the remaining stack;
  - rehydrating the stack from the log;
  - the trim loop;
  - the rendering loop.
- **Specifications.** Each state-changing method is proved against a
  specification function of the old state:
  - `AfterAdd` for a batched add;
  - `AddToTiers` for the hierarchy;
  - `Slide` and `PushTrim` for the capped lists;
  - `Trimmed` for short-term memory;
  - `Rendered` for the history text.
- **Lemmas.** The promised properties are proved about those functions, and
  each class's `Valid()` invariant ties its state to everything ever added.

Files:

| file | contents |
|---|---|
| messages.dfy | `Option`, the message payload, Python's negative slicing (`TakeLast`) and `reversed` |
| batch_store.dfy | the per-user session shared by both batched strategies, the batch filters, the log queries, and the steady-session invariant |
| chat_manager.dfy | `ChatManager` |
| context_managers.dfy | `ExistingApproach`, `HierarchicalSummary`, `KeywordExtractor`, `TopicClusterer`, `SlidingWindowContext`, `HybridStorage` |
| advanced_context_manager.dfy | `AdvancedContextManager` |
| conversation_handler.dfy | history rendering and `handle_user_message` |

## Model

| member | source | states |
|---|---|---|
| BatchStore.BatchSplit | chat_manager.py:76-97 | the batch's messages and the remaining messages split the stack: their sizes and their multisets add up to the stack's |
| BatchStore.BatchMembers | chat_manager.py:77-92 | the batch holds exactly the stack entries tagged with the batch id; the remainder holds exactly the others |
| BatchStore.FilterConcat | chat_manager.py:92-97 | both filters keep relative order: filtering a concatenation concatenates the filtered parts |
| BatchStore.UniformBatch | chat_manager.py:76-97 | a stack all of one batch is summarized whole and leaves nothing behind |
| BatchStore.UserDocsMembers | chat_manager.py:117-121 | the user's log query returns exactly the logged documents carrying that user id |
| BatchStore.UserDocsIncreasing | chat_manager.py:117-121 | the user's documents inherit the log's increasing timestamps |
| BatchStore.NewestDocs | chat_manager.py:117-121 | the query with limit 20 returns min(20, number of the user's documents) documents |
| BatchStore.NewestDocsAreNewest | chat_manager.py:117-121 | the query result is strictly newest first, and every document of the user it leaves out is older than every document it returns |
| BatchStore.NewestFirstDecreasing | chat_manager.py:117-121 | the first k documents of a reversed increasing log have strictly decreasing timestamps |
| BatchStore.NewestFirstIsNewest | chat_manager.py:117-121 | every document that the first k of a reversed increasing log leave out is older than each one they keep |
| BatchStore.EmptySessionSteady | chat_manager.py:39-44 | a user with no stored state satisfies the steady-session invariant: open batch 1, nothing stacked, no summary |
| BatchStore.SteadyAfterAdd | chat_manager.py:39-97 | one add keeps the invariant: every stacked entry is in the open batch, fewer than the threshold wait, the stack is the newest part of the user's log, and the summary is that of the last closed batch; the batch id advances by exactly one, and only on the add that fills the batch, which empties the stack |
| BatchStore.PushTracksLog | chat_manager.py:39-64 | pushing a document of the open batch onto a stack that holds only that batch and mirrors the newest log documents keeps the stack all of one batch and the newest part of the extended log |
| BatchStore.AfterAddUniform | chat_manager.py:66-97 | on a stack that holds only the open batch, the add that brings it to the threshold empties the stack, advances the batch id and summarizes the whole stack; any other add only extends the stack |
| BatchStore.SteadyAfterLoggedAdd | chat_manager.py:55-70 | the same, stated over the whole log that the add extends by one document |
| BatchStore.History | chat_manager.py:99-113 | the history has one item per stacked message plus one for a stored summary |
| BatchStore.HistoryOfSteady | chat_manager.py:99-113 | in a steady session the history is the summary of the last closed batch (covering exactly the threshold's worth of log documents before the open batch) followed by every message logged since, oldest first, and never more than the threshold in size |
| ChatManagement.ChatManager.constructor | chat_manager.py:12-16 | starts with empty stores, and every user is in the steady state |
| ChatManagement.ChatManager.CountMessagesWithBatch | chat_manager.py:18-31 | the count equals the number of stack entries tagged with the batch id |
| ChatManagement.ChatManager.HandleNewMessage | chat_manager.py:33-70 | the log grows by exactly one document, tagged with the stored batch id or 1; the user's session becomes `AfterAdd` of the old one; other users are untouched; timestamps stay increasing; the steady invariant is kept for every user |
| ChatManagement.ChatManager.PushMessage | chat_manager.py:39-64 | the message is tagged with the stored batch id, or 1 when none is stored; exactly one entry is appended to the user's stack and one document to the log, carrying the same batch id and a timestamp newer than every logged one |
| ChatManagement.ChatManager.CloseBatchIfFull | chat_manager.py:66-70 | exactly when the batch holds 5 messages: the summary slot is overwritten with that batch's summary and count, the stack keeps the other entries, and the batch id becomes batch+1; otherwise nothing changes |
| ChatManagement.ChatManager.CreateSummary | chat_manager.py:72-97 | the summary slot is overwritten with the batch's summary, whose count is the number of entries in the batch; the stack becomes exactly the other entries in their original order (the key is deleted when none remain); the log and batch ids are untouched |
| ChatManagement.ChatManager.GetChatHistory | chat_manager.py:99-113 | one item per stacked message plus one for a stored summary |
| ChatManagement.ChatManager.LoadMessagesFromLog | chat_manager.py:115-136 | the summary is deleted; the stack becomes the user's min(20, n) newest log documents in ascending timestamp order; the log, clock and batch ids are unchanged |
| ChatManagement.ChatManager.RestoreStack | chat_manager.py:126-136 | the loop clears the stack and rpushes the fetched documents from last to first, so the stack ends as their reverse (the key is absent when none were fetched); nothing else changes |
| ContextManagers.ExistingApproach.constructor | context_managers.py:12-15 | starts with empty stores, every user steady |
| ContextManagers.ExistingApproach.GetInternalState | context_managers.py:17-40 | reports the user's stack, the stored summary and batch id (or none), and exactly the user's log documents in increasing timestamp order |
| ContextManagers.ExistingApproach.AddMessage | context_managers.py:42-68 | as HandleNewMessage with a threshold of 10: one log document, session becomes `AfterAdd`, other users untouched, steady invariant kept |
| ContextManagers.ExistingApproach.PushMessage | context_managers.py:46-64 | tagged with the stored batch id or 1; one stack entry and one log document with the same batch id |
| ContextManagers.ExistingApproach.CloseBatchIfFull | context_managers.py:66-68 | exactly when the batch holds 10 messages it is summarized, removed and the batch id advances by one; otherwise nothing changes |
| ContextManagers.ExistingApproach.GetContext | context_managers.py:70-82 | one item per stacked message plus one for a stored summary |
| ContextManagers.ExistingApproach.CountMessagesWithBatch | context_managers.py:84-91 | the count equals the number of stack entries tagged with the batch id |
| ContextManagers.ExistingApproach.CreateSummary | context_managers.py:93-112 | the summary slot is overwritten with the batch's summary and size; the stack keeps the other entries in order |
| ContextManagers.SummariesAt | context_managers.py:118-128 | a fully rolled-up level above a level of n entries holds n/10 entries, and entry i summarizes entries 10i..10i+9 of the level below |
| ContextManagers.SummariesPush | context_managers.py:118-128 | appending to a level leaves the rolled-up level above unchanged, except that it gains the summary of the last 10 entries exactly when the length reaches a multiple of 10 |
| ContextManagers.AddKeepsWellTiered | context_managers.py:118-128 | one add appends the message to level 1 and keeps every level the roll-up of the level below: entry i of level k+1 summarizes entries 10i..10i+9 of level k |
| ContextManagers.BuildTiersWellTiered | context_managers.py:118-128 | after any sequence of adds, level 1 is exactly the messages added and every level is rolled up |
| ContextManagers.TierCounts | context_managers.py:118-128 | after n adds the levels hold n, n/10, n/100 and n/1000 entries; after 1000 adds, 1000/100/10/1 |
| ContextManagers.TiersContext | context_managers.py:130-136 | the context ends with the last num_messages level-1 entries (Python slicing, so 0 gives all of them), starts with the newest level-4 summary when one exists, adds at most 9 summaries, and so has at most 9 + num_messages entries |
| ContextManagers.HierarchicalSummary.GetContext | context_managers.py:130-136 | ends with the last num_messages raw messages (Python slicing, so 0 gives all of them), starts with the newest level-4 summary when one exists, and adds at most 9 summaries |
| ContextManagers.HierarchicalSummary.GetInternalState | context_managers.py:138-144 | the four reported levels are rolled up, each level above the first holding one summary per full ten entries of the level below |
| ContextManagers.HierarchicalSummary.constructor | context_managers.py:115-116 | four empty levels |
| ContextManagers.HierarchicalSummary.AddMessage | context_managers.py:118-128 | level 1 grows by the message; the levels become `AddToTiers` of the old ones, and stay rolled up |
| ContextManagers.HierarchicalSummary.AppendAndCascade | context_managers.py:118-128 | the nested cascade (append, then summarize the last 10 entries of a level into the next whenever its length is a multiple of 10) leaves exactly `AddToTiers` of the old levels |
| ContextManagers.ContentOf | context_managers.py:152-153 | the content is present exactly when the message is a dictionary with a 'content' key |
| ContextManagers.ArgSortCorrect | context_managers.py:164 | argsort lists every index exactly once, in ascending score order |
| ContextManagers.ArgSortDistinct | context_managers.py:164 | argsort never lists an index twice |
| ContextManagers.Picked | context_managers.py:164 | the indices taken are valid; for top_n > 0 there are min(top_n, n) of them, for top_n = 0 all n |
| ContextManagers.PickedAreTop | context_managers.py:164 | the picked indices are distinct and in ascending score order, and every index left out scores no higher than any index picked |
| ContextManagers.KeywordContext | context_managers.py:161-165 | with no scores, every message; otherwise the messages at the picked indices, in the picked order |
| ContextManagers.KeywordExtractor.constructor | context_managers.py:147-150 | no messages, no scores |
| ContextManagers.KeywordExtractor.AddMessage | context_managers.py:152-154 | a message with content appends its content and rescoring follows; a message without one changes nothing; scores exist, one per message, exactly when more than one message is held |
| ContextManagers.KeywordExtractor.UpdateImportanceScores | context_managers.py:156-159 | refits the scores only when more than one message is held |
| ContextManagers.KeywordExtractor.GetContext | context_managers.py:161-165 | with at most one message (so no scores) the context is all messages |
| ContextManagers.OnTopic | context_managers.py:192 | at most as many messages as the shorter of the message and label lists |
| ContextManagers.OnTopicMembers | context_managers.py:192 | a message is selected exactly when some position pairs it with the requested label |
| ContextManagers.OnTopicSubsequence | context_managers.py:192 | the selection is the subsequence of the messages at the strictly increasing zip positions labelled with the id, and every such position is taken |
| ContextManagers.OnTopicPartition | context_managers.py:192 | with one label per message, the selected and the unselected messages add up to all messages |
| ContextManagers.TopicClusterer.constructor | context_managers.py:174-178 | no messages, no labels, for any cluster count |
| ContextManagers.TopicClusterer.AddMessage | context_managers.py:180-187 | a message with content is appended and a message without one changes nothing; the add succeeds exactly when the content is present and there is at least one cluster; labels exist, labelling the current messages, exactly when there is at least one cluster and the messages outnumber the clusters |
| ContextManagers.TopicClusterer.UpdateTopics | context_managers.py:184-187 | refits only when the message count strictly exceeds the cluster count, and fails, keeping the labels, when that fit has fewer than one cluster |
| ContextManagers.TopicClusterer.GetContext | context_managers.py:189-192 | with no topic id, or before labels exist, every message; otherwise exactly the messages labelled with the id, in their order, each once |
| ContextManagers.Window | context_managers.py:205-208 | the window is the last min(N, window_size) inputs, in order |
| ContextManagers.WindowStep | context_managers.py:205-208 | append-then-pop-oldest on the window of N inputs gives the window of N+1 inputs |
| ContextManagers.SlidingWindowContext.constructor | context_managers.py:201-203 | an empty window of the given size |
| ContextManagers.SlidingWindowContext.AddMessage | context_managers.py:205-208 | appends, drops the oldest when over size, and keeps the window equal to the last min(N, window_size) messages added |
| ContextManagers.SlidingWindowContext.GetContext | context_managers.py:210-211 | min(N, window_size) messages, the newest ones, in order |
| ContextManagers.UserMessagesAppend | context_managers.py:236 | an insert adds the message to its own user's archive and to no one else's |
| ContextManagers.NewestFirst | context_managers.py:232-233 | a capped newest-first list holds min(limit, n) entries |
| ContextManagers.NewestFirstStep | context_managers.py:232-233 | push-at-head then trim to 1000 on the newest-first list gives the newest-first list of one more message |
| ContextManagers.MirrorsAfterAdd | context_managers.py:224-236 | one add keeps, for every user, the cache equal to their newest 200 messages oldest first and the Redis list equal to their newest 1000 newest first |
| ContextManagers.MirrorsForAfterAdd | context_managers.py:224-236 | the same for the user who wrote |
| ContextManagers.MirrorsForStep | context_managers.py:224-236 | for any one user, one add by any user keeps their cache and Redis list mirroring their archived messages |
| ContextManagers.MirrorsForOther | context_managers.py:236 | other users' cache and list still mirror the archive |
| ContextManagers.HybridStorage.constructor | context_managers.py:219-222 | empty cache, lists and archive (see "Left out") |
| ContextManagers.HybridStorage.AddMessage | context_managers.py:224-236 | the cache gains the message and drops the oldest beyond 200, the Redis list gains it at the head and is trimmed to 1000, the archive gains one document, and the mirror invariant is kept |
| ContextManagers.UserArchive | context_managers.py:242 | the archive query keeps only the user's documents |
| ContextManagers.UserArchiveMessages | context_managers.py:236-242 | the messages of the user's documents are exactly the messages archived for the user, in insertion order |
| ContextManagers.MessagesOfNewest | context_managers.py:241-242 | the messages of the newest documents are the newest messages, in the same order |
| ContextManagers.TiersAgree | context_managers.py:238-244 | when the cache and the list mirror the archived documents, recent is the last min(200, n) messages, mid-term holds min(1000, n) entries led by the newest message and is exactly the messages of the long-term documents, and recent is the reverse of mid-term's first 200 |
| ContextManagers.HybridStorage.GetContext | context_managers.py:238-244 | recent is the user's last min(200, n) messages in order; mid-term is exactly the user's newest min(1000, n) messages, newest first; long-term is the user's documents whose messages are exactly mid-term's, in the same order; recent is the reverse of mid-term's first 200 |
| AdvancedContext.TokenTotalConcat | advanced_context_manager.py:64-65 | the token total of a concatenation is the sum of the totals |
| AdvancedContext.FitsParts | advanced_context_manager.py:43 | any part of a list within 4 messages and 800 tokens is also within them |
| AdvancedContext.TokenBudgetIsBudget | advanced_context_manager.py:43-44 | the empty list meets the trim condition (no tokens), and dropping a message never breaks it, so the loop stops by the empty list at the latest |
| AdvancedContext.TrimmedBy | advanced_context_manager.py:42-44 | popping the front while the budget fails ends in a suffix of the input that meets the budget |
| AdvancedContext.TrimmedLongest | advanced_context_manager.py:42-44 | every longer suffix breaks the budget |
| AdvancedContext.TrimmedUnique | advanced_context_manager.py:42-44 | the trim result is the longest suffix that meets the budget |
| AdvancedContext.TrimmedByStep | advanced_context_manager.py:18-23 | trimming after every append equals trimming the whole input once |
| AdvancedContext.TrimmedByKeepsLast | advanced_context_manager.py:21-23 | an element that meets the budget alone is the last one kept |
| AdvancedContext.Trimmed | advanced_context_manager.py:42-44 | the trimmed short-term memory is a suffix of its previous contents |
| AdvancedContext.TrimmedFits | advanced_context_manager.py:42-44 | after trimming at most 4 messages and at most 800 tokens remain |
| AdvancedContext.TrimmedUnfold | advanced_context_manager.py:43-44 | a list within budget is kept as is; a list over budget is non-empty and its trim is that of its tail |
| AdvancedContext.TrimmedStep | advanced_context_manager.py:18-23 | short-term memory after every add equals the trim of the whole conversation |
| AdvancedContext.NewMessageKept | advanced_context_manager.py:21-23 | a new message of at most 800 tokens is the last short-term entry after the add |
| AdvancedContext.SortByRecencyCorrect | advanced_context_manager.py:60 | the sort is a permutation that orders records by descending timestamp |
| AdvancedContext.JsonDumps | advanced_context_manager.py:34 | serialization succeeds exactly when no item carries an embedding, and then lists the items' messages in order |
| AdvancedContext.AdvancedContextManager.constructor | advanced_context_manager.py:9-16 | both memories empty |
| AdvancedContext.AdvancedContextManager.AddMessage | advanced_context_manager.py:18-29 | short-term memory becomes the trim of old short-term plus the message; long-term memory grows by exactly that message with its embedding; the invariant (long-term records every message ever added, short-term is the trim of all of them) is kept |
| AdvancedContext.RecordedAppend | advanced_context_manager.py:26-28 | appending a message's record with its embedding keeps long-term memory one record per added message, in order |
| AdvancedContext.AdvancedContextManager.StoreMessage | advanced_context_manager.py:18-29 | the steps of add_message: short-term memory becomes the trim of old short-term plus the message; long-term memory gains exactly that message with its embedding |
| AdvancedContext.AdvancedContextManager.TrimShortTermMemory | advanced_context_manager.py:42-44 | the loop leaves exactly `Trimmed` of the previous short-term memory and changes nothing else |
| AdvancedContext.AdvancedContextManager.Recalled | advanced_context_manager.py:59 | the long-term records at the neighbour positions, in search order |
| AdvancedContext.AdvancedContextManager.LongTermContext | advanced_context_manager.py:49-62 | empty when long-term memory is empty; otherwise min(2, k) records, where k = min(5, n) >= 1 |
| AdvancedContext.AdvancedContextManager.LongTermContextNewest | advanced_context_manager.py:56-62 | the kept records are drawn from the recalled ones, newest first, and none left out is newer than one kept |
| AdvancedContext.AdvancedContextManager.GetContextAsWritten | advanced_context_manager.py:31-34 | serializes exactly when nothing is recalled, and then yields the short-term memory |
| AdvancedContext.AdvancedContextManager.GetContextAsWrittenFails | advanced_context_manager.py:31-34 | once a message has been added, every call raises TypeError |
| AdvancedContext.AdvancedContextManager.GetContext | advanced_context_manager.py:31-34 | the short-term messages followed by the messages of the recalled records; just short-term when long-term memory is empty; at most 6 entries |
| AdvancedContext.AdvancedContextManager.GetInternalState | advanced_context_manager.py:67-72 | short-term memory is the trim of all messages added, long_term_memory_size is the number of messages ever added, and the token count is at most 800 |
| ConversationHandler.ContentOf | conversation_handler.py:57-63 | a stored summary renders from its content string, a stack message from its message dictionary |
| ConversationHandler.RoleOf | conversation_handler.py:58-63 | the dictionary's role, defaulting to 'assistant'; non-dictionary content is always 'assistant' |
| ConversationHandler.BodyOf | conversation_handler.py:58-63 | the dictionary's content, defaulting to the empty string; non-dictionary content as it is |
| ConversationHandler.RenderHistory | conversation_handler.py:55-64 | the loop's string equals `Rendered` of the items |
| ConversationHandler.ConcatMapConcat | conversation_handler.py:56-64 | accumulating pieces with `+=` distributes over concatenation of the inputs |
| ConversationHandler.RenderedConcat | conversation_handler.py:56-64 | rendering distributes over concatenation: lines come out in history order |
| ConversationHandler.OneLinePerItem | conversation_handler.py:56-64 | with no line breaks in roles or contents, the rendering has exactly one line per item with content; items without 'content' add none |
| ConversationHandler.HistoryContents | conversation_handler.py:52-57 | the rendered items are the summary (if any) followed by each stacked message's dictionary |
| ConversationHandler.HistoryRendering | conversation_handler.py:52-64 | a chat history renders as an 'assistant' line with the summary, if one is stored, followed by the lines of the stacked messages |
| ConversationHandler.HandleUserMessage | conversation_handler.py:50-91 | the prompt embeds the rendered history; the token count and reply are those of that prompt; exactly two documents are logged for the user, the user's message and then the reply; the user's session goes through the two `AfterAdd` steps, other users' sessions are untouched, the clock advances by two and the steady invariant is kept for every user |
| ConversationHandler.StoreTurn | conversation_handler.py:84-88 | the two handle_new_message calls log exactly the user's message and then the reply, both for the user; the user's session becomes `AfterAdd` of the two messages in turn, other users' sessions are untouched and the steady invariant is kept for every user |

## Left out

- Concurrency. `ChatManager` runs `_create_summary` on a background thread under a lock. The model runs it inside the add, in order, so the summary is stored before the next add.
- Redis and MongoDB clients, JSON encoding of stored values, and ObjectId conversion. Stores are Dafny maps and a sequence; serialization is the identity.
- `ChatManager` and `ExistingApproach` share the same Redis keys and MongoDB collection in the source. In the model each instance has its own stores, and both start empty.
- ContextManagers.HybridStorage.constructor: starts with empty Redis lists and an empty archive. The source attaches to the existing Redis server and MongoDB collection, which outlive the instance, while only `memory_cache` starts empty. After a restart the mirror invariant therefore fails: recent is empty while mid-term and long-term still hold the earlier messages.
- ContextManagers.HybridStorage.GetContext: a MongoDB document is modelled as its user id and message. The `_id` field is not modelled, and sorting by `_id` descending is taken to be newest insertion first.
- `datetime.now()` is a counter that strictly increases with each add. Two adds in the same microsecond, which the source would log with equal timestamps, are not modelled.
- The summarizer, the reply generator, the TF-IDF scorer, the k-means labeller, the tokenizer and the embedder. Each is an uninterpreted function. The scorer is assumed to return one score per message.
- The faiss index and its L2 search. The neighbour positions are an input of the right shape (`min(5, n)` positions in range). So the search query (the newest short-term message's content, or "", at advanced_context_manager.py:53) and its embedding play no part in the model.
- `KeywordExtractor.get_internal_state`, `TopicClusterer.get_internal_state`, `SlidingWindowContext.get_internal_state` and `HybridStorage.get_internal_state`. They return the fields (or the same tiers as `get_context`) as they are.
- ContextManagers.KeywordExtractor.GetContext: its contract covers only the no-score case. The scored case is stated by `KeywordContext` and `PickedAreTop`. numpy's default argsort is not stable, while the model breaks ties by index. So with tied scores the source may order (and, at the cut, pick) differently.
- ContextManagers.TopicClusterer.GetContext: models the two branches "labels absent" (an empty list) and "labels present". Once fitted, `self.topics` is a numpy array of at least two labels. The source's `not self.topics` on it raises ValueError, so a topic request after fitting fails in the source, where the model filters.
- ContextManagers.KeywordExtractor.AddMessage and ContextManagers.TopicClusterer.AddMessage: a message without a 'content' key raises KeyError in the source. The model reports it as `ok == false` with no change.
- ContextManagers.TopicClusterer.AddMessage: with fewer than one cluster, KMeans raises at the first fit (context_managers.py:186), after the content was appended. The model reports this as `ok == false`, with the content appended and no labels. Which exception is raised is not modelled.
- AdvancedContextManager messages: the 'content' and 'timestamp' keys are assumed present, since a missing key raises KeyError in the source. `print` calls are dropped.
- `max_context_tokens` (2000) is set in the source but never read. It is not modelled.
- The JSON parsing of the model's reply in `handle_user_message` (conversation_handler.py:77-81). `respond` stands for the model call together with that unwrapping. The final `print` is dropped.
- The web layer, configuration, the token-counter wrapper and the test runner are not part of this model.
- A closed batch's summary overwrites the user's single summary slot (chat_manager.py:88-89 and context_managers.py:93-112); summaries are not accumulated.
- test_runner.py:51 reads `chat_manager.approaches`, which `ChatManager` does not define. No registry of strategies is modelled.

## Findings

| source | as written | input that shows it | evidently intended | confidence | as-written member | corrected member |
|---|---|---|---|---|---|---|
| advanced_context_manager.py:28, 31-34, 59-62 | `get_context` hands `json.dumps` the recalled long-term records, which still carry the numpy `embedding` array | any call after one `add_message`: long-term memory is non-empty, so at least one record is recalled, and `json.dumps` raises TypeError (ndarray is not JSON serializable) | serialize the short-term messages followed by the recalled messages, without their embeddings | not executed | AdvancedContext.AdvancedContextManager.GetContextAsWrittenFails | AdvancedContext.AdvancedContextManager.GetContext |
