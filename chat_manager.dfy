/** ChatManager (chat_manager.py): the batched-summary store behind the chat
    endpoint. Redis is three maps keyed by user ("{user}:stack",
    "{user}:batch_id", "{user}:summary"), MongoDB's chat_history collection
    an append-only log; a batch closes when it holds five messages. */
module ChatManagement {
  import opened Messages
  import opened BatchStore

  /** handle_new_message summarizes when the open batch holds this many */
  const SummaryThreshold := 5
  /** load_messages_from_mongodb rehydrates at most this many messages */
  const ReloadLimit := 20

  class ChatManager {
    var stacks: map<UserId, seq<StackEntry>>
    var batchIds: map<UserId, int>
    var summaries: map<UserId, BatchSummary>
    var log: seq<LogDoc>
    /** the last value datetime.now() returned */
    var clock: Timestamp
    const summarize: Summarizer

    /** Every logged timestamp was issued by the clock, in increasing order. */
    ghost predicate Valid()
      reads this
    {
      && Increasing(log)
      && (forall i :: 0 <= i < |log| ==> log[i].timestamp <= clock)
    }

    constructor (summarize: Summarizer)
      ensures Valid()
      ensures stacks == map[] && batchIds == map[] && summaries == map[] && log == []
      ensures this.summarize == summarize
      ensures forall u :: Steady(u)
    {
      stacks, batchIds, summaries, log := map[], map[], map[], [];
      clock := 0;
      this.summarize := summarize;
      new;
      forall u ensures Steady(u) {
        assert SessionOf(u) == EmptySession && UserDocs(log, u) == [];
        EmptySessionSteady(SummaryThreshold, summarize);
      }
    }

    /** The user's whole Redis stack; a missing key reads as an empty list */
    function Stack(u: UserId): seq<StackEntry>
      reads this
    {
      if u in stacks then stacks[u] else []
    }

    /** Everything Redis holds for user u */
    function SessionOf(u: UserId): Session
      reads this
    {
      Session(Stack(u),
              if u in batchIds then Some(batchIds[u]) else None,
              if u in summaries then Some(summaries[u]) else None)
    }

    /** The batch invariant of a user who has only ever sent messages. */
    ghost predicate Steady(u: UserId)
      reads this
    {
      SteadySession(SessionOf(u), UserDocs(log, u), SummaryThreshold, summarize)
    }

    /** count_messages_with_batch: how many stacked messages carry batch b */
    method CountMessagesWithBatch(u: UserId, b: int) returns (count: nat)
      ensures count == |InBatch(Stack(u), b)|
    {
      count := 0;
      var messages := Stack(u);
      for i := 0 to |messages|
        invariant count == |InBatch(messages[..i], b)|
      {
        assert messages[..i + 1][..i] == messages[..i];
        if messages[i].batchId == b {
          count := count + 1;
        }
      }
      assert messages[..|messages|] == messages;
    }

    /** handle_new_message, with the summary thread run to completion inside
        the call. */
    method HandleNewMessage(u: UserId, m: Payload)
      requires Valid()
      modifies this
      ensures Valid()
      ensures clock == old(clock) + 1
      ensures log == old(log) + [LogDoc(u, clock, m, OpenBatch(old(SessionOf(u))))]
      ensures SessionOf(u) == AfterAdd(old(SessionOf(u)), m, clock, SummaryThreshold, summarize)
      ensures forall v :: v != u ==> SessionOf(v) == old(SessionOf(v))
      ensures old(Steady(u)) ==> Steady(u)
      ensures forall v :: v != u && old(Steady(v)) ==> Steady(v)
    {
      ghost var before := SessionOf(u);
      var batchId := PushMessage(u, m);
      ghost var pushed := Stack(u);
      CloseBatchIfFull(u, batchId);
      ghost var after := AfterAdd(before, m, clock, SummaryThreshold, summarize);
      assert SessionOf(u) == after by {
        assert pushed == before.stack + [StackEntry(batchId, m, clock)];
      }
      AppendNewest(old(log), LogDoc(u, clock, m, batchId));
      SteadyAfterLoggedAdd(before, old(log), u, m, clock, SummaryThreshold, summarize);
      forall v | v != u ensures UserDocs(log, v) == UserDocs(old(log), v) {
        UserDocsAppend(old(log), LogDoc(u, clock, m, batchId), v);
      }
    }

    /** The first half of handle_new_message: read the open batch id, stamp
        the message, rpush it onto the stack and insert it into the log. */
    method PushMessage(u: UserId, m: Payload) returns (batchId: int)
      requires Valid()
      modifies this
      ensures batchId == OpenBatch(old(SessionOf(u)))
      ensures clock == old(clock) + 1
      ensures stacks == old(stacks)[u := old(Stack(u)) + [StackEntry(batchId, m, clock)]]
      ensures log == old(log) + [LogDoc(u, clock, m, batchId)]
      ensures batchIds == old(batchIds) && summaries == old(summaries)
      ensures forall i :: 0 <= i < |old(log)| ==> old(log)[i].timestamp < clock
    {
      if u !in batchIds {
        batchId := 1;
      } else {
        batchId := batchIds[u];
      }
      clock := clock + 1;
      var timestamp := clock;
      stacks := stacks[u := Stack(u) + [StackEntry(batchId, m, timestamp)]];
      log := log + [LogDoc(u, timestamp, m, batchId)];
    }

    /** The second half of handle_new_message: once the open batch holds
        five messages, summarize it and advance the stored batch id. */
    method CloseBatchIfFull(u: UserId, batchId: int)
      modifies this
      ensures log == old(log) && clock == old(clock)
      ensures var batch := InBatch(old(Stack(u)), batchId);
        var rest := OutsideBatch(old(Stack(u)), batchId);
        if |batch| == SummaryThreshold then
          && summaries == old(summaries)[u := BatchSummary(batchId, summarize(batch), |batch|)]
          && stacks == (if rest == [] then old(stacks) - {u} else old(stacks)[u := rest])
          && batchIds == old(batchIds)[u := batchId + 1]
        else
          summaries == old(summaries) && stacks == old(stacks) && batchIds == old(batchIds)
    {
      var count := CountMessagesWithBatch(u, batchId);
      if count == SummaryThreshold {
        CreateSummary(u, batchId);
        batchIds := batchIds[u := batchId + 1];
      }
    }

    /** _create_summary: summarize batch b into the user's single summary
        slot (overwriting it) and keep the other stacked messages in order. */
    method CreateSummary(u: UserId, b: int)
      modifies this
      ensures log == old(log) && batchIds == old(batchIds) && clock == old(clock)
      ensures var batch := InBatch(old(Stack(u)), b);
        summaries == old(summaries)[u := BatchSummary(b, summarize(batch), |batch|)]
      ensures var rest := OutsideBatch(old(Stack(u)), b);
        stacks == if rest == [] then old(stacks) - {u} else old(stacks)[u := rest]
    {
      var allMessages := Stack(u);
      var messages := InBatch(allMessages, b);
      summaries := summaries[u := BatchSummary(b, summarize(messages), |messages|)];
      var remaining := OutsideBatch(allMessages, b);
      stacks := stacks - {u};
      for i := 0 to |remaining|
        invariant stacks == if i == 0 then old(stacks) - {u} else old(stacks)[u := remaining[..i]]
        invariant log == old(log) && batchIds == old(batchIds) && clock == old(clock)
        invariant summaries == old(summaries)[u := BatchSummary(b, summarize(messages), |messages|)]
      {
        assert remaining[..i + 1] == Stack(u) + [remaining[i]];
        stacks := stacks[u := Stack(u) + [remaining[i]]];
      }
      assert remaining[..|remaining|] == remaining;
    }

    /** get_chat_history: the summary (if any) followed by the stack */
    function GetChatHistory(u: UserId): (h: seq<HistoryItem>)
      reads this
      ensures |h| == |Stack(u)| + (if u in summaries then 1 else 0)
    {
      History(SessionOf(u))
    }

    /** load_messages_from_mongodb: drop the user's stack and summary and
        rebuild the stack from the user's 20 newest log documents, oldest
        first. The batch id is left as it was. */
    method LoadMessagesFromLog(u: UserId)
      requires Valid()
      modifies this
      ensures Valid()
      ensures log == old(log) && batchIds == old(batchIds) && clock == old(clock)
      ensures summaries == old(summaries) - {u}
      ensures var docs := UserDocs(log, u);
        var k := Min(ReloadLimit, |docs|);
        && Stack(u) == Entries(docs[|docs| - k..])
        && stacks == if k == 0 then old(stacks) - {u} else old(stacks)[u := Stack(u)]
      ensures Increasing(UserDocs(log, u))
    {
      var messages := NewestDocs(log, u, ReloadLimit);
      summaries := summaries - {u};
      RestoreStack(u, messages);
      var docs := UserDocs(log, u);
      ReversePrefixOfReverse(docs, |messages|);
      UserDocsIncreasing(log, u);
    }

    /** The rebuild loop of load_messages_from_mongodb: clear the user's
        stack, then rpush the fetched documents from the last (the oldest)
        to the first. */
    method RestoreStack(u: UserId, messages: seq<LogDoc>)
      modifies this
      ensures stacks == if messages == [] then old(stacks) - {u} else old(stacks)[u := Entries(Reverse(messages))]
      ensures log == old(log) && batchIds == old(batchIds) && clock == old(clock) && summaries == old(summaries)
    {
      stacks := stacks - {u};
      var i := |messages|;
      while i > 0
        invariant 0 <= i <= |messages|
        invariant stacks == if i == |messages| then old(stacks) - {u}
                            else old(stacks)[u := Entries(Reverse(messages[i..]))]
        invariant log == old(log) && batchIds == old(batchIds) && clock == old(clock) && summaries == old(summaries)
      {
        i := i - 1;
        ghost var pushed := Entries(Reverse(messages[i + 1..]));
        assert Stack(u) == pushed;
        assert messages[i..] == [messages[i]] + messages[i + 1..];
        ReverseAppendFront(messages[i], messages[i + 1..]);
        EntriesAppend(Reverse(messages[i + 1..]), messages[i]);
        stacks := stacks[u := Stack(u) + [ToEntry(messages[i])]];
        assert Stack(u) == pushed + [ToEntry(messages[i])];
      }
      assert messages[0..] == messages;
    }
  }
}
