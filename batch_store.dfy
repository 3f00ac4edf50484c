/** The batch bookkeeping that ChatManager (chat_manager.py) and
    ExistingApproach (context_managers.py) share. Per user, Redis holds a
    stack of messages tagged with a batch id, the id of the open batch and
    one summary slot; MongoDB holds an append-only log of every message.
    When the open batch reaches a threshold its messages are summarized
    into the summary slot, removed from the stack, and the batch id
    advances. */
module BatchStore {
  import opened Messages

  /** datetime.now(), abstracted to a number that grows with time */
  type Timestamp = nat

  /** One JSON entry of the "{user}:stack" Redis list */
  datatype StackEntry = StackEntry(batchId: int, content: Payload, timestamp: Timestamp)

  /** One document of the MongoDB chat_history collection */
  datatype LogDoc = LogDoc(userId: UserId, timestamp: Timestamp, content: Payload, batchId: int)

  /** The JSON value of the "{user}:summary" Redis key */
  datatype BatchSummary = BatchSummary(batchId: int, content: string, count: nat)

  /** summarize_chat_history, a remote language-model call */
  type Summarizer = seq<StackEntry> -> string

  /** What Redis holds for one user: the stack, the stored "{user}:batch_id"
      (absent until the first batch closes) and the summary slot. */
  datatype Session = Session(stack: seq<StackEntry>, storedBatch: Option<int>, summary: Option<BatchSummary>)

  const EmptySession := Session([], None, None)

  /** The batch a new message is tagged with: the stored id, or 1 if none. */
  function OpenBatch(s: Session): int {
    s.storedBatch.GetOr(1)
  }

  /** The entries of batch b, in stack order */
  function InBatch(s: seq<StackEntry>, b: int): (r: seq<StackEntry>)
    ensures |r| <= |s|
  {
    if s == [] then []
    else
      var init, last := s[..|s| - 1], s[|s| - 1];
      assert s == init + [last];
      InBatch(init, b) + (if last.batchId == b then [last] else [])
  }

  /** The entries of every other batch, in stack order */
  function OutsideBatch(s: seq<StackEntry>, b: int): (r: seq<StackEntry>)
    ensures |r| <= |s|
  {
    if s == [] then []
    else
      var init, last := s[..|s| - 1], s[|s| - 1];
      assert s == init + [last];
      OutsideBatch(init, b) + (if last.batchId != b then [last] else [])
  }

  /** The two filters split the stack: every entry lands in exactly one. */
  lemma {:induction false} BatchSplit(s: seq<StackEntry>, b: int)
    ensures |InBatch(s, b)| + |OutsideBatch(s, b)| == |s|
    ensures multiset(InBatch(s, b)) + multiset(OutsideBatch(s, b)) == multiset(s)
  {
    if s != [] {
      var init, last := s[..|s| - 1], s[|s| - 1];
      assert s == init + [last];
      BatchSplit(init, b);
    }
  }

  /** InBatch keeps exactly the entries of batch b, OutsideBatch exactly the
      others. */
  lemma {:induction false} BatchMembers(s: seq<StackEntry>, b: int)
    ensures forall e :: e in InBatch(s, b) <==> e in s && e.batchId == b
    ensures forall e :: e in OutsideBatch(s, b) <==> e in s && e.batchId != b
  {
    if s != [] {
      var init, last := s[..|s| - 1], s[|s| - 1];
      assert s == init + [last];
      BatchMembers(init, b);
    }
  }

  /** Both filters keep relative order: filtering a concatenation is the
      concatenation of the filtered parts. */
  lemma {:induction false} FilterConcat(s: seq<StackEntry>, t: seq<StackEntry>, b: int)
    ensures InBatch(s + t, b) == InBatch(s, b) + InBatch(t, b)
    ensures OutsideBatch(s + t, b) == OutsideBatch(s, b) + OutsideBatch(t, b)
  {
    if t == [] {
      assert s + t == s;
    } else {
      var init, last := t[..|t| - 1], t[|t| - 1];
      assert t == init + [last];
      var st := s + t;
      assert st[..|st| - 1] == s + init && st[|st| - 1] == last;
      FilterConcat(s, init, b);
      var tail := if last.batchId == b then [last] else [];
      calc {
        InBatch(st, b);
        InBatch(s + init, b) + tail;
        InBatch(s, b) + InBatch(init, b) + tail;
        InBatch(s, b) + (InBatch(init, b) + tail);
        InBatch(s, b) + InBatch(t, b);
      }
      var tail' := if last.batchId != b then [last] else [];
      calc {
        OutsideBatch(st, b);
        OutsideBatch(s + init, b) + tail';
        OutsideBatch(s, b) + OutsideBatch(init, b) + tail';
        OutsideBatch(s, b) + (OutsideBatch(init, b) + tail');
        OutsideBatch(s, b) + OutsideBatch(t, b);
      }
    }
  }

  /** A stack whose entries all carry batch b is kept whole by InBatch and
      emptied by OutsideBatch. */
  lemma {:induction false} UniformBatch(s: seq<StackEntry>, b: int)
    requires forall e :: e in s ==> e.batchId == b
    ensures InBatch(s, b) == s && OutsideBatch(s, b) == []
  {
    if s != [] {
      var init, last := s[..|s| - 1], s[|s| - 1];
      assert s == init + [last];
      UniformBatch(init, b);
    }
  }

  /** The stack entry a log document is rehydrated into */
  function ToEntry(d: LogDoc): StackEntry {
    StackEntry(d.batchId, d.content, d.timestamp)
  }

  function Entries(docs: seq<LogDoc>): (r: seq<StackEntry>)
    ensures |r| == |docs|
    ensures forall i :: 0 <= i < |docs| ==> r[i] == ToEntry(docs[i])
  {
    seq(|docs|, i requires 0 <= i < |docs| => ToEntry(docs[i]))
  }

  lemma EntriesAppend(docs: seq<LogDoc>, d: LogDoc)
    ensures Entries(docs + [d]) == Entries(docs) + [ToEntry(d)]
  {
  }

  /** The user's log documents, in insertion order */
  function UserDocs(log: seq<LogDoc>, u: UserId): (r: seq<LogDoc>)
    ensures |r| <= |log|
  {
    if log == [] then []
    else
      var init, last := log[..|log| - 1], log[|log| - 1];
      assert log == init + [last];
      UserDocs(init, u) + (if last.userId == u then [last] else [])
  }

  /** The user's documents are exactly the log documents carrying that user id. */
  lemma {:induction false} UserDocsMembers(log: seq<LogDoc>, u: UserId)
    ensures forall d :: d in UserDocs(log, u) <==> d in log && d.userId == u
  {
    if log != [] {
      var init, last := log[..|log| - 1], log[|log| - 1];
      assert log == init + [last];
      UserDocsMembers(init, u);
    }
  }

  lemma UserDocsAppend(log: seq<LogDoc>, d: LogDoc, u: UserId)
    ensures UserDocs(log + [d], u) == UserDocs(log, u) + (if d.userId == u then [d] else [])
  {
    assert (log + [d])[..|log|] == log;
  }

  /** Timestamps strictly increase along the sequence. */
  ghost predicate Increasing(docs: seq<LogDoc>) {
    forall i, j :: 0 <= i < j < |docs| ==> docs[i].timestamp < docs[j].timestamp
  }

  /** A user's documents inherit the log's timestamp order. */
  lemma {:induction false} UserDocsIncreasing(log: seq<LogDoc>, u: UserId)
    requires Increasing(log)
    ensures Increasing(UserDocs(log, u))
  {
    if log != [] {
      var init, last := log[..|log| - 1], log[|log| - 1];
      assert log == init + [last];
      UserDocsIncreasing(init, u);
      UserDocsMembers(init, u);
      var r := UserDocs(init, u);
      forall d | d in r ensures d.timestamp < last.timestamp {
        var i :| 0 <= i < |init| && init[i] == d;
        assert log[i] == d;
      }
    }
  }

  /** The user's `limit` newest log documents, newest first:
      since timestamps grow along the log, sorting newest first is
      reversing the user's documents (see NewestDocsAreNewest). */
  function NewestDocs(log: seq<LogDoc>, u: UserId, limit: nat): (r: seq<LogDoc>)
    ensures |r| == Min(limit, |UserDocs(log, u)|)
  {
    Reverse(UserDocs(log, u))[..Min(limit, |UserDocs(log, u)|)]
  }

  /** The query result is sorted newest first, and every document of the user
      it leaves out is older than every document it returns. */
  lemma NewestDocsAreNewest(log: seq<LogDoc>, u: UserId, limit: nat)
    requires Increasing(log)
    ensures var r := NewestDocs(log, u, limit);
      && (forall i, j :: 0 <= i < j < |r| ==> r[i].timestamp > r[j].timestamp)
      && (forall d, i :: d in UserDocs(log, u) && d !in r && 0 <= i < |r| ==> d.timestamp < r[i].timestamp)
  {
    var docs := UserDocs(log, u);
    UserDocsIncreasing(log, u);
    var k := Min(limit, |docs|);
    NewestFirstDecreasing(docs, k);
    NewestFirstIsNewest(docs, k);
  }

  /** The first k documents of a reversed increasing log decrease. */
  lemma NewestFirstDecreasing(docs: seq<LogDoc>, k: nat)
    requires Increasing(docs) && k <= |docs|
    ensures var r := Reverse(docs)[..k];
      forall i, j :: 0 <= i < j < |r| ==> r[i].timestamp > r[j].timestamp
  {
    var r, n := Reverse(docs)[..k], |docs|;
    forall i, j | 0 <= i < j < k ensures r[i].timestamp > r[j].timestamp {
      assert r[i] == docs[n - 1 - i] && r[j] == docs[n - 1 - j];
    }
  }

  /** Every document the first k of a reversed increasing log leave out is
      older than each document they keep. */
  lemma NewestFirstIsNewest(docs: seq<LogDoc>, k: nat)
    requires Increasing(docs) && k <= |docs|
    ensures var r := Reverse(docs)[..k];
      forall d, i :: d in docs && d !in r && 0 <= i < |r| ==> d.timestamp < r[i].timestamp
  {
    var r, n := Reverse(docs)[..k], |docs|;
    forall q | n - k <= q < n ensures docs[q] in r {
      assert r[n - 1 - q] == docs[q];
    }
    forall d, i | d in docs && d !in r && 0 <= i < k ensures d.timestamp < r[i].timestamp {
      var p :| 0 <= p < n && docs[p] == d;
      assert r[i] == docs[n - 1 - i];
    }
  }

  /** One add_message / handle_new_message for a user, as the sequential
      model runs it: tag the message with the open batch, push it, and if the
      open batch now holds `threshold` entries, summarize them into the
      summary slot, drop them from the stack and advance the batch id. */
  function AfterAdd(s: Session, m: Payload, ts: Timestamp, threshold: int, summarize: Summarizer): Session {
    var b := OpenBatch(s);
    var stack := s.stack + [StackEntry(b, m, ts)];
    var batch := InBatch(stack, b);
    if |batch| == threshold then
      Session(OutsideBatch(stack, b), Some(b + 1), Some(BatchSummary(b, summarize(batch), |batch|)))
    else
      Session(stack, s.storedBatch, s.summary)
  }

  /** The invariant of a session that has only ever seen adds, relative to the
      user's log documents `docs`: every stacked message belongs to the open
      batch, fewer than `threshold` are waiting, each closed batch held
      exactly `threshold` messages, the stack is the newest part of the log,
      and the summary slot holds the summary of the last closed batch. */
  ghost predicate SteadySession(s: Session, docs: seq<LogDoc>, threshold: nat, summarize: Summarizer) {
    var b := OpenBatch(s);
    var closed := |docs| - |s.stack|;
    && b >= 1
    && (s.storedBatch.Some? ==> b >= 2)
    && (forall e :: e in s.stack ==> e.batchId == b)
    && |s.stack| < threshold
    && 0 <= closed == threshold * (b - 1)
    && s.stack == Entries(docs[closed..])
    && (s.summary.Some? <==> b > 1)
    && (b > 1 ==>
          && threshold <= closed
          && s.summary == Some(BatchSummary(b - 1, summarize(Entries(docs[closed - threshold..closed])), threshold)))
  }

  lemma EmptySessionSteady(threshold: nat, summarize: Summarizer)
    requires threshold >= 1
    ensures SteadySession(EmptySession, [], threshold, summarize)
  {
  }

  /** One add keeps a steady session steady. The batch id advances by exactly
      one, and only on the add that fills the open batch; that add leaves the
      stack empty and summarizes exactly the `threshold` newest log entries. */
  lemma SteadyAfterAdd(s: Session, docs: seq<LogDoc>, u: UserId, m: Payload, ts: Timestamp,
                       threshold: nat, summarize: Summarizer)
    requires threshold >= 1 && SteadySession(s, docs, threshold, summarize)
    ensures SteadySession(AfterAdd(s, m, ts, threshold, summarize), docs + [LogDoc(u, ts, m, OpenBatch(s))],
                          threshold, summarize)
    ensures var s' := AfterAdd(s, m, ts, threshold, summarize);
      |s.stack| + 1 == threshold ==> OpenBatch(s') == OpenBatch(s) + 1 && s'.stack == []
    ensures var s' := AfterAdd(s, m, ts, threshold, summarize);
      |s.stack| + 1 != threshold ==> OpenBatch(s') == OpenBatch(s) && s'.stack == s.stack + [StackEntry(OpenBatch(s), m, ts)]
  {
    var b := OpenBatch(s);
    var d, e := LogDoc(u, ts, m, b), StackEntry(b, m, ts);
    var stack, docs' := s.stack + [e], docs + [d];
    assert ToEntry(d) == e;
    PushTracksLog(s.stack, docs, b, d);
    AfterAddUniform(s, m, ts, threshold, summarize);
    if |s.stack| + 1 == threshold {
      SteadyOnFill(b, stack, docs', threshold, summarize);
    } else {
      SteadyOnPush(s, docs, e, d, threshold, summarize);
    }
  }

  /** AfterAdd on a stack that holds only the open batch: the push either
      fills the batch and closes it, or only extends the stack. */
  lemma AfterAddUniform(s: Session, m: Payload, ts: Timestamp, threshold: nat, summarize: Summarizer)
    requires var stack := s.stack + [StackEntry(OpenBatch(s), m, ts)];
      InBatch(stack, OpenBatch(s)) == stack && OutsideBatch(stack, OpenBatch(s)) == []
    ensures var b := OpenBatch(s);
      var stack := s.stack + [StackEntry(b, m, ts)];
      |stack| == threshold ==>
        AfterAdd(s, m, ts, threshold, summarize) == Session([], Some(b + 1), Some(BatchSummary(b, summarize(stack), threshold)))
    ensures var b := OpenBatch(s);
      var stack := s.stack + [StackEntry(b, m, ts)];
      |stack| != threshold ==> AfterAdd(s, m, ts, threshold, summarize) == Session(stack, s.storedBatch, s.summary)
  {
  }

  /** A stack of batch b that mirrors the newest log documents, pushed with
      one more document of batch b, is still all of batch b and still the
      newest part of the extended log. */
  lemma PushTracksLog(stack: seq<StackEntry>, docs: seq<LogDoc>, b: int, d: LogDoc)
    requires |stack| <= |docs| && stack == Entries(docs[|docs| - |stack|..])
    requires (forall e :: e in stack ==> e.batchId == b) && d.batchId == b
    ensures var stack' := stack + [ToEntry(d)];
      var docs' := docs + [d];
      && InBatch(stack', b) == stack'
      && OutsideBatch(stack', b) == []
      && Entries(docs'[|docs'| - |stack'|..]) == stack'
  {
    var stack', docs' := stack + [ToEntry(d)], docs + [d];
    UniformBatch(stack', b);
    var k := |stack|;
    assert docs'[|docs'| - (k + 1)..] == docs[|docs| - k..] + [d];
    EntriesAppend(docs[|docs| - k..], d);
  }

  /** The add that fills batch b leaves an empty stack, stores b + 1 and the
      summary of the `threshold` newest documents. */
  lemma SteadyOnFill(b: int, stack: seq<StackEntry>, docs: seq<LogDoc>, threshold: nat, summarize: Summarizer)
    requires b >= 1 && threshold >= 1 && |stack| == threshold
    requires |docs| - |stack| == threshold * (b - 1)
    requires Entries(docs[|docs| - |stack|..]) == stack
    ensures SteadySession(Session([], Some(b + 1), Some(BatchSummary(b, summarize(stack), threshold))),
                          docs, threshold, summarize)
  {
    var closed := |docs|;
    assert closed == threshold * b by {
      MulStep(threshold, b);
    }
    assert docs[closed..] == [];
    assert docs[closed - threshold..closed] == docs[|docs| - |stack|..];
  }

  lemma MulStep(t: nat, b: int)
    ensures t * b == t * (b - 1) + t
  {
  }

  /** An add that does not fill the open batch extends the stack and the
      log by the same message and leaves the rest of the session alone. */
  lemma SteadyOnPush(s: Session, docs: seq<LogDoc>, e: StackEntry, d: LogDoc, threshold: nat, summarize: Summarizer)
    requires threshold >= 1 && SteadySession(s, docs, threshold, summarize)
    requires |s.stack| + 1 < threshold
    requires e.batchId == OpenBatch(s) && ToEntry(d) == e
    ensures SteadySession(Session(s.stack + [e], s.storedBatch, s.summary), docs + [d], threshold, summarize)
  {
    var docs', stack := docs + [d], s.stack + [e];
    var closed := |docs| - |s.stack|;
    assert docs'[closed..] == docs[closed..] + [d];
    assert Entries(docs'[closed..]) == stack by {
      EntriesAppend(docs[closed..], d);
    }
    forall x | x in stack ensures x.batchId == OpenBatch(s) {
      if x != e {
        assert x in s.stack;
      }
    }
    if OpenBatch(s) > 1 {
      assert docs'[closed - threshold..closed] == docs[closed - threshold..closed];
    }
  }

  /** SteadyAfterAdd, phrased over the whole log that the add extends */
  lemma SteadyAfterLoggedAdd(s: Session, log: seq<LogDoc>, u: UserId, m: Payload, ts: Timestamp,
                             threshold: nat, summarize: Summarizer)
    requires threshold >= 1
    ensures SteadySession(s, UserDocs(log, u), threshold, summarize) ==>
      SteadySession(AfterAdd(s, m, ts, threshold, summarize),
                    UserDocs(log + [LogDoc(u, ts, m, OpenBatch(s))], u), threshold, summarize)
  {
    UserDocsAppend(log, LogDoc(u, ts, m, OpenBatch(s)), u);
    if SteadySession(s, UserDocs(log, u), threshold, summarize) {
      SteadyAfterAdd(s, UserDocs(log, u), u, m, ts, threshold, summarize);
    }
  }

  /** Appending a document newer than every logged one keeps the log sorted. */
  lemma AppendNewest(log: seq<LogDoc>, d: LogDoc)
    requires Increasing(log)
    requires forall i :: 0 <= i < |log| ==> log[i].timestamp < d.timestamp
    ensures Increasing(log + [d])
  {
  }

  /** One item of get_chat_history / get_context: the summary dict or a
      stack message dict. */
  datatype HistoryItem = SummaryItem(summary: BatchSummary) | MessageItem(entry: StackEntry)

  /** The summary (if present) followed by the stack, in order */
  function History(s: Session): (h: seq<HistoryItem>)
    ensures |h| == |s.stack| + (if s.summary.Some? then 1 else 0)
  {
    (if s.summary.Some? then [SummaryItem(s.summary.value)] else [])
      + seq(|s.stack|, i requires 0 <= i < |s.stack| => MessageItem(s.stack[i]))
  }

  /** In a steady session the history is the summary of the last closed batch
      followed by every logged message since, oldest first, and it never holds
      more than `threshold` items. */
  lemma HistoryOfSteady(s: Session, docs: seq<LogDoc>, threshold: nat, summarize: Summarizer)
    requires SteadySession(s, docs, threshold, summarize)
    ensures var b := OpenBatch(s);
      var h := History(s);
      var closed := threshold * (b - 1);
      && 0 <= closed <= |docs|
      && |h| <= threshold
      && (b == 1 ==> |h| == |docs|)
      && (b > 1 ==> threshold <= closed &&
                    h[0] == SummaryItem(BatchSummary(b - 1, summarize(Entries(docs[closed - threshold..closed])), threshold)))
      && |h| == |docs| - closed + (if b > 1 then 1 else 0)
      && (forall i :: closed <= i < |docs| ==> h[|h| - |docs| + i] == MessageItem(ToEntry(docs[i])))
  {
    var h := History(s);
    var closed := |docs| - |s.stack|;
    forall i | closed <= i < |docs| ensures h[|h| - |docs| + i] == MessageItem(ToEntry(docs[i])) {
      assert s.stack[i - closed] == ToEntry(docs[i]);
    }
  }
}
