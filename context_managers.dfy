/** The alternative context strategies of context_managers.py. Each keeps
    its own state and offers add_message, get_context and
    get_internal_state. */
module ContextManagers {
  import opened Messages
  import opened BatchStore

  /* ---------------------------------------------------------------------
     ExistingApproach: the batched-summary store, run synchronously, with a
     batch closing at ten messages.
     --------------------------------------------------------------------- */

  /** add_message summarizes when the open batch holds this many */
  const BatchSize := 10

  /** What get_internal_state reports: the Redis stack, the summary slot,
      the stored batch id and the user's log documents by ascending
      timestamp. */
  datatype ExistingState = ExistingState(
    stack: seq<StackEntry>,
    summary: Option<BatchSummary>,
    batchId: Option<int>,
    docs: seq<LogDoc>)

  class ExistingApproach {
    var stacks: map<UserId, seq<StackEntry>>
    var batchIds: map<UserId, int>
    var summaries: map<UserId, BatchSummary>
    var log: seq<LogDoc>
    /** the last value datetime.now() returned */
    var clock: Timestamp
    const summarize: Summarizer

    ghost predicate Valid()
      reads this
    {
      && Increasing(log)
      && (forall i :: 0 <= i < |log| ==> log[i].timestamp <= clock)
    }

    constructor (summarize: Summarizer)
      ensures Valid()
      ensures stacks == map[] && batchIds == map[] && summaries == map[] && log == []
      ensures this.summarize == summarize
      ensures forall u :: Steady(u)
    {
      stacks, batchIds, summaries, log := map[], map[], map[], [];
      clock := 0;
      this.summarize := summarize;
      new;
      forall u ensures Steady(u) {
        assert SessionOf(u) == EmptySession && UserDocs(log, u) == [];
        EmptySessionSteady(BatchSize, summarize);
      }
    }

    function Stack(u: UserId): seq<StackEntry>
      reads this
    {
      if u in stacks then stacks[u] else []
    }

    function SessionOf(u: UserId): Session
      reads this
    {
      Session(Stack(u),
              if u in batchIds then Some(batchIds[u]) else None,
              if u in summaries then Some(summaries[u]) else None)
    }

    ghost predicate Steady(u: UserId)
      reads this
    {
      SteadySession(SessionOf(u), UserDocs(log, u), BatchSize, summarize)
    }

    /** get_internal_state (with get_redis_data and get_mongodb_data) */
    function GetInternalState(u: UserId): (st: ExistingState)
      requires Valid()
      reads this
      ensures st.stack == Stack(u)
      ensures st.summary == SessionOf(u).summary && st.batchId == SessionOf(u).storedBatch
      ensures forall d :: d in st.docs <==> d in log && d.userId == u
      ensures Increasing(st.docs)
    {
      UserDocsMembers(log, u);
      UserDocsIncreasing(log, u);
      ExistingState(Stack(u),
                    if u in summaries then Some(summaries[u]) else None,
                    if u in batchIds then Some(batchIds[u]) else None,
                    UserDocs(log, u))
    }

    /** add_message: tag with the open batch, push, log, and once the open
        batch holds ten messages summarize it and advance the batch id. */
    method AddMessage(u: UserId, m: Payload)
      requires Valid()
      modifies this
      ensures Valid()
      ensures clock == old(clock) + 1
      ensures log == old(log) + [LogDoc(u, clock, m, OpenBatch(old(SessionOf(u))))]
      ensures SessionOf(u) == AfterAdd(old(SessionOf(u)), m, clock, BatchSize, summarize)
      ensures forall v :: v != u ==> SessionOf(v) == old(SessionOf(v))
      ensures old(Steady(u)) ==> Steady(u)
      ensures forall v :: v != u && old(Steady(v)) ==> Steady(v)
    {
      ghost var before := SessionOf(u);
      var batchId := PushMessage(u, m);
      ghost var pushed := Stack(u);
      CloseBatchIfFull(u, batchId);
      assert SessionOf(u) == AfterAdd(before, m, clock, BatchSize, summarize) by {
        assert pushed == before.stack + [StackEntry(batchId, m, clock)];
      }
      AppendNewest(old(log), LogDoc(u, clock, m, batchId));
      SteadyAfterLoggedAdd(before, old(log), u, m, clock, BatchSize, summarize);
      forall v | v != u ensures UserDocs(log, v) == UserDocs(old(log), v) {
        UserDocsAppend(old(log), LogDoc(u, clock, m, batchId), v);
      }
    }

    /** The first half of add_message: stamp, rpush and insert. */
    method PushMessage(u: UserId, m: Payload) returns (batchId: int)
      requires Valid()
      modifies this
      ensures batchId == OpenBatch(old(SessionOf(u)))
      ensures clock == old(clock) + 1
      ensures stacks == old(stacks)[u := old(Stack(u)) + [StackEntry(batchId, m, clock)]]
      ensures log == old(log) + [LogDoc(u, clock, m, batchId)]
      ensures batchIds == old(batchIds) && summaries == old(summaries)
      ensures forall i :: 0 <= i < |old(log)| ==> old(log)[i].timestamp < clock
    {
      batchId := if u in batchIds then batchIds[u] else 1;
      clock := clock + 1;
      var timestamp := clock;
      stacks := stacks[u := Stack(u) + [StackEntry(batchId, m, timestamp)]];
      log := log + [LogDoc(u, timestamp, m, batchId)];
    }

    /** The second half of add_message. */
    method CloseBatchIfFull(u: UserId, batchId: int)
      modifies this
      ensures log == old(log) && clock == old(clock)
      ensures var batch := InBatch(old(Stack(u)), batchId);
        var rest := OutsideBatch(old(Stack(u)), batchId);
        if |batch| == BatchSize then
          && summaries == old(summaries)[u := BatchSummary(batchId, summarize(batch), |batch|)]
          && stacks == (if rest == [] then old(stacks) - {u} else old(stacks)[u := rest])
          && batchIds == old(batchIds)[u := batchId + 1]
        else
          summaries == old(summaries) && stacks == old(stacks) && batchIds == old(batchIds)
    {
      var count := CountMessagesWithBatch(u, batchId);
      if count == BatchSize {
        CreateSummary(u, batchId);
        batchIds := batchIds[u := batchId + 1];
      }
    }

    /** get_context: the summary (if any) followed by the stack */
    function GetContext(u: UserId): (h: seq<HistoryItem>)
      reads this
      ensures |h| == |Stack(u)| + (if u in summaries then 1 else 0)
    {
      History(SessionOf(u))
    }

    /** _count_messages_with_batch */
    method CountMessagesWithBatch(u: UserId, b: int) returns (count: nat)
      ensures count == |InBatch(Stack(u), b)|
    {
      count := 0;
      var messages := Stack(u);
      for i := 0 to |messages|
        invariant count == |InBatch(messages[..i], b)|
      {
        assert messages[..i + 1][..i] == messages[..i];
        if messages[i].batchId == b {
          count := count + 1;
        }
      }
      assert messages[..|messages|] == messages;
    }

    /** _create_summary: overwrite the summary slot with batch b's summary
        and keep the other stacked messages in order. */
    method CreateSummary(u: UserId, b: int)
      modifies this
      ensures log == old(log) && batchIds == old(batchIds) && clock == old(clock)
      ensures var batch := InBatch(old(Stack(u)), b);
        summaries == old(summaries)[u := BatchSummary(b, summarize(batch), |batch|)]
      ensures var rest := OutsideBatch(old(Stack(u)), b);
        stacks == if rest == [] then old(stacks) - {u} else old(stacks)[u := rest]
    {
      var allMessages := Stack(u);
      var messages := InBatch(allMessages, b);
      summaries := summaries[u := BatchSummary(b, summarize(messages), |messages|)];
      var remaining := OutsideBatch(allMessages, b);
      stacks := stacks - {u};
      for i := 0 to |remaining|
        invariant stacks == if i == 0 then old(stacks) - {u} else old(stacks)[u := remaining[..i]]
        invariant log == old(log) && batchIds == old(batchIds) && clock == old(clock)
        invariant summaries == old(summaries)[u := BatchSummary(b, summarize(messages), |messages|)]
      {
        assert remaining[..i + 1] == Stack(u) + [remaining[i]];
        stacks := stacks[u := Stack(u) + [remaining[i]]];
      }
      assert remaining[..|remaining|] == remaining;
    }
  }

  /* ---------------------------------------------------------------------
     HierarchicalSummary: four levels; every ten entries of a level are
     summarized into one entry of the level above (level 4 is the top).
     --------------------------------------------------------------------- */

  /** How many entries of a level one summary above it covers */
  const Fanout := 10

  /** summarize_chat_history applied to a list of messages or of summaries */
  type LevelSummarizer = seq<Payload> -> string

  /** The `levels` dictionary: raw messages, then three levels of summaries */
  datatype Tiers = Tiers(level1: seq<Payload>, level2: seq<Payload>, level3: seq<Payload>, level4: seq<Payload>)

  const NoTiers := Tiers([], [], [], [])

  /** One summary per complete run of ten entries of `lower`, in order */
  function Summaries(lower: seq<Payload>, summarize: LevelSummarizer): seq<Payload>
    decreases |lower|
  {
    if |lower| < Fanout then []
    else [Text(summarize(lower[..Fanout]))] + Summaries(lower[Fanout..], summarize)
  }

  /** There are |lower|/10 summaries, and entry i summarizes
      lower[10i .. 10i+10]. */
  lemma {:induction false} SummariesAt(lower: seq<Payload>, summarize: LevelSummarizer)
    ensures var r := Summaries(lower, summarize);
      && |r| == |lower| / Fanout
      && forall i :: 0 <= i < |r| ==> r[i] == Text(summarize(lower[Fanout * i..Fanout * i + Fanout]))
    decreases |lower|
  {
    if |lower| >= Fanout {
      var rest := lower[Fanout..];
      SummariesAt(rest, summarize);
      var r := Summaries(lower, summarize);
      forall i | 0 <= i < |r| ensures r[i] == Text(summarize(lower[Fanout * i..Fanout * i + Fanout])) {
        if i > 0 {
          var j := Fanout * (i - 1);
          assert Fanout * i == Fanout + j;
          assert r[i] == Summaries(rest, summarize)[i - 1];
          assert lower[Fanout + j..Fanout + j + Fanout] == rest[j..j + Fanout];
        }
      }
    }
  }

  /** Appending one entry to a level adds a summary of its last ten entries
      exactly when its length reaches a multiple of ten. */
  lemma {:induction false} SummariesPush(lower: seq<Payload>, x: Payload, summarize: LevelSummarizer)
    ensures (|lower| + 1) % Fanout != 0 ==> Summaries(lower + [x], summarize) == Summaries(lower, summarize)
    ensures (|lower| + 1) % Fanout == 0 ==>
      Summaries(lower + [x], summarize) == Summaries(lower, summarize) + [Text(summarize((lower + [x])[|lower| + 1 - Fanout..]))]
    decreases |lower|
  {
    var lower' := lower + [x];
    if |lower| >= Fanout {
      var rest := lower[Fanout..];
      var head := [Text(summarize(lower[..Fanout]))];
      SummariesPush(rest, x, summarize);
      assert |lower| + 1 == |rest| + 1 + Fanout;
      assert lower'[..Fanout] == lower[..Fanout];
      assert lower'[Fanout..] == rest + [x];
      assert Summaries(lower', summarize) == head + Summaries(rest + [x], summarize);
      assert Summaries(lower, summarize) == head + Summaries(rest, summarize);
      if |lower'| % Fanout == 0 {
        var y := Text(summarize(lower'[|lower'| - Fanout..]));
        assert lower'[|lower'| - Fanout..] == (rest + [x])[|rest + [x]| - Fanout..];
        assert head + (Summaries(rest, summarize) + [y]) == head + Summaries(rest, summarize) + [y];
      }
    } else if |lower'| == Fanout {
      assert lower'[..Fanout] == lower' && lower'[Fanout..] == [];
      assert lower'[|lower'| - Fanout..] == lower';
    }
  }

  /** `upper` holds one summary per complete run of ten entries of `lower`,
      in order (SummariesAt spells this out index by index). */
  ghost predicate RolledUp(lower: seq<Payload>, upper: seq<Payload>, summarize: LevelSummarizer) {
    upper == Summaries(lower, summarize)
  }

  ghost predicate WellTiered(t: Tiers, summarize: LevelSummarizer) {
    && RolledUp(t.level1, t.level2, summarize)
    && RolledUp(t.level2, t.level3, summarize)
    && RolledUp(t.level3, t.level4, summarize)
  }

  /** What add_message does to the levels */
  function AddToTiers(t: Tiers, m: Payload, summarize: LevelSummarizer): Tiers {
    var l1 := t.level1 + [m];
    if |l1| % Fanout != 0 then Tiers(l1, t.level2, t.level3, t.level4)
    else
      var l2 := t.level2 + [Text(summarize(l1[|l1| - Fanout..]))];
      if |l2| % Fanout != 0 then Tiers(l1, l2, t.level3, t.level4)
      else
        var l3 := t.level3 + [Text(summarize(l2[|l2| - Fanout..]))];
        if |l3| % Fanout != 0 then Tiers(l1, l2, l3, t.level4)
        else Tiers(l1, l2, l3, t.level4 + [Text(summarize(l3[|l3| - Fanout..]))])
  }

  /** AddToTiers, one case per level the cascade stops at */
  lemma AddToTiersCases(t: Tiers, m: Payload, summarize: LevelSummarizer)
    ensures var l1 := t.level1 + [m];
      |l1| % Fanout != 0 ==> AddToTiers(t, m, summarize) == Tiers(l1, t.level2, t.level3, t.level4)
    ensures var l1 := t.level1 + [m];
      |l1| % Fanout == 0 ==>
        var l2 := t.level2 + [Text(summarize(l1[|l1| - Fanout..]))];
        |l2| % Fanout != 0 ==> AddToTiers(t, m, summarize) == Tiers(l1, l2, t.level3, t.level4)
    ensures var l1 := t.level1 + [m];
      |l1| % Fanout == 0 ==>
        var l2 := t.level2 + [Text(summarize(l1[|l1| - Fanout..]))];
        |l2| % Fanout == 0 ==>
          var l3 := t.level3 + [Text(summarize(l2[|l2| - Fanout..]))];
          AddToTiers(t, m, summarize) ==
            if |l3| % Fanout != 0 then Tiers(l1, l2, l3, t.level4)
            else Tiers(l1, l2, l3, t.level4 + [Text(summarize(l3[|l3| - Fanout..]))])
  {
  }

  lemma AddKeepsWellTiered(t: Tiers, m: Payload, summarize: LevelSummarizer)
    requires WellTiered(t, summarize)
    ensures WellTiered(AddToTiers(t, m, summarize), summarize)
    ensures AddToTiers(t, m, summarize).level1 == t.level1 + [m]
  {
    var l1 := t.level1 + [m];
    SummariesPush(t.level1, m, summarize);
    if |l1| % Fanout != 0 {
      assert AddToTiers(t, m, summarize) == Tiers(l1, t.level2, t.level3, t.level4);
    } else {
      var x2 := Text(summarize(l1[|l1| - Fanout..]));
      var l2 := t.level2 + [x2];
      SummariesPush(t.level2, x2, summarize);
      if |l2| % Fanout != 0 {
        assert AddToTiers(t, m, summarize) == Tiers(l1, l2, t.level3, t.level4);
      } else {
        var x3 := Text(summarize(l2[|l2| - Fanout..]));
        var l3 := t.level3 + [x3];
        SummariesPush(t.level3, x3, summarize);
        if |l3| % Fanout != 0 {
          assert AddToTiers(t, m, summarize) == Tiers(l1, l2, l3, t.level4);
        } else {
          var l4 := t.level4 + [Text(summarize(l3[|l3| - Fanout..]))];
          assert AddToTiers(t, m, summarize) == Tiers(l1, l2, l3, l4);
        }
      }
    }
  }

  /** The levels after adding `ms`, one by one, to empty levels */
  function BuildTiers(ms: seq<Payload>, summarize: LevelSummarizer): Tiers {
    if ms == [] then NoTiers
    else AddToTiers(BuildTiers(ms[..|ms| - 1], summarize), ms[|ms| - 1], summarize)
  }

  lemma {:induction false} BuildTiersWellTiered(ms: seq<Payload>, summarize: LevelSummarizer)
    ensures WellTiered(BuildTiers(ms, summarize), summarize)
    ensures BuildTiers(ms, summarize).level1 == ms
  {
    if ms != [] {
      BuildTiersWellTiered(ms[..|ms| - 1], summarize);
      AddKeepsWellTiered(BuildTiers(ms[..|ms| - 1], summarize), ms[|ms| - 1], summarize);
      assert ms[..|ms| - 1] + [ms[|ms| - 1]] == ms;
    }
  }

  /** After n adds the levels hold n, n/10, n/100 and n/1000 entries; in
      particular 1000 adds give 1000, 100, 10 and 1. */
  lemma TierCounts(ms: seq<Payload>, summarize: LevelSummarizer)
    ensures var t := BuildTiers(ms, summarize);
      && |t.level1| == |ms|
      && |t.level2| == |ms| / 10
      && |t.level3| == |ms| / 100
      && |t.level4| == |ms| / 1000
    ensures |ms| == 1000 ==>
      var t := BuildTiers(ms, summarize);
      |t.level2| == 100 && |t.level3| == 10 && |t.level4| == 1
  {
    BuildTiersWellTiered(ms, summarize);
    var t := BuildTiers(ms, summarize);
    SummariesAt(t.level1, summarize);
    SummariesAt(t.level2, summarize);
    SummariesAt(t.level3, summarize);
    var n := |ms|;
    assert n / 10 / 10 == n / 100;
    assert n / 100 / 10 == n / 1000;
  }

  /** get_context's selection, on the levels as values */
  function TiersContext(t: Tiers, numMessages: int): (r: seq<Payload>)
    ensures var recent := TakeLast(t.level1, numMessages);
      && |recent| + (if t.level4 != [] then 1 else 0) <= |r| <= |recent| + 9
      && r[|r| - |recent|..] == recent
      && (numMessages > 0 ==> |r| <= 9 + numMessages)
      && (numMessages == 0 ==> r[|r| - |t.level1|..] == t.level1)
      && (t.level4 != [] ==> r[0] == t.level4[|t.level4| - 1])
      && (t.level4 == [] && t.level3 == [] && t.level2 == [] ==> r == recent)
  {
    TakeLast(t.level4, 1) + TakeLast(t.level3, 3) + TakeLast(t.level2, 5) + TakeLast(t.level1, numMessages)
  }

  class HierarchicalSummary {
    var level1: seq<Payload>
    var level2: seq<Payload>
    var level3: seq<Payload>
    var level4: seq<Payload>
    const summarize: LevelSummarizer

    function Levels(): Tiers
      reads this
    {
      Tiers(level1, level2, level3, level4)
    }

    ghost predicate Valid()
      reads this
    {
      WellTiered(Levels(), summarize)
    }

    constructor (summarize: LevelSummarizer)
      ensures Valid() && Levels() == NoTiers
      ensures this.summarize == summarize
    {
      level1, level2, level3, level4 := [], [], [], [];
      this.summarize := summarize;
    }

    /** add_message: append to level 1 and cascade the summaries upward;
        the levels stay rolled up. */
    method AddMessage(u: UserId, m: Payload)
      requires Valid()
      modifies this
      ensures Valid()
      ensures Levels() == AddToTiers(old(Levels()), m, summarize)
      ensures level1 == old(level1) + [m]
    {
      AddKeepsWellTiered(Levels(), m, summarize);
      AppendAndCascade(m);
    }

    /** The body of add_message: append the message to level 1; whenever a
        level's length reaches a multiple of ten, append the summary of its
        last ten entries to the level above. */
    method AppendAndCascade(m: Payload)
      modifies this
      ensures Levels() == AddToTiers(old(Levels()), m, summarize)
    {
      ghost var t := Levels();
      AddToTiersCases(t, m, summarize);
      level1 := level1 + [m];
      if |level1| % Fanout == 0 {
        var summary := summarize(level1[|level1| - Fanout..]);
        level2 := level2 + [Text(summary)];
        if |level2| % Fanout == 0 {
          summary := summarize(level2[|level2| - Fanout..]);
          level3 := level3 + [Text(summary)];
          if |level3| % Fanout == 0 {
            summary := summarize(level3[|level3| - Fanout..]);
            level4 := level4 + [Text(summary)];
          }
        }
      }
    }

    /** get_context: the newest level-4 summary, three level-3, five level-2
        summaries, then the last num_messages raw messages */
    function GetContext(u: UserId, numMessages: int): (r: seq<Payload>)
      reads this
      ensures var recent := TakeLast(level1, numMessages);
        && |recent| + (if level4 != [] then 1 else 0) <= |r| <= |recent| + 9
        && r[|r| - |recent|..] == recent
        && (level4 != [] ==> r[0] == level4[|level4| - 1])
    {
      var t := Tiers(level1, level2, level3, level4);
      TiersContext(t, numMessages)
    }

    /** get_internal_state: the four levels; each level above the first
        holds one summary per full ten entries of the level below. */
    function GetInternalState(u: UserId): (st: Tiers)
      requires Valid()
      reads this
      ensures WellTiered(st, summarize)
      ensures |st.level2| == |st.level1| / Fanout && |st.level3| == |st.level2| / Fanout
      ensures |st.level4| == |st.level3| / Fanout
    {
      SummariesAt(level1, summarize);
      SummariesAt(level2, summarize);
      SummariesAt(level3, summarize);
      Levels()
    }
  }

  /** message['content'], which raises unless the message is a dictionary
      holding a 'content' key */
  function ContentOf(m: Payload): (c: Option<string>)
    ensures c.Some? <==> m.Fields? && m.content.Some?
  {
    if m.Fields? then m.content else None
  }

  /* ---------------------------------------------------------------------
     KeywordExtractor: every message gets a TF-IDF importance score; the
     context is the top-scoring messages.
     --------------------------------------------------------------------- */

  /** The mean TF-IDF weight of each message, fitted on all of them */
  type Scorer = seq<string> -> seq<real>

  /** The scorer returns one score per message (one row per document). */
  ghost predicate RowPerMessage(score: Scorer) {
    forall ms: seq<string> {:trigger score(ms)} :: |score(ms)| == |ms|
  }

  /** 0, 1, ..., n-1 */
  function Range(n: nat): (r: seq<nat>)
    ensures |r| == n && forall i :: 0 <= i < n ==> r[i] == i
  {
    seq(n, i requires 0 <= i < n => i)
  }

  ghost predicate IndicesBelow(order: seq<nat>, n: nat) {
    forall j :: 0 <= j < |order| ==> order[j] < n
  }

  /** The keys of the listed indices never decrease */
  ghost predicate SortedByKey(order: seq<nat>, keys: seq<real>)
    requires IndicesBelow(order, |keys|)
  {
    forall a, b :: 0 <= a < b < |order| ==> keys[order[a]] <= keys[order[b]]
  }

  /** Insert index i after every listed index whose key is at most keys[i] */
  function InsertByKey(order: seq<nat>, i: nat, keys: seq<real>): (r: seq<nat>)
    requires i < |keys| && IndicesBelow(order, |keys|)
    ensures |r| == |order| + 1 && IndicesBelow(r, |keys|)
  {
    if order == [] || keys[order[|order| - 1]] <= keys[i] then order + [i]
    else InsertByKey(order[..|order| - 1], i, keys) + [order[|order| - 1]]
  }

  /** Every listed index has a key of at most `bound` */
  ghost predicate KeysAtMost(order: seq<nat>, keys: seq<real>, bound: real)
    requires IndicesBelow(order, |keys|)
  {
    forall j :: 0 <= j < |order| ==> keys[order[j]] <= bound
  }

  lemma {:induction false} InsertByKeyPerm(order: seq<nat>, i: nat, keys: seq<real>)
    requires i < |keys| && IndicesBelow(order, |keys|)
    ensures multiset(InsertByKey(order, i, keys)) == multiset(order) + multiset{i}
  {
    if order != [] && keys[order[|order| - 1]] > keys[i] {
      var init := order[..|order| - 1];
      InsertByKeyPerm(init, i, keys);
      assert order == init + [order[|order| - 1]];
    }
  }

  lemma {:induction false} InsertByKeyBound(order: seq<nat>, i: nat, keys: seq<real>, bound: real)
    requires i < |keys| && IndicesBelow(order, |keys|)
    requires KeysAtMost(order, keys, bound) && keys[i] <= bound
    ensures KeysAtMost(InsertByKey(order, i, keys), keys, bound)
  {
    if order != [] && keys[order[|order| - 1]] > keys[i] {
      InsertByKeyBound(order[..|order| - 1], i, keys, bound);
    }
  }

  /** Appending an index whose key is at least every listed key keeps the
      list sorted by key. */
  lemma SortedAppend(order: seq<nat>, x: nat, keys: seq<real>)
    requires x < |keys| && IndicesBelow(order, |keys|) && SortedByKey(order, keys)
    requires KeysAtMost(order, keys, keys[x])
    ensures IndicesBelow(order + [x], |keys|) && SortedByKey(order + [x], keys)
  {
    var r := order + [x];
    forall a, b | 0 <= a < b < |r| ensures keys[r[a]] <= keys[r[b]] {
      assert r[a] == order[a];
      if b < |order| {
        assert r[b] == order[b];
      }
    }
  }

  lemma {:induction false} InsertByKeySorted(order: seq<nat>, i: nat, keys: seq<real>)
    requires i < |keys| && IndicesBelow(order, |keys|) && SortedByKey(order, keys)
    ensures SortedByKey(InsertByKey(order, i, keys), keys)
  {
    if order == [] {
      SortedAppend(order, i, keys);
    } else {
      var init, last := order[..|order| - 1], order[|order| - 1];
      if keys[last] <= keys[i] {
        assert KeysAtMost(order, keys, keys[i]) by {
          assert forall j :: 0 <= j < |order| - 1 ==> keys[order[j]] <= keys[last];
        }
        SortedAppend(order, i, keys);
      } else {
        assert SortedByKey(init, keys) by {
          assert forall j :: 0 <= j < |init| ==> init[j] == order[j];
        }
        assert KeysAtMost(init, keys, keys[last]) by {
          assert forall j :: 0 <= j < |init| ==> init[j] == order[j];
        }
        InsertByKeySorted(init, i, keys);
        InsertByKeyBound(init, i, keys, keys[last]);
        var r' := InsertByKey(init, i, keys);
        SortedAppend(r', last, keys);
        assert InsertByKey(order, i, keys) == r' + [last];
      }
    }
  }

  /** numpy's argsort on the first n keys: the indices by ascending key */
  function ArgSortUpTo(keys: seq<real>, n: nat): (r: seq<nat>)
    requires n <= |keys|
    ensures |r| == n && IndicesBelow(r, |keys|)
  {
    if n == 0 then [] else InsertByKey(ArgSortUpTo(keys, n - 1), n - 1, keys)
  }

  function ArgSort(keys: seq<real>): (r: seq<nat>)
    ensures |r| == |keys| && IndicesBelow(r, |keys|)
  {
    ArgSortUpTo(keys, |keys|)
  }

  lemma {:induction false} ArgSortUpToSorted(keys: seq<real>, n: nat)
    requires n <= |keys|
    ensures SortedByKey(ArgSortUpTo(keys, n), keys)
  {
    if n > 0 {
      ArgSortUpToSorted(keys, n - 1);
      InsertByKeySorted(ArgSortUpTo(keys, n - 1), n - 1, keys);
    }
  }

  lemma RangeStep(n: nat)
    requires n > 0
    ensures Range(n) == Range(n - 1) + [n - 1]
  {
  }

  lemma {:induction false} ArgSortUpToPerm(keys: seq<real>, n: nat)
    requires n <= |keys|
    ensures multiset(ArgSortUpTo(keys, n)) == multiset(Range(n))
  {
    if n > 0 {
      var prev := ArgSortUpTo(keys, n - 1);
      ArgSortUpToPerm(keys, n - 1);
      InsertByKeyPerm(prev, n - 1, keys);
      assert ArgSortUpTo(keys, n) == InsertByKey(prev, n - 1, keys);
      RangeStep(n);
      assert multiset(Range(n)) == multiset(Range(n - 1)) + multiset([n - 1]);
    }
  }

  /** argsort returns every index exactly once, by ascending key. */
  lemma ArgSortCorrect(keys: seq<real>)
    ensures SortedByKey(ArgSort(keys), keys)
    ensures multiset(ArgSort(keys)) == multiset(Range(|keys|))
    ensures forall j :: 0 <= j < |keys| ==> j in ArgSort(keys)
  {
    ArgSortUpToSorted(keys, |keys|);
    ArgSortUpToPerm(keys, |keys|);
    forall j | 0 <= j < |keys| ensures j in ArgSort(keys) {
      assert Range(|keys|)[j] == j;
      assert j in multiset(Range(|keys|));
    }
  }

  /** argsort never lists an index twice. */
  lemma ArgSortDistinct(keys: seq<real>)
    ensures forall a, b :: 0 <= a < b < |keys| ==> ArgSort(keys)[a] != ArgSort(keys)[b]
  {
    var order := ArgSort(keys);
    ArgSortUpToPerm(keys, |keys|);
    forall a, b | 0 <= a < b < |order| ensures order[a] != order[b] {
      CountPair(order, a, b);
      DistinctCount(Range(|keys|), order[a]);
    }
  }

  /** In a list sorted by key that lists every index, each index outside
      the last k positions has a key no larger than those in them. */
  lemma SuffixIsTop(order: seq<nat>, keys: seq<real>, k: nat)
    requires k <= |order| && IndicesBelow(order, |keys|) && SortedByKey(order, keys)
    requires forall j :: 0 <= j < |keys| ==> j in order
    ensures var top := order[|order| - k..];
      forall j, q :: 0 <= j < |keys| && j !in top && 0 <= q < k ==> keys[j] <= keys[top[q]]
  {
    var off := |order| - k;
    var top := order[off..];
    assert forall c :: off <= c < |order| ==> top[c - off] == order[c];
    forall j, q | 0 <= j < |keys| && j !in top && 0 <= q < k ensures keys[j] <= keys[top[q]] {
      assert j in order;
      var c :| 0 <= c < |order| && order[c] == j;
      assert top[q] == order[off + q];
    }
  }

  /** The last top_n indices of the argsort of the scores */
  function Picked(scores: seq<real>, topN: int): (r: seq<nat>)
    ensures IndicesBelow(r, |scores|)
    ensures topN > 0 ==> |r| == Min(topN, |scores|)
    ensures topN == 0 ==> |r| == |scores|
  {
    TakeLast(ArgSort(scores), topN)
  }

  /** A suffix of a list sorted by key without repeats is itself sorted by
      key without repeats. */
  lemma SuffixSorted(order: seq<nat>, keys: seq<real>, off: nat)
    requires off <= |order| && IndicesBelow(order, |keys|) && SortedByKey(order, keys)
    requires forall a, b :: 0 <= a < b < |order| ==> order[a] != order[b]
    ensures var top := order[off..];
      forall a, b :: 0 <= a < b < |top| ==> top[a] != top[b] && keys[top[a]] <= keys[top[b]]
  {
    var top := order[off..];
    forall a, b | 0 <= a < b < |top| ensures top[a] != top[b] && keys[top[a]] <= keys[top[b]] {
      assert top[a] == order[off + a] && top[b] == order[off + b];
    }
  }

  /** The picked indices are distinct and by ascending score, and every
      index left out scores no higher than any index picked. */
  lemma PickedAreTop(scores: seq<real>, topN: int)
    ensures var picked := Picked(scores, topN);
      && (forall a, b :: 0 <= a < b < |picked| ==> picked[a] != picked[b] && scores[picked[a]] <= scores[picked[b]])
      && (forall j, k :: 0 <= j < |scores| && j !in picked && 0 <= k < |picked| ==> scores[j] <= scores[picked[k]])
  {
    var order := ArgSort(scores);
    var picked := Picked(scores, topN);
    assert picked == order[|order| - |picked|..];
    ArgSortCorrect(scores);
    ArgSortDistinct(scores);
    SuffixSorted(order, scores, |order| - |picked|);
    SuffixIsTop(order, scores, |picked|);
  }

  /** get_context's selection: with no scores every message; otherwise the
      messages at the picked positions, in the picked order. */
  function KeywordContext(messages: seq<string>, scores: seq<real>, topN: int): (r: seq<string>)
    requires scores == [] || |scores| == |messages|
    ensures scores == [] ==> r == messages
    ensures scores != [] ==>
      var picked := Picked(scores, topN);
      |r| == |picked| && forall k :: 0 <= k < |picked| ==> r[k] == messages[picked[k]]
  {
    if scores == [] then messages
    else
      var picked := Picked(scores, topN);
      seq(|picked|, k requires 0 <= k < |picked| => messages[picked[k]])
  }

  /** Two positions holding the same value count it twice. */
  lemma CountPair(s: seq<nat>, a: nat, b: nat)
    requires a < b < |s|
    ensures multiset(s)[s[a]] >= 1 + (if s[a] == s[b] then 1 else 0)
  {
    assert s == s[..b] + s[b..];
    assert s[a] in s[..b];
    assert s[b..][0] == s[b];
  }

  /** An index list without repeats holds each value at most once. */
  lemma {:induction false} DistinctCount(s: seq<nat>, x: nat)
    requires forall a, b :: 0 <= a < b < |s| ==> s[a] != s[b]
    ensures multiset(s)[x] <= 1
  {
    if s != [] {
      var init := s[..|s| - 1];
      DistinctCount(init, x);
      assert s == init + [s[|s| - 1]];
      if s[|s| - 1] == x {
        assert x !in init;
      }
    }
  }

  class KeywordExtractor {
    var messages: seq<string>
    var importanceScores: seq<real>
    const score: Scorer

    /** Scores exist, one per message, exactly when there are two or more
        messages, and then they score the current messages. */
    ghost predicate Valid()
      reads this
    {
      && RowPerMessage(score)
      && if |messages| > 1 then importanceScores == score(messages) else importanceScores == []
    }

    constructor (score: Scorer)
      requires RowPerMessage(score)
      ensures Valid() && messages == [] && importanceScores == [] && this.score == score
    {
      messages, importanceScores := [], [];
      this.score := score;
    }

    /** add_message: append message['content'] and rescore. A message
        without a 'content' key raises before anything changes; `ok` is
        false then. */
    method AddMessage(u: UserId, m: Payload) returns (ok: bool)
      requires Valid()
      modifies this
      ensures Valid()
      ensures ok <==> ContentOf(m).Some?
      ensures messages == if ok then old(messages) + [ContentOf(m).value] else old(messages)
      ensures !ok ==> importanceScores == old(importanceScores)
    {
      var content := ContentOf(m);
      if content.None? {
        return false;
      }
      messages := messages + [content.value];
      UpdateImportanceScores();
      return true;
    }

    /** _update_importance_scores: refit only with more than one message */
    method UpdateImportanceScores()
      modifies this
      ensures messages == old(messages)
      ensures importanceScores == if |messages| > 1 then score(messages) else old(importanceScores)
    {
      if |messages| > 1 {
        importanceScores := score(messages);
      }
    }

    /** get_context */
    function GetContext(u: UserId, topN: int): (r: seq<string>)
      requires Valid()
      reads this
      ensures |messages| <= 1 ==> r == messages
    {
      KeywordContext(messages, importanceScores, topN)
    }
  }

  /* ---------------------------------------------------------------------
     TopicClusterer: k-means topic labels over the messages; the context
     is the messages of one topic.
     --------------------------------------------------------------------- */

  /** The k-means cluster label of each message, fitted on TF-IDF vectors */
  type Labeler = seq<string> -> seq<int>

  /** The messages paired (by position, up to the shorter list) with label id */
  function OnTopic(ms: seq<string>, ts: seq<int>, id: int): (r: seq<string>)
    ensures |r| <= Min(|ms|, |ts|)
  {
    if ms == [] || ts == [] then []
    else
      var n := Min(|ms|, |ts|);
      OnTopic(ms[..n - 1], ts[..n - 1], id) + (if ts[n - 1] == id then [ms[n - 1]] else [])
  }

  /** A message is selected exactly when some position of the zip holds it
      with the requested label. */
  lemma {:induction false} OnTopicMembers(ms: seq<string>, ts: seq<int>, id: int)
    ensures forall x :: x in OnTopic(ms, ts, id) <==>
      exists i :: 0 <= i < Min(|ms|, |ts|) && ms[i] == x && ts[i] == id
  {
    if ms != [] && ts != [] {
      var n := Min(|ms|, |ts|);
      OnTopicMembers(ms[..n - 1], ts[..n - 1], id);
      forall x | x in OnTopic(ms, ts, id)
        ensures exists i :: 0 <= i < n && ms[i] == x && ts[i] == id
      {
        if x in OnTopic(ms[..n - 1], ts[..n - 1], id) {
          var i :| 0 <= i < n - 1 && ms[..n - 1][i] == x && ts[..n - 1][i] == id;
          assert ms[i] == x && ts[i] == id;
        }
      }
      forall x, i | 0 <= i < n && ms[i] == x && ts[i] == id
        ensures x in OnTopic(ms, ts, id)
      {
        if i < n - 1 {
          assert ms[..n - 1][i] == x && ts[..n - 1][i] == id;
        }
      }
    }
  }

  /** The zip positions that carry label id, in increasing order */
  function OnTopicPositions(ms: seq<string>, ts: seq<int>, id: int): seq<int> {
    if ms == [] || ts == [] then []
    else
      var n := Min(|ms|, |ts|);
      OnTopicPositions(ms[..n - 1], ts[..n - 1], id) + (if ts[n - 1] == id then [n - 1] else [])
  }

  /** r is the subsequence of ms at the strictly increasing positions p,
      which are exactly the zip positions labelled id. */
  ghost predicate SelectedAt(r: seq<string>, p: seq<int>, ms: seq<string>, ts: seq<int>, id: int) {
    && |p| == |r|
    && (forall j, k :: 0 <= j < k < |p| ==> p[j] < p[k])
    && (forall j :: 0 <= j < |p| ==> 0 <= p[j] < Min(|ms|, |ts|) && r[j] == ms[p[j]] && ts[p[j]] == id)
    && (forall i :: 0 <= i < Min(|ms|, |ts|) && ts[i] == id ==> i in p)
  }

  /** The topic filter is a subsequence: each message labelled id appears
      once, at its own position, in the messages' order. */
  lemma {:induction false} OnTopicSubsequence(ms: seq<string>, ts: seq<int>, id: int)
    ensures SelectedAt(OnTopic(ms, ts, id), OnTopicPositions(ms, ts, id), ms, ts, id)
  {
    if ms != [] && ts != [] {
      var n := Min(|ms|, |ts|);
      var ms', ts' := ms[..n - 1], ts[..n - 1];
      OnTopicSubsequence(ms', ts', id);
      var r', p' := OnTopic(ms', ts', id), OnTopicPositions(ms', ts', id);
      var r, p := OnTopic(ms, ts, id), OnTopicPositions(ms, ts, id);
      assert Min(|ms'|, |ts'|) == n - 1;
      forall j | 0 <= j < |p'| ensures r[j] == ms[p[j]] && ts[p[j]] == id && p[j] < n - 1 {
        assert r[j] == r'[j] && p[j] == p'[j];
        assert ms'[p'[j]] == ms[p'[j]] && ts'[p'[j]] == ts[p'[j]];
      }
      forall i | 0 <= i < n && ts[i] == id ensures i in p {
        if i < n - 1 {
          assert ts'[i] == id;
          assert i in p';
        }
      }
    }
  }

  /** With one label per message, the topics partition the messages:
      the on-topic and off-topic selections add up to all of them. */
  lemma {:induction false} OnTopicPartition(ms: seq<string>, ts: seq<int>, id: int)
    requires |ms| == |ts|
    ensures |OnTopic(ms, ts, id)| + |OffTopic(ms, ts, id)| == |ms|
  {
    if ms != [] {
      OnTopicPartition(ms[..|ms| - 1], ts[..|ts| - 1], id);
    }
  }

  /** The messages whose label differs from id */
  function OffTopic(ms: seq<string>, ts: seq<int>, id: int): (r: seq<string>)
    ensures |r| <= Min(|ms|, |ts|)
  {
    if ms == [] || ts == [] then []
    else
      var n := Min(|ms|, |ts|);
      OffTopic(ms[..n - 1], ts[..n - 1], id) + (if ts[n - 1] != id then [ms[n - 1]] else [])
  }

  class TopicClusterer {
    var messages: seq<string>
    var topics: seq<int>
    const numTopics: int
    const assignTopics: Labeler

    /** Labels exist exactly once the messages outnumber the clusters, and
        then they label the current messages. With fewer than one cluster
        every fit fails, so no labels ever exist. */
    ghost predicate Valid()
      reads this
    {
      if |messages| > numTopics && numTopics >= 1 then topics == assignTopics(messages)
      else topics == []
    }

    /** The cluster count is not checked here: KMeans validates it only
        when it is first fitted. */
    constructor (numTopics: int, assignTopics: Labeler)
      ensures Valid() && messages == [] && topics == []
      ensures this.numTopics == numTopics && this.assignTopics == assignTopics
    {
      messages, topics := [], [];
      this.numTopics, this.assignTopics := numTopics, assignTopics;
    }

    /** add_message: append message_dict['content'] and refit the topics.
        `ok` is false where the source raises: KeyError for a message
        without content (nothing changes), or the fit's error for fewer
        than one cluster (the content stays appended, the labels stay). */
    method AddMessage(u: UserId, m: Payload) returns (ok: bool)
      requires Valid()
      modifies this
      ensures Valid()
      ensures ok <==> ContentOf(m).Some? && numTopics >= 1
      ensures messages == if ContentOf(m).Some? then old(messages) + [ContentOf(m).value] else old(messages)
      ensures !ok ==> topics == old(topics)
    {
      var content := ContentOf(m);
      if content.None? {
        return false;
      }
      messages := messages + [content.value];
      ok := UpdateTopics();
    }

    /** _update_topics: refit only when the messages outnumber the clusters;
        the fit fails (`ok` false, labels kept) for fewer than one cluster */
    method UpdateTopics() returns (ok: bool)
      modifies this
      ensures messages == old(messages)
      ensures ok <==> !(|messages| > numTopics && numTopics < 1)
      ensures topics == if |messages| > numTopics && numTopics >= 1 then assignTopics(messages) else old(topics)
    {
      ok := true;
      if |messages| > numTopics {
        if numTopics < 1 {
          return false;
        }
        topics := assignTopics(messages);
      }
    }

    /** get_context: every message unless a topic is asked for and labels
        exist; then the messages carrying that label, in order. */
    function GetContext(u: UserId, topicId: Option<int>): (r: seq<string>)
      requires Valid()
      reads this
      ensures topicId.None? || |messages| <= numTopics ==> r == messages
      ensures topicId.Some? && topics != [] ==>
        forall x :: x in r <==> exists i :: 0 <= i < Min(|messages|, |topics|) && messages[i] == x && topics[i] == topicId.value
      ensures topicId.Some? && topics != [] ==>
        SelectedAt(r, OnTopicPositions(messages, topics, topicId.value), messages, topics, topicId.value)
    {
      if topicId.None? || topics == [] then messages
      else
        OnTopicMembers(messages, topics, topicId.value);
        OnTopicSubsequence(messages, topics, topicId.value);
        OnTopic(messages, topics, topicId.value)
    }
  }

  /* ---------------------------------------------------------------------
     SlidingWindowContext: the newest window_size messages.
     --------------------------------------------------------------------- */

  function Max(a: int, b: int): int {
    if a >= b then a else b
  }

  /** The last min(n, window) of the inputs, in order (none when the
      window size is not positive) */
  function Window<T>(inputs: seq<T>, windowSize: int): (r: seq<T>)
    ensures |r| == Min(|inputs|, Max(windowSize, 0))
    ensures r == inputs[|inputs| - |r|..]
  {
    inputs[|inputs| - Min(|inputs|, Max(windowSize, 0))..]
  }

  /** One add_message on the window: append, then pop(0) if too long */
  function Slide<T>(window: seq<T>, x: T, windowSize: int): seq<T> {
    var w := window + [x];
    if |w| > windowSize then w[1..] else w
  }

  /** Sliding one input in keeps the window equal to the last
      min(N, window_size) inputs. */
  lemma WindowStep<T>(inputs: seq<T>, x: T, windowSize: int)
    ensures Window(inputs + [x], windowSize) == Slide(Window(inputs, windowSize), x, windowSize)
  {
    var w := Window(inputs, windowSize);
    var all := inputs + [x];
    var k := Min(|inputs|, Max(windowSize, 0));
    assert w + [x] == all[|all| - k - 1..];
    if |w + [x]| > windowSize {
      assert (w + [x])[1..] == all[|all| - k..];
    }
  }

  class SlidingWindowContext {
    const windowSize: int
    var messages: seq<Payload>
    /** every message ever added, oldest first */
    ghost var added: seq<Payload>

    ghost predicate Valid()
      reads this
    {
      messages == Window(added, windowSize)
    }

    constructor (windowSize: int)
      ensures Valid() && messages == [] && added == [] && this.windowSize == windowSize
    {
      this.windowSize := windowSize;
      messages, added := [], [];
    }

    /** add_message */
    method AddMessage(u: UserId, m: Payload)
      requires Valid()
      modifies this
      ensures Valid()
      ensures added == old(added) + [m]
      ensures messages == Slide(old(messages), m, windowSize)
    {
      WindowStep(added, m, windowSize);
      added := added + [m];
      messages := messages + [m];
      if |messages| > windowSize {
        messages := messages[1..];
      }
    }

    /** get_context (and the "window" of get_internal_state) */
    function GetContext(u: UserId): (r: seq<Payload>)
      requires Valid()
      reads this
      ensures |r| == Min(|added|, Max(windowSize, 0))
      ensures r == added[|added| - |r|..]
    {
      messages
    }
  }

  /* ---------------------------------------------------------------------
     HybridStorage: an in-process cache, a capped Redis list and an
     unbounded MongoDB archive per user.
     --------------------------------------------------------------------- */

  /** memory_cache keeps at most this many messages per user */
  const CacheLimit := 200
  /** the Redis list is trimmed to this many entries */
  const RedisLimit := 1000
  /** the archive query returns at most this many documents */
  const ArchiveLimit := 1000

  /** One MongoDB document {"user_id": ..., "message": ...} */
  datatype ArchiveDoc = ArchiveDoc(userId: UserId, message: Payload)

  /** The messages archived for u, in insertion (_id) order */
  function UserMessages(archive: seq<ArchiveDoc>, u: UserId): (r: seq<Payload>)
    ensures |r| <= |archive|
  {
    if archive == [] then []
    else
      var d := archive[|archive| - 1];
      UserMessages(archive[..|archive| - 1], u) + (if d.userId == u then [d.message] else [])
  }

  /** The find({"user_id": u}) result: u's documents in insertion (_id) order */
  function UserArchive(archive: seq<ArchiveDoc>, u: UserId): (r: seq<ArchiveDoc>)
    ensures |r| <= |archive|
    ensures forall i :: 0 <= i < |r| ==> r[i].userId == u
  {
    if archive == [] then []
    else
      var d := archive[|archive| - 1];
      UserArchive(archive[..|archive| - 1], u) + (if d.userId == u then [d] else [])
  }

  /** The 'message' field of each document, in order */
  function MessagesOf(docs: seq<ArchiveDoc>): (r: seq<Payload>)
    ensures |r| == |docs| && forall i :: 0 <= i < |docs| ==> r[i] == docs[i].message
  {
    seq(|docs|, i requires 0 <= i < |docs| => docs[i].message)
  }

  /** The messages of u's documents are the messages archived for u. */
  lemma {:induction false} UserArchiveMessages(archive: seq<ArchiveDoc>, u: UserId)
    ensures MessagesOf(UserArchive(archive, u)) == UserMessages(archive, u)
  {
    if archive != [] {
      var init, d := archive[..|archive| - 1], archive[|archive| - 1];
      UserArchiveMessages(init, u);
      var tail := if d.userId == u then [d] else [];
      assert MessagesOf(UserArchive(init, u) + tail) == MessagesOf(UserArchive(init, u)) + MessagesOf(tail);
    }
  }

  /** Taking the newest documents and then their messages is taking the
      newest messages. */
  lemma MessagesOfNewest(docs: seq<ArchiveDoc>, limit: nat)
    ensures MessagesOf(NewestFirst(docs, limit)) == NewestFirst(MessagesOf(docs), limit)
  {
    var a, b := MessagesOf(NewestFirst(docs, limit)), NewestFirst(MessagesOf(docs), limit);
    forall i | 0 <= i < |a| ensures a[i] == b[i] {
      assert a[i] == docs[|docs| - 1 - i].message;
    }
  }

  lemma UserMessagesAppend(archive: seq<ArchiveDoc>, d: ArchiveDoc, u: UserId)
    ensures UserMessages(archive + [d], u) == UserMessages(archive, u) + (if d.userId == u then [d.message] else [])
  {
    assert (archive + [d])[..|archive|] == archive;
  }

  /** The newest `limit` entries, newest first: what an lpush list capped
      by ltrim holds, and what a descending _id query with a limit returns */
  function NewestFirst<T>(xs: seq<T>, limit: nat): (r: seq<T>)
    ensures |r| == Min(limit, |xs|)
  {
    Reverse(xs)[..Min(limit, |xs|)]
  }

  /** Push x at the head of the list, then keep its first `limit` entries */
  function PushTrim<T>(list: seq<T>, x: T, limit: nat): seq<T> {
    var l := [x] + list;
    l[..Min(limit, |l|)]
  }

  /** lpush-then-ltrim on the newest-first list keeps it equal to the
      newest `limit` inputs. */
  lemma NewestFirstStep<T>(xs: seq<T>, x: T, limit: nat)
    ensures NewestFirst(xs + [x], limit) == PushTrim(NewestFirst(xs, limit), x, limit)
  {
    ReverseAppend(xs, x);
    var l := [x] + NewestFirst(xs, limit);
    var k := Min(limit, |xs| + 1);
    assert l[..k] == ([x] + Reverse(xs))[..k];
  }

  /** The three tiers get_context and get_internal_state report */
  datatype HybridContext = HybridContext(recent: seq<Payload>, midTerm: seq<Payload>, longTerm: seq<ArchiveDoc>)

  /** The user's list, or [] for a user not in the map */
  function ListOf(lists: map<UserId, seq<Payload>>, u: UserId): seq<Payload> {
    if u in lists then lists[u] else []
  }

  /** For every user the cache holds the newest 200 archived messages,
      oldest first, and the Redis list the newest 1000, newest first. */
  ghost predicate Mirrors(cache: map<UserId, seq<Payload>>, lists: map<UserId, seq<Payload>>, archive: seq<ArchiveDoc>) {
    forall u :: MirrorsFor(ListOf(cache, u), ListOf(lists, u), archive, u)
  }

  /** What Mirrors says about one user */
  ghost predicate MirrorsFor(cache: seq<Payload>, list: seq<Payload>, archive: seq<ArchiveDoc>, v: UserId) {
    && cache == Window(UserMessages(archive, v), CacheLimit)
    && list == NewestFirst(UserMessages(archive, v), RedisLimit)
  }

  lemma MirrorsForAfterAdd(cache: seq<Payload>, list: seq<Payload>, archive: seq<ArchiveDoc>, u: UserId, m: Payload)
    requires MirrorsFor(cache, list, archive, u)
    ensures MirrorsFor(Slide(cache, m, CacheLimit), PushTrim(list, m, RedisLimit), archive + [ArchiveDoc(u, m)], u)
  {
    UserMessagesAppend(archive, ArchiveDoc(u, m), u);
    WindowStep(UserMessages(archive, u), m, CacheLimit);
    NewestFirstStep(UserMessages(archive, u), m, RedisLimit);
  }

  lemma MirrorsForOther(cache: seq<Payload>, list: seq<Payload>, archive: seq<ArchiveDoc>, u: UserId, m: Payload, v: UserId)
    requires v != u && MirrorsFor(cache, list, archive, v)
    ensures MirrorsFor(cache, list, archive + [ArchiveDoc(u, m)], v)
  {
    UserMessagesAppend(archive, ArchiveDoc(u, m), v);
  }

  /** One add_message by u keeps user v's cache and Redis list mirroring
      the archive. */
  lemma MirrorsForStep(cache: map<UserId, seq<Payload>>, lists: map<UserId, seq<Payload>>,
                       archive: seq<ArchiveDoc>, u: UserId, m: Payload, v: UserId)
    requires MirrorsFor(ListOf(cache, v), ListOf(lists, v), archive, v)
    ensures MirrorsFor(ListOf(cache[u := Slide(ListOf(cache, u), m, CacheLimit)], v),
                       ListOf(lists[u := PushTrim(ListOf(lists, u), m, RedisLimit)], v),
                       archive + [ArchiveDoc(u, m)], v)
  {
    if v == u {
      MirrorsForAfterAdd(ListOf(cache, u), ListOf(lists, u), archive, u, m);
    } else {
      MirrorsForOther(ListOf(cache, v), ListOf(lists, v), archive, u, m, v);
    }
  }

  /** One add_message keeps the cache and the Redis list mirroring the
      archive, for the user who wrote and for everyone else. */
  lemma MirrorsAfterAdd(cache: map<UserId, seq<Payload>>, lists: map<UserId, seq<Payload>>,
                        archive: seq<ArchiveDoc>, u: UserId, m: Payload)
    requires Mirrors(cache, lists, archive)
    ensures Mirrors(cache[u := Slide(ListOf(cache, u), m, CacheLimit)],
                    lists[u := PushTrim(ListOf(lists, u), m, RedisLimit)],
                    archive + [ArchiveDoc(u, m)])
  {
    var cache' := cache[u := Slide(ListOf(cache, u), m, CacheLimit)];
    var lists' := lists[u := PushTrim(ListOf(lists, u), m, RedisLimit)];
    forall v ensures MirrorsFor(ListOf(cache', v), ListOf(lists', v), archive + [ArchiveDoc(u, m)], v) {
      MirrorsForStep(cache, lists, archive, u, m, v);
    }
  }

  /** The three tiers of a user whose cache and Redis list mirror the
      archived documents `docs`: the cache holds the newest 200 messages
      oldest first, the list the newest 1000 newest first, the archive
      query the documents of exactly those 1000 messages, and the cache is
      the reverse of the list's first 200 entries. */
  lemma TiersAgree(cache: seq<Payload>, list: seq<Payload>, docs: seq<ArchiveDoc>)
    requires cache == Window(MessagesOf(docs), CacheLimit) && list == NewestFirst(MessagesOf(docs), RedisLimit)
    ensures var all := MessagesOf(docs);
      var c := HybridContext(cache, list, NewestFirst(docs, ArchiveLimit));
      && c.recent == all[|all| - Min(|all|, CacheLimit)..]
      && |c.midTerm| == Min(RedisLimit, |all|)
      && (all != [] ==> c.midTerm[0] == all[|all| - 1])
      && c.midTerm == MessagesOf(c.longTerm)
      && c.recent == Reverse(c.midTerm[..Min(CacheLimit, |c.midTerm|)])
  {
    var all := MessagesOf(docs);
    var k := Min(CacheLimit, |all|);
    ReversePrefixOfReverse(all, k);
    assert list[..k] == Reverse(all)[..k];
    MessagesOfNewest(docs, ArchiveLimit);
  }

  class HybridStorage {
    var memoryCache: map<UserId, seq<Payload>>
    var redisLists: map<UserId, seq<Payload>>
    var archive: seq<ArchiveDoc>

    ghost predicate Valid()
      reads this
    {
      Mirrors(memoryCache, redisLists, archive)
    }

    constructor ()
      ensures Valid() && memoryCache == map[] && redisLists == map[] && archive == []
    {
      memoryCache, redisLists, archive := map[], map[], [];
    }

    /** add_message: append to the cache (dropping the oldest beyond 200),
        lpush and ltrim the Redis list, insert into the archive */
    method AddMessage(u: UserId, m: Payload)
      requires Valid()
      modifies this
      ensures Valid()
      ensures archive == old(archive) + [ArchiveDoc(u, m)]
      ensures memoryCache == old(memoryCache)[u := Slide(ListOf(old(memoryCache), u), m, CacheLimit)]
      ensures redisLists == old(redisLists)[u := PushTrim(ListOf(old(redisLists), u), m, RedisLimit)]
    {
      MirrorsAfterAdd(memoryCache, redisLists, archive, u, m);
      ghost var cache' := memoryCache[u := Slide(ListOf(memoryCache, u), m, CacheLimit)];
      ghost var lists' := redisLists[u := PushTrim(ListOf(redisLists, u), m, RedisLimit)];
      var cached := ListOf(memoryCache, u) + [m];
      if |cached| > CacheLimit {
        cached := cached[1..];
      }
      memoryCache := memoryCache[u := cached];
      var list := [m] + ListOf(redisLists, u);
      redisLists := redisLists[u := list[..Min(RedisLimit, |list|)]];
      archive := archive + [ArchiveDoc(u, m)];
      assert memoryCache == cache' && redisLists == lists';
    }

    /** get_context: the cached messages, the Redis list and the newest
        1000 archived messages */
    function GetContext(u: UserId): (c: HybridContext)
      requires Valid()
      reads this
      ensures var all := UserMessages(archive, u);
        && c.recent == all[|all| - Min(|all|, CacheLimit)..]
        && |c.midTerm| == Min(RedisLimit, |all|)
        && (all != [] ==> c.midTerm[0] == all[|all| - 1])
        && c.midTerm == NewestFirst(all, RedisLimit)
        && c.midTerm == MessagesOf(c.longTerm)
        && (forall i :: 0 <= i < |c.longTerm| ==> c.longTerm[i].userId == u)
        && c.recent == Reverse(c.midTerm[..Min(CacheLimit, |c.midTerm|)])
    {
      var cache, list, docs := ListOf(memoryCache, u), ListOf(redisLists, u), UserArchive(archive, u);
      assert MirrorsFor(cache, list, archive, u);
      UserArchiveMessages(archive, u);
      TiersAgree(cache, list, docs);
      HybridContext(cache, list, NewestFirst(docs, ArchiveLimit))
    }
  }
}
