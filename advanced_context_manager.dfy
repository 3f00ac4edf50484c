/** AdvancedContextManager (advanced_context_manager.py): a short-term
    memory trimmed to four messages and 800 tokens, and a long-term memory
    of every message with its embedding, searched by nearest neighbour. */
module AdvancedContext {
  import opened Messages

  /** A chat message dictionary; the model reads its 'content' and sorts
      by its 'timestamp'. */
  datatype ChatMessage = ChatMessage(role: string, content: string, timestamp: int)

  /** The 384-dimensional sentence embedding of a text */
  type Embedding = seq<real>

  /** A long-term entry: the message's fields plus its embedding */
  datatype MemoryRecord = MemoryRecord(message: ChatMessage, embedding: Embedding)

  /** len(tokenizer.encode(text)) */
  type Tokenizer = string -> nat

  /** _get_embedding: mean of the model's last hidden state */
  type Embedder = string -> Embedding

  /** the message cap of _trim_short_term_memory */
  const MaxShortTermMessages := 4
  /** max_short_term_tokens */
  const MaxShortTermTokens := 800
  /** k of the faiss search */
  const RecallWidth := 5
  /** how many recalled records get_context keeps */
  const RecallKept := 2

  /** _count_tokens */
  function TokenTotal(ms: seq<ChatMessage>, tokens: Tokenizer): nat {
    if ms == [] then 0 else tokens(ms[0].content) + TokenTotal(ms[1..], tokens)
  }

  lemma {:induction false} TokenTotalConcat(a: seq<ChatMessage>, b: seq<ChatMessage>, tokens: Tokenizer)
    ensures TokenTotal(a + b, tokens) == TokenTotal(a, tokens) + TokenTotal(b, tokens)
  {
    if a != [] {
      TokenTotalConcat(a[1..], b, tokens);
      assert (a + b)[1..] == a[1..] + b;
    } else {
      assert a + b == b;
    }
  }

  /** The loop condition of _trim_short_term_memory, negated */
  ghost predicate Fits(ms: seq<ChatMessage>, tokens: Tokenizer) {
    |ms| <= MaxShortTermMessages && TokenTotal(ms, tokens) <= MaxShortTermTokens
  }

  /** Dropping messages from either end never breaks the budget. */
  lemma FitsParts(a: seq<ChatMessage>, b: seq<ChatMessage>, tokens: Tokenizer)
    requires Fits(a + b, tokens)
    ensures Fits(a, tokens) && Fits(b, tokens)
  {
    TokenTotalConcat(a, b, tokens);
  }

  /* The trimming loop is reasoned about for any budget `fits` that the
     empty list meets and that survives dropping the newest message; the
     four-message, 800-token budget is one such. */

  ghost predicate Budget<T(!new)>(fits: seq<T> -> bool) {
    && fits([])
    && forall a: seq<T>, x: T :: fits(a + [x]) ==> fits(a)
  }

  /** Drop the oldest element until the rest meets the budget */
  ghost function TrimmedBy<T>(ms: seq<T>, fits: seq<T> -> bool): (r: seq<T>)
    requires fits([])
    ensures fits(r)
    ensures |r| <= |ms| && r == ms[|ms| - |r|..]
    decreases |ms|
  {
    if fits(ms) then ms else TrimmedBy(ms[1..], fits)
  }

  /** Trimming keeps the longest suffix that meets the budget: every longer
      suffix breaks it. */
  lemma {:induction false} TrimmedLongest<T>(ms: seq<T>, fits: seq<T> -> bool)
    requires fits([])
    ensures forall k :: 0 <= k < |ms| - |TrimmedBy(ms, fits)| ==> !fits(ms[k..])
    decreases |ms|
  {
    if !fits(ms) {
      TrimmedLongest(ms[1..], fits);
      forall k | 0 < k < |ms| - |TrimmedBy(ms, fits)| ensures !fits(ms[k..]) {
        assert ms[k..] == ms[1..][k - 1..];
      }
      assert ms[0..] == ms;
    }
  }

  /** A suffix that meets the budget, with no longer suffix meeting it, is
      the trimmed list. */
  lemma {:induction false} TrimmedUnique<T>(ms: seq<T>, k: nat, fits: seq<T> -> bool)
    requires fits([])
    requires k <= |ms| && fits(ms[k..])
    requires forall j :: 0 <= j < k ==> !fits(ms[j..])
    ensures TrimmedBy(ms, fits) == ms[k..]
    decreases k
  {
    if k > 0 {
      assert !fits(ms[0..]);
      assert ms[0..] == ms;
      forall j | 0 <= j < k - 1 ensures !fits(ms[1..][j..]) {
        assert ms[1..][j..] == ms[j + 1..];
      }
      assert ms[1..][k - 1..] == ms[k..];
      TrimmedUnique(ms[1..], k - 1, fits);
    }
  }

  lemma SuffixAppend<T>(s: seq<T>, m: T, j: nat)
    requires j <= |s|
    ensures (s + [m])[j..] == s[j..] + [m]
  {
  }

  lemma SuffixOfSuffix<T>(s: seq<T>, c: nat, d: nat)
    requires c + d <= |s|
    ensures s[c..][d..] == s[c + d..]
  {
  }

  /** Appending to a suffix that breaks the budget cannot make it fit. */
  lemma LongerSuffixesFail<T(!new)>(s: seq<T>, m: T, fits: seq<T> -> bool)
    requires Budget(fits)
    ensures forall j :: 0 <= j < |s| - |TrimmedBy(s, fits)| ==> !fits((s + [m])[j..])
  {
    TrimmedLongest(s, fits);
    forall j | 0 <= j < |s| - |TrimmedBy(s, fits)| ensures !fits((s + [m])[j..]) {
      SuffixAppend(s, m, j);
    }
  }

  /** The suffixes of s[c..] + [m] that trimming drops, seen inside s + [m] */
  lemma ShorterSuffixesFail<T>(s: seq<T>, m: T, c: nat, fits: seq<T> -> bool)
    requires c <= |s| && fits([])
    ensures var tm := s[c..] + [m];
      forall j :: c <= j < c + |tm| - |TrimmedBy(tm, fits)| ==> !fits((s + [m])[j..])
  {
    var tm := s[c..] + [m];
    SuffixAppend(s, m, c);
    TrimmedLongest(tm, fits);
    forall j | c <= j < c + |tm| - |TrimmedBy(tm, fits)| ensures !fits((s + [m])[j..]) {
      assert (s + [m])[j..] == tm[j - c..];
    }
  }

  /** Trimming after every add is the same as trimming everything ever
      added at once. */
  lemma TrimmedByStep<T(!new)>(s: seq<T>, m: T, fits: seq<T> -> bool)
    requires Budget(fits)
    ensures TrimmedBy(TrimmedBy(s, fits) + [m], fits) == TrimmedBy(s + [m], fits)
  {
    var t := TrimmedBy(s, fits);
    var c := |s| - |t|;
    var xs := s + [m];
    var tm := t + [m];
    var r := TrimmedBy(tm, fits);
    var d := |tm| - |r|;
    SuffixAppend(s, m, c);
    assert tm == xs[c..];
    SuffixOfSuffix(xs, c, d);
    assert r == xs[c + d..];
    LongerSuffixesFail(s, m, fits);
    ShorterSuffixesFail(s, m, c, fits);
    TrimmedUnique(xs, c + d, fits);
  }

  /** An element that meets the budget on its own survives the trim. */
  lemma TrimmedByKeepsLast<T>(s: seq<T>, m: T, fits: seq<T> -> bool)
    requires fits([]) && fits([m])
    ensures var r := TrimmedBy(s + [m], fits);
      r != [] && r[|r| - 1] == m
  {
    var xs := s + [m];
    TrimmedLongest(xs, fits);
    assert xs[|xs| - 1..] == [m];
  }

  /** The budget of _trim_short_term_memory as a predicate value */
  ghost function TokenBudget(tokens: Tokenizer): seq<ChatMessage> -> bool {
    ms => Fits(ms, tokens)
  }

  lemma TokenBudgetIsBudget(tokens: Tokenizer)
    ensures Budget(TokenBudget(tokens))
  {
    forall a: seq<ChatMessage>, x: ChatMessage | Fits(a + [x], tokens) ensures Fits(a, tokens) {
      FitsParts(a, [x], tokens);
    }
  }

  /** What _trim_short_term_memory leaves: drop the oldest message until
      at most four remain and they total at most 800 tokens. */
  ghost function Trimmed(ms: seq<ChatMessage>, tokens: Tokenizer): (r: seq<ChatMessage>)
    ensures |r| <= |ms| && r == ms[|ms| - |r|..]
  {
    assert Fits([], tokens);
    TrimmedBy(ms, TokenBudget(tokens))
  }

  /** After trimming, at most four messages and 800 tokens remain. */
  lemma TrimmedFits(ms: seq<ChatMessage>, tokens: Tokenizer)
    ensures Fits(Trimmed(ms, tokens), tokens)
  {
    assert Fits([], tokens);
  }

  /** One step of the trimming loop */
  lemma TrimmedUnfold(ms: seq<ChatMessage>, tokens: Tokenizer)
    ensures Fits(ms, tokens) ==> Trimmed(ms, tokens) == ms
    ensures !Fits(ms, tokens) ==> ms != [] && Trimmed(ms, tokens) == Trimmed(ms[1..], tokens)
  {
    assert Fits([], tokens);
  }

  /** Trimming after every add is the same as trimming everything ever
      added: short-term memory is the longest suffix of the conversation
      within four messages and 800 tokens. */
  lemma TrimmedStep(s: seq<ChatMessage>, m: ChatMessage, tokens: Tokenizer)
    ensures Trimmed(Trimmed(s, tokens) + [m], tokens) == Trimmed(s + [m], tokens)
  {
    TokenBudgetIsBudget(tokens);
    TrimmedByStep(s, m, TokenBudget(tokens));
  }

  /** A new message that fits the token budget on its own survives the trim
      as the newest short-term entry. */
  lemma NewMessageKept(s: seq<ChatMessage>, m: ChatMessage, tokens: Tokenizer)
    requires tokens(m.content) <= MaxShortTermTokens
    ensures var r := Trimmed(s + [m], tokens);
      r != [] && r[|r| - 1] == m
  {
    assert TokenTotal([m], tokens) == tokens(m.content) by {
      assert [m][1..] == [];
    }
    assert Fits([], tokens);
    TrimmedByKeepsLast(s, m, TokenBudget(tokens));
  }

  /** Sort recalled records by descending timestamp; Python's sort is
      stable, so a later record goes after earlier ones of equal time. */
  function InsertByRecency(sorted: seq<MemoryRecord>, x: MemoryRecord): (r: seq<MemoryRecord>)
    ensures |r| == |sorted| + 1
  {
    if sorted == [] || sorted[|sorted| - 1].message.timestamp >= x.message.timestamp then sorted + [x]
    else InsertByRecency(sorted[..|sorted| - 1], x) + [sorted[|sorted| - 1]]
  }

  function SortByRecency(xs: seq<MemoryRecord>): (r: seq<MemoryRecord>)
    ensures |r| == |xs|
  {
    if xs == [] then [] else InsertByRecency(SortByRecency(xs[..|xs| - 1]), xs[|xs| - 1])
  }

  ghost predicate NewestFirst(xs: seq<MemoryRecord>) {
    forall a, b :: 0 <= a < b < |xs| ==> xs[a].message.timestamp >= xs[b].message.timestamp
  }

  lemma {:induction false} InsertByRecencyPerm(sorted: seq<MemoryRecord>, x: MemoryRecord)
    ensures multiset(InsertByRecency(sorted, x)) == multiset(sorted) + multiset{x}
  {
    if sorted != [] && sorted[|sorted| - 1].message.timestamp < x.message.timestamp {
      var init := sorted[..|sorted| - 1];
      InsertByRecencyPerm(init, x);
      assert sorted == init + [sorted[|sorted| - 1]];
    }
  }

  ghost predicate NoOlderThan(xs: seq<MemoryRecord>, t: int) {
    forall j :: 0 <= j < |xs| ==> xs[j].message.timestamp >= t
  }

  lemma {:induction false} InsertByRecencyAtLeast(sorted: seq<MemoryRecord>, x: MemoryRecord, t: int)
    requires NoOlderThan(sorted, t) && x.message.timestamp >= t
    ensures NoOlderThan(InsertByRecency(sorted, x), t)
  {
    if sorted != [] && sorted[|sorted| - 1].message.timestamp < x.message.timestamp {
      var init, last := sorted[..|sorted| - 1], sorted[|sorted| - 1];
      InsertByRecencyAtLeast(init, x, t);
      var r' := InsertByRecency(init, x);
      assert InsertByRecency(sorted, x) == r' + [last];
      assert NoOlderThan(r' + [last], t) by {
        assert forall j :: 0 <= j < |r'| ==> (r' + [last])[j] == r'[j];
      }
    } else {
      assert NoOlderThan(sorted + [x], t) by {
        assert forall j :: 0 <= j < |sorted| ==> (sorted + [x])[j] == sorted[j];
      }
    }
  }

  lemma {:induction false} InsertByRecencySorted(sorted: seq<MemoryRecord>, x: MemoryRecord)
    requires NewestFirst(sorted)
    ensures NewestFirst(InsertByRecency(sorted, x))
  {
    if sorted != [] && sorted[|sorted| - 1].message.timestamp < x.message.timestamp {
      var init, last := sorted[..|sorted| - 1], sorted[|sorted| - 1];
      InsertByRecencySorted(init, x);
      InsertByRecencyAtLeast(init, x, last.message.timestamp);
      assert InsertByRecency(sorted, x) == InsertByRecency(init, x) + [last];
    }
  }

  /** results.sort(key=timestamp, reverse=True) reorders the records
      newest first. */
  lemma {:induction false} SortByRecencyCorrect(xs: seq<MemoryRecord>)
    ensures NewestFirst(SortByRecency(xs))
    ensures multiset(SortByRecency(xs)) == multiset(xs)
  {
    if xs != [] {
      var init := xs[..|xs| - 1];
      SortByRecencyCorrect(init);
      InsertByRecencySorted(SortByRecency(init), xs[|xs| - 1]);
      InsertByRecencyPerm(SortByRecency(init), xs[|xs| - 1]);
      assert xs == init + [xs[|xs| - 1]];
    }
  }

  /** The dictionaries get_context serializes: plain messages, or long-term
      records still carrying their numpy embedding */
  datatype ContextItem = MessageItem(message: ChatMessage) | RecordItem(record: MemoryRecord)

  datatype JsonResult = Json(items: seq<ChatMessage>) | TypeError

  /** json.dumps on a list of dictionaries: a numpy array anywhere inside
      raises TypeError (not JSON serializable). */
  function JsonDumps(items: seq<ContextItem>): (r: JsonResult)
    ensures r.Json? <==> forall i :: 0 <= i < |items| ==> items[i].MessageItem?
    ensures r.Json? ==> |r.items| == |items| && forall i :: 0 <= i < |items| ==> r.items[i] == items[i].message
  {
    if items == [] then Json([])
    else
      match JsonDumps(items[..|items| - 1])
      case TypeError => TypeError
      case Json(prefix) =>
        match items[|items| - 1]
        case MessageItem(m) => Json(prefix + [m])
        case RecordItem(_) => TypeError
  }

  /** The first k of a newest-first list are at least as new as every
      record after them. */
  lemma NewestPrefix(q: seq<MemoryRecord>, k: nat)
    requires NewestFirst(q) && k <= |q|
    ensures forall x, j :: x in multiset(q) - multiset(q[..k]) && 0 <= j < k ==>
      x.message.timestamp <= q[j].message.timestamp
  {
    assert q == q[..k] + q[k..];
    assert multiset(q) - multiset(q[..k]) == multiset(q[k..]);
    forall x, j | x in multiset(q[k..]) && 0 <= j < k
      ensures x.message.timestamp <= q[j].message.timestamp
    {
      var b :| 0 <= b < |q[k..]| && q[k..][b] == x;
      assert q[k + b] == x;
    }
  }

  /** The list get_context hands to json.dumps: the short-term messages,
      then the recalled records */
  function ContextItems(short: seq<ChatMessage>, long: seq<MemoryRecord>): (items: seq<ContextItem>)
    ensures |items| == |short| + |long|
    ensures forall i :: 0 <= i < |short| ==> items[i] == MessageItem(short[i])
    ensures forall j :: 0 <= j < |long| ==> items[|short| + j] == RecordItem(long[j])
  {
    seq(|short|, i requires 0 <= i < |short| => MessageItem(short[i]))
      + seq(|long|, j requires 0 <= j < |long| => RecordItem(long[j]))
  }

  /** The same list with each record replaced by its message */
  function StrippedItems(short: seq<ChatMessage>, long: seq<MemoryRecord>): (items: seq<ContextItem>)
    ensures |items| == |short| + |long|
    ensures forall i :: 0 <= i < |short| ==> items[i] == MessageItem(short[i])
    ensures forall j :: 0 <= j < |long| ==> items[|short| + j] == MessageItem(long[j].message)
  {
    seq(|short|, i requires 0 <= i < |short| => MessageItem(short[i]))
      + seq(|long|, j requires 0 <= j < |long| => MessageItem(long[j].message))
  }

  /** What get_internal_state reports */
  datatype InternalState = InternalState(shortTermMemory: seq<ChatMessage>, longTermMemorySize: nat, currentContextTokens: nat)

  /** Long-term memory holds one record per added message, in order, with
      the message's embedding. */
  ghost predicate Recorded(longTerm: seq<MemoryRecord>, added: seq<ChatMessage>, embed: Embedder) {
    && |longTerm| == |added|
    && forall i :: 0 <= i < |added| ==> longTerm[i] == MemoryRecord(added[i], embed(added[i].content))
  }

  lemma RecordedAppend(longTerm: seq<MemoryRecord>, added: seq<ChatMessage>, m: ChatMessage, embed: Embedder)
    requires Recorded(longTerm, added, embed)
    ensures Recorded(longTerm + [MemoryRecord(m, embed(m.content))], added + [m], embed)
  {
    var longTerm', added' := longTerm + [MemoryRecord(m, embed(m.content))], added + [m];
    forall i | 0 <= i < |added'| ensures longTerm'[i] == MemoryRecord(added'[i], embed(added'[i].content)) {
      if i < |added| {
        assert longTerm'[i] == longTerm[i] && added'[i] == added[i];
      }
    }
  }

  class AdvancedContextManager {
    var shortTermMemory: seq<ChatMessage>
    var longTermMemory: seq<MemoryRecord>
    /** every message ever added, oldest first */
    ghost var added: seq<ChatMessage>
    const tokens: Tokenizer
    const embed: Embedder

    /** Long-term memory records every added message with its embedding, in
        order; short-term memory is the longest fitting suffix of them. */
    ghost predicate Valid()
      reads this
    {
      && Recorded(longTermMemory, added, embed)
      && shortTermMemory == Trimmed(added, tokens)
    }

    constructor (tokens: Tokenizer, embed: Embedder)
      ensures Valid() && shortTermMemory == [] && longTermMemory == [] && added == []
      ensures this.tokens == tokens && this.embed == embed
    {
      shortTermMemory, longTermMemory, added := [], [], [];
      this.tokens, this.embed := tokens, embed;
      new;
      assert Fits([], tokens);
    }

    /** add_message */
    method AddMessage(u: UserId, m: ChatMessage)
      requires Valid()
      modifies this
      ensures Valid()
      ensures added == old(added) + [m]
      ensures shortTermMemory == Trimmed(old(shortTermMemory) + [m], tokens)
      ensures longTermMemory == old(longTermMemory) + [MemoryRecord(m, embed(m.content))]
    {
      TrimmedStep(added, m, tokens);
      RecordedAppend(longTermMemory, added, m, embed);
      StoreMessage(m);
    }

    /** The steps of add_message: append to short-term memory and trim it,
        then append the embedded record to long-term memory. */
    method StoreMessage(m: ChatMessage)
      modifies this
      ensures added == old(added) + [m]
      ensures shortTermMemory == Trimmed(old(shortTermMemory) + [m], tokens)
      ensures longTermMemory == old(longTermMemory) + [MemoryRecord(m, embed(m.content))]
    {
      shortTermMemory := shortTermMemory + [m];
      TrimShortTermMemory();
      var embedding := embed(m.content);
      longTermMemory := longTermMemory + [MemoryRecord(m, embedding)];
      added := added + [m];
    }

    /** _trim_short_term_memory: pop(0) while more than four messages or
        more than 800 tokens remain. The loop stops at the latest on the
        empty list, which holds no tokens. */
    method TrimShortTermMemory()
      modifies this
      ensures shortTermMemory == Trimmed(old(shortTermMemory), tokens)
      ensures longTermMemory == old(longTermMemory) && added == old(added)
    {
      while |shortTermMemory| > MaxShortTermMessages || TokenTotal(shortTermMemory, tokens) > MaxShortTermTokens
        invariant Trimmed(shortTermMemory, tokens) == Trimmed(old(shortTermMemory), tokens)
        invariant longTermMemory == old(longTermMemory) && added == old(added)
        decreases |shortTermMemory|
      {
        assert !Fits(shortTermMemory, tokens);
        assert shortTermMemory != [] && Trimmed(shortTermMemory[1..], tokens) == Trimmed(old(shortTermMemory), tokens) by {
          TrimmedUnfold(shortTermMemory, tokens);
        }
        shortTermMemory := shortTermMemory[1..];
      }
      assert Fits(shortTermMemory, tokens);
      assert shortTermMemory == Trimmed(old(shortTermMemory), tokens) by {
        TrimmedUnfold(shortTermMemory, tokens);
      }
    }

    /** The faiss search returns k = min(5, n) positions of long-term memory. */
    ghost predicate Neighbours(ids: seq<int>)
      reads this
    {
      && |ids| == Min(RecallWidth, |longTermMemory|)
      && forall j :: 0 <= j < |ids| ==> 0 <= ids[j] < |longTermMemory|
    }

    /** The long-term records at the neighbour positions, in search order */
    function Recalled(ids: seq<int>): (r: seq<MemoryRecord>)
      requires Neighbours(ids)
      reads this
      ensures |r| == |ids| && forall j :: 0 <= j < |ids| ==> r[j] == longTermMemory[ids[j]]
    {
      var memory := longTermMemory;
      seq(|ids|, j requires 0 <= j < |ids| => memory[ids[j]])
    }

    /** _get_long_term_context: nothing when long-term memory is empty;
        otherwise the two newest of the recalled records. */
    function LongTermContext(ids: seq<int>): (r: seq<MemoryRecord>)
      requires longTermMemory != [] ==> Neighbours(ids)
      reads this
      ensures longTermMemory == [] ==> r == []
      ensures longTermMemory != [] ==> |r| == Min(RecallKept, |ids|) && 1 <= |r|
    {
      if longTermMemory == [] then []
      else
        var results := SortByRecency(Recalled(ids));
        results[..Min(RecallKept, |results|)]
    }

    /** The kept records are the newest recalled ones: newest first, drawn
        from the recalled records, and no record left out is newer than a
        record kept. */
    lemma LongTermContextNewest(ids: seq<int>)
      requires longTermMemory != [] && Neighbours(ids)
      ensures var r := LongTermContext(ids);
        var rest := multiset(Recalled(ids)) - multiset(r);
        && NewestFirst(r)
        && multiset(r) <= multiset(Recalled(ids))
        && forall x, j :: x in rest && 0 <= j < |r| ==> x.message.timestamp <= r[j].message.timestamp
    {
      var q := SortByRecency(Recalled(ids));
      SortByRecencyCorrect(Recalled(ids));
      var k := Min(RecallKept, |q|);
      NewestPrefix(q, k);
      assert q == q[..k] + q[k..];
    }

    /** get_context as written: json.dumps of the short-term messages
        followed by the recalled records, embeddings included */
    function GetContextAsWritten(ids: seq<int>): (r: JsonResult)
      requires longTermMemory != [] ==> Neighbours(ids)
      reads this
      ensures r.Json? <==> LongTermContext(ids) == []
      ensures r.Json? ==> r.items == shortTermMemory
    {
      JsonDumps(ContextItems(shortTermMemory, LongTermContext(ids)))
    }

    /** Once any message has been added, get_context as written raises
        TypeError on every call: a recalled record always reaches
        json.dumps with its numpy embedding. */
    lemma GetContextAsWrittenFails(ids: seq<int>)
      requires Valid() && added != [] && Neighbours(ids)
      ensures GetContextAsWritten(ids) == TypeError
    {
      var items := ContextItems(shortTermMemory, LongTermContext(ids));
      assert !items[|shortTermMemory|].MessageItem?;
    }

    /** get_context with the embeddings dropped before serializing: the
        short-term messages, then the messages of the newest recalled
        records. */
    function GetContext(ids: seq<int>): (r: seq<ChatMessage>)
      requires longTermMemory != [] ==> Neighbours(ids)
      reads this
      ensures |r| == |shortTermMemory| + |LongTermContext(ids)|
      ensures forall i :: 0 <= i < |shortTermMemory| ==> r[i] == shortTermMemory[i]
      ensures forall j :: 0 <= j < |LongTermContext(ids)| ==>
        r[|shortTermMemory| + j] == LongTermContext(ids)[j].message
      ensures longTermMemory == [] ==> r == shortTermMemory
      ensures Valid() ==> |r| <= MaxShortTermMessages + RecallKept
    {
      JsonDumps(StrippedItems(shortTermMemory, LongTermContext(ids))).items
    }

    /** get_internal_state */
    function GetInternalState(u: UserId): (st: InternalState)
      requires Valid()
      reads this
      ensures st.shortTermMemory == Trimmed(added, tokens)
      ensures st.longTermMemorySize == |added|
      ensures st.currentContextTokens <= MaxShortTermTokens
    {
      TrimmedFits(added, tokens);
      InternalState(shortTermMemory, |longTermMemory|, TokenTotal(shortTermMemory, tokens))
    }
  }
}
