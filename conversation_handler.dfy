/** handle_user_message (conversation_handler.py): render the stored
    history as "role: content" lines, ask the model for a reply, and store
    the user's message and the reply, in that order. */
module ConversationHandler {
  import opened Messages
  import opened BatchStore
  import opened ChatManagement

  /** item['content'] of one history item, or None when the item has no
      'content' key */
  type ItemContent = Option<Payload>

  /** A stored summary's content is a plain string; a stack message's
      content is the message dictionary. */
  function ContentOf(h: HistoryItem): (c: ItemContent)
    ensures h.SummaryItem? ==> c == Some(Text(h.summary.content))
    ensures h.MessageItem? ==> c == Some(h.entry.content)
  {
    match h
    case SummaryItem(s) => Some(Text(s.content))
    case MessageItem(e) => Some(e.content)
  }

  /** The role a line is labelled with: the dictionary's 'role', by default
      'assistant'; a non-dictionary content is always 'assistant'. */
  function RoleOf(p: Payload): (r: string)
    ensures p.Fields? && p.role.Some? ==> r == p.role.value
    ensures !(p.Fields? && p.role.Some?) ==> r == "assistant"
  {
    match p
    case Fields(role, _) => role.GetOr("assistant")
    case Text(_) => "assistant"
  }

  /** The text of a line: the dictionary's 'content', by default empty; a
      non-dictionary content is used as it is. */
  function BodyOf(p: Payload): (b: string)
    ensures p.Fields? ==> b == p.content.GetOr("")
    ensures p.Text? ==> b == p.text
  {
    match p
    case Fields(_, content) => content.GetOr("")
    case Text(t) => t
  }

  /** One line of the rendered history: role, colon, content, newline */
  function Line(p: Payload): string {
    RoleOf(p) + ": " + BodyOf(p) + "\n"
  }

  /** What one item adds: its line, or nothing when it has no content */
  function Piece(item: ItemContent): string {
    if item.Some? then Line(item.value) else ""
  }

  /** The strings `f` gives the items, joined in order */
  function ConcatMap<T>(items: seq<T>, f: T -> string): string {
    if items == [] then "" else ConcatMap(items[..|items| - 1], f) + f(items[|items| - 1])
  }

  /** The conversation_history string the loop builds */
  function Rendered(items: seq<ItemContent>): string {
    ConcatMap(items, Piece)
  }

  /** The loop of handle_user_message: append one line per item that has
      content, in order. */
  method RenderHistory(items: seq<ItemContent>) returns (conversationHistory: string)
    ensures conversationHistory == Rendered(items)
  {
    conversationHistory := "";
    for i := 0 to |items|
      invariant conversationHistory == Rendered(items[..i])
    {
      assert items[..i + 1][..i] == items[..i];
      if items[i].Some? {
        conversationHistory := conversationHistory + Line(items[i].value);
      } else {
        assert Piece(items[i]) == "";
      }
    }
    assert items[..|items|] == items;
  }

  /** Joining distributes over concatenation of the items. */
  lemma {:induction false} ConcatMapConcat<T>(a: seq<T>, b: seq<T>, f: T -> string)
    ensures ConcatMap(a + b, f) == ConcatMap(a, f) + ConcatMap(b, f)
    decreases |b|
  {
    if b == [] {
      assert a + b == a;
    } else {
      var init, last := b[..|b| - 1], b[|b| - 1];
      assert (a + b)[..|a + b| - 1] == a + init;
      assert (a + b)[|a + b| - 1] == last;
      ConcatMapConcat(a, init, f);
    }
  }

  /** Rendering distributes over concatenation of histories: the lines of
      an earlier item come before those of a later one. */
  lemma RenderedConcat(a: seq<ItemContent>, b: seq<ItemContent>)
    ensures Rendered(a + b) == Rendered(a) + Rendered(b)
  {
    ConcatMapConcat(a, b, Piece);
  }

  /** How many line breaks a string holds */
  function Newlines(s: string): nat {
    if s == [] then 0 else Newlines(s[..|s| - 1]) + (if s[|s| - 1] == '\n' then 1 else 0)
  }

  lemma {:induction false} NewlinesConcat(a: string, b: string)
    ensures Newlines(a + b) == Newlines(a) + Newlines(b)
    decreases |b|
  {
    if b == [] {
      assert a + b == a;
    } else {
      NewlinesConcat(a, b[..|b| - 1]);
      assert (a + b)[..|a + b| - 1] == a + b[..|b| - 1];
    }
  }

  /** How many items contribute a line */
  function Contributing(items: seq<ItemContent>): nat {
    if items == [] then 0 else Contributing(items[..|items| - 1]) + (if items[|items| - 1].Some? then 1 else 0)
  }

  ghost predicate SingleLine(p: Payload) {
    Newlines(RoleOf(p)) == 0 && Newlines(BodyOf(p)) == 0
  }

  /** When no role or content holds a line break, the rendering has exactly
      one line per item with content: items without content add none. */
  lemma {:induction false} OneLinePerItem(items: seq<ItemContent>)
    requires forall i :: 0 <= i < |items| && items[i].Some? ==> SingleLine(items[i].value)
    ensures Newlines(Rendered(items)) == Contributing(items)
    decreases |items|
  {
    if items != [] {
      var init, last := items[..|items| - 1], items[|items| - 1];
      OneLinePerItem(init);
      if last.Some? {
        var p := last.value;
        NewlinesConcat(Rendered(init), Piece(last));
        NewlinesConcat(RoleOf(p) + ": " + BodyOf(p), "\n");
        NewlinesConcat(RoleOf(p) + ": ", BodyOf(p));
        NewlinesConcat(RoleOf(p), ": ");
        assert Newlines(": ") == 0 by {
          assert ": "[..1] == ":";
          assert ":"[..0] == "";
        }
        assert Newlines("\n") == 1 by {
          assert "\n"[..0] == "";
        }
      } else {
        assert Piece(last) == "";
        assert Rendered(items) == Rendered(init);
      }
    }
  }

  /** The content of each history item, in order */
  function Contents(h: seq<HistoryItem>): (c: seq<ItemContent>)
    ensures |c| == |h| && forall i :: 0 <= i < |h| ==> c[i] == ContentOf(h[i])
  {
    seq(|h|, i requires 0 <= i < |h| => ContentOf(h[i]))
  }

  /** The content of each stacked message, in order */
  function StackContents(stack: seq<StackEntry>): (c: seq<ItemContent>)
    ensures |c| == |stack| && forall i :: 0 <= i < |stack| ==> c[i] == Some(stack[i].content)
  {
    seq(|stack|, i requires 0 <= i < |stack| => Some(stack[i].content))
  }

  /** The item before the stacked messages: the summary, if one is stored */
  function SummaryContents(s: Session): (c: seq<ItemContent>)
    ensures s.summary.Some? ==> c == [Some(Text(s.summary.value.content))]
    ensures s.summary.None? ==> c == []
  {
    if s.summary.Some? then [Some(Text(s.summary.value.content))] else []
  }

  lemma HistoryContents(s: Session)
    ensures Contents(History(s)) == SummaryContents(s) + StackContents(s.stack)
  {
    var head, c := SummaryContents(s), Contents(History(s));
    assert |c| == |head| + |s.stack|;
    forall i | 0 <= i < |c| ensures c[i] == (head + StackContents(s.stack))[i] {
      if i >= |head| {
        assert History(s)[i] == MessageItem(s.stack[i - |head|]);
      }
    }
  }

  /** Rendering a chat history: an "assistant:" line with the summary, if
      one is stored, followed by one line per stacked message. */
  lemma HistoryRendering(s: Session)
    ensures Rendered(Contents(History(s))) ==
      (if s.summary.Some? then Line(Text(s.summary.value.content)) else "")
      + Rendered(StackContents(s.stack))
  {
    var head := SummaryContents(s);
    HistoryContents(s);
    RenderedConcat(head, StackContents(s.stack));
    if s.summary.Some? {
      assert head[..0] == [];
      assert ConcatMap(head[..0], Piece) == "";
      assert Rendered(head) == Piece(head[0]);
    } else {
      assert Rendered(head) == "";
    }
  }

  /** The prompt handed to the language model */
  function Prompt(conversationHistory: string, messageText: string): string {
    Instruction + conversationHistory + "\nUser: " + messageText + "\nAssistant:"
  }

  /** The instruction that opens every prompt */
  const Instruction: string :=
    "Given the following conversation history, continue the conversation appropriately. Do not include any JSON formatting in your response.\n\n"

  /** handle_user_message: `respond` stands for the model call together with
      the unwrapping of its reply, `countTokens` for the tokenizer. */
  method HandleUserMessage(cm: ChatManager, u: UserId, messageText: string,
                           respond: string -> string, countTokens: string -> nat)
    returns (responseText: string, tokenCount: nat)
    requires cm.Valid()
    modifies cm
    ensures cm.Valid()
    ensures var prompt := Prompt(Rendered(Contents(old(cm.GetChatHistory(u)))), messageText);
      responseText == respond(prompt) && tokenCount == countTokens(prompt)
    ensures |cm.log| == |old(cm.log)| + 2 && cm.log[..|old(cm.log)|] == old(cm.log)
    ensures cm.log[|old(cm.log)|].userId == u && cm.log[|old(cm.log)| + 1].userId == u
    ensures cm.log[|old(cm.log)|].content == Fields(Some("user"), Some(messageText))
    ensures cm.log[|old(cm.log)| + 1].content == Fields(Some("assistant"), Some(responseText))
    ensures cm.clock == old(cm.clock) + 2
    ensures cm.SessionOf(u)
      == AfterAdd(AfterAdd(old(cm.SessionOf(u)), Fields(Some("user"), Some(messageText)), old(cm.clock) + 1, SummaryThreshold, cm.summarize),
                  Fields(Some("assistant"), Some(responseText)), old(cm.clock) + 2, SummaryThreshold, cm.summarize)
    ensures forall v :: v != u ==> cm.SessionOf(v) == old(cm.SessionOf(v))
    ensures old(cm.Steady(u)) ==> cm.Steady(u)
    ensures forall v :: v != u && old(cm.Steady(v)) ==> cm.Steady(v)
  {
    var history := cm.GetChatHistory(u);
    var conversationHistory := RenderHistory(Contents(history));
    var prompt := Prompt(conversationHistory, messageText);
    tokenCount := countTokens(prompt);
    responseText := respond(prompt);
    var userMessage := Fields(Some("user"), Some(messageText));
    var assistantMessage := Fields(Some("assistant"), Some(responseText));
    StoreTurn(cm, u, userMessage, assistantMessage);
  }

  /** Store the user's message, then the reply. */
  method StoreTurn(cm: ChatManager, u: UserId, userMessage: Payload, assistantMessage: Payload)
    requires cm.Valid()
    modifies cm
    ensures cm.Valid()
    ensures |cm.log| == |old(cm.log)| + 2 && cm.log[..|old(cm.log)|] == old(cm.log)
    ensures cm.log[|old(cm.log)|].userId == u && cm.log[|old(cm.log)| + 1].userId == u
    ensures cm.log[|old(cm.log)|].content == userMessage
    ensures cm.log[|old(cm.log)| + 1].content == assistantMessage
    ensures cm.clock == old(cm.clock) + 2
    ensures cm.SessionOf(u)
      == AfterAdd(AfterAdd(old(cm.SessionOf(u)), userMessage, old(cm.clock) + 1, SummaryThreshold, cm.summarize),
                  assistantMessage, old(cm.clock) + 2, SummaryThreshold, cm.summarize)
    ensures old(cm.Steady(u)) ==> cm.Steady(u)
    ensures forall v :: v != u && old(cm.Steady(v)) ==> cm.Steady(v)
    ensures forall v :: v != u ==> cm.SessionOf(v) == old(cm.SessionOf(v))
  {
    ghost var log0 := cm.log;
    cm.HandleNewMessage(u, userMessage);
    ghost var log1 := cm.log;
    cm.HandleNewMessage(u, assistantMessage);
    assert cm.log == log0 + [log1[|log0|], cm.log[|log1|]];
  }
}
