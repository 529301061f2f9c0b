/** Translation of Responses API input items into chat messages. Consecutive function calls are
    collected into one assistant message; the result is characterised without naming the loop. */
module CodexInput {
  import opened Common
  import CS = CodexStream
  import opened CodexSync

  datatype Part = TextPart(text: string) | RawPart(raw: string) | OtherPart

  datatype Content = Plain(text: string) | Parts(parts: seq<Part>)

  /** An element of `input`: an item whose type is `function_call` or `function_call_output`, any
      other object (a missing role is ""), or an element that is not an object. */
  datatype InputItem =
    | FunctionCallItem(call: ToolCall)
    | FunctionOutputItem(callId: string, output: string)
    | MessageItem(role: string, content: Content)
    | NotAnObject

  datatype Input = Text(text: string) | Items(items: seq<InputItem>) | OtherInput

  datatype ChatMessage =
    | Chat(role: string, content: string)
    | ToolCalls(calls: seq<ToolCall>)
    | ToolResult(callId: string, content: string)

  /** `"\n".join(p for p in parts if p)` over the texts of the parts. */
  function JoinParts(parts: seq<Part>): string
    decreases |parts|
  {
    if parts == [] then ""
    else
      var init := JoinParts(parts[..|parts| - 1]);
      var p := PartText(parts[|parts| - 1]);
      if p == "" then init else if init == "" then p else init + "\n" + p
  }

  function PartText(p: Part): string {
    match p
    case TextPart(t) => t
    case RawPart(t) => t
    case OtherPart => ""
  }

  /** The texts of the parts that have any. */
  function PartTexts(parts: seq<Part>): seq<string>
    decreases |parts|
  {
    if parts == [] then []
    else
      var init := PartTexts(parts[..|parts| - 1]);
      var p := PartText(parts[|parts| - 1]);
      if p == "" then init else init + [p]
  }

  function SplitLines(s: string): (r: seq<string>)
    ensures |r| >= 1
    decreases |s|
  {
    if s == "" then [""]
    else
      More(SplitLines(s[..|s| - 1]), s[|s| - 1])
  }

  /** Behind a line break the lines of a text begin. */
  lemma {:induction false} LinesAfterBreak(s: string, w: string)
    ensures SplitLines(s + "\n" + w) == SplitLines(s) + SplitLines(w)
    decreases |w|
  {
    var t := s + "\n" + w;
    if w == "" {
      assert t[..|t| - 1] == s;
    } else {
      var n := |w| - 1;
      LinesAfterBreak(s, w[..n]);
      assert t[..|t| - 1] == s + "\n" + w[..n] && t[|t| - 1] == w[n];
      SplitSnoc(t);
      SplitSnoc(w);
      hide SplitLines;
      MoreAppend(SplitLines(s), SplitLines(w[..n]), w[n]);
    }
  }

  /** The lines of a text with one more character. */
  function More(r: seq<string>, c: char): seq<string>
    requires r != []
  {
    if c == '\n' then r + [""] else r[|r| - 1 := r[|r| - 1] + [c]]
  }

  lemma SplitSnoc(s: string)
    requires s != ""
    ensures SplitLines(s) == More(SplitLines(s[..|s| - 1]), s[|s| - 1])
  {
  }

  lemma MoreAppend(r: seq<string>, q: seq<string>, c: char)
    requires q != []
    ensures More(r + q, c) == r + More(q, c)
  {
  }

  function LinesOf(texts: seq<string>): (r: seq<seq<string>>)
    ensures |r| == |texts| && forall k :: 0 <= k < |r| ==> r[k] == SplitLines(texts[k])
  {
    seq(|texts|, k requires 0 <= k < |texts| => SplitLines(texts[k]))
  }

  /** The lines of the joined content are those of the parts that have a text, in order; it is empty
      exactly if no part has one. */
  lemma {:induction false} JoinedPartsAreLines(parts: seq<Part>)
    ensures JoinParts(parts) == "" <==> PartTexts(parts) == []
    ensures PartTexts(parts) != [] ==> SplitLines(JoinParts(parts)) == Flatten(LinesOf(PartTexts(parts)))
    decreases |parts|
  {
    if parts != [] {
      hide SplitLines;
      var n := |parts| - 1;
      JoinedPartsAreLines(parts[..n]);
      var init, p := PartTexts(parts[..n]), PartText(parts[n]);
      LinesAfterBreak(JoinParts(parts[..n]), p);
      assert LinesOf(init + [p]) == LinesOf(init) + [SplitLines(p)];
      FlattenAppend(LinesOf(init), [SplitLines(p)]);
      assert Flatten([SplitLines(p)]) == SplitLines(p) + [];
      assert init == [] ==> LinesOf(init) == [];
    }
  }

  function ContentText(c: Content): string {
    if c.Plain? then c.text else JoinParts(c.parts)
  }

  // ---------- the specification ----------

  /** One thing said: a call, a result or a plain message. */
  datatype Turn = Calls(call: ToolCall) | Results(callId: string, output: string) | Says(role: string, content: string)

  function TurnsOfItem(x: InputItem): seq<Turn> {
    match x
    case FunctionCallItem(c) => [Calls(c)]
    case FunctionOutputItem(id, output) => [Results(id, output)]
    case MessageItem(role, content) => [Says(if role == "" then "user" else role, ContentText(content))]
    case NotAnObject => []
  }

  function TurnsOfItems(xs: seq<InputItem>): seq<Turn>
    decreases |xs|
  {
    if xs == [] then [] else TurnsOfItems(xs[..|xs| - 1]) + TurnsOfItem(xs[|xs| - 1])
  }

  function TurnsOfInput(instructions: string, input: Input): seq<Turn> {
    (if instructions == "" then [] else [Says("system", instructions)]) +
    match input
    case Text(t) => [Says("user", t)]
    case Items(xs) => TurnsOfItems(xs)
    case OtherInput => []
  }

  function CallTurns(calls: seq<ToolCall>): (r: seq<Turn>)
    ensures |r| == |calls| && forall k :: 0 <= k < |r| ==> r[k] == Calls(calls[k])
  {
    seq(|calls|, k requires 0 <= k < |calls| => Calls(calls[k]))
  }

  function TurnsOfMessage(m: ChatMessage): seq<Turn> {
    match m
    case Chat(role, content) => [Says(role, content)]
    case ToolCalls(calls) => CallTurns(calls)
    case ToolResult(id, content) => [Results(id, content)]
  }

  function Turns(ms: seq<ChatMessage>): seq<Turn>
    decreases |ms|
  {
    if ms == [] then [] else TurnsOfMessage(ms[0]) + Turns(ms[1..])
  }

  /** Calls are grouped maximally: no empty tool-call message and no two in a row. */
  ghost predicate Grouped(ms: seq<ChatMessage>) {
    && (forall k :: 0 <= k < |ms| && ms[k].ToolCalls? ==> ms[k].calls != [])
    && (forall k :: 0 < k < |ms| ==> !(ms[k - 1].ToolCalls? && ms[k].ToolCalls?))
  }

  ghost predicate Conversation(ms: seq<ChatMessage>, turns: seq<Turn>) {
    Grouped(ms) && Turns(ms) == turns
  }

  lemma {:induction false} TurnsAppend(a: seq<ChatMessage>, b: seq<ChatMessage>)
    ensures Turns(a + b) == Turns(a) + Turns(b)
    decreases |a|
  {
    if a == [] {
      assert a + b == b;
    } else {
      assert (a + b)[1..] == a[1..] + b;
      TurnsAppend(a[1..], b);
    }
  }

  lemma TurnsSnoc(ms: seq<ChatMessage>, m: ChatMessage)
    ensures Turns(ms + [m]) == Turns(ms) + TurnsOfMessage(m)
  {
    TurnsAppend(ms, [m]);
    assert Turns([m]) == TurnsOfMessage(m) + Turns([]);
  }

  // ---------- the source's loop ----------

  /** Messages to which a tool-call message may be appended. */
  ghost predicate Open(ms: seq<ChatMessage>) {
    Grouped(ms) && (ms == [] || !ms[|ms| - 1].ToolCalls?)
  }

  method Flush(messages: seq<ChatMessage>, pending: seq<ToolCall>) returns (r: seq<ChatMessage>)
    requires Open(messages)
    ensures Conversation(r, Turns(messages) + CallTurns(pending))
  {
    if pending == [] {
      return messages;
    }
    TurnsSnoc(messages, ToolCalls(pending));
    r := messages + [ToolCalls(pending)];
  }

  lemma OpenSnoc(ms: seq<ChatMessage>, m: ChatMessage)
    requires Grouped(ms) && !m.ToolCalls?
    ensures Open(ms + [m]) && Turns(ms + [m]) == Turns(ms) + TurnsOfMessage(m)
  {
    TurnsSnoc(ms, m);
  }

  /** One round of the loop. */
  method ConvertItem(x: InputItem, messages: seq<ChatMessage>, pending: seq<ToolCall>)
    returns (ms: seq<ChatMessage>, calls: seq<ToolCall>)
    requires Open(messages)
    ensures Open(ms)
    ensures Turns(ms) + CallTurns(calls) == Turns(messages) + CallTurns(pending) + TurnsOfItem(x)
  {
    ms, calls := messages, pending;
    if x.FunctionCallItem? {
      calls := calls + [x.call];
      assert CallTurns(calls) == CallTurns(pending) + [Calls(x.call)];
    } else if !x.NotAnObject? {
      ms := Flush(ms, calls);
      calls := [];
      var m := if x.FunctionOutputItem? then ToolResult(x.callId, x.output)
               else Chat(if x.role == "" then "user" else x.role, ContentText(x.content));
      OpenSnoc(ms, m);
      ms := ms + [m];
    }
  }

  method ConvertItems(items: seq<InputItem>, first: seq<ChatMessage>) returns (messages: seq<ChatMessage>)
    requires Open(first)
    ensures Conversation(messages, Turns(first) + TurnsOfItems(items))
  {
    hide Open, Grouped, Turns, TurnsOfItem;
    messages := first;
    var pending: seq<ToolCall> := [];
    for i := 0 to |items|
      invariant Open(messages)
      invariant Turns(messages) + CallTurns(pending) == Turns(first) + TurnsOfItems(items[..i])
    {
      assert items[..i + 1][..i] == items[..i];
      ghost var before := TurnsOfItems(items[..i]);
      assert TurnsOfItems(items[..i + 1]) == before + TurnsOfItem(items[i]);
      assert Turns(first) + (before + TurnsOfItem(items[i])) == Turns(first) + before + TurnsOfItem(items[i]);
      messages, pending := ConvertItem(items[i], messages, pending);
    }
    assert items[..|items|] == items;
    messages := Flush(messages, pending);
  }

  /** Every call, result and message of the input survives, once and in order, and the calls are
      grouped maximally. */
  method ResponsesInputToMessages(instructions: string, input: Input) returns (messages: seq<ChatMessage>)
    ensures Conversation(messages, TurnsOfInput(instructions, input))
  {
    hide Open, Grouped, Turns;
    NoMessages();
    messages := [];
    if instructions != "" {
      OpenSnoc([], Chat("system", instructions));
      assert [] + [Chat("system", instructions)] == [Chat("system", instructions)];
      messages := [Chat("system", instructions)];
    }
    OpenIsGrouped(messages);
    match input
    case Text(t) =>
      OpenSnoc(messages, Chat("user", t));
      messages := messages + [Chat("user", t)];
      OpenIsGrouped(messages);
    case Items(items) =>
      messages := ConvertItems(items, messages);
    case OtherInput =>
  }

  lemma NoMessages()
    ensures Open([]) && Turns([]) == []
  {
  }

  lemma OpenIsGrouped(ms: seq<ChatMessage>)
    ensures Open(ms) ==> Grouped(ms)
  {
  }

  // ---------- what the specification determines ----------

  function LeadingCalls(ts: seq<Turn>): seq<ToolCall> {
    if ts == [] || !ts[0].Calls? then [] else [ts[0].call] + LeadingCalls(ts[1..])
  }

  lemma {:induction false} LeadingCallsOfGroup(calls: seq<ToolCall>, rest: seq<Turn>)
    requires rest == [] || !rest[0].Calls?
    ensures LeadingCalls(CallTurns(calls) + rest) == calls
    decreases |calls|
  {
    if calls == [] {
      assert CallTurns(calls) + rest == rest;
    } else {
      LeadingCallsOfGroup(calls[1..], rest);
      assert (CallTurns(calls) + rest)[1..] == CallTurns(calls[1..]) + rest;
    }
  }

  /** The first message of a conversation can be read off its turns. */
  lemma FirstMessage(ms: seq<ChatMessage>)
    requires Grouped(ms) && ms != []
    ensures var ts := Turns(ms);
            && ts != []
            && ms[0] == match ts[0]
                        case Calls(_) => ToolCalls(LeadingCalls(ts))
                        case Results(id, output) => ToolResult(id, output)
                        case Says(role, content) => Chat(role, content)
  {
    if ms[0].ToolCalls? {
      var rest := Turns(ms[1..]);
      assert |ms| > 1 ==> !ms[1].ToolCalls?;
      assert rest == [] || !rest[0].Calls?;
      LeadingCallsOfGroup(ms[0].calls, rest);
    }
  }

  lemma GroupedTail(ms: seq<ChatMessage>)
    requires Grouped(ms) && ms != []
    ensures Grouped(ms[1..])
  {
    forall k | 0 < k < |ms[1..]|
      ensures !(ms[1..][k - 1].ToolCalls? && ms[1..][k].ToolCalls?)
    {
      assert !(ms[k].ToolCalls? && ms[k + 1].ToolCalls?);
    }
  }

  /** The turns determine the conversation: there is one maximal grouping. */
  lemma {:induction false} ConversationIsUnique(a: seq<ChatMessage>, b: seq<ChatMessage>)
    requires Grouped(a) && Grouped(b) && Turns(a) == Turns(b)
    ensures a == b
    decreases |a|
  {
    if a == [] || b == [] {
      if a != [] {
        FirstMessage(a);
      } else if b != [] {
        FirstMessage(b);
      }
    } else {
      FirstMessage(a);
      FirstMessage(b);
      GroupedTail(a);
      GroupedTail(b);
      assert Turns(a[1..]) == Turns(a)[|TurnsOfMessage(a[0])|..];
      assert Turns(b[1..]) == Turns(b)[|TurnsOfMessage(b[0])|..];
      ConversationIsUnique(a[1..], b[1..]);
      assert a == [a[0]] + a[1..] && b == [b[0]] + b[1..];
    }
  }

  /** Turn `i` is part of message `p`. */
  ghost predicate Holds(ms: seq<ChatMessage>, p: int, t: Turn) {
    0 <= p < |ms| && t in TurnsOfMessage(ms[p])
  }

  /** A call and a result that came in this order are in messages in this order. */
  lemma {:induction false} ResultFollowsCall(ms: seq<ChatMessage>, i: nat, j: nat) returns (p: int, q: int)
    requires i < j < |Turns(ms)| && Turns(ms)[i].Calls? && Turns(ms)[j].Results?
    ensures p < q && Holds(ms, p, Turns(ms)[i]) && Holds(ms, q, Turns(ms)[j])
    decreases |ms|
  {
    var n := |TurnsOfMessage(ms[0])|;
    if n <= i {
      p, q := ResultFollowsCall(ms[1..], i - n, j - n);
      p, q := p + 1, q + 1;
    } else {
      p := 0;
      assert TurnsOfMessage(ms[0])[i] == Turns(ms)[i];
      assert ms[0].ToolCalls?;
      q := MessageOf(ms[1..], j - n);
      q := q + 1;
    }
  }

  lemma {:induction false} MessageOf(ms: seq<ChatMessage>, i: nat) returns (p: int)
    requires i < |Turns(ms)|
    ensures Holds(ms, p, Turns(ms)[i])
    decreases |ms|
  {
    var n := |TurnsOfMessage(ms[0])|;
    if i < n {
      p := 0;
      assert TurnsOfMessage(ms[0])[i] == Turns(ms)[i];
    } else {
      p := MessageOf(ms[1..], i - n);
      p := p + 1;
    }
  }

  // ---------- feeding a response back ----------

  function AsInput(item: CS.Item): InputItem {
    match item
    case Message(_, content, _) =>
      MessageItem("assistant", Parts(seq(|content|, k requires 0 <= k < |content| => TextPart(content[k]))))
    case FunctionCall(_, callId, name, arguments, _) => FunctionCallItem(ToolCall(callId, name, arguments))
  }

  function AsInputs(items: seq<CS.Item>): (r: seq<InputItem>)
    ensures |r| == |items| && forall k :: 0 <= k < |r| ==> r[k] == AsInput(items[k])
  {
    seq(|items|, k requires 0 <= k < |items| => AsInput(items[k]))
  }

  lemma {:induction false} CallItemsBecomeCalls(xs: seq<InputItem>, calls: seq<ToolCall>)
    requires |xs| == |calls| && forall k :: 0 <= k < |xs| ==> xs[k] == FunctionCallItem(calls[k])
    ensures TurnsOfItems(xs) == CallTurns(calls)
    decreases |xs|
  {
    if xs != [] {
      var n := |xs| - 1;
      CallItemsBecomeCalls(xs[..n], calls[..n]);
    }
  }

  lemma TextItemBecomesText(id: string, text: string)
    ensures TurnsOfItem(AsInput(CS.Message(id, [text], true))) == [Says("assistant", text)]
  {
    var parts := AsInput(CS.Message(id, [text], true)).content.parts;
    assert parts == [TextPart(text)];
    assert parts[..0] == [];
    assert JoinParts(parts) == text;
  }

  /** The turns of a text and of a group of calls, each of which may be missing. */
  function TextTurns(text: Option<string>): seq<Turn> {
    if text.Some? then [Says("assistant", text.value)] else []
  }

  function Reply(text: Option<string>, calls: seq<ToolCall>): seq<ChatMessage> {
    (if text.Some? then [Chat("assistant", text.value)] else []) + (if calls != [] then [ToolCalls(calls)] else [])
  }

  lemma ReplyIsTheConversation(text: Option<string>, calls: seq<ToolCall>, ms: seq<ChatMessage>)
    requires Conversation(ms, TextTurns(text) + CallTurns(calls))
    ensures ms == Reply(text, calls)
  {
    var texts := if text.Some? then [Chat("assistant", text.value)] else [];
    var groups := if calls != [] then [ToolCalls(calls)] else [];
    assert Turns(texts) == TextTurns(text) by {
      assert text.Some? ==> texts[1..] == [];
    }
    assert Turns(groups) == CallTurns(calls) by {
      assert calls != [] ==> groups[1..] == [] && Turns(groups[1..]) == [];
    }
    TurnsAppend(texts, groups);
    ConversationIsUnique(ms, texts + groups);
  }

  lemma TextItemsBecomeText(xs: seq<InputItem>, id: string, text: string)
    requires xs == [AsInput(CS.Message(id, [text], true))]
    ensures TurnsOfItems(xs) == [Says("assistant", text)]
  {
    TextItemBecomesText(id, text);
    assert xs[..0] == [];
  }

  /** Feeding the converted completion back as input yields the assistant text, or one message with
      the same (id, name, arguments) list. */
  lemma SyncOutputFedBack(c: Completion, msgId: string, newId: nat -> string, ms: seq<ChatMessage>)
    requires Conversation(ms, TurnsOfInput("", Items(AsInputs(SyncOutput(c, msgId, newId)))))
    ensures ms == if c.finish == "tool_calls" && c.calls != [] then [ToolCalls(c.calls)] else [Chat("assistant", c.content)]
  {
    hide Conversation, AsInput, TurnsOfItems, Reply;
    var xs := AsInputs(SyncOutput(c, msgId, newId));
    assert TurnsOfInput("", Items(xs)) == TurnsOfItems(xs);
    if c.finish == "tool_calls" && c.calls != [] {
      forall k | 0 <= k < |xs|
        ensures xs[k] == FunctionCallItem(c.calls[k])
      {
        AsInputOfCall(newId(k), c.calls[k]);
      }
      CallItemsBecomeCalls(xs, c.calls);
      assert TextTurns(None) + CallTurns(c.calls) == CallTurns(c.calls);
      ReplyIsTheConversation(None, c.calls, ms);
    } else {
      TextItemsBecomeText(xs, msgId, c.content);
      assert TextTurns(Some(c.content)) + CallTurns([]) == [Says("assistant", c.content)];
      ReplyIsTheConversation(Some(c.content), [], ms);
    }
    PureReply(c);
  }

  lemma PureReply(c: Completion)
    ensures c.calls != [] ==> Reply(None, c.calls) == [ToolCalls(c.calls)]
    ensures Reply(Some(c.content), []) == [Chat("assistant", c.content)]
  {
  }

  lemma AsInputOfCall(id: string, c: ToolCall)
    ensures AsInput(CS.FunctionCall(id, c.id, c.name, c.arguments, true)) == FunctionCallItem(c)
  {
  }

  function CallsOfState(calls: seq<CS.Call>): (r: seq<ToolCall>)
    ensures |r| == |calls| && forall k :: 0 <= k < |r| ==> r[k] == ToolCall(calls[k].callId, calls[k].name, calls[k].arguments)
  {
    seq(|calls|, k requires 0 <= k < |calls| => ToolCall(calls[k].callId, calls[k].name, calls[k].arguments))
  }

  /** Feeding a streamed response back yields its text, then one message with its calls. */
  lemma StreamOutputFedBack(cfg: CS.Config, s: CS.State, ms: seq<ChatMessage>)
    requires Conversation(ms, TurnsOfInput("", Items(AsInputs(CS.Output(cfg, s)))))
    ensures ms == Reply(if s.textIndex.Some? then Some(s.text) else None, CallsOfState(s.calls))
  {
    hide Grouped, Turns, AsInput, TurnsOfItems;
    var text := if s.textIndex.Some? then Some(s.text) else None;
    var calls := CallsOfState(s.calls);
    var a, b := AsInputs(CS.TextItem(cfg, s)), AsInputs(CS.CallItems(s.calls));
    assert AsInputs(CS.Output(cfg, s)) == a + b;
    assert TurnsOfInput("", Items(a + b)) == TurnsOfItems(a + b);
    TurnsOfItemsAppend(a, b);
    forall k | 0 <= k < |b|
      ensures b[k] == FunctionCallItem(calls[k])
    {
      AsInputOfCall(s.calls[k].fcId, calls[k]);
    }
    CallItemsBecomeCalls(b, calls);
    assert TurnsOfItems(a) == TextTurns(text) by {
      if s.textIndex.Some? {
        TextItemsBecomeText(a, cfg.msgId, s.text);
      } else {
        CallItemsBecomeCalls(a, []);
      }
    }
    ReplyIsTheConversation(text, calls, ms);
  }

  lemma {:induction false} TurnsOfItemsAppend(a: seq<InputItem>, b: seq<InputItem>)
    ensures TurnsOfItems(a + b) == TurnsOfItems(a) + TurnsOfItems(b)
    decreases |b|
  {
    hide TurnsOfItem;
    if b == [] {
      assert a + b == a;
    } else {
      var n := |b| - 1;
      var all := a + b;
      assert all[..|all| - 1] == a + b[..n] && all[|all| - 1] == b[n];
      TurnsOfItemsAppend(a, b[..n]);
      assert TurnsOfItems(all) == TurnsOfItems(a + b[..n]) + TurnsOfItem(b[n]);
    }
  }

  // ---------- single inputs ----------

  lemma OneMessage(ms: seq<ChatMessage>, m: ChatMessage, first: seq<ChatMessage>)
    requires Open(first) && !m.ToolCalls? && Conversation(ms, Turns(first) + TurnsOfMessage(m))
    ensures ms == first + [m]
  {
    OpenSnoc(first, m);
    hide Turns;
    ConversationIsUnique(ms, first + [m]);
  }

  function Instructed(instructions: string): seq<ChatMessage> {
    if instructions == "" then [] else [Chat("system", instructions)]
  }

  lemma InstructedTurns(instructions: string)
    ensures Open(Instructed(instructions))
    ensures Turns(Instructed(instructions)) == if instructions == "" then [] else [Says("system", instructions)]
  {
    assert instructions != "" ==> Instructed(instructions)[1..] == [];
  }

  /** Instructions come first, as a system message; a text is one user message; an input that is neither a
      text nor a list adds nothing. */
  lemma TextInput(instructions: string, text: string, ms: seq<ChatMessage>)
    ensures Conversation(ms, TurnsOfInput(instructions, Text(text))) ==> ms == Instructed(instructions) + [Chat("user", text)]
    ensures Conversation(ms, TurnsOfInput(instructions, OtherInput)) ==> ms == Instructed(instructions)
  {
    InstructedTurns(instructions);
    hide Open, Turns, Grouped;
    OpenIsGrouped(Instructed(instructions));
    if Conversation(ms, TurnsOfInput(instructions, Text(text))) {
      OneMessage(ms, Chat("user", text), Instructed(instructions));
    }
    if Conversation(ms, TurnsOfInput(instructions, OtherInput)) {
      assert TurnsOfInput(instructions, OtherInput) == Turns(Instructed(instructions));
      ConversationIsUnique(ms, Instructed(instructions));
    }
  }

  /** A tool result keeps its call id and output, a message its role, which is `user` if it has none, and
      its content. */
  lemma SingleItem(instructions: string, x: InputItem, ms: seq<ChatMessage>)
    requires Conversation(ms, TurnsOfInput(instructions, Items([x])))
    ensures var first := Instructed(instructions);
            match x
            case FunctionOutputItem(id, output) => ms == first + [ToolResult(id, output)]
            case MessageItem(role, content) =>
              ms == first + [Chat(if role == "" then "user" else role, ContentText(content))]
            case FunctionCallItem(call) => ms == first + [ToolCalls([call])]
            case NotAnObject => ms == first
  {
    var first := Instructed(instructions);
    InstructedTurns(instructions);
    assert [x][..0] == [] && TurnsOfItems([x]) == [] + TurnsOfItem(x) == TurnsOfItem(x);
    hide TurnsOfItems, Turns, Grouped, ContentText;
    OpenIsGrouped(first);
    match x {
      case FunctionOutputItem(id, output) => OneMessage(ms, ToolResult(id, output), first);
      case MessageItem(role, content) => OneMessage(ms, Chat(if role == "" then "user" else role, ContentText(content)), first);
      case FunctionCallItem(call) =>
        OneGroup(first, call);
        ConversationIsUnique(ms, first + [ToolCalls([call])]);
      case NotAnObject =>
        assert TurnsOfInput(instructions, Items([x])) == Turns(first);
        ConversationIsUnique(ms, first);
    }
  }

  lemma OneGroup(first: seq<ChatMessage>, call: ToolCall)
    requires Open(first)
    ensures Grouped(first + [ToolCalls([call])]) && Turns(first + [ToolCalls([call])]) == Turns(first) + [Calls(call)]
  {
    TurnsSnoc(first, ToolCalls([call]));
    assert CallTurns([call]) == [Calls(call)];
  }
}
