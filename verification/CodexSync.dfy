/** The non-streaming half of the translator, and what a streamed response has in common with the
    synchronous one. */
module CodexSync {
  import opened Common
  import opened SseFrames
  import opened CodexStream

  datatype ToolCall = ToolCall(id: string, name: string, arguments: string)

  /** The parts of a chat completion that the conversion reads: its first choice, with a null or
      missing content as "", and its usage. */
  datatype Completion = Completion(model: string, content: string, calls: seq<ToolCall>, finish: string, usage: Usage)

  datatype Response = Response(id: string, model: string, output: seq<Item>, usage: Usage)

  /** `_chat_completion_to_response`; `newId(k)` is the id made for the k-th call. */
  method ChatCompletionToResponse(c: Completion, respId: string, msgId: string, newId: nat -> string)
    returns (r: Response)
    ensures r == Response(respId, c.model, SyncOutput(c, msgId, newId), c.usage)
  {
    var output: seq<Item> := [];
    if c.finish == "tool_calls" && c.calls != [] {
      for k := 0 to |c.calls|
        invariant output == SyncOutput(c, msgId, newId)[..k]
      {
        output := output + [FunctionCall(newId(k), c.calls[k].id, c.calls[k].name, c.calls[k].arguments, true)];
      }
    } else {
      output := output + [Message(msgId, [c.content], true)];
    }
    r := Response(respId, c.model, output, c.usage);
  }

  function SyncOutput(c: Completion, msgId: string, newId: nat -> string): seq<Item> {
    if c.finish == "tool_calls" && c.calls != [] then
      seq(|c.calls|, k requires 0 <= k < |c.calls| =>
        FunctionCall(newId(k), c.calls[k].id, c.calls[k].name, c.calls[k].arguments, true))
    else [Message(msgId, [c.content], true)]
  }

  // ---------- the completion a stream stands for ----------

  /** The chunk one frame contributes, if any. */
  function FrameChunk(cfg: Config, raw: Bytes): seq<Chunk> {
    var f := Classify(raw);
    if f.Payload? && cfg.parse(f.bytes).Event? then [cfg.parse(f.bytes).chunk] else []
  }

  /** The chunks that a run handles: those decoded before `[DONE]` or an exception. */
  function Handled(cfg: Config, frames: seq<Bytes>): seq<Chunk>
    decreases |frames|
  {
    if frames == [] then []
    else FrameChunk(cfg, frames[0]) + if EndsRun(cfg, frames[0]) then [] else Handled(cfg, frames[1..])
  }

  function ContentOf(c: Chunk): string {
    if c.delta.Some? then c.delta.value.content else ""
  }

  function CallsOf(c: Chunk): seq<ToolDelta> {
    if c.delta.Some? then c.delta.value.calls else []
  }

  function AllText(cs: seq<Chunk>): string
    decreases |cs|
  {
    if cs == [] then "" else AllText(cs[..|cs| - 1]) + ContentOf(cs[|cs| - 1])
  }

  function AllCalls(cs: seq<Chunk>): seq<ToolDelta>
    decreases |cs|
  {
    if cs == [] then [] else AllCalls(cs[..|cs| - 1]) + CallsOf(cs[|cs| - 1])
  }

  function FirstModel(cs: seq<Chunk>): string
    decreases |cs|
  {
    if cs == [] then "" else if cs[0].model != "" then cs[0].model else FirstModel(cs[1..])
  }

  function LastUsage(cs: seq<Chunk>): Usage
    decreases |cs|
  {
    if cs == [] then NO_USAGE
    else if cs[|cs| - 1].usage.Some? then cs[|cs| - 1].usage.value
    else LastUsage(cs[..|cs| - 1])
  }

  /** The delta indices in order of first appearance. */
  function Order(ds: seq<ToolDelta>): seq<int>
    decreases |ds|
  {
    if ds == [] then []
    else
      var r := Order(ds[..|ds| - 1]);
      if ds[|ds| - 1].index in r then r else r + [ds[|ds| - 1].index]
  }

  /** The first non-empty id sent for an index; names alike. */
  function FirstId(ds: seq<ToolDelta>, i: int): string
    decreases |ds|
  {
    if ds == [] then "" else if ds[0].index == i && ds[0].id != "" then ds[0].id else FirstId(ds[1..], i)
  }

  function FirstName(ds: seq<ToolDelta>, i: int): string
    decreases |ds|
  {
    if ds == [] then "" else if ds[0].index == i && ds[0].name != "" then ds[0].name else FirstName(ds[1..], i)
  }

  function AllArguments(ds: seq<ToolDelta>, i: int): string
    decreases |ds|
  {
    if ds == [] then ""
    else AllArguments(ds[..|ds| - 1], i) + if ds[|ds| - 1].index == i then ds[|ds| - 1].arguments else ""
  }

  /** The call that the deltas of one index make up. */
  function CallOf(ds: seq<ToolDelta>, i: int): ToolCall {
    ToolCall(FirstId(ds, i), FirstName(ds, i), AllArguments(ds, i))
  }

  function CallsAt(ds: seq<ToolDelta>, at: seq<int>): (r: seq<ToolCall>)
    ensures |r| == |at| && forall k :: 0 <= k < |r| ==> r[k] == CallOf(ds, at[k])
  {
    seq(|at|, k requires 0 <= k < |at| => CallOf(ds, at[k]))
  }

  ghost predicate Increasing(s: seq<int>) {
    forall j, k :: 0 <= j < k < |s| ==> s[j] < s[k]
  }

  /** An increasing list with one more element. */
  function Insert(s: seq<int>, x: int): seq<int>
    decreases |s|
  {
    if s == [] then [x]
    else
      var n := |s| - 1;
      if s[n] < x then s + [x] else if s[n] == x then s else Insert(s[..n], x) + [s[n]]
  }

  /** The delta indices in increasing order, as a completion lists its calls. */
  function Indices(ds: seq<ToolDelta>): seq<int>
    decreases |ds|
  {
    if ds == [] then [] else Insert(Indices(ds[..|ds| - 1]), ds[|ds| - 1].index)
  }

  /** The completion that the upstream would have sent at once, with the calls by index. The translator
      never reads the finish reason of a stream, so it is a parameter. */
  function Assembled(cs: seq<Chunk>, finish: string): Completion {
    Completion(FirstModel(cs), AllText(cs), CallsAt(AllCalls(cs), Indices(AllCalls(cs))), finish, LastUsage(cs))
  }

  // ---------- the translator's state is the assembled completion ----------

  lemma {:induction false} FirstIdSnoc(ds: seq<ToolDelta>, d: ToolDelta, i: int)
    ensures FirstId(ds + [d], i) == if FirstId(ds, i) == "" && d.index == i then d.id else FirstId(ds, i)
    decreases |ds|
  {
    if ds == [] {
      assert ([] + [d])[1..] == [];
    } else {
      assert (ds + [d])[1..] == ds[1..] + [d];
      FirstIdSnoc(ds[1..], d, i);
    }
  }

  lemma {:induction false} FirstNameSnoc(ds: seq<ToolDelta>, d: ToolDelta, i: int)
    ensures FirstName(ds + [d], i) == if FirstName(ds, i) == "" && d.index == i then d.name else FirstName(ds, i)
    decreases |ds|
  {
    if ds == [] {
      assert ([] + [d])[1..] == [];
    } else {
      assert (ds + [d])[1..] == ds[1..] + [d];
      FirstNameSnoc(ds[1..], d, i);
    }
  }

  lemma {:induction false} FirstModelSnoc(cs: seq<Chunk>, c: Chunk)
    ensures FirstModel(cs + [c]) == if FirstModel(cs) == "" then c.model else FirstModel(cs)
    decreases |cs|
  {
    if cs == [] {
      assert ([] + [c])[1..] == [];
    } else {
      assert (cs + [c])[1..] == cs[1..] + [c];
      FirstModelSnoc(cs[1..], c);
    }
  }

  ghost predicate CallMatches(c: Call, ds: seq<ToolDelta>) {
    c.callId == FirstId(ds, c.key) && c.name == FirstName(ds, c.key) && c.arguments == AllArguments(ds, c.key)
  }

  ghost predicate CallsMatch(calls: seq<Call>, ds: seq<ToolDelta>) {
    && |calls| == |Order(ds)|
    && (forall k :: 0 <= k < |calls| ==> calls[k].key == Order(ds)[k] && CallMatches(calls[k], ds))
  }

  /** Distinct entries of the call table have distinct keys. */
  ghost predicate KeysApart(calls: seq<Call>) {
    forall j, k :: 0 <= j < k < |calls| ==> calls[j].key != calls[k].key
  }

  /** Nothing was sent for an index that has not appeared. */
  lemma {:induction false} Unseen(ds: seq<ToolDelta>, i: int)
    requires i !in Order(ds)
    ensures FirstId(ds, i) == FirstName(ds, i) == AllArguments(ds, i) == ""
    decreases |ds|
  {
    if ds != [] {
      var n := |ds| - 1;
      Unseen(ds[..n], i);
      assert ds == ds[..n] + [ds[n]];
      FirstIdSnoc(ds[..n], ds[n], i);
      FirstNameSnoc(ds[..n], ds[n], i);
    }
  }

  lemma SnocOther(c: Call, ds: seq<ToolDelta>, d: ToolDelta)
    requires CallMatches(c, ds)
    ensures CallMatches(if c.key == d.index then Patch(c, d) else c, ds + [d])
  {
    FirstIdSnoc(ds, d, c.key);
    FirstNameSnoc(ds, d, c.key);
    assert (ds + [d])[..|ds|] == ds;
  }

  lemma OnCallMatches(cfg: Config, s: State, ds: seq<ToolDelta>, d: ToolDelta)
    requires CallsMatch(s.calls, ds) && KeysApart(s.calls)
    ensures CallsMatch(OnCall(cfg, s, d).calls, ds + [d]) && KeysApart(OnCall(cfg, s, d).calls)
  {
    var all := ds + [d];
    assert all[..|ds|] == ds;
    var r := OnCall(cfg, s, d).calls;
    if FindCall(s.calls, d.index).None? {
      forall k | 0 <= k < |Order(ds)|
        ensures Order(ds)[k] != d.index
      {
        assert s.calls[k].key != d.index;
      }
      Unseen(ds, d.index);
      SnocOther(Call(d.index, "", "", "", "", 0), ds, d);
    } else {
      assert Order(ds)[Slot(s, d)] == d.index;
    }
    forall k | 0 <= k < |s.calls|
      ensures r[k].key == s.calls[k].key && CallMatches(r[k], all)
    {
      SnocOther(s.calls[k], ds, d);
      if s.calls[k].key == d.index {
        assert k == Slot(s, d);
      }
    }
  }

  lemma {:induction false} OnCallsMatch(cfg: Config, s: State, ds: seq<ToolDelta>, more: seq<ToolDelta>)
    requires CallsMatch(s.calls, ds) && KeysApart(s.calls)
    ensures CallsMatch(OnCalls(cfg, s, more).calls, ds + more) && KeysApart(OnCalls(cfg, s, more).calls)
    decreases |more|
  {
    hide CallsMatch, KeysApart, OnCall;
    if more == [] {
      assert ds + more == ds;
    } else {
      var n := |more| - 1;
      OnCallsMatch(cfg, s, ds, more[..n]);
      var t := OnCalls(cfg, s, more[..n]);
      assert OnCalls(cfg, s, more) == OnCall(cfg, t, more[n]);
      OnCallMatches(cfg, t, ds + more[..n], more[n]);
      assert ds + more == ds + more[..n] + [more[n]];
    }
  }

  lemma {:induction false} OnCallsFrame(cfg: Config, s: State, more: seq<ToolDelta>)
    ensures var r := OnCalls(cfg, s, more);
            r.text == s.text && r.textIndex == s.textIndex && r.model == s.model && r.usage == s.usage
    decreases |more|
  {
    if more != [] {
      OnCallsFrame(cfg, s, more[..|more| - 1]);
    }
  }

  ghost predicate Matches(s: State, cs: seq<Chunk>) {
    && s.text == AllText(cs) && (s.textIndex.Some? <==> s.text != "")
    && s.model == FirstModel(cs) && s.usage == LastUsage(cs)
    && CallsMatch(s.calls, AllCalls(cs)) && KeysApart(s.calls)
  }

  lemma OnChunkMatches(cfg: Config, s: State, cs: seq<Chunk>, c: Chunk)
    requires Matches(s, cs)
    ensures Matches(OnChunk(cfg, s, c), cs + [c])
  {
    var all := cs + [c];
    assert all[..|cs|] == cs;
    FirstModelSnoc(cs, c);
    if c.delta.None? {
      assert AllText(cs) + "" == AllText(cs);
      assert AllCalls(cs) + [] == AllCalls(cs);
    } else {
      var t := OnText(cfg, Header(s, c), c.delta.value.content);
      assert t.calls == s.calls;
      assert AllText(cs) + "" == AllText(cs);
      OnCallsMatch(cfg, t, AllCalls(cs), c.delta.value.calls);
      OnCallsFrame(cfg, t, c.delta.value.calls);
    }
  }

  lemma OnFrameMatches(cfg: Config, s: State, cs: seq<Chunk>, raw: Bytes)
    requires Matches(s, cs)
    ensures var r := OnFrame(cfg, s, raw);
            Matches(r.state, cs + FrameChunk(cfg, raw)) && (r.phase.Reading? <==> !EndsRun(cfg, raw))
  {
    hide Matches, OnChunk;
    var more := FrameChunk(cfg, raw);
    if more == [] {
      assert cs + more == cs;
    } else {
      OnChunkMatches(cfg, s, cs, more[0]);
      assert more == [more[0]];
    }
  }

  lemma {:induction false} ConsumeMatches(cfg: Config, s: State, cs: seq<Chunk>, frames: seq<Bytes>)
    requires Matches(s, cs)
    ensures Matches(Consume(cfg, Run(s, Reading), frames).state, cs + Handled(cfg, frames))
    decreases |frames|
  {
    hide Matches, OnFrame, FrameChunk;
    if frames == [] {
      assert cs + [] == cs;
    } else {
      var more, rest := FrameChunk(cfg, frames[0]), Handled(cfg, frames[1..]);
      var r := OnFrame(cfg, s, frames[0]);
      OnFrameMatches(cfg, s, cs, frames[0]);
      if EndsRun(cfg, frames[0]) {
        assert Consume(cfg, Run(s, Reading), frames) == r;
        assert cs + Handled(cfg, frames) == cs + more;
      } else {
        ConsumeMatches(cfg, r.state, cs + more, frames[1..]);
        assert cs + more + rest == cs + (more + rest);
      }
    }
  }

  function Anonymous(item: Item): Item {
    item.(id := "")
  }

  function AnonymousAll(items: seq<Item>): seq<Item> {
    seq(|items|, k requires 0 <= k < |items| => Anonymous(items[k]))
  }

  /** The run on the whole stream holds the assembled completion. */
  lemma WholeMatches(cfg: Config, bytes: Bytes, breaks: bool)
    ensures Matches(Whole(cfg, bytes, breaks).state, Handled(cfg, SplitFrames(bytes).frames))
  {
    var frames := SplitFrames(bytes).frames;
    ConsumeMatches(cfg, Start(cfg), [], frames);
    assert [] + Handled(cfg, frames) == Handled(cfg, frames);
  }

  // ---------- the order of calls ----------

  lemma {:induction false} InsertFacts(s: seq<int>, x: int)
    requires Increasing(s)
    ensures Increasing(Insert(s, x)) && |Insert(s, x)| == |s| + (if x in s then 0 else 1)
    ensures forall y :: y in Insert(s, x) <==> y in s || y == x
    decreases |s|
  {
    if s != [] {
      var n := |s| - 1;
      assert s == s[..n] + [s[n]];
      if s[n] > x {
        InsertFacts(s[..n], x);
        var r := Insert(s[..n], x);
        forall k | 0 <= k < |r|
          ensures r[k] < s[n]
        {
          assert r[k] in r;
        }
      }
    }
  }

  /** The indices in order are those that appear, each once. */
  lemma {:induction false} IndicesFacts(ds: seq<ToolDelta>)
    ensures Increasing(Indices(ds)) && |Indices(ds)| == |Order(ds)|
    ensures forall y :: y in Indices(ds) <==> y in Order(ds)
    decreases |ds|
  {
    if ds != [] {
      IndicesFacts(ds[..|ds| - 1]);
      hide Insert, Increasing;
      InsertFacts(Indices(ds[..|ds| - 1]), ds[|ds| - 1].index);
    }
  }

  lemma {:induction false} IncreasingIsUnique(a: seq<int>, b: seq<int>)
    requires Increasing(a) && Increasing(b) && forall y :: y in a <==> y in b
    ensures a == b
    decreases |a|
  {
    assert (a != [] ==> a[0] in a) && (b != [] ==> b[0] in b);
    if a != [] && b != [] {
      var m, n := |a| - 1, |b| - 1;
      assert a[m] in b && b[n] in a;
      assert a == a[..m] + [a[m]] && b == b[..n] + [b[n]];
      assert a[m] !in a[..m] && b[n] !in b[..n];
      assert a[m] == b[n];
      forall y
        ensures y in a[..m] <==> y in b[..n]
      {
        assert y in a <==> y in a[..m] || y == a[m];
        assert y in b <==> y in b[..n] || y == b[n];
      }
      assert Increasing(a[..m]) && Increasing(b[..n]);
      hide Increasing;
      IncreasingIsUnique(a[..m], b[..n]);
    }
  }

  /** The translator lists the calls as a completion does: in the order of first appearance they are the
      calls by index. */
  predicate InIndexOrder(ds: seq<ToolDelta>) {
    CallsAt(ds, Order(ds)) == CallsAt(ds, Indices(ds))
  }

  /** That is so when the indices appear in increasing order, and, if no two calls are the same, only
      then. */
  lemma InIndexOrderIff(ds: seq<ToolDelta>)
    ensures Increasing(Order(ds)) ==> InIndexOrder(ds)
    ensures (forall i, j :: i in Order(ds) && j in Order(ds) && CallOf(ds, i) == CallOf(ds, j) ==> i == j) ==>
              (InIndexOrder(ds) <==> Increasing(Order(ds)))
  {
    hide CallOf;
    IndicesFacts(ds);
    var o, s := Order(ds), Indices(ds);
    if Increasing(o) {
      IncreasingIsUnique(o, s);
    }
    if InIndexOrder(ds) && forall i, j :: i in o && j in o && CallOf(ds, i) == CallOf(ds, j) ==> i == j {
      forall k | 0 <= k < |o|
        ensures o[k] == s[k]
      {
        assert CallsAt(ds, o)[k] == CallsAt(ds, s)[k];
        assert o[k] in o && s[k] in s;
      }
      assert o == s;
    }
  }

  // ---------- streaming and synchronous ----------

  /** Streaming agrees with synchronous conversion of the assembled completion, up to item ids,
      exactly when the completion is a text without calls, or calls alone under finish reason
      `tool_calls` that were streamed in the order of their indices. The model and the usage agree
      always. */
  lemma StreamAgreesWithSync(cfg: Config, bytes: Bytes, breaks: bool, finish: string)
    requires !StreamRaises(cfg, SplitFrames(bytes).frames, breaks)
    ensures var s := Whole(cfg, bytes, breaks).state;
            var cs := Handled(cfg, SplitFrames(bytes).frames);
            && s.model == Assembled(cs, finish).model && s.usage == Assembled(cs, finish).usage
            && (SameOutput(cfg, s, Assembled(cs, finish)) <==> Comparable(cs, finish))
    ensures var s := Whole(cfg, bytes, breaks).state;
            Translate(cfg, bytes, breaks) ==
            s.log + CloseText(cfg, s) + CloseCalls(s.calls) + [Completed(cfg.respId, s.model, Output(cfg, s), s.usage), DoneMarker]
  {
    hide Matches, SplitFrames, Consume, Handled, StreamRaises, Comparable, SameOutput;
    RaisedIffStreamRaises(cfg, bytes, breaks);
    WholeMatches(cfg, bytes, breaks);
    var cs := Handled(cfg, SplitFrames(bytes).frames);
    OutputAgrees(cfg, Whole(cfg, bytes, breaks).state, cs, finish);
    HeaderAgrees(Whole(cfg, bytes, breaks).state, cs);
  }

  predicate SameOutput(cfg: Config, s: State, c: Completion) {
    AnonymousAll(Output(cfg, s)) == AnonymousAll(SyncOutput(c, cfg.msgId, cfg.newId))
  }

  predicate Comparable(cs: seq<Chunk>, finish: string) {
    if AllCalls(cs) == [] then AllText(cs) != ""
    else finish == "tool_calls" && AllText(cs) == "" && InIndexOrder(AllCalls(cs))
  }

  lemma HeaderAgrees(s: State, cs: seq<Chunk>)
    requires Matches(s, cs)
    ensures s.model == FirstModel(cs) && s.usage == LastUsage(cs)
  {
  }

  lemma NoCallsIff(ds: seq<ToolDelta>)
    ensures Order(ds) == [] <==> ds == []
  {
  }

  lemma StreamedCalls(s: State, cs: seq<Chunk>, k: nat)
    requires Matches(s, cs) && k < |s.calls|
    ensures k < |Order(AllCalls(cs))|
    ensures var c := CallOf(AllCalls(cs), Order(AllCalls(cs))[k]);
            Anonymous(CallItem(s.calls[k])) == FunctionCall("", c.id, c.name, c.arguments, true)
  {
  }

  function AnonymousCalls(calls: seq<ToolCall>): (r: seq<Item>)
    ensures |r| == |calls|
    ensures forall k :: 0 <= k < |r| ==> r[k] == FunctionCall("", calls[k].id, calls[k].name, calls[k].arguments, true)
  {
    seq(|calls|, k requires 0 <= k < |calls| => FunctionCall("", calls[k].id, calls[k].name, calls[k].arguments, true))
  }

  lemma AnonymousCallsTell(x: seq<ToolCall>, y: seq<ToolCall>)
    ensures AnonymousCalls(x) == AnonymousCalls(y) <==> x == y
  {
    var a, b := AnonymousCalls(x), AnonymousCalls(y);
    if a == b {
      forall k | 0 <= k < |x|
        ensures x[k] == y[k]
      {
        assert a[k] == b[k];
      }
    }
  }

  lemma StreamedOutput(cfg: Config, s: State, cs: seq<Chunk>)
    requires Matches(s, cs) && AllText(cs) == ""
    ensures AnonymousAll(Output(cfg, s)) == AnonymousCalls(CallsAt(AllCalls(cs), Order(AllCalls(cs))))
  {
    assert TextItem(cfg, s) == [] && |s.calls| == |Order(AllCalls(cs))|;
    forall k | 0 <= k < |s.calls|
      ensures Anonymous(CallItem(s.calls[k])) == AnonymousCalls(CallsAt(AllCalls(cs), Order(AllCalls(cs))))[k]
    {
      StreamedCalls(s, cs, k);
    }
    hide Matches, AllCalls, Order, CallOf;
    assert Output(cfg, s) == CallItems(s.calls);
  }

  lemma CallOutputAgrees(cfg: Config, s: State, cs: seq<Chunk>)
    requires Matches(s, cs) && AllText(cs) == "" && AllCalls(cs) != []
    ensures SameOutput(cfg, s, Assembled(cs, "tool_calls")) <==> InIndexOrder(AllCalls(cs))
  {
    hide Matches, Order, Indices, AllText, AllCalls, CallOf, FirstModel, LastUsage;
    var c, ds := Assembled(cs, "tool_calls"), AllCalls(cs);
    NoCallsIff(ds);
    IndicesFacts(ds);
    StreamedOutput(cfg, s, cs);
    assert c.calls != [];
    assert AnonymousAll(SyncOutput(c, cfg.msgId, cfg.newId)) == AnonymousCalls(c.calls);
    AnonymousCallsTell(CallsAt(ds, Order(ds)), c.calls);
  }

  lemma OutputAgrees(cfg: Config, s: State, cs: seq<Chunk>, finish: string)
    requires Matches(s, cs)
    ensures SameOutput(cfg, s, Assembled(cs, finish)) <==> Comparable(cs, finish)
  {
    var c, ds := Assembled(cs, finish), AllCalls(cs);
    NoCallsIff(ds);
    IndicesFacts(ds);
    assert |c.calls| == |s.calls| == |Order(ds)|;
    assert c.content == s.text == AllText(cs) && (s.textIndex.Some? <==> s.text != "");
    if c.content == "" && ds != [] && finish == "tool_calls" {
      CallOutputAgrees(cfg, s, cs);
    } else {
      hide Matches, Order, Indices, AllText, AllCalls, CallOf, FirstModel, LastUsage, InIndexOrder;
      TextOutputAgrees(cfg, s, c);
    }
  }

  /** Without a group of calls under `tool_calls` the synchronous output is one text. */
  lemma TextOutputAgrees(cfg: Config, s: State, c: Completion)
    requires c.content == s.text && (s.textIndex.Some? <==> s.text != "") && |c.calls| == |s.calls|
    requires c.content != "" || c.calls == [] || c.finish != "tool_calls"
    ensures SameOutput(cfg, s, c) <==> c.calls == [] && c.content != ""
  {
    var a, b := AnonymousAll(Output(cfg, s)), AnonymousAll(SyncOutput(c, cfg.msgId, cfg.newId));
    if c.content != "" {
      assert a[0] == Anonymous(Message(cfg.msgId, [c.content], true));
      assert |a| == 1 + |s.calls|;
    } else if c.calls == [] {
      assert a == [] && |b| == 1;
    } else {
      assert a[0] == Anonymous(CallItem(s.calls[0]));
    }
  }

  /** A stream with a text and a call: the synchronous conversion drops one of them, so the outputs
      differ whatever the finish reason. */
  lemma TextWithCallDiffers(cfg: Config, finish: string)
    requires cfg.parse([123]) == Event(Chunk("m", None, Some(Delta("text", [ToolDelta(0, "id", "name", "{}")])), false))
    ensures var bytes: Bytes := [123, NL, NL];
            !SameOutput(cfg, Whole(cfg, bytes, false).state, Assembled(Handled(cfg, SplitFrames(bytes).frames), finish))
  {
    var bytes: Bytes := [123, NL, NL];
    var d := ToolDelta(0, "id", "name", "{}");
    var chunk := Chunk("m", None, Some(Delta("text", [d])), false);
    assert bytes == [123] + [NL, NL] + [];
    SplitOnce([123], []);
    assert SplitFrames([]) == Split([], []);
    assert SplitFrames(bytes).frames == [[123]];
    assert Classify([123]) == Payload([123]);
    assert [[123]][1..] == [];
    hide SplitFrames, Classify;
    OneFrame(cfg, [123], chunk);
    OneChunk(chunk, d);
    hide Whole, Handled, Assembled, SameOutput, AllCalls, AllText, StreamRaises;
    assert !Comparable([chunk], finish);
    StreamAgreesWithSync(cfg, bytes, false, finish);
  }

  lemma OneFrame(cfg: Config, raw: Bytes, chunk: Chunk)
    requires Classify(raw).Payload? && cfg.parse(Classify(raw).bytes) == Event(chunk) && !chunk.faulty
    ensures Handled(cfg, [raw]) == [chunk] && !StreamRaises(cfg, [raw], false)
  {
    hide Classify;
    assert [raw][1..] == [] && Handled(cfg, []) == [] && [chunk] + [] == [chunk];
    assert FirstEnding(cfg, []) == 0;
  }

  lemma OneChunk(chunk: Chunk, d: ToolDelta)
    requires chunk.delta == Some(Delta("text", [d]))
    ensures AllCalls([chunk]) == [d] && AllText([chunk]) == "text"
  {
    assert [chunk][..0] == [];
    assert [] + [d] == [d] && "" + "text" == "text";
  }

  // ---------- item ids ----------

  /** The k-th call opened has the k-th fresh id. */
  ghost predicate IdsInOrder(cfg: Config, calls: seq<Call>) {
    forall k :: 0 <= k < |calls| ==> calls[k].fcId == cfg.newId(k)
  }

  lemma {:induction false} OnCallsIds(cfg: Config, s: State, ds: seq<ToolDelta>)
    requires IdsInOrder(cfg, s.calls)
    ensures IdsInOrder(cfg, OnCalls(cfg, s, ds).calls)
    decreases |ds|
  {
    if ds != [] {
      OnCallsIds(cfg, s, ds[..|ds| - 1]);
    }
  }

  lemma OnFrameIds(cfg: Config, s: State, raw: Bytes)
    requires IdsInOrder(cfg, s.calls)
    ensures IdsInOrder(cfg, OnFrame(cfg, s, raw).state.calls)
  {
    hide IdsInOrder;
    var f := Classify(raw);
    if f.Payload? && cfg.parse(f.bytes).Event? && cfg.parse(f.bytes).chunk.delta.Some? {
      var c := cfg.parse(f.bytes).chunk;
      OnCallsIds(cfg, OnText(cfg, Header(s, c), c.delta.value.content), c.delta.value.calls);
    }
  }

  lemma {:induction false} ConsumeIds(cfg: Config, r: Run, frames: seq<Bytes>)
    requires IdsInOrder(cfg, r.state.calls)
    ensures IdsInOrder(cfg, Consume(cfg, r, frames).state.calls)
    decreases |frames|
  {
    hide IdsInOrder, OnFrame;
    if frames != [] && r.phase.Reading? {
      OnFrameIds(cfg, r.state, frames[0]);
      ConsumeIds(cfg, OnFrame(cfg, r.state, frames[0]), frames[1..]);
    }
  }

  /** No id is used for two calls, streamed or not: both forms take the fresh ids in order. */
  lemma CallIdsInOrder(cfg: Config, bytes: Bytes, breaks: bool, c: Completion, k: nat)
    ensures IdsInOrder(cfg, Whole(cfg, bytes, breaks).state.calls)
    ensures k < |SyncOutput(c, cfg.msgId, cfg.newId)| ==>
              var item := SyncOutput(c, cfg.msgId, cfg.newId)[k];
              item.completed && item.id == if item.FunctionCall? then cfg.newId(k) else cfg.msgId
  {
    ConsumeIds(cfg, Run(Start(cfg), Reading), SplitFrames(bytes).frames);
  }
}
