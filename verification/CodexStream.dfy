/** The streaming half of the Responses-to-chat-completions translator. Decoding a frame is a
    parameter (`parse`), so is the supply of fresh item ids, and the client may disconnect after
    any number of writes. The functions say what is written to a client that stays; the class runs
    the source's loops and is proved to write exactly the part a leaving client receives. */
module CodexStream {
  import opened Common
  import opened SseFrames

  /** One entry of `delta.tool_calls`; a missing or null field reads as "". */
  datatype ToolDelta = ToolDelta(index: int, id: string, name: string, arguments: string)

  datatype Delta = Delta(content: string, calls: seq<ToolDelta>)

  datatype Usage = Usage(inputTokens: int, outputTokens: int, totalTokens: int)

  const NO_USAGE := Usage(0, 0, 0)

  /** A decoded chunk. A faulty one holds an ill-typed element after the part given here, so that
      handling it raises once that part has been handled. */
  datatype Chunk = Chunk(model: string, usage: Option<Usage>, delta: Option<Delta>, faulty: bool)

  /** `json.loads(frame.decode())`: a JSON error is skipped, any other exception ends the run. */
  datatype Parsed = NotJson | Raises | Event(chunk: Chunk)

  datatype Item =
    | Message(id: string, content: seq<string>, completed: bool)
    | FunctionCall(id: string, callId: string, name: string, arguments: string, completed: bool)

  datatype Written =
    | Created(respId: string)
    | ItemAdded(index: nat, item: Item)
    | PartAdded(itemId: string, index: nat)
    | TextDelta(itemId: string, index: nat, delta: string)
    | ArgsDelta(itemId: string, index: nat, delta: string)
    | TextDone(itemId: string, index: nat, text: string)
    | PartDone(itemId: string, index: nat, text: string)
    | ArgsDone(itemId: string, index: nat, arguments: string)
    | ItemDone(index: nat, item: Item)
    | Completed(respId: string, model: string, output: seq<Item>, usage: Usage)
    | DoneMarker
    | ServerError

  type Log = seq<Written>

  /** An entry of `tool_call_state`, which keeps insertion order. */
  datatype Call = Call(key: int, fcId: string, callId: string, name: string, arguments: string, index: nat)

  datatype State = State(next: nat, textIndex: Option<nat>, text: string, calls: seq<Call>,
                         model: string, usage: Usage, log: Log)

  datatype Config = Config(respId: string, msgId: string, newId: nat -> string, parse: Bytes -> Parsed)

  datatype Phase = Reading | Finished | Raised

  datatype Run = Run(state: State, phase: Phase)

  function FindCall(calls: seq<Call>, key: int): (r: Option<nat>)
    ensures r.Some? ==> r.value < |calls| && calls[r.value].key == key
    ensures r.None? ==> forall j :: 0 <= j < |calls| ==> calls[j].key != key
  {
    if calls == [] then None
    else if calls[|calls| - 1].key == key then Some(|calls| - 1)
    else FindCall(calls[..|calls| - 1], key)
  }

  function Start(cfg: Config): State {
    State(0, None, "", [], "", NO_USAGE, [Created(cfg.respId)])
  }

  function OpenText(cfg: Config, s: State): State {
    if s.textIndex.Some? then s
    else
      s.(textIndex := Some(s.next), next := s.next + 1,
         log := s.log + [ItemAdded(s.next, Message(cfg.msgId, [], false)), PartAdded(cfg.msgId, s.next)])
  }

  function OnText(cfg: Config, s: State, content: string): State {
    if content == "" then s
    else
      var o := OpenText(cfg, s);
      o.(text := o.text + content, log := o.log + [TextDelta(cfg.msgId, o.textIndex.value, content)])
  }

  function OpenCall(cfg: Config, s: State, d: ToolDelta): State {
    if FindCall(s.calls, d.index).Some? then s
    else
      var id := cfg.newId(|s.calls|);
      s.(calls := s.calls + [Call(d.index, id, d.id, d.name, "", s.next)], next := s.next + 1,
         log := s.log + [ItemAdded(s.next, FunctionCall(id, d.id, d.name, "", false))])
  }

  function Patch(c: Call, d: ToolDelta): Call {
    c.(callId := if c.callId == "" then d.id else c.callId,
       name := if c.name == "" then d.name else c.name,
       arguments := c.arguments + d.arguments)
  }

  function Slot(s: State, d: ToolDelta): (k: nat)
    ensures FindCall(s.calls, d.index).Some? ==> k < |s.calls| && s.calls[k].key == d.index
    ensures FindCall(s.calls, d.index).None? ==> k == |s.calls|
  {
    var i := FindCall(s.calls, d.index);
    if i.Some? then i.value else |s.calls|
  }

  function OnCall(cfg: Config, s: State, d: ToolDelta): State {
    var k := Slot(s, d);
    var o := OpenCall(cfg, s, d);
    var c := Patch(o.calls[k], d);
    o.(calls := o.calls[k := c],
       log := if d.arguments == "" then o.log else o.log + [ArgsDelta(c.fcId, c.index, d.arguments)])
  }

  function OnCalls(cfg: Config, s: State, ds: seq<ToolDelta>): State
    decreases |ds|
  {
    if ds == [] then s else OnCall(cfg, OnCalls(cfg, s, ds[..|ds| - 1]), ds[|ds| - 1])
  }

  function Header(s: State, c: Chunk): State {
    s.(model := if s.model == "" then c.model else s.model,
       usage := if c.usage.Some? then c.usage.value else s.usage)
  }

  function OnChunk(cfg: Config, s: State, c: Chunk): State {
    if c.delta.None? then Header(s, c)
    else OnCalls(cfg, OnText(cfg, Header(s, c), c.delta.value.content), c.delta.value.calls)
  }

  function OnFrame(cfg: Config, s: State, raw: Bytes): Run {
    match Classify(raw)
    case Blank => Run(s, Reading)
    case Done => Run(s, Finished)
    case Payload(b) =>
      match cfg.parse(b)
      case NotJson => Run(s, Reading)
      case Raises => Run(s, Raised)
      case Event(c) => Run(OnChunk(cfg, s, c), if c.faulty then Raised else Reading)
  }

  /** The frame ends the run: it is the end marker, or handling it raises. */
  predicate EndsRun(cfg: Config, raw: Bytes) {
    match Classify(raw)
    case Blank => false
    case Done => true
    case Payload(b) =>
      var p := cfg.parse(b);
      p.Raises? || (p.Event? && p.chunk.faulty)
  }

  /** The place of the first frame that ends the run, or the number of frames. */
  function FirstEnding(cfg: Config, frames: seq<Bytes>): (i: nat)
    ensures i <= |frames| && (i < |frames| ==> EndsRun(cfg, frames[i]))
    ensures forall j :: 0 <= j < i ==> !EndsRun(cfg, frames[j])
  {
    if frames == [] then 0
    else if EndsRun(cfg, frames[0]) then 0
    else 1 + FirstEnding(cfg, frames[1..])
  }

  /** The stream raises: the first frame that ends the run is not the end marker, or no frame ends it and
      a read breaks. */
  predicate StreamRaises(cfg: Config, frames: seq<Bytes>, breaks: bool) {
    var i := FirstEnding(cfg, frames);
    if i < |frames| then !Classify(frames[i]).Done? else breaks
  }

  /** All frames in order, up to the one that ends the run. */
  function Consume(cfg: Config, r: Run, frames: seq<Bytes>): Run
    decreases |frames|
  {
    if frames == [] || !r.phase.Reading? then r
    else Consume(cfg, OnFrame(cfg, r.state, frames[0]), frames[1..])
  }

  /** The run on everything the upstream sends; `breaks` says that it ends in a read error. */
  function Whole(cfg: Config, bytes: Bytes, breaks: bool): Run {
    var r := Consume(cfg, Run(Start(cfg), Reading), SplitFrames(bytes).frames);
    if r.phase.Reading? then Run(r.state, if breaks then Raised else Finished) else r
  }

  function TextItem(cfg: Config, s: State): seq<Item> {
    if s.textIndex.Some? then [Message(cfg.msgId, [s.text], true)] else []
  }

  function CallItem(c: Call): Item {
    FunctionCall(c.fcId, c.callId, c.name, c.arguments, true)
  }

  function CallItems(calls: seq<Call>): (r: seq<Item>)
    ensures |r| == |calls| && forall k :: 0 <= k < |r| ==> r[k] == CallItem(calls[k])
  {
    seq(|calls|, i requires 0 <= i < |calls| => CallItem(calls[i]))
  }

  function Output(cfg: Config, s: State): seq<Item> {
    TextItem(cfg, s) + CallItems(s.calls)
  }

  function CloseText(cfg: Config, s: State): Log {
    if s.textIndex.None? then []
    else
      var i := s.textIndex.value;
      [TextDone(cfg.msgId, i, s.text), PartDone(cfg.msgId, i, s.text),
       ItemDone(i, Message(cfg.msgId, [s.text], true))]
  }

  function CloseCall(c: Call): Log {
    [ArgsDone(c.fcId, c.index, c.arguments), ItemDone(c.index, CallItem(c))]
  }

  function CloseCalls(calls: seq<Call>): Log
    decreases |calls|
  {
    if calls == [] then [] else CloseCalls(calls[..|calls| - 1]) + CloseCall(calls[|calls| - 1])
  }

  function Ending(cfg: Config, s: State): Log {
    [Completed(cfg.respId, s.model, Output(cfg, s), s.usage), DoneMarker]
  }

  function Close(cfg: Config, s: State): Log {
    s.log + CloseText(cfg, s) + CloseCalls(s.calls) + Ending(cfg, s)
  }

  /** Everything written to a client that stays connected. When handling raised, the request
      handler catches the exception and writes its error response into the open stream. */
  function Translate(cfg: Config, bytes: Bytes, breaks: bool): Log {
    var r := Whole(cfg, bytes, breaks);
    if r.phase.Raised? then r.state.log + [ServerError] else Close(cfg, r.state)
  }

  function Take<T>(s: seq<T>, n: nat): seq<T> {
    if n < |s| then s[..n] else s
  }

  // ---------- when handling raises ----------

  lemma {:induction false} ConsumePhase(cfg: Config, s: State, frames: seq<Bytes>)
    ensures var i := FirstEnding(cfg, frames);
            Consume(cfg, Run(s, Reading), frames).phase ==
            if i == |frames| then Reading else if Classify(frames[i]).Done? then Finished else Raised
    decreases |frames|
  {
    if frames != [] {
      var r := OnFrame(cfg, s, frames[0]);
      assert r.phase.Reading? <==> !EndsRun(cfg, frames[0]);
      assert EndsRun(cfg, frames[0]) ==> (r.phase.Finished? <==> Classify(frames[0]).Done?);
      hide OnFrame, EndsRun, Classify;
      if r.phase.Reading? {
        ConsumePhase(cfg, r.state, frames[1..]);
      }
    }
  }

  /** The run raises exactly if the stream does, which its frames tell. */
  lemma RaisedIffStreamRaises(cfg: Config, bytes: Bytes, breaks: bool)
    ensures Whole(cfg, bytes, breaks).phase.Raised? <==> StreamRaises(cfg, SplitFrames(bytes).frames, breaks)
  {
    ConsumePhase(cfg, Start(cfg), SplitFrames(bytes).frames);
  }

  // ---------- what was written stays written ----------

  lemma {:induction false} OnCallsKeepsLog(cfg: Config, s: State, ds: seq<ToolDelta>)
    ensures s.log <= OnCalls(cfg, s, ds).log
    decreases |ds|
  {
    if ds != [] {
      OnCallsKeepsLog(cfg, s, ds[..|ds| - 1]);
    }
  }

  lemma OnFrameKeepsLog(cfg: Config, s: State, raw: Bytes)
    ensures s.log <= OnFrame(cfg, s, raw).state.log
  {
    var f := Classify(raw);
    if f.Payload? && cfg.parse(f.bytes).Event? && cfg.parse(f.bytes).chunk.delta.Some? {
      var c := cfg.parse(f.bytes).chunk;
      OnCallsKeepsLog(cfg, OnText(cfg, Header(s, c), c.delta.value.content), c.delta.value.calls);
    }
  }

  lemma {:induction false} ConsumeKeepsLog(cfg: Config, r: Run, frames: seq<Bytes>)
    ensures r.state.log <= Consume(cfg, r, frames).state.log
    decreases |frames|
  {
    if frames != [] && r.phase.Reading? {
      OnFrameKeepsLog(cfg, r.state, frames[0]);
      hide OnFrame;
      ConsumeKeepsLog(cfg, OnFrame(cfg, r.state, frames[0]), frames[1..]);
    }
  }

  lemma {:induction false} ConsumeAppend(cfg: Config, r: Run, a: seq<Bytes>, b: seq<Bytes>)
    ensures Consume(cfg, r, a + b) == Consume(cfg, Consume(cfg, r, a), b)
    decreases |a|
  {
    if a == [] {
      assert a + b == b;
    } else if r.phase.Reading? {
      assert (a + b)[1..] == a[1..] + b;
      ConsumeAppend(cfg, OnFrame(cfg, r.state, a[0]), a[1..], b);
    }
  }

  lemma ConsumePrefix(cfg: Config, a: seq<Bytes>, b: seq<Bytes>)
    ensures var start := Run(Start(cfg), Reading);
            && Consume(cfg, start, a).state.log <= Consume(cfg, start, a + b).state.log
            && (!Consume(cfg, start, a).phase.Reading? ==> Consume(cfg, start, a + b) == Consume(cfg, start, a))
  {
    var start := Run(Start(cfg), Reading);
    ConsumeAppend(cfg, start, a, b);
    ConsumeKeepsLog(cfg, Consume(cfg, start, a), b);
  }

  // ---------- the source's loops ----------

  datatype Signal = Continue | Stop | Raise | Gone

  function PhaseOf(signal: Signal): Phase
    requires !signal.Gone?
  {
    match signal
    case Continue => Reading
    case Stop => Finished
    case Raise => Raised
  }

  class Translator {
    const cfg: Config
    /** The number of writes the client accepts before it disconnects. */
    const limit: nat
    var next: nat
    var textIndex: Option<nat>
    var text: string
    var calls: seq<Call>
    var model: string
    var usage: Usage
    var buf: Bytes
    var log: Log

    constructor (cfg: Config, limit: nat)
      ensures this.cfg == cfg && this.limit == limit
      ensures log == [] && buf == [] && Fields() == Start(cfg).(log := [])
    {
      this.cfg, this.limit := cfg, limit;
      next, textIndex, text, calls, model, usage := 0, None, "", [], "", NO_USAGE;
      buf, log := [], [];
    }

    function Fields(): State
      reads this
    {
      State(next, textIndex, text, calls, model, usage, log)
    }

    /** What holds when a handler gives up because the client is gone: the client has exactly the
        first `limit` writes of the log the handler was producing. */
    ghost predicate CutOff(full: Log)
      reads this
    {
      |log| == limit && log <= full
    }

    method SafeWrite(e: Written) returns (ok: bool)
      requires |log| <= limit
      modifies this`log
      ensures ok ==> log == old(log) + [e] && |log| <= limit
      ensures !ok ==> log == old(log) && |log| == limit
    {
      ok := |log| < limit;
      if ok {
        log := log + [e];
      }
    }

    method HandleText(content: string) returns (alive: bool)
      requires |log| <= limit
      modifies this`next, this`textIndex, this`text, this`log
      ensures |log| <= limit
      ensures alive ==> Fields() == OnText(cfg, old(Fields()), content)
      ensures !alive ==> CutOff(OnText(cfg, old(Fields()), content).log)
    {
      if content == "" {
        return true;
      }
      if textIndex.None? {
        textIndex, next := Some(next), next + 1;
        alive := SafeWrite(ItemAdded(textIndex.value, Message(cfg.msgId, [], false)));
        if !alive { return; }
        alive := SafeWrite(PartAdded(cfg.msgId, textIndex.value));
        if !alive { return; }
      }
      text := text + content;
      alive := SafeWrite(TextDelta(cfg.msgId, textIndex.value, content));
    }

    method HandleCall(d: ToolDelta) returns (alive: bool)
      requires |log| <= limit
      modifies this`next, this`calls, this`log
      ensures |log| <= limit
      ensures alive ==> Fields() == OnCall(cfg, old(Fields()), d)
      ensures !alive ==> CutOff(OnCall(cfg, old(Fields()), d).log)
    {
      var i := FindCall(calls, d.index);
      var k := if i.Some? then i.value else |calls|;
      if i.None? {
        var id := cfg.newId(|calls|);
        var index := next;
        next := next + 1;
        calls := calls + [Call(d.index, id, d.id, d.name, "", index)];
        alive := SafeWrite(ItemAdded(index, FunctionCall(id, d.id, d.name, "", false)));
        if !alive { return; }
      }
      var c := calls[k];
      if d.id != "" && c.callId == "" {
        c := c.(callId := d.id);
      }
      if d.name != "" && c.name == "" {
        c := c.(name := d.name);
      }
      c := c.(arguments := c.arguments + d.arguments);
      calls := calls[k := c];
      if d.arguments == "" {
        return true;
      }
      alive := SafeWrite(ArgsDelta(c.fcId, c.index, d.arguments));
    }

    method HandleCalls(ds: seq<ToolDelta>) returns (alive: bool)
      requires |log| <= limit
      modifies this`next, this`calls, this`log
      ensures |log| <= limit
      ensures alive ==> Fields() == OnCalls(cfg, old(Fields()), ds)
      ensures !alive ==> CutOff(OnCalls(cfg, old(Fields()), ds).log)
    {
      ghost var s := Fields();
      alive := true;
      for i := 0 to |ds|
        invariant alive && |log| <= limit
        invariant Fields() == OnCalls(cfg, s, ds[..i])
      {
        assert ds[..i + 1][..i] == ds[..i];
        alive := HandleCall(ds[i]);
        if !alive {
          PrefixOfCalls(cfg, s, ds, i + 1);
          return;
        }
      }
      assert ds[..|ds|] == ds;
    }

    method HandleChunk(c: Chunk) returns (alive: bool)
      requires |log| <= limit
      modifies this`next, this`textIndex, this`text, this`calls, this`model, this`usage, this`log
      ensures |log| <= limit
      ensures alive ==> Fields() == OnChunk(cfg, old(Fields()), c)
      ensures !alive ==> CutOff(OnChunk(cfg, old(Fields()), c).log)
    {
      if model == "" {
        model := c.model;
      }
      if c.usage.Some? {
        usage := c.usage.value;
      }
      if c.delta.None? {
        return true;
      }
      ghost var s := OnText(cfg, Fields(), c.delta.value.content);
      alive := HandleText(c.delta.value.content);
      if alive {
        alive := HandleCalls(c.delta.value.calls);
      } else {
        OnCallsKeepsLog(cfg, s, c.delta.value.calls);
      }
    }

    method HandleFrame(raw: Bytes) returns (signal: Signal)
      requires |log| <= limit
      modifies this`next, this`textIndex, this`text, this`calls, this`model, this`usage, this`log
      ensures |log| <= limit
      ensures signal.Gone? ==> CutOff(OnFrame(cfg, old(Fields()), raw).state.log)
      ensures !signal.Gone? ==>
        OnFrame(cfg, old(Fields()), raw) ==
        Run(Fields(), PhaseOf(signal))
    {
      match Classify(raw)
      case Blank => signal := Continue;
      case Done => signal := Stop;
      case Payload(b) =>
        match cfg.parse(b)
        case NotJson => signal := Continue;
        case Raises => signal := Raise;
        case Event(c) =>
          var alive := HandleChunk(c);
          signal := if !alive then Gone else if c.faulty then Raise else Continue;
    }

    /** The inner loop: every frame completed by the last read. */
    method DrainBuffer() returns (signal: Signal)
      requires |log| <= limit
      modifies this
      ensures |log| <= limit
      ensures var r := Consume(cfg, Run(old(Fields()), Reading), old(SplitFrames(buf)).frames);
              && (signal.Gone? ==> CutOff(r.state.log))
              && (!signal.Gone? ==>
                    r == Run(Fields(), PhaseOf(signal)))
      ensures signal.Continue? ==> buf == old(SplitFrames(buf)).rest
    {
      ghost var whole := SplitFrames(buf);
      ghost var start := Run(Fields(), Reading);
      ghost var k := 0;
      while true
        invariant |log| <= limit
        invariant k <= |whole.frames| && SplitFrames(buf) == Split(whole.frames[k..], whole.rest)
        invariant Consume(cfg, start, whole.frames) == Consume(cfg, Run(Fields(), Reading), whole.frames[k..])
        decreases |buf|
      {
        var i := FindBreak(buf);
        if i.None? {
          return Continue;
        }
        var raw := buf[..i.value];
        buf := buf[i.value + 2..];
        assert whole.frames[k..][1..] == whole.frames[k + 1..];
        ghost var r := OnFrame(cfg, Fields(), raw);
        signal := HandleFrame(raw);
        k := k + 1;
        if !signal.Continue? {
          ConsumeKeepsLog(cfg, r, whole.frames[k..]);
          return;
        }
      }
    }

    /** Closing events of the calls, in insertion order. */
    method CloseToolCalls() returns (alive: bool)
      requires |log| <= limit
      modifies this`log
      ensures |log| <= limit
      ensures alive ==> log == old(log) + CloseCalls(calls)
      ensures !alive ==> CutOff(old(log) + CloseCalls(calls))
    {
      alive := true;
      for k := 0 to |calls|
        invariant alive && |log| <= limit
        invariant log == old(log) + CloseCalls(calls[..k])
      {
        var c := calls[k];
        assert calls[..k + 1][..k] == calls[..k];
        alive := SafeWrite(ArgsDone(c.fcId, c.index, c.arguments));
        if alive {
          alive := SafeWrite(ItemDone(c.index, CallItem(c)));
        }
        if !alive {
          assert log <= old(log) + CloseCalls(calls[..k + 1]);
          PrefixOfClosings(calls, k + 1);
          return;
        }
      }
      assert calls[..|calls|] == calls;
    }

    method CloseTextItem() returns (alive: bool)
      requires |log| <= limit
      modifies this`log
      ensures |log| <= limit
      ensures alive ==> log == old(log) + CloseText(cfg, Fields())
      ensures !alive ==> CutOff(old(log) + CloseText(cfg, Fields()))
    {
      if textIndex.None? {
        return true;
      }
      var i := textIndex.value;
      alive := SafeWrite(TextDone(cfg.msgId, i, text));
      if !alive { return; }
      alive := SafeWrite(PartDone(cfg.msgId, i, text));
      if !alive { return; }
      alive := SafeWrite(ItemDone(i, Message(cfg.msgId, [text], true)));
    }

    method CloseStream()
      requires |log| <= limit
      modifies this`log
      ensures log == Take(Close(cfg, old(Fields())), limit)
    {
      ghost var s := Fields();
      ghost var closing := s.log + CloseText(cfg, s);
      var alive := CloseTextItem();
      if !alive {
        assert closing <= Close(cfg, s);
        return;
      }
      alive := CloseToolCalls();
      if !alive {
        assert closing + CloseCalls(calls) <= Close(cfg, s);
        return;
      }
      assert log == closing + CloseCalls(calls) && Fields() == s.(log := log);
      alive := SafeWrite(Completed(cfg.respId, model, Output(cfg, Fields()), usage));
      if alive {
        alive := SafeWrite(DoneMarker);
      }
    }

    /** After the bytes `fed`: the run on their frames, or what the client kept of it. */
    ghost predicate After(fed: Bytes, signal: Signal)
      reads this
    {
      var r := Consume(cfg, Run(Start(cfg), Reading), SplitFrames(fed).frames);
      && |log| <= limit
      && (signal.Continue? ==> buf == SplitFrames(fed).rest)
      && if signal.Gone? then CutOff(r.state.log) else r == Run(Fields(), PhaseOf(signal))
    }

    method HandleRead(bytes: Bytes, ghost fed: Bytes) returns (signal: Signal)
      requires After(fed, Continue)
      modifies this
      ensures After(fed + bytes, signal)
    {
      SplitAppend(fed, bytes);
      ConsumeAppend(cfg, Run(Start(cfg), Reading), SplitFrames(fed).frames, SplitFrames(buf + bytes).frames);
      buf := buf + bytes;
      signal := DrainBuffer();
    }

    /** The outer loop: reads until the stream ends, handling stops it or the client leaves. */
    method ReadAll(input: seq<Read>) returns (signal: Signal)
      requires After([], Continue)
      modifies this
      ensures |log| <= limit && !signal.Continue?
      ensures var r := Whole(cfg, Received(input), Breaks(input));
              if signal.Gone? then CutOff(r.state.log) else r == Run(Fields(), PhaseOf(signal))
    {
      hide SplitFrames, Consume;
      ghost var fed: Bytes := [];
      signal := Continue;
      var i := 0;
      while signal.Continue? && i < |input| && Delivers(input[i])
        invariant 0 <= i <= |input| && After(fed, signal)
        invariant Received(input) == fed + Received(input[i..]) && Breaks(input) == Breaks(input[i..])
      {
        hide After;
        assert input[i..][1..] == input[i + 1..];
        signal := HandleRead(input[i].bytes, fed);
        fed := fed + input[i].bytes;
        i := i + 1;
      }
      if signal.Continue? {
        assert Received(input[i..]) == [] && fed + [] == fed;
        signal := if i < |input| && input[i].ReadError? then Raise else Stop;
      } else {
        FramesAhead(cfg, fed, Received(input[i..]));
      }
    }

    /** The whole of `_codex_stream`. What the client has received at the end depends on the bytes
        that arrived and on the moment it left, and on nothing else: not on how the bytes were cut
        into reads. */
    method Stream(input: seq<Read>)
      requires log == [] && buf == [] && Fields() == Start(cfg).(log := [])
      modifies this
      ensures log == Take(Translate(cfg, Received(input), Breaks(input)), limit)
    {
      TranslateKeepsLog(cfg, Received(input), Breaks(input));
      var alive := SafeWrite(Created(cfg.respId));
      if !alive {
        return;
      }
      var signal := ReadAll(input);
      if signal.Raise? {
        alive := SafeWrite(ServerError);
      } else if signal.Stop? {
        CloseStream();
      }
    }
  }

  lemma TranslateKeepsLog(cfg: Config, bytes: Bytes, breaks: bool)
    ensures Start(cfg).log <= Whole(cfg, bytes, breaks).state.log <= Translate(cfg, bytes, breaks)
  {
    ConsumeKeepsLog(cfg, Run(Start(cfg), Reading), SplitFrames(bytes).frames);
  }

  lemma FramesAhead(cfg: Config, fed: Bytes, ahead: Bytes)
    ensures var start := Run(Start(cfg), Reading);
            var now := Consume(cfg, start, SplitFrames(fed).frames);
            var all := Consume(cfg, start, SplitFrames(fed + ahead).frames);
            && now.state.log <= all.state.log
            && (!now.phase.Reading? ==> all == now)
  {
    SplitAppend(fed, ahead);
    ConsumePrefix(cfg, SplitFrames(fed).frames, SplitFrames(SplitFrames(fed).rest + ahead).frames);
  }

  lemma {:induction false} PrefixOfCalls(cfg: Config, s: State, ds: seq<ToolDelta>, k: nat)
    requires k <= |ds|
    ensures OnCalls(cfg, s, ds[..k]).log <= OnCalls(cfg, s, ds).log
    decreases |ds|
  {
    if k == |ds| {
      assert ds[..k] == ds;
    } else {
      assert ds[..|ds| - 1][..k] == ds[..k];
      PrefixOfCalls(cfg, s, ds[..|ds| - 1], k);
    }
  }

  lemma {:induction false} PrefixOfClosings(calls: seq<Call>, k: nat)
    requires k <= |calls|
    ensures CloseCalls(calls[..k]) <= CloseCalls(calls)
    decreases |calls|
  {
    if k == |calls| {
      assert calls[..k] == calls;
    } else {
      assert calls[..|calls| - 1][..k] == calls[..k];
      PrefixOfClosings(calls[..|calls| - 1], k);
    }
  }
}
