/** The event protocol of a streamed response, defined by a monitor that a client could run beside
    the stream, and the proof that everything the translator writes is a prefix of a log that the
    monitor accepts, unless handling raised and the client was still there to see it. */
module CodexProtocol {
  import opened Common
  import opened SseFrames
  import opened CodexStream

  datatype Stage = Opened | Streaming | Filled | PartClosed | Closed(item: Item)

  /** What the monitor remembers of one output item: its kind, the call id and name it was opened
      with, its deltas so far and its stage. */
  datatype Track = Track(id: string, isText: bool, callId: string, name: string, acc: string, stage: Stage)

  datatype Monitor =
    | Idle
    | Live(tracks: seq<Track>)
    | Ended(tracks: seq<Track>)
    | Over(tracks: seq<Track>)
    | Rejected

  predicate At(m: Monitor, i: nat, id: string, isText: bool, stage: Stage) {
    && m.Live? && i < |m.tracks| && m.tracks[i].id == id
    && m.tracks[i].isText == isText && m.tracks[i].stage == stage
  }

  function Move(m: Monitor, i: nat, stage: Stage): Monitor
    requires m.Live? && i < |m.tracks|
  {
    Live(m.tracks[i := m.tracks[i].(stage := stage)])
  }

  function Grow(m: Monitor, i: nat, delta: string): Monitor
    requires m.Live? && i < |m.tracks|
  {
    Live(m.tracks[i := m.tracks[i].(acc := m.tracks[i].acc + delta)])
  }

  function Flags(tracks: seq<Track>): (r: seq<bool>)
    ensures |r| == |tracks| && forall i :: 0 <= i < |r| ==> r[i] == tracks[i].isText
  {
    seq(|tracks|, i requires 0 <= i < |tracks| => tracks[i].isText)
  }

  /** The positions that hold `want`, in increasing order. */
  function Indices(flags: seq<bool>, want: bool): seq<nat>
    decreases |flags|
  {
    if flags == [] then []
    else
      var n := |flags| - 1;
      var r := Indices(flags[..n], want);
      if flags[n] == want then r + [n] else r
  }

  ghost predicate Positions(r: seq<nat>, flags: seq<bool>, want: bool) {
    && (forall k :: 0 <= k < |r| ==> r[k] < |flags| && flags[r[k]] == want)
    && (forall j, k :: 0 <= j < k < |r| ==> r[j] < r[k])
  }

  lemma {:induction false} IndicesSound(flags: seq<bool>, want: bool)
    ensures Positions(Indices(flags, want), flags, want)
    decreases |flags|
  {
    if flags != [] {
      var n := |flags| - 1;
      IndicesSound(flags[..n], want);
      var r := Indices(flags[..n], want);
      forall k | 0 <= k < |r|
        ensures r[k] < n && flags[r[k]] == want
      {
        assert flags[..n][r[k]] == want;
      }
    }
  }

  lemma {:induction false} IndicesComplete(flags: seq<bool>, i: nat)
    requires i < |flags|
    ensures i in Indices(flags, flags[i])
    decreases |flags|
  {
    var n := |flags| - 1;
    if i < n {
      IndicesComplete(flags[..n], i);
    }
  }

  function ClosedItems(tracks: seq<Track>, at: seq<nat>): seq<Item>
    requires AllDone(tracks)
    requires forall k :: 0 <= k < |at| ==> at[k] < |tracks|
  {
    seq(|at|, k requires 0 <= k < |at| => tracks[at[k]].stage.item)
  }

  /** The output a completed response must list: the finished texts, then the finished calls in
      the order in which they were opened. */
  function FinalOutput(tracks: seq<Track>): seq<Item>
    requires AllDone(tracks)
  {
    IndicesSound(Flags(tracks), true);
    IndicesSound(Flags(tracks), false);
    ClosedItems(tracks, Indices(Flags(tracks), true)) + ClosedItems(tracks, Indices(Flags(tracks), false))
  }

  predicate AllDone(tracks: seq<Track>) {
    forall i :: 0 <= i < |tracks| ==> tracks[i].stage.Closed?
  }

  function AcceptAdded(m: Monitor, i: nat, item: Item): Monitor {
    if !m.Live? || i != |m.tracks| || item.completed then Rejected
    else if item.Message? && item.content == [] then Live(m.tracks + [Track(item.id, true, "", "", "", Opened)])
    else if item.FunctionCall? && item.arguments == "" then
      Live(m.tracks + [Track(item.id, false, item.callId, item.name, "", Streaming)])
    else Rejected
  }

  function AcceptDelta(m: Monitor, i: nat, id: string, isText: bool, d: string): Monitor {
    if At(m, i, id, isText, Streaming) && d != "" then Grow(m, i, d) else Rejected
  }

  /** An event that repeats all of the item's deltas and moves it on. */
  function AcceptTotal(m: Monitor, i: nat, id: string, isText: bool, from: Stage, total: string, to: Stage): Monitor {
    if At(m, i, id, isText, from) && total == m.tracks[i].acc then Move(m, i, to) else Rejected
  }

  /** A field that was given when the item was opened is still the same. */
  predicate Agrees(before: string, now: string) {
    before == "" || before == now
  }

  function AcceptDone(m: Monitor, i: nat, item: Item): Monitor {
    if !item.completed then Rejected
    else
      match item
      case Message(id, content, _) =>
        if |content| == 1 then AcceptTotal(m, i, id, true, PartClosed, content[0], Closed(item)) else Rejected
      case FunctionCall(id, callId, name, arguments, _) =>
        if At(m, i, id, false, Filled) && Agrees(m.tracks[i].callId, callId) && Agrees(m.tracks[i].name, name)
        then AcceptTotal(m, i, id, false, Filled, arguments, Closed(item)) else Rejected
  }

  function AcceptCompleted(m: Monitor, output: seq<Item>): Monitor {
    if m.Live? && AllDone(m.tracks) && output == FinalOutput(m.tracks) then Ended(m.tracks) else Rejected
  }

  function Accept(m: Monitor, e: Written): Monitor {
    match e
    case Created(_) => if m.Idle? then Live([]) else Rejected
    case ItemAdded(i, item) => AcceptAdded(m, i, item)
    case PartAdded(id, i) => if At(m, i, id, true, Opened) then Move(m, i, Streaming) else Rejected
    case TextDelta(id, i, d) => AcceptDelta(m, i, id, true, d)
    case ArgsDelta(id, i, d) => AcceptDelta(m, i, id, false, d)
    case TextDone(id, i, t) => AcceptTotal(m, i, id, true, Streaming, t, Filled)
    case PartDone(id, i, t) => AcceptTotal(m, i, id, true, Filled, t, PartClosed)
    case ArgsDone(id, i, a) => AcceptTotal(m, i, id, false, Streaming, a, Filled)
    case ItemDone(i, item) => AcceptDone(m, i, item)
    case Completed(_, _, output, _) => AcceptCompleted(m, output)
    case DoneMarker => if m.Ended? then Over(m.tracks) else Rejected
    case ServerError => Rejected
  }

  function Play(log: Log): Monitor
    decreases |log|
  {
    if log == [] then Idle else Accept(Play(log[..|log| - 1]), log[|log| - 1])
  }

  /** The monitor has accepted everything up to `[DONE]`, and the response that was completed is the
      one that was created. */
  predicate WellFormed(log: Log) {
    && Play(log).Over? && |log| >= 2
    && log[0].Created? && log[|log| - 2].Completed? && log[|log| - 2].respId == log[0].respId
  }

  ghost predicate PrefixOfWellFormed(log: Log) {
    exists full :: log <= full && WellFormed(full)
  }

  lemma PlaySnoc(log: Log, e: Written)
    ensures Play(log + [e]) == Accept(Play(log), e)
  {
    assert (log + [e])[..|log|] == log;
  }

  // ---------- what acceptance means ----------

  function DeltaOf(e: Written, i: nat): string {
    if (e.TextDelta? || e.ArgsDelta?) && e.index == i then e.delta else ""
  }

  /** All deltas written for output item `i`, concatenated. */
  function Deltas(log: Log, i: nat): string
    decreases |log|
  {
    if log == [] then "" else Deltas(log[..|log| - 1], i) + DeltaOf(log[|log| - 1], i)
  }

  function CountAdded(log: Log, i: nat): nat
    decreases |log|
  {
    if log == [] then 0
    else
      var e := log[|log| - 1];
      CountAdded(log[..|log| - 1], i) + if e.ItemAdded? && e.index == i then 1 else 0
  }

  function CountDone(log: Log, i: nat): nat
    decreases |log|
  {
    if log == [] then 0
    else
      var e := log[|log| - 1];
      CountDone(log[..|log| - 1], i) + if e.ItemDone? && e.index == i then 1 else 0
  }

  function Tracks(m: Monitor): seq<Track> {
    if m.Live? || m.Ended? || m.Over? then m.tracks else []
  }

  function ItemText(item: Item): Option<string> {
    match item
    case Message(_, content, _) => if |content| == 1 then Some(content[0]) else None
    case FunctionCall(_, _, _, arguments, _) => Some(arguments)
  }

  predicate IsClosed(t: seq<Track>, i: nat) {
    i < |t| && t[i].stage.Closed?
  }

  function Acc(t: seq<Track>, i: nat): string {
    if i < |t| then t[i].acc else ""
  }

  /** One accepted event opens the next index or none, appends its delta to its item and to no
      other, and closes its item, which was not closed before. */
  lemma AcceptStep(m: Monitor, e: Written, i: nat)
    requires !Accept(m, e).Rejected?
    ensures var t, u := Tracks(m), Tracks(Accept(m, e));
            && |u| == |t| + (if e.ItemAdded? then 1 else 0)
            && (e.ItemAdded? ==> e.index == |t|)
            && Acc(u, i) == Acc(t, i) + DeltaOf(e, i)
            && (if e.ItemDone? && e.index == i then !IsClosed(t, i) && IsClosed(u, i) && ItemText(u[i].stage.item) == Some(u[i].acc)
                else IsClosed(u, i) == IsClosed(t, i) && (IsClosed(t, i) ==> u[i] == t[i]))
  {
    hide FinalOutput, AllDone;
    match e {
      case Created(_) =>
      case ItemAdded(_, _) =>
      case PartAdded(_, _) =>
      case TextDelta(_, _, _) =>
      case ArgsDelta(_, _, _) =>
      case TextDone(_, _, _) =>
      case PartDone(_, _, _) =>
      case ArgsDone(_, _, _) =>
      case ItemDone(_, _) =>
      case Completed(_, _, _, _) =>
      case DoneMarker =>
      case ServerError =>
    }
  }

  /** For item `i` of an accepted log: it was added exactly once if its index was reached and not
      otherwise, its track holds all its deltas, and it was finished at most once, with them. */
  lemma {:induction false} AcceptedItem(log: Log, i: nat)
    requires !Play(log).Rejected?
    ensures var t := Tracks(Play(log));
            && CountAdded(log, i) == (if i < |t| then 1 else 0)
            && CountDone(log, i) == (if IsClosed(t, i) then 1 else 0)
            && Deltas(log, i) == Acc(t, i)
            && (IsClosed(t, i) ==> ItemText(t[i].stage.item) == Some(Deltas(log, i)))
    decreases |log|
  {
    if log != [] {
      var n := |log| - 1;
      var m, e := Play(log[..n]), log[n];
      assert Play(log) == Accept(m, e);
      AcceptStep(m, e, i);
      AcceptedItem(log[..n], i);
    }
  }

  lemma LastOf(m: Monitor, e: Written)
    ensures Accept(m, e).Over? ==> e.DoneMarker? && m == Ended(Accept(m, e).tracks)
    ensures Accept(m, e).Ended? ==>
      e.Completed? && m == Live(Accept(m, e).tracks) && AllDone(m.tracks) && e.output == FinalOutput(m.tracks)
  {
  }

  lemma LastTwo(log: Log)
    requires WellFormed(log)
    ensures |log| >= 2 && log[|log| - 1].DoneMarker? && log[|log| - 2].Completed?
    ensures var t := Play(log).tracks;
            AllDone(t) && log[|log| - 2].output == FinalOutput(t)
  {
    hide Accept, FinalOutput;
    var n := |log|;
    LastOf(Play(log[..n - 1]), log[n - 1]);
    var init := log[..n - 1];
    assert init[..n - 2] == log[..n - 2];
    LastOf(Play(log[..n - 2]), log[n - 2]);
  }

  /** What a complete accepted log tells about its items: indices 0..n-1 are each opened once and
      finished once, with exactly the deltas of that index, and the completed response lists
      every finished item once, texts first and the calls in opening order. */
  lemma CompleteLogItems(log: Log)
    requires WellFormed(log)
    ensures var n := |Play(log).tracks|;
            forall i: nat :: CountAdded(log, i) == CountDone(log, i) == (if i < n then 1 else 0)
    ensures |log| >= 2 && log[|log| - 1].DoneMarker? && log[|log| - 2].Completed?
    ensures var t, output := Play(log).tracks, log[|log| - 2].output;
            && AllDone(t) && output == FinalOutput(t) && |output| == |t|
            && forall i: nat :: i < |t| ==> ItemText(t[i].stage.item) == Some(Deltas(log, i))
  {
    LastTwo(log);
    var t := Play(log).tracks;
    forall i: nat
      ensures CountAdded(log, i) == CountDone(log, i) == (if i < |t| then 1 else 0)
      ensures i < |t| ==> ItemText(t[i].stage.item) == Some(Deltas(log, i))
    {
      AcceptedItem(log, i);
    }
    IndicesPartition(Flags(t));
  }

  lemma {:induction false} IndicesPartition(flags: seq<bool>)
    ensures |Indices(flags, true)| + |Indices(flags, false)| == |flags|
    decreases |flags|
  {
    if flags != [] {
      IndicesPartition(flags[..|flags| - 1]);
    }
  }

  // ---------- the translator follows the protocol ----------

  function CallIndices(calls: seq<Call>): (r: seq<nat>)
    ensures |r| == |calls| && forall k :: 0 <= k < |r| ==> r[k] == calls[k].index
  {
    seq(|calls|, i requires 0 <= i < |calls| => calls[i].index)
  }

  function TextIndices(s: State): seq<nat> {
    if s.textIndex.Some? then [s.textIndex.value] else []
  }

  function TextTrack(cfg: Config, text: string, stage: Stage): Track {
    Track(cfg.msgId, true, "", "", text, stage)
  }

  ghost predicate CallTrack(x: Track, c: Call, stage: Stage) {
    && x == Track(c.fcId, false, x.callId, x.name, c.arguments, stage)
    && Agrees(x.callId, c.callId) && Agrees(x.name, c.name)
  }

  /** The items are open at the translator's indices, with its text and arguments; `k` calls and,
      if `textClosed`, the text have been closed. */
  ghost predicate Tracked(cfg: Config, s: State, t: seq<Track>, textClosed: bool, k: nat) {
    && |t| == s.next && k <= |s.calls|
    && Indices(Flags(t), true) == TextIndices(s)
    && Indices(Flags(t), false) == CallIndices(s.calls)
    && (s.textIndex.Some? ==>
          s.textIndex.value < |t| &&
          t[s.textIndex.value] == TextTrack(cfg, s.text,
            if textClosed then Closed(Message(cfg.msgId, [s.text], true)) else Streaming))
    && forall j :: 0 <= j < |s.calls| ==>
         var c := s.calls[j];
         c.index < |t| && CallTrack(t[c.index], c, if j < k then Closed(CallItem(c)) else Streaming)
  }

  ghost predicate Sim(cfg: Config, s: State) {
    var m := Play(s.log);
    && m.Live? && Tracked(cfg, s, m.tracks, false, 0)
    && s.log != [] && s.log[0] == Created(cfg.respId)
    && (s.textIndex.None? ==> s.text == "")
  }

  lemma AddTrack(t: seq<Track>, x: Track)
    ensures Indices(Flags(t + [x]), x.isText) == Indices(Flags(t), x.isText) + [|t|]
    ensures Indices(Flags(t + [x]), !x.isText) == Indices(Flags(t), !x.isText)
  {
    assert Flags(t + [x]) == Flags(t) + [x.isText];
    assert Flags(t + [x])[..|t|] == Flags(t);
  }

  lemma SameFlags(t: seq<Track>, i: nat, x: Track)
    requires i < |t| && x.isText == t[i].isText
    ensures Flags(t[i := x]) == Flags(t)
  {
  }

  lemma OpenTextSim(cfg: Config, s: State)
    requires Sim(cfg, s)
    ensures Sim(cfg, OpenText(cfg, s))
  {
    if s.textIndex.None? {
      var t := Play(s.log).tracks;
      var added := s.log + [ItemAdded(s.next, Message(cfg.msgId, [], false))];
      PlaySnoc(s.log, ItemAdded(s.next, Message(cfg.msgId, [], false)));
      PlaySnoc(added, PartAdded(cfg.msgId, s.next));
      assert OpenText(cfg, s).log == added + [PartAdded(cfg.msgId, s.next)];
      AddTrack(t, TextTrack(cfg, "", Opened));
      SameFlags(t + [TextTrack(cfg, "", Opened)], s.next, TextTrack(cfg, "", Streaming));
    }
  }

  lemma TextDeltaSim(cfg: Config, o: State, content: string)
    requires Sim(cfg, o) && o.textIndex.Some? && content != ""
    ensures Sim(cfg, o.(text := o.text + content, log := o.log + [TextDelta(cfg.msgId, o.textIndex.value, content)]))
  {
    var i := o.textIndex.value;
    PlaySnoc(o.log, TextDelta(cfg.msgId, i, content));
    SameFlags(Play(o.log).tracks, i, TextTrack(cfg, o.text + content, Streaming));
  }

  lemma OnTextSim(cfg: Config, s: State, content: string)
    requires Sim(cfg, s)
    ensures Sim(cfg, OnText(cfg, s, content))
  {
    hide Sim;
    if content != "" {
      OpenTextSim(cfg, s);
      TextDeltaSim(cfg, OpenText(cfg, s), content);
    }
  }

  lemma OpenCallSim(cfg: Config, s: State, d: ToolDelta)
    requires Sim(cfg, s)
    ensures Sim(cfg, OpenCall(cfg, s, d))
  {
    if FindCall(s.calls, d.index).None? {
      var id := cfg.newId(|s.calls|);
      PlaySnoc(s.log, ItemAdded(s.next, FunctionCall(id, d.id, d.name, "", false)));
      var t, o := Play(s.log).tracks, OpenCall(cfg, s, d);
      TrackAdded(cfg, s, t, d, id);
      TrackedIgnoresLog(cfg, o.(log := s.log), t + [Track(id, false, d.id, d.name, "", Streaming)], o.log);
      hide Play, FindCall;
    }
  }

  lemma TrackAdded(cfg: Config, s: State, t: seq<Track>, d: ToolDelta, id: string)
    requires Tracked(cfg, s, t, false, 0)
    ensures Tracked(cfg, s.(calls := s.calls + [Call(d.index, id, d.id, d.name, "", s.next)], next := s.next + 1),
                    t + [Track(id, false, d.id, d.name, "", Streaming)], false, 0)
  {
    hide Indices;
    AddTrack(t, Track(id, false, d.id, d.name, "", Streaming));
    var c := Call(d.index, id, d.id, d.name, "", s.next);
    assert CallIndices(s.calls + [c]) == CallIndices(s.calls) + [s.next];
  }

  lemma TrackedIgnoresLog(cfg: Config, s: State, t: seq<Track>, log: Log)
    requires Tracked(cfg, s, t, false, 0)
    ensures Tracked(cfg, s.(log := log), t, false, 0)
  {
  }

  /** Calls sit at different output indices. */
  lemma CallsApart(cfg: Config, s: State, t: seq<Track>, textClosed: bool, k: nat, a: nat, b: nat)
    requires Tracked(cfg, s, t, textClosed, k) && a < b < |s.calls|
    ensures s.calls[a].index < s.calls[b].index
  {
    IndicesSound(Flags(t), false);
    assert CallIndices(s.calls)[a] < CallIndices(s.calls)[b];
  }

  lemma PatchSim(cfg: Config, o: State, d: ToolDelta, k: nat)
    requires Sim(cfg, o) && k < |o.calls|
    ensures var c := Patch(o.calls[k], d);
            Sim(cfg, o.(calls := o.calls[k := c],
                        log := if d.arguments == "" then o.log else o.log + [ArgsDelta(c.fcId, c.index, d.arguments)]))
  {
    var c := Patch(o.calls[k], d);
    var t := Play(o.log).tracks;
    PlaySnoc(o.log, ArgsDelta(c.fcId, c.index, d.arguments));
    SameFlags(t, c.index, t[c.index].(acc := c.arguments));
    assert CallIndices(o.calls[k := c]) == CallIndices(o.calls);
    forall j | 0 <= j < |o.calls| && j != k
      ensures o.calls[j].index != c.index
    {
      if j < k {
        CallsApart(cfg, o, t, false, 0, j, k);
      } else {
        CallsApart(cfg, o, t, false, 0, k, j);
      }
    }
    assert o.calls[k].arguments + "" == o.calls[k].arguments;
  }

  lemma {:induction false} OnCallsSim(cfg: Config, s: State, ds: seq<ToolDelta>)
    requires Sim(cfg, s)
    ensures Sim(cfg, OnCalls(cfg, s, ds))
    decreases |ds|
  {
    if ds != [] {
      var d, p := ds[|ds| - 1], OnCalls(cfg, s, ds[..|ds| - 1]);
      OnCallsSim(cfg, s, ds[..|ds| - 1]);
      OpenCallSim(cfg, p, d);
      PatchSim(cfg, OpenCall(cfg, p, d), d, Slot(p, d));
    }
  }

  lemma OnChunkSim(cfg: Config, s: State, c: Chunk)
    requires Sim(cfg, s)
    ensures Sim(cfg, OnChunk(cfg, s, c))
  {
    var h := Header(s, c);
    assert Sim(cfg, h);
    if c.delta.Some? {
      OnTextSim(cfg, h, c.delta.value.content);
      OnCallsSim(cfg, OnText(cfg, h, c.delta.value.content), c.delta.value.calls);
    }
  }

  lemma OnFrameSim(cfg: Config, s: State, raw: Bytes)
    requires Sim(cfg, s)
    ensures Sim(cfg, OnFrame(cfg, s, raw).state)
  {
    hide Sim, OnChunk;
    var f := Classify(raw);
    if f.Payload? && cfg.parse(f.bytes).Event? {
      OnChunkSim(cfg, s, cfg.parse(f.bytes).chunk);
    }
  }

  lemma {:induction false} ConsumeSim(cfg: Config, r: Run, frames: seq<Bytes>)
    requires Sim(cfg, r.state)
    ensures Sim(cfg, Consume(cfg, r, frames).state)
    decreases |frames|
  {
    hide Sim;
    if frames != [] && r.phase.Reading? {
      OnFrameSim(cfg, r.state, frames[0]);
      hide OnFrame;
      ConsumeSim(cfg, OnFrame(cfg, r.state, frames[0]), frames[1..]);
    }
  }

  lemma WholeSim(cfg: Config, bytes: Bytes, breaks: bool)
    ensures Sim(cfg, Whole(cfg, bytes, breaks).state)
  {
    var s := Start(cfg);
    assert s.log[..0] == [];
    assert Play(s.log) == Live([]);
    assert CallIndices(s.calls) == [];
    ConsumeSim(cfg, Run(s, Reading), SplitFrames(bytes).frames);
  }

  /** The three closing events of a text item move its track to the end. */
  lemma PlayTextClosing(log: Log, t: seq<Track>, i: nat, id: string, text: string)
    requires Play(log) == Live(t) && i < |t| && t[i] == Track(id, true, "", "", text, Streaming)
    ensures var item := Message(id, [text], true);
            Play(log + [TextDone(id, i, text), PartDone(id, i, text), ItemDone(i, item)])
            == Live(t[i := t[i].(stage := Closed(item))])
  {
    hide Play, FinalOutput;
    var item := Message(id, [text], true);
    var l1 := log + [TextDone(id, i, text)];
    var l2 := l1 + [PartDone(id, i, text)];
    PlaySnoc(log, TextDone(id, i, text));
    PlaySnoc(l1, PartDone(id, i, text));
    PlaySnoc(l2, ItemDone(i, item));
    assert log + [TextDone(id, i, text), PartDone(id, i, text), ItemDone(i, item)] == l2 + [ItemDone(i, item)];
    var t1 := t[i := t[i].(stage := Filled)];
    var t2 := t1[i := t[i].(stage := PartClosed)];
    assert Play(l1) == Live(t1);
    assert Play(l2) == Live(t2);
    assert t2[i := t[i].(stage := Closed(item))] == t[i := t[i].(stage := Closed(item))];
  }

  lemma CloseTextSim(cfg: Config, s: State)
    requires Sim(cfg, s)
    ensures var m := Play(s.log + CloseText(cfg, s));
            m.Live? && Tracked(cfg, s, m.tracks, true, 0)
  {
    hide Play;
    if s.textIndex.None? {
      assert s.log + [] == s.log;
    } else {
      var t := Play(s.log).tracks;
      PlayTextClosing(s.log, t, s.textIndex.value, cfg.msgId, s.text);
      TextTrackClosed(cfg, s, t);
    }
  }

  lemma TextTrackClosed(cfg: Config, s: State, t: seq<Track>)
    requires Tracked(cfg, s, t, false, 0) && s.textIndex.Some?
    ensures Tracked(cfg, s, t[s.textIndex.value := TextTrack(cfg, s.text, Closed(Message(cfg.msgId, [s.text], true)))], true, 0)
  {
    SameFlags(t, s.textIndex.value, TextTrack(cfg, s.text, Closed(Message(cfg.msgId, [s.text], true))));
  }

  lemma CloseCallSim(cfg: Config, s: State, log: Log, k: nat)
    requires k < |s.calls| && Play(log).Live? && Tracked(cfg, s, Play(log).tracks, true, k)
    ensures var m := Play(log + CloseCall(s.calls[k]));
            m.Live? && Tracked(cfg, s, m.tracks, true, k + 1)
  {
    var c := s.calls[k];
    var t := Play(log).tracks;
    var l1 := log + [ArgsDone(c.fcId, c.index, c.arguments)];
    PlaySnoc(log, ArgsDone(c.fcId, c.index, c.arguments));
    PlaySnoc(l1, ItemDone(c.index, CallItem(c)));
    assert log + CloseCall(c) == l1 + [ItemDone(c.index, CallItem(c))];
    var x := t[c.index].(stage := Closed(CallItem(c)));
    assert Play(log + CloseCall(c)) == Live(t[c.index := x]);
    SameFlags(t, c.index, x);
    forall j | 0 <= j < |s.calls| && j != k
      ensures s.calls[j].index != c.index
    {
      if j < k {
        CallsApart(cfg, s, t, true, k, j, k);
      } else {
        CallsApart(cfg, s, t, true, k, k, j);
      }
    }
  }

  lemma {:induction false} CloseCallsSim(cfg: Config, s: State, k: nat)
    requires Sim(cfg, s) && k <= |s.calls|
    ensures var m := Play(s.log + CloseText(cfg, s) + CloseCalls(s.calls[..k]));
            m.Live? && Tracked(cfg, s, m.tracks, true, k)
  {
    var base := s.log + CloseText(cfg, s);
    if k == 0 {
      CloseTextSim(cfg, s);
      assert base + CloseCalls(s.calls[..0]) == base;
    } else {
      CloseCallsSim(cfg, s, k - 1);
      assert s.calls[..k][..k - 1] == s.calls[..k - 1];
      var log := base + CloseCalls(s.calls[..k - 1]);
      CloseCallSim(cfg, s, log, k - 1);
      assert base + CloseCalls(s.calls[..k]) == log + CloseCall(s.calls[k - 1]);
    }
  }

  /** Closing a run leaves a complete well-formed log. */
  lemma CloseIsWellFormed(cfg: Config, s: State)
    requires Sim(cfg, s)
    ensures WellFormed(Close(cfg, s))
  {
    CloseCallsSim(cfg, s, |s.calls|);
    assert s.calls[..|s.calls|] == s.calls;
    var log := s.log + CloseText(cfg, s) + CloseCalls(s.calls);
    EndingAccepted(cfg, s, log);
    assert Close(cfg, s) == log + Ending(cfg, s);
  }

  lemma EndingAccepted(cfg: Config, s: State, log: Log)
    requires Play(log).Live? && Tracked(cfg, s, Play(log).tracks, true, |s.calls|)
    requires log != [] && log[0] == Created(cfg.respId)
    ensures WellFormed(log + Ending(cfg, s))
  {
    AllClosed(cfg, s, Play(log).tracks);
    var e := Completed(cfg.respId, s.model, Output(cfg, s), s.usage);
    PlaySnoc(log, e);
    PlaySnoc(log + [e], DoneMarker);
    assert log + Ending(cfg, s) == log + [e] + [DoneMarker];
  }

  lemma AllClosed(cfg: Config, s: State, t: seq<Track>)
    requires Tracked(cfg, s, t, true, |s.calls|)
    ensures AllDone(t)
    ensures FinalOutput(t) == Output(cfg, s)
  {
    forall i | 0 <= i < |t|
      ensures t[i].stage.Closed?
    {
      var at := Indices(Flags(t), t[i].isText);
      IndicesComplete(Flags(t), i);
      var j :| 0 <= j < |at| && at[j] == i;
    }
    assert ClosedItems(t, TextIndices(s)) == TextItem(cfg, s);
    assert ClosedItems(t, CallIndices(s.calls)) == CallItems(s.calls);
  }

  /** The main theorem. For every upstream stream and every moment of disconnection, what the
      client received is a prefix of a well-formed log, except exactly when the stream raises and the
      client takes every write, the error response in the stream included. */
  lemma ReceivedLogIsPrefixOfWellFormed(cfg: Config, bytes: Bytes, breaks: bool, limit: nat)
    ensures PrefixOfWellFormed(Take(Translate(cfg, bytes, breaks), limit)) <==>
            !(StreamRaises(cfg, SplitFrames(bytes).frames, breaks) && |Translate(cfg, bytes, breaks)| <= limit)
    ensures WellFormed(Translate(cfg, bytes, breaks)) <==> !StreamRaises(cfg, SplitFrames(bytes).frames, breaks)
  {
    hide Consume, SplitFrames, Play, Sim, StreamRaises, Close;
    var r := Whole(cfg, bytes, breaks);
    var log := Translate(cfg, bytes, breaks);
    var full := Close(cfg, r.state);
    RaisedIffStreamRaises(cfg, bytes, breaks);
    WholeSim(cfg, bytes, breaks);
    CloseIsWellFormed(cfg, r.state);
    CloseKeepsLog(cfg, r.state);
    if r.phase.Raised? {
      forall other | log <= other
        ensures !WellFormed(other)
      {
        ErrorIsRejected(r.state.log, other);
      }
    }
    if !(r.phase.Raised? && |log| <= limit) {
      assert Take(log, limit) <= full;
    }
  }

  lemma CloseKeepsLog(cfg: Config, s: State)
    ensures s.log <= Close(cfg, s)
  {
  }

  lemma ErrorIsRejected(log: Log, other: Log)
    requires log + [ServerError] <= other
    ensures !WellFormed(other)
  {
    var k := |log| + 1;
    assert other[..k] == log + [ServerError];
    PlaySnoc(log, ServerError);
    RejectedStays(other, k);
  }

  /** A stream that raises: one frame that is not UTF-8. A client that stays gets the error response in
      the place of an ending. */
  lemma RaisingFrameIsSeen(cfg: Config, limit: nat)
    requires cfg.parse([255]).Raises? && limit >= 2
    ensures Take(Translate(cfg, [255, NL, NL], false), limit) == [Created(cfg.respId), ServerError]
    ensures !PrefixOfWellFormed([Created(cfg.respId), ServerError])
  {
    var bytes: Bytes := [255, NL, NL];
    assert bytes == [255] + [NL, NL] + [];
    SplitOnce([255], []);
    assert SplitFrames([]) == Split([], []);
    assert SplitFrames(bytes).frames == [[255]];
    assert Classify([255]) == Payload([255]);
    assert [[255]][1..] == [];
    assert OnFrame(cfg, Start(cfg), [255]) == Run(Start(cfg), Raised);
    assert Translate(cfg, bytes, false) == [Created(cfg.respId)] + [ServerError];
    hide Classify, SplitFrames, Translate;
    forall other | [Created(cfg.respId), ServerError] <= other
      ensures !WellFormed(other)
    {
      ErrorIsRejected([Created(cfg.respId)], other);
    }
  }

  lemma {:induction false} RejectedStays(log: Log, k: nat)
    requires k <= |log| && Play(log[..k]).Rejected?
    ensures Play(log).Rejected?
    decreases |log|
  {
    if k == |log| {
      assert log[..k] == log;
    } else {
      assert log[..|log| - 1][..k] == log[..k];
      RejectedStays(log[..|log| - 1], k);
    }
  }
}
