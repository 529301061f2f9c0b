/** The REPL client: a reader task that assembles response fragments and a main task that reads
    lines, sharing `active_session_id` and `awaiting_response`. The tasks interleave at every lock of
    the shared state, in particular between the main task's question whether a response is awaited
    and the start of the next request. */
module ReplClient {
  import opened Common

  type Sid = Option<string>

  /** A message from the server; a ping carries whether the answer to it could be written. */
  datatype Frame =
    | Response(content: string, sid: Sid, isComplete: bool)
    | Ping(answered: bool)
    | Disconnect(sid: Sid)
    | Other

  /** Where the main task stands: waiting for the handshake, at its prompt, or having found that no
      response is awaited and about to begin a request. */
  datatype Main = Starting | Prompt | Cleared | Ended

  datatype Printed = Printed(sid: Sid, text: string)

  /** The two tasks' state. `ready` says that the handshake channel was used or dropped, `open` that the
      reader runs, `closed` what it told the main task; `heard`, `printed`, `begun` and `acked` are the
      history. */
  datatype Client = Client(
    active: Sid,
    awaiting: bool,
    ready: bool,
    open: bool,
    closed: bool,
    main: Main,
    buffers: map<Sid, string>,
    heard: seq<Frame>,
    printed: seq<Printed>,
    begun: nat,
    acked: nat)

  datatype Step =
    | Read(frame: Frame)
    | ConnectionLost(order: seq<Sid>)
    | MainStarts
    | SeesClosed
    | EmptyLine
    | ExitLine
    | ResetLine
    | MessageLine
    | BeginRequest(sent: bool)

  const START := Client(None, false, false, true, false, Starting, map[], [], [], 0, 0)

  function BufferOf(buffers: map<Sid, string>, sid: Sid): string {
    if sid in buffers then buffers[sid] else ""
  }

  /** `complete_response`; `background` recognises the text of a background job update. */
  function Complete(background: string -> bool, c: Client, sid: Sid, response: string): Client {
    if !c.ready then c.(active := if sid.Some? then sid else c.active)
    else if background(response) then c
    else if c.awaiting then c.(active := if sid.Some? then sid else c.active, awaiting := false, acked := c.acked + 1)
    else c
  }

  function OnResponse(background: string -> bool, c: Client, f: Frame): Client
    requires f.Response?
  {
    var text := BufferOf(c.buffers, f.sid) + f.content;
    if !f.isComplete then c.(buffers := c.buffers[f.sid := text])
    else
      Complete(background, c, f.sid, text).(
        buffers := c.buffers - {f.sid}, printed := c.printed + [Printed(f.sid, text)], ready := true)
  }

  function OnDisconnect(c: Client, sid: Sid): Client {
    var text := BufferOf(c.buffers, sid);
    c.(active := if sid.Some? && c.active.None? then sid else c.active,
       awaiting := false, buffers := map[], open := false, closed := true, ready := true,
       printed := if text == "" then c.printed else c.printed + [Printed(sid, text)])
  }

  /** The remaining buffers, printed in the order in which the map is drained. */
  function Drained(buffers: map<Sid, string>, order: seq<Sid>): seq<Printed>
    requires forall i :: 0 <= i < |order| ==> order[i] in buffers
    decreases |order|
  {
    if order == [] then []
    else
      var n := |order| - 1;
      var d := Drained(buffers, order[..n]);
      if buffers[order[n]] == "" then d else d + [Printed(order[n], buffers[order[n]])]
  }

  predicate Drains(order: seq<Sid>, buffers: map<Sid, string>) {
    && (forall i :: 0 <= i < |order| ==> order[i] in buffers)
    && (forall sid :: sid in buffers ==> sid in order)
    && (forall i, j :: 0 <= i < j < |order| ==> order[i] != order[j])
  }

  /** A Disconnect ends the reader, and so does a ping whose answer cannot be written. */
  predicate EndsReader(f: Frame) {
    f.Disconnect? || (f.Ping? && !f.answered)
  }

  function OnFrame(background: string -> bool, c: Client, f: Frame): Client {
    var h := c.(heard := c.heard + [f]);
    match f
    case Response(_, _, _) => OnResponse(background, h, f)
    case Disconnect(sid) => OnDisconnect(h, sid)
    case Ping(answered) => if answered then h else h.(buffers := map[], open := false, ready := true)
    case Other => h
  }

  lemma FrameEnds(background: string -> bool, c: Client, f: Frame)
    ensures OnFrame(background, c, f).open == (c.open && !EndsReader(f))
    ensures OnFrame(background, c, f).closed == (c.closed || f.Disconnect?)
  {
  }

  /** The main task ends and takes the reader with it. */
  function Quit(c: Client): Client {
    c.(main := Ended, open := false, buffers := map[])
  }

  function Next(background: string -> bool, c: Client, step: Step): Client {
    match step
    case Read(f) => if c.open then OnFrame(background, c, f) else c
    case ConnectionLost(order) =>
      if c.open && Drains(order, c.buffers) then
        c.(awaiting := false, printed := c.printed + Drained(c.buffers, order), buffers := map[],
           open := false, closed := true, ready := true)
      else c
    case MainStarts => if c.main.Starting? && c.ready then c.(main := if c.closed then Ended else Prompt) else c
    case SeesClosed => if c.main.Prompt? && c.closed then c.(main := Ended) else c
    case EmptyLine => c
    case ExitLine => if c.main.Prompt? then Quit(c) else c
    case ResetLine => if c.main.Prompt? then c.(awaiting := false) else c
    case MessageLine => if c.main.Prompt? && !c.awaiting then c.(main := Cleared) else c
    case BeginRequest(sent) =>
      if !c.main.Cleared? then c
      else
        var b := c.(awaiting := true, begun := c.begun + 1, main := Prompt);
        if sent then b else Quit(b)
  }

  function After(background: string -> bool, steps: seq<Step>): Client
    decreases |steps|
  {
    if steps == [] then START else Next(background, After(background, steps[..|steps| - 1]), steps[|steps| - 1])
  }

  // ---------- the reader's loop ----------

  class Reader {
    const background: string -> bool
    var state: Client

    constructor (background: string -> bool)
      ensures this.background == background && state == START
    {
      this.background, state := background, START;
    }

    method ReadMessage(f: Frame)
      requires state.open
      modifies this
      ensures state == OnFrame(background, old(state), f)
    {
      state := state.(heard := state.heard + [f]);
      match f
      case Response(content, sid, isComplete) =>
        var buffers := state.buffers[sid := BufferOf(state.buffers, sid) + content];
        if isComplete {
          var response := buffers[sid];
          buffers := buffers - {sid};
          CompleteResponse(sid, response);
          assert buffers == old(state.buffers) - {sid};
          state := state.(printed := state.printed + [Printed(sid, response)], ready := true);
        }
        state := state.(buffers := buffers);
      case Disconnect(sid) =>
        var response := BufferOf(state.buffers, sid);
        if sid.Some? && (state.active.None? || state.active == sid) {
          state := state.(active := sid);
        }
        state := state.(awaiting := false, buffers := state.buffers - {sid});
        if response != "" {
          state := state.(printed := state.printed + [Printed(sid, response)]);
        }
        state := state.(open := false, closed := true, ready := true, buffers := map[]);
      case Ping(answered) =>
        if !answered {
          state := state.(open := false, ready := true, buffers := map[]);
        }
      case Other =>
    }

    method CompleteResponse(sid: Sid, response: string)
      modifies this
      ensures state == Complete(background, old(state), sid, response)
    {
      if !state.ready {
        if sid.Some? {
          state := state.(active := sid);
        }
        return;
      }
      if background(response) {
        return;
      }
      if state.awaiting {
        if sid.Some? {
          state := state.(active := sid);
        }
        state := state.(awaiting := false, acked := state.acked + 1);
      }
    }

    /** The reader until it stops, with no lines entered meanwhile. */
    method ReadLoop(frames: seq<Frame>) returns (handled: nat)
      requires state.open
      modifies this
      ensures handled <= |frames| && (state.open ==> handled == |frames|)
      ensures forall k :: 0 <= k < handled - 1 ==> !EndsReader(frames[k])
      ensures !state.open ==> handled > 0 && EndsReader(frames[handled - 1])
      ensures state == Heard(background, old(state), frames[..handled])
    {
      handled := 0;
      ghost var c := state;
      while handled < |frames| && state.open
        invariant handled <= |frames| && state == Heard(background, c, frames[..handled])
        invariant forall k :: 0 <= k < handled - 1 ==> !EndsReader(frames[k])
        invariant state.open <==> handled == 0 || !EndsReader(frames[handled - 1])
      {
        hide OnFrame;
        assert frames[..handled + 1][..handled] == frames[..handled];
        FrameEnds(background, state, frames[handled]);
        ReadMessage(frames[handled]);
        handled := handled + 1;
      }
    }
  }

  function Heard(background: string -> bool, c: Client, frames: seq<Frame>): Client
    decreases |frames|
  {
    if frames == [] then c
    else OnFrame(background, Heard(background, c, frames[..|frames| - 1]), frames[|frames| - 1])
  }

  // ---------- requests and acknowledgements ----------

  /** The step gives up the request that is awaited: a `/reset`, a lost connection or a Disconnect. */
  predicate GivesUp(c: Client, step: Step) {
    c.awaiting &&
    match step
    case ResetLine => c.main.Prompt?
    case ConnectionLost(order) => c.open && Drains(order, c.buffers)
    case Read(f) => c.open && f.Disconnect?
    case _ => false
  }

  /** How many requests a run gives up. */
  function GivenUp(background: string -> bool, steps: seq<Step>): nat
    decreases |steps|
  {
    if steps == [] then 0
    else
      var init := steps[..|steps| - 1];
      GivenUp(background, init) + if GivesUp(After(background, init), steps[|steps| - 1]) then 1 else 0
  }

  /** About to begin, no response is awaited; and before the handshake no request was begun. */
  ghost predicate Placed(c: Client) {
    && (c.main.Cleared? ==> !c.awaiting)
    && (c.main.Starting? ==> c.begun == 0 && !c.awaiting)
    && (!c.ready ==> c.main.Starting?)
  }

  /** A response is awaited exactly for the one request that was begun and not acknowledged. */
  predicate Balanced(c: Client) {
    c.begun == c.acked + (if c.awaiting then 1 else 0)
  }

  lemma StepCounts(background: string -> bool, c: Client, step: Step, given: nat)
    requires Placed(c) && c.begun == c.acked + (if c.awaiting then 1 else 0) + given
    ensures var d := Next(background, c, step);
            Placed(d) && d.begun == d.acked + (if d.awaiting then 1 else 0) + given + (if GivesUp(c, step) then 1 else 0)
  {
  }

  /** In every run each request begun was acknowledged, given up or is awaited. */
  lemma {:induction false} RequestsAreAccountedFor(background: string -> bool, steps: seq<Step>)
    ensures Placed(After(background, steps))
    ensures var c := After(background, steps);
            c.begun == c.acked + (if c.awaiting then 1 else 0) + GivenUp(background, steps)
    decreases |steps|
  {
    if steps != [] {
      var n := |steps| - 1;
      RequestsAreAccountedFor(background, steps[..n]);
      hide Next, GivesUp, Placed;
      StepCounts(background, After(background, steps[..n]), steps[n], GivenUp(background, steps[..n]));
    }
  }

  /** So the flag tells exactly whether one request is outstanding if and only if the run gave none up. */
  lemma AwaitingIffOneOutstanding(background: string -> bool, steps: seq<Step>)
    ensures Balanced(After(background, steps)) <==> GivenUp(background, steps) == 0
  {
    RequestsAreAccountedFor(background, steps);
  }

  /** `/reset` breaks the count: the request it gave up is never acknowledged, and the late response
      to it acknowledges the next request instead, so that nothing is awaited although one request
      more was begun than acknowledged. */
  lemma ResetLosesTheCount(background: string -> bool, c: Client, late: Frame)
    requires Balanced(c) && c.open && c.ready && c.main.Prompt? && c.awaiting
    requires late.Response? && late.isComplete && !background(BufferOf(c.buffers, late.sid) + late.content)
    ensures var given := Next(background, c, ResetLine);
            var asked := Next(background, Next(background, given, MessageLine), BeginRequest(true));
            var d := Next(background, asked, Read(late));
            !d.awaiting && d.begun == d.acked + 1
  {
  }

  function Completed(heard: seq<Frame>): nat
    decreases |heard|
  {
    if heard == [] then 0
    else
      var f := heard[|heard| - 1];
      Completed(heard[..|heard| - 1]) + if f.Response? && f.isComplete then 1 else 0
  }

  ghost predicate AcksFollow(c: Client) {
    && (c.acked > 0 ==> c.acked < Completed(c.heard))
    && (!c.ready ==> c.acked == 0) && (c.ready && c.open ==> Completed(c.heard) >= 1)
  }

  lemma StepKeepsAcks(background: string -> bool, c: Client, step: Step)
    requires AcksFollow(c)
    ensures AcksFollow(Next(background, c, step))
  {
    hide Completed;
    if step.Read? {
      CompletedSnoc(c.heard, step.frame);
      if c.open {
        FrameAcks(background, c, step.frame);
      }
      hide OnFrame;
    }
  }

  /** A frame acknowledges at most one request, and only as a complete response after the handshake. */
  lemma FrameAcks(background: string -> bool, c: Client, f: Frame)
    ensures var d := OnFrame(background, c, f);
            && d.heard == c.heard + [f] && (d.open ==> c.open)
            && (d.acked == c.acked || (d.acked == c.acked + 1 && f.Response? && f.isComplete && c.ready))
            && (c.ready ==> d.ready)
            && (!c.ready && d.ready && d.open ==> f.Response? && f.isComplete)
  {
  }

  lemma CompletedSnoc(heard: seq<Frame>, f: Frame)
    ensures Completed(heard + [f]) == Completed(heard) + if f.Response? && f.isComplete then 1 else 0
  {
    assert (heard + [f])[..|heard|] == heard;
  }

  /** The first complete response of a run, the handshake, acknowledges nothing: acknowledged requests
      are fewer than complete responses. */
  lemma {:induction false} HandshakeAcknowledgesNothing(background: string -> bool, steps: seq<Step>)
    ensures var c := After(background, steps); c.acked > 0 ==> c.acked < Completed(c.heard)
    ensures AcksFollow(After(background, steps))
    decreases |steps|
  {
    if steps != [] {
      var n := |steps| - 1;
      HandshakeAcknowledgesNothing(background, steps[..n]);
      var c := After(background, steps[..n]);
      hide After, Completed;
      StepKeepsAcks(background, c, steps[n]);
      assert After(background, steps) == Next(background, c, steps[n]) by { UnfoldAfter(background, steps); }
    }
  }

  lemma UnfoldAfter(background: string -> bool, steps: seq<Step>)
    requires steps != []
    ensures After(background, steps) == Next(background, After(background, steps[..|steps| - 1]), steps[|steps| - 1])
  {
  }

  // ---------- what settles a request ----------

  /** A complete response. */
  predicate Completes(c: Client, step: Step) {
    step.Read? && c.open && step.frame.Response? && step.frame.isComplete
  }

  /** It settles the awaited request, unless it is the handshake or the text that it completes is a
      background job update. */
  predicate Settles(background: string -> bool, c: Client, step: Step) {
    && Completes(c, step) && c.ready && c.awaiting
    && !background(BufferOf(c.buffers, step.frame.sid) + step.frame.content)
  }

  predicate Begins(c: Client, step: Step) {
    step.BeginRequest? && c.main.Cleared?
  }

  /** A background update is printed and changes nothing else: the request stays awaited. */
  lemma BackgroundUpdateSettlesNothing(background: string -> bool, c: Client, f: Frame)
    requires f.Response? && f.isComplete && c.ready && c.open
    requires background(BufferOf(c.buffers, f.sid) + f.content)
    ensures Next(background, c, Read(f)) ==
            c.(heard := c.heard + [f], buffers := c.buffers - {f.sid},
               printed := c.printed + [Printed(f.sid, BufferOf(c.buffers, f.sid) + f.content)])
  {
  }

  /** The id of the session in use: the last one that came with the handshake or with a response that
      settled a request, or, if there was none, with a Disconnect. */
  function ActiveAfter(background: string -> bool, steps: seq<Step>): Sid
    decreases |steps|
  {
    if steps == [] then None
    else
      var init, step := steps[..|steps| - 1], steps[|steps| - 1];
      var c, before := After(background, init), ActiveAfter(background, init);
      if Completes(c, step) && (!c.ready || Settles(background, c, step)) && step.frame.sid.Some? then step.frame.sid
      else if step.Read? && c.open && step.frame.Disconnect? && before.None? then step.frame.sid
      else before
  }

  /** How many responses of a run settle a request. */
  function Settled(background: string -> bool, steps: seq<Step>): nat
    decreases |steps|
  {
    if steps == [] then 0
    else
      var init := steps[..|steps| - 1];
      Settled(background, init) + if Settles(background, After(background, init), steps[|steps| - 1]) then 1 else 0
  }

  lemma FrameSettles(background: string -> bool, c: Client, f: Frame)
    requires c.open
    ensures var d := OnFrame(background, c, f);
            && d.acked == c.acked + (if Settles(background, c, Read(f)) then 1 else 0)
            && d.awaiting == (c.awaiting && !Settles(background, c, Read(f)) && !f.Disconnect?)
            && d.active == if Completes(c, Read(f)) && (!c.ready || Settles(background, c, Read(f))) && f.sid.Some? then f.sid
                           else if f.Disconnect? && c.active.None? then f.sid
                           else c.active
  {
  }

  lemma StepSettles(background: string -> bool, c: Client, step: Step)
    ensures var d := Next(background, c, step);
            && d.acked == c.acked + (if Settles(background, c, step) then 1 else 0)
            && d.awaiting == (Begins(c, step) || (c.awaiting && !Settles(background, c, step) && !GivesUp(c, step)))
  {
    if step.Read? && c.open {
      FrameSettles(background, c, step.frame);
    }
    hide OnFrame;
  }

  lemma StepActive(background: string -> bool, c: Client, step: Step)
    ensures Next(background, c, step).active ==
            if Completes(c, step) && (!c.ready || Settles(background, c, step)) && step.frame.sid.Some? then step.frame.sid
            else if step.Read? && c.open && step.frame.Disconnect? && c.active.None? then step.frame.sid
            else c.active
  {
    if step.Read? && c.open {
      FrameSettles(background, c, step.frame);
    }
    hide OnFrame, Settles;
  }

  /** The main task's prompt: it opens after the handshake unless the reader has closed, a line begins a
      request exactly if none is awaited, and a close that is seen ends the task. */
  lemma PromptDecides(background: string -> bool, c: Client)
    ensures c.main.Starting? && c.ready ==> Next(background, c, MainStarts) == c.(main := if c.closed then Ended else Prompt)
    ensures c.main.Starting? && !c.ready ==> Next(background, c, MainStarts) == c
    ensures c.main.Prompt? ==> Next(background, c, SeesClosed) == if c.closed then c.(main := Ended) else c
    ensures c.main.Prompt? ==>
              Next(background, Next(background, c, MessageLine), BeginRequest(true)) ==
              if c.awaiting then c else c.(awaiting := true, begun := c.begun + 1)
  {
  }

  /** Over every run: exactly the settling responses are acknowledgements, a response is awaited from the
      beginning of a request until one settles it or it is given up, and the active session is as told. */
  lemma {:induction false} AcknowledgementsAreSettlements(background: string -> bool, steps: seq<Step>)
    ensures After(background, steps).acked == Settled(background, steps)
    ensures After(background, steps).active == ActiveAfter(background, steps)
    ensures steps != [] ==>
              var c, step := After(background, steps[..|steps| - 1]), steps[|steps| - 1];
              After(background, steps).awaiting ==
              (Begins(c, step) || (c.awaiting && !Settles(background, c, step) && !GivesUp(c, step)))
    decreases |steps|
  {
    if steps != [] {
      var n := |steps| - 1;
      AcknowledgementsAreSettlements(background, steps[..n]);
      hide Next, Settles, GivesUp, Completes, Begins;
      StepSettles(background, After(background, steps[..n]), steps[n]);
      StepActive(background, After(background, steps[..n]), steps[n]);
    }
  }

  // ---------- no text is lost ----------

  /** All fragments heard for a session id, concatenated. */
  function Fragments(heard: seq<Frame>, sid: Sid): string
    decreases |heard|
  {
    if heard == [] then ""
    else
      var f := heard[|heard| - 1];
      Fragments(heard[..|heard| - 1], sid) + if f.Response? && f.sid == sid then f.content else ""
  }

  function PrintedFor(printed: seq<Printed>, sid: Sid): string
    decreases |printed|
  {
    if printed == [] then ""
    else
      var p := printed[|printed| - 1];
      PrintedFor(printed[..|printed| - 1], sid) + if p.sid == sid then p.text else ""
  }

  lemma PrintedSnoc(printed: seq<Printed>, p: Printed, sid: Sid)
    ensures PrintedFor(printed + [p], sid) == PrintedFor(printed, sid) + if p.sid == sid then p.text else ""
  {
    assert (printed + [p])[..|printed|] == printed;
  }

  lemma {:induction false} PrintedAppend(a: seq<Printed>, b: seq<Printed>, sid: Sid)
    ensures PrintedFor(a + b, sid) == PrintedFor(a, sid) + PrintedFor(b, sid)
    decreases |b|
  {
    if b == [] {
      assert a + b == a;
    } else {
      hide PrintedFor;
      var init, last := b[..|b| - 1], b[|b| - 1];
      PrintedAppend(a, init, sid);
      assert b == init + [last];
      PrintedSnoc(init, last, sid);
      AppendSnoc(a, init, last);
      PrintedSnoc(a + init, last, sid);
      Associate(PrintedFor(a, sid), PrintedFor(init, sid), if last.sid == sid then last.text else "");
    }
  }

  lemma AppendSnoc(a: seq<Printed>, init: seq<Printed>, last: Printed)
    ensures a + (init + [last]) == a + init + [last]
  {
  }

  lemma Associate(x: string, y: string, z: string)
    ensures x + y + z == x + (y + z)
  {
  }

  /** Text printed plus text buffered. */
  function Kept(c: Client, sid: Sid): string {
    PrintedFor(c.printed, sid) + BufferOf(c.buffers, sid)
  }

  lemma FragmentsSnoc(heard: seq<Frame>, f: Frame, sid: Sid)
    ensures Fragments(heard + [f], sid) == Fragments(heard, sid) + if f.Response? && f.sid == sid then f.content else ""
  {
    assert (heard + [f])[..|heard|] == heard;
  }

  lemma PartKeepsText(c: Client, f: Frame, sid: Sid)
    requires f.Response?
    ensures var text := BufferOf(c.buffers, f.sid) + f.content;
            PrintedFor(c.printed, sid) + BufferOf(c.buffers[f.sid := text], sid) ==
            Kept(c, sid) + (if f.sid == sid then f.content else "")
  {
    hide PrintedFor;
    var p, b := PrintedFor(c.printed, sid), BufferOf(c.buffers, sid);
    assert p + (b + f.content) == p + b + f.content;
    assert p + b + "" == p + b;
  }

  lemma WholeKeepsText(c: Client, f: Frame, sid: Sid)
    requires f.Response?
    ensures var text := BufferOf(c.buffers, f.sid) + f.content;
            PrintedFor(c.printed + [Printed(f.sid, text)], sid) + BufferOf(c.buffers - {f.sid}, sid) ==
            Kept(c, sid) + (if f.sid == sid then f.content else "")
  {
    var text := BufferOf(c.buffers, f.sid) + f.content;
    PrintedSnoc(c.printed, Printed(f.sid, text), sid);
    hide PrintedFor;
    var p, b := PrintedFor(c.printed, sid), BufferOf(c.buffers, sid);
    assert p + (b + f.content) + "" == p + b + f.content;
    assert p + "" + b == p + b + "";
  }

  lemma CompleteTouchesNoText(background: string -> bool, c: Client, sid: Sid, response: string)
    ensures var d := Complete(background, c, sid, response);
            d.heard == c.heard && d.printed == c.printed && d.buffers == c.buffers
  {
  }

  lemma FrameKeepsText(background: string -> bool, c: Client, f: Frame, sid: Sid)
    requires !EndsReader(f) && Kept(c, sid) == Fragments(c.heard, sid)
    ensures var d := OnFrame(background, c, f); Kept(d, sid) == Fragments(d.heard, sid)
  {
    FragmentsSnoc(c.heard, f, sid);
    if f.Response? {
      PartKeepsText(c, f, sid);
      WholeKeepsText(c, f, sid);
      hide Fragments, PrintedFor, BufferOf;
      CompleteTouchesNoText(background, c.(heard := c.heard + [f]), f.sid, BufferOf(c.buffers, f.sid) + f.content);
      hide Complete;
    } else {
      hide Fragments, PrintedFor, BufferOf;
      var k := Kept(c, sid);
      assert k + "" == k;
    }
  }

  lemma {:induction false} DrainedFor(buffers: map<Sid, string>, order: seq<Sid>, sid: Sid)
    requires forall i :: 0 <= i < |order| ==> order[i] in buffers
    requires forall i, j :: 0 <= i < j < |order| ==> order[i] != order[j]
    ensures PrintedFor(Drained(buffers, order), sid) == if sid in order then buffers[sid] else ""
    decreases |order|
  {
    if order != [] {
      var n := |order| - 1;
      var d := Drained(buffers, order[..n]);
      DrainedFor(buffers, order[..n], sid);
      PrintedSnoc(d, Printed(order[n], buffers[order[n]]), sid);
      assert PrintedFor(d, sid) + "" == PrintedFor(d, sid);
      assert sid in order <==> sid in order[..n] || sid == order[n];
    }
  }

  /** A lost connection flushes every buffer. */
  lemma LossKeepsText(c: Client, order: seq<Sid>, sid: Sid)
    requires Drains(order, c.buffers) && Kept(c, sid) == Fragments(c.heard, sid)
    ensures PrintedFor(c.printed + Drained(c.buffers, order), sid) == Fragments(c.heard, sid)
  {
    PrintedAppend(c.printed, Drained(c.buffers, order), sid);
    DrainedFor(c.buffers, order, sid);
  }

  /** The text buffered for an id that a step throws away: when the reader ends at a Disconnect for
      another id or at a ping it cannot answer, or when the main task ends. */
  function Thrown(c: Client, step: Step, sid: Sid): string {
    var text := BufferOf(c.buffers, sid);
    match step
    case Read(f) => if c.open && EndsReader(f) && f != Disconnect(sid) then text else ""
    case ExitLine => if c.main.Prompt? then text else ""
    case BeginRequest(sent) => if c.main.Cleared? && !sent then text else ""
    case _ => ""
  }

  function ThrownAway(background: string -> bool, steps: seq<Step>, sid: Sid): string
    decreases |steps|
  {
    if steps == [] then ""
    else
      var init := steps[..|steps| - 1];
      ThrownAway(background, init, sid) + Thrown(After(background, init), steps[|steps| - 1], sid)
  }

  /** What is heard is printed, buffered or thrown away; while the reader runs, nothing has been thrown
      away, and afterwards nothing is buffered. */
  ghost predicate Conserved(c: Client, sid: Sid, thrown: string) {
    && Fragments(c.heard, sid) == Kept(c, sid) + thrown
    && (if c.open then thrown == "" else c.buffers == map[])
  }

  lemma EndConserves(background: string -> bool, c: Client, f: Frame, sid: Sid)
    requires Conserved(c, sid, "") && c.open && EndsReader(f)
    ensures Conserved(OnFrame(background, c, f), sid, Thrown(c, Read(f), sid))
  {
    FragmentsSnoc(c.heard, f, sid);
    EndPrints(background, c, f, sid);
    var d := OnFrame(background, c, f);
    assert !d.open && d.buffers == map[] && d.heard == c.heard + [f];
    hide Fragments, PrintedFor, OnFrame;
    var p, b := PrintedFor(c.printed, sid), BufferOf(c.buffers, sid);
    assert p + b + "" == p + b && p + "" == p;
    assert p + b + "" + "" == p + b;
  }

  /** What the reader prints when it ends. */
  lemma EndPrints(background: string -> bool, c: Client, f: Frame, sid: Sid)
    requires EndsReader(f)
    ensures PrintedFor(OnFrame(background, c, f).printed, sid)
         == PrintedFor(c.printed, sid) + if f == Disconnect(sid) then BufferOf(c.buffers, sid) else ""
  {
    if f.Disconnect? {
      PrintedSnoc(c.printed, Printed(f.sid, BufferOf(c.buffers, f.sid)), sid);
    }
    hide PrintedFor;
    assert PrintedFor(c.printed, sid) + "" == PrintedFor(c.printed, sid);
  }

  lemma ReadConserves(background: string -> bool, c: Client, f: Frame, sid: Sid)
    requires Conserved(c, sid, "") && c.open
    ensures Conserved(OnFrame(background, c, f), sid, Thrown(c, Read(f), sid))
  {
    hide Fragments, PrintedFor, OnFrame, BufferOf;
    if EndsReader(f) {
      EndConserves(background, c, f, sid);
    } else {
      var k, d := Kept(c, sid), OnFrame(background, c, f);
      assert k + "" == k && Kept(d, sid) + "" == Kept(d, sid);
      FrameKeepsText(background, c, f, sid);
      FrameEnds(background, c, f);
    }
  }

  lemma QuitConserves(c: Client, sid: Sid, thrown: string)
    requires Conserved(c, sid, thrown)
    ensures Conserved(Quit(c), sid, thrown + BufferOf(c.buffers, sid))
  {
    hide Fragments, PrintedFor;
    var p, b := PrintedFor(c.printed, sid), BufferOf(c.buffers, sid);
    assert c.open ==> p + b + thrown == p + "" + (thrown + b);
    assert !c.open ==> p + b + thrown == p + "" + (thrown + b);
  }

  lemma LossConserves(c: Client, order: seq<Sid>, sid: Sid)
    requires Conserved(c, sid, "") && Drains(order, c.buffers)
    ensures PrintedFor(c.printed + Drained(c.buffers, order), sid) == Fragments(c.heard, sid)
  {
    var k := Kept(c, sid);
    assert k + "" == k;
    hide Kept, Fragments, PrintedFor;
    LossKeepsText(c, order, sid);
  }

  lemma StepConserves(background: string -> bool, c: Client, step: Step, sid: Sid, thrown: string)
    requires Conserved(c, sid, thrown)
    ensures Conserved(Next(background, c, step), sid, thrown + Thrown(c, step, sid))
  {
    hide Fragments, PrintedFor, OnFrame, Drained;
    assert thrown + "" == thrown && "" + Thrown(c, step, sid) == Thrown(c, step, sid);
    match step {
      case Read(f) =>
        if c.open {
          ReadConserves(background, c, f, sid);
          hide Conserved, Thrown;
        }
      case ConnectionLost(order) =>
        if c.open && Drains(order, c.buffers) {
          LossConserves(c, order, sid);
          var p := PrintedFor(c.printed + Drained(c.buffers, order), sid);
          assert p + "" + "" == p;
        }
      case ExitLine =>
        QuitConserves(c, sid, thrown);
        hide Conserved;
      case BeginRequest(sent) =>
        var b := c.(awaiting := true, begun := c.begun + 1, main := Prompt);
        assert Conserved(b, sid, thrown);
        QuitConserves(b, sid, thrown);
      case _ =>
    }
  }

  /** Conservation of text, over every run and for every session id. */
  lemma {:induction false} NoTextIsLost(background: string -> bool, steps: seq<Step>, sid: Sid)
    ensures Conserved(After(background, steps), sid, ThrownAway(background, steps, sid))
    decreases |steps|
  {
    if steps != [] {
      var n := |steps| - 1;
      NoTextIsLost(background, steps[..n], sid);
      var c := After(background, steps[..n]);
      hide Next, Conserved, Thrown;
      StepConserves(background, c, steps[n], sid, ThrownAway(background, steps[..n], sid));
    }
  }

  /** Printed and buffered text is all that was heard exactly if nothing was thrown away; a lost
      connection alone throws nothing away. */
  lemma TextSurvivesIff(background: string -> bool, steps: seq<Step>, sid: Sid)
    ensures var c := After(background, steps);
            Kept(c, sid) == Fragments(c.heard, sid) <==> ThrownAway(background, steps, sid) == ""
  {
    NoTextIsLost(background, steps, sid);
    var k, t := Kept(After(background, steps), sid), ThrownAway(background, steps, sid);
    assert |k + t| == |k| + |t|;
    assert k + "" == k;
  }

  /** A frame that ends the reader prints at most the buffer of its own session id: afterwards everything
      heard for an id has been printed exactly if the frame is a Disconnect for that id or nothing was
      buffered for it. */
  lemma EndOfReaderLosesBuffers(background: string -> bool, steps: seq<Step>, f: Frame, sid: Sid)
    requires After(background, steps).open && EndsReader(f)
    ensures var c := After(background, steps);
            var d := Next(background, c, Read(f));
            PrintedFor(d.printed, sid) == Fragments(d.heard, sid) <==> f == Disconnect(sid) || BufferOf(c.buffers, sid) == ""
    ensures var d := Next(background, After(background, steps), Read(f));
            f.Ping? ==> !d.closed && d.awaiting == After(background, steps).awaiting
  {
    NoTextIsLost(background, steps, sid);
    var c := After(background, steps);
    NeverClosedWhileOpen(background, steps);
    hide After;
    ReadConserves(background, c, f, sid);
    var d := OnFrame(background, c, f);
    assert !d.open && BufferOf(d.buffers, sid) == "";
    var p, t := PrintedFor(d.printed, sid), Thrown(c, Read(f), sid);
    assert Fragments(d.heard, sid) == p + "" + t && |p + "" + t| == |p| + |t|;
    assert p + "" + "" == p;
  }

  lemma {:induction false} NeverClosedWhileOpen(background: string -> bool, steps: seq<Step>)
    ensures After(background, steps).open ==> !After(background, steps).closed
    decreases |steps|
  {
    if steps != [] {
      hide Next;
      var n := |steps| - 1;
      NeverClosedWhileOpen(background, steps[..n]);
      OpenMeansNotClosed(background, After(background, steps[..n]), steps[n]);
    }
  }

  lemma OpenMeansNotClosed(background: string -> bool, c: Client, step: Step)
    requires c.open ==> !c.closed
    ensures Next(background, c, step).open ==> !Next(background, c, step).closed
  {
    hide OnFrame, Drains, Drained;
    if step.Read? {
      FrameEnds(background, c, step.frame);
    }
  }

  /** Two runs in which text is lost: another session disconnects, or a ping cannot be answered, while a
      fragment waits for the rest of its response. */
  lemma FragmentIsLost(background: string -> bool, end: Frame)
    requires end == Disconnect(Some("b")) || end == Ping(false)
    ensures var c := After(background, [Read(Response("text", Some("a"), false)), Read(end)]);
            Fragments(c.heard, Some("a")) == "text" && PrintedFor(c.printed, Some("a")) == ""
  {
    var f := Response("text", Some("a"), false);
    var steps := [Read(f), Read(end)];
    assert steps[..1] == [Read(f)] && [Read(f)][..0] == [];
    assert After(background, [Read(f)]) == OnFrame(background, START, f);
    assert BufferOf(START.buffers, Some("a")) + "text" == "text";
    var c := After(background, steps);
    assert c.heard == [f] + [end] && [] + [f] == [f];
    FragmentsSnoc([], f, Some("a"));
    FragmentsSnoc([f], end, Some("a"));
    assert c.printed == [];
  }
}
