/** The session registry of the Unix-socket REPL server. Each connection is served by its own task;
    the tasks and the agent's responses interleave at the points where they take the lock of the
    session map. A state records the map, every connection with its program point and the frames
    the server wrote to it, and the messages handed to the agent. */
module ReplServer {

  datatype Frame = Welcome(sid: string) | Busy(sid: string) | Pong | Response(sid: string, content: string)

  /** Where the task of a connection stands: reading the handshake, about to register, in its message
      loop, out of the loop but not yet removed from the map, or finished. */
  datatype Phase = Greeting | Registering | InLoop | Leaving | Gone

  datatype Conn = Conn(sid: string, phase: Phase, sent: seq<Frame>)

  /** A message handed to the agent, with the session id it is tagged with. */
  datatype Incoming = Incoming(tag: string, content: string, origin: nat)

  datatype State = State(max: nat, conns: map<nat, Conn>, sessions: map<string, nat>, channel: seq<Incoming>)

  /** One atomic step. Booleans say whether the socket or channel write in the step succeeds. */
  datatype Step =
    | Accept(conn: nat, sid: string)
    | Handshake(conn: nat, isConnect: bool)
    | Register(conn: nat, written: bool)
    | ClientMessage(conn: nat, content: string, accepted: bool)
    | ClientPing(conn: nat, written: bool)
    | ClientOther(conn: nat)
    | ClientLeaves(conn: nat)
    | Remove(conn: nat)
    | Respond(tag: string, content: string, written: bool)

  function Init(max: nat): State {
    State(max, map[], map[], [])
  }

  predicate InPhase(s: State, conn: nat, phase: Phase) {
    conn in s.conns && s.conns[conn].phase == phase
  }

  function Enter(s: State, conn: nat, phase: Phase): State
    requires conn in s.conns
  {
    s.(conns := s.conns[conn := s.conns[conn].(phase := phase)])
  }

  function Send(s: State, conn: nat, f: Frame, written: bool): State
    requires conn in s.conns
  {
    if written then s.(conns := s.conns[conn := s.conns[conn].(sent := s.conns[conn].sent + [f])]) else s
  }

  /** Session ids are random; a new connection gets one that no connection had before. */
  predicate FreshId(s: State, sid: string) {
    forall c :: c in s.conns ==> s.conns[c].sid != sid
  }

  /** Registration: refuse when full, else welcome and insert; a failed welcome ends the task. */
  function DoRegister(s: State, conn: nat, written: bool): State
    requires conn in s.conns
  {
    var c := s.conns[conn];
    if |s.sessions| >= s.max then
      s.(conns := s.conns[conn := c.(phase := Gone, sent := if written then c.sent + [Busy(c.sid)] else c.sent)])
    else if !written then s.(conns := s.conns[conn := c.(phase := Gone)])
    else
      s.(conns := s.conns[conn := c.(phase := InLoop, sent := c.sent + [Welcome(c.sid)])],
         sessions := s.sessions[c.sid := conn])
  }

  function DoRemove(s: State, conn: nat): State
    requires conn in s.conns
  {
    var c := s.conns[conn];
    s.(conns := s.conns[conn := c.(phase := Gone)], sessions := s.sessions - {c.sid})
  }

  /** Write to the session's connection if it is in the map. */
  function Deliver(s: State, sid: string, f: Frame, written: bool): State {
    if sid in s.sessions && s.sessions[sid] in s.conns then Send(s, s.sessions[sid], f, written) else s
  }

  /** The step's effect; a step that is not enabled does nothing. */
  function Next(s: State, step: Step): State {
    match step
    case Accept(conn, sid) =>
      if conn !in s.conns && FreshId(s, sid) then s.(conns := s.conns[conn := Conn(sid, Greeting, [])]) else s
    case Handshake(conn, isConnect) =>
      if InPhase(s, conn, Greeting) then Enter(s, conn, if isConnect then Registering else Gone) else s
    case Register(conn, written) =>
      if InPhase(s, conn, Registering) then DoRegister(s, conn, written) else s
    case ClientMessage(conn, content, accepted) =>
      if !InPhase(s, conn, InLoop) then s
      else if accepted then s.(channel := s.channel + [Incoming(s.conns[conn].sid, content, conn)])
      else Enter(s, conn, Leaving)
    case ClientPing(conn, written) =>
      if InPhase(s, conn, InLoop) then Deliver(s, s.conns[conn].sid, Pong, written) else s
    case ClientOther(conn) => s
    case ClientLeaves(conn) => if InPhase(s, conn, InLoop) then Enter(s, conn, Leaving) else s
    case Remove(conn) =>
      if InPhase(s, conn, Leaving) then DoRemove(s, conn) else s
    case Respond(tag, content, written) => Deliver(s, tag, Response(tag, content), written)
  }

  function After(s: State, steps: seq<Step>): State
    decreases |steps|
  {
    if steps == [] then s else Next(After(s, steps[..|steps| - 1]), steps[|steps| - 1])
  }

  // ---------- the critical sections on the shared map ----------

  class Registry {
    const max: nat
    var conns: map<nat, Conn>
    var sessions: map<string, nat>
    var channel: seq<Incoming>

    constructor (max: nat)
      ensures View() == Init(max)
    {
      this.max, conns, sessions, channel := max, map[], map[], [];
    }

    function View(): State
      reads this
    {
      State(max, conns, sessions, channel)
    }

    method WriteMessage(conn: nat, f: Frame, written: bool) returns (ok: bool)
      requires conn in conns
      modifies this`conns
      ensures ok == written && View() == Send(old(View()), conn, f, written)
    {
      if written {
        conns := conns[conn := conns[conn].(sent := conns[conn].sent + [f])];
      }
      return written;
    }

    /** Registration under the write lock: refuse when full, else welcome and then insert. */
    method RegisterSession(conn: nat, written: bool)
      requires conn in conns && conns[conn].phase.Registering?
      modifies this`conns, this`sessions
      ensures View() == Next(old(View()), Register(conn, written))
    {
      var sid := conns[conn].sid;
      if |sessions| >= max {
        var _ := WriteMessage(conn, Busy(sid), written);
        conns := conns[conn := conns[conn].(phase := Gone)];
        assert conns == DoRegister(old(View()), conn, written).conns;
        return;
      }
      var ok := WriteMessage(conn, Welcome(sid), written);
      if !ok {
        conns := conns[conn := conns[conn].(phase := Gone)];
        return;
      }
      sessions := sessions[sid := conn];
      conns := conns[conn := conns[conn].(phase := InLoop)];
      assert conns == DoRegister(old(View()), conn, written).conns;
    }

    method RespondTo(tag: string, content: string, written: bool)
      requires forall sid :: sid in sessions ==> sessions[sid] in conns
      modifies this`conns
      ensures View() == Next(old(View()), Respond(tag, content, written))
    {
      if tag in sessions {
        var _ := WriteMessage(sessions[tag], Response(tag, content), written);
      }
    }

    method RemoveSession(conn: nat)
      requires conn in conns && conns[conn].phase.Leaving?
      modifies this`conns, this`sessions
      ensures View() == Next(old(View()), Remove(conn))
    {
      sessions := sessions - {conns[conn].sid};
      conns := conns[conn := conns[conn].(phase := Gone)];
    }
  }

  // ---------- what every interleaving keeps ----------

  /** In its message loop, up to the removal of its session. */
  predicate Active(c: Conn) {
    c.phase.InLoop? || c.phase.Leaving?
  }

  ghost predicate IdsApart(conns: map<nat, Conn>) {
    forall a, b :: a in conns && b in conns && conns[a].sid == conns[b].sid ==> a == b
  }

  /** The map holds exactly the active connections, under their own ids. */
  ghost predicate MapIsActive(conns: map<nat, Conn>, sessions: map<string, nat>) {
    && (forall sid :: sid in sessions ==>
          sessions[sid] in conns && conns[sessions[sid]].sid == sid && Active(conns[sessions[sid]]))
    && (forall c :: c in conns && Active(conns[c]) ==> conns[c].sid in sessions && sessions[conns[c].sid] == c)
  }

  /** What the server may have written to a connection: nothing before registration, then a welcome
      or the busy notice, then only pongs and responses with the connection's own id. */
  ghost predicate GoodLog(c: Conn) {
    && (c.sent == [] || c.sent[0] == Welcome(c.sid) || c.sent == [Busy(c.sid)])
    && (c.phase.Greeting? || c.phase.Registering? ==> c.sent == [])
    && (Active(c) ==> c.sent != [] && c.sent[0] == Welcome(c.sid))
    && (forall i :: 0 < i < |c.sent| ==> c.sent[i].Pong? || (c.sent[i].Response? && c.sent[i].sid == c.sid))
  }

  ghost predicate GoodLogs(conns: map<nat, Conn>) {
    forall c :: c in conns ==> GoodLog(conns[c])
  }

  ghost predicate TagsAreOrigins(conns: map<nat, Conn>, channel: seq<Incoming>) {
    forall i :: 0 <= i < |channel| ==> channel[i].origin in conns && conns[channel[i].origin].sid == channel[i].tag
  }

  ghost predicate Inv(s: State) {
    && |s.sessions| <= s.max
    && IdsApart(s.conns) && MapIsActive(s.conns, s.sessions)
    && GoodLogs(s.conns) && TagsAreOrigins(s.conns, s.channel)
  }

  lemma RemovalShrinks(m: map<string, nat>, k: string)
    ensures |m - {k}| <= |m|
  {
    assert (m - {k}).Keys == m.Keys - {k};
    assert |m.Keys - {k}| <= |m.Keys|;
  }

  /** Replacing a connection by one with the same id and a good log. */
  lemma ReplaceConn(conns: map<nat, Conn>, channel: seq<Incoming>, c: nat, x: Conn)
    requires c in conns && x.sid == conns[c].sid && GoodLog(x)
    requires IdsApart(conns) && GoodLogs(conns) && TagsAreOrigins(conns, channel)
    ensures IdsApart(conns[c := x]) && GoodLogs(conns[c := x]) && TagsAreOrigins(conns[c := x], channel)
  {
    hide GoodLog;
  }

  lemma ReplaceInMap(conns: map<nat, Conn>, sessions: map<string, nat>, c: nat, x: Conn)
    requires c in conns && x.sid == conns[c].sid && (Active(x) <==> Active(conns[c]))
    requires MapIsActive(conns, sessions)
    ensures MapIsActive(conns[c := x], sessions)
  {
    hide Active;
  }

  lemma InsertInMap(conns: map<nat, Conn>, sessions: map<string, nat>, c: nat, x: Conn)
    requires c in conns && x.sid == conns[c].sid && Active(x) && !Active(conns[c])
    requires MapIsActive(conns, sessions) && IdsApart(conns)
    ensures MapIsActive(conns[c := x], sessions[x.sid := c]) && x.sid !in sessions
  {
    hide Active;
    assert x.sid !in sessions;
  }

  lemma DropFromMap(conns: map<nat, Conn>, sessions: map<string, nat>, c: nat, x: Conn)
    requires c in conns && x.sid == conns[c].sid && !Active(x) && Active(conns[c])
    requires MapIsActive(conns, sessions) && IdsApart(conns)
    ensures MapIsActive(conns[c := x], sessions - {x.sid})
  {
    hide Active;
  }

  /** A connection may change its frames and its phase as long as it stays active or inactive. */
  lemma ReplaceKeepsInv(s: State, c: nat, x: Conn)
    requires Inv(s) && c in s.conns && GoodLog(x)
    requires x.sid == s.conns[c].sid && (Active(x) <==> Active(s.conns[c]))
    ensures Inv(s.(conns := s.conns[c := x]))
  {
    hide GoodLog, Active, IdsApart, MapIsActive, GoodLogs, TagsAreOrigins;
    ReplaceConn(s.conns, s.channel, c, x);
    ReplaceInMap(s.conns, s.sessions, c, x);
  }

  lemma LogGrows(c: Conn, f: Frame)
    requires GoodLog(c) && Active(c) && (f.Pong? || (f.Response? && f.sid == c.sid))
    ensures GoodLog(c.(sent := c.sent + [f]))
  {
  }

  lemma DeliverKeepsInv(s: State, sid: string, f: Frame, written: bool)
    requires Inv(s) && (f.Pong? || (f.Response? && f.sid == sid))
    ensures Inv(Deliver(s, sid, f, written))
  {
    if sid in s.sessions && s.sessions[sid] in s.conns {
      var c := s.sessions[sid];
      LogGrows(s.conns[c], f);
      hide Inv, GoodLog;
      ReplaceKeepsInv(s, c, s.conns[c].(sent := s.conns[c].sent + [f]));
    }
  }

  /** A connection enters the map. */
  lemma InsertKeepsInv(s: State, c: nat, x: Conn)
    requires Inv(s) && c in s.conns && GoodLog(x) && x.sid == s.conns[c].sid
    requires !Active(s.conns[c]) && Active(x) && |s.sessions| < s.max
    ensures Inv(s.(conns := s.conns[c := x], sessions := s.sessions[x.sid := c]))
  {
    hide GoodLog, Active, IdsApart, MapIsActive, GoodLogs, TagsAreOrigins;
    ReplaceConn(s.conns, s.channel, c, x);
    InsertInMap(s.conns, s.sessions, c, x);
  }

  /** A connection leaves the map. */
  lemma DropKeepsInv(s: State, c: nat, x: Conn)
    requires Inv(s) && c in s.conns && GoodLog(x) && x.sid == s.conns[c].sid
    requires Active(s.conns[c]) && !Active(x)
    ensures Inv(s.(conns := s.conns[c := x], sessions := s.sessions - {x.sid}))
  {
    hide GoodLog, Active, IdsApart, MapIsActive, GoodLogs, TagsAreOrigins;
    RemovalShrinks(s.sessions, x.sid);
    ReplaceConn(s.conns, s.channel, c, x);
    DropFromMap(s.conns, s.sessions, c, x);
  }

  lemma AcceptKeepsInv(s: State, c: nat, sid: string)
    requires Inv(s) && c !in s.conns && FreshId(s, sid)
    ensures Inv(s.(conns := s.conns[c := Conn(sid, Greeting, [])]))
  {
    var x := Conn(sid, Greeting, []);
    assert GoodLog(x) && !Active(x);
    hide GoodLog, Active;
    var conns := s.conns[c := x];
    assert IdsApart(conns);
    assert GoodLogs(conns);
    assert TagsAreOrigins(conns, s.channel);
    assert MapIsActive(conns, s.sessions);
  }

  lemma LogOf(s: State, conn: nat)
    requires Inv(s) && conn in s.conns
    ensures GoodLog(s.conns[conn]) && GoodLog(s.conns[conn].(phase := Gone))
    ensures InPhase(s, conn, Registering) ==> s.conns[conn].sent == []
  {
    hide IdsApart, MapIsActive, TagsAreOrigins;
  }

  lemma RegisterKeepsInv(s: State, conn: nat, written: bool)
    requires Inv(s) && InPhase(s, conn, Registering)
    ensures Inv(DoRegister(s, conn, written))
  {
    var c := s.conns[conn];
    LogOf(s, conn);
    hide Inv;
    if |s.sessions| >= s.max {
      ReplaceKeepsInv(s, conn, c.(phase := Gone, sent := if written then c.sent + [Busy(c.sid)] else c.sent));
    } else if !written {
      ReplaceKeepsInv(s, conn, c.(phase := Gone));
    } else {
      InsertKeepsInv(s, conn, c.(phase := InLoop, sent := c.sent + [Welcome(c.sid)]));
    }
  }

  /** A phase change without writing. */
  lemma EnterKeepsInv(s: State, conn: nat, phase: Phase)
    requires Inv(s) && conn in s.conns
    requires (InPhase(s, conn, Greeting) && (phase.Registering? || phase.Gone?)) || (InPhase(s, conn, InLoop) && phase.Leaving?)
    ensures Inv(Enter(s, conn, phase))
  {
    assert GoodLog(s.conns[conn].(phase := phase)) by {
      assert GoodLog(s.conns[conn]);
    }
    hide Inv, GoodLog;
    ReplaceKeepsInv(s, conn, s.conns[conn].(phase := phase));
  }

  lemma MessageKeepsInv(s: State, conn: nat, content: string)
    requires Inv(s) && conn in s.conns
    ensures Inv(s.(channel := s.channel + [Incoming(s.conns[conn].sid, content, conn)]))
  {
    hide GoodLog, Active, IdsApart, MapIsActive, GoodLogs;
  }

  lemma RemoveKeepsInv(s: State, conn: nat)
    requires Inv(s) && InPhase(s, conn, Leaving)
    ensures Inv(DoRemove(s, conn))
  {
    LogOf(s, conn);
    hide Inv, GoodLog;
    DropKeepsInv(s, conn, s.conns[conn].(phase := Gone));
  }

  lemma StepKeepsInv(s: State, step: Step)
    requires Inv(s)
    ensures Inv(Next(s, step))
  {
    hide Inv, Enter, Deliver, DoRegister, DoRemove, FreshId;
    match step {
      case Accept(conn, sid) =>
        if conn !in s.conns && FreshId(s, sid) {
          AcceptKeepsInv(s, conn, sid);
        }
      case Handshake(conn, isConnect) =>
        if InPhase(s, conn, Greeting) {
          EnterKeepsInv(s, conn, if isConnect then Registering else Gone);
        }
      case Register(conn, written) =>
        if InPhase(s, conn, Registering) {
          RegisterKeepsInv(s, conn, written);
        }
      case ClientMessage(conn, content, accepted) =>
        if InPhase(s, conn, InLoop) {
          if accepted {
            MessageKeepsInv(s, conn, content);
          } else {
            EnterKeepsInv(s, conn, Leaving);
          }
        }
      case ClientPing(conn, written) =>
        if InPhase(s, conn, InLoop) {
          DeliverKeepsInv(s, s.conns[conn].sid, Pong, written);
        }
      case ClientOther(_) =>
      case ClientLeaves(conn) =>
        if InPhase(s, conn, InLoop) {
          EnterKeepsInv(s, conn, Leaving);
        }
      case Remove(conn) =>
        if InPhase(s, conn, Leaving) {
          RemoveKeepsInv(s, conn);
        }
      case Respond(tag, content, written) =>
        DeliverKeepsInv(s, tag, Response(tag, content), written);
    }
  }

  lemma InitInv(max: nat)
    ensures Inv(Init(max))
  {
  }

  lemma NextKeepsMax(s: State, step: Step)
    ensures Next(s, step).max == s.max
  {
  }

  /** Over all interleavings: the map never exceeds its limit, holds a session exactly while its task
      is in the message loop up to removal, and every connection hears first a welcome or the busy
      notice and afterwards only frames of its own session. */
  lemma {:induction false} EveryRunKeepsInv(max: nat, steps: seq<Step>)
    ensures Inv(After(Init(max), steps)) && After(Init(max), steps).max == max
    decreases |steps|
  {
    hide Inv, Next;
    InitInv(max);
    if steps == [] {
      assert Init(max).max == max;
    } else {
      var n := |steps| - 1;
      EveryRunKeepsInv(max, steps[..n]);
      StepKeepsInv(After(Init(max), steps[..n]), steps[n]);
      NextKeepsMax(After(Init(max), steps[..n]), steps[n]);
    }
  }

  /** In any reachable state, answering a message of the channel writes to the connection the message
      came from, if that is still active, and to no other. */
  lemma ResponseReachesOnlyItsOrigin(max: nat, steps: seq<Step>, i: nat, content: string, written: bool, c: nat)
    requires i < |After(Init(max), steps).channel| && c in After(Init(max), steps).conns
    ensures OnlyOriginHears(After(Init(max), steps), i, content, written, c)
  {
    EveryRunKeepsInv(max, steps);
    hide After, Inv;
    DeliveredToOrigin(After(Init(max), steps), i, content, written, c);
  }

  ghost predicate OnlyOriginHears(s: State, i: nat, content: string, written: bool, c: nat)
    requires i < |s.channel| && c in s.conns
  {
    var m := s.channel[i];
    var t := Next(s, Respond(m.tag, content, written));
    && c in t.conns && t.conns[c].phase == s.conns[c].phase
    && t.conns[c].sent ==
       if c == m.origin && Active(s.conns[c]) && written then s.conns[c].sent + [Response(m.tag, content)]
       else s.conns[c].sent
  }

  lemma DeliveredToOrigin(s: State, i: nat, content: string, written: bool, c: nat)
    requires Inv(s) && i < |s.channel| && c in s.conns
    ensures OnlyOriginHears(s, i, content, written, c)
  {
    hide GoodLogs;
    var m := s.channel[i];
    assert m.origin in s.conns && s.conns[m.origin].sid == m.tag;
    assert m.tag in s.sessions <==> Active(s.conns[m.origin]);
    if m.tag in s.sessions {
      assert s.sessions[m.tag] == m.origin;
    }
  }

  ghost predicate FirstFrameTells(s: State, c: nat)
    requires c in s.conns
  {
    var sent := DoRegister(s, c, true).conns[c].sent;
    && |sent| == 1
    && sent[0] == if |s.sessions| == s.max then Busy(s.conns[c].sid) else Welcome(s.conns[c].sid)
  }

  /** The first frame a connection hears is the busy notice exactly when the map is full at that
      moment, and its welcome otherwise. */
  lemma RefusedIffFull(max: nat, steps: seq<Step>, c: nat)
    requires InPhase(After(Init(max), steps), c, Registering)
    ensures FirstFrameTells(After(Init(max), steps), c)
  {
    EveryRunKeepsInv(max, steps);
    hide After;
    var s := After(Init(max), steps);
    LogOf(s, c);
    assert |s.sessions| <= s.max;
  }
}
