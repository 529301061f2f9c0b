/** What the REPL server does for one client: the life of its connection, and its messages and answers. */
module ReplSessions {
  import opened ReplServer

  /** While a connection is in its message loop, a message it sends reaches the agent with its content and
      its own session id, a ping is answered to it, and it leaves when the agent is gone; nothing else
      changes. */
  lemma SessionIsServed(max: nat, steps: seq<Step>, c: nat, content: string)
    requires InPhase(After(Init(max), steps), c, InLoop)
    ensures var s := After(Init(max), steps);
            var x := s.conns[c];
            && Next(s, ClientMessage(c, content, true)) == s.(channel := s.channel + [Incoming(x.sid, content, c)])
            && Next(s, ClientMessage(c, content, false)) == s.(conns := s.conns[c := x.(phase := Leaving)])
            && Next(s, ClientPing(c, true)) == s.(conns := s.conns[c := x.(sent := x.sent + [Pong])])
  {
    EveryRunKeepsInv(max, steps);
    hide After;
    var s := After(Init(max), steps);
    assert Active(s.conns[c]);
    assert s.conns[c].sid in s.sessions && s.sessions[s.conns[c].sid] == c;
  }

  /** So the answer to a message comes back to the client that sent it. */
  lemma MessageIsAnswered(max: nat, steps: seq<Step>, c: nat, question: string, answer: string)
    requires InPhase(After(Init(max), steps), c, InLoop)
    ensures var s := After(Init(max), steps);
            var asked := Next(s, ClientMessage(c, question, true));
            var m := asked.channel[|asked.channel| - 1];
            && m.content == question
            && Next(asked, Respond(m.tag, answer, true)).conns[c].sent == s.conns[c].sent + [Response(s.conns[c].sid, answer)]
  {
    EveryRunKeepsInv(max, steps);
    hide After;
    var s := After(Init(max), steps);
    assert Active(s.conns[c]);
    assert s.conns[c].sid in s.sessions && s.sessions[s.conns[c].sid] == c;
  }

  /** Only a client that began with a Connect message gets that far. */
  lemma {:induction false} ConnectComesFirst(max: nat, steps: seq<Step>, c: nat)
    requires c in After(Init(max), steps).conns
    requires InPhase(After(Init(max), steps), c, Registering) || Active(After(Init(max), steps).conns[c])
    ensures Handshake(c, true) in steps
    decreases |steps|
  {
    var n := |steps| - 1;
    var s := After(Init(max), steps[..n]);
    if c in s.conns && (InPhase(s, c, Registering) || Active(s.conns[c])) {
      ConnectComesFirst(max, steps[..n], c);
    } else {
      assert steps[n] == Handshake(c, true);
    }
  }

  /** The life of a connection in any state with a free place: accepted and greeted with Connect it is welcomed
      into the map, and when it leaves it is removed; other connections and sessions are not touched. */
  lemma ConnectionLivesAndLeaves(s: State, c: nat, sid: string)
    requires Inv(s) && c !in s.conns && FreshId(s, sid) && |s.sessions| < s.max
    ensures var joined := After(s, [Accept(c, sid), Handshake(c, true), Register(c, true)]);
            var left := After(joined, [ClientLeaves(c), Remove(c)]);
            && joined == s.(conns := s.conns[c := Conn(sid, InLoop, [Welcome(sid)])], sessions := s.sessions[sid := c])
            && left == s.(conns := s.conns[c := Conn(sid, Gone, [Welcome(sid)])])
  {
    var joined := After(s, [Accept(c, sid), Handshake(c, true), Register(c, true)]);
    Three(s, Accept(c, sid), Handshake(c, true), Register(c, true));
    Two(joined, ClientLeaves(c), Remove(c));
    NoSession(s, sid);
    hide After, Inv;
    var a := With(s, c, Conn(sid, Greeting, []));
    assert Next(s, Accept(c, sid)) == a;
    hide FreshId;
    var b := With(s, c, Conn(sid, Registering, []));
    PhaseStep(s, a, Handshake(c, true), c, a.conns[c], Registering);
    JoinStep(s, b, c, sid);
    var welcomed := s.(sessions := s.sessions[sid := c]);
    var x := Conn(sid, InLoop, [Welcome(sid)]);
    PhaseStep(welcomed, joined, ClientLeaves(c), c, x, Leaving);
    LeaveStep(s, With(welcomed, c, x.(phase := Leaving)), c, x.(phase := Leaving));
  }

  function With(s: State, c: nat, x: Conn): State {
    s.(conns := s.conns[c := x])
  }

  lemma PhaseStep(s: State, u: State, step: Step, c: nat, x: Conn, phase: Phase)
    requires u == With(s, c, x)
    requires (step == Handshake(c, true) && x.phase.Greeting? && phase.Registering?) ||
             (step == ClientLeaves(c) && x.phase.InLoop? && phase.Leaving?)
    ensures Next(u, step) == With(s, c, x.(phase := phase))
  {
    assert u.conns[c := x.(phase := phase)] == s.conns[c := x.(phase := phase)];
  }

  lemma JoinStep(s: State, u: State, c: nat, sid: string)
    requires u == With(s, c, Conn(sid, Registering, [])) && |s.sessions| < s.max
    ensures Next(u, Register(c, true)) == With(s.(sessions := s.sessions[sid := c]), c, Conn(sid, InLoop, [Welcome(sid)]))
  {
    var x := Conn(sid, InLoop, [] + [Welcome(sid)]);
    assert [] + [Welcome(sid)] == [Welcome(sid)];
    assert u.conns[c := x] == s.conns[c := x];
  }

  lemma LeaveStep(s: State, u: State, c: nat, x: Conn)
    requires x.phase.Leaving? && x.sid !in s.sessions && u == With(s.(sessions := s.sessions[x.sid := c]), c, x)
    ensures Next(u, Remove(c)) == With(s, c, x.(phase := Gone))
  {
    assert u.conns[c := x.(phase := Gone)] == s.conns[c := x.(phase := Gone)];
    assert s.sessions[x.sid := c] - {x.sid} == s.sessions;
  }

  lemma NoSession(s: State, sid: string)
    requires Inv(s) && FreshId(s, sid)
    ensures sid !in s.sessions
  {
  }

  lemma Two(s: State, a: Step, b: Step)
    ensures After(s, [a, b]) == Next(Next(s, a), b)
  {
    hide Next;
    assert [a, b][..1] == [a] && [a][..0] == [];
    assert After(s, [a]) == Next(s, a);
  }

  lemma Three(s: State, a: Step, b: Step, c: Step)
    ensures After(s, [a, b, c]) == Next(Next(Next(s, a), b), c)
  {
    hide Next;
    assert [a, b, c][..2] == [a, b];
    Two(s, a, b);
  }
}
