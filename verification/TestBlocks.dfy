/** Which lines the panic checker takes for test code, told by brace balance and the patterns alone: no stack
    and no state that is carried from line to line. */
module TestBlocks {
  import opened Common
  import opened NoPanics

  // ---------- what a file says ----------

  /** An item that is announced (a test item by itself or not), a brace in code, or a line that ends in a
      semicolon and so calls off an announcement. */
  datatype Event = Item(test: bool) | Opening | Closing | CallOff

  function Stripped(p: Patterns, lines: seq<string>, n: nat): string
    requires n < |lines|
  {
    Strip(p, CodeOf(lines, n))
  }

  /** Lines that a test attribute reaches across: blank ones and attributes, if they start no item. */
  predicate Carries(p: Patterns, lines: seq<string>, n: nat)
    requires n < |lines|
  {
    p.item(CodeOf(lines, n)).None? && (Stripped(p, lines, n) == "" || "#[" <= Stripped(p, lines, n))
  }

  predicate HasAttribute(p: Patterns, lines: seq<string>, n: nat)
    requires n < |lines|
  {
    p.isTestAttribute(Stripped(p, lines, n))
  }

  /** A test attribute before line `n` reaches it. */
  ghost predicate AttributeBefore(p: Patterns, lines: seq<string>, n: nat)
    requires n <= |lines|
  {
    exists a :: 0 <= a < n && HasAttribute(p, lines, a) && forall j :: a <= j < n ==> Carries(p, lines, j)
  }

  /** The item that line `n` announces, if it does: a test item if it is a module named `tests` or a test
      attribute stands on its line or reaches it. */
  ghost function Announced(p: Patterns, lines: seq<string>, n: nat): seq<Event>
    requires n < |lines|
  {
    var item := p.item(CodeOf(lines, n));
    if item.None? then []
    else [Item(item.value || HasAttribute(p, lines, n) || AttributeBefore(p, lines, n))]
  }

  function BracesOf(code: string): seq<Event>
    decreases |code|
  {
    if code == "" then []
    else
      var c := code[|code| - 1];
      BracesOf(code[..|code| - 1]) + if c == '{' then [Opening] else if c == '}' then [Closing] else []
  }

  predicate EndsInSemicolon(s: string) {
    s != "" && s[|s| - 1] == ';'
  }

  ghost function LineEvents(p: Patterns, lines: seq<string>, n: nat): seq<Event>
    requires n < |lines|
  {
    Announced(p, lines, n) + BracesOf(CodeOf(lines, n)) +
    if EndsInSemicolon(Stripped(p, lines, n)) then [CallOff] else []
  }

  /** The events of the lines before line `n`. */
  ghost function Events(p: Patterns, lines: seq<string>, n: nat): seq<Event>
    requires n <= |lines|
  {
    if n == 0 then [] else Events(p, lines, n - 1) + LineEvents(p, lines, n - 1)
  }

  // ---------- test blocks ----------

  function Delta(e: Event): int {
    if e.Opening? then 1 else if e.Closing? then -1 else 0
  }

  /** Opening braces minus closing braces from place `i` up to place `j`. */
  function Balance(es: seq<Event>, i: nat, j: nat): int
    requires i <= j <= |es|
    decreases j
  {
    if i == j then 0 else Balance(es, i, j - 1) + Delta(es[j - 1])
  }

  /** The brace at place `i` has not been closed. */
  ghost predicate StillOpen(es: seq<Event>, i: nat)
    requires i < |es|
  {
    es[i].Opening? && forall j :: i < j <= |es| ==> Balance(es, i, j) > 0
  }

  /** An announcement at place `k` holds up to place `i`: no brace opens, no line calls it off and no other
      item is announced. */
  ghost predicate Holds(es: seq<Event>, k: nat, i: nat)
    requires i <= |es|
  {
    forall j :: k < j < i ==> es[j].Closing?
  }

  /** The item at place `k` is a test item: by itself, or because it is announced inside a test block. */
  ghost predicate AnnouncesTest(es: seq<Event>, k: nat)
    requires k < |es|
    decreases k, 1
  {
    es[k].Item? && (es[k].test || InTestBlock(es[..k]))
  }

  /** The brace at place `i` is that of a test item. */
  ghost predicate OpensTest(es: seq<Event>, i: nat)
    requires i < |es|
    decreases i, 1
  {
    es[i].Opening? && exists k :: 0 <= k < i && AnnouncesTest(es, k) && Holds(es, k, i)
  }

  /** The brace of a test item is still open. */
  ghost predicate InTestBlock(es: seq<Event>)
    decreases |es|, 0
  {
    exists i :: 0 <= i < |es| && OpensTest(es, i) && StillOpen(es, i)
  }

  /** A test item has been announced and its brace is still to come. */
  ghost predicate TestAnnounced(es: seq<Event>) {
    exists k :: 0 <= k < |es| && AnnouncesTest(es, k) && Holds(es, k, |es|)
  }

  /** Line `n` is test code: a test block is open at its start, or a test item has been announced, on the line
      or before it, whose brace is still to come. */
  ghost predicate Marked(p: Patterns, lines: seq<string>, n: nat)
    requires n < |lines|
  {
    InTestBlock(Events(p, lines, n)) || TestAnnounced(Events(p, lines, n) + Announced(p, lines, n))
  }

  // ---------- the checker's stack as a machine over events ----------

  datatype Marks = Marks(stack: seq<bool>, pending: Option<bool>)

  function Step(m: Marks, e: Event): Marks {
    match e
    case Item(test) => m.(pending := Some(test || Top(m.stack)))
    case Opening => Marks(m.stack + [if m.pending.Some? then m.pending.value else Top(m.stack)], None)
    case Closing => if m.stack == [] then m else m.(stack := m.stack[..|m.stack| - 1])
    case CallOff => m.(pending := None)
  }

  function Run(m: Marks, es: seq<Event>): Marks
    decreases |es|
  {
    if es == [] then m else Step(Run(m, es[..|es| - 1]), es[|es| - 1])
  }

  const START := Marks([], None)

  lemma {:induction false} RunAppend(m: Marks, a: seq<Event>, b: seq<Event>)
    ensures Run(m, a + b) == Run(Run(m, a), b)
    decreases |b|
  {
    if b == [] {
      assert a + b == a;
    } else {
      var n := |b| - 1;
      assert (a + b)[..|a| + n] == a + b[..n] && (a + b)[|a| + n] == b[n];
      RunAppend(m, a, b[..n]);
    }
  }

  lemma RunSnoc(m: Marks, es: seq<Event>, e: Event)
    ensures Run(m, es + [e]) == Step(Run(m, es), e)
  {
    assert (es + [e])[..|es|] == es;
  }

  // ---------- matching braces ----------

  /** The places of the braces that are still open. */
  function Opens(es: seq<Event>): seq<nat>
    decreases |es|
  {
    if es == [] then []
    else
      var n := |es| - 1;
      var r := Opens(es[..n]);
      if es[n].Opening? then r + [n] else if es[n].Closing? && r != [] then r[..|r| - 1] else r
  }

  lemma {:induction false} BalanceOfPrefix(es: seq<Event>, e: Event, i: nat, j: nat)
    requires i <= j <= |es|
    ensures Balance(es + [e], i, j) == Balance(es, i, j)
    decreases j
  {
    if i < j {
      BalanceOfPrefix(es, e, i, j - 1);
    }
  }

  lemma StillOpenStep(es: seq<Event>, e: Event, i: nat)
    requires i < |es|
    ensures StillOpen(es + [e], i) <==> StillOpen(es, i) && Balance(es, i, |es|) + Delta(e) > 0
  {
    var all := es + [e];
    forall j | i < j <= |es|
      ensures Balance(all, i, j) == Balance(es, i, j)
    {
      BalanceOfPrefix(es, e, i, j);
    }
    assert Balance(all, i, |all|) == Balance(es, i, |es|) + Delta(e);
  }

  lemma StillOpenLast(es: seq<Event>, e: Event)
    ensures StillOpen(es + [e], |es|) <==> e.Opening?
  {
    assert Balance(es + [e], |es|, |es| + 1) == Delta(e);
  }

  ghost predicate Matched(es: seq<Event>) {
    var r := Opens(es);
    && (forall d :: 0 <= d < |r| ==> r[d] < |es| && StillOpen(es, r[d]) && Balance(es, r[d], |es|) == |r| - d)
    && (forall i :: 0 <= i < |es| && StillOpen(es, i) ==> i in r)
  }

  lemma OpensSnoc(es: seq<Event>, e: Event)
    ensures var r := Opens(es);
            Opens(es + [e]) == if e.Opening? then r + [|es|] else if e.Closing? && r != [] then r[..|r| - 1] else r
  {
    assert (es + [e])[..|es|] == es;
  }

  lemma MatchedStep(es: seq<Event>, e: Event)
    requires Matched(es)
    ensures Matched(es + [e])
  {
    hide Opens, StillOpen;
    var r, all := Opens(es), es + [e];
    OpensSnoc(es, e);
    StillOpenLast(es, e);
    var q := Opens(all);
    assert Balance(all, |es|, |all|) == Delta(e);
    hide Balance;
    forall d | 0 <= d < |q|
      ensures q[d] < |all| && StillOpen(all, q[d]) && Balance(all, q[d], |all|) == |q| - d
    {
      if d < |r| {
        OpenPlaceStays(es, e, d);
      }
    }
    forall i | 0 <= i < |all| && StillOpen(all, i)
      ensures i in q
    {
      if i < |es| {
        StillOpenStep(es, e, i);
        var d :| 0 <= d < |r| && r[d] == i;
        assert d < |q| && q[d] == i;
      } else {
        assert q[|r|] == |es|;
      }
    }
  }

  lemma OpenPlaceStays(es: seq<Event>, e: Event, d: nat)
    requires Matched(es) && d < |Opens(es)| && Balance(es, Opens(es)[d], |es|) + Delta(e) > 0
    ensures var i := Opens(es)[d];
            StillOpen(es + [e], i) && Balance(es + [e], i, |es| + 1) == |Opens(es)| - d + Delta(e)
  {
    var i := Opens(es)[d];
    StillOpenStep(es, e, i);
    BalanceOfPrefix(es, e, i, |es|);
  }

  lemma {:induction false} BracesMatch(es: seq<Event>)
    ensures Matched(es)
    decreases |es|
  {
    if es != [] {
      var n := |es| - 1;
      BracesMatch(es[..n]);
      MatchedStep(es[..n], es[n]);
      assert es == es[..n] + [es[n]];
    }
  }

  // ---------- the stack holds what the events say ----------

  /** Some open brace up to the `d`-th is that of a test item. */
  ghost predicate TestUpTo(es: seq<Event>, at: seq<nat>, d: nat)
    requires forall x :: 0 <= x < |at| ==> at[x] < |es|
  {
    exists x :: 0 <= x <= d && x < |at| && OpensTest(es, at[x])
  }

  ghost predicate Agrees(es: seq<Event>, m: Marks) {
    && Matched(es) && |m.stack| == |Opens(es)|
    && (forall d :: 0 <= d < |m.stack| ==> (m.stack[d] <==> TestUpTo(es, Opens(es), d)))
    && (m.pending == Some(true) <==> TestAnnounced(es))
    && (m.pending == Some(false) ==> !Top(m.stack))
  }

  lemma TopIsInTestBlock(es: seq<Event>, m: Marks)
    requires Agrees(es, m)
    ensures Top(m.stack) <==> InTestBlock(es)
  {
    hide OpensTest, StillOpen;
    var r := Opens(es);
    if InTestBlock(es) {
      var i :| 0 <= i < |es| && OpensTest(es, i) && StillOpen(es, i);
      var d :| 0 <= d < |r| && r[d] == i;
      assert TestUpTo(es, r, |r| - 1);
    }
    if Top(m.stack) {
      assert TestUpTo(es, r, |r| - 1);
      var x :| 0 <= x <= |r| - 1 && x < |r| && OpensTest(es, r[x]);
      assert StillOpen(es, r[x]);
    }
  }

  /** What came before does not depend on what comes after. */
  lemma AnnouncesStays(es: seq<Event>, e: Event, k: nat)
    requires k < |es|
    ensures AnnouncesTest(es + [e], k) == AnnouncesTest(es, k)
  {
    assert (es + [e])[..k] == es[..k];
  }

  lemma HoldsStays(es: seq<Event>, e: Event, k: nat, i: nat)
    requires i <= |es|
    ensures Holds(es + [e], k, i) == Holds(es, k, i)
  {
    assert forall j :: 0 <= j < i ==> (es + [e])[j] == es[j];
  }

  lemma OpensTestStays(es: seq<Event>, e: Event, i: nat)
    requires i < |es|
    ensures OpensTest(es + [e], i) == OpensTest(es, i)
  {
    hide AnnouncesTest, Holds;
    forall k | 0 <= k < i
      ensures AnnouncesTest(es + [e], k) == AnnouncesTest(es, k) && Holds(es + [e], k, i) == Holds(es, k, i)
    {
      AnnouncesStays(es, e, k);
      HoldsStays(es, e, k, i);
    }
  }

  lemma OpensTestLast(es: seq<Event>)
    ensures OpensTest(es + [Opening], |es|) <==> TestAnnounced(es)
  {
    hide AnnouncesTest, Holds;
    var all := es + [Opening];
    assert all[|es|].Opening?;
    forall k | 0 <= k < |es|
      ensures AnnouncesTest(all, k) == AnnouncesTest(es, k) && Holds(all, k, |es|) == Holds(es, k, |es|)
    {
      AnnouncesStays(es, Opening, k);
      HoldsStays(es, Opening, k, |es|);
    }
  }

  /** How an announcement goes on. */
  lemma TestAnnouncedStep(es: seq<Event>, e: Event)
    ensures TestAnnounced(es + [e]) <==>
            if e.Item? then e.test || InTestBlock(es) else e.Closing? && TestAnnounced(es)
  {
    var all := es + [e];
    assert all[..|es|] == es;
    assert AnnouncesTest(all, |es|) <==> e.Item? && (e.test || InTestBlock(es));
    hide AnnouncesTest;
    forall k | 0 <= k < |es|
      ensures AnnouncesTest(all, k) == AnnouncesTest(es, k)
      ensures Holds(all, k, |all|) <==> Holds(es, k, |es|) && e.Closing?
    {
      AnnouncesStays(es, e, k);
      HoldsOn(es, e, k);
    }
    hide Holds;
    if e.Item? && (e.test || InTestBlock(es)) {
      HoldsAtOnce(all);
      assert AnnouncesTest(all, |es|);
    }
    if TestAnnounced(es) && e.Closing? {
      var k :| 0 <= k < |es| && AnnouncesTest(es, k) && Holds(es, k, |es|);
      assert AnnouncesTest(all, k);
    }
    if TestAnnounced(all) {
      var k :| 0 <= k < |all| && AnnouncesTest(all, k) && Holds(all, k, |all|);
      assert k < |es| ==> AnnouncesTest(es, k);
    }
  }

  lemma HoldsOn(es: seq<Event>, e: Event, k: nat)
    requires k < |es|
    ensures Holds(es + [e], k, |es| + 1) <==> Holds(es, k, |es|) && e.Closing?
  {
    var all := es + [e];
    assert all[|es|] == e;
    if Holds(all, k, |all|) {
      forall j | k < j < |es|
        ensures es[j].Closing?
      {
        assert all[j].Closing?;
      }
    }
  }

  lemma HoldsAtOnce(es: seq<Event>)
    requires es != []
    ensures Holds(es, |es| - 1, |es|)
  {
  }

  lemma StackStep(es: seq<Event>, m: Marks, e: Event)
    requires Agrees(es, m)
    ensures var s, q := Step(m, e).stack, Opens(es + [e]);
            && Matched(es + [e]) && |s| == |q|
            && forall d :: 0 <= d < |s| ==> (s[d] <==> TestUpTo(es + [e], q, d))
  {
    hide OpensTest, StillOpen, TestAnnounced, InTestBlock;
    var all, r := es + [e], Opens(es);
    MatchedStep(es, e);
    OpensSnoc(es, e);
    TopIsInTestBlock(es, m);
    var s, q := Step(m, e).stack, Opens(all);
    hide Opens;
    forall d | 0 <= d < |s|
      ensures s[d] <==> TestUpTo(all, q, d)
    {
      forall x | 0 <= x <= d && x < |r|
        ensures OpensTest(all, r[x]) == OpensTest(es, r[x])
      {
        OpensTestStays(es, e, r[x]);
      }
      if d < |r| {
        UpToStays(es, all, r, q, d);
      } else {
        OpensTestLast(es);
        NewTop(es, m, r, q);
      }
    }
  }

  lemma UpToStays(es: seq<Event>, all: seq<Event>, r: seq<nat>, q: seq<nat>, d: nat)
    requires (forall x :: 0 <= x < |r| ==> r[x] < |es|) && (forall x :: 0 <= x < |q| ==> q[x] < |all|)
    requires d < |r| && d < |q| && (forall x :: 0 <= x <= d ==> q[x] == r[x])
    requires forall x :: 0 <= x <= d ==> OpensTest(all, r[x]) == OpensTest(es, r[x])
    ensures TestUpTo(all, q, d) <==> TestUpTo(es, r, d)
  {
    hide OpensTest;
  }

  lemma NewTop(es: seq<Event>, m: Marks, r: seq<nat>, q: seq<nat>)
    requires Agrees(es, m) && r == Opens(es) && q == r + [|es|] && (forall x :: 0 <= x < |r| ==> r[x] < |es|)
    requires forall x :: 0 <= x < |r| ==> OpensTest(es + [Opening], r[x]) == OpensTest(es, r[x])
    requires OpensTest(es + [Opening], |es|) <==> TestAnnounced(es)
    ensures TestUpTo(es + [Opening], q, |r|) <==> if m.pending.Some? then m.pending.value else Top(m.stack)
  {
    hide OpensTest, TestAnnounced, Opens;
    var all := es + [Opening];
    assert Top(m.stack) <==> r != [] && TestUpTo(es, r, |r| - 1);
    if TestUpTo(all, q, |r|) {
      var x :| 0 <= x <= |r| && x < |q| && OpensTest(all, q[x]);
      assert x < |r| ==> OpensTest(es, r[x]);
    }
    if TestAnnounced(es) {
      assert OpensTest(all, q[|r|]);
    }
    if Top(m.stack) {
      var x :| 0 <= x <= |r| - 1 && x < |r| && OpensTest(es, r[x]);
      assert OpensTest(all, q[x]);
    }
  }

  lemma TopFalseAfterClosing(m: Marks, es: seq<Event>)
    requires Agrees(es, m) && m.stack != [] && !Top(m.stack)
    ensures !Top(m.stack[..|m.stack| - 1])
  {
    var n := |m.stack| - 1;
    if n > 0 {
      UpToGrows(es, Opens(es), n);
    }
    hide OpensTest, Opens;
  }

  lemma UpToGrows(es: seq<Event>, at: seq<nat>, d: nat)
    requires d > 0 && forall x :: 0 <= x < |at| ==> at[x] < |es|
    ensures TestUpTo(es, at, d - 1) ==> TestUpTo(es, at, d)
  {
    hide OpensTest;
  }

  lemma AgreesStep(es: seq<Event>, m: Marks, e: Event)
    requires Agrees(es, m)
    ensures Agrees(es + [e], Step(m, e))
  {
    StackStep(es, m, e);
    TestAnnouncedStep(es, e);
    TopIsInTestBlock(es, m);
    if m.stack != [] && !Top(m.stack) {
      TopFalseAfterClosing(m, es);
    }
    hide Opens, Matched, TestUpTo, TestAnnounced, InTestBlock;
  }

  lemma {:induction false} RunAgrees(es: seq<Event>)
    ensures Agrees(es, Run(START, es))
    decreases |es|
  {
    if es != [] {
      var n := |es| - 1;
      RunAgrees(es[..n]);
      hide Agrees, Step;
      AgreesStep(es[..n], Run(START, es[..n]), es[n]);
      assert es == es[..n] + [es[n]];
    }
  }

  // ---------- the tracker runs over the events ----------

  function MarksOf(t: Tracker): Marks {
    Marks(t.stack, t.pendingBlock)
  }

  lemma {:induction false} BracesRun(t: Tracker, code: string)
    ensures MarksOf(Braces(t, code)) == Run(MarksOf(t), BracesOf(code)) && Braces(t, code).pendingAttribute == t.pendingAttribute
    decreases |code|
  {
    if code != "" {
      var n := |code| - 1;
      BracesRun(t, code[..n]);
      var e := if code[n] == '{' then [Opening] else if code[n] == '}' then [Closing] else [];
      if e != [] {
        RunSnoc(MarksOf(t), BracesOf(code[..n]), e[0]);
      } else {
        assert BracesOf(code[..n]) + [] == BracesOf(code[..n]);
      }
    }
  }

  lemma AttributeStep(p: Patterns, lines: seq<string>, n: nat)
    requires n < |lines|
    ensures AttributeBefore(p, lines, n + 1) <==>
            Carries(p, lines, n) && (HasAttribute(p, lines, n) || AttributeBefore(p, lines, n))
  {
    hide Carries, HasAttribute;
    if AttributeBefore(p, lines, n) && Carries(p, lines, n) {
      var a :| 0 <= a < n && HasAttribute(p, lines, a) && forall j :: a <= j < n ==> Carries(p, lines, j);
      assert forall j :: a <= j < n + 1 ==> Carries(p, lines, j);
    }
    if HasAttribute(p, lines, n) && Carries(p, lines, n) {
      assert forall j :: n <= j < n + 1 ==> Carries(p, lines, j);
    }
    if AttributeBefore(p, lines, n + 1) {
      var a :| 0 <= a < n + 1 && HasAttribute(p, lines, a) && forall j :: a <= j < n + 1 ==> Carries(p, lines, j);
      assert a < n ==> forall j :: a <= j < n ==> Carries(p, lines, j);
    }
  }

  lemma AnnounceRuns(p: Patterns, lines: seq<string>, n: nat, t: Tracker)
    requires n < |lines| && (t.pendingAttribute <==> AttributeBefore(p, lines, n))
    ensures var u := Announce(p, t, CodeOf(lines, n));
            && MarksOf(u) == Run(MarksOf(t), Announced(p, lines, n))
            && (u.pendingAttribute <==> AttributeBefore(p, lines, n + 1))
  {
    hide CodeOf, AttributeBefore;
    AttributeStep(p, lines, n);
    var item := p.item(CodeOf(lines, n));
    if item.Some? {
      var e := Item(item.value || HasAttribute(p, lines, n) || AttributeBefore(p, lines, n));
      RunSnoc(MarksOf(t), [], e);
      assert [] + [e] == [e];
    }
  }

  lemma LineRuns(p: Patterns, lines: seq<string>, n: nat, t: Tracker)
    requires n < |lines| && (t.pendingAttribute <==> AttributeBefore(p, lines, n))
    ensures var u := OnLine(p, t, CodeOf(lines, n));
            && MarksOf(u) == Run(MarksOf(t), LineEvents(p, lines, n))
            && (u.pendingAttribute <==> AttributeBefore(p, lines, n + 1))
  {
    hide CodeOf, AttributeBefore, Announce, Announced, Braces, BracesOf, Run;
    var code := CodeOf(lines, n);
    var a, b := Announced(p, lines, n), BracesOf(code);
    var u := Announce(p, t, code);
    AnnounceRuns(p, lines, n, t);
    BracesRun(u, code);
    RunAppend(MarksOf(t), a, b);
    if EndsInSemicolon(Stripped(p, lines, n)) {
      RunSnoc(MarksOf(t), a + b, CallOff);
    } else {
      assert a + b + [] == a + b;
    }
  }

  lemma {:induction false} TrackerRuns(p: Patterns, lines: seq<string>, n: nat)
    requires n <= |lines|
    ensures var t := TrackerAt(p, lines, n);
            MarksOf(t) == Run(START, Events(p, lines, n)) && (t.pendingAttribute <==> AttributeBefore(p, lines, n))
  {
    hide CodeOf, OnLine, AttributeBefore, Run, LineEvents, TrackerAt, LexerAt, Mask;
    if n == 0 {
      TrackerStarts(p, lines);
    } else {
      TrackerRuns(p, lines, n - 1);
      LineStep(p, lines, n - 1);
      LineRuns(p, lines, n - 1, TrackerAt(p, lines, n - 1));
      RunAppend(START, Events(p, lines, n - 1), LineEvents(p, lines, n - 1));
    }
  }

  lemma TrackerStarts(p: Patterns, lines: seq<string>)
    ensures TrackerAt(p, lines, 0) == TOP_LEVEL && Run(START, []) == START && !AttributeBefore(p, lines, 0)
  {
  }

  /** The checker marks exactly the lines that are test code by brace balance and the patterns. */
  lemma MarkedIffTestCode(p: Patterns, lines: seq<string>, n: nat)
    requires n < |lines|
    ensures IsTestLine(p, TrackerAt(p, lines, n), CodeOf(lines, n)) <==> Marked(p, lines, n)
  {
    hide TrackerAt, CodeOf, Events, Announced, AttributeBefore, Run, Announce, InTestBlock, TestAnnounced;
    var t, es := TrackerAt(p, lines, n), Events(p, lines, n);
    TrackerRuns(p, lines, n);
    AnnounceRuns(p, lines, n, t);
    RunAppend(START, es, Announced(p, lines, n));
    RunAgrees(es);
    TopIsInTestBlock(es, MarksOf(t));
    RunAgrees(es + Announced(p, lines, n));
  }
}
