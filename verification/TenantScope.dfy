/** Tenant isolation by ownership checks. An id-checked operation first fetches the row and compares
    its owner with the tenant, and acts on the id in a later step, so that other tenants may run in
    between. Row ids are random, so no id is ever created twice, and updates leave the owner column
    alone (ic/src/history/store.rs:1224-1277). */
module TenantScope {
  import opened Common

  type User = string

  type Id = nat

  datatype Row = Row(owner: User, payload: string)

  datatype Op = Get | Update(payload: string) | Delete | Read

  datatype Answer = NotFound | Found(payload: string) | Updated | Deleted(existed: bool) | Contents(found: Option<string>)

  datatype Entry = Entry(user: User, task: nat, answer: Answer)

  datatype Pending = Pending(id: Id, op: Op)

  /** `owners` remembers the owner of every id ever created. */
  datatype Db = Db(rows: map<Id, Row>, owners: map<Id, User>, pending: map<(User, nat), Pending>, log: seq<Entry>)

  /** A step of a tenant: insert a row, run the ownership check of an operation, or act after it. */
  datatype Step =
    | Create(user: User, id: Id, row: Row)
    | Check(user: User, task: nat, id: Id, op: Op)
    | Act(user: User, task: nat)

  const EMPTY := Db(map[], map[], map[], [])

  function Answered(db: Db, user: User, task: nat, a: Answer): Db {
    db.(log := db.log + [Entry(user, task, a)])
  }

  /** The check: the row must exist and belong to the tenant; a plain fetch is answered at once. */
  function DoCheck(db: Db, user: User, task: nat, id: Id, op: Op): Db {
    if !(id in db.rows && db.rows[id].owner == user) then Answered(db, user, task, NotFound)
    else if op.Get? then Answered(db, user, task, Found(db.rows[id].payload))
    else db.(pending := db.pending[(user, task) := Pending(id, op)])
  }

  /** The action on an id, without looking at the owner again. */
  function DoAct(db: Db, user: User, task: nat, p: Pending): Db {
    var d := db.(pending := db.pending - {(user, task)});
    match p.op
    case Update(payload) =>
      var rows := if p.id in db.rows then db.rows[p.id := db.rows[p.id].(payload := payload)] else db.rows;
      Answered(d.(rows := rows), user, task, Updated)
    case Delete => Answered(d.(rows := db.rows - {p.id}), user, task, Deleted(p.id in db.rows))
    case _ => Answered(d, user, task, Contents(if p.id in db.rows then Some(db.rows[p.id].payload) else None))
  }

  function Next(db: Db, step: Step): Db {
    match step
    case Create(_, id, row) =>
      if id in db.owners then db
      else db.(rows := db.rows[id := row], owners := db.owners[id := row.owner])
    case Check(user, task, id, op) =>
      if (user, task) in db.pending then db else DoCheck(db, user, task, id, op)
    case Act(user, task) =>
      if (user, task) in db.pending then DoAct(db, user, task, db.pending[(user, task)]) else db
  }

  function After(run: seq<Step>): Db
    decreases |run|
  {
    if run == [] then EMPTY else Next(After(run[..|run| - 1]), run[|run| - 1])
  }

  /** The run with the steps of all other tenants removed. */
  function Only(run: seq<Step>, user: User): seq<Step>
    decreases |run|
  {
    if run == [] then []
    else
      var r := Only(run[..|run| - 1], user);
      if run[|run| - 1].user == user then r + [run[|run| - 1]] else r
  }

  function LogOf(log: seq<Entry>, user: User): seq<Entry>
    decreases |log|
  {
    if log == [] then []
    else
      var r := LogOf(log[..|log| - 1], user);
      if log[|log| - 1].user == user then r + [log[|log| - 1]] else r
  }

  /** The step creates a row in the name of `user`, who does not take it. */
  predicate Forges(step: Step, user: User) {
    step.Create? && step.user != user && step.row.owner == user
  }

  /** Nobody else creates a row in the tenant's name. */
  ghost predicate Unforged(run: seq<Step>, user: User) {
    forall i :: 0 <= i < |run| ==> !Forges(run[i], user)
  }

  /** No id is created twice. */
  ghost predicate FreshIds(run: seq<Step>) {
    forall i, j :: 0 <= i < j < |run| && run[i].Create? && run[j].Create? ==> run[i].id != run[j].id
  }

  // ---------- no operation touches another tenant's row ----------

  ghost predicate RowsOwned(db: Db) {
    forall id :: id in db.rows ==> id in db.owners && db.owners[id] == db.rows[id].owner
  }

  ghost predicate PendingOwned(db: Db) {
    forall k :: k in db.pending ==> db.pending[k].id in db.owners && db.owners[db.pending[k].id] == k.0
  }

  ghost predicate Inv(db: Db) {
    RowsOwned(db) && PendingOwned(db)
  }

  lemma StepKeepsInv(db: Db, step: Step)
    requires Inv(db)
    ensures Inv(Next(db, step))
  {
  }

  lemma {:induction false} EveryRunKeepsInv(run: seq<Step>)
    ensures Inv(After(run))
    decreases |run|
  {
    if run != [] {
      EveryRunKeepsInv(run[..|run| - 1]);
      StepKeepsInv(After(run[..|run| - 1]), run[|run| - 1]);
    }
  }

  /** In every run a tenant's step leaves each row of another tenant as it was, although the check and
      the action are separate steps. */
  lemma StepSparesOthers(run: seq<Step>, step: Step, id: Id)
    requires id in After(run).rows && After(run).rows[id].owner != step.user
    ensures id in Next(After(run), step).rows && Next(After(run), step).rows[id] == After(run).rows[id]
  {
    EveryRunKeepsInv(run);
  }

  // ---------- non-interference ----------

  function RowOf(db: Db, id: Id, user: User): Option<string> {
    if id in db.rows && db.rows[id].owner == user then Some(db.rows[id].payload) else None
  }

  /** Both databases look alike to the tenant. */
  ghost predicate SameRows(a: Db, b: Db, user: User) {
    forall id :: RowOf(a, id, user) == RowOf(b, id, user)
  }

  ghost predicate SamePending(a: Db, b: Db, user: User) {
    forall t: nat :: ((user, t) in a.pending <==> (user, t) in b.pending) &&
                     ((user, t) in a.pending ==> a.pending[(user, t)] == b.pending[(user, t)])
  }

  ghost predicate Alike(a: Db, b: Db, user: User) {
    SameRows(a, b, user) && SamePending(a, b, user) && LogOf(a.log, user) == LogOf(b.log, user)
  }

  lemma LogSnoc(log: seq<Entry>, e: Entry, user: User)
    ensures LogOf(log + [e], user) == LogOf(log, user) + if e.user == user then [e] else []
  {
    assert (log + [e])[..|log|] == log;
  }

  lemma OtherStepKeepsRow(a: Db, user: User, step: Step, id: Id)
    requires Inv(a) && step.user != user && (step.Create? ==> step.row.owner != user)
    ensures RowOf(Next(a, step), id, user) == RowOf(a, id, user)
  {
  }

  lemma OtherStepKeepsPending(a: Db, user: User, step: Step)
    requires step.user != user
    ensures SamePending(Next(a, step), a, user)
  {
  }

  lemma OtherStepKeepsLog(a: Db, user: User, step: Step)
    requires step.user != user
    ensures LogOf(Next(a, step).log, user) == LogOf(a.log, user)
  {
    var c := Next(a, step);
    assert c.log == a.log || (|c.log| == |a.log| + 1 && c.log == a.log + [c.log[|a.log|]] && c.log[|a.log|].user == step.user);
    hide Next;
    if c.log != a.log {
      LogSnoc(a.log, c.log[|a.log|], user);
    }
  }

  /** Another tenant's step is invisible, unless it creates a row in the tenant's name. */
  lemma OthersAreInvisible(a: Db, b: Db, user: User, step: Step)
    requires Inv(a) && Alike(a, b, user) && step.user != user
    requires step.Create? ==> step.row.owner != user
    ensures Alike(Next(a, step), b, user)
  {
    hide Next, RowOf, LogOf, Inv;
    var c := Next(a, step);
    forall id
      ensures RowOf(c, id, user) == RowOf(b, id, user)
    {
      OtherStepKeepsRow(a, user, step, id);
      assert RowOf(a, id, user) == RowOf(b, id, user);
    }
    OtherStepKeepsPending(a, user, step);
    OtherStepKeepsLog(a, user, step);
  }

  /** And only then: a step of another tenant, which inserts under a fresh id if it inserts at all, is
      invisible exactly if it forges no row. */
  lemma InvisibleIffNotForged(a: Db, user: User, step: Step)
    requires Inv(a) && step.user != user && (step.Create? ==> step.id !in a.owners)
    ensures Alike(Next(a, step), a, user) <==> !Forges(step, user)
  {
    if Forges(step, user) {
      assert RowOf(Next(a, step), step.id, user).Some? && RowOf(a, step.id, user).None?;
    } else {
      OthersAreInvisible(a, a, user, step);
    }
  }

  /** The tenant's own step answers alike in both. */
  lemma OwnStepIsAlike(a: Db, b: Db, user: User, step: Step)
    requires Inv(a) && Inv(b) && Alike(a, b, user) && step.user == user
    requires step.Create? ==> step.id !in a.owners && step.id !in b.owners
    ensures Alike(Next(a, step), Next(b, step), user)
  {
    match step {
      case Create(_, id, row) =>
        CreateAlike(a, b, user, id, row);
      case Check(_, task, id, op) =>
        CheckAlike(a, b, user, task, id, op);
      case Act(_, task) =>
        if (user, task) in a.pending {
          ActAlike(a, b, user, task);
        }
    }
  }

  lemma CreateAlike(a: Db, b: Db, user: User, id: Id, row: Row)
    requires Alike(a, b, user) && id !in a.owners && id !in b.owners && Inv(a) && Inv(b)
    ensures Alike(Next(a, Create(user, id, row)), Next(b, Create(user, id, row)), user)
  {
    var c, d := Next(a, Create(user, id, row)), Next(b, Create(user, id, row));
    forall i
      ensures RowOf(c, i, user) == RowOf(d, i, user)
    {
      assert RowOf(a, i, user) == RowOf(b, i, user);
    }
  }

  lemma CheckAlike(a: Db, b: Db, user: User, task: nat, id: Id, op: Op)
    requires Alike(a, b, user)
    ensures Alike(Next(a, Check(user, task, id, op)), Next(b, Check(user, task, id, op)), user)
  {
    assert RowOf(a, id, user) == RowOf(b, id, user);
    var r := RowOf(a, id, user);
    var e := Entry(user, task, if r.None? then NotFound else Found(r.value));
    LogSnoc(a.log, e, user);
    LogSnoc(b.log, e, user);
    var c, d := Next(a, Check(user, task, id, op)), Next(b, Check(user, task, id, op));
    assert SameRows(c, d, user) by {
      forall i
        ensures RowOf(c, i, user) == RowOf(d, i, user)
      {
        assert RowOf(a, i, user) == RowOf(b, i, user);
      }
    }
    assert SamePending(c, d, user);
  }

  /** The row an operation acts on is the tenant's, or gone. */
  lemma TargetIsOwn(a: Db, user: User, task: nat)
    requires Inv(a) && (user, task) in a.pending
    ensures var id := a.pending[(user, task)].id;
            id in a.rows ==> a.rows[id].owner == user
  {
  }

  lemma ActRow(a: Db, user: User, task: nat, p: Pending, i: Id)
    requires p.id in a.rows ==> a.rows[p.id].owner == user
    ensures RowOf(DoAct(a, user, task, p), i, user) ==
            if i != p.id || RowOf(a, i, user).None? then RowOf(a, i, user)
            else if p.op.Update? then Some(p.op.payload) else if p.op.Delete? then None else RowOf(a, i, user)
  {
  }

  function ActAnswer(op: Op, row: Option<string>): Answer {
    match op
    case Update(_) => Updated
    case Delete => Deleted(row.Some?)
    case _ => Contents(row)
  }

  lemma ActLog(a: Db, user: User, task: nat, p: Pending)
    requires p.id in a.rows ==> a.rows[p.id].owner == user
    ensures DoAct(a, user, task, p).log == a.log + [Entry(user, task, ActAnswer(p.op, RowOf(a, p.id, user)))]
    ensures DoAct(a, user, task, p).pending == a.pending - {(user, task)}
  {
  }

  lemma ActAlike(a: Db, b: Db, user: User, task: nat)
    requires Inv(a) && Inv(b) && Alike(a, b, user) && (user, task) in a.pending
    ensures Alike(Next(a, Act(user, task)), Next(b, Act(user, task)), user)
  {
    var p := a.pending[(user, task)];
    assert (user, task) in b.pending && b.pending[(user, task)] == p;
    TargetIsOwn(a, user, task);
    TargetIsOwn(b, user, task);
    var c, d := DoAct(a, user, task, p), DoAct(b, user, task, p);
    ActLog(a, user, task, p);
    ActLog(b, user, task, p);
    hide DoAct, RowOf, Inv, LogOf;
    forall i
      ensures RowOf(c, i, user) == RowOf(d, i, user)
    {
      ActRow(a, user, task, p, i);
      ActRow(b, user, task, p, i);
      assert RowOf(a, i, user) == RowOf(b, i, user);
    }
    assert SamePending(c, d, user);
    assert RowOf(a, p.id, user) == RowOf(b, p.id, user);
    var e := Entry(user, task, ActAnswer(p.op, RowOf(a, p.id, user)));
    LogSnoc(a.log, e, user);
    LogSnoc(b.log, e, user);
  }

  /** Ids in use were created by a step of the run. */
  lemma {:induction false} OwnersWereCreated(run: seq<Step>, id: Id)
    requires id in After(run).owners
    ensures exists i :: 0 <= i < |run| && run[i].Create? && run[i].id == id
    decreases |run|
  {
    var n := |run| - 1;
    if id in After(run[..n]).owners {
      OwnersWereCreated(run[..n], id);
      var i :| 0 <= i < n && run[..n][i].Create? && run[..n][i].id == id;
      assert run[i].Create?;
    } else {
      assert run[n].Create? && run[n].id == id;
    }
  }

  lemma {:induction false} OnlyComesFromRun(run: seq<Step>, user: User, j: nat)
    requires j < |Only(run, user)|
    ensures Only(run, user)[j] in run
    decreases |run|
  {
    var n := |run| - 1;
    if j < |Only(run[..n], user)| {
      OnlyComesFromRun(run[..n], user, j);
    }
  }

  /** What a tenant sees in a run, every answer included, is what it sees when all other tenants'
      steps are removed. */
  lemma {:induction false} NonInterference(run: seq<Step>, user: User)
    requires Unforged(run, user) && FreshIds(run)
    ensures Alike(After(run), After(Only(run, user)), user)
    decreases |run|
  {
    if run != [] {
      var n := |run| - 1;
      var init, step := run[..n], run[n];
      NonInterference(init, user);
      EveryRunKeepsInv(init);
      EveryRunKeepsInv(Only(init, user));
      if step.user != user {
        OthersAreInvisible(After(init), After(Only(init, user)), user, step);
      } else {
        if step.Create? {
          FreshInBoth(run, user);
        }
        OwnStepIsAlike(After(init), After(Only(init, user)), user, step);
        var r := Only(init, user);
        assert (r + [step])[..|r|] == r;
      }
    }
  }

  lemma FreshInBoth(run: seq<Step>, user: User)
    requires run != [] && run[|run| - 1].Create? && FreshIds(run)
    ensures var n := |run| - 1;
            run[n].id !in After(run[..n]).owners && run[n].id !in After(Only(run[..n], user)).owners
  {
    var n := |run| - 1;
    var id := run[n].id;
    if id in After(run[..n]).owners {
      OwnersWereCreated(run[..n], id);
    }
    if id in After(Only(run[..n], user)).owners {
      OwnersWereCreated(Only(run[..n], user), id);
      var r := Only(run[..n], user);
      var i :| 0 <= i < |r| && r[i].Create? && r[i].id == id;
      OnlyComesFromRun(run[..n], user, i);
    }
  }

  lemma AfterTwo(a: Step, b: Step)
    ensures After([b]) == Next(EMPTY, b) && After([a, b]) == Next(Next(EMPTY, a), b)
  {
    assert [a, b][..1] == [a] && [a][..0] == [] && [b][..0] == [];
    hide Next;
    assert After([a]) == Next(EMPTY, a);
  }

  lemma OnlyTheSecond(a: Step, b: Step)
    requires a.user != b.user
    ensures Only([a, b], b.user) == [b]
  {
    assert [a, b][..1] == [a] && [a][..0] == [];
    assert Only([a], b.user) == [];
  }

  /** A run with a forged row: creation checks the owner only in debug builds, and the row shows in the
      answers of the tenant in whose name it was made. */
  lemma ForgedRowIsVisible(victim: User, forger: User, id: Id, payload: string)
    requires victim != forger
    ensures var run := [Create(forger, id, Row(victim, payload)), Check(victim, 0, id, Get)];
            && FreshIds(run)
            && After(run).log == [Entry(victim, 0, Found(payload))]
            && After(Only(run, victim)).log == [Entry(victim, 0, NotFound)]
  {
    hide After, Only;
    var a, b := Create(forger, id, Row(victim, payload)), Check(victim, 0, id, Get);
    AfterTwo(a, b);
    OnlyTheSecond(a, b);
    assert Next(EMPTY, b).log == [Entry(victim, 0, NotFound)];
    assert Next(Next(EMPTY, a), b).log == [Entry(victim, 0, Found(payload))];
  }

  // ---------- the exact condition ----------

  /** `more` continues the run with steps of the tenant alone. */
  ghost predicate Continues(run: seq<Step>, more: seq<Step>, user: User) {
    (forall i :: 0 <= i < |more| ==> more[i].user == user) && FreshIds(run + more)
  }

  /** The tenant's answers are those it would get without the other tenants' steps. */
  ghost predicate SameAnswers(run: seq<Step>, more: seq<Step>, user: User) {
    LogOf(After(run + more).log, user) == LogOf(After(Only(run, user) + more).log, user)
  }

  lemma {:induction false} OnlyAppend(run: seq<Step>, more: seq<Step>, user: User)
    requires forall i :: 0 <= i < |more| ==> more[i].user == user
    ensures Only(run + more, user) == Only(run, user) + more
    decreases |more|
  {
    if more == [] {
      assert run + more == run;
    } else {
      var n := |more| - 1;
      assert (run + more)[..|run| + n] == run + more[..n];
      OnlyAppend(run, more[..n], user);
    }
  }

  /** The tenant has a row that the other database never had and that no operation of its has touched. */
  ghost predicate Extra(a: Db, b: Db, user: User, id: Id) {
    RowOf(a, id, user).Some? && id !in b.owners && forall t: nat :: (user, t) in a.pending ==> a.pending[(user, t)].id != id
  }

  /** The databases look alike to the tenant, but for extra rows in the first. */
  ghost predicate AlikeButExtras(a: Db, b: Db, user: User) {
    && SamePending(a, b, user) && LogOf(a.log, user) == LogOf(b.log, user)
    && forall id :: RowOf(a, id, user) == RowOf(b, id, user) || Extra(a, b, user, id)
  }

  /** The tenant's logs have parted for good: the second has a refusal at place `k` where the first has
      something else, or will have, because that task's operation is under way. */
  ghost predicate Parted(a: Db, b: Db, user: User, k: nat, task: nat) {
    var l, m := LogOf(a.log, user), LogOf(b.log, user);
    && k < |m| && m[k] == Entry(user, task, NotFound)
    && if k < |l| then l[k] != m[k] else k == |l| && (user, task) in a.pending
  }

  /** What an own step can add to the tenant's log. */
  lemma OwnStepLog(a: Db, user: User, step: Step)
    requires step.user == user
    ensures var l, l' := LogOf(a.log, user), LogOf(Next(a, step).log, user);
            l' == l || exists e :: l' == l + [e] && (e.answer.NotFound? ==> step.Check?) &&
                                   !step.Create? && e.user == user && e.task == step.task
  {
    var c := Next(a, step);
    assert c.log == a.log || (|c.log| == |a.log| + 1 && c.log == a.log + [c.log[|a.log|]] && !step.Create? &&
                              c.log[|a.log|].user == user && c.log[|a.log|].task == step.task &&
                              (c.log[|a.log|].answer.NotFound? ==> step.Check?));
    hide Next;
    if c.log != a.log {
      LogSnoc(a.log, c.log[|a.log|], user);
    }
  }

  lemma BusyTaskWaits(a: Db, user: User, step: Step, task: nat)
    requires (user, task) in a.pending && step != Act(user, task)
    ensures (user, task) in Next(a, step).pending
    ensures step.Check? && step.user == user && step.task == task ==> Next(a, step) == a
  {
  }

  lemma OwnStepKeepsParted(a: Db, b: Db, user: User, step: Step, k: nat, task: nat)
    requires Parted(a, b, user, k, task) && step.user == user
    ensures Parted(Next(a, step), Next(b, step), user, k, task)
  {
    OwnStepLog(a, user, step);
    OwnStepLog(b, user, step);
    if (user, task) in a.pending && step != Act(user, task) {
      BusyTaskWaits(a, user, step, task);
    }
    hide Next, LogOf;
  }

  lemma OtherStepKeepsParted(a: Db, b: Db, user: User, step: Step, k: nat, task: nat)
    requires Parted(a, b, user, k, task) && step.user != user
    ensures Parted(Next(a, step), b, user, k, task)
  {
    OtherStepKeepsLog(a, user, step);
    OtherStepKeepsPending(a, user, step);
    hide Next, LogOf;
  }

  lemma OtherStepKeepsExtras(a: Db, b: Db, user: User, step: Step)
    requires Inv(a) && AlikeButExtras(a, b, user) && step.user != user
    requires step.Create? ==> step.id !in a.owners && step.id !in b.owners
    ensures AlikeButExtras(Next(a, step), b, user)
    ensures forall id :: Extra(a, b, user, id) ==> Extra(Next(a, step), b, user, id)
    ensures Forges(step, user) ==> Extra(Next(a, step), b, user, step.id)
  {
    hide Next, RowOf, LogOf, Inv;
    OtherStepKeepsPending(a, user, step);
    OtherStepKeepsLog(a, user, step);
    var c := Next(a, step);
    forall id
      ensures Extra(a, b, user, id) ==> Extra(c, b, user, id)
      ensures RowOf(c, id, user) == RowOf(b, id, user) || Extra(c, b, user, id)
    {
      if Forges(step, user) {
        ForgedRowIsExtra(a, b, user, step, id);
      } else {
        OtherStepKeepsRow(a, user, step, id);
      }
    }
    if Forges(step, user) {
      ForgedRowIsExtra(a, b, user, step, step.id);
    }
  }

  lemma ForgedRowIsExtra(a: Db, b: Db, user: User, step: Step, id: Id)
    requires Inv(a) && Forges(step, user) && step.id !in a.owners && step.id !in b.owners
    ensures var c := Next(a, step);
            if id == step.id then Extra(c, b, user, id) else RowOf(c, id, user) == RowOf(a, id, user)
  {
  }

  lemma OwnStepKeepsExtras(a: Db, b: Db, user: User, step: Step)
    requires Inv(a) && Inv(b) && AlikeButExtras(a, b, user) && step.user == user
    requires step.Create? ==> step.id !in a.owners && step.id !in b.owners
    requires step.Check? && (user, step.task) !in a.pending ==> !Extra(a, b, user, step.id)
    ensures AlikeButExtras(Next(a, step), Next(b, step), user)
    ensures forall id :: Extra(a, b, user, id) ==> Extra(Next(a, step), Next(b, step), user, id)
  {
    match step {
      case Create(_, id, row) => OwnCreateExtras(a, b, user, id, row);
      case Check(_, task, id, op) => OwnCheckExtras(a, b, user, task, id, op);
      case Act(_, task) =>
        if (user, task) in a.pending {
          OwnActExtras(a, b, user, task);
        }
    }
  }

  lemma OwnCreateExtras(a: Db, b: Db, user: User, id: Id, row: Row)
    requires Inv(a) && Inv(b) && AlikeButExtras(a, b, user) && id !in a.owners && id !in b.owners
    ensures var c, d := Next(a, Create(user, id, row)), Next(b, Create(user, id, row));
            AlikeButExtras(c, d, user) && forall i :: Extra(a, b, user, i) ==> Extra(c, d, user, i)
  {
    var c, d := Next(a, Create(user, id, row)), Next(b, Create(user, id, row));
    forall i
      ensures RowOf(c, i, user) == RowOf(d, i, user) || Extra(c, d, user, i)
      ensures Extra(a, b, user, i) ==> Extra(c, d, user, i)
    {
      assert RowOf(a, i, user) == RowOf(b, i, user) || Extra(a, b, user, i);
    }
  }

  /** A check changes no row; it answers at once, or leaves the operation pending on its id. */
  lemma CheckEffect(a: Db, user: User, task: nat, id: Id, op: Op)
    requires (user, task) !in a.pending
    ensures var c, r := Next(a, Check(user, task, id, op)), RowOf(a, id, user);
            && c.rows == a.rows && c.owners == a.owners
            && c.pending == (if r.Some? && !op.Get? then a.pending[(user, task) := Pending(id, op)] else a.pending)
            && LogOf(c.log, user) == LogOf(a.log, user) + (if r.None? then [Entry(user, task, NotFound)]
                                                           else if op.Get? then [Entry(user, task, Found(r.value))]
                                                           else [])
  {
    var r := RowOf(a, id, user);
    LogSnoc(a.log, Entry(user, task, if r.None? then NotFound else Found(r.value)), user);
    hide LogOf;
  }

  lemma CheckKeepsExtra(a: Db, b: Db, c: Db, d: Db, user: User, i: Id, id: Id)
    requires RowOf(a, i, user) == RowOf(b, i, user) || Extra(a, b, user, i)
    requires c.rows == a.rows && d.rows == b.rows && d.owners == b.owners && !Extra(a, b, user, id)
    requires forall t: nat :: (user, t) in c.pending ==>
               c.pending[(user, t)].id == id || ((user, t) in a.pending && a.pending[(user, t)] == c.pending[(user, t)])
    ensures RowOf(c, i, user) == RowOf(d, i, user) || Extra(c, d, user, i)
    ensures Extra(a, b, user, i) ==> Extra(c, d, user, i)
  {
    assert RowOf(c, i, user) == RowOf(a, i, user) && RowOf(d, i, user) == RowOf(b, i, user);
    hide RowOf;
  }

  lemma OwnCheckExtras(a: Db, b: Db, user: User, task: nat, id: Id, op: Op)
    requires AlikeButExtras(a, b, user) && ((user, task) !in a.pending ==> !Extra(a, b, user, id))
    ensures var c, d := Next(a, Check(user, task, id, op)), Next(b, Check(user, task, id, op));
            AlikeButExtras(c, d, user) && forall i :: Extra(a, b, user, i) ==> Extra(c, d, user, i)
  {
    assert (user, task) in a.pending <==> (user, task) in b.pending;
    if (user, task) !in a.pending {
      var c, d := Next(a, Check(user, task, id, op)), Next(b, Check(user, task, id, op));
      assert RowOf(a, id, user) == RowOf(b, id, user);
      CheckEffect(a, user, task, id, op);
      CheckEffect(b, user, task, id, op);
      hide Next, LogOf;
      assert SamePending(c, d, user);
      forall i
        ensures RowOf(c, i, user) == RowOf(d, i, user) || Extra(c, d, user, i)
        ensures Extra(a, b, user, i) ==> Extra(c, d, user, i)
      {
        CheckKeepsExtra(a, b, c, d, user, i, id);
      }
    }
  }

  lemma OwnActExtras(a: Db, b: Db, user: User, task: nat)
    requires Inv(a) && Inv(b) && AlikeButExtras(a, b, user) && (user, task) in a.pending
    ensures var c, d := Next(a, Act(user, task)), Next(b, Act(user, task));
            AlikeButExtras(c, d, user) && forall i :: Extra(a, b, user, i) ==> Extra(c, d, user, i)
  {
    var p := a.pending[(user, task)];
    assert (user, task) in b.pending && b.pending[(user, task)] == p;
    TargetIsOwn(a, user, task);
    TargetIsOwn(b, user, task);
    var c, d := DoAct(a, user, task, p), DoAct(b, user, task, p);
    ActLog(a, user, task, p);
    ActLog(b, user, task, p);
    assert d.owners == b.owners;
    assert !Extra(a, b, user, p.id);
    assert RowOf(a, p.id, user) == RowOf(b, p.id, user);
    var e := Entry(user, task, ActAnswer(p.op, RowOf(a, p.id, user)));
    LogSnoc(a.log, e, user);
    LogSnoc(b.log, e, user);
    hide DoAct, RowOf, Inv, LogOf;
    assert SamePending(c, d, user);
    forall i
      ensures RowOf(c, i, user) == RowOf(d, i, user) || Extra(c, d, user, i)
      ensures Extra(a, b, user, i) ==> Extra(c, d, user, i)
    {
      ActRow(a, user, task, p, i);
      ActRow(b, user, task, p, i);
      assert RowOf(a, i, user) == RowOf(b, i, user) || Extra(a, b, user, i);
    }
  }

  /** Looking at an extra row parts the logs. */
  lemma CheckOfExtraParts(a: Db, b: Db, user: User, task: nat, id: Id, op: Op)
    requires AlikeButExtras(a, b, user) && Inv(b) && Extra(a, b, user, id) && (user, task) !in a.pending
    ensures Parted(Next(a, Check(user, task, id, op)), Next(b, Check(user, task, id, op)), user, |LogOf(a.log, user)|, task)
  {
    assert (user, task) !in b.pending;
    assert id in a.rows && a.rows[id].owner == user && id !in b.rows;
    LogSnoc(a.log, Entry(user, task, Found(a.rows[id].payload)), user);
    LogSnoc(b.log, Entry(user, task, NotFound), user);
    hide LogOf;
  }

  /** After a run with a forged row the logs have parted, or an untouched extra row is left. */
  ghost predicate Betrayed(a: Db, b: Db, user: User) {
    || (AlikeButExtras(a, b, user) && exists id :: Extra(a, b, user, id))
    || exists k, task :: Parted(a, b, user, k, task)
  }

  lemma OwnStepKeepsBetrayed(a: Db, b: Db, user: User, step: Step)
    requires Inv(a) && Inv(b) && Betrayed(a, b, user) && step.user == user
    requires step.Create? ==> step.id !in a.owners && step.id !in b.owners
    ensures Betrayed(Next(a, step), Next(b, step), user)
  {
    hide Next, Inv, Parted, AlikeButExtras, Extra;
    if k, task :| Parted(a, b, user, k, task) {
      OwnStepKeepsParted(a, b, user, step, k, task);
    } else if step.Check? && (user, step.task) !in a.pending && Extra(a, b, user, step.id) {
      CheckOfExtraParts(a, b, user, step.task, step.id, step.op);
    } else {
      OwnStepKeepsExtras(a, b, user, step);
      var id :| Extra(a, b, user, id);
      assert Extra(Next(a, step), Next(b, step), user, id);
    }
  }

  lemma OtherStepKeepsBetrayed(a: Db, b: Db, user: User, step: Step)
    requires Inv(a) && step.user != user && (step.Create? ==> step.id !in a.owners && step.id !in b.owners)
    requires Betrayed(a, b, user) || (Alike(a, b, user) && Forges(step, user))
    ensures Betrayed(Next(a, step), b, user)
  {
    if Alike(a, b, user) {
      assert AlikeButExtras(a, b, user);
    }
    hide Next, Inv, Parted, AlikeButExtras, Extra, Alike;
    if k, task :| Parted(a, b, user, k, task) {
      OtherStepKeepsParted(a, b, user, step, k, task);
    } else {
      OtherStepKeepsExtras(a, b, user, step);
      if id :| Extra(a, b, user, id) {
        assert Extra(Next(a, step), b, user, id);
      }
    }
  }

  lemma {:induction false} ForgeryBetrays(run: seq<Step>, user: User)
    requires FreshIds(run) && !Unforged(run, user)
    ensures Betrayed(After(run), After(Only(run, user)), user)
    decreases |run|
  {
    var n := |run| - 1;
    var init, step := run[..n], run[n];
    EveryRunKeepsInv(init);
    EveryRunKeepsInv(Only(init, user));
    if step.Create? {
      FreshInBoth(run, user);
    }
    if Unforged(init, user) {
      assert Forges(step, user);
      NonInterference(init, user);
    } else {
      ForgeryBetrays(init, user);
    }
    hide Next, Inv, Betrayed, Alike;
    if step.user == user {
      OwnStepKeepsBetrayed(After(init), After(Only(init, user)), user, step);
      var r := Only(init, user);
      assert (r + [step])[..|r|] == r;
    } else {
      OtherStepKeepsBetrayed(After(init), After(Only(init, user)), user, step);
    }
  }

  lemma {:induction false} IdleTask(run: seq<Step>, user: User) returns (bound: nat)
    ensures forall t: nat :: (user, t) in After(run).pending ==> t < bound
    decreases |run|
  {
    bound := 0;
    if run != [] {
      var n := |run| - 1;
      bound := IdleTask(run[..n], user);
      if run[n].Check? && run[n].task >= bound {
        bound := run[n].task + 1;
      }
    }
  }

  lemma AfterSnoc(run: seq<Step>, step: Step)
    ensures After(run + [step]) == Next(After(run), step)
  {
    assert (run + [step])[..|run|] == run;
  }

  /** The tenant can tell: some continuation of its own gets an answer that it would not have got alone. */
  lemma ForgeryShows(run: seq<Step>, user: User) returns (more: seq<Step>)
    requires FreshIds(run) && !Unforged(run, user)
    ensures Continues(run, more, user) && !SameAnswers(run, more, user)
  {
    ForgeryBetrays(run, user);
    var a, b := After(run), After(Only(run, user));
    if k, task :| Parted(a, b, user, k, task) {
      more := [];
      assert run + more == run && Only(run, user) + more == Only(run, user);
    } else {
      var id :| Extra(a, b, user, id);
      var task := IdleTask(run, user);
      var step := Check(user, task, id, Get);
      more := [step];
      EveryRunKeepsInv(Only(run, user));
      CheckOfExtraParts(a, b, user, task, id, Get);
      AfterSnoc(run, step);
      AfterSnoc(Only(run, user), step);
      GetAnswersAtOnce(a, user, task, id);
      hide Next, After, LogOf;
    }
  }

  lemma GetAnswersAtOnce(a: Db, user: User, task: nat, id: Id)
    requires (user, task) !in a.pending
    ensures (user, task) !in Next(a, Check(user, task, id, Get)).pending
  {
  }

  /** The exact condition: whatever the tenant goes on to do, it gets the answers it would get without the
      others' steps, if and only if no other tenant has created a row in its name. */
  lemma AnswersAgreeIffUnforged(run: seq<Step>, user: User)
    requires FreshIds(run)
    ensures (forall more :: Continues(run, more, user) ==> SameAnswers(run, more, user)) <==> Unforged(run, user)
  {
    if Unforged(run, user) {
      forall more | Continues(run, more, user)
        ensures SameAnswers(run, more, user)
      {
        OnlyAppend(run, more, user);
        NonInterference(run + more, user);
      }
    } else {
      var more := ForgeryShows(run, user);
      assert Continues(run, more, user);
    }
  }

  // ---------- what operations do on the tenant's own rows ----------

  /** A tenant owns what it creates under a fresh id. */
  lemma CreatedRowIsOwn(db: Db, user: User, id: Id, payload: string)
    requires id !in db.owners
    ensures RowOf(Next(db, Create(user, id, Row(user, payload))), id, user) == Some(payload)
  {
  }

  /** Every operation on a row of one's own, check and action: a fetch and a read find its payload, an update
      replaces it, a deletion removes the row. */
  lemma OwnRowAnswers(db: Db, user: User, task: nat, id: Id, op: Op)
    requires RowOf(db, id, user).Some? && (user, task) !in db.pending
    ensures var was := RowOf(db, id, user);
            var checked := Next(db, Check(user, task, id, op));
            var acted := Next(checked, Act(user, task));
            && (op.Get? ==> checked == Answered(db, user, task, Found(was.value)))
            && (!op.Get? ==> acted.log == db.log + [Entry(user, task, ActAnswer(op, was))] && (user, task) !in acted.pending)
            && RowOf(acted, id, user) == (if op.Update? then Some(op.payload) else if op.Delete? then None else was)
  {
  }

  /** On any other row all of them answer that there is none, and do nothing else. */
  lemma ForeignRowAnswers(db: Db, user: User, task: nat, id: Id, op: Op)
    requires RowOf(db, id, user).None? && (user, task) !in db.pending
    ensures Next(db, Check(user, task, id, op)) == Answered(db, user, task, NotFound)
  {
  }
}
