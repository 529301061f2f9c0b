/** The per-tenant rate registry: a map from users to rate states behind a read-write lock, filled
    lazily by double-checked locking, and the permits of each state's semaphore. Tasks interleave
    at the lock acquisitions and at the semaphore. */
module TenantRate {

  /** Identity of a rate state, as `Arc::ptr_eq` sees it. */
  type StateId = nat

  datatype Point =
    | Asking
    | Missed
    | Has(id: StateId)
    | Holding(id: StateId)

  datatype Task = Task(user: string, at: Point)

  datatype World = World(max: nat, registry: map<string, StateId>, created: nat, available: map<StateId, nat>, tasks: map<nat, Task>)

  datatype Step =
    | Spawn(task: nat, user: string)
    | ReadLookup(task: nat)
    | WriteLookup(task: nat)
    | CloneContext(task: nat, copy: nat)
    | Acquire(task: nat)
    | Release(task: nat)

  function Init(max: nat): World {
    World(max, map[], 0, map[], map[])
  }

  predicate AtPoint(w: World, t: nat, p: Point) {
    t in w.tasks && w.tasks[t].at == p
  }

  function Move(w: World, t: nat, p: Point): World
    requires t in w.tasks
  {
    w.(tasks := w.tasks[t := w.tasks[t].(at := p)])
  }

  /** Under the write lock: look again, and only then create and insert. */
  function LookupOrCreate(w: World, t: nat): World
    requires t in w.tasks
  {
    var user := w.tasks[t].user;
    if user in w.registry then Move(w, t, Has(w.registry[user]))
    else
      var id := w.created;
      World(w.max, w.registry[user := id], id + 1, w.available[id := w.max], w.tasks[t := Task(user, Has(id))])
  }

  function Next(w: World, step: Step): World {
    match step
    case Spawn(t, user) => if t in w.tasks then w else w.(tasks := w.tasks[t := Task(user, Asking)])
    case ReadLookup(t) =>
      if !AtPoint(w, t, Asking) then w
      else if w.tasks[t].user in w.registry then Move(w, t, Has(w.registry[w.tasks[t].user]))
      else Move(w, t, Missed)
    case WriteLookup(t) => if AtPoint(w, t, Missed) then LookupOrCreate(w, t) else w
    case CloneContext(t, copy) =>
      if t in w.tasks && w.tasks[t].at.Has? && copy !in w.tasks then w.(tasks := w.tasks[copy := w.tasks[t]]) else w
    case Acquire(t) =>
      if t in w.tasks && w.tasks[t].at.Has? && w.tasks[t].at.id in w.available && w.available[w.tasks[t].at.id] > 0 then
        var id := w.tasks[t].at.id;
        Move(w, t, Holding(id)).(available := w.available[id := w.available[id] - 1])
      else w
    case Release(t) =>
      if t in w.tasks && w.tasks[t].at.Holding? && w.tasks[t].at.id in w.available then
        var id := w.tasks[t].at.id;
        Move(w, t, Has(id)).(available := w.available[id := w.available[id] + 1])
      else w
  }

  function After(w: World, steps: seq<Step>): World
    decreases |steps|
  {
    if steps == [] then w else Next(After(w, steps[..|steps| - 1]), steps[|steps| - 1])
  }

  // ---------- the object ----------

  class RateRegistry {
    var world: World

    constructor (max: nat)
      ensures world == Init(max)
    {
      world := Init(max);
    }

    method Interleave(steps: seq<Step>)
      modifies this
      ensures world == After(old(world), steps)
    {
      ghost var w := world;
      for i := 0 to |steps|
        invariant world == After(w, steps[..i])
      {
        assert steps[..i + 1][..i] == steps[..i];
        world := Next(world, steps[i]);
      }
      assert steps[..|steps|] == steps;
    }

    /** `get_or_create` of one task; `between` is what other tasks do after its read lock is released
        and before it gets the write lock. */
    method GetOrCreate(t: nat, between: seq<Step>) returns (id: StateId)
      requires AtPoint(world, t, Asking)
      requires forall i :: 0 <= i < |between| ==> !Moves(between[i], t)
      modifies this
      ensures t in world.tasks && world.tasks[t] == Task(old(world).tasks[t].user, Has(id))
      ensures world.tasks[t].user in world.registry && world.registry[world.tasks[t].user] == id
      ensures world == if old(world).tasks[t].user in old(world).registry then Next(old(world), ReadLookup(t))
                       else Next(After(Next(old(world), ReadLookup(t)), between), WriteLookup(t))
    {
      var user := world.tasks[t].user;
      // Fast path: read lock.
      if user in world.registry {
        id := world.registry[user];
        world := world.(tasks := world.tasks[t := Task(user, Has(id))]);
        return;
      }
      world := world.(tasks := world.tasks[t := Task(user, Missed)]);
      OthersLeaveTask(world, between, t);
      Interleave(between);
      // Slow path: write lock with double-check.
      if user in world.registry {
        id := world.registry[user];
        world := world.(tasks := world.tasks[t := Task(user, Has(id))]);
        return;
      }
      id := world.created;
      world := World(world.max, world.registry[user := id], id + 1, world.available[id := world.max],
                     world.tasks[t := Task(user, Has(id))]);
    }
  }

  /** The step is one of task `t`. */
  predicate Moves(step: Step, t: nat) {
    match step
    case Spawn(x, _) => x == t
    case ReadLookup(x) => x == t
    case WriteLookup(x) => x == t
    case CloneContext(_, copy) => copy == t
    case Acquire(x) => x == t
    case Release(x) => x == t
  }

  lemma {:induction false} OthersLeaveTask(w: World, steps: seq<Step>, t: nat)
    requires t in w.tasks && forall i :: 0 <= i < |steps| ==> !Moves(steps[i], t)
    ensures t in After(w, steps).tasks && After(w, steps).tasks[t] == w.tasks[t]
    decreases |steps|
  {
    if steps != [] {
      OthersLeaveTask(w, steps[..|steps| - 1], t);
    }
  }

  // ---------- what every interleaving keeps ----------

  function Holders(tasks: map<nat, Task>, id: StateId): set<nat> {
    set t | t in tasks && tasks[t].at == Holding(id)
  }

  predicate Attached(t: Task) {
    t.at.Has? || t.at.Holding?
  }

  /** Every task that has a state has the registry's state of its user. */
  ghost predicate Shared(tasks: map<nat, Task>, registry: map<string, StateId>) {
    forall t :: t in tasks && Attached(tasks[t]) ==> tasks[t].user in registry && registry[tasks[t].user] == tasks[t].at.id
  }

  /** States belong to one user each and were created by this registry. */
  ghost predicate OneUserEach(registry: map<string, StateId>, created: nat) {
    && (forall u :: u in registry ==> registry[u] < created)
    && (forall u, v :: u in registry && v in registry && registry[u] == registry[v] ==> u == v)
  }

  /** Permits are conserved: those available and those held make up the limit. */
  ghost predicate Conserved(tasks: map<nat, Task>, available: map<StateId, nat>, max: nat) {
    forall id :: id in available ==> available[id] + |Holders(tasks, id)| == max
  }

  ghost predicate Inv(w: World) {
    && Shared(w.tasks, w.registry) && OneUserEach(w.registry, w.created)
    && Conserved(w.tasks, w.available, w.max)
    && (forall id: StateId :: id in w.available <==> id < w.created)
  }

  lemma HoldersMove(tasks: map<nat, Task>, t: nat, x: Task, id: StateId)
    ensures Holders(tasks[t := x], id) ==
            if x.at == Holding(id) then Holders(tasks, id) + {t} else Holders(tasks, id) - {t}
  {
  }

  /** A task that neither held nor holds a permit does not matter for the count. */
  lemma ConservedWithout(tasks: map<nat, Task>, available: map<StateId, nat>, max: nat, t: nat, x: Task)
    requires Conserved(tasks, available, max)
    requires !x.at.Holding? && (t in tasks ==> !tasks[t].at.Holding?)
    ensures Conserved(tasks[t := x], available, max)
  {
    forall id | id in available
      ensures available[id] + |Holders(tasks[t := x], id)| == max
    {
      HoldersMove(tasks, t, x, id);
      assert Holders(tasks, id) - {t} == Holders(tasks, id);
    }
  }

  lemma AcquireConserves(tasks: map<nat, Task>, available: map<StateId, nat>, max: nat, t: nat, id: StateId)
    requires Conserved(tasks, available, max) && t in tasks && tasks[t].at == Has(id)
    requires id in available && available[id] > 0
    ensures Conserved(tasks[t := tasks[t].(at := Holding(id))], available[id := available[id] - 1], max)
  {
    forall i | i in available
      ensures available[id := available[id] - 1][i] + |Holders(tasks[t := tasks[t].(at := Holding(id))], i)| == max
    {
      HoldersMove(tasks, t, tasks[t].(at := Holding(id)), i);
      assert t !in Holders(tasks, i);
      assert i != id ==> Holders(tasks, i) - {t} == Holders(tasks, i);
    }
  }

  lemma ReleaseConserves(tasks: map<nat, Task>, available: map<StateId, nat>, max: nat, t: nat, id: StateId)
    requires Conserved(tasks, available, max) && t in tasks && tasks[t].at == Holding(id) && id in available
    ensures Conserved(tasks[t := tasks[t].(at := Has(id))], available[id := available[id] + 1], max)
  {
    forall i | i in available
      ensures available[id := available[id] + 1][i] + |Holders(tasks[t := tasks[t].(at := Has(id))], i)| == max
    {
      HoldersMove(tasks, t, tasks[t].(at := Has(id)), i);
      if i == id {
        assert t in Holders(tasks, i);
      } else {
        assert t !in Holders(tasks, i);
        assert Holders(tasks, i) - {t} == Holders(tasks, i);
      }
    }
  }

  lemma CreateConserves(w: World, t: nat, user: string)
    requires Inv(w) && t in w.tasks && w.tasks[t] == Task(user, Missed) && user !in w.registry
    ensures Conserved(w.tasks[t := Task(user, Has(w.created))], w.available[w.created := w.max], w.max)
  {
    var id := w.created;
    ConservedWithout(w.tasks, w.available, w.max, t, Task(user, Has(id)));
    var tasks := w.tasks[t := Task(user, Has(id))];
    assert Holders(tasks, id) == {} by {
      forall x | x in tasks && tasks[x].at == Holding(id)
        ensures false
      {
        assert Attached(w.tasks[x]);
      }
    }
  }

  /** A task that holds no permit takes a place that holds none and, if attached, has its user's state. */
  lemma PlaceKeepsInv(w: World, t: nat, x: Task)
    requires Inv(w) && !x.at.Holding? && (t in w.tasks ==> !w.tasks[t].at.Holding?)
    requires x.at.Has? ==> x.user in w.registry && w.registry[x.user] == x.at.id
    ensures Inv(w.(tasks := w.tasks[t := x]))
  {
    ConservedWithout(w.tasks, w.available, w.max, t, x);
    hide Holders, Conserved, OneUserEach;
  }

  lemma CreateKeepsInv(w: World, t: nat)
    requires Inv(w) && AtPoint(w, t, Missed) && w.tasks[t].user !in w.registry
    ensures Inv(LookupOrCreate(w, t))
  {
    CreateConserves(w, t, w.tasks[t].user);
    hide Holders, Conserved;
  }

  lemma AcquireKeepsInv(w: World, t: nat)
    requires Inv(w) && t in w.tasks && w.tasks[t].at.Has? && w.tasks[t].at.id in w.available && w.available[w.tasks[t].at.id] > 0
    ensures Inv(Next(w, Acquire(t)))
  {
    AcquireConserves(w.tasks, w.available, w.max, t, w.tasks[t].at.id);
    hide Holders, Conserved, OneUserEach;
  }

  lemma ReleaseKeepsInv(w: World, t: nat)
    requires Inv(w) && t in w.tasks && w.tasks[t].at.Holding? && w.tasks[t].at.id in w.available
    ensures Inv(Next(w, Release(t)))
  {
    ReleaseConserves(w.tasks, w.available, w.max, t, w.tasks[t].at.id);
    hide Holders, Conserved, OneUserEach;
  }

  lemma CloneKeepsInv(w: World, t: nat, copy: nat)
    requires Inv(w) && t in w.tasks && w.tasks[t].at.Has? && copy !in w.tasks
    ensures Inv(w.(tasks := w.tasks[copy := w.tasks[t]]))
  {
    assert Attached(w.tasks[t]);
    PlaceKeepsInv(w, copy, w.tasks[t]);
  }

  lemma StepKeepsInv(w: World, step: Step)
    requires Inv(w)
    ensures Inv(Next(w, step))
  {
    hide Inv;
    match step {
      case Spawn(t, user) =>
        if t !in w.tasks {
          PlaceKeepsInv(w, t, Task(user, Asking));
        }
      case ReadLookup(t) =>
        if AtPoint(w, t, Asking) {
          var user := w.tasks[t].user;
          PlaceKeepsInv(w, t, Task(user, if user in w.registry then Has(w.registry[user]) else Missed));
        }
      case WriteLookup(t) =>
        if AtPoint(w, t, Missed) {
          var user := w.tasks[t].user;
          if user in w.registry {
            PlaceKeepsInv(w, t, Task(user, Has(w.registry[user])));
          } else {
            CreateKeepsInv(w, t);
          }
        }
      case CloneContext(t, copy) =>
        if t in w.tasks && w.tasks[t].at.Has? && copy !in w.tasks {
          CloneKeepsInv(w, t, copy);
        }
      case Acquire(t) =>
        if t in w.tasks && w.tasks[t].at.Has? && w.tasks[t].at.id in w.available && w.available[w.tasks[t].at.id] > 0 {
          AcquireKeepsInv(w, t);
        }
      case Release(t) =>
        if t in w.tasks && w.tasks[t].at.Holding? && w.tasks[t].at.id in w.available {
          ReleaseKeepsInv(w, t);
        }
    }
  }

  lemma {:induction false} EveryRunKeepsInv(w: World, steps: seq<Step>)
    requires Inv(w)
    ensures Inv(After(w, steps)) && After(w, steps).max == w.max
    decreases |steps|
  {
    hide Inv;
    if steps != [] {
      var n := |steps| - 1;
      EveryRunKeepsInv(w, steps[..n]);
      StepKeepsInv(After(w, steps[..n]), steps[n]);
    }
  }

  lemma InitInv(max: nat)
    ensures Inv(Init(max))
  {
  }

  /** All callers for a user share one state, in every run. */
  lemma CallersShareState(max: nat, steps: seq<Step>, a: nat, b: nat)
    requires var w := After(Init(max), steps);
             a in w.tasks && b in w.tasks && Attached(w.tasks[a]) && Attached(w.tasks[b])
    ensures var w := After(Init(max), steps);
            w.tasks[a].user == w.tasks[b].user <==> w.tasks[a].at.id == w.tasks[b].at.id
  {
    InitInv(max);
    EveryRunKeepsInv(Init(max), steps);
  }

  /** A registered state is never replaced. */
  lemma {:induction false} StateIsNeverReplaced(w: World, steps: seq<Step>, user: string)
    requires user in w.registry
    ensures user in After(w, steps).registry && After(w, steps).registry[user] == w.registry[user]
    decreases |steps|
  {
    if steps != [] {
      StateIsNeverReplaced(w, steps[..|steps| - 1], user);
    }
  }

  /** The permits a user holds, in whatever contexts. */
  function HeldBy(w: World, user: string): set<nat> {
    set t | t in w.tasks && w.tasks[t].user == user && w.tasks[t].at.Holding?
  }

  /** No interleaving lets a user hold more permits than the limit. */
  lemma PermitsNeverExceedLimit(max: nat, steps: seq<Step>, user: string)
    ensures |HeldBy(After(Init(max), steps), user)| <= max
  {
    InitInv(max);
    EveryRunKeepsInv(Init(max), steps);
    BoundedInState(After(Init(max), steps), user);
  }

  lemma BoundedInState(w: World, user: string)
    requires Inv(w)
    ensures |HeldBy(w, user)| <= w.max
  {
    var held := HeldBy(w, user);
    if held != {} {
      var x :| x in held;
      assert Attached(w.tasks[x]);
      var id := w.registry[user];
      assert forall t :: t in held ==> Attached(w.tasks[t]);
      assert held <= Holders(w.tasks, id);
      SubsetIsSmaller(held, Holders(w.tasks, id));
      assert id in w.available;
    }
  }

  lemma SubsetIsSmaller(a: set<nat>, b: set<nat>)
    requires a <= b
    ensures |a| <= |b|
  {
    assert b == a + (b - a);
    assert |b| == |a| + |b - a|;
  }

  /** The permits of a user are those of its state. */
  lemma HoldersAreTheUsers(w: World, t: nat)
    requires Inv(w) && t in w.tasks && w.tasks[t].at.Has?
    ensures HeldBy(w, w.tasks[t].user) == Holders(w.tasks, w.tasks[t].at.id) && w.tasks[t].at.id in w.available
  {
    var user, id := w.tasks[t].user, w.tasks[t].at.id;
    assert Attached(w.tasks[t]);
    forall x | x in w.tasks && w.tasks[x].at.Holding?
      ensures w.tasks[x].user == user <==> w.tasks[x].at.id == id
    {
      assert Attached(w.tasks[x]);
    }
  }

  /** In every run a task gets a permit exactly if its user holds fewer than the limit; one that is refused
      changes nothing. */
  lemma PermitIsGrantedIffFree(max: nat, steps: seq<Step>, t: nat)
    requires var w := After(Init(max), steps); t in w.tasks && w.tasks[t].at.Has?
    ensures var w := After(Init(max), steps);
            var v := Next(w, Acquire(t));
            if |HeldBy(w, w.tasks[t].user)| < max then HeldBy(v, w.tasks[t].user) == HeldBy(w, w.tasks[t].user) + {t} else v == w
  {
    InitInv(max);
    EveryRunKeepsInv(Init(max), steps);
    hide After;
    var w := After(Init(max), steps);
    HoldersAreTheUsers(w, t);
    assert w.available[w.tasks[t].at.id] + |Holders(w.tasks, w.tasks[t].at.id)| == w.max;
  }

  /** And a permit that is given back is free again. */
  lemma ReleaseFrees(max: nat, steps: seq<Step>, t: nat)
    requires var w := After(Init(max), steps); t in w.tasks && w.tasks[t].at.Holding?
    ensures var w := After(Init(max), steps);
            HeldBy(Next(w, Release(t)), w.tasks[t].user) == HeldBy(w, w.tasks[t].user) - {t}
  {
    InitInv(max);
    EveryRunKeepsInv(Init(max), steps);
    hide After;
    var w := After(Init(max), steps);
    assert Attached(w.tasks[t]);
    assert w.tasks[t].at.id in w.available;
  }

  /** A new task of any user gets a state by looking twice: the registered one, or a new one with all permits
      free. */
  lemma NewTaskGetsState(w: World, t: nat, user: string)
    requires t !in w.tasks
    ensures var v := Next(Next(Next(w, Spawn(t, user)), ReadLookup(t)), WriteLookup(t));
            && t in v.tasks && user in v.registry && v.tasks[t] == Task(user, Has(v.registry[user]))
            && (if user in w.registry then v.registry == w.registry && v.available == w.available
                else v.registry == w.registry[user := w.created] && v.available == w.available[w.created := w.max])
  {
  }
}
