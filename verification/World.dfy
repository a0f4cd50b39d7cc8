/**
 * The whole checker: any number of shards, any number of overlapping sweeps, each sweep reading the table
 * before it takes a shard's busy flag, every check advancing at its own pace.
 */
module World {
  import opened Prelude
  import opened ShardMap
  import opened Failover
  import opened Checker
  import opened CheckMachine
  import opened CheckShape

  /** One goroutine started by a sweep; it is done when its phase is back to Idle. */
  datatype Task = Task(id: ShardId, phase: Phase)

  datatype World = World(
    entries: map<ShardId, Shard>,
    misses: Misses,
    busy: set<ShardId>,
    sweeps: seq<seq<Shard>>,
    tasks: seq<Task>,
    log: seq<(ShardId, Event)>)

  datatype Move =
    | Register(id: ShardId)
    | Snapshot(order: seq<ShardId>)
    | TryAcquire(sweep: nat)
    | Advance(task: nat, act: Act)

  /** The configured shards: ids match, and no address occurs twice anywhere. */
  predicate Topology(top: map<ShardId, Shard>) {
    && (forall id :: id in top ==> top[id].id == id && Configured(top[id]))
    && (forall id, id2, a :: id in top && id2 in top && a in Addrs(top[id]) && a in Addrs(top[id2]) ==> id == id2)
  }

  const NOBODY := World(map[], map[], {}, [], [], [])

  function CoreOf(w: World, t: Task): Core
    requires t.id in w.entries
  {
    Core(w.entries[t.id], w.misses, t.phase)
  }

  predicate CanMove(top: map<ShardId, Shard>, w: World, m: Move) {
    match m
    case Register(id) => id in top && id !in w.entries
    case Snapshot(order) => NoDup(order) && (forall id :: id in order ==> id in w.entries) && (forall id :: id in w.entries ==> id in order)
    case TryAcquire(k) => k < |w.sweeps| && w.sweeps[k] != []
    case Advance(t, act) =>
      t < |w.tasks| && w.tasks[t].id in w.entries && !act.Acquire? && Enabled(CoreOf(w, w.tasks[t]), act)
  }

  /** tryAcquire on the sweep's next shard: start a check of its snapshot, or skip a shard that is busy. */
  function Acquired1(w: World, k: nat): World
    requires k < |w.sweeps| && w.sweeps[k] != []
  {
    var snap := w.sweeps[k][0];
    var sweeps := w.sweeps[k := w.sweeps[k][1..]];
    if snap.id in w.busy then w.(sweeps := sweeps)
    else w.(
      sweeps := sweeps,
      busy := w.busy + {snap.id},
      tasks := w.tasks + [Task(snap.id, Pinging(snap, Blank(1 + |snap.replicas|)))],
      log := w.log + [(snap.id, Event.Acquired(snap))])
  }

  function Tagged(id: ShardId, evs: seq<Event>): seq<(ShardId, Event)> {
    if evs == [] then [] else Tagged(id, Front(evs)) + [(id, Last(evs))]
  }

  function Advanced(opts: Options, w: World, t: nat, act: Act): World
    requires t < |w.tasks| && w.tasks[t].id in w.entries && Enabled(CoreOf(w, w.tasks[t]), act)
  {
    var id := w.tasks[t].id;
    var c := CoreOf(w, w.tasks[t]);
    var c' := Next(opts, c, act);
    w.(
      entries := w.entries[id := c'.entry],
      misses := c'.misses,
      busy := if act.Release? then w.busy - {id} else w.busy,
      tasks := w.tasks[t := Task(id, c'.phase)],
      log := w.log + Tagged(id, Emit(opts, c, act)))
  }

  function Moved(top: map<ShardId, Shard>, opts: Options, w: World, m: Move): World
    requires CanMove(top, w, m)
  {
    match m
    case Register(id) => w.(entries := w.entries[id := top[id]])
    case Snapshot(order) => w.(sweeps := w.sweeps + [Reading(w.entries, order)])
    case TryAcquire(k) => Acquired1(w, k)
    case Advance(t, act) => Advanced(opts, w, t, act)
  }

  function Reading(entries: map<ShardId, Shard>, order: seq<ShardId>): seq<Shard>
    requires forall id :: id in order ==> id in entries
  {
    seq(|order|, i requires 0 <= i < |order| => entries[order[i]])
  }

  function Unfold(top: map<ShardId, Shard>, opts: Options, moves: seq<Move>): Option<World> {
    if moves == [] then Some(NOBODY)
    else match Unfold(top, opts, Front(moves))
      case None => None
      case Some(w) => if CanMove(top, w, Last(moves)) then Some(Moved(top, opts, w, Last(moves))) else None
  }

  // ----- one shard's view of the world -----

  function LogOf(log: seq<(ShardId, Event)>, id: ShardId): seq<Event> {
    if log == [] then []
    else if Last(log).0 == id then LogOf(Front(log), id) + [Last(log).1]
    else LogOf(Front(log), id)
  }

  /** The phase of the unfinished check of the shard, Idle if there is none. */
  function PhaseOf(tasks: seq<Task>, id: ShardId): Phase {
    if tasks == [] then Idle
    else if Last(tasks).id == id && !Last(tasks).phase.Idle? then Last(tasks).phase
    else PhaseOf(Front(tasks), id)
  }

  function MissesOf(m: Misses, s: Shard): Misses {
    map a | a in m && a in Addrs(s) :: m[a]
  }

  function View(top: map<ShardId, Shard>, w: World, id: ShardId): Local
    requires id in top
  {
    Local(
      Core(if id in w.entries then w.entries[id] else top[id], MissesOf(w.misses, top[id]), PhaseOf(w.tasks, id)),
      LogOf(w.log, id))
  }

  /** What a move does to one shard: one step of its check, or nothing. */
  function StepOf(w: World, m: Move, id: ShardId): seq<Act> {
    match m
    case TryAcquire(k) =>
      if k < |w.sweeps| && w.sweeps[k] != [] && w.sweeps[k][0].id == id && id !in w.busy
      then [Acquire(w.sweeps[k][0])] else []
    case Advance(t, act) => if t < |w.tasks| && w.tasks[t].id == id then [act] else []
    case _ => []
  }

  function ActsOf(top: map<ShardId, Shard>, opts: Options, moves: seq<Move>, id: ShardId): seq<Act> {
    if moves == [] then []
    else match Unfold(top, opts, Front(moves))
      case None => []
      case Some(w) => ActsOf(top, opts, Front(moves), id) + StepOf(w, Last(moves), id)
  }

  // ----- what every move keeps -----

  predicate Exclusive(tasks: seq<Task>) {
    forall t, u :: 0 <= t < u < |tasks| && !tasks[t].phase.Idle? && !tasks[u].phase.Idle? ==> tasks[t].id != tasks[u].id
  }

  predicate InFlight(tasks: seq<Task>, id: ShardId) {
    exists t :: 0 <= t < |tasks| && tasks[t].id == id && !tasks[t].phase.Idle?
  }

  /** The busy flags are exactly the shards with an unfinished check, and no shard has two. */
  ghost predicate FlagsMatch(entries: map<ShardId, Shard>, busy: set<ShardId>, tasks: seq<Task>) {
    && (forall id :: id in busy <==> InFlight(tasks, id))
    && Exclusive(tasks)
    && (forall t :: 0 <= t < |tasks| ==> tasks[t].id in entries)
  }

  ghost predicate SweepsRegistered(entries: map<ShardId, Shard>, sweeps: seq<seq<Shard>>) {
    forall k, i :: 0 <= k < |sweeps| && 0 <= i < |sweeps[k]| ==> sweeps[k][i].id in entries
  }

  ghost predicate Orderly(top: map<ShardId, Shard>, w: World) {
    && (forall id :: id in w.entries ==> id in top && w.entries[id].id == id)
    && FlagsMatch(w.entries, w.busy, w.tasks)
    && SweepsRegistered(w.entries, w.sweeps)
  }

  /** Whatever a sweep still holds was published for its shard at some time. */
  ghost predicate Remembered(top: map<ShardId, Shard>, w: World) {
    forall k, i :: 0 <= k < |w.sweeps| && 0 <= i < |w.sweeps[k]| && w.sweeps[k][i].id in top ==>
      w.sweeps[k][i] in Published(top[w.sweeps[k][i].id], LogOf(w.log, w.sweeps[k][i].id))
  }

  lemma {:induction false} PhaseOfTask(tasks: seq<Task>, t: nat)
    requires Exclusive(tasks) && t < |tasks| && !tasks[t].phase.Idle?
    ensures PhaseOf(tasks, tasks[t].id) == tasks[t].phase
  {
    if t < |tasks| - 1 {
      PhaseOfTask(Front(tasks), t);
    }
  }

  lemma {:induction false} PhaseOfNone(tasks: seq<Task>, id: ShardId)
    ensures PhaseOf(tasks, id).Idle? <==> !InFlight(tasks, id)
  {
    if tasks != [] {
      PhaseOfNone(Front(tasks), id);
      assert forall t :: 0 <= t < |tasks| - 1 ==> Front(tasks)[t] == tasks[t];
    }
  }

  lemma {:induction false} PhaseOfOther(tasks: seq<Task>, t: nat, p: Phase, id: ShardId)
    requires t < |tasks| && tasks[t].id != id
    ensures PhaseOf(tasks[t := Task(tasks[t].id, p)], id) == PhaseOf(tasks, id)
  {
    var tasks' := tasks[t := Task(tasks[t].id, p)];
    if t < |tasks| - 1 {
      assert Front(tasks') == Front(tasks)[t := Task(tasks[t].id, p)];
      PhaseOfOther(Front(tasks), t, p, id);
    } else {
      assert Front(tasks') == Front(tasks);
    }
  }

  lemma {:induction false} LogOfTagged(log: seq<(ShardId, Event)>, id: ShardId, evs: seq<Event>, id2: ShardId)
    ensures LogOf(log + Tagged(id, evs), id2) == if id == id2 then LogOf(log, id2) + evs else LogOf(log, id2)
  {
    if evs == [] {
      assert log + Tagged(id, evs) == log;
    } else {
      assert log + Tagged(id, evs) == (log + Tagged(id, Front(evs))) + [(id, Last(evs))];
      LogOfTagged(log, id, Front(evs), id2);
    }
  }

  lemma TaskUpdate(tasks: seq<Task>, t: nat, p: Phase)
    requires Exclusive(tasks) && t < |tasks| && !tasks[t].phase.Idle?
    ensures var tasks' := tasks[t := Task(tasks[t].id, p)];
      && Exclusive(tasks')
      && (forall id :: id != tasks[t].id ==> (InFlight(tasks', id) <==> InFlight(tasks, id)))
      && (InFlight(tasks', tasks[t].id) <==> !p.Idle?)
      && PhaseOf(tasks', tasks[t].id) == p
      && PhaseOf(tasks, tasks[t].id) == tasks[t].phase
  {
    var tasks' := tasks[t := Task(tasks[t].id, p)];
    PhaseOfTask(tasks, t);
    if !p.Idle? {
      PhaseOfTask(tasks', t);
      assert tasks'[t].id == tasks[t].id;
    } else {
      PhaseOfNone(tasks', tasks[t].id);
    }
    forall id | id != tasks[t].id ensures InFlight(tasks', id) <==> InFlight(tasks, id) {
      PhaseOfOther(tasks, t, p, id);
      PhaseOfNone(tasks, id);
      PhaseOfNone(tasks', id);
    }
  }
}
