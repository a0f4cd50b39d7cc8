/** Seen from one shard, any run of the whole checker is a run of that shard's own check machine. */
module WorldProjection {
  import opened Prelude
  import opened ShardMap
  import opened Failover
  import opened Checker
  import opened CheckMachine
  import opened CheckShape
  import opened World

  // ----- a step sees and changes only its own shard's counts -----

  lemma OwnPing(m: Misses, s: Shard, a: Addr, ok: bool)
    requires a in Addrs(s)
    ensures MissesOf(Recorded(m, a, ok), s) == Recorded(MissesOf(m, s), a, ok)
    ensures Count(MissesOf(Recorded(m, a, ok), s), a) == Count(Recorded(m, a, ok), a)
  {
  }

  lemma OtherPing(m: Misses, s: Shard, a: Addr, ok: bool)
    requires a !in Addrs(s)
    ensures MissesOf(Recorded(m, a, ok), s) == MissesOf(m, s)
  {
  }

  function Narrowed(c: Core, s: Shard): Core {
    c.(misses := MissesOf(c.misses, s))
  }

  lemma NextNarrows(opts: Options, c: Core, s: Shard, a: Act)
    requires Enabled(c, a)
    requires a.Ping? ==> NodeAt(c.phase.snap, a.slot).addr in Addrs(s)
    ensures Enabled(Narrowed(c, s), a)
    ensures Next(opts, Narrowed(c, s), a) == Narrowed(Next(opts, c, a), s)
    ensures Emit(opts, Narrowed(c, s), a) == Emit(opts, c, a)
  {
    hide MissesOf, Recorded, Count, StatusOf, Best, Witnesses, QuorumReached, Values, Assembled, FailedOver;
    if a.Ping? {
      OwnPing(c.misses, s, NodeAt(c.phase.snap, a.slot).addr, a.answer.Alive?);
    }
  }

  lemma OnlyPingsCount(opts: Options, c: Core, a: Act)
    requires Enabled(c, a)
    ensures Next(opts, c, a).misses ==
      if a.Ping? then Recorded(c.misses, NodeAt(c.phase.snap, a.slot).addr, a.answer.Alive?) else c.misses
  {
    hide Recorded, Count, StatusOf, Best, Witnesses, QuorumReached, Values, AllIn, Assembled, FailedOver;
  }

  lemma FittingNodesAreConfigured(init: Shard, e: Shard, slot: nat)
    requires Fits(init, e) && slot <= |e.replicas|
    ensures NodeAt(e, slot).addr in Addrs(init)
  {
    assert Addrs(e)[slot] == NodeAt(e, slot).addr;
    assert multiset(Addrs(e))[Addrs(e)[slot]] >= 1;
  }

  /** A check pings only nodes configured for its shard. */
  lemma PingsOwnNodes(top: map<ShardId, Shard>, w: World, t: nat, slot: nat, answer: PingAnswer)
    requires Exclusive(w.tasks) && CanMove(top, w, Advance(t, Ping(slot, answer)))
    requires w.tasks[t].id in top && Shaped(top[w.tasks[t].id], View(top, w, w.tasks[t].id))
    ensures NodeAt(w.tasks[t].phase.snap, slot).addr in Addrs(top[w.tasks[t].id])
  {
    hide Fits, MissesOf, Published, PhaseOf, Exclusive, Current, LogOf;
    PhaseOfTask(w.tasks, t);
    FittingNodesAreConfigured(top[w.tasks[t].id], w.tasks[t].phase.snap, slot);
  }

  // ----- the effect of one move on one shard's view -----

  ghost predicate ViewFollows(top: map<ShardId, Shard>, opts: Options, w: World, m: Move, id: ShardId)
    requires id in top && CanMove(top, w, m)
  {
    var before, after := View(top, w, id), View(top, Moved(top, opts, w, m), id);
    var steps := StepOf(w, m, id);
    if steps == [] then after == before
    else |steps| == 1 && CanStep(top[id], before, steps[0]) && after == Step(opts, top[id], before, steps[0])
  }

  lemma AdvanceOwn(top: map<ShardId, Shard>, opts: Options, w: World, t: nat, a: Act)
    requires Topology(top) && Orderly(top, w) && CanMove(top, w, Advance(t, a))
    requires w.tasks[t].id in top && Shaped(top[w.tasks[t].id], View(top, w, w.tasks[t].id))
    ensures ViewFollows(top, opts, w, Advance(t, a), w.tasks[t].id)
  {
    hide Next, Emit, PhaseOf, LogOf, MissesOf, Published, Tagged;
    var id := w.tasks[t].id;
    var c := CoreOf(w, w.tasks[t]);
    TaskUpdate(w.tasks, t, Next(opts, c, a).phase);
    LogOfTagged(w.log, id, Emit(opts, c, a), id);
    if a.Ping? {
      PingsOwnNodes(top, w, t, a.slot, a.answer);
    }
    NextNarrows(opts, c, top[id], a);
    hide Enabled, Exclusive, InFlight, Topology, Shaped;
  }

  lemma AdvanceOther(top: map<ShardId, Shard>, opts: Options, w: World, t: nat, a: Act, id: ShardId)
    requires Topology(top) && Orderly(top, w) && CanMove(top, w, Advance(t, a))
    requires w.tasks[t].id in top && Shaped(top[w.tasks[t].id], View(top, w, w.tasks[t].id))
    requires id in top && id != w.tasks[t].id
    ensures ViewFollows(top, opts, w, Advance(t, a), id)
  {
    hide Next, Emit, PhaseOf, LogOf, MissesOf, Published, Tagged;
    var c := CoreOf(w, w.tasks[t]);
    PhaseOfOther(w.tasks, t, Next(opts, c, a).phase, id);
    LogOfTagged(w.log, w.tasks[t].id, Emit(opts, c, a), id);
    OnlyPingsCount(opts, c, a);
    if a.Ping? {
      PingsOwnNodes(top, w, t, a.slot, a.answer);
      OtherPing(w.misses, top[id], NodeAt(c.phase.snap, a.slot).addr, a.answer.Alive?);
    }
    hide Enabled, Exclusive, InFlight, Topology, Shaped;
  }

  lemma AcquireView(top: map<ShardId, Shard>, opts: Options, w: World, k: nat, id: ShardId)
    requires Orderly(top, w) && Remembered(top, w) && CanMove(top, w, TryAcquire(k)) && id in top
    ensures ViewFollows(top, opts, w, TryAcquire(k), id)
  {
    var snap := w.sweeps[k][0];
    if snap.id !in w.busy {
      var task := Task(snap.id, Pinging(snap, Blank(1 + |snap.replicas|)));
      Snoc(w.tasks, task);
      Snoc(w.log, (snap.id, Event.Acquired(snap)));
      PhaseOfNone(w.tasks, snap.id);
      assert snap in Published(top[snap.id], LogOf(w.log, snap.id));
    }
    hide MissesOf, Exclusive, InFlight, Published, Topology;
  }

  lemma IdleMoves(top: map<ShardId, Shard>, opts: Options, w: World, m: Move, id: ShardId)
    requires CanMove(top, w, m) && id in top && (m.Register? || m.Snapshot?)
    ensures ViewFollows(top, opts, w, m, id)
  {
    hide MissesOf, PhaseOf, LogOf, Reading;
  }

  lemma MoveView(top: map<ShardId, Shard>, opts: Options, w: World, m: Move, id: ShardId)
    requires Topology(top) && Orderly(top, w) && Remembered(top, w) && CanMove(top, w, m) && id in top
    requires forall id2 :: id2 in top ==> Shaped(top[id2], View(top, w, id2))
    ensures ViewFollows(top, opts, w, m, id)
  {
    hide ViewFollows, View, Shaped, Remembered, Topology;
    match m {
      case Advance(t, a) =>
        if w.tasks[t].id == id { AdvanceOwn(top, opts, w, t, a); } else { AdvanceOther(top, opts, w, t, a, id); }
      case TryAcquire(k) => AcquireView(top, opts, w, k, id);
      case Register(_) => IdleMoves(top, opts, w, m, id);
      case Snapshot(_) => IdleMoves(top, opts, w, m, id);
    }
  }

  // ----- every move keeps the order -----

  ghost predicate AllShaped(top: map<ShardId, Shard>, w: World) {
    forall id :: id in top ==> Shaped(top[id], View(top, w, id))
  }

  lemma MoveKeepsShape(top: map<ShardId, Shard>, opts: Options, w: World, m: Move)
    requires Topology(top) && Orderly(top, w) && Remembered(top, w) && CanMove(top, w, m) && AllShaped(top, w)
    ensures AllShaped(top, Moved(top, opts, w, m))
  {
    hide View, Shaped, Remembered, Topology, Orderly, Moved, CanMove;
    forall id | id in top ensures Shaped(top[id], View(top, Moved(top, opts, w, m), id)) {
      MoveView(top, opts, w, m, id);
      var steps := StepOf(w, m, id);
      if steps != [] {
        StepKeepsShape(opts, top[id], View(top, w, id), steps[0]);
      }
    }
  }

  lemma OnlyReleaseIdles(opts: Options, c: Core, a: Act)
    requires Enabled(c, a)
    ensures Next(opts, c, a).phase.Idle? <==> a.Release?
    ensures c.phase.Idle? <==> a.Acquire?
  {
    hide Best, Witnesses, QuorumReached, Values, AllIn, Assembled, FailedOver;
  }

  lemma EntryHasItsId(top: map<ShardId, Shard>, w: World, id: ShardId)
    requires Topology(top) && id in top && id in w.entries && AllShaped(top, w)
    ensures w.entries[id].id == id
  {
    assert Fits(top[id], View(top, w, id).core.entry);
  }

  lemma FlagsFollow(entries: map<ShardId, Shard>, busy: set<ShardId>, tasks: seq<Task>, t: nat, p: Phase)
    requires FlagsMatch(entries, busy, tasks) && t < |tasks| && !tasks[t].phase.Idle?
    ensures FlagsMatch(entries, if p.Idle? then busy - {tasks[t].id} else busy, tasks[t := Task(tasks[t].id, p)])
  {
    TaskUpdate(tasks, t, p);
    hide Exclusive, InFlight, PhaseOf;
  }

  lemma AdvanceKeepsOrder(top: map<ShardId, Shard>, opts: Options, w: World, t: nat, a: Act)
    requires Topology(top) && Orderly(top, w) && CanMove(top, w, Advance(t, a))
    requires AllShaped(top, Moved(top, opts, w, Advance(t, a)))
    ensures Orderly(top, Moved(top, opts, w, Advance(t, a)))
  {
    hide AllShaped, Exclusive, InFlight, Next, Emit, Tagged, Enabled, Topology;
    var w' := Moved(top, opts, w, Advance(t, a));
    EntryHasItsId(top, w', w.tasks[t].id);
    OnlyReleaseIdles(opts, CoreOf(w, w.tasks[t]), a);
    FlagsFollow(w.entries, w.busy, w.tasks, t, Next(opts, CoreOf(w, w.tasks[t]), a).phase);
    assert w'.entries.Keys == w.entries.Keys;
  }

  lemma AcquireKeepsOrder(top: map<ShardId, Shard>, opts: Options, w: World, k: nat)
    requires Orderly(top, w) && CanMove(top, w, TryAcquire(k))
    ensures Orderly(top, Moved(top, opts, w, TryAcquire(k)))
  {
    var snap := w.sweeps[k][0];
    var w' := Moved(top, opts, w, TryAcquire(k));
    assert snap.id in w.entries;
    if snap.id !in w.busy {
      forall id ensures id in w'.busy <==> InFlight(w'.tasks, id) {
        assert w'.tasks[|w.tasks|].id == snap.id;
        assert forall t :: 0 <= t < |w.tasks| ==> w'.tasks[t] == w.tasks[t];
      }
    }
  }

  lemma OtherKeepsOrder(top: map<ShardId, Shard>, opts: Options, w: World, m: Move)
    requires Topology(top) && Orderly(top, w) && CanMove(top, w, m) && (m.Register? || m.Snapshot?)
    ensures Orderly(top, Moved(top, opts, w, m))
  {
    hide Exclusive, InFlight;
  }

  lemma RemembersMore(top: map<ShardId, Shard>, opts: Options, w: World, m: Move, e: Shard)
    requires Topology(top) && Orderly(top, w) && Remembered(top, w) && CanMove(top, w, m) && AllShaped(top, w)
    requires e.id in top && e in Published(top[e.id], LogOf(w.log, e.id))
    ensures e in Published(top[e.id], LogOf(Moved(top, opts, w, m).log, e.id))
  {
    MoveView(top, opts, w, m, e.id);
    var steps := StepOf(w, m, e.id);
    hide Topology, Orderly, Remembered, AllShaped, Moved, CanMove, StepOf, Published, LogOf;
    if steps != [] {
      PublishedGrows(opts, top[e.id], View(top, w, e.id), steps[0]);
    }
  }

  lemma MoveKeepsRemembered(top: map<ShardId, Shard>, opts: Options, w: World, m: Move)
    requires Topology(top) && Orderly(top, w) && Remembered(top, w) && CanMove(top, w, m) && AllShaped(top, w)
    ensures Remembered(top, Moved(top, opts, w, m))
  {
    var w' := Moved(top, opts, w, m);
    forall k, i | 0 <= k < |w'.sweeps| && 0 <= i < |w'.sweeps[k]| && w'.sweeps[k][i].id in top
      ensures w'.sweeps[k][i] in Published(top[w'.sweeps[k][i].id], LogOf(w'.log, w'.sweeps[k][i].id))
    {
      var e := w'.sweeps[k][i];
      HeldBefore(top, opts, w, m, k, i);
      RemembersMore(top, opts, w, m, e);
    }
  }

  /** A sweep's entry was already published before the move that put or left it there. */
  lemma HeldBefore(top: map<ShardId, Shard>, opts: Options, w: World, m: Move, k: nat, i: nat)
    requires Orderly(top, w) && Remembered(top, w) && CanMove(top, w, m) && AllShaped(top, w)
    requires var w' := Moved(top, opts, w, m);
      k < |w'.sweeps| && i < |w'.sweeps[k]| && w'.sweeps[k][i].id in top
    ensures var e := Moved(top, opts, w, m).sweeps[k][i]; e in Published(top[e.id], LogOf(w.log, e.id))
  {
    hide Exclusive, InFlight, Published, LogOf, PhaseFits, Fits, Current, Next, Emit, Tagged, MissesOf, PhaseOf, CoreOf;
    var e := Moved(top, opts, w, m).sweeps[k][i];
    match m {
      case Snapshot(order) =>
        if k == |w.sweeps| {
          assert e == w.entries[order[i]];
          assert Shaped(top[e.id], View(top, w, e.id));
        } else {
          assert e == w.sweeps[k][i];
        }
      case TryAcquire(k') => assert e == (if k == k' then w.sweeps[k][i + 1] else w.sweeps[k][i]);
      case Register(_) => assert e == w.sweeps[k][i];
      case Advance(_, _) => assert e == w.sweeps[k][i];
    }
  }

  // ----- whole runs -----

  ghost predicate Projects(top: map<ShardId, Shard>, opts: Options, moves: seq<Move>)
    requires Unfold(top, opts, moves).Some?
  {
    var w := Unfold(top, opts, moves).value;
    forall id :: id in top ==> Run(opts, top[id], ActsOf(top, opts, moves, id)) == Some(View(top, w, id))
  }

  lemma MoveKeepsOrder(top: map<ShardId, Shard>, opts: Options, w: World, m: Move)
    requires Topology(top) && Orderly(top, w) && CanMove(top, w, m) && AllShaped(top, Moved(top, opts, w, m))
    ensures Orderly(top, Moved(top, opts, w, m))
  {
    hide Orderly, AllShaped, Topology, CanMove, Moved;
    match m {
      case Advance(t, a) => AdvanceKeepsOrder(top, opts, w, t, a);
      case TryAcquire(k) => AcquireKeepsOrder(top, opts, w, k);
      case Register(_) => OtherKeepsOrder(top, opts, w, m);
      case Snapshot(_) => OtherKeepsOrder(top, opts, w, m);
    }
  }

  lemma MoveProjects(top: map<ShardId, Shard>, opts: Options, moves: seq<Move>, id: ShardId)
    requires moves != [] && Topology(top) && id in top && Unfold(top, opts, moves).Some?
    requires var w := Unfold(top, opts, Front(moves)).value;
      && Orderly(top, w) && Remembered(top, w) && AllShaped(top, w)
      && Run(opts, top[id], ActsOf(top, opts, Front(moves), id)) == Some(View(top, w, id))
    ensures Run(opts, top[id], ActsOf(top, opts, moves, id)) == Some(View(top, Unfold(top, opts, moves).value, id))
  {
    var w, m := Unfold(top, opts, Front(moves)).value, Last(moves);
    MoveView(top, opts, w, m, id);
    RunExtends(opts, top[id], ActsOf(top, opts, Front(moves), id), StepOf(w, m, id));
    hide View, Moved, StepOf, Orderly, Remembered, AllShaped, Step, Run, CanMove, Topology;
  }

  lemma NothingYet(top: map<ShardId, Shard>)
    ensures Orderly(top, NOBODY) && Remembered(top, NOBODY) && AllShaped(top, NOBODY)
    ensures forall id :: id in top ==> View(top, NOBODY, id) == Start(top[id])
  {
    forall id | id in top ensures View(top, NOBODY, id) == Start(top[id]) && Shaped(top[id], Start(top[id])) {
      assert MissesOf(NOBODY.misses, top[id]) == map[];
      assert Fits(top[id], top[id]);
    }
  }

  /** At most one unfinished check per shard, and each shard's run is a run of its own machine. */
  lemma {:induction false} WorldRunsProject(top: map<ShardId, Shard>, opts: Options, moves: seq<Move>)
    requires Topology(top) && Unfold(top, opts, moves).Some?
    ensures var w := Unfold(top, opts, moves).value;
      Orderly(top, w) && Remembered(top, w) && AllShaped(top, w)
    ensures Projects(top, opts, moves)
  {
    if moves == [] {
      NothingYet(top);
    } else {
      WorldRunsProject(top, opts, Front(moves));
      var w, m := Unfold(top, opts, Front(moves)).value, Last(moves);
      hide View, Moved, Orderly, Remembered, AllShaped, Run, CanMove, Topology;
      MoveKeepsShape(top, opts, w, m);
      MoveKeepsOrder(top, opts, w, m);
      MoveKeepsRemembered(top, opts, w, m);
      forall id | id in top ensures Run(opts, top[id], ActsOf(top, opts, moves, id)) == Some(View(top, Moved(top, opts, w, m), id)) {
        MoveProjects(top, opts, moves, id);
      }
    }
  }

  lemma RunExtends(opts: Options, init: Shard, acts: seq<Act>, more: seq<Act>)
    requires Run(opts, init, acts).Some? && |more| <= 1
    requires more != [] ==> CanStep(init, Run(opts, init, acts).value, more[0])
    ensures Run(opts, init, acts + more) ==
      if more == [] then Run(opts, init, acts) else Some(Step(opts, init, Run(opts, init, acts).value, more[0]))
  {
    if more == [] {
      assert acts + more == acts;
    } else {
      assert acts + more == acts + [more[0]];
      Snoc(acts, more[0]);
    }
  }
}
