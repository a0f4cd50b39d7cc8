/**
 * The hypothesis is needed: two overlapping sweeps, the second holding a table read before the first one's
 * failover, put the retired primary back into the routing table.
 */
module StaleSnapshot {
  import opened Prelude
  import opened ShardMap
  import opened Failover
  import opened Checker
  import opened CheckMachine
  import opened CheckShape
  import opened CheckCurrency
  import opened World

  const S: ShardId := "s"
  const OPTS := Options(1, 1, true, true)
  const BEFORE := Shard(S, Node("p", Unset, 0), [Node("r", Unset, 0)])
  const TOP: map<ShardId, Shard> := map[S := BEFORE]

  /** What the first sweep writes back, and what its failover publishes. */
  const CHECKED := Shard(S, Node("p", Down, 0), [Node("r", Up, 5)])
  const PROMOTED := Shard(S, Node("r", Up, 0), [])

  /** What the second sweep then writes back. */
  const RESTORED := Shard(S, Node("p", Up, 0), [Node("r", Up, 5)])

  lemma ThenOne(moves: seq<Move>, w: World, m: Move)
    requires Unfold(TOP, OPTS, moves) == Some(w) && CanMove(TOP, w, m)
    ensures Unfold(TOP, OPTS, moves + [m]) == Some(Moved(TOP, OPTS, w, m))
  {
    Snoc(moves, m);
  }

  /** The state a check of S moves through, everything else fixed. */
  function At(entry: Shard, misses: Misses, busy: set<ShardId>, pending: seq<seq<Shard>>, tasks: seq<Task>, log: seq<Event>): World {
    World(map[S := entry], misses, busy, pending, tasks, Tagged(S, log))
  }

  lemma TaggedSnoc(log: seq<Event>, evs: seq<Event>)
    ensures Tagged(S, log) + Tagged(S, evs) == Tagged(S, log + evs)
  {
    if evs != [] {
      TaggedSnoc(log, Front(evs));
      assert log + evs == (log + Front(evs)) + [Last(evs)];
      Snoc(log + Front(evs), Last(evs));
      assert Tagged(S, log) + Tagged(S, evs) == (Tagged(S, log) + Tagged(S, Front(evs))) + [(S, Last(evs))];
    } else {
      assert Tagged(S, log) + Tagged(S, evs) == Tagged(S, log);
      assert log + evs == log;
    }
  }

  /** One step of the check in task `t`, stated on the pieces. */
  lemma Stepped(moves: seq<Move>, entry: Shard, misses: Misses, busy: set<ShardId>, pending: seq<seq<Shard>>, tasks: seq<Task>,
                log: seq<Event>, t: nat, a: Act)
    requires Unfold(TOP, OPTS, moves) == Some(At(entry, misses, busy, pending, tasks, log))
    requires t < |tasks| && tasks[t].id == S && !a.Acquire? && Enabled(Core(entry, misses, tasks[t].phase), a)
    ensures var c := Core(entry, misses, tasks[t].phase);
      var c' := Next(OPTS, c, a);
      Unfold(TOP, OPTS, moves + [Advance(t, a)]) ==
        Some(At(c'.entry, c'.misses, if a.Release? then busy - {S} else busy, pending, tasks[t := Task(S, c'.phase)],
                log + Emit(OPTS, c, a)))
  {
    var w := At(entry, misses, busy, pending, tasks, log);
    var c := Core(entry, misses, tasks[t].phase);
    ThenOne(moves, w, Advance(t, a));
    TaggedSnoc(log, Emit(OPTS, c, a));
    assert map[S := entry][S := Next(OPTS, c, a).entry] == map[S := Next(OPTS, c, a).entry];
  }

  const MISSED: Misses := map["p" := 1]

  lemma FirstPings()
    ensures var c0 := Core(BEFORE, map[], Pinging(BEFORE, [None, None]));
      var c1 := Core(BEFORE, MISSED, Pinging(BEFORE, [Some(Node("p", Down, 0)), None]));
      var c2 := Core(BEFORE, MISSED, Pinging(BEFORE, [Some(Node("p", Down, 0)), Some(Node("r", Up, 5))]));
      && Enabled(c0, Ping(0, Missed)) && Next(OPTS, c0, Ping(0, Missed)) == c1
      && Emit(OPTS, c0, Ping(0, Missed)) == [Heartbeat("p", Missed)]
      && Enabled(c1, Ping(1, Alive(5))) && Next(OPTS, c1, Ping(1, Alive(5))) == c2
      && Emit(OPTS, c1, Ping(1, Alive(5))) == [Heartbeat("r", Alive(5))]
      && Enabled(c2, WriteBack) && Next(OPTS, c2, WriteBack) == Core(CHECKED, MISSED, Deciding)
      && Emit(OPTS, c2, WriteBack) == [WroteBack(CHECKED)]
  {
    var c0 := Core(BEFORE, map[], Pinging(BEFORE, [None, None]));
    var c2 := Core(BEFORE, MISSED, Pinging(BEFORE, [Some(Node("p", Down, 0)), Some(Node("r", Up, 5))]));
    assert Next(OPTS, c0, Ping(0, Missed)).misses == MISSED;
    var slots: seq<Option<Node>> := [None, None];
    assert slots[0 := Some(Node("p", Down, 0))] == [Some(Node("p", Down, 0)), None];
    assert [Some(Node("p", Down, 0)), None][1 := Some(Node("r", Up, 5))] == c2.phase.slots;
    assert Recorded(MISSED, "r", true) == MISSED;
    assert Values(c2.phase.slots) == [Node("p", Down, 0), Node("r", Up, 5)];
  }

  lemma FirstVote()
    ensures Witnesses(CHECKED.replicas) == [Node("r", Up, 5)] && Best(CHECKED.replicas) == 0
    ensures QuorumReached([NotStreaming]) && FailedOver(CHECKED) == PROMOTED
  {
    assert Front(CHECKED.replicas) == [];
    var votes := [NotStreaming];
    assert Front(votes) == [];
  }

  lemma FirstAttempt()
    ensures var c3 := Core(CHECKED, MISSED, Deciding);
      var c4 := Core(CHECKED, MISSED, Voting(CHECKED, [None]));
      var c5 := Core(CHECKED, MISSED, Voting(CHECKED, [Some(NotStreaming)]));
      && Next(OPTS, c3, Lookup) == c4 && Emit(OPTS, c3, Lookup) == [LookedUp(CHECKED)]
      && Enabled(c4, CastVote(0, NotStreaming)) && Next(OPTS, c4, CastVote(0, NotStreaming)) == c5
      && Emit(OPTS, c4, CastVote(0, NotStreaming)) == [Voted("r", NotStreaming)]
      && Enabled(c5, CountBallots) && Next(OPTS, c5, CountBallots) == Core(CHECKED, MISSED, Promoting(CHECKED))
      && Emit(OPTS, c5, CountBallots) == []
  {
    FirstVote();
    assert Blank<Vote>(1) == [None];
    var votes: seq<Option<Vote>> := [None];
    assert votes[0 := Some(NotStreaming)] == [Some(NotStreaming)];
    var c5 := Core(CHECKED, MISSED, Voting(CHECKED, [Some(NotStreaming)]));
    assert Values(c5.phase.votes) == [NotStreaming];
  }

  lemma SecondCheck()
    ensures var d0 := Core(PROMOTED, MISSED, Pinging(BEFORE, [None, None]));
      var d1 := Core(PROMOTED, map[], Pinging(BEFORE, [Some(Node("p", Up, 0)), None]));
      var d2 := Core(PROMOTED, map[], Pinging(BEFORE, [Some(Node("p", Up, 0)), Some(Node("r", Up, 5))]));
      && Enabled(d0, Ping(0, Alive(0))) && Next(OPTS, d0, Ping(0, Alive(0))) == d1
      && Emit(OPTS, d0, Ping(0, Alive(0))) == [Heartbeat("p", Alive(0))]
      && Enabled(d1, Ping(1, Alive(5))) && Next(OPTS, d1, Ping(1, Alive(5))) == d2
      && Emit(OPTS, d1, Ping(1, Alive(5))) == [Heartbeat("r", Alive(5))]
      && Enabled(d2, WriteBack) && Next(OPTS, d2, WriteBack) == Core(RESTORED, map[], Finishing)
      && Emit(OPTS, d2, WriteBack) == [WroteBack(RESTORED)]
  {
    var d0 := Core(PROMOTED, MISSED, Pinging(BEFORE, [None, None]));
    var d1 := Core(PROMOTED, map[], Pinging(BEFORE, [Some(Node("p", Up, 0)), None]));
    var d2 := Core(PROMOTED, map[], Pinging(BEFORE, [Some(Node("p", Up, 0)), Some(Node("r", Up, 5))]));
    var slots: seq<Option<Node>> := [None, None];
    assert slots[0 := Some(Node("p", Up, 0))] == d1.phase.slots;
    assert d1.phase.slots[1 := Some(Node("r", Up, 5))] == d2.phase.slots;
    assert Recorded(MISSED, "p", true) == map[];
    assert Recorded(map[], "r", true) == map[];
    assert Values(d2.phase.slots) == [Node("p", Up, 0), Node("r", Up, 5)];
  }

  const READY := NOBODY.(entries := map[S := BEFORE], sweeps := [[BEFORE], [BEFORE]])

  /** Two sweeps read the table before anything is checked. */
  lemma BothSweepsRead()
    ensures Unfold(TOP, OPTS, [Register(S), Snapshot([S]), Snapshot([S])]) == Some(READY)
  {
    assert Unfold(TOP, OPTS, []) == Some(NOBODY);
    ThenOne([], NOBODY, Register(S));
    var w1 := NOBODY.(entries := map[S := BEFORE]);
    assert Moved(TOP, OPTS, NOBODY, Register(S)) == w1;
    var moves1 := [] + [Register(S)];
    assert Reading(map[S := BEFORE], [S]) == [BEFORE];
    assert S in w1.entries && S in [S];
    ThenOne(moves1, w1, Snapshot([S]));
    var w2 := w1.(sweeps := [[BEFORE]]);
    assert Moved(TOP, OPTS, w1, Snapshot([S])) == w2 by {
      assert [] + [[BEFORE]] == [[BEFORE]];
    }
    ThenOne(moves1 + [Snapshot([S])], w2, Snapshot([S]));
    assert Moved(TOP, OPTS, w2, Snapshot([S])) == READY by {
      assert [[BEFORE]] + [[BEFORE]] == [[BEFORE], [BEFORE]];
    }
    assert moves1 + [Snapshot([S])] + [Snapshot([S])] == [Register(S), Snapshot([S]), Snapshot([S])];
  }

  // ----- reaching states of S's check, one step at a time -----

  /** Some run of the checker gets here: `done` checks are over and one of S stands at `c`. */
  ghost predicate Reached(pending: seq<seq<Shard>>, done: seq<Task>, c: Core, busy: set<ShardId>, log: seq<Event>) {
    exists moves :: Unfold(TOP, OPTS, moves) == Some(At(c.entry, c.misses, busy, pending, done + [Task(S, c.phase)], log))
  }

  lemma Reach(pending: seq<seq<Shard>>, done: seq<Task>, c: Core, log: seq<Event>, a: Act, c': Core, evs: seq<Event>)
    requires Reached(pending, done, c, {S}, log) && !a.Acquire? && Enabled(c, a)
    requires Next(OPTS, c, a) == c' && Emit(OPTS, c, a) == evs
    ensures Reached(pending, done, c', if a.Release? then {} else {S}, log + evs)
  {
    var tasks := done + [Task(S, c.phase)];
    var moves :| Unfold(TOP, OPTS, moves) == Some(At(c.entry, c.misses, {S}, pending, tasks, log));
    hide Next, Emit, Enabled, Unfold;
    Stepped(moves, c.entry, c.misses, {S}, pending, tasks, log, |done|, a);
    assert tasks[|done| := Task(S, c'.phase)] == done + [Task(S, c'.phase)];
    assert {S} - {S} == {};
  }

  const P0 := Pinging(BEFORE, [None, None])
  const P1 := Pinging(BEFORE, [Some(Node("p", Down, 0)), None])
  const P2 := Pinging(BEFORE, [Some(Node("p", Down, 0)), Some(Node("r", Up, 5))])
  const Q1 := Pinging(BEFORE, [Some(Node("p", Up, 0)), None])
  const Q2 := Pinging(BEFORE, [Some(Node("p", Up, 0)), Some(Node("r", Up, 5))])

  const PENDING: seq<seq<Shard>> := [[], [BEFORE]]

  const PING_LOG := [Event.Acquired(BEFORE), Heartbeat("p", Missed), Heartbeat("r", Alive(5)), WroteBack(CHECKED)]
  const FAILOVER_LOG := PING_LOG + [LookedUp(CHECKED), Voted("r", NotStreaming), PgPromoted("r", true), Swapped("p", PROMOTED), Drained("p"), Released]
  const RESTORE_LOG := FAILOVER_LOG
    + [Event.Acquired(BEFORE), Heartbeat("p", Alive(0)), Heartbeat("r", Alive(5)), WroteBack(RESTORED), Released]

  /** What acquiring S's flag does to the world before the first check. */
  lemma FirstAcquires()
    ensures CanMove(TOP, READY, TryAcquire(0))
    ensures Moved(TOP, OPTS, READY, TryAcquire(0)) ==
      At(BEFORE, map[], {S}, PENDING, [] + [Task(S, P0)], [Event.Acquired(BEFORE)])
  {
    hide Unfold, LogOf, MissesOf, Published, Emit, Next, Enabled;
    var w := Moved(TOP, OPTS, READY, TryAcquire(0));
    assert READY.sweeps[0] == [BEFORE] && [BEFORE][1..] == [];
    assert w.sweeps == PENDING;
    assert Blank<Node>(2) == [None, None];
    assert w.tasks == [Task(S, P0)] == [] + [Task(S, P0)];
    var log := [Event.Acquired(BEFORE)];
    assert Front(log) == [];
    assert w.log == Tagged(S, log);
    assert w.busy == {S};
  }

  lemma FirstStarts()
    ensures Reached(PENDING, [], Core(BEFORE, map[], P0), {S}, [Event.Acquired(BEFORE)])
  {
    hide Unfold, Moved, CanMove, At;
    BothSweepsRead();
    FirstAcquires();
    ThenOne([Register(S), Snapshot([S]), Snapshot([S])], READY, TryAcquire(0));
  }

  lemma FirstWritesBack()
    ensures Reached(PENDING, [], Core(CHECKED, MISSED, Deciding), {S}, PING_LOG)
  {
    FirstStarts();
    FirstPings();
    hide Next, Emit, Enabled, Reached;
    var l0 := [Event.Acquired(BEFORE)];
    Reach(PENDING, [], Core(BEFORE, map[], P0), l0, Ping(0, Missed), Core(BEFORE, MISSED, P1), [Heartbeat("p", Missed)]);
    var l1 := l0 + [Heartbeat("p", Missed)];
    Reach(PENDING, [], Core(BEFORE, MISSED, P1), l1, Ping(1, Alive(5)), Core(BEFORE, MISSED, P2), [Heartbeat("r", Alive(5))]);
    var l2 := l1 + [Heartbeat("r", Alive(5))];
    Reach(PENDING, [], Core(BEFORE, MISSED, P2), l2, WriteBack, Core(CHECKED, MISSED, Deciding), [WroteBack(CHECKED)]);
    assert l2 + [WroteBack(CHECKED)] == PING_LOG;
  }

  lemma FirstIsAllowed()
    ensures Reached(PENDING, [], Core(CHECKED, MISSED, Promoting(CHECKED)), {S},
              PING_LOG + [LookedUp(CHECKED), Voted("r", NotStreaming)])
  {
    FirstWritesBack();
    FirstAttempt();
    hide Next, Emit, Reached;
    var c3 := Core(CHECKED, MISSED, Deciding);
    var c4 := Core(CHECKED, MISSED, Voting(CHECKED, [None]));
    var c5 := Core(CHECKED, MISSED, Voting(CHECKED, [Some(NotStreaming)]));
    var c6 := Core(CHECKED, MISSED, Promoting(CHECKED));
    Reach(PENDING, [], c3, PING_LOG, Lookup, c4, [LookedUp(CHECKED)]);
    var l4 := PING_LOG + [LookedUp(CHECKED)];
    Reach(PENDING, [], c4, l4, CastVote(0, NotStreaming), c5, [Voted("r", NotStreaming)]);
    var l5 := l4 + [Voted("r", NotStreaming)];
    Reach(PENDING, [], c5, l5, CountBallots, c6, []);
    assert l5 + [] == PING_LOG + [LookedUp(CHECKED), Voted("r", NotStreaming)];
  }

  lemma FirstSwaps()
    ensures var c6 := Core(CHECKED, MISSED, Promoting(CHECKED));
      var c7 := Core(CHECKED, MISSED, Swapping(CHECKED));
      var c8 := Core(PROMOTED, MISSED, Draining("p"));
      var c9 := Core(PROMOTED, MISSED, Finishing);
      && Enabled(c6, PgPromote(true)) && Next(OPTS, c6, PgPromote(true)) == c7
      && Emit(OPTS, c6, PgPromote(true)) == [PgPromoted("r", true)]
      && Enabled(c7, Swap) && Next(OPTS, c7, Swap) == c8 && Emit(OPTS, c7, Swap) == [Swapped("p", PROMOTED)]
      && Next(OPTS, c8, Drain) == c9 && Emit(OPTS, c8, Drain) == [Drained("p")]
      && Next(OPTS, c9, Release) == Core(PROMOTED, MISSED, Idle) && Emit(OPTS, c9, Release) == [Released]
  {
    FirstVote();
    hide Best, Witnesses, QuorumReached, FailedOver;
  }

  lemma FirstFailsOver()
    ensures Reached(PENDING, [], Core(PROMOTED, MISSED, Idle), {}, FAILOVER_LOG)
  {
    FirstIsAllowed();
    FirstSwaps();
    hide Next, Emit, Reached;
    var c6 := Core(CHECKED, MISSED, Promoting(CHECKED));
    var c7 := Core(CHECKED, MISSED, Swapping(CHECKED));
    var c8 := Core(PROMOTED, MISSED, Draining("p"));
    var c9 := Core(PROMOTED, MISSED, Finishing);
    var l6 := PING_LOG + [LookedUp(CHECKED), Voted("r", NotStreaming)];
    Reach(PENDING, [], c6, l6, PgPromote(true), c7, [PgPromoted("r", true)]);
    var l7 := l6 + [PgPromoted("r", true)];
    Reach(PENDING, [], c7, l7, Swap, c8, [Swapped("p", PROMOTED)]);
    var l8 := l7 + [Swapped("p", PROMOTED)];
    Reach(PENDING, [], c8, l8, Drain, c9, [Drained("p")]);
    var l9 := l8 + [Drained("p")];
    Reach(PENDING, [], c9, l9, Release, Core(PROMOTED, MISSED, Idle), [Released]);
    assert l9 + [Released] == FAILOVER_LOG;
  }

  /** The second sweep takes the flag now free, still holding the entry it read before the failover. */
  lemma SecondStarts()
    ensures Reached([[], []], [Task(S, Idle)], Core(PROMOTED, MISSED, P0), {S}, FAILOVER_LOG + [Event.Acquired(BEFORE)])
  {
    hide Unfold, LogOf, MissesOf, Published;
    FirstFailsOver();
    var tasks := [] + [Task(S, Idle)];
    var moves :| Unfold(TOP, OPTS, moves) == Some(At(PROMOTED, MISSED, {}, PENDING, tasks, FAILOVER_LOG));
    var w := At(PROMOTED, MISSED, {}, PENDING, tasks, FAILOVER_LOG);
    ThenOne(moves, w, TryAcquire(1));
    var w' := Moved(TOP, OPTS, w, TryAcquire(1));
    assert [BEFORE][1..] == [];
    assert w'.sweeps == [[], []];
    assert Blank<Node>(2) == [None, None];
    assert w'.tasks == [Task(S, Idle)] + [Task(S, P0)];
    Snoc(FAILOVER_LOG, Event.Acquired(BEFORE));
    assert w'.log == Tagged(S, FAILOVER_LOG + [Event.Acquired(BEFORE)]);
    assert w'.busy == {S};
    assert w' == At(PROMOTED, MISSED, {S}, [[], []], [Task(S, Idle)] + [Task(S, P0)], FAILOVER_LOG + [Event.Acquired(BEFORE)]);
  }

  lemma SecondRestores()
    ensures Reached([[], []], [Task(S, Idle)], Core(RESTORED, map[], Idle), {}, RESTORE_LOG)
  {
    SecondStarts();
    SecondCheck();
    hide Next, Emit, Enabled, Reached;
    var done := [Task(S, Idle)];
    var l0 := FAILOVER_LOG + [Event.Acquired(BEFORE)];
    Reach([[], []], done, Core(PROMOTED, MISSED, P0), l0, Ping(0, Alive(0)), Core(PROMOTED, map[], Q1), [Heartbeat("p", Alive(0))]);
    var l1 := l0 + [Heartbeat("p", Alive(0))];
    Reach([[], []], done, Core(PROMOTED, map[], Q1), l1, Ping(1, Alive(5)), Core(PROMOTED, map[], Q2), [Heartbeat("r", Alive(5))]);
    var l2 := l1 + [Heartbeat("r", Alive(5))];
    Reach([[], []], done, Core(PROMOTED, map[], Q2), l2, WriteBack, Core(RESTORED, map[], Finishing), [WroteBack(RESTORED)]);
    var l3 := l2 + [WroteBack(RESTORED)];
    LastRelease();
    Reach([[], []], done, Core(RESTORED, map[], Finishing), l3, Release, Core(RESTORED, map[], Idle), [Released]);
    assert l3 + [Released] == RESTORE_LOG;
  }

  lemma LastRelease()
    ensures var c := Core(RESTORED, map[], Finishing);
      Enabled(c, Release) && Next(OPTS, c, Release) == Core(RESTORED, map[], Idle) && Emit(OPTS, c, Release) == [Released]
  {
  }

  lemma RestoreUndoes()
    ensures !NothingUndone(BEFORE, RESTORE_LOG) && "p" in Retired(RESTORE_LOG) && PgPromoted("r", true) in RESTORE_LOG
  {
    var l := FAILOVER_LOG + [Event.Acquired(BEFORE), Heartbeat("p", Alive(0)), Heartbeat("r", Alive(5))];
    assert Front(RESTORE_LOG) == l + [WroteBack(RESTORED)];
    Snoc(l, WroteBack(RESTORED));
    var l7 := PING_LOG + [LookedUp(CHECKED), Voted("r", NotStreaming), PgPromoted("r", true)];
    assert RESTORE_LOG[6] == PgPromoted("r", true);
    var l8 := l7 + [Swapped("p", PROMOTED)];
    Snoc(l7, Swapped("p", PROMOTED));
    var l9, l10 := l8 + [Drained("p")], l8 + [Drained("p"), Released];
    assert Front(l9) == l8 && Front(l10) == l9 && l10 == FAILOVER_LOG;
    var l11 := l10 + [Event.Acquired(BEFORE)];
    var l12 := l11 + [Heartbeat("p", Alive(0))];
    assert Front(l11) == l10 && Front(l12) == l11 && Front(l) == l12;
    assert Current(BEFORE, l8) == PROMOTED && "p" in Retired(l8);
    assert Current(BEFORE, l9) == PROMOTED && "p" in Retired(l9);
    assert Current(BEFORE, l10) == PROMOTED && "p" in Retired(l10);
    assert Current(BEFORE, l11) == PROMOTED && "p" in Retired(l11);
    assert Current(BEFORE, l12) == PROMOTED && "p" in Retired(l12);
    assert Current(BEFORE, l) == PROMOTED && "p" in Retired(l);
    assert "p" in Retired(Front(RESTORE_LOG));
  }

  /** No check is in flight, pg_promote has succeeded on r, a failover has retired p, and p is the primary again. */
  ghost predicate RetiredPrimaryIsBack(w: World) {
    && w.busy == {} && w.entries == map[S := RESTORED] && RESTORED.primary.addr == "p"
    && PgPromoted("r", true) in LogOf(w.log, S)
    && "p" in Retired(LogOf(w.log, S))
    && !NothingUndone(BEFORE, LogOf(w.log, S))
  }

  lemma RestoredStateIsBack(tasks: seq<Task>)
    ensures RetiredPrimaryIsBack(At(RESTORED, map[], {}, [[], []], tasks, RESTORE_LOG))
  {
    hide Retired, NothingUndone, Tagged;
    RestoreUndoes();
    LogOfTagged([], S, RESTORE_LOG, S);
    assert [] + Tagged(S, RESTORE_LOG) == Tagged(S, RESTORE_LOG);
    assert LogOf([], S) + RESTORE_LOG == RESTORE_LOG;
  }

  /** A run of the code's own step order puts a retired primary back. */
  lemma StaleCheckRestoresRetiredPrimary()
    ensures Topology(TOP)
    ensures exists moves :: Unfold(TOP, OPTS, moves).Some? && RetiredPrimaryIsBack(Unfold(TOP, OPTS, moves).value)
  {
    SecondRestores();
    var done := [Task(S, Idle)];
    var moves :| Unfold(TOP, OPTS, moves) == Some(At(RESTORED, map[], {}, [[], []], done + [Task(S, Idle)], RESTORE_LOG));
    RestoredStateIsBack(done + [Task(S, Idle)]);
    hide RetiredPrimaryIsBack, Unfold;
  }
}
