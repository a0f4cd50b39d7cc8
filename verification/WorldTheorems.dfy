/** The checker's guarantees over whole runs: every shard, every interleaving of overlapping sweeps. */
module WorldTheorems {
  import opened Prelude
  import opened ShardMap
  import opened Failover
  import opened Checker
  import opened CheckMachine
  import opened CheckShape
  import opened CheckReduction
  import opened CheckCalls
  import opened CheckSafety
  import opened CheckCertificate
  import opened CheckCurrency
  import opened CheckLag
  import Recovery
  import opened World
  import opened WorldProjection

  /** A shard is never checked twice at once, and a busy flag always has a check behind it. */
  lemma OneCheckPerShard(top: map<ShardId, Shard>, opts: Options, moves: seq<Move>, t: nat, u: nat)
    requires Topology(top) && Unfold(top, opts, moves).Some?
    requires var tasks := Unfold(top, opts, moves).value.tasks;
      t < |tasks| && u < |tasks| && !tasks[t].phase.Idle? && !tasks[u].phase.Idle? && tasks[t].id == tasks[u].id
    ensures t == u
    ensures var w := Unfold(top, opts, moves).value;
      w.tasks[t].id in w.busy && w.tasks[t].id in w.entries
  {
    WorldRunsProject(top, opts, moves);
  }

  /** A registered shard's view is a reachable state of its own machine, quiet when its flag is down. */
  lemma ViewIsReachable(top: map<ShardId, Shard>, opts: Options, moves: seq<Move>, id: ShardId)
    requires Topology(top) && Unfold(top, opts, moves).Some?
    requires id in Unfold(top, opts, moves).value.entries
    ensures id in top && Configured(top[id])
    ensures var w := Unfold(top, opts, moves).value;
      var s := View(top, w, id);
      && Run(opts, top[id], ActsOf(top, opts, moves, id)) == Some(s)
      && s.core.entry == w.entries[id] && s.log == LogOf(w.log, id) && s.core.misses == MissesOf(w.misses, top[id])
      && (id !in w.busy ==> s.core.phase.Idle?)
  {
    hide Unfold, Run, ActsOf, InFlight, Exclusive, PhaseOf, Remembered, AllShaped, SweepsRegistered, LogOf, MissesOf, Configured;
    WorldRunsProject(top, opts, moves);
    PhaseOfNone(Unfold(top, opts, moves).value.tasks, id);
  }

  /**
   * Per-shard reduction: a shard that is not being checked is exactly where whole checks run one after another
   * would have left it, however sweeps, pings and votes interleaved. Each of them started from a published entry,
   * and made the calls of its whole check: the votes in some order, then pg_promote, the swap and the drain.
   */
  lemma QuietShardsAreSequential(top: map<ShardId, Shard>, opts: Options, moves: seq<Move>, id: ShardId)
    requires Topology(top) && Unfold(top, opts, moves).Some?
    requires var w := Unfold(top, opts, moves).value; id in w.entries && id !in w.busy
    ensures id in top
    ensures var w := Unfold(top, opts, moves).value;
      var log := LogOf(w.log, id);
      && Ledger(w.entries[id], MissesOf(w.misses, top[id])) == Replay(opts, top[id], Rounds(log))
      && Accounted(opts, top[id], Rounds(log), Made(log))
      && forall i :: 0 <= i < |log| && log[i].Acquired? ==> log[i].snap in Published(top[id], log[..i])
  {
    hide Unfold, Run, ActsOf, View, Replay, Rounds, Made, Accounted, Published, LogOf, MissesOf, Topology, Configured;
    ViewIsReachable(top, opts, moves, id);
    ConcurrentIsSequential(opts, top[id], ActsOf(top, opts, moves, id));
    ChecksStartFromPublished(opts, top[id], ActsOf(top, opts, moves, id));
  }

  /** Mid-check too: every finished check has made its whole check's calls, the running one those of its stage. */
  lemma CallsAreAccounted(top: map<ShardId, Shard>, opts: Options, moves: seq<Move>, id: ShardId)
    requires Topology(top) && Unfold(top, opts, moves).Some?
    requires id in Unfold(top, opts, moves).value.entries
    ensures id in top
    ensures Accounts(opts, top[id], View(top, Unfold(top, opts, moves).value, id))
  {
    hide Unfold, Run, ActsOf, View, LogOf, MissesOf, Topology, Configured, Reduces, Accounts;
    ViewIsReachable(top, opts, moves, id);
    ConcurrentIsSequential(opts, top[id], ActsOf(top, opts, moves, id));
  }

  /** In every state, mid-check included, a node's count is its trailing run of failed heartbeats. */
  lemma MissesAreTrailingFailures(top: map<ShardId, Shard>, opts: Options, moves: seq<Move>, id: ShardId, a: Addr)
    requires Topology(top) && Unfold(top, opts, moves).Some?
    requires id in top && a in Addrs(top[id])
    ensures var w := Unfold(top, opts, moves).value; Count(w.misses, a) == MissRun(LogOf(w.log, id), a)
  {
    WorldRunsProject(top, opts, moves);
    CountsAreMissRuns(opts, top[id], ActsOf(top, opts, moves, id));
    var w := Unfold(top, opts, moves).value;
    assert Count(MissesOf(w.misses, top[id]), a) == Count(w.misses, a);
  }

  /** Whenever a checked shard is not being checked, its statuses are the thresholds of its heartbeat history. */
  lemma CheckedShardsAreSettled(top: map<ShardId, Shard>, opts: Options, moves: seq<Move>, id: ShardId)
    requires Topology(top) && Unfold(top, opts, moves).Some?
    requires var w := Unfold(top, opts, moves).value;
      id in w.entries && id !in w.busy && id in top && Rounds(LogOf(w.log, id)) != []
    ensures var w := Unfold(top, opts, moves).value;
      var log := LogOf(w.log, id);
      var r, m := Last(Rounds(log)), Replay(opts, top[id], Front(Rounds(log))).misses;
      Settled(opts, w.entries[id], a => MissRun(log, a), FailsOver(opts, Refreshed(opts, r.snap, m, r.answers), r.answers))
  {
    hide Unfold, Run, ActsOf, View, Replay, Rounds, LogOf, MissesOf, Settled, FailsOver, Refreshed, Topology, Configured;
    ViewIsReachable(top, opts, moves, id);
    IdleShardsAreSettled(opts, top[id], ActsOf(top, opts, moves, id));
  }

  /** No run calls pg_promote on a node without a dead primary, a live candidate and the replicas' consent. */
  lemma EveryPromotionIsCertified(top: map<ShardId, Shard>, opts: Options, moves: seq<Move>, id: ShardId)
    requires Topology(top) && Unfold(top, opts, moves).Some? && id in top
    ensures var log := LogOf(Unfold(top, opts, moves).value.log, id);
      forall i :: 0 <= i < |log| && log[i].PgPromoted? ==> Certified(opts, log[..i], log[i].addr)
  {
    WorldRunsProject(top, opts, moves);
    PromotionsAreCertified(opts, top[id], ActsOf(top, opts, moves, id));
  }

  /** The table, every earlier table, and every sweep's snapshot name only configured or promoted primaries. */
  lemma OnlyVouchedPrimaries(top: map<ShardId, Shard>, opts: Options, moves: seq<Move>, id: ShardId)
    requires Topology(top) && opts.pgPromote && Unfold(top, opts, moves).Some?
    requires id in Unfold(top, opts, moves).value.entries
    ensures id in top
    ensures var w := Unfold(top, opts, moves).value;
      var log := LogOf(w.log, id);
      && Vouched(top[id], log, w.entries[id].primary.addr)
      && (forall i :: 0 <= i < |log| && (log[i].WroteBack? || log[i].Swapped?) ==>
            Vouched(top[id], log[..i], log[i].e.primary.addr))
      && (forall k, i :: 0 <= k < |w.sweeps| && 0 <= i < |w.sweeps[k]| && w.sweeps[k][i].id == id ==>
            Vouched(top[id], log, w.sweeps[k][i].primary.addr))
  {
    WorldRunsProject(top, opts, moves);
    RoutingNamesOnlyVouchedPrimaries(opts, top[id], ActsOf(top, opts, moves, id));
  }

  /** Whatever the interleaving, an entry names distinct nodes, all configured for its own shard. */
  lemma EntriesAreDrawnFromConfig(top: map<ShardId, Shard>, opts: Options, moves: seq<Move>, id: ShardId)
    requires Topology(top) && Unfold(top, opts, moves).Some?
    requires id in Unfold(top, opts, moves).value.entries
    ensures id in top
    ensures var e := Unfold(top, opts, moves).value.entries[id];
      e.id == id && NoDup(Addrs(e)) && e.primary.lagMS == 0 && forall a :: a in Addrs(e) ==> a in Addrs(top[id])
  {
    WorldRunsProject(top, opts, moves);
    var w := Unfold(top, opts, moves).value;
    assert Shaped(top[id], View(top, w, id));
    EntriesStayDistinct(opts, top[id], ActsOf(top, opts, moves, id), w.entries[id]);
    PublishedPrimariesHaveNoLag(opts, top[id], ActsOf(top, opts, moves, id));
  }

  // ----- what depends on snapshots being current -----

  /** Every check began from a snapshot that was still the table's entry when `tryAcquire` took the flag. */
  ghost predicate CurrentStarts(top: map<ShardId, Shard>, opts: Options, moves: seq<Move>)
    requires Unfold(top, opts, moves).Some?
  {
    moves == [] || (
      && CurrentStarts(top, opts, Front(moves))
      && var w := Unfold(top, opts, Front(moves)).value;
      && (Last(moves).TryAcquire? ==>
            var snap := w.sweeps[Last(moves).sweep][0];
            snap.id in w.entries && (snap.id !in w.busy ==> snap == w.entries[snap.id])))
  }

  lemma {:induction false} CurrentStartsAreFresh(top: map<ShardId, Shard>, opts: Options, moves: seq<Move>, id: ShardId)
    requires Topology(top) && Unfold(top, opts, moves).Some? && CurrentStarts(top, opts, moves) && id in top
    ensures FreshSnapshots(top[id], LogOf(Unfold(top, opts, moves).value.log, id))
  {
    if moves != [] {
      CurrentStartsAreFresh(top, opts, Front(moves), id);
      WorldRunsProject(top, opts, Front(moves));
      var w, m := Unfold(top, opts, Front(moves)).value, Last(moves);
      MoveView(top, opts, w, m, id);
      FreshStep(top, opts, w, m, id);
    }
  }

  lemma FreshStep(top: map<ShardId, Shard>, opts: Options, w: World, m: Move, id: ShardId)
    requires id in top && CanMove(top, w, m) && ViewFollows(top, opts, w, m, id)
    requires AllShaped(top, w) && FreshSnapshots(top[id], LogOf(w.log, id))
    requires m.TryAcquire? ==> var snap := w.sweeps[m.sweep][0];
      snap.id in w.entries && (snap.id !in w.busy ==> snap == w.entries[snap.id])
    ensures FreshSnapshots(top[id], LogOf(Moved(top, opts, w, m).log, id))
  {
    var steps := StepOf(w, m, id);
    hide FreshSnapshots, Moved, PhaseOf, LogOf, MissesOf, Fits, Published;
    if steps != [] {
      HistoryGrows(opts, top[id], View(top, w, id), steps[0]);
      assert Shaped(top[id], View(top, w, id));
    }
  }

  /**
   * With current starts a failover is never undone, at any moment of any run: the primary moves only by failing
   * over, retired primaries stay out, every failover costs one replica. Whenever the shard is not being checked,
   * its replicas' lags are their last measurements.
   */
  lemma FailoversStayDone(top: map<ShardId, Shard>, opts: Options, moves: seq<Move>, id: ShardId)
    requires Topology(top) && Unfold(top, opts, moves).Some? && CurrentStarts(top, opts, moves)
    requires id in Unfold(top, opts, moves).value.entries
    ensures id in top
    ensures var w := Unfold(top, opts, moves).value;
      var log, e := LogOf(w.log, id), w.entries[id];
      && NothingUndone(top[id], log)
      && (forall a :: a in Retired(log) ==> a !in Addrs(e))
      && multiset(Addrs(e)) + multiset(Retired(log)) == multiset(Addrs(top[id]))
      && |Retired(log)| + |e.replicas| == |top[id].replicas|
      && (id !in w.busy ==> LagsOf(e.replicas, log))
  {
    hide Unfold, Run, ActsOf, View, LogOf, MissesOf, Topology, CurrentStarts, Configured, NothingUndone, Retired, Addrs;
    hide FreshSnapshots, FreshPrimaries, LagsOf, Published;
    ViewIsReachable(top, opts, moves, id);
    CurrentStartsAreFresh(top, opts, moves, id);
    var w := Unfold(top, opts, moves).value;
    var acts := ActsOf(top, opts, moves, id);
    FreshSnapshotsNameFreshPrimaries(top[id], LogOf(w.log, id));
    FailoversAreUndoneExactlyByStaleStarts(opts, top[id], acts);
    RetiredNeverReappear(opts, top[id], acts);
    NodesAreConserved(opts, top[id], acts);
    LagIsLastMeasurement(opts, top[id], acts);
  }

  /** And a quiet shard is where its checks, each starting from the entry the one before it left, have brought it. */
  lemma CurrentStartsAreASequence(top: map<ShardId, Shard>, opts: Options, moves: seq<Move>, id: ShardId)
    requires Topology(top) && Unfold(top, opts, moves).Some? && CurrentStarts(top, opts, moves)
    requires var w := Unfold(top, opts, moves).value; id in w.entries && id !in w.busy
    ensures id in top
    ensures var w := Unfold(top, opts, moves).value;
      Ledger(w.entries[id], MissesOf(w.misses, top[id]))
        == Recovery.InSequence(opts, Ledger(top[id], map[]), Recovery.AnswersOf(Rounds(LogOf(w.log, id))))
  {
    hide Unfold, Run, ActsOf, View, Rounds, LogOf, MissesOf, Topology, Configured, CurrentStarts, FreshSnapshots;
    hide Recovery.InSequence, Recovery.AnswersOf;
    ViewIsReachable(top, opts, moves, id);
    CurrentStartsAreFresh(top, opts, moves, id);
    Recovery.FreshRunsAreSequences(opts, top[id], ActsOf(top, opts, moves, id));
  }

  /**
   * Bounded recovery in a run: when from the `k`-th check on a quiet shard's primary has failed every heartbeat, for
   * at least `downAfter` checks, none before the last replaced it, and the last one's answers allow it, the primary
   * is now that check's least-lagged usable replica.
   */
  lemma DeadPrimaryIsReplaced(top: map<ShardId, Shard>, opts: Options, moves: seq<Move>, id: ShardId, k: nat)
    requires Topology(top) && Unfold(top, opts, moves).Some? && CurrentStarts(top, opts, moves) && opts.downAfter >= 1
    requires var w := Unfold(top, opts, moves).value;
      id in w.entries && id !in w.busy && id in top
      && Recovery.DeadSince(opts, Ledger(top[id], map[]), Recovery.AnswersOf(Rounds(LogOf(w.log, id))), k)
    ensures var w := Unfold(top, opts, moves).value;
      var checked := Recovery.LastChecked(opts, Ledger(top[id], map[]), Recovery.AnswersOf(Rounds(LogOf(w.log, id))));
      exists b :: IsBest(checked.replicas, b)
        && w.entries[id] == Shard(id, Node(checked.replicas[b].addr, Up, 0), RemoveAt(checked.replicas, b))
  {
    hide Unfold, Run, ActsOf, View, Rounds, LogOf, MissesOf, CurrentStarts;
    hide Recovery.InSequence, Recovery.AnswersOf, Recovery.DeadSince, Recovery.LastChecked;
    CurrentStartsAreASequence(top, opts, moves, id);
    assert Configured(top[id]) && top[id].id == id;
    Recovery.ReplacedInTheEnd(opts, Ledger(top[id], map[]),
      Recovery.AnswersOf(Rounds(LogOf(Unfold(top, opts, moves).value.log, id))), k);
  }

  /** In general, for a shard not being checked, nothing was undone exactly when every start named the current primary. */
  lemma UndoneExactlyByStaleStarts(top: map<ShardId, Shard>, opts: Options, moves: seq<Move>, id: ShardId)
    requires Topology(top) && Unfold(top, opts, moves).Some?
    requires var w := Unfold(top, opts, moves).value; id in w.entries && id !in w.busy
    ensures id in top
    ensures var log := LogOf(Unfold(top, opts, moves).value.log, id);
      NothingUndone(top[id], log) <==> FreshPrimaries(top[id], log)
  {
    ViewIsReachable(top, opts, moves, id);
    hide Unfold, Run, ActsOf, View, LogOf, MissesOf, Topology;
    FailoversAreUndoneExactlyByStaleStarts(opts, top[id], ActsOf(top, opts, moves, id));
  }

  // ----- sweeps that do not overlap always start current -----

  /** Each sweep reads the table only once the previous one has handed out its shards and all checks are done. */
  ghost predicate OneSweepAtATime(top: map<ShardId, Shard>, opts: Options, moves: seq<Move>)
    requires Unfold(top, opts, moves).Some?
  {
    moves == [] || (
      && OneSweepAtATime(top, opts, Front(moves))
      && var w := Unfold(top, opts, Front(moves)).value;
      && (Last(moves).Snapshot? ==> w.busy == {} && forall k :: 0 <= k < |w.sweeps| ==> w.sweeps[k] == []))
  }

  /** What a sweep has yet to hand out is current, free, and listed once. */
  ghost predicate PendingIsCurrent(w: World) {
    && (forall k, i :: 0 <= k < |w.sweeps| && 0 <= i < |w.sweeps[k]| ==>
          var e := w.sweeps[k][i]; e.id in w.entries && w.entries[e.id] == e && e.id !in w.busy)
    && (forall k, l, i, j :: 0 <= k < |w.sweeps| && 0 <= i < |w.sweeps[k]| && 0 <= l < |w.sweeps| && 0 <= j < |w.sweeps[l]| ==>
          w.sweeps[k][i].id == w.sweeps[l][j].id ==> k == l && i == j)
  }

  lemma PendingStaysCurrent(top: map<ShardId, Shard>, opts: Options, w: World, m: Move)
    requires Orderly(top, w) && PendingIsCurrent(w) && CanMove(top, w, m)
    requires m.Snapshot? ==> w.busy == {} && forall k :: 0 <= k < |w.sweeps| ==> w.sweeps[k] == []
    ensures PendingIsCurrent(Moved(top, opts, w, m))
  {
    hide Exclusive, Enabled, Next, Emit;
    match m {
      case Register(id) =>
      case Snapshot(order) =>
      case TryAcquire(k) => AcquirePending(top, opts, w, k);
      case Advance(t, a) => AdvancePending(top, opts, w, t, a);
    }
  }

  lemma AcquirePending(top: map<ShardId, Shard>, opts: Options, w: World, k: nat)
    requires PendingIsCurrent(w) && CanMove(top, w, TryAcquire(k))
    ensures PendingIsCurrent(Moved(top, opts, w, TryAcquire(k)))
  {
    var w' := Moved(top, opts, w, TryAcquire(k));
    forall l, j | 0 <= l < |w'.sweeps| && 0 <= j < |w'.sweeps[l]|
      ensures w'.sweeps[l][j] == w.sweeps[l][if l == k then j + 1 else j]
    {
    }
  }

  lemma AdvancePending(top: map<ShardId, Shard>, opts: Options, w: World, t: nat, a: Act)
    requires Orderly(top, w) && PendingIsCurrent(w) && CanMove(top, w, Advance(t, a))
    ensures PendingIsCurrent(Moved(top, opts, w, Advance(t, a)))
  {
    OnlyReleaseIdles(opts, CoreOf(w, w.tasks[t]), a);
    assert InFlight(w.tasks, w.tasks[t].id);
    hide Exclusive, Enabled, Next, Emit, InFlight;
  }

  lemma {:induction false} SeparateSweepsStartCurrent(top: map<ShardId, Shard>, opts: Options, moves: seq<Move>)
    requires Topology(top) && Unfold(top, opts, moves).Some? && OneSweepAtATime(top, opts, moves)
    ensures CurrentStarts(top, opts, moves) && PendingIsCurrent(Unfold(top, opts, moves).value)
  {
    if moves != [] {
      SeparateSweepsStartCurrent(top, opts, Front(moves));
      WorldRunsProject(top, opts, Front(moves));
      PendingStaysCurrent(top, opts, Unfold(top, opts, Front(moves)).value, Last(moves));
      hide Moved, Orderly;
    }
  }
}
