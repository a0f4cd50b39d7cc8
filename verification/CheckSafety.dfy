/** What holds in every run of a shard's checks, stale snapshots included: counts, statuses, certificates, promotions. */
module CheckSafety {
  import opened Prelude
  import opened ShardMap
  import opened Failover
  import opened Checker
  import opened CheckMachine
  import opened CheckShape
  import opened CheckReduction

  // ----- miss counting -----

  ghost predicate CountsMissRuns(s: Local) {
    forall a :: Count(s.core.misses, a) == MissRun(s.log, a)
  }

  lemma MissRunGrows(opts: Options, init: Shard, s: Local, a: Act, b: Addr)
    requires CanStep(init, s, a)
    ensures MissRun(Step(opts, init, s, a).log, b) ==
      if a.Ping? && NodeAt(s.core.phase.snap, a.slot).addr == b
      then (if a.answer.Alive? then 0 else MissRun(s.log, b) + 1)
      else MissRun(s.log, b)
  {
    if a.CountBallots? {
      assert s.log + [] == s.log;
    } else {
      Snoc(s.log, Emit(opts, s.core, a)[0]);
    }
  }

  lemma StepKeepsCounts(opts: Options, init: Shard, s: Local, a: Act)
    requires CountsMissRuns(s) && CanStep(init, s, a)
    ensures CountsMissRuns(Step(opts, init, s, a))
  {
    forall b ensures Count(Next(opts, s.core, a).misses, b) == MissRun(Step(opts, init, s, a).log, b) {
      MissRunGrows(opts, init, s, a, b);
      hide MissRun, Emit, Published;
      assert Count(s.core.misses, b) == MissRun(s.log, b);
    }
  }

  /** In every reachable state a node's count is the length of the trailing run of failures in its history. */
  lemma {:induction false} CountsAreMissRuns(opts: Options, init: Shard, acts: seq<Act>)
    requires Run(opts, init, acts).Some?
    ensures CountsMissRuns(Run(opts, init, acts).value)
  {
    if acts != [] {
      CountsAreMissRuns(opts, init, Front(acts));
      StepKeepsCounts(opts, init, Run(opts, init, Front(acts)).value, Last(acts));
    }
  }

  /** Every replica's status is where its count puts it between the thresholds; so is the primary's, unless just promoted. */
  predicate Settled(opts: Options, e: Shard, counts: Addr -> nat, promoted: bool) {
    && (forall i :: 0 <= i < |e.replicas| ==> MeetsThresholds(opts, e.replicas[i].status, counts(e.replicas[i].addr)))
    && (if promoted then e.primary.status == Up && counts(e.primary.addr) < opts.downAfter
        else MeetsThresholds(opts, e.primary.status, counts(e.primary.addr)))
  }

  lemma CountAfterPings(m: Misses, s: Shard, answers: Answers, i: nat)
    requires i <= |s.replicas|
    ensures Count(AfterPings(m, AddrSet(s), answers), NodeAt(s, i).addr) == NextCount(m, NodeAt(s, i).addr, answers)
  {
    AddrAt(s, i);
    assert NodeAt(s, i).addr in AddrSet(s);
  }

  /** Each node of a refreshed entry is where its count after the check puts it. */
  lemma RefreshedMeetsThresholds(opts: Options, snap: Shard, m: Misses, answers: Answers, i: nat)
    requires i <= |snap.replicas|
    ensures var e := Refreshed(opts, snap, m, answers);
      |e.replicas| == |snap.replicas|
      && MeetsThresholds(opts, NodeAt(e, i).status, Count(AfterPings(m, AddrSet(snap), answers), NodeAt(e, i).addr))
  {
    hide AfterPings, Count, NextCount, StatusOf, MeetsThresholds;
    CountAfterPings(m, snap, answers, i);
    var n := NodeAt(snap, i);
    StatusMeetsThresholds(opts, StatusOf(opts, NextCount(m, n.addr, answers)), NextCount(m, n.addr, answers));
  }

  lemma WholeCheckSettles(opts: Options, snap: Shard, m: Misses, answers: Answers)
    ensures var after := WholeCheck(opts, snap, m, answers);
      Settled(opts, after.entry, a => Count(after.misses, a), FailsOver(opts, Refreshed(opts, snap, m, answers), answers))
  {
    hide AfterPings, Refreshed, Count, AddrSet;
    var after := WholeCheck(opts, snap, m, answers);
    var e := Refreshed(opts, snap, m, answers);
    RefreshedMeetsThresholds(opts, snap, m, answers, 0);
    forall i | 0 <= i < |e.replicas|
      ensures MeetsThresholds(opts, e.replicas[i].status, Count(after.misses, e.replicas[i].addr))
    {
      RefreshedMeetsThresholds(opts, snap, m, answers, i + 1);
    }
    if FailsOver(opts, e, answers) {
      BestIsTheBest(e.replicas);
      assert IsBest(e.replicas, Best(e.replicas));
    }
  }

  /** Whenever a checked shard is not being checked, its statuses say what the heartbeat history says. */
  lemma IdleShardsAreSettled(opts: Options, init: Shard, acts: seq<Act>)
    requires Configured(init) && Run(opts, init, acts).Some?
    requires var s := Run(opts, init, acts).value; s.core.phase.Idle? && Rounds(s.log) != []
    ensures var s := Run(opts, init, acts).value;
      var r := Last(Rounds(s.log));
      var m := Replay(opts, init, Front(Rounds(s.log))).misses;
      Settled(opts, s.core.entry, a => MissRun(s.log, a), FailsOver(opts, Refreshed(opts, r.snap, m, r.answers), r.answers))
  {
    var s := Run(opts, init, acts).value;
    RunsReduce(opts, init, acts);
    CountsAreMissRuns(opts, init, acts);
    var r := Last(Rounds(s.log));
    WholeCheckSettles(opts, r.snap, Replay(opts, init, Front(Rounds(s.log))).misses, r.answers);
  }

  // ----- promotions name only vouched-for nodes -----

  /** The configured primary, or a node on which pg_promote has succeeded. */
  predicate Vouched(init: Shard, log: seq<Event>, a: Addr) {
    a == init.primary.addr || PgPromoted(a, true) in log
  }

  ghost predicate PrimariesVouched(opts: Options, init: Shard, s: Local) {
    && (forall e :: e in Published(init, s.log) ==> Vouched(init, s.log, e.primary.addr))
    && (s.core.phase.Swapping? && Best(s.core.phase.s.replicas) != -1 && opts.pgPromote ==>
          PgPromoted(CandidateOf(s.core.phase.s).addr, true) in s.log)
  }

  lemma StillVouched(init: Shard, log: seq<Event>, more: seq<Event>, a: Addr)
    requires Vouched(init, log, a)
    ensures Vouched(init, log + more, a)
  {
  }

  /** The primary a step publishes was vouched for before it. */
  lemma WriterIsVouched(opts: Options, init: Shard, s: Local, a: Act)
    requires opts.pgPromote && Shaped(init, s) && PrimariesVouched(opts, init, s) && CanStep(init, s, a)
    requires a.WriteBack? || a.Swap?
    ensures Vouched(init, s.log, Step(opts, init, s, a).core.entry.primary.addr)
  {
    hide Published, Emit, Fits, Current, Best, Witnesses;
    if a.WriteBack? {
      WriteBackAddrs(s, init, opts);
      PrimaryFirst(Next(opts, s.core, a).entry);
      PrimaryFirst(s.core.phase.snap);
    }
  }

  lemma PrimaryFirst(e: Shard)
    ensures Addrs(e)[0] == e.primary.addr
  {
  }

  /** With pg_promote on, only a successful one leads to a swap, and it leaves its mark in the log. */
  lemma SwapsAreVouched(opts: Options, init: Shard, s: Local, a: Act)
    requires opts.pgPromote && CanStep(init, s, a) && Step(opts, init, s, a).core.phase.Swapping?
    ensures a == PgPromote(true) && Best(s.core.phase.s.replicas) != -1
    ensures Step(opts, init, s, a).core.phase.s == s.core.phase.s
    ensures PgPromoted(CandidateOf(s.core.phase.s).addr, true) in Step(opts, init, s, a).log
  {
    hide Published, QuorumReached, Best, Witnesses, Values, AllIn, Assembled, FailedOver, Pinged, Recorded;
    assert Step(opts, init, s, a).log == s.log + Emit(opts, s.core, a);
  }

  lemma StepKeepsVouched(opts: Options, init: Shard, s: Local, a: Act)
    requires opts.pgPromote && Shaped(init, s) && PrimariesVouched(opts, init, s) && CanStep(init, s, a)
    ensures PrimariesVouched(opts, init, Step(opts, init, s, a))
  {
    hide Published, Emit, Fits, Current, Vouched, Next, Enabled, Best, PhaseFits;
    var s' := Step(opts, init, s, a);
    PublishedGrows(opts, init, s, a);
    forall e | e in Published(init, s'.log) ensures Vouched(init, s'.log, e.primary.addr) {
      if e !in Published(init, s.log) {
        WriterIsVouched(opts, init, s, a);
      }
      StillVouched(init, s.log, Emit(opts, s.core, a), e.primary.addr);
    }
    if s'.core.phase.Swapping? {
      SwapsAreVouched(opts, init, s, a);
    }
  }

  /** Whenever the table is written, the primary it names was vouched for before that write. */
  lemma {:induction false} RoutingNamesOnlyVouchedPrimaries(opts: Options, init: Shard, acts: seq<Act>)
    requires opts.pgPromote && Run(opts, init, acts).Some?
    ensures var s := Run(opts, init, acts).value;
      && PrimariesVouched(opts, init, s)
      && Vouched(init, s.log, s.core.entry.primary.addr)
      && forall i :: 0 <= i < |s.log| && (s.log[i].WroteBack? || s.log[i].Swapped?) ==>
           Vouched(init, s.log[..i], s.log[i].e.primary.addr)
  {
    if acts != [] {
      RoutingNamesOnlyVouchedPrimaries(opts, init, Front(acts));
      RunsAreShaped(opts, init, Front(acts));
      var before := Run(opts, init, Front(acts)).value;
      StepKeepsVouched(opts, init, before, Last(acts));
      StepKeepsShape(opts, init, before, Last(acts));
      WritesAreVouched(opts, init, before, Last(acts));
    }
  }

  lemma WritesAreVouched(opts: Options, init: Shard, s: Local, a: Act)
    requires opts.pgPromote && Shaped(init, s) && PrimariesVouched(opts, init, s) && CanStep(init, s, a)
    requires forall i :: 0 <= i < |s.log| && (s.log[i].WroteBack? || s.log[i].Swapped?) ==>
      Vouched(init, s.log[..i], s.log[i].e.primary.addr)
    ensures var log := Step(opts, init, s, a).log;
      forall i :: 0 <= i < |log| && (log[i].WroteBack? || log[i].Swapped?) ==> Vouched(init, log[..i], log[i].e.primary.addr)
  {
    var log := Step(opts, init, s, a).log;
    assert forall i :: 0 <= i < |s.log| ==> log[..i] == s.log[..i];
    if a.WriteBack? {
      WriteBackAddrs(s, init, opts);
      var e := Next(opts, s.core, a).entry;
      assert e.primary.addr == Addrs(e)[0] == s.core.phase.snap.primary.addr;
    }
    assert log[..|s.log|] == s.log;
    hide Published, Fits, Pinged1, Values, AllIn, Witnesses, QuorumReached, Assembled;
  }
}
