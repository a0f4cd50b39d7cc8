/** What depends on checks starting from current snapshots: failovers stay done, nodes are conserved, lags are remembered. */
module CheckCurrency {
  import opened Prelude
  import opened ShardMap
  import opened Failover
  import opened Checker
  import opened CheckMachine
  import opened CheckShape

  /** Every check started from a snapshot naming the primary the table named at that moment. */
  predicate FreshPrimaries(init: Shard, log: seq<Event>) {
    log == [] || (
      && FreshPrimaries(init, Front(log))
      && (Last(log).Acquired? ==> Last(log).snap.primary.addr == Current(init, Front(log)).primary.addr))
  }

  /** Every check started from the very entry the table held at that moment. */
  predicate FreshSnapshots(init: Shard, log: seq<Event>) {
    log == [] || (
      && FreshSnapshots(init, Front(log))
      && (Last(log).Acquired? ==> Last(log).snap == Current(init, Front(log))))
  }

  /** No write-back ever changed the primary: it only ever moved by failing over. */
  predicate NothingUndone(init: Shard, log: seq<Event>) {
    log == [] || (
      && NothingUndone(init, Front(log))
      && (Last(log).WroteBack? ==> Last(log).e.primary.addr == Current(init, Front(log)).primary.addr))
  }

  lemma {:induction false} FreshSnapshotsNameFreshPrimaries(init: Shard, log: seq<Event>)
    requires FreshSnapshots(init, log)
    ensures FreshPrimaries(init, log)
  {
    if log != [] {
      FreshSnapshotsNameFreshPrimaries(init, Front(log));
    }
  }

  lemma HistoryGrows(opts: Options, init: Shard, s: Local, a: Act)
    requires CanStep(init, s, a)
    ensures var log := Step(opts, init, s, a).log;
      && (FreshPrimaries(init, log) <==>
            FreshPrimaries(init, s.log) && (a.Acquire? ==> a.snap.primary.addr == Current(init, s.log).primary.addr))
      && (FreshSnapshots(init, log) <==>
            FreshSnapshots(init, s.log) && (a.Acquire? ==> a.snap == Current(init, s.log)))
      && (NothingUndone(init, log) <==>
            NothingUndone(init, s.log) && (a.WriteBack? ==>
              Next(opts, s.core, a).entry.primary.addr == Current(init, s.log).primary.addr))
      && Retired(log) == (if a.Swap? then Retired(s.log) + [s.core.phase.s.primary.addr] else Retired(s.log))
  {
    if a.CountBallots? {
      assert s.log + [] == s.log;
    } else {
      Snoc(s.log, Emit(opts, s.core, a)[0]);
    }
  }

  // ----- undone failovers -----

  ghost predicate UndoneOnlyByStaleStarts(init: Shard, s: Local) {
    if s.core.phase.Pinging? then
      FreshPrimaries(init, s.log) <==>
        NothingUndone(init, s.log) && s.core.phase.snap.primary.addr == s.core.entry.primary.addr
    else FreshPrimaries(init, s.log) <==> NothingUndone(init, s.log)
  }

  lemma StepKeepsUndone(opts: Options, init: Shard, s: Local, a: Act)
    requires Shaped(init, s) && UndoneOnlyByStaleStarts(init, s) && CanStep(init, s, a)
    ensures UndoneOnlyByStaleStarts(init, Step(opts, init, s, a))
  {
    HistoryGrows(opts, init, s, a);
    hide FreshPrimaries, FreshSnapshots, NothingUndone, Published, Current, Emit, Best, Witnesses, QuorumReached, Values, AllIn;
    if a.WriteBack? {
      WriteBackAddrs(s, init, opts);
      var e := Next(opts, s.core, a).entry;
      assert e.primary.addr == Addrs(e)[0] == s.core.phase.snap.primary.addr;
    }
  }

  /**
   * In every run, a failover is never undone exactly when every check that wrote back had started from a
   * snapshot whose primary was still the table's, which `tryAcquire` could have checked.
   */
  lemma {:induction false} FailoversAreUndoneExactlyByStaleStarts(opts: Options, init: Shard, acts: seq<Act>)
    requires Run(opts, init, acts).Some?
    ensures UndoneOnlyByStaleStarts(init, Run(opts, init, acts).value)
  {
    if acts != [] {
      FailoversAreUndoneExactlyByStaleStarts(opts, init, Front(acts));
      RunsAreShaped(opts, init, Front(acts));
      StepKeepsUndone(opts, init, Run(opts, init, Front(acts)).value, Last(acts));
    }
  }

  // ----- node conservation -----

  ghost predicate Conserved(init: Shard, s: Local) {
    && multiset(Addrs(s.core.entry)) + multiset(Retired(s.log)) == multiset(Addrs(init))
    && |s.core.entry.replicas| + |Retired(s.log)| == |init.replicas|
    && (forall e :: e in Published(init, s.log) ==>
          if e.primary.addr == s.core.entry.primary.addr then Addrs(e) == Addrs(s.core.entry)
          else e.primary.addr in Retired(s.log))
    && (s.core.phase.Pinging? ==> s.core.phase.snap.primary.addr == s.core.entry.primary.addr)
  }

  lemma LengthFromAddrs(e: Shard, e2: Shard)
    requires Addrs(e) == Addrs(e2)
    ensures |e.replicas| == |e2.replicas|
  {
    assert |Addrs(e)| == 1 + |e.replicas| && |Addrs(e2)| == 1 + |e2.replicas|;
  }

  lemma WriteBackConserves(opts: Options, init: Shard, s: Local)
    requires Shaped(init, s) && Conserved(init, s) && CanStep(init, s, WriteBack)
    ensures Conserved(init, Step(opts, init, s, WriteBack))
  {
    PublishedGrows(opts, init, s, WriteBack);
    HistoryGrows(opts, init, s, WriteBack);
    WriteBackAddrs(s, init, opts);
    var e := Next(opts, s.core, WriteBack).entry;
    assert e.primary.addr == Addrs(e)[0];
    LengthFromAddrs(e, s.core.phase.snap);
    LengthFromAddrs(e, s.core.entry);
    hide Addrs, FreshPrimaries, FreshSnapshots, NothingUndone, Published, Current, Retired, Emit, Values, AllIn, Assembled;
  }

  lemma NotBoth(init: Shard, kept: seq<Addr>, retired: seq<Addr>, a: Addr)
    requires NoDup(Addrs(init)) && multiset(kept) + multiset(retired) == multiset(Addrs(init))
    requires a in kept
    ensures a !in retired
  {
    NoDupCounts(Addrs(init), a);
    assert multiset(kept)[a] >= 1;
    assert a in retired ==> multiset(retired)[a] >= 1;
  }

  /** The candidate is neither the primary it replaces nor any primary replaced before. */
  lemma CandidateIsNew(init: Shard, e: Shard, retired: seq<Addr>)
    requires NoDup(Addrs(init)) && Best(e.replicas) != -1
    requires multiset(Addrs(e)) + multiset(retired) == multiset(Addrs(init))
    ensures CandidateOf(e).addr != e.primary.addr && CandidateOf(e).addr !in retired
    ensures multiset(Addrs(FailedOver(e))) + multiset(retired + [e.primary.addr]) == multiset(Addrs(init))
  {
    var c := CandidateOf(e).addr;
    SwapDropsThePrimary(e);
    assert c == Addrs(FailedOver(e))[0];
    assert multiset(Addrs(e))[c] >= 1;
    NotBoth(init, Addrs(e), retired, c);
    NoDupOfSubMultiset(Addrs(e), Addrs(init));
    NoDupCounts(Addrs(e), c);
    assert multiset(retired + [e.primary.addr]) == multiset(retired) + multiset{e.primary.addr};
  }

  lemma SwapConserves(opts: Options, init: Shard, s: Local)
    requires Configured(init) && Shaped(init, s) && Conserved(init, s) && CanStep(init, s, Swap)
    ensures Conserved(init, Step(opts, init, s, Swap))
  {
    hide Addrs, FreshPrimaries, FreshSnapshots, NothingUndone, Published, Current, Retired, Emit, Best, Fits;
    PublishedGrows(opts, init, s, Swap);
    HistoryGrows(opts, init, s, Swap);
    CandidateIsNew(init, s.core.entry, Retired(s.log));
  }

  /** Steps that publish nothing. */
  lemma QuietStepConserves(opts: Options, init: Shard, s: Local, a: Act)
    requires Conserved(init, s) && CanStep(init, s, a) && !a.WriteBack? && !a.Swap?
    requires a.Acquire? ==> a.snap.primary.addr == s.core.entry.primary.addr
    requires Retired(Step(opts, init, s, a).log) == Retired(s.log)
    ensures Conserved(init, Step(opts, init, s, a))
  {
    hide Addrs, Published, Current, Retired, Emit, Best, Witnesses, QuorumReached, Values, AllIn, FailedOver, Recorded, Pinged;
    PublishedGrows(opts, init, s, a);
  }

  lemma StepKeepsConserved(opts: Options, init: Shard, s: Local, a: Act)
    requires Configured(init) && Shaped(init, s) && CanStep(init, s, a)
    requires FreshPrimaries(init, s.log) ==> Conserved(init, s)
    ensures FreshPrimaries(init, Step(opts, init, s, a).log) ==> Conserved(init, Step(opts, init, s, a))
  {
    hide FreshPrimaries, FreshSnapshots, NothingUndone, Published, Current, Retired, Emit, Next, PhaseFits, Fits, Addrs, Conserved;
    HistoryGrows(opts, init, s, a);
    if FreshPrimaries(init, Step(opts, init, s, a).log) {
      match a {
        case WriteBack => WriteBackConserves(opts, init, s);
        case Swap => SwapConserves(opts, init, s);
        case _ => QuietStepConserves(opts, init, s, a);
      }
    }
  }

  lemma {:induction false} NodesAreConserved(opts: Options, init: Shard, acts: seq<Act>)
    requires Configured(init) && Run(opts, init, acts).Some?
    requires FreshPrimaries(init, Run(opts, init, acts).value.log)
    ensures Conserved(init, Run(opts, init, acts).value)
  {
    if acts == [] {
      assert Published(init, []) == [init];
    } else {
      var s := Run(opts, init, Front(acts)).value;
      HistoryGrows(opts, init, s, Last(acts));
      NodesAreConserved(opts, init, Front(acts));
      RunsAreShaped(opts, init, Front(acts));
      StepKeepsConserved(opts, init, s, Last(acts));
    }
  }

  /** A retired primary is never in the table again, and each failover uses up one replica for good. */
  lemma RetiredNeverReappear(opts: Options, init: Shard, acts: seq<Act>)
    requires Configured(init) && Run(opts, init, acts).Some?
    requires FreshPrimaries(init, Run(opts, init, acts).value.log)
    ensures var s := Run(opts, init, acts).value;
      && (forall a :: a in Retired(s.log) ==> a !in Addrs(s.core.entry))
      && NoDup(Retired(s.log))
      && |Retired(s.log)| == |init.replicas| - |s.core.entry.replicas| <= |init.replicas|
  {
    NodesAreConserved(opts, init, acts);
    var s := Run(opts, init, acts).value;
    forall a | a in Addrs(s.core.entry) ensures a !in Retired(s.log) {
      NotBoth(init, Addrs(s.core.entry), Retired(s.log), a);
    }
    NoDupOfSubMultiset(Retired(s.log), Addrs(init));
  }

  /** With no hypothesis at all, every entry ever held names distinct nodes, all of them configured for this shard. */
  lemma EntriesStayDistinct(opts: Options, init: Shard, acts: seq<Act>, e: Shard)
    requires Configured(init) && Run(opts, init, acts).Some?
    requires e in Published(init, Run(opts, init, acts).value.log)
    ensures e.id == init.id && NoDup(Addrs(e)) && forall a :: a in Addrs(e) ==> a in Addrs(init)
  {
    RunsAreShaped(opts, init, acts);
    assert Fits(init, e);
    NoDupOfSubMultiset(Addrs(e), Addrs(init));
    forall a | a in Addrs(e) ensures a in Addrs(init) {
      assert multiset(Addrs(e))[a] >= 1;
    }
  }
}
