/** What every step of a check keeps: entries drawn from the configured nodes, and the phase's own bookkeeping. */
module CheckShape {
  import opened Prelude
  import opened ShardMap
  import opened Failover
  import opened Checker
  import opened CheckMachine

  /** A configured shard: no address twice, no lag measured yet. */
  predicate Configured(init: Shard) {
    NoDup(Addrs(init)) && init.primary.lagMS == 0 && forall i :: 0 <= i < |init.replicas| ==> init.replicas[i].lagMS == 0
  }

  ghost predicate Fits(init: Shard, e: Shard) {
    e.id == init.id && multiset(Addrs(e)) <= multiset(Addrs(init))
  }

  ghost predicate PhaseFits(init: Shard, s: Local) {
    match s.core.phase
    case Pinging(snap, slots) =>
      && snap in Published(init, s.log)
      && |slots| == 1 + |snap.replicas|
      && forall i :: 0 <= i < |slots| && slots[i].Some? ==> slots[i].value.addr == NodeAt(snap, i).addr
    case Voting(e, votes) => e == s.core.entry && Best(e.replicas) != -1 && |votes| == |Witnesses(e.replicas)|
    case Promoting(e) => e == s.core.entry && Best(e.replicas) != -1
    case Swapping(e) => e == s.core.entry && Best(e.replicas) != -1
    case Draining(_) => true
    case Idle => true
    case Deciding => true
    case Finishing => true
  }

  ghost predicate Shaped(init: Shard, s: Local) {
    && (forall e :: e in Published(init, s.log) ==> Fits(init, e))
    && s.core.entry == Current(init, s.log)
    && s.core.entry in Published(init, s.log)
    && PhaseFits(init, s)
  }

  lemma Snoc<T>(s: seq<T>, x: T)
    ensures Front(s + [x]) == s && Last(s + [x]) == x
  {
  }

  lemma SameAddrs(e: Shard, e2: Shard)
    requires |e.replicas| == |e2.replicas|
    requires forall i :: 0 <= i <= |e.replicas| ==> NodeAt(e, i).addr == NodeAt(e2, i).addr
    ensures Addrs(e) == Addrs(e2)
  {
    assert NodeAt(e, 0).addr == NodeAt(e2, 0).addr;
    forall i | 0 <= i < |e.replicas| ensures e.replicas[i].addr == e2.replicas[i].addr {
      assert NodeAt(e, i + 1).addr == NodeAt(e2, i + 1).addr;
    }
    assert AddrsOf(e.replicas) == AddrsOf(e2.replicas);
  }

  /** Failing over takes exactly the old primary out. */
  lemma SwapDropsThePrimary(s: Shard)
    requires Best(s.replicas) != -1
    ensures multiset(Addrs(s)) == multiset{s.primary.addr} + multiset(Addrs(FailedOver(s)))
  {
    var b := Best(s.replicas);
    var rest := RemoveAt(s.replicas, b);
    MultisetOfSplit(AddrsOf(s.replicas), b);
    assert AddrsOf(rest) == RemoveAt(AddrsOf(s.replicas), b);
    assert multiset(Addrs(s)) == multiset{s.primary.addr} + multiset(AddrsOf(s.replicas));
    assert multiset(Addrs(FailedOver(s))) == multiset{CandidateOf(s).addr} + multiset(AddrsOf(rest));
  }

  /** The entry a check writes back names the same nodes as its snapshot, in the same places. */
  lemma WriteBackAddrs(s: Local, init: Shard, opts: Options)
    requires PhaseFits(init, s) && Enabled(s.core, WriteBack)
    ensures Addrs(Next(opts, s.core, WriteBack).entry) == Addrs(s.core.phase.snap)
  {
    var e := Next(opts, s.core, WriteBack).entry;
    forall i | 0 <= i <= |e.replicas| ensures NodeAt(e, i).addr == NodeAt(s.core.phase.snap, i).addr {
      assert s.core.phase.slots[i].Some?;
    }
    SameAddrs(e, s.core.phase.snap);
  }

  lemma PublishedGrows(opts: Options, init: Shard, s: Local, a: Act)
    requires CanStep(init, s, a)
    ensures var s' := Step(opts, init, s, a);
      && Published(init, s'.log) ==
           (if a.WriteBack? || a.Swap? then Published(init, s.log) + [s'.core.entry] else Published(init, s.log))
      && Current(init, s'.log) == (if a.WriteBack? || a.Swap? then s'.core.entry else Current(init, s.log))
  {
    if Emit(opts, s.core, a) != [] {
      Snoc(s.log, Emit(opts, s.core, a)[0]);
    } else {
      assert s.log + [] == s.log;
    }
  }

  lemma NewEntryFits(opts: Options, init: Shard, s: Local, a: Act)
    requires Shaped(init, s) && CanStep(init, s, a) && (a.WriteBack? || a.Swap?)
    ensures Fits(init, Step(opts, init, s, a).core.entry)
  {
    hide Published, Current, QuorumReached, Witnesses, Addrs;
    if a.WriteBack? {
      WriteBackAddrs(s, init, opts);
    } else {
      SwapDropsThePrimary(s.core.phase.s);
    }
  }

  lemma OldEntryStays(opts: Options, init: Shard, s: Local, a: Act)
    requires CanStep(init, s, a) && !a.WriteBack? && !a.Swap?
    ensures Step(opts, init, s, a).core.entry == s.core.entry
  {
    hide Published, Emit, QuorumReached, Best, Witnesses, Values;
  }

  lemma PublishedStayFit(opts: Options, init: Shard, s: Local, a: Act)
    requires Shaped(init, s) && CanStep(init, s, a)
    ensures var s' := Step(opts, init, s, a);
      && (forall e :: e in Published(init, s'.log) ==> Fits(init, e))
      && s'.core.entry == Current(init, s'.log)
      && s'.core.entry in Published(init, s'.log)
  {
    hide Published, Current, QuorumReached, Witnesses, Emit, Fits;
    PublishedGrows(opts, init, s, a);
    if a.WriteBack? || a.Swap? {
      NewEntryFits(opts, init, s, a);
      hide Step, CanStep, PhaseFits;
    } else {
      OldEntryStays(opts, init, s, a);
      hide Step, CanStep, PhaseFits;
    }
  }

  lemma PingStaysFit(opts: Options, init: Shard, s: Local, slot: nat, answer: PingAnswer)
    requires PhaseFits(init, s) && CanStep(init, s, Ping(slot, answer))
    ensures PhaseFits(init, Step(opts, init, s, Ping(slot, answer)))
  {
    PublishedGrows(opts, init, s, Ping(slot, answer));
    hide Published, Count, Recorded, StatusOf;
  }

  lemma VoteStaysFit(opts: Options, init: Shard, s: Local, a: Act)
    requires PhaseFits(init, s) && CanStep(init, s, a) && (a.Lookup? || a.CastVote? || a.CountBallots?)
    ensures PhaseFits(init, Step(opts, init, s, a))
  {
    PublishedGrows(opts, init, s, a);
    hide Published, QuorumReached, Best, Witnesses, AllIn, Values, Emit;
  }

  lemma AcquireStaysFit(opts: Options, init: Shard, s: Local, snap: Shard)
    requires CanStep(init, s, Acquire(snap))
    ensures PhaseFits(init, Step(opts, init, s, Acquire(snap)))
  {
    hide Published, Emit;
    PublishedGrows(opts, init, s, Acquire(snap));
  }

  lemma OtherStaysFit(opts: Options, init: Shard, s: Local, a: Act)
    requires PhaseFits(init, s) && CanStep(init, s, a)
    requires !a.Ping? && !a.Lookup? && !a.CastVote? && !a.CountBallots? && !a.Acquire?
    ensures PhaseFits(init, Step(opts, init, s, a))
  {
    hide Published, Best, AllIn, Values, Emit, Assembled, FailedOver, Witnesses;
  }

  lemma PhaseStaysFit(opts: Options, init: Shard, s: Local, a: Act)
    requires PhaseFits(init, s) && CanStep(init, s, a)
    ensures PhaseFits(init, Step(opts, init, s, a))
  {
    hide PhaseFits, Step, CanStep;
    match a {
      case Ping(slot, answer) => PingStaysFit(opts, init, s, slot, answer);
      case Lookup => VoteStaysFit(opts, init, s, a);
      case CastVote(_, _) => VoteStaysFit(opts, init, s, a);
      case CountBallots => VoteStaysFit(opts, init, s, a);
      case Acquire(snap) => AcquireStaysFit(opts, init, s, snap);
      case _ => OtherStaysFit(opts, init, s, a);
    }
  }

  lemma StepKeepsShape(opts: Options, init: Shard, s: Local, a: Act)
    requires Shaped(init, s) && CanStep(init, s, a)
    ensures Shaped(init, Step(opts, init, s, a))
  {
    PublishedStayFit(opts, init, s, a);
    PhaseStaysFit(opts, init, s, a);
    hide Published, Current, Step, PhaseFits, Fits, CanStep;
  }

  lemma {:induction false} RunsAreShaped(opts: Options, init: Shard, acts: seq<Act>)
    requires Run(opts, init, acts).Some?
    ensures Shaped(init, Run(opts, init, acts).value)
  {
    if acts == [] {
      assert Fits(init, init);
    } else {
      RunsAreShaped(opts, init, Front(acts));
      StepKeepsShape(opts, init, Run(opts, init, Front(acts)).value, Last(acts));
    }
  }
}
