/** Lag memory: a replica's lag is its last successful measurement, and a primary's is always 0. */
module CheckLag {
  import opened Prelude
  import opened ShardMap
  import opened Failover
  import opened Checker
  import opened CheckMachine
  import opened CheckShape
  import opened CheckCurrency

  predicate LagsOf(rs: seq<Node>, log: seq<Event>) {
    forall i :: 0 <= i < |rs| ==> rs[i].lagMS == LastLag(log, rs[i].addr)
  }

  /** Mid-check, a slot already filled has the new measurement and a slot still empty the one in the snapshot. */
  predicate LagsRemembered(s: Local) {
    match s.core.phase
    case Pinging(snap, slots) =>
      && snap == s.core.entry
      && |slots| == 1 + |snap.replicas|
      && forall i :: 0 < i < |slots| ==>
           var n := NodeAt(snap, i);
           n.addr == Addrs(snap)[i] && LastLag(s.log, n.addr) == (if slots[i].Some? then slots[i].value else n).lagMS
    case _ => LagsOf(s.core.entry.replicas, s.log)
  }

  lemma LagGrows(opts: Options, init: Shard, s: Local, a: Act, b: Addr)
    requires CanStep(init, s, a)
    ensures LastLag(Step(opts, init, s, a).log, b) ==
      if a.Ping? && a.answer.Alive? && NodeAt(s.core.phase.snap, a.slot).addr == b then a.answer.lag
      else LastLag(s.log, b)
  {
    if a.CountBallots? {
      assert s.log + [] == s.log;
    } else {
      Snoc(s.log, Emit(opts, s.core, a)[0]);
    }
  }

  lemma PingRemembers(opts: Options, init: Shard, s: Local, slot: nat, answer: PingAnswer)
    requires LagsRemembered(s) && CanStep(init, s, Ping(slot, answer)) && NoDup(Addrs(s.core.entry))
    ensures LagsRemembered(Step(opts, init, s, Ping(slot, answer)))
  {
    var snap := s.core.phase.snap;
    forall i | 0 < i < |s.core.phase.slots|
      ensures LastLag(Step(opts, init, s, Ping(slot, answer)).log, NodeAt(snap, i).addr) ==
        if i == slot && answer.Alive? then answer.lag else LastLag(s.log, NodeAt(snap, i).addr)
    {
      LagGrows(opts, init, s, Ping(slot, answer), NodeAt(snap, i).addr);
      assert NodeAt(snap, slot).addr == Addrs(snap)[slot];
    }
    hide LastLag, Emit, StatusOf, Published, Recorded;
  }

  lemma WriteBackRemembers(opts: Options, init: Shard, s: Local)
    requires LagsRemembered(s) && PhaseFits(init, s) && CanStep(init, s, WriteBack)
    ensures LagsRemembered(Step(opts, init, s, WriteBack))
  {
    var e := Next(opts, s.core, WriteBack).entry;
    forall i | 0 <= i < |e.replicas|
      ensures e.replicas[i].lagMS == LastLag(Step(opts, init, s, WriteBack).log, e.replicas[i].addr)
    {
      LagGrows(opts, init, s, WriteBack, e.replicas[i].addr);
      assert s.core.phase.slots[i + 1].Some?;
      assert NodeAt(s.core.phase.snap, i + 1).addr == e.replicas[i].addr;
    }
  }

  lemma SubsetRemembers(log: seq<Event>, log': seq<Event>, rs: seq<Node>, rs': seq<Node>)
    requires LagsOf(rs, log)
    requires forall n :: n in rs' ==> n in rs
    requires forall b :: LastLag(log', b) == LastLag(log, b)
    ensures LagsOf(rs', log')
  {
    hide LastLag;
    forall i | 0 <= i < |rs'| ensures rs'[i].lagMS == LastLag(log', rs'[i].addr) {
      assert rs'[i] in rs;
    }
  }

  lemma OtherRemembers(opts: Options, init: Shard, s: Local, a: Act)
    requires LagsRemembered(s) && PhaseFits(init, s) && CanStep(init, s, a) && !a.Ping? && !a.WriteBack?
    requires a.Acquire? ==> a.snap == s.core.entry
    ensures LagsRemembered(Step(opts, init, s, a))
  {
    var s' := Step(opts, init, s, a);
    forall b ensures LastLag(s'.log, b) == LastLag(s.log, b) {
      LagGrows(opts, init, s, a, b);
    }
    hide LastLag, Emit, Published, Best, Witnesses, QuorumReached, Values, AllIn;
    if !a.Acquire? {
      SubsetRemembers(s.log, s'.log, s.core.entry.replicas, s'.core.entry.replicas);
    }
  }

  /** With current snapshots, a replica's lag survives any number of failed heartbeats. */
  lemma {:induction false} LagIsLastMeasurement(opts: Options, init: Shard, acts: seq<Act>)
    requires Configured(init) && Run(opts, init, acts).Some?
    requires FreshSnapshots(init, Run(opts, init, acts).value.log)
    ensures LagsRemembered(Run(opts, init, acts).value)
  {
    if acts != [] {
      var s, a := Run(opts, init, Front(acts)).value, Last(acts);
      HistoryGrows(opts, init, s, a);
      LagIsLastMeasurement(opts, init, Front(acts));
      RunsAreShaped(opts, init, Front(acts));
      NoDupOfSubMultiset(Addrs(s.core.entry), Addrs(init));
      match a {
        case Ping(slot, answer) => PingRemembers(opts, init, s, slot, answer);
        case WriteBack => WriteBackRemembers(opts, init, s);
        case _ => OtherRemembers(opts, init, s, a);
      }
    }
  }

  predicate PrimariesHaveNoLag(init: Shard, s: Local) {
    && (forall e :: e in Published(init, s.log) ==> e.primary.lagMS == 0)
    && (s.core.phase.Pinging? && s.core.phase.slots != [] && s.core.phase.slots[0].Some? ==>
          s.core.phase.slots[0].value.lagMS == 0)
  }

  lemma StepKeepsNoLag(opts: Options, init: Shard, s: Local, a: Act)
    requires PhaseFits(init, s) && PrimariesHaveNoLag(init, s) && CanStep(init, s, a)
    ensures PrimariesHaveNoLag(init, Step(opts, init, s, a))
  {
    PublishedGrows(opts, init, s, a);
    hide Published, Emit, Fits, Best, Witnesses, QuorumReached, StatusOf, Recorded, Count;
    match a {
      case Ping(slot, answer) => assert PrimariesHaveNoLag(init, Step(opts, init, s, a));
      case WriteBack =>
        assert s.core.phase.slots[0].Some?;
        assert Next(opts, s.core, a).entry.primary.lagMS == 0;
      case _ =>
        hide Values, AllIn, Pinged1;
        assert !Next(opts, s.core, a).phase.Pinging? || a.Acquire?;
    }
  }

  /** In every run, stale snapshots included, every published primary has lag 0. */
  lemma {:induction false} PublishedPrimariesHaveNoLag(opts: Options, init: Shard, acts: seq<Act>)
    requires Configured(init) && Run(opts, init, acts).Some?
    ensures PrimariesHaveNoLag(init, Run(opts, init, acts).value)
  {
    if acts != [] {
      var s, a := Run(opts, init, Front(acts)).value, Last(acts);
      PublishedPrimariesHaveNoLag(opts, init, Front(acts));
      RunsAreShaped(opts, init, Front(acts));
      StepKeepsNoLag(opts, init, s, a);
    }
  }
}
