/**
 * Any interleaving of a shard's pings, votes and write-backs amounts to whole checks run one after another,
 * each from an entry published earlier, whatever the order of the answers inside a check.
 */
module CheckReduction {
  import opened Prelude
  import opened ShardMap
  import opened Failover
  import opened Checker
  import opened CheckMachine
  import opened CheckShape

  const NOTHING := Answers(map[], map[], {})

  /** The round with what the step learns added to its answers. */
  function Noted(r: Round, c: Core, a: Act): Round
    requires Enabled(c, a)
  {
    match a
    case Ping(slot, answer) => WithPing(r, NodeAt(c.phase.snap, slot).addr, answer)
    case CastVote(slot, vote) => WithVote(r, Witnesses(c.phase.s.replicas)[slot].addr, vote)
    case PgPromote(ok) => if ok then WithPromotion(r, CandidateOf(c.phase.s).addr) else r
    case _ => r
  }

  lemma RoundsGrow(opts: Options, init: Shard, s: Local, a: Act)
    requires CanStep(init, s, a)
    requires !a.Acquire? ==> Rounds(s.log) != []
    ensures Rounds(Step(opts, init, s, a).log) ==
      if a.Acquire? then Rounds(s.log) + [Round(a.snap, NOTHING)]
      else Front(Rounds(s.log)) + [Noted(Last(Rounds(s.log)), s.core, a)]
  {
    hide Next, Published, Witnesses, Best, AllIn, WithPing, WithVote, WithPromotion, CandidateOf, NodeAt;
    assert Rounds(s.log) != [] ==> Rounds(s.log) == Front(Rounds(s.log)) + [Last(Rounds(s.log))];
    if a.CountBallots? {
      assert s.log + [] == s.log;
    } else {
      Snoc(s.log, Emit(opts, s.core, a)[0]);
    }
  }

  // ----- where a check stands, measured against the whole check it is part of -----

  predicate SlotsMatch(opts: Options, snap: Shard, m: Misses, answers: Answers, slots: seq<Option<Node>>) {
    && |slots| == 1 + |snap.replicas|
    && (forall i :: 0 <= i < |slots| ==> (slots[i].Some? <==> NodeAt(snap, i).addr in answers.pings))
    && (forall i :: 0 <= i < |slots| && slots[i].Some? ==>
          slots[i].value == Rechecked(opts, NodeAt(snap, i), m, answers, i > 0))
  }

  predicate VotesMatch(ws: seq<Node>, answers: Answers, votes: seq<Option<Vote>>) {
    && |votes| == |ws|
    && (forall i :: 0 <= i < |votes| ==> (votes[i].Some? <==> ws[i].addr in answers.votes))
    && (forall i :: 0 <= i < |votes| && votes[i].Some? ==> votes[i].value == answers.votes[ws[i].addr])
  }

  /** The write-back is done: the entry is the refreshed snapshot and every node's answer is counted. */
  predicate Refreshes(opts: Options, base: Ledger, r: Round, c: Core) {
    && c.misses == AfterPings(base.misses, AddrSet(r.snap), r.answers)
    && c.entry == Refreshed(opts, r.snap, base.misses, r.answers)
    && c.entry.primary.status == Down
  }

  predicate InRound(opts: Options, base: Ledger, r: Round, c: Core) {
    match c.phase
    case Idle => false
    case Pinging(snap, slots) =>
      && snap == r.snap
      && c.entry == base.entry
      && c.misses == AfterPings(base.misses, r.answers.pings.Keys, r.answers)
      && SlotsMatch(opts, snap, base.misses, r.answers, slots)
      && (forall a :: a in r.answers.pings ==> a in Addrs(snap))
      && r.answers.votes == map[] && r.answers.promotes == {}
    case Deciding =>
      Refreshes(opts, base, r, c) && r.answers.votes == map[] && r.answers.promotes == {}
    case Voting(e, votes) =>
      && Refreshes(opts, base, r, c) && e == c.entry && Best(e.replicas) != -1 && opts.quorumGuard
      && VotesMatch(Witnesses(e.replicas), r.answers, votes) && r.answers.promotes == {}
    case Promoting(e) =>
      && Refreshes(opts, base, r, c) && e == c.entry && Best(e.replicas) != -1 && opts.pgPromote
      && (opts.quorumGuard ==> QuorumReached(Ballots(Witnesses(e.replicas), r.answers))) && r.answers.promotes == {}
    case Swapping(e) =>
      Refreshes(opts, base, r, c) && e == c.entry && RefusalOf(opts, e, r.answers).None?
    case Draining(_) => Ledger(c.entry, c.misses) == WholeCheck(opts, r.snap, base.misses, r.answers)
    case Finishing => Ledger(c.entry, c.misses) == WholeCheck(opts, r.snap, base.misses, r.answers)
  }

  ghost predicate Reduces(opts: Options, init: Shard, s: Local) {
    var rounds := Rounds(s.log);
    if s.core.phase.Idle? then Ledger(s.core.entry, s.core.misses) == Replay(opts, init, rounds)
    else rounds != [] && InRound(opts, Replay(opts, init, Front(rounds)), Last(rounds), s.core)
  }

  /** Refreshing looks at heartbeats only. */
  lemma HeartbeatsOnly(opts: Options, s: Shard, m: Misses, asked: set<Addr>, answers: Answers, answers2: Answers)
    requires answers.pings == answers2.pings
    ensures Refreshed(opts, s, m, answers) == Refreshed(opts, s, m, answers2)
    ensures AfterPings(m, asked, answers) == AfterPings(m, asked, answers2)
  {
    assert forall a :: answers.Ping(a) == answers2.Ping(a);
  }

  lemma AddrAt(s: Shard, i: nat)
    requires i <= |s.replicas|
    ensures Addrs(s)[i] == NodeAt(s, i).addr
  {
  }

  lemma PingCounts(m: Misses, r: Round, a: Addr, answer: PingAnswer)
    requires a !in r.answers.pings
    ensures var r' := WithPing(r, a, answer);
      && AfterPings(m, r'.answers.pings.Keys, r'.answers) ==
           Recorded(AfterPings(m, r.answers.pings.Keys, r.answers), a, answer.Alive?)
      && Count(AfterPings(m, r.answers.pings.Keys, r.answers), a) == Count(m, a)
  {
    var r' := WithPing(r, a, answer);
    var asked := r.answers.pings.Keys;
    assert r'.answers.pings.Keys == asked + {a};
    assert AfterPings(m, asked, r.answers) == AfterPings(m, asked, r'.answers);
    OneMorePing(m, asked, r'.answers, a);
  }

  lemma PingSlots(opts: Options, snap: Shard, m: Misses, r: Round, slots: seq<Option<Node>>, slot: nat, answer: PingAnswer)
    requires SlotsMatch(opts, snap, m, r.answers, slots) && NoDup(Addrs(snap))
    requires slot < |slots|
    ensures var r' := WithPing(r, NodeAt(snap, slot).addr, answer);
      SlotsMatch(opts, snap, m, r'.answers, slots[slot := Some(Rechecked(opts, NodeAt(snap, slot), m, r'.answers, slot > 0))])
  {
    forall i | 0 <= i < |slots| && i != slot ensures NodeAt(snap, i).addr != NodeAt(snap, slot).addr {
      AddrAt(snap, i);
      AddrAt(snap, slot);
    }
    hide Addrs;
  }

  lemma PingRound(opts: Options, base: Ledger, r: Round, c: Core, slot: nat, answer: PingAnswer)
    requires InRound(opts, base, r, c) && NoDup(Addrs(r.snap)) && Enabled(c, Ping(slot, answer))
    ensures InRound(opts, base, Noted(r, c, Ping(slot, answer)), Next(opts, c, Ping(slot, answer)))
  {
    PingCounts(base.misses, r, NodeAt(r.snap, slot).addr, answer);
    PingSlots(opts, r.snap, base.misses, r, c.phase.slots, slot, answer);
    AddrAt(r.snap, slot);
    hide AfterPings, SlotsMatch, StatusOf, Addrs;
  }

  lemma AllSlotsMakeTheRefresh(opts: Options, snap: Shard, m: Misses, answers: Answers, slots: seq<Option<Node>>)
    requires SlotsMatch(opts, snap, m, answers, slots) && AllIn(slots)
    ensures Assembled(snap, Values(slots)) == Refreshed(opts, snap, m, answers)
    ensures forall a :: a in Addrs(snap) ==> a in answers.pings
  {
    forall i | 0 <= i < |slots| ensures Values(slots)[i] == Rechecked(opts, NodeAt(snap, i), m, answers, i > 0) {
      assert slots[i].Some?;
    }
    assert Values(slots)[1..] == RecheckedAll(opts, snap.replicas, m, answers);
    forall a | a in Addrs(snap) ensures a in answers.pings {
      var i :| 0 <= i < |Addrs(snap)| && Addrs(snap)[i] == a;
      AddrAt(snap, i);
      assert slots[i].Some?;
    }
  }

  lemma WriteBackRound(opts: Options, base: Ledger, r: Round, c: Core)
    requires InRound(opts, base, r, c) && Enabled(c, WriteBack)
    ensures InRound(opts, base, r, Next(opts, c, WriteBack))
  {
    AllSlotsMakeTheRefresh(opts, r.snap, base.misses, r.answers, c.phase.slots);
    assert r.answers.pings.Keys == AddrSet(r.snap);
    hide AfterPings, Refreshed, SlotsMatch, Assembled, Values;
  }

  lemma LookupRound(opts: Options, base: Ledger, r: Round, c: Core)
    requires InRound(opts, base, r, c) && Enabled(c, Lookup)
    ensures InRound(opts, base, r, Next(opts, c, Lookup))
  {
    hide AfterPings, Refreshed, Best, Witnesses, Ballots, QuorumReached, FailedOver;
  }

  lemma {:induction false} WitnessAddrsAreReplicaAddrs(rs: seq<Node>)
    ensures multiset(AddrsOf(Witnesses(rs))) <= multiset(AddrsOf(rs))
  {
    if rs != [] {
      WitnessAddrsAreReplicaAddrs(Front(rs));
      assert AddrsOf(rs) == AddrsOf(Front(rs)) + [Last(rs).addr];
      assert Usable(Last(rs)) ==> AddrsOf(Witnesses(rs)) == AddrsOf(Witnesses(Front(rs))) + [Last(rs).addr];
    }
  }

  lemma WitnessesAreDistinct(e: Shard)
    requires NoDup(Addrs(e))
    ensures NoDup(AddrsOf(Witnesses(e.replicas)))
  {
    NoDupCons(e.primary.addr, AddrsOf(e.replicas));
    WitnessAddrsAreReplicaAddrs(e.replicas);
    NoDupOfSubMultiset(AddrsOf(Witnesses(e.replicas)), AddrsOf(e.replicas));
  }

  lemma RefreshKeepsAddrs(opts: Options, s: Shard, m: Misses, answers: Answers)
    ensures Addrs(Refreshed(opts, s, m, answers)) == Addrs(s)
  {
    SameAddrs(Refreshed(opts, s, m, answers), s);
  }

  lemma VoteRound(opts: Options, base: Ledger, r: Round, c: Core, slot: nat, vote: Vote)
    requires InRound(opts, base, r, c) && NoDup(Addrs(c.entry)) && Enabled(c, CastVote(slot, vote))
    ensures InRound(opts, base, Noted(r, c, CastVote(slot, vote)), Next(opts, c, CastVote(slot, vote)))
  {
    var ws := Witnesses(c.entry.replicas);
    WitnessesAreDistinct(c.entry);
    forall i | 0 <= i < |ws| && i != slot ensures ws[i].addr != ws[slot].addr {
      assert AddrsOf(ws)[i] != AddrsOf(ws)[slot];
    }
    HeartbeatsOnly(opts, r.snap, base.misses, AddrSet(r.snap), r.answers, WithVote(r, ws[slot].addr, vote).answers);
    hide AfterPings, Refreshed, Witnesses, Best, AddrSet, Addrs, NoDup;
  }

  lemma AllVotesMakeTheBallots(ws: seq<Node>, answers: Answers, votes: seq<Option<Vote>>)
    requires VotesMatch(ws, answers, votes) && AllIn(votes)
    ensures Values(votes) == Ballots(ws, answers)
  {
    forall i | 0 <= i < |votes| ensures Values(votes)[i] == Ballots(ws, answers)[i] {
      assert votes[i].Some?;
    }
  }

  lemma CountRound(opts: Options, base: Ledger, r: Round, c: Core)
    requires InRound(opts, base, r, c) && Enabled(c, CountBallots)
    ensures InRound(opts, base, r, Next(opts, c, CountBallots))
  {
    AllVotesMakeTheBallots(Witnesses(c.entry.replicas), r.answers, c.phase.votes);
    hide AfterPings, Refreshed, Witnesses, Best, Ballots, Values, QuorumReached, FailedOver;
  }

  /** The guard looks at votes only. */
  lemma VotesOnly(ws: seq<Node>, answers: Answers, answers2: Answers)
    requires answers.votes == answers2.votes
    ensures Ballots(ws, answers) == Ballots(ws, answers2)
  {
  }

  lemma PromoteRound(opts: Options, base: Ledger, r: Round, c: Core, ok: bool)
    requires InRound(opts, base, r, c) && Enabled(c, PgPromote(ok))
    ensures InRound(opts, base, Noted(r, c, PgPromote(ok)), Next(opts, c, PgPromote(ok)))
  {
    hide AfterPings, Refreshed, Witnesses, Best, Ballots, QuorumReached, FailedOver, AddrSet, SlotsMatch, VotesMatch, StatusOf;
    var r' := Noted(r, c, PgPromote(ok));
    HeartbeatsOnly(opts, r.snap, base.misses, AddrSet(r.snap), r.answers, r'.answers);
    VotesOnly(Witnesses(c.entry.replicas), r.answers, r'.answers);
  }

  lemma SwapRound(opts: Options, base: Ledger, r: Round, c: Core)
    requires InRound(opts, base, r, c) && Enabled(c, Swap)
    ensures InRound(opts, base, r, Next(opts, c, Swap))
  {
    hide AfterPings, Refreshed, RefusalOf, FailedOver;
  }

  lemma StepInRound(opts: Options, base: Ledger, r: Round, c: Core, a: Act)
    requires InRound(opts, base, r, c) && Enabled(c, a) && !a.Release?
    requires NoDup(Addrs(r.snap)) && NoDup(Addrs(c.entry))
    ensures InRound(opts, base, Noted(r, c, a), Next(opts, c, a))
  {
    match a {
      case Ping(slot, answer) => PingRound(opts, base, r, c, slot, answer);
      case WriteBack => WriteBackRound(opts, base, r, c);
      case Lookup => LookupRound(opts, base, r, c);
      case CastVote(slot, vote) => VoteRound(opts, base, r, c, slot, vote);
      case CountBallots => CountRound(opts, base, r, c);
      case PgPromote(ok) => PromoteRound(opts, base, r, c, ok);
      case Swap => SwapRound(opts, base, r, c);
      case Drain =>
    }
  }

  lemma AcquireRound(opts: Options, base: Ledger, c: Core, snap: Shard)
    requires c.phase.Idle? && c.entry == base.entry && c.misses == base.misses
    ensures InRound(opts, base, Round(snap, NOTHING), Next(opts, c, Acquire(snap)))
  {
    assert AfterPings(base.misses, {}, NOTHING) == base.misses;
    assert NOTHING.pings.Keys == {};
  }

  lemma ConfiguredEntriesAreDistinct(init: Shard, e: Shard)
    requires Configured(init) && Fits(init, e)
    ensures NoDup(Addrs(e))
  {
    NoDupOfSubMultiset(Addrs(e), Addrs(init));
  }

  /** Between write-back and release the entry is the round's own, so the whole run of the round uses distinct nodes. */
  ghost predicate SnapFits(init: Shard, s: Local) {
    !s.core.phase.Idle? ==> Rounds(s.log) != [] && Last(Rounds(s.log)).snap in Published(init, s.log)
  }

  lemma StepKeepsSnap(opts: Options, init: Shard, s: Local, a: Act)
    requires Shaped(init, s) && SnapFits(init, s) && CanStep(init, s, a)
    ensures SnapFits(init, Step(opts, init, s, a))
  {
    hide Rounds, Published, Current, Emit, PhaseFits, Fits;
    RoundsGrow(opts, init, s, a);
    PublishedGrows(opts, init, s, a);
  }

  lemma AcquireReduces(opts: Options, init: Shard, s: Local, snap: Shard)
    requires Reduces(opts, init, s) && CanStep(init, s, Acquire(snap))
    ensures Reduces(opts, init, Step(opts, init, s, Acquire(snap)))
  {
    hide InRound, Replay, Rounds, Published, Emit, Refreshed, AfterPings;
    RoundsGrow(opts, init, s, Acquire(snap));
    AcquireRound(opts, Replay(opts, init, Rounds(s.log)), s.core, snap);
    Snoc(Rounds(s.log), Round(snap, NOTHING));
  }

  lemma ReleaseReduces(opts: Options, init: Shard, s: Local)
    requires Reduces(opts, init, s) && CanStep(init, s, Release)
    ensures Reduces(opts, init, Step(opts, init, s, Release))
  {
    hide Rounds, Published, Emit, WholeCheck;
    RoundsGrow(opts, init, s, Release);
    assert Rounds(s.log) == Front(Rounds(s.log)) + [Last(Rounds(s.log))];
  }

  lemma StepReduces(opts: Options, init: Shard, s: Local, a: Act)
    requires Configured(init) && Shaped(init, s) && SnapFits(init, s) && Reduces(opts, init, s) && CanStep(init, s, a)
    ensures Reduces(opts, init, Step(opts, init, s, a))
  {
    match a {
      case Acquire(snap) => AcquireReduces(opts, init, s, snap);
      case Release => ReleaseReduces(opts, init, s);
      case _ =>
        hide InRound, Replay, Rounds, Published, Emit, Noted, Fits, PhaseFits;
        var rounds := Rounds(s.log);
        var r := Last(rounds);
        RoundsGrow(opts, init, s, a);
        Snoc(Front(rounds), Noted(r, s.core, a));
        ConfiguredEntriesAreDistinct(init, s.core.entry);
        ConfiguredEntriesAreDistinct(init, r.snap);
        StepInRound(opts, Replay(opts, init, Front(rounds)), r, s.core, a);
    }
  }

  /** In every reachable state, mid-check or not, entry and counts are those of whole checks run one after another. */
  lemma {:induction false} RunsReduce(opts: Options, init: Shard, acts: seq<Act>)
    requires Configured(init) && Run(opts, init, acts).Some?
    ensures Reduces(opts, init, Run(opts, init, acts).value)
    ensures SnapFits(init, Run(opts, init, acts).value)
  {
    if acts != [] {
      RunsReduce(opts, init, Front(acts));
      RunsAreShaped(opts, init, Front(acts));
      StepKeepsSnap(opts, init, Run(opts, init, Front(acts)).value, Last(acts));
      StepReduces(opts, init, Run(opts, init, Front(acts)).value, Last(acts));
    }
  }

  ghost predicate StartsArePublished(init: Shard, log: seq<Event>) {
    forall i :: 0 <= i < |log| && log[i].Acquired? ==> log[i].snap in Published(init, log[..i])
  }

  lemma StartsExtend(init: Shard, log: seq<Event>, more: seq<Event>)
    requires StartsArePublished(init, log) && |more| <= 1
    requires forall e :: e in more && e.Acquired? ==> e.snap in Published(init, log)
    ensures StartsArePublished(init, log + more)
  {
    hide Published;
    var longer := log + more;
    forall i | 0 <= i < |longer| && longer[i].Acquired? ensures longer[i].snap in Published(init, longer[..i]) {
      if i < |log| {
        assert longer[..i] == log[..i] && longer[i] == log[i];
      } else {
        assert longer[..i] == log && longer[i] == more[0];
      }
    }
  }

  /** Every check starts from an entry that had been published before it started. */
  lemma {:induction false} ChecksStartFromPublished(opts: Options, init: Shard, acts: seq<Act>)
    requires Run(opts, init, acts).Some?
    ensures StartsArePublished(init, Run(opts, init, acts).value.log)
  {
    if acts != [] {
      hide Published, Next, StartsArePublished;
      var s := Run(opts, init, Front(acts)).value;
      ChecksStartFromPublished(opts, init, Front(acts));
      StartsExtend(init, s.log, Emit(opts, s.core, Last(acts)));
    }
  }
}
