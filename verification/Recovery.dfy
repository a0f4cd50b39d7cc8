/** Failover attempts are retried: a dead primary is replaced as soon as the conditions allow it. */
module Recovery {
  import opened Prelude
  import opened ShardMap
  import opened Failover
  import opened Checker
  import opened CheckMachine
  import opened CheckShape
  import opened CheckCurrency
  import opened CheckReduction
  import opened CheckSafety

  /** Whole checks run one after another, each from the entry the previous one left. */
  function InSequence(opts: Options, start: Ledger, rounds: seq<Answers>): Ledger {
    if rounds == [] then start
    else
      var before := InSequence(opts, start, Front(rounds));
      WholeCheck(opts, before.entry, before.misses, Last(rounds))
  }

  /** The conditions under which a check replaces its primary, spelled out on what the environment answers. */
  ghost predicate CanReplace(opts: Options, e: Shard, answers: Answers) {
    var ballots := Ballots(Witnesses(e.replicas), answers);
    && (exists i :: 0 <= i < |e.replicas| && e.replicas[i].status != Down)
    && (opts.quorumGuard ==> multiset(ballots)[NotStreaming] > multiset(ballots)[Streaming])
    && (opts.pgPromote ==> forall b :: IsBest(e.replicas, b) ==> e.replicas[b].addr in answers.promotes)
  }

  /** A check moves the primary exactly when it is confirmed down and the attempt can go through. */
  lemma ReplacedExactlyWhen(opts: Options, e: Shard, m: Misses, answers: Answers)
    requires NoDup(Addrs(e)) && opts.downAfter >= 1
    ensures var checked := Refreshed(opts, e, m, answers);
      WholeCheck(opts, e, m, answers).entry.primary.addr != e.primary.addr <==>
        && answers.Ping(e.primary.addr).Missed?
        && Count(m, e.primary.addr) + 1 >= opts.downAfter
        && CanReplace(opts, checked, answers)
  {
    var checked := Refreshed(opts, e, m, answers);
    var ballots := Ballots(Witnesses(checked.replicas), answers);
    BestIsTheBest(checked.replicas);
    GuardIsStrictMajority(ballots);
    if Best(checked.replicas) != -1 {
      assert IsBest(checked.replicas, Best(checked.replicas));
      CandidateIsAReplica(opts, e, m, answers);
    }
    hide Best, Ballots, Witnesses, AfterPings, Addrs, NoDup, QuorumReached;
  }

  lemma CandidateIsAReplica(opts: Options, e: Shard, m: Misses, answers: Answers)
    requires NoDup(Addrs(e)) && Best(Refreshed(opts, e, m, answers).replicas) != -1
    ensures CandidateOf(Refreshed(opts, e, m, answers)).addr != e.primary.addr
  {
    var b := Best(Refreshed(opts, e, m, answers).replicas);
    AddrAt(e, 0);
    AddrAt(e, b + 1);
  }

  /** And then the new primary is the least-lagged usable replica. */
  lemma ReplacedByTheBest(opts: Options, e: Shard, m: Misses, answers: Answers)
    requires NoDup(Addrs(e)) && opts.downAfter >= 1
    requires WholeCheck(opts, e, m, answers).entry.primary.addr != e.primary.addr
    ensures var checked := Refreshed(opts, e, m, answers);
      exists b :: IsBest(checked.replicas, b)
        && WholeCheck(opts, e, m, answers).entry == Shard(e.id, Node(checked.replicas[b].addr, Up, 0), RemoveAt(checked.replicas, b))
  {
    var checked := Refreshed(opts, e, m, answers);
    BestIsTheBest(checked.replicas);
    assert IsBest(checked.replicas, Best(checked.replicas));
  }

  lemma KeptPrimaryKeepsAddrs(opts: Options, e: Shard, m: Misses, answers: Answers)
    requires NoDup(Addrs(e)) && WholeCheck(opts, e, m, answers).entry.primary.addr == e.primary.addr
    ensures Addrs(WholeCheck(opts, e, m, answers).entry) == Addrs(e)
  {
    var checked := Refreshed(opts, e, m, answers);
    RefreshKeepsAddrs(opts, e, m, answers);
    if FailsOver(opts, checked, answers) {
      CandidateIsAReplica(opts, e, m, answers);
    }
  }

  /** None of these checks replaces the primary, and its heartbeat fails in all of them. */
  ghost predicate Unreplaced(opts: Options, start: Ledger, rounds: seq<Answers>) {
    && (forall i :: 0 <= i < |rounds| ==> rounds[i].Ping(start.entry.primary.addr).Missed?)
    && (forall i :: 0 <= i <= |rounds| ==> InSequence(opts, start, rounds[..i]).entry.primary.addr == start.entry.primary.addr)
  }

  lemma UnreplacedFront(opts: Options, start: Ledger, rounds: seq<Answers>)
    requires Unreplaced(opts, start, rounds) && rounds != []
    ensures Unreplaced(opts, start, Front(rounds))
    ensures Last(rounds).Ping(start.entry.primary.addr).Missed?
    ensures InSequence(opts, start, Front(rounds)).entry.primary.addr == start.entry.primary.addr
    ensures InSequence(opts, start, rounds).entry.primary.addr == start.entry.primary.addr
  {
    hide InSequence;
    assert rounds[..|rounds| - 1] == Front(rounds) && rounds[..|rounds|] == rounds;
    forall i | 0 <= i <= |Front(rounds)| ensures Front(rounds)[..i] == rounds[..i] {}
  }

  /** As long as the primary is not replaced, failed heartbeats add up. */
  lemma {:induction false} MissesAddUp(opts: Options, start: Ledger, rounds: seq<Answers>)
    requires NoDup(Addrs(start.entry)) && opts.downAfter >= 1
    requires Unreplaced(opts, start, rounds)
    ensures var end := InSequence(opts, start, rounds);
      Addrs(end.entry) == Addrs(start.entry)
      && Count(end.misses, start.entry.primary.addr) == Count(start.misses, start.entry.primary.addr) + |rounds|
  {
    if rounds != [] {
      hide Addrs, NoDup, Unreplaced;
      var before := InSequence(opts, start, Front(rounds));
      UnreplacedFront(opts, start, rounds);
      MissesAddUp(opts, start, Front(rounds));
      KeptPrimaryKeepsAddrs(opts, before.entry, before.misses, Last(rounds));
      CountAfterPings(before.misses, before.entry, Last(rounds), 0);
      hide Refreshed, FailsOver, FailedOver, AfterPings;
    }
  }

  /**
   * Bounded recovery: once the primary has missed `downAfter` checks in a row, the first check whose answers
   * allow it replaces the primary, however many earlier attempts were vetoed, failed or found no replica.
   */
  lemma RecoversOnceAllowed(opts: Options, start: Ledger, rounds: seq<Answers>, good: Answers)
    requires NoDup(Addrs(start.entry)) && opts.downAfter >= 1
    requires |rounds| + 1 >= opts.downAfter
    requires Unreplaced(opts, start, rounds) && good.Ping(start.entry.primary.addr).Missed?
    requires var before := InSequence(opts, start, rounds);
      CanReplace(opts, Refreshed(opts, before.entry, before.misses, good), good)
    ensures var before := InSequence(opts, start, rounds);
      var checked := Refreshed(opts, before.entry, before.misses, good);
      exists b :: IsBest(checked.replicas, b)
        && InSequence(opts, start, rounds + [good]).entry
             == Shard(start.entry.id, Node(checked.replicas[b].addr, Up, 0), RemoveAt(checked.replicas, b))
  {
    hide Best, Refreshed, AfterPings, NoDup, CanReplace, RefusalOf, FailedOver;
    var before := InSequence(opts, start, rounds);
    MissesAddUp(opts, start, rounds);
    IdsAreKept(opts, start, rounds);
    assert Front(rounds + [good]) == rounds && rounds[..|rounds|] == rounds;
    assert before.entry.primary.addr == Addrs(before.entry)[0];
    ReplacedExactlyWhen(opts, before.entry, before.misses, good);
    ReplacedByTheBest(opts, before.entry, before.misses, good);
  }

  lemma {:induction false} IdsAreKept(opts: Options, start: Ledger, rounds: seq<Answers>)
    ensures InSequence(opts, start, rounds).entry.id == start.entry.id
  {
    if rounds != [] {
      IdsAreKept(opts, start, Front(rounds));
    }
  }

  lemma {:induction false} InTwoParts(opts: Options, start: Ledger, a: seq<Answers>, b: seq<Answers>)
    ensures InSequence(opts, start, a + b) == InSequence(opts, InSequence(opts, start, a), b)
  {
    hide WholeCheck;
    if b == [] {
      assert a + b == a;
    } else {
      assert Front(a + b) == a + Front(b) && Last(a + b) == Last(b);
      InTwoParts(opts, start, a, Front(b));
    }
  }

  lemma {:induction false} SequencesStayDistinct(opts: Options, start: Ledger, rounds: seq<Answers>)
    requires NoDup(Addrs(start.entry))
    ensures NoDup(Addrs(InSequence(opts, start, rounds).entry))
  {
    if rounds != [] {
      hide Addrs, NoDup;
      SequencesStayDistinct(opts, start, Front(rounds));
      var before := InSequence(opts, start, Front(rounds));
      CheckStaysDistinct(opts, before.entry, before.misses, Last(rounds));
      hide WholeCheck;
    }
  }

  lemma CheckStaysDistinct(opts: Options, e: Shard, m: Misses, answers: Answers)
    requires NoDup(Addrs(e))
    ensures NoDup(Addrs(WholeCheck(opts, e, m, answers).entry))
  {
    hide Refreshed, AfterPings, Addrs, NoDup;
    var checked := Refreshed(opts, e, m, answers);
    RefreshKeepsAddrs(opts, e, m, answers);
    if FailsOver(opts, checked, answers) {
      SwapDropsThePrimary(checked);
      NoDupOfSubMultiset(Addrs(FailedOver(checked)), Addrs(checked));
    }
  }

  /** From check `k` on the primary is dead, long enough, unreplaced before the last check, which may replace it. */
  ghost predicate DeadSince(opts: Options, start: Ledger, rounds: seq<Answers>, k: nat) {
    && k + opts.downAfter <= |rounds| && k < |rounds|
    && var before := InSequence(opts, start, rounds[..k]);
    && Unreplaced(opts, before, Front(rounds)[k..])
    && Last(rounds).Ping(before.entry.primary.addr).Missed?
    && CanReplace(opts, LastChecked(opts, start, rounds), Last(rounds))
  }

  /** The entry the last check writes back. */
  function LastChecked(opts: Options, start: Ledger, rounds: seq<Answers>): Shard
    requires rounds != []
  {
    var last := InSequence(opts, start, Front(rounds));
    Refreshed(opts, last.entry, last.misses, Last(rounds))
  }

  lemma ReplacedInTheEnd(opts: Options, start: Ledger, rounds: seq<Answers>, k: nat)
    requires NoDup(Addrs(start.entry)) && opts.downAfter >= 1 && DeadSince(opts, start, rounds, k)
    ensures var checked := LastChecked(opts, start, rounds);
      exists b :: IsBest(checked.replicas, b)
        && InSequence(opts, start, rounds).entry
             == Shard(start.entry.id, Node(checked.replicas[b].addr, Up, 0), RemoveAt(checked.replicas, b))
  {
    hide InSequence, CanReplace, Unreplaced, Addrs, NoDup, Refreshed;
    var before, mid, good := InSequence(opts, start, rounds[..k]), Front(rounds)[k..], Last(rounds);
    assert rounds[..k] + mid == Front(rounds) && rounds[..k] + (mid + [good]) == rounds;
    InTwoParts(opts, start, rounds[..k], mid);
    InTwoParts(opts, start, rounds[..k], mid + [good]);
    SequencesStayDistinct(opts, start, rounds[..k]);
    IdsAreKept(opts, start, rounds[..k]);
    RecoversOnceAllowed(opts, before, mid, good);
  }

  /** Before that many misses, and after any answered heartbeat, no check touches the primary. */
  lemma NoHastyFailover(opts: Options, e: Shard, m: Misses, answers: Answers)
    requires NoDup(Addrs(e)) && opts.downAfter >= 1
    requires answers.Ping(e.primary.addr).Alive? || Count(m, e.primary.addr) + 1 < opts.downAfter
    ensures WholeCheck(opts, e, m, answers).entry == Refreshed(opts, e, m, answers)
  {
    ReplacedExactlyWhen(opts, e, m, answers);
  }

  // ----- runs whose snapshots are current are sequences of whole checks -----

  function AnswersOf(rounds: seq<Round>): seq<Answers> {
    seq(|rounds|, i requires 0 <= i < |rounds| => rounds[i].answers)
  }

  /** Each round starts from the entry the rounds before it left. */
  predicate Chained(opts: Options, init: Shard, rounds: seq<Round>) {
    forall i :: 0 <= i < |rounds| ==> rounds[i].snap == Replay(opts, init, rounds[..i]).entry
  }

  lemma ChainedFront(opts: Options, init: Shard, rounds: seq<Round>)
    requires Chained(opts, init, rounds) && rounds != []
    ensures Chained(opts, init, Front(rounds)) && Last(rounds).snap == Replay(opts, init, Front(rounds)).entry
  {
    hide Replay;
    forall i | 0 <= i < |Front(rounds)| ensures Front(rounds)[..i] == rounds[..i] {}
    assert rounds[..|rounds| - 1] == Front(rounds);
  }

  lemma {:induction false} ChainedReplay(opts: Options, init: Shard, rounds: seq<Round>)
    requires Chained(opts, init, rounds)
    ensures Replay(opts, init, rounds) == InSequence(opts, Ledger(init, map[]), AnswersOf(rounds))
  {
    if rounds != [] {
      ChainedFront(opts, init, rounds);
      hide WholeCheck, Chained;
      ChainedReplay(opts, init, Front(rounds));
      assert Front(AnswersOf(rounds)) == AnswersOf(Front(rounds));
    }
  }

  lemma ChainGrows(opts: Options, init: Shard, rounds: seq<Round>, r: Round)
    requires Chained(opts, init, rounds) && r.snap == Replay(opts, init, rounds).entry
    ensures Chained(opts, init, rounds + [r])
  {
    forall i | 0 <= i <= |rounds| ensures (rounds + [r])[i].snap == Replay(opts, init, (rounds + [r])[..i]).entry {
      assert (rounds + [r])[..i] == rounds[..i];
      assert rounds[..|rounds|] == rounds;
    }
  }

  lemma ChainAmended(opts: Options, init: Shard, rounds: seq<Round>, r: Round)
    requires rounds != [] && Chained(opts, init, rounds) && r.snap == Last(rounds).snap
    ensures Chained(opts, init, Front(rounds) + [r])
  {
    forall i | 0 <= i < |rounds| ensures (Front(rounds) + [r])[i].snap == Replay(opts, init, (Front(rounds) + [r])[..i]).entry {
      assert (Front(rounds) + [r])[..i] == rounds[..i];
    }
  }

  lemma {:induction false} FreshRunsAreChained(opts: Options, init: Shard, acts: seq<Act>)
    requires Configured(init) && Run(opts, init, acts).Some?
    requires FreshSnapshots(init, Run(opts, init, acts).value.log)
    ensures Chained(opts, init, Rounds(Run(opts, init, acts).value.log))
  {
    if acts != [] {
      var s, a := Run(opts, init, Front(acts)).value, Last(acts);
      HistoryGrows(opts, init, s, a);
      FreshRunsAreChained(opts, init, Front(acts));
      RunsReduce(opts, init, Front(acts));
      RunsAreShaped(opts, init, Front(acts));
      RoundsGrow(opts, init, s, a);
      hide Rounds, Replay, Published, Current, InRound, Emit, FreshSnapshots;
      if a.Acquire? {
        ChainGrows(opts, init, Rounds(s.log), Round(a.snap, NOTHING));
      } else {
        ChainAmended(opts, init, Rounds(s.log), Noted(Last(Rounds(s.log)), s.core, a));
      }
    }
  }

  /** So with current snapshots the recovery bounds above speak of every run, at each of its quiet moments. */
  lemma FreshRunsAreSequences(opts: Options, init: Shard, acts: seq<Act>)
    requires Configured(init) && Run(opts, init, acts).Some?
    requires var s := Run(opts, init, acts).value; s.core.phase.Idle? && FreshSnapshots(init, s.log)
    ensures var s := Run(opts, init, acts).value;
      Ledger(s.core.entry, s.core.misses) == InSequence(opts, Ledger(init, map[]), AnswersOf(Rounds(s.log)))
  {
    FreshRunsAreChained(opts, init, acts);
    RunsReduce(opts, init, acts);
    ChainedReplay(opts, init, Rounds(Run(opts, init, acts).value.log));
  }
}
