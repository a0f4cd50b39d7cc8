/** Every pg_promote call is backed by a dead primary, a live candidate and a strict majority, all in its own check. */
module CheckCertificate {
  import opened Prelude
  import opened ShardMap
  import opened Failover
  import opened Checker
  import opened CheckMachine
  import opened CheckShape
  import opened CheckReduction
  import opened CheckSafety

  function Paired(ws: seq<Node>, vs: seq<Vote>): seq<(Addr, Vote)>
    requires |ws| == |vs|
  {
    seq(|ws|, i requires 0 <= i < |ws| => (ws[i].addr, vs[i]))
  }

  /** The votes cast are one per usable replica of `e`, and most of the answers cannot see the primary. */
  ghost predicate Elected(e: Shard, cast: seq<(Addr, Vote)>) {
    exists vs: seq<Vote> ::
      && |vs| == |Witnesses(e.replicas)|
      && multiset(cast) == multiset(Paired(Witnesses(e.replicas), vs))
      && NotStreaming in vs
      && 2 * multiset(vs)[NotStreaming] > multiset(vs)[NotStreaming] + multiset(vs)[Streaming]
  }

  /** What the log before a pg_promote call on `a` must show. */
  ghost predicate Certified(opts: Options, before: seq<Event>, a: Addr) {
    && OwnEntry(before).Some?
    && ReadEntry(before) == OwnEntry(before)
    && var e := OwnEntry(before).value;
    && MissRun(before, e.primary.addr) >= opts.downAfter
    && (exists b :: IsBest(e.replicas, b) && a == e.replicas[b].addr)
    && (opts.quorumGuard ==> Elected(e, VotesCast(before)))
  }

  /** The votes that have arrived, in slot order. */
  function Arrived(ws: seq<Node>, votes: seq<Option<Vote>>): seq<(Addr, Vote)>
    requires |ws| == |votes|
  {
    if ws == [] then [] else Arrived(Front(ws), Front(votes)) + Ballot(Last(ws), Last(votes))
  }

  function Ballot(w: Node, vote: Option<Vote>): seq<(Addr, Vote)> {
    if vote.Some? then [(w.addr, vote.value)] else []
  }

  lemma ArrivedLast(ws: seq<Node>, votes: seq<Option<Vote>>)
    requires |ws| == |votes| && ws != []
    ensures Arrived(ws, votes) == Arrived(Front(ws), Front(votes)) + Ballot(Last(ws), Last(votes))
  {
  }

  lemma {:induction false} OneMoreVote(ws: seq<Node>, votes: seq<Option<Vote>>, slot: nat, v: Vote)
    requires slot < |ws| == |votes| && votes[slot].None?
    ensures multiset(Arrived(ws, votes[slot := Some(v)])) == multiset(Arrived(ws, votes)) + multiset{(ws[slot].addr, v)}
  {
    hide Arrived;
    var votes' := votes[slot := Some(v)];
    ArrivedLast(ws, votes);
    ArrivedLast(ws, votes');
    if slot == |ws| - 1 {
      assert Front(votes') == Front(votes);
    } else {
      hide Ballot;
      OneMoreVote(Front(ws), Front(votes), slot, v);
      assert Front(votes') == Front(votes)[slot := Some(v)] && Last(votes') == Last(votes);
    }
  }

  lemma {:induction false} NoVotesYet(ws: seq<Node>, votes: seq<Option<Vote>>)
    requires |ws| == |votes|
    requires forall i :: 0 <= i < |votes| ==> votes[i].None?
    ensures Arrived(ws, votes) == []
  {
    if ws != [] {
      NoVotesYet(Front(ws), Front(votes));
    }
  }

  lemma {:induction false} EveryVoteIn(ws: seq<Node>, votes: seq<Option<Vote>>)
    requires |ws| == |votes| && AllIn(votes)
    ensures Arrived(ws, votes) == Paired(ws, Values(votes))
  {
    if ws != [] {
      EveryVoteIn(Front(ws), Front(votes));
      assert Values(votes) == Values(Front(votes)) + [Last(votes).value];
      assert Paired(ws, Values(votes)) == Paired(Front(ws), Values(Front(votes))) + [(Last(ws).addr, Last(votes).value)];
    }
  }

  lemma QuorumElects(e: Shard, votes: seq<Option<Vote>>, cast: seq<(Addr, Vote)>)
    requires |votes| == |Witnesses(e.replicas)| && AllIn(votes) && QuorumReached(Values(votes))
    requires multiset(cast) == multiset(Arrived(Witnesses(e.replicas), votes))
    ensures Elected(e, cast)
  {
    EveryVoteIn(Witnesses(e.replicas), votes);
    GuardIsStrictMajority(Values(votes));
  }

  /** What a check's log shows at each stage of its failover attempt. */
  ghost predicate Documented(opts: Options, s: Local) {
    match s.core.phase
    case Idle => true
    case Pinging(_, _) => VotesCast(s.log) == []
    case Deciding => OwnEntry(s.log) == Some(s.core.entry) && VotesCast(s.log) == []
    case Voting(e, votes) =>
      && OwnEntry(s.log) == Some(e) && ReadEntry(s.log) == Some(e)
      && |votes| == |Witnesses(e.replicas)|
      && multiset(VotesCast(s.log)) == multiset(Arrived(Witnesses(e.replicas), votes))
    case Promoting(e) =>
      && OwnEntry(s.log) == Some(e) && ReadEntry(s.log) == Some(e)
      && (opts.quorumGuard ==> Elected(e, VotesCast(s.log)))
    case Swapping(_) => true
    case Draining(_) => true
    case Finishing => true
  }

  lemma LookupDocumented(opts: Options, init: Shard, s: Local)
    requires Documented(opts, s) && CanStep(init, s, Lookup)
    ensures Documented(opts, Step(opts, init, s, Lookup))
  {
    Snoc(s.log, LookedUp(s.core.entry));
    var ws := Witnesses(s.core.entry.replicas);
    NoVotesYet(ws, Blank(|ws|));
    hide Published, Arrived, Witnesses, Best, Elected;
  }

  lemma VoteDocumented(opts: Options, init: Shard, s: Local, slot: nat, vote: Vote)
    requires Documented(opts, s) && PhaseFits(init, s) && CanStep(init, s, CastVote(slot, vote))
    ensures Documented(opts, Step(opts, init, s, CastVote(slot, vote)))
  {
    hide Published, Arrived, Witnesses, Best, Elected, MissRun, FailedOver, AllIn, Values;
    var ws := Witnesses(s.core.phase.s.replicas);
    Snoc(s.log, Voted(ws[slot].addr, vote));
    OneMoreVote(ws, s.core.phase.votes, slot, vote);
  }

  lemma CountingOnlyMovesThePhase(opts: Options, init: Shard, s: Local)
    requires CanStep(init, s, CountBallots)
    ensures Step(opts, init, s, CountBallots).log == s.log
    ensures Step(opts, init, s, CountBallots).core == s.core.(phase :=
      if QuorumReached(Values(s.core.phase.votes)) then PastGuard(opts, s.core.phase.s) else Finishing)
  {
    hide QuorumReached, Values, Witnesses, Published;
    assert s.log + [] == s.log;
  }

  lemma CountDocumented(opts: Options, init: Shard, s: Local)
    requires Documented(opts, s) && CanStep(init, s, CountBallots)
    ensures Documented(opts, Step(opts, init, s, CountBallots))
  {
    hide Published, Arrived, Witnesses, Best, Elected, QuorumReached, MissRun, FailedOver, Values, Step, Next, Emit;
    CountingOnlyMovesThePhase(opts, init, s);
    if QuorumReached(Values(s.core.phase.votes)) {
      QuorumElects(s.core.phase.s, s.core.phase.votes, VotesCast(s.log));
    }
  }

  lemma OtherStepDocumented(opts: Options, init: Shard, s: Local, a: Act)
    requires Documented(opts, s) && CanStep(init, s, a) && !a.Lookup? && !a.CastVote? && !a.CountBallots?
    ensures Documented(opts, Step(opts, init, s, a))
  {
    hide Published, Arrived, Witnesses, Best, Elected, QuorumReached, FailedOver, Recorded, Pinged, MissRun, Assembled, Values, AllIn;
    Snoc(s.log, Emit(opts, s.core, a)[0]);
  }

  lemma StepKeepsDocumented(opts: Options, init: Shard, s: Local, a: Act)
    requires Documented(opts, s) && PhaseFits(init, s) && CanStep(init, s, a)
    requires s.core.phase.Promoting? ==> opts.pgPromote
    ensures Documented(opts, Step(opts, init, s, a))
  {
    hide Documented, Step, CanStep, PhaseFits;
    match a {
      case Lookup => LookupDocumented(opts, init, s);
      case CastVote(slot, vote) => VoteDocumented(opts, init, s, slot, vote);
      case CountBallots => CountDocumented(opts, init, s);
      case _ => OtherStepDocumented(opts, init, s, a);
    }
  }

  lemma PromotingIsCertified(opts: Options, init: Shard, s: Local)
    requires s.core.phase.Promoting? && Best(s.core.phase.s.replicas) != -1
    requires Documented(opts, s) && Reduces(opts, init, s) && CountsMissRuns(s)
    ensures Certified(opts, s.log, CandidateOf(s.core.phase.s).addr)
  {
    var e := s.core.phase.s;
    var r := Last(Rounds(s.log));
    var base := Replay(opts, init, Front(Rounds(s.log)));
    BestIsTheBest(e.replicas);
    assert IsBest(e.replicas, Best(e.replicas));
    CountAfterPings(base.misses, r.snap, r.answers, 0);
    assert Count(s.core.misses, e.primary.addr) == MissRun(s.log, e.primary.addr);
  }

  lemma {:induction false} RunsAreDocumented(opts: Options, init: Shard, acts: seq<Act>)
    requires Configured(init) && Run(opts, init, acts).Some?
    ensures Documented(opts, Run(opts, init, acts).value)
  {
    if acts != [] {
      RunsAreDocumented(opts, init, Front(acts));
      RunsAreShaped(opts, init, Front(acts));
      RunsReduce(opts, init, Front(acts));
      StepKeepsDocumented(opts, init, Run(opts, init, Front(acts)).value, Last(acts));
    }
  }

  lemma CertificatesExtend(opts: Options, init: Shard, s: Local, a: Act)
    requires CanStep(init, s, a)
    requires a.PgPromote? ==> Certified(opts, s.log, CandidateOf(s.core.phase.s).addr)
    requires forall i :: 0 <= i < |s.log| && s.log[i].PgPromoted? ==> Certified(opts, s.log[..i], s.log[i].addr)
    ensures var log := Step(opts, init, s, a).log;
      forall i :: 0 <= i < |log| && log[i].PgPromoted? ==> Certified(opts, log[..i], log[i].addr)
  {
    hide Certified, Published, Best;
    var log := Step(opts, init, s, a).log;
    assert forall i :: 0 <= i < |s.log| ==> log[..i] == s.log[..i];
    assert log[..|s.log|] == s.log;
  }

  /** No run ever calls pg_promote without its certificate. */
  lemma {:induction false} PromotionsAreCertified(opts: Options, init: Shard, acts: seq<Act>)
    requires Configured(init) && Run(opts, init, acts).Some?
    ensures var log := Run(opts, init, acts).value.log;
      forall i :: 0 <= i < |log| && log[i].PgPromoted? ==> Certified(opts, log[..i], log[i].addr)
  {
    hide Certified, Documented, Reduces, CountsMissRuns, Published, Emit;
    if acts != [] {
      var s := Run(opts, init, Front(acts)).value;
      PromotionsAreCertified(opts, init, Front(acts));
      if Last(acts).PgPromote? {
        RunsAreDocumented(opts, init, Front(acts));
        RunsReduce(opts, init, Front(acts));
        CountsAreMissRuns(opts, init, Front(acts));
        PromotingIsCertified(opts, init, s);
      }
      CertificatesExtend(opts, init, s, Last(acts));
    }
  }
}
