/**
 * The reduction in full: what each check asks of the backends and does to the table, refused and failed calls
 * included, is what the whole check it amounts to does, the votes in whatever order they came.
 */
module CheckCalls {
  import opened Prelude
  import opened ShardMap
  import opened Failover
  import opened Checker
  import opened CheckMachine
  import opened CheckShape
  import opened CheckReduction

  // ----- the calls of a log -----

  function Did(e: Event): seq<Call> {
    match e
    case Voted(a, _) => [AskWitness(a)]
    case PgPromoted(a, _) => [CallPgPromote(a)]
    case Swapped(_, e) => [SetEntry(e)]
    case Drained(a) => [CallDrain(a)]
    case _ => []
  }

  /** The calls of every check so far, in the order it made them. */
  function Made(log: seq<Event>): seq<seq<Call>> {
    if log == [] then []
    else if Last(log).Acquired? then Made(Front(log)) + [[]]
    else Extended(Made(Front(log)), Did(Last(log)))
  }

  function Extended(made: seq<seq<Call>>, more: seq<Call>): seq<seq<Call>> {
    if made == [] then [] else Front(made) + [Last(made) + more]
  }

  function CallsIn(opts: Options, c: Core, a: Act): seq<Call>
    requires Enabled(c, a)
  {
    if a.CountBallots? then [] else Did(Emit(opts, c, a)[0])
  }

  lemma NothingExtends(made: seq<seq<Call>>)
    ensures Extended(made, []) == made
  {
    if made != [] {
      assert Last(made) + [] == Last(made);
      assert Front(made) + [Last(made)] == made;
    }
  }

  lemma MadeSnoc(log: seq<Event>, e: Event)
    ensures Made(log + [e]) == if e.Acquired? then Made(log) + [[]] else Extended(Made(log), Did(e))
  {
    hide Did, Extended;
    Snoc(log, e);
  }

  lemma OneEvent(opts: Options, c: Core, a: Act)
    requires Enabled(c, a) && !a.CountBallots?
    ensures var es := Emit(opts, c, a); |es| == 1 && (es[0].Acquired? <==> a.Acquire?)
  {
    hide Next, Witnesses, Best;
  }

  lemma MadeGrows(opts: Options, init: Shard, s: Local, a: Act)
    requires CanStep(init, s, a)
    ensures Made(Step(opts, init, s, a).log) ==
      if a.Acquire? then Made(s.log) + [[]] else Extended(Made(s.log), CallsIn(opts, s.core, a))
  {
    hide Published, Did, Next, Enabled, Made, Extended;
    if a.CountBallots? {
      NothingExtends(Made(s.log));
      assert s.log + [] == s.log;
    } else {
      OneEvent(opts, s.core, a);
      hide Emit;
      assert Emit(opts, s.core, a) == [Emit(opts, s.core, a)[0]];
      MadeSnoc(s.log, Emit(opts, s.core, a)[0]);
    }
  }

  // ----- the calls a whole check makes -----

  /** The same calls, those to the witnesses first and in any order, every other call in its place. */
  ghost predicate SameUpToVotes(made: seq<Call>, due: seq<Call>) {
    exists k: nat :: VotesFirst(made, due, k)
  }

  ghost predicate VotesFirst(made: seq<Call>, due: seq<Call>, k: nat) {
    && k <= |made| == |due|
    && multiset(made[..k]) == multiset(due[..k])
    && made[k..] == due[k..]
    && forall i :: 0 <= i < |due| ==> (due[i].AskWitness? <==> i < k)
  }

  /** What the whole check of round `r` does, started on the counts `m`. */
  function Due(opts: Options, m: Misses, r: Round): seq<Call> {
    CallsOfCheck(opts, r.snap, m, r.answers)
  }

  lemma VotesThen(asked: seq<Call>, due: seq<Call>, rest: seq<Call>)
    requires multiset(asked) == multiset(due)
    requires (forall c :: c in due ==> c.AskWitness?) && forall c :: c in rest ==> !c.AskWitness?
    ensures SameUpToVotes(asked + rest, due + rest)
  {
    var made, all, k := asked + rest, due + rest, |due|;
    assert |multiset(asked)| == |asked| && |multiset(due)| == |due|;
    assert made[..k] == asked && all[..k] == due && made[k..] == rest == all[k..];
    forall i | 0 <= i < |all| ensures all[i].AskWitness? <==> i < k {
      if i < k {
        assert all[i] == due[i];
      } else {
        assert all[i] == rest[i - k];
      }
    }
    assert VotesFirst(made, all, k);
  }

  // ----- the votes asked for so far -----

  function Ask(w: Node, vote: Option<Vote>): seq<Call> {
    if vote.Some? then [AskWitness(w.addr)] else []
  }

  /** One call per vote that has arrived, in slot order. */
  function AsksIn(ws: seq<Node>, votes: seq<Option<Vote>>): seq<Call>
    requires |ws| == |votes|
  {
    if ws == [] then [] else AsksIn(Front(ws), Front(votes)) + Ask(Last(ws), Last(votes))
  }

  lemma AsksInLast(ws: seq<Node>, votes: seq<Option<Vote>>)
    requires |ws| == |votes| && ws != []
    ensures AsksIn(ws, votes) == AsksIn(Front(ws), Front(votes)) + Ask(Last(ws), Last(votes))
  {
  }

  lemma {:induction false} OneMoreAsk(ws: seq<Node>, votes: seq<Option<Vote>>, slot: nat, v: Vote)
    requires slot < |ws| == |votes| && votes[slot].None?
    ensures multiset(AsksIn(ws, votes[slot := Some(v)])) == multiset(AsksIn(ws, votes)) + multiset{AskWitness(ws[slot].addr)}
  {
    hide AsksIn;
    var votes' := votes[slot := Some(v)];
    AsksInLast(ws, votes);
    AsksInLast(ws, votes');
    if slot == |ws| - 1 {
      assert Front(votes') == Front(votes);
    } else {
      hide Ask;
      OneMoreAsk(Front(ws), Front(votes), slot, v);
      assert Front(votes') == Front(votes)[slot := Some(v)] && Last(votes') == Last(votes);
    }
  }

  lemma {:induction false} NoAsksYet(ws: seq<Node>, votes: seq<Option<Vote>>)
    requires |ws| == |votes| && forall i :: 0 <= i < |votes| ==> votes[i].None?
    ensures AsksIn(ws, votes) == []
  {
    if ws != [] {
      NoAsksYet(Front(ws), Front(votes));
    }
  }

  lemma {:induction false} EveryoneAsked(ws: seq<Node>, votes: seq<Option<Vote>>)
    requires |ws| == |votes| && AllIn(votes)
    ensures AsksIn(ws, votes) == Asked(ws)
  {
    if ws != [] {
      EveryoneAsked(Front(ws), Front(votes));
      assert Asked(ws) == Asked(Front(ws)) + [AskWitness(Last(ws).addr)];
    }
  }

  // ----- where a running check stands -----

  function Poll(opts: Options, e: Shard): seq<Call> {
    if opts.quorumGuard then Asked(Witnesses(e.replicas)) else []
  }

  function Consent(opts: Options, e: Shard): seq<Call>
    requires Best(e.replicas) != -1
  {
    if opts.pgPromote then [CallPgPromote(CandidateOf(e).addr)] else []
  }

  /** Some order of the poll, then `rest`. */
  ghost predicate PolledThen(opts: Options, e: Shard, calls: seq<Call>, rest: seq<Call>) {
    exists asked :: multiset(asked) == multiset(Poll(opts, e)) && calls == asked + rest
  }

  /** What the calls of round `r` amount to so far. */
  ghost predicate Acted(opts: Options, m: Misses, r: Round, c: Core, calls: seq<Call>) {
    match c.phase
    case Idle => SameUpToVotes(calls, Due(opts, m, r))
    case Pinging(_, _) => calls == []
    case Deciding => calls == []
    case Voting(e, votes) =>
      |votes| == |Witnesses(e.replicas)| && multiset(calls) == multiset(AsksIn(Witnesses(e.replicas), votes))
    case Promoting(e) => PolledThen(opts, e, calls, [])
    case Swapping(e) => Best(e.replicas) != -1 && PolledThen(opts, e, calls, Consent(opts, e))
    case Draining(addr) => SameUpToVotes(calls + [CallDrain(addr)], Due(opts, m, r))
    case Finishing => SameUpToVotes(calls, Due(opts, m, r))
  }

  lemma PollIsVotes(opts: Options, e: Shard)
    ensures forall c :: c in Poll(opts, e) ==> c.AskWitness?
  {
  }

  lemma PolledThenMatches(opts: Options, e: Shard, calls: seq<Call>, rest: seq<Call>)
    requires PolledThen(opts, e, calls, rest) && forall c :: c in rest ==> !c.AskWitness?
    ensures SameUpToVotes(calls, Poll(opts, e) + rest)
  {
    hide Poll, SameUpToVotes;
    var asked :| multiset(asked) == multiset(Poll(opts, e)) && calls == asked + rest;
    PollIsVotes(opts, e);
    VotesThen(asked, Poll(opts, e), rest);
  }

  lemma PolledThenMore(opts: Options, e: Shard, calls: seq<Call>, rest: seq<Call>, more: seq<Call>)
    requires PolledThen(opts, e, calls, rest)
    ensures PolledThen(opts, e, calls + more, rest + more)
  {
    hide Poll;
    var asked :| multiset(asked) == multiset(Poll(opts, e)) && calls == asked + rest;
    assert calls + more == asked + (rest + more);
  }

  lemma NoCalls()
    ensures SameUpToVotes([], [])
  {
    assert VotesFirst([], [], 0);
  }

  /** The calls due from a check that writes back the DOWN entry `e`. */
  lemma DueWhenDown(opts: Options, base: Ledger, r: Round, c: Core, answers: Answers)
    requires Refreshes(opts, base, r, c) && answers.pings == r.answers.pings
    ensures Due(opts, base.misses, r.(answers := answers)) == CallsOf(opts, c.entry, answers)
  {
    hide CallsOf, AfterPings, Refreshed;
    HeartbeatsOnly(opts, r.snap, base.misses, {}, r.answers, answers);
  }

  lemma WriteBackActs(opts: Options, base: Ledger, r: Round, c: Core, calls: seq<Call>)
    requires InRound(opts, base, r, c) && Acted(opts, base.misses, r, c, calls) && Enabled(c, WriteBack)
    ensures Acted(opts, base.misses, r, Next(opts, c, WriteBack), calls)
  {
    hide AfterPings, Refreshed, SlotsMatch, Assembled, Values, CallsOf, SameUpToVotes;
    AllSlotsMakeTheRefresh(opts, r.snap, base.misses, r.answers, c.phase.slots);
    NoCalls();
  }

  lemma LookupActs(opts: Options, base: Ledger, r: Round, c: Core, calls: seq<Call>)
    requires InRound(opts, base, r, c) && Acted(opts, base.misses, r, c, calls) && Enabled(c, Lookup)
    ensures Acted(opts, base.misses, r, Next(opts, c, Lookup), calls)
  {
    hide AfterPings, Refreshed, Best, Witnesses, SameUpToVotes, AsksIn, Asked;
    NoCalls();
    DueWhenDown(opts, base, r, c, r.answers);
    hide Due;
    var ws := Witnesses(c.entry.replicas);
    NoAsksYet(ws, Blank(|ws|));
    assert calls == calls + [];
    assert !opts.quorumGuard ==> PolledThen(opts, c.entry, calls, []);
  }

  lemma VoteActs(opts: Options, base: Ledger, r: Round, c: Core, calls: seq<Call>, slot: nat, vote: Vote)
    requires InRound(opts, base, r, c) && Acted(opts, base.misses, r, c, calls) && Enabled(c, CastVote(slot, vote))
    ensures Acted(opts, base.misses, Noted(r, c, CastVote(slot, vote)), Next(opts, c, CastVote(slot, vote)),
                  calls + CallsIn(opts, c, CastVote(slot, vote)))
  {
    hide AfterPings, Refreshed, Best, Witnesses, AsksIn, VotesMatch;
    OneMoreAsk(Witnesses(c.phase.s.replicas), c.phase.votes, slot, vote);
  }

  lemma CountActs(opts: Options, base: Ledger, r: Round, c: Core, calls: seq<Call>)
    requires InRound(opts, base, r, c) && Acted(opts, base.misses, r, c, calls) && Enabled(c, CountBallots)
    ensures Acted(opts, base.misses, r, Next(opts, c, CountBallots), calls)
  {
    hide AfterPings, Refreshed, Best, Witnesses, AsksIn, QuorumReached, Values, Ballots, SameUpToVotes, Asked;
    var ws := Witnesses(c.entry.replicas);
    AllVotesMakeTheBallots(ws, r.answers, c.phase.votes);
    EveryoneAsked(ws, c.phase.votes);
    DueWhenDown(opts, base, r, c, r.answers);
    assert calls + [] == calls;
    assert PolledThen(opts, c.entry, calls, []);
    PolledThenMatches(opts, c.entry, calls, []);
    hide PolledThen, Due;
    assert Poll(opts, c.entry) + [] == Poll(opts, c.entry);
    if !QuorumReached(Ballots(ws, r.answers)) {
      assert CallsOf(opts, c.entry, r.answers) == Poll(opts, c.entry) + [];
    } else {
      assert opts.pgPromote || Consent(opts, c.entry) == [];
    }
  }

  lemma PromoteActs(opts: Options, base: Ledger, r: Round, c: Core, calls: seq<Call>, ok: bool)
    requires InRound(opts, base, r, c) && Acted(opts, base.misses, r, c, calls) && Enabled(c, PgPromote(ok))
    ensures Acted(opts, base.misses, Noted(r, c, PgPromote(ok)), Next(opts, c, PgPromote(ok)),
                  calls + CallsIn(opts, c, PgPromote(ok)))
  {
    hide AfterPings, Refreshed, Best, Witnesses, QuorumReached, Ballots, SameUpToVotes, Asked, PolledThen;
    var e, more := c.entry, [CallPgPromote(CandidateOf(c.entry).addr)];
    PolledThenMore(opts, e, calls, [], more);
    assert [] + more == more == Consent(opts, e);
    if !ok {
      DueWhenDown(opts, base, r, c, r.answers);
      hide Due;
      PolledThenMatches(opts, e, calls + more, more);
      assert CallsOf(opts, e, r.answers) == Poll(opts, e) + more;
    }
  }

  lemma SwapActs(opts: Options, base: Ledger, r: Round, c: Core, calls: seq<Call>)
    requires InRound(opts, base, r, c) && Acted(opts, base.misses, r, c, calls) && Enabled(c, Swap)
    ensures Acted(opts, base.misses, r, Next(opts, c, Swap), calls + CallsIn(opts, c, Swap))
  {
    hide AfterPings, Refreshed, Best, Witnesses, QuorumReached, Ballots, SameUpToVotes, Asked, PolledThen, FailedOver;
    var e := c.entry;
    var swap, drain := [SetEntry(FailedOver(e))], [CallDrain(e.primary.addr)];
    DueWhenDown(opts, base, r, c, r.answers);
    DueOnSuccess(opts, e, r.answers);
    hide Due, CallsOf, Poll, Consent, RefusalOf;
    PolledThenMore(opts, e, calls, Consent(opts, e), swap + drain);
    PolledThenMatches(opts, e, calls + (swap + drain), Consent(opts, e) + (swap + drain));
    assert calls + swap + drain == calls + (swap + drain);
  }

  lemma DueOnSuccess(opts: Options, e: Shard, answers: Answers)
    requires RefusalOf(opts, e, answers).None?
    ensures Best(e.replicas) != -1
    ensures var rest := Consent(opts, e) + ([SetEntry(FailedOver(e))] + [CallDrain(e.primary.addr)]);
      CallsOf(opts, e, answers) == Poll(opts, e) + rest && forall c :: c in rest ==> !c.AskWitness?
  {
    hide Best, Witnesses, QuorumReached, Ballots, Asked, FailedOver;
    var swap, drain := [SetEntry(FailedOver(e))], [CallDrain(e.primary.addr)];
    assert swap + drain == [SetEntry(FailedOver(e)), CallDrain(e.primary.addr)];
    assert CallsOf(opts, e, answers) == Poll(opts, e) + Consent(opts, e) + (swap + drain);
    assert Poll(opts, e) + Consent(opts, e) + (swap + drain) == Poll(opts, e) + (Consent(opts, e) + (swap + drain));
  }

  lemma StepActs(opts: Options, base: Ledger, r: Round, c: Core, calls: seq<Call>, a: Act)
    requires InRound(opts, base, r, c) && Acted(opts, base.misses, r, c, calls) && Enabled(c, a) && !a.Acquire?
    ensures Acted(opts, base.misses, Noted(r, c, a), Next(opts, c, a), calls + CallsIn(opts, c, a))
  {
    hide InRound, SameUpToVotes, PolledThen, AsksIn, Due, Refreshed;
    assert calls + [] == calls;
    match a {
      case Ping(_, _) =>
      case WriteBack => WriteBackActs(opts, base, r, c, calls);
      case Lookup => LookupActs(opts, base, r, c, calls);
      case CastVote(slot, vote) => VoteActs(opts, base, r, c, calls, slot, vote);
      case CountBallots => CountActs(opts, base, r, c, calls);
      case PgPromote(ok) => PromoteActs(opts, base, r, c, calls, ok);
      case Swap => SwapActs(opts, base, r, c, calls);
      case Drain =>
      case Release =>
    }
  }

  // ----- whole runs -----

  /** Check `i` did what its whole check does, on the counts the checks before it left. */
  ghost predicate AccountsFor(opts: Options, init: Shard, rounds: seq<Round>, made: seq<seq<Call>>, i: nat)
    requires i < |rounds| == |made|
  {
    SameUpToVotes(made[i], Due(opts, Replay(opts, init, rounds[..i]).misses, rounds[i]))
  }

  ghost predicate Accounted(opts: Options, init: Shard, rounds: seq<Round>, made: seq<seq<Call>>) {
    |rounds| == |made| && forall i :: 0 <= i < |rounds| ==> AccountsFor(opts, init, rounds, made, i)
  }

  /** Every finished check is accounted for, and the running one as far as it has come. */
  ghost predicate Accounts(opts: Options, init: Shard, s: Local) {
    var rounds, made := Rounds(s.log), Made(s.log);
    if s.core.phase.Idle? then Accounted(opts, init, rounds, made)
    else
      && rounds != [] && made != [] && Accounted(opts, init, Front(rounds), Front(made))
      && Acted(opts, Replay(opts, init, Front(rounds)).misses, Last(rounds), s.core, Last(made))
  }

  lemma AccountedSnoc(opts: Options, init: Shard, rounds: seq<Round>, made: seq<seq<Call>>, r: Round, calls: seq<Call>)
    requires Accounted(opts, init, rounds, made)
    requires SameUpToVotes(calls, Due(opts, Replay(opts, init, rounds).misses, r))
    ensures Accounted(opts, init, rounds + [r], made + [calls])
  {
    hide SameUpToVotes, Due, Replay;
    var rounds', made' := rounds + [r], made + [calls];
    forall i | 0 <= i < |rounds'| ensures AccountsFor(opts, init, rounds', made', i) {
      if i < |rounds| {
        assert AccountsFor(opts, init, rounds, made, i);
        assert rounds'[..i] == rounds[..i] && rounds'[i] == rounds[i] && made'[i] == made[i];
      } else {
        assert rounds'[..i] == rounds && rounds'[i] == r && made'[i] == calls;
      }
    }
  }

  lemma AcquireAccounts(opts: Options, init: Shard, s: Local, snap: Shard)
    requires Accounts(opts, init, s) && CanStep(init, s, Acquire(snap))
    ensures Accounts(opts, init, Step(opts, init, s, Acquire(snap)))
  {
    hide Replay, Rounds, Made, Accounted, Published, Emit, Due;
    MadeGrows(opts, init, s, Acquire(snap));
    RoundsGrow(opts, init, s, Acquire(snap));
    Snoc(Rounds(s.log), Round(snap, NOTHING));
    Snoc(Made(s.log), []);
  }

  lemma MidAccounts(opts: Options, init: Shard, s: Local, a: Act)
    requires Reduces(opts, init, s) && Accounts(opts, init, s) && CanStep(init, s, a) && !a.Acquire? && !a.Release?
    ensures Accounts(opts, init, Step(opts, init, s, a))
  {
    hide InRound, Replay, Rounds, Made, Acted, Accounted, Noted, CallsIn, Published, Emit;
    var rounds, made := Rounds(s.log), Made(s.log);
    var base, r, calls := Replay(opts, init, Front(rounds)), Last(rounds), Last(made);
    RunningActs(opts, init, s);
    hide Accounts, Reduces;
    MadeGrows(opts, init, s, a);
    RoundsGrow(opts, init, s, a);
    StepActs(opts, base, r, s.core, calls, a);
    OnlyReleaseEnds(opts, s.core, a);
    hide Next, Enabled;
    NowActs(opts, init, Step(opts, init, s, a), Front(rounds), Noted(r, s.core, a), Front(made), calls + CallsIn(opts, s.core, a));
  }

  lemma OnlyReleaseEnds(opts: Options, c: Core, a: Act)
    requires Enabled(c, a) && !a.Release?
    ensures !Next(opts, c, a).phase.Idle?
    ensures !a.Acquire? ==> !c.phase.Idle?
  {
    hide FailedOver, QuorumReached, Best, Witnesses, Values, Recorded, Pinged;
  }

  lemma RunningActs(opts: Options, init: Shard, s: Local)
    requires Reduces(opts, init, s) && Accounts(opts, init, s)
    ensures var rounds, made := Rounds(s.log), Made(s.log);
      !s.core.phase.Idle? ==>
        && rounds != [] && made != [] && Accounted(opts, init, Front(rounds), Front(made))
        && InRound(opts, Replay(opts, init, Front(rounds)), Last(rounds), s.core)
        && Acted(opts, Replay(opts, init, Front(rounds)).misses, Last(rounds), s.core, Last(made))
  {
    hide InRound, Acted, Replay, Rounds, Made, Accounted;
  }

  lemma NowActs(opts: Options, init: Shard, s: Local, rounds: seq<Round>, r: Round, made: seq<seq<Call>>, calls: seq<Call>)
    requires !s.core.phase.Idle? && Rounds(s.log) == rounds + [r] && Made(s.log) == made + [calls]
    requires Accounted(opts, init, rounds, made)
    requires Acted(opts, Replay(opts, init, rounds).misses, r, s.core, calls)
    ensures Accounts(opts, init, s)
  {
    hide Acted, Replay, Rounds, Made, Accounted;
    Snoc(rounds, r);
    Snoc(made, calls);
  }

  lemma ReleaseAccounts(opts: Options, init: Shard, s: Local)
    requires Accounts(opts, init, s) && CanStep(init, s, Release)
    ensures Accounts(opts, init, Step(opts, init, s, Release))
  {
    hide Replay, Rounds, Made, Accounted, Published, Due, SameUpToVotes;
    var rounds, made := Rounds(s.log), Made(s.log);
    MadeGrows(opts, init, s, Release);
    RoundsGrow(opts, init, s, Release);
    NothingExtends(made);
    AccountedSnoc(opts, init, Front(rounds), Front(made), Last(rounds), Last(made));
    assert made == Front(made) + [Last(made)];
  }

  lemma StepAccounts(opts: Options, init: Shard, s: Local, a: Act)
    requires Reduces(opts, init, s) && Accounts(opts, init, s) && CanStep(init, s, a)
    ensures Accounts(opts, init, Step(opts, init, s, a))
  {
    hide Accounts, Reduces, CanStep;
    if a.Acquire? {
      AcquireAccounts(opts, init, s, a.snap);
    } else if a.Release? {
      ReleaseAccounts(opts, init, s);
    } else {
      MidAccounts(opts, init, s, a);
    }
  }

  /**
   * Every reachable state, mid-check or not, is explained by whole checks run one after another: the entry, the miss
   * counts, and the calls each check made, from the votes to the drain.
   */
  lemma {:induction false} ConcurrentIsSequential(opts: Options, init: Shard, acts: seq<Act>)
    requires Configured(init) && Run(opts, init, acts).Some?
    ensures Reduces(opts, init, Run(opts, init, acts).value)
    ensures Accounts(opts, init, Run(opts, init, acts).value)
  {
    RunsReduce(opts, init, acts);
    if acts == [] {
      hide Reduces;
    } else {
      hide Reduces, Accounts, Configured;
      RunsReduce(opts, init, Front(acts));
      ConcurrentIsSequential(opts, init, Front(acts));
      StepAccounts(opts, init, Run(opts, init, Front(acts)).value, Last(acts));
    }
  }

  lemma SameDue(made: seq<Call>, made2: seq<Call>, due: seq<Call>)
    requires SameUpToVotes(made, due) && SameUpToVotes(made2, due)
    ensures SameUpToVotes(made, made2)
  {
    var k: nat :| VotesFirst(made, due, k);
    var k2: nat :| VotesFirst(made2, due, k2);
    assert k < |due| ==> !due[k].AskWitness?;
    assert k2 < |due| ==> !due[k2].AskWitness?;
    assert k == k2;
    SameVotes(made2, due, k);
    forall i | 0 <= i < |made2| ensures made2[i].AskWitness? <==> i < k {
      if i >= k {
        assert made2[i] == made2[k..][i - k] == due[k..][i - k];
      }
    }
    assert VotesFirst(made, made2, k);
  }

  lemma SameVotes(made: seq<Call>, due: seq<Call>, k: nat)
    requires VotesFirst(made, due, k)
    ensures forall i :: 0 <= i < k ==> made[i].AskWitness?
  {
    forall i | 0 <= i < k ensures made[i].AskWitness? {
      assert made[..k][i] in multiset(made[..k]);
      assert made[i] in multiset(due[..k]);
      assert made[i] in due[..k];
      var j :| 0 <= j < k && due[..k][j] == made[i];
      assert due[j].AskWitness?;
    }
  }

  /** Runs whose checks got the same answers end alike and made the same calls, however they interleaved. */
  lemma InterleavingDoesNotMatter(opts: Options, init: Shard, acts: seq<Act>, acts2: seq<Act>)
    requires Configured(init) && Run(opts, init, acts).Some? && Run(opts, init, acts2).Some?
    requires Run(opts, init, acts).value.core.phase.Idle? && Run(opts, init, acts2).value.core.phase.Idle?
    requires Rounds(Run(opts, init, acts).value.log) == Rounds(Run(opts, init, acts2).value.log)
    ensures Run(opts, init, acts).value.core == Run(opts, init, acts2).value.core
    ensures var made, made2 := Made(Run(opts, init, acts).value.log), Made(Run(opts, init, acts2).value.log);
      |made| == |made2| && forall i :: 0 <= i < |made| ==> SameUpToVotes(made[i], made2[i])
  {
    hide Configured, Run, Replay, Rounds, Made, SameUpToVotes, Due;
    ConcurrentIsSequential(opts, init, acts);
    ConcurrentIsSequential(opts, init, acts2);
    var s, s2 := Run(opts, init, acts).value, Run(opts, init, acts2).value;
    var rounds, made, made2 := Rounds(s.log), Made(s.log), Made(s2.log);
    forall i | 0 <= i < |made| ensures SameUpToVotes(made[i], made2[i]) {
      assert AccountsFor(opts, init, rounds, made, i) && AccountsFor(opts, init, rounds, made2, i);
      SameDue(made[i], made2[i], Due(opts, Replay(opts, init, rounds[..i]).misses, rounds[i]));
    }
  }
}
