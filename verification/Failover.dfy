/** Choosing and promoting a replacement primary: candidate selection, the split-brain guard, the map swap. */
module Failover {
  import opened Prelude
  import opened ShardMap

  /** A witness's answer to "are you still streaming from the primary?". */
  datatype Vote = Streaming | NotStreaming | Abstained

  /** A heartbeat's outcome. The lag is meaningful for replicas only. */
  datatype PingAnswer = Alive(lag: int) | Missed

  datatype Options = Options(suspectAfter: nat, downAfter: nat, pgPromote: bool, quorumGuard: bool)

  /** Everything the backends answer during one check. A question without an answer has timed out. */
  datatype Answers = Answers(pings: map<Addr, PingAnswer>, votes: map<Addr, Vote>, promotes: set<Addr>) {
    function Ping(addr: Addr): PingAnswer {
      if addr in pings then pings[addr] else Missed
    }

    function Witness(addr: Addr): Vote {
      if addr in votes then votes[addr] else Abstained
    }
  }

  predicate Usable(n: Node) {
    n.status != Down
  }

  // ----- candidate selection -----

  /** `b` is the least-lagged usable replica, the first of them on a tie. */
  predicate IsBest(rs: seq<Node>, b: int) {
    && 0 <= b < |rs|
    && rs[b].status != Down
    && forall i :: 0 <= i < |rs| && rs[i].status != Down ==>
         rs[b].lagMS < rs[i].lagMS || (rs[b].lagMS == rs[i].lagMS && b <= i)
  }

  function Best(rs: seq<Node>): (b: int)
    ensures -1 <= b < |rs|
  {
    if rs == [] then -1
    else
      var b := Best(Front(rs));
      if Usable(Last(rs)) && (b == -1 || Last(rs).lagMS < rs[b].lagMS) then |rs| - 1 else b
  }

  /** `Best` finds the one replica the rule allows, and fails only when no replica is usable. */
  lemma {:induction false} BestIsTheBest(rs: seq<Node>)
    ensures forall b :: IsBest(rs, b) <==> b == Best(rs) != -1
    ensures Best(rs) == -1 <==> forall i :: 0 <= i < |rs| ==> rs[i].status == Down
  {
    if rs != [] {
      BestIsTheBest(Front(rs));
      assert forall i :: 0 <= i < |rs| - 1 ==> Front(rs)[i] == rs[i];
      assert Best(Front(rs)) != -1 ==> IsBest(Front(rs), Best(Front(rs)));
      assert Best(rs) != -1 ==> IsBest(rs, Best(rs));
      forall b | IsBest(rs, b) ensures b == Best(rs) != -1 {}
    }
  }

  method SelectPromotionCandidate(replicas: seq<Node>) returns (r: Option<(Node, seq<Node>)>)
    ensures r.None? <==> Best(replicas) == -1
    ensures r.Some? ==> r.value == (replicas[Best(replicas)], RemoveAt(replicas, Best(replicas)))
  {
    var best := -1;
    for i := 0 to |replicas|
      invariant best == Best(replicas[..i])
    {
      assert Front(replicas[..i + 1]) == replicas[..i];
      if Usable(replicas[i]) && (best == -1 || replicas[i].lagMS < replicas[best].lagMS) {
        best := i;
      }
    }
    assert replicas[..|replicas|] == replicas;
    if best == -1 {
      return None;
    }
    var remaining: seq<Node> := [];
    for i := 0 to |replicas|
      invariant remaining == if i <= best then replicas[..i] else replicas[..best] + replicas[best + 1..i]
    {
      if i != best {
        remaining := remaining + [replicas[i]];
      }
    }
    assert remaining == RemoveAt(replicas, best);
    r := Some((replicas[best], remaining));
  }

  // ----- the split-brain guard -----

  function Witnesses(rs: seq<Node>): seq<Node> {
    if rs == [] then []
    else if Usable(Last(rs)) then Witnesses(Front(rs)) + [Last(rs)]
    else Witnesses(Front(rs))
  }

  lemma {:induction false} WitnessesAreTheUsable(rs: seq<Node>)
    ensures forall w :: w in Witnesses(rs) <==> w in rs && w.status != Down
    ensures multiset(Witnesses(rs)) <= multiset(rs)
  {
    if rs != [] {
      assert rs == Front(rs) + [Last(rs)];
      WitnessesAreTheUsable(Front(rs));
    }
  }

  function Ballots(ws: seq<Node>, answers: Answers): seq<Vote> {
    seq(|ws|, i requires 0 <= i < |ws| => answers.Witness(ws[i].addr))
  }

  function Tally(vs: seq<Vote>, v: Vote): nat {
    if vs == [] then 0
    else Tally(Front(vs), v) + if Last(vs) == v then 1 else 0
  }

  lemma {:induction false} TallyIsMultiplicity(vs: seq<Vote>, v: Vote)
    ensures Tally(vs, v) == multiset(vs)[v]
  {
    if vs != [] {
      assert vs == Front(vs) + [Last(vs)];
      TallyIsMultiplicity(Front(vs), v);
    }
  }

  predicate QuorumAllowsPromotion(saw: nat, cannot: nat) {
    var reachable := saw + cannot;
    reachable > 0 && cannot * 2 > reachable
  }

  predicate QuorumReached(vs: seq<Vote>) {
    QuorumAllowsPromotion(Tally(vs, Streaming), Tally(vs, NotStreaming))
  }

  /** The guard passes exactly on a strict majority of the answers; ties, silence and abstentions never help. */
  lemma GuardIsStrictMajority(vs: seq<Vote>)
    ensures QuorumReached(vs) <==> multiset(vs)[NotStreaming] > multiset(vs)[Streaming]
    ensures QuorumReached(vs + [Abstained]) <==> QuorumReached(vs)
    ensures QuorumReached(vs + [Streaming]) ==> QuorumReached(vs)
    ensures QuorumReached(vs) ==> NotStreaming in vs && QuorumReached(vs + [NotStreaming])
  {
    forall v ensures Front(vs + [v]) == vs {}
    TallyIsMultiplicity(vs, Streaming);
    TallyIsMultiplicity(vs, NotStreaming);
  }

  // ----- one promotion attempt -----

  datatype Refusal =
    | UnknownShard
    | NoHealthyReplica
    | Vetoed(saw: nat, cannot: nat, abstained: nat)
    | PgPromoteFailed(addr: Addr)

  /** What the controller does to the backends and the table, in order. */
  datatype Call = AskWitness(addr: Addr) | CallPgPromote(addr: Addr) | SetEntry(e: Shard) | CallDrain(addr: Addr)

  function CandidateOf(s: Shard): Node
    requires Best(s.replicas) != -1
  {
    s.replicas[Best(s.replicas)]
  }

  /** The entry a successful failover publishes. */
  function FailedOver(s: Shard): Shard
    requires Best(s.replicas) != -1
  {
    Shard(s.id, Node(CandidateOf(s).addr, Up, 0), RemoveAt(s.replicas, Best(s.replicas)))
  }

  /** Why an attempt on entry `s` is refused, or None when it goes through. */
  function RefusalOf(opts: Options, s: Shard, answers: Answers): Option<Refusal> {
    var ballots := Ballots(Witnesses(s.replicas), answers);
    if Best(s.replicas) == -1 then Some(NoHealthyReplica)
    else if opts.quorumGuard && !QuorumReached(ballots) then
      Some(Vetoed(Tally(ballots, Streaming), Tally(ballots, NotStreaming), Tally(ballots, Abstained)))
    else if opts.pgPromote && CandidateOf(s).addr !in answers.promotes then
      Some(PgPromoteFailed(CandidateOf(s).addr))
    else None
  }

  /** A refusal names its reason: the votes behind a veto, the replica that would not be promoted. */
  lemma RefusalSaysWhy(opts: Options, s: Shard, answers: Answers)
    ensures RefusalOf(opts, s, answers) == Some(NoHealthyReplica) <==>
      forall i :: 0 <= i < |s.replicas| ==> s.replicas[i].status == Down
    ensures match RefusalOf(opts, s, answers)
      case Some(Vetoed(saw, cannot, abstained)) =>
        var votes := multiset(Ballots(Witnesses(s.replicas), answers));
        opts.quorumGuard && saw == votes[Streaming] && cannot == votes[NotStreaming] && abstained == votes[Abstained]
          && cannot <= saw
      case Some(PgPromoteFailed(addr)) =>
        opts.pgPromote && addr !in answers.promotes && exists b :: IsBest(s.replicas, b) && addr == s.replicas[b].addr
      case _ => true
  {
    var ballots := Ballots(Witnesses(s.replicas), answers);
    BestIsTheBest(s.replicas);
    GuardIsStrictMajority(ballots);
    TallyIsMultiplicity(ballots, Streaming);
    TallyIsMultiplicity(ballots, NotStreaming);
    TallyIsMultiplicity(ballots, Abstained);
    hide Ballots, Witnesses, Tally;
  }

  function Asked(ws: seq<Node>): seq<Call> {
    seq(|ws|, i requires 0 <= i < |ws| => AskWitness(ws[i].addr))
  }

  function CallsBeforeSwap(opts: Options, s: Shard, answers: Answers): seq<Call>
    requires Best(s.replicas) != -1
  {
    (if opts.quorumGuard then Asked(Witnesses(s.replicas)) else [])
    + (if opts.pgPromote && (opts.quorumGuard ==> QuorumReached(Ballots(Witnesses(s.replicas), answers)))
       then [CallPgPromote(CandidateOf(s).addr)] else [])
  }

  /** What one attempt on `s` does: the vote, then pg_promote, then the swap, then the drain. */
  function CallsOf(opts: Options, s: Shard, answers: Answers): seq<Call> {
    if Best(s.replicas) == -1 then []
    else if RefusalOf(opts, s, answers).None? then
      CallsBeforeSwap(opts, s, answers) + [SetEntry(FailedOver(s)), CallDrain(s.primary.addr)]
    else CallsBeforeSwap(opts, s, answers)
  }

  /**
   * The table is swapped only by a failover that is not refused, after the vote and a successful pg_promote, and
   * the old primary is drained right after the swap and last of all.
   */
  lemma DrainComesLast(opts: Options, s: Shard, answers: Answers, i: nat)
    requires i < |CallsOf(opts, s, answers)|
    ensures CallsOf(opts, s, answers)[i].CallDrain? <==>
      RefusalOf(opts, s, answers).None? && i == |CallsOf(opts, s, answers)| - 1
    ensures CallsOf(opts, s, answers)[i].CallDrain? ==> CallsOf(opts, s, answers)[i].addr == s.primary.addr
    ensures CallsOf(opts, s, answers)[i].SetEntry? <==>
      RefusalOf(opts, s, answers).None? && i == |CallsOf(opts, s, answers)| - 2
    ensures CallsOf(opts, s, answers)[i].SetEntry? ==> CallsOf(opts, s, answers)[i].e == FailedOver(s)
    ensures CallsOf(opts, s, answers)[i].SetEntry? && opts.pgPromote ==>
      CallPgPromote(CandidateOf(s).addr) in CallsOf(opts, s, answers)[..i] && CandidateOf(s).addr in answers.promotes
    ensures CallsOf(opts, s, answers)[i].CallPgPromote? ==>
      (opts.quorumGuard ==> QuorumReached(Ballots(Witnesses(s.replicas), answers)))
      && forall w :: w in Witnesses(s.replicas) && opts.quorumGuard ==> AskWitness(w.addr) in CallsOf(opts, s, answers)[..i]
  {
    var calls := CallsOf(opts, s, answers);
    var asked := if opts.quorumGuard then Asked(Witnesses(s.replicas)) else [];
    assert asked <= calls;
    if i < |asked| {
      assert calls[i] == asked[i];
    } else {
      assert asked <= calls[..i];
      forall w | w in Witnesses(s.replicas) && opts.quorumGuard ensures AskWitness(w.addr) in calls[..i] {
        var k :| 0 <= k < |asked| && Witnesses(s.replicas)[k] == w;
        assert calls[..i][k] == asked[k];
      }
    }
  }

  lemma TallyCoversAll(vs: seq<Vote>)
    ensures Tally(vs, Streaming) + Tally(vs, NotStreaming) + Tally(vs, Abstained) == |vs|
  {
    if vs != [] {
      TallyCoversAll(Front(vs));
    }
  }

  method CollectWitnesses(replicas: seq<Node>) returns (witnesses: seq<Node>)
    ensures witnesses == Witnesses(replicas)
  {
    witnesses := [];
    for i := 0 to |replicas|
      invariant witnesses == Witnesses(replicas[..i])
    {
      assert Front(replicas[..i + 1]) == replicas[..i];
      if Usable(replicas[i]) {
        witnesses := witnesses + [replicas[i]];
      }
    }
    assert replicas[..|replicas|] == replicas;
  }

  method CountVotes(votes: seq<Vote>) returns (sawPrimary: nat, cannotSee: nat)
    ensures sawPrimary == multiset(votes)[Streaming] && cannotSee == multiset(votes)[NotStreaming]
  {
    sawPrimary, cannotSee := 0, 0;
    for i := 0 to |votes|
      invariant sawPrimary == Tally(votes[..i], Streaming) && cannotSee == Tally(votes[..i], NotStreaming)
    {
      assert Front(votes[..i + 1]) == votes[..i];
      match votes[i] {
        case Abstained =>
        case Streaming => sawPrimary := sawPrimary + 1;
        case NotStreaming => cannotSee := cannotSee + 1;
      }
    }
    assert votes[..|votes|] == votes;
    TallyIsMultiplicity(votes, Streaming);
    TallyIsMultiplicity(votes, NotStreaming);
  }

  class Controller {
    const shardMap: Map
    const opts: Options
    /** What it has done to the backends and the table so far. */
    var calls: seq<Call>

    constructor (shardMap: Map, opts: Options)
      ensures this.shardMap == shardMap && this.opts == opts && calls == []
    {
      this.shardMap := shardMap;
      this.opts := opts;
      calls := [];
    }

    /** Replaces the shard's primary, or leaves the table exactly as it was and says why. */
    method Promote(shardId: ShardId, answers: Answers) returns (refusal: Option<Refusal>)
      modifies this, shardMap
      ensures shardId !in old(shardMap.shards) ==>
        refusal == Some(UnknownShard) && calls == old(calls) && shardMap.shards == old(shardMap.shards)
      ensures shardId in old(shardMap.shards) ==>
        var s := old(shardMap.shards)[shardId];
        && refusal == RefusalOf(opts, s, answers)
        && calls == old(calls) + CallsOf(opts, s, answers)
        && shardMap.shards ==
             if refusal.None? then old(shardMap.shards)[shardId := FailedOver(s)] else old(shardMap.shards)
    {
      var got := shardMap.Get(shardId);
      if got.None? {
        return Some(UnknownShard);
      }
      var shard := got.value;
      var picked := SelectPromotionCandidate(shard.replicas);
      if picked.None? {
        return Some(NoHealthyReplica);
      }
      var (newPrimary, remaining) := picked.value;
      refusal := Authorize(shard, newPrimary.addr, answers);
      if refusal.Some? {
        return;
      }
      var e := Shard(shard.id, Node(newPrimary.addr, Up, 0), remaining);
      shardMap.Set(shardId, e);
      calls := calls + [SetEntry(e)];
      calls := calls + [CallDrain(shard.primary.addr)];
    }

    /** The guard's vote, then pg_promote on the candidate. */
    method Authorize(shard: Shard, candidate: Addr, answers: Answers) returns (refusal: Option<Refusal>)
      requires Best(shard.replicas) != -1 && candidate == CandidateOf(shard).addr
      modifies this
      ensures refusal == RefusalOf(opts, shard, answers)
      ensures calls == old(calls) + CallsBeforeSwap(opts, shard, answers)
    {
      if opts.quorumGuard {
        var veto := CheckQuorum(shard, answers);
        if veto.Some? {
          return veto;
        }
      }
      if opts.pgPromote {
        calls := calls + [CallPgPromote(candidate)];
        if candidate !in answers.promotes {
          return Some(PgPromoteFailed(candidate));
        }
      }
      return None;
    }

    method CheckQuorum(shard: Shard, answers: Answers) returns (veto: Option<Refusal>)
      modifies this
      ensures calls == old(calls) + Asked(Witnesses(shard.replicas))
      ensures var ballots := Ballots(Witnesses(shard.replicas), answers);
        veto == if QuorumReached(ballots) then None
                else Some(Vetoed(Tally(ballots, Streaming), Tally(ballots, NotStreaming), Tally(ballots, Abstained)))
    {
      hide Witnesses, Tally;
      var witnesses := CollectWitnesses(shard.replicas);
      var votes: seq<Vote> := [];
      for i := 0 to |witnesses|
        invariant votes == Ballots(witnesses, answers)[..i]
        invariant calls == old(calls) + Asked(witnesses)[..i]
      {
        calls := calls + [AskWitness(witnesses[i].addr)];
        votes := votes + [answers.Witness(witnesses[i].addr)];
      }
      assert votes == Ballots(witnesses, answers);
      assert Asked(witnesses)[..|witnesses|] == Asked(witnesses);
      var sawPrimary, cannotSee := CountVotes(votes);
      TallyIsMultiplicity(votes, Streaming);
      TallyIsMultiplicity(votes, NotStreaming);
      TallyCoversAll(votes);
      if QuorumAllowsPromotion(sawPrimary, cannotSee) {
        return None;
      }
      veto := Some(Vetoed(sawPrimary, cannotSee, |witnesses| - sawPrimary - cannotSee));
    }
  }
}
