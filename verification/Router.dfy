/** Resolving a shard key to a node: the ring picks the shard, the consistency level picks the node. */
module Router {
  import opened Prelude
  import opened ShardMap
  import opened Failover
  import opened Ring

  const STRONG := "strong"
  const EVENTUAL := "eventual"
  const BOUNDED_STALENESS := "bounded_staleness"

  const DEFAULT_VNODES_PER_SHARD := 100

  datatype RouteError =
    | NoShardsRegistered
    | MissingFromShardMap(id: ShardId)
    | UnknownConsistency(level: string)

  /** `maxLagMS < 0` means no ceiling. */
  predicate Qualifies(n: Node, maxLagMS: int) {
    Usable(n) && (maxLagMS >= 0 ==> n.lagMS <= maxLagMS)
  }

  function Candidates(rs: seq<Node>, maxLagMS: int): seq<Node> {
    if rs == [] then []
    else if Qualifies(Last(rs), maxLagMS) then Candidates(Front(rs), maxLagMS) + [Last(rs)]
    else Candidates(Front(rs), maxLagMS)
  }

  lemma {:induction false} CandidatesQualify(rs: seq<Node>, maxLagMS: int)
    ensures forall n :: n in Candidates(rs, maxLagMS) <==>
      n in rs && n.status != Down && (maxLagMS >= 0 ==> n.lagMS <= maxLagMS)
  {
    if rs != [] {
      assert rs == Front(rs) + [Last(rs)];
      CandidatesQualify(Front(rs), maxLagMS);
    }
  }

  /** The deterministic spread: hash modulo the number of candidates, the primary when there is none. */
  function PickFrom(s: Shard, candidates: seq<Node>, h: Pos): Node {
    if candidates == [] then s.primary else candidates[h % |candidates|]
  }

  /** What a lookup answers for one published entry. */
  function Choice(s: Shard, h: Pos, level: string, maxLagMS: int): Result<Node, RouteError> {
    if level == STRONG || level == "" then Ok(s.primary)
    else if level == EVENTUAL then Ok(PickFrom(s, Candidates(s.replicas, -1), h))
    else if level == BOUNDED_STALENESS then Ok(PickFrom(s, Candidates(s.replicas, maxLagMS), h))
    else Err(UnknownConsistency(level))
  }

  /** Keys spread over all candidates: the i-th answers hash i, and the turns repeat. */
  lemma EveryCandidateHasItsTurn(s: Shard, candidates: seq<Node>, h: Pos)
    requires candidates != []
    ensures h < |candidates| ==> PickFrom(s, candidates, h) == candidates[h]
    ensures h + |candidates| < POSITIONS ==> PickFrom(s, candidates, h + |candidates|) == PickFrom(s, candidates, h)
  {
    Small(h, |candidates|);
    Shifted(h, |candidates|);
  }

  lemma Small(h: nat, n: nat)
    requires n > 0
    ensures h < n ==> h % n == h
  {
  }

  lemma Shifted(h: nat, n: nat)
    requires n > 0
    ensures (h + n) % n == h % n
  {
    DivisionIsUnique(n, h / n + 1, h % n, (h + n) / n, (h + n) % n);
  }

  lemma DivisionIsUnique(n: nat, a: nat, r: nat, b: nat, s: nat)
    requires r < n && s < n && a * n + r == b * n + s
    ensures a == b && r == s
  {
    if a < b {
      MoreIsFurther(n, a, b);
    } else if b < a {
      MoreIsFurther(n, b, a);
    }
  }

  lemma {:induction false} MoreIsFurther(n: nat, a: nat, b: nat)
    requires a < b
    ensures a * n + n <= b * n
    decreases b
  {
    assert b * n == (b - 1) * n + n;
    if a < b - 1 {
      MoreIsFurther(n, a, b - 1);
    }
  }

  /** When every replica qualifies, the candidates are the replicas in their order. */
  lemma {:induction false} AllQualify(rs: seq<Node>, maxLagMS: int)
    requires forall n :: n in rs ==> n.status != Down && (maxLagMS >= 0 ==> n.lagMS <= maxLagMS)
    ensures Candidates(rs, maxLagMS) == rs
  {
    if rs != [] {
      assert rs == Front(rs) + [Last(rs)] && Last(rs) in rs;
      assert forall n :: n in Front(rs) ==> n in rs;
      AllQualify(Front(rs), maxLagMS);
    }
  }

  /** Every answer is the entry's primary, or one of its usable replicas within the ceiling when one is asked for. */
  lemma ChoiceIsSound(s: Shard, h: Pos, level: string, maxLagMS: int)
    ensures Choice(s, h, level, maxLagMS).Ok? <==> level in {"strong", "", "eventual", "bounded_staleness"}
    ensures level in {"strong", ""} ==> Choice(s, h, level, maxLagMS) == Ok(s.primary)
    ensures level == "bounded_staleness" && maxLagMS >= 0 ==>
      var n := Choice(s, h, level, maxLagMS).value;
      if exists r :: r in s.replicas && r.status != Down && r.lagMS <= maxLagMS
      then n in s.replicas && n.status != Down && n.lagMS <= maxLagMS
      else n == s.primary
    ensures level == "eventual" ==>
      var n := Choice(s, h, level, maxLagMS).value;
      if exists r :: r in s.replicas && r.status != Down then n in s.replicas && n.status != Down else n == s.primary
  {
    forall m: int {
      CandidatesQualify(s.replicas, m);
    }
    var cs, all := Candidates(s.replicas, maxLagMS), Candidates(s.replicas, -1);
    assert cs != [] ==> cs[h % |cs|] in cs;
    assert all != [] ==> all[h % |all|] in all;
    assert cs != [] ==> cs[0] in cs;
    assert all != [] ==> all[0] in all;
    assert forall r :: r in s.replicas && Qualifies(r, maxLagMS) ==> r in cs;
    assert forall r :: r in s.replicas && Qualifies(r, -1) ==> r in all;
  }

  class Router {
    const shardMap: Map
    const ring: Ring

    constructor (shardMap: Map, hash: Hash)
      ensures this.shardMap == shardMap && fresh(ring) && fresh(ring.buf) && ring.Valid()
      ensures ring.hash == hash && ring.hashToShard == map[] && ring.vnodes == 100
    {
      this.shardMap := shardMap;
      this.ring := new Ring(DEFAULT_VNODES_PER_SHARD, hash);
    }

    /** Every shard on the ring has an entry in the table. */
    ghost predicate Covered()
      reads this, shardMap, ring
    {
      forall h :: h in ring.hashToShard ==> ring.hashToShard[h] in shardMap.shards
    }

    method AddShard(s: Shard)
      requires ring.Valid() && Covered()
      modifies shardMap, ring`buf, ring`len, ring`hashToShard, ring.buf
      ensures ring.Valid() && Covered() && (ring.buf == old(ring.buf) || fresh(ring.buf))
      ensures shardMap.shards == old(shardMap.shards)[s.id := s]
      ensures ring.hashToShard == Added(ring.hash, old(ring.hashToShard), s.id, ring.vnodes)
    {
      shardMap.Set(s.id, s);
      ring.AddShard(s.id);
      OwnersAfterAdding(ring.hash, old(ring.hashToShard), s.id, ring.vnodes);
    }

    method PickReplica(s: Shard, shardKey: string, maxLagMS: int) returns (n: Node)
      ensures n == PickFrom(s, Candidates(s.replicas, maxLagMS), ring.hash(shardKey))
    {
      var candidates: seq<Node> := [];
      for i := 0 to |s.replicas|
        invariant candidates == Candidates(s.replicas[..i], maxLagMS)
      {
        assert Front(s.replicas[..i + 1]) == s.replicas[..i];
        var r := s.replicas[i];
        if r.status == Down {
          continue;
        }
        if maxLagMS >= 0 && r.lagMS > maxLagMS {
          continue;
        }
        candidates := candidates + [r];
      }
      assert s.replicas[..|s.replicas|] == s.replicas;
      if |candidates| == 0 {
        return s.primary;
      }
      n := candidates[ring.hash(shardKey) % |candidates|];
    }

    method Resolve(shardKey: string, level: string, maxLagMS: int) returns (r: Result<Node, RouteError>)
      requires ring.Valid()
      ensures ring.hashToShard == map[] ==> r == Err(NoShardsRegistered)
      ensures ring.hashToShard != map[] ==>
        exists id :: Owns(ring.hashToShard, ring.hash(shardKey), id)
          && r == if id in shardMap.shards then Choice(shardMap.shards[id], ring.hash(shardKey), level, maxLagMS)
                  else Err(MissingFromShardMap(id))
    {
      var owner := ring.ShardFor(shardKey);
      if owner.None? {
        return Err(NoShardsRegistered);
      }
      var shard := shardMap.Get(owner.value);
      if shard.None? {
        return Err(MissingFromShardMap(owner.value));
      }
      if level == STRONG || level == "" {
        return Ok(shard.value.primary);
      } else if level == EVENTUAL {
        var n := PickReplica(shard.value, shardKey, -1);
        return Ok(n);
      } else if level == BOUNDED_STALENESS {
        var n := PickReplica(shard.value, shardKey, maxLagMS);
        return Ok(n);
      }
      return Err(UnknownConsistency(level));
    }
  }

  lemma {:induction false} OwnersAfterAdding(hash: Hash, owners: Owners, id: ShardId, n: nat)
    ensures var after := Added(hash, owners, id, n);
      forall h :: h in after ==> after[h] == id || (h in owners && after[h] == owners[h])
  {
    if n > 0 {
      OwnersAfterAdding(hash, owners, id, n - 1);
    }
  }
}
