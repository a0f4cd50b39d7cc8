/** Lookups running while shards are added, checked and failed over. */
module Routing {
  import opened Prelude
  import opened ShardMap
  import opened Failover
  import opened CheckMachine
  import opened CheckShape
  import opened CheckSafety
  import opened World
  import opened WorldTheorems
  import opened Ring
  import opened RingLaws
  import opened Router
  import opened Sql
  import opened HintLaws

  /** One client lookup: about to read the ring, about to read the table, or answered. */
  datatype Lookup =
    | Asked(key: string)
    | Routed(key: string, id: ShardId)
    | Answered(key: string, result: Result<Node, RouteError>)

  datatype System = System(world: World, owners: Owners, lookups: seq<Lookup>)

  datatype Op =
    | Control(m: Move)
    | PlaceOnRing(id: ShardId)
    | Ask(key: string)
    | ReadRing(k: nat, owner: ShardId)
    | ReadTable(k: nat, query: string)

  datatype Setup = Setup(top: map<ShardId, Shard>, opts: Options, hash: Hash, vnodes: nat, defaultMaxLagMS: int)

  const EMPTY := System(NOBODY, map[], [])

  /** Adding a shard writes the table first and only then the ring; a lookup reads the ring first, then the table. */
  ghost predicate CanDo(u: Setup, s: System, op: Op) {
    match op
    case Control(m) => CanMove(u.top, s.world, m)
    case PlaceOnRing(id) => id in s.world.entries
    case Ask(_) => true
    case ReadRing(k, owner) =>
      k < |s.lookups| && s.lookups[k].Asked? && (s.owners != map[] ==> Owns(s.owners, u.hash(s.lookups[k].key), owner))
    case ReadTable(k, _) => k < |s.lookups| && s.lookups[k].Routed?
  }

  function AnswerFor(u: Setup, s: System, key: string, id: ShardId, query: string): Result<Node, RouteError> {
    var (level, ceiling) := ConsistencyFromQuery(query, u.defaultMaxLagMS);
    if id in s.world.entries then Choice(s.world.entries[id], u.hash(key), level, ceiling)
    else Err(MissingFromShardMap(id))
  }

  ghost function Done(u: Setup, s: System, op: Op): System
    requires CanDo(u, s, op)
  {
    match op
    case Control(m) => s.(world := Moved(u.top, u.opts, s.world, m))
    case PlaceOnRing(id) => s.(owners := Added(u.hash, s.owners, id, u.vnodes))
    case Ask(key) => s.(lookups := s.lookups + [Asked(key)])
    case ReadRing(k, owner) =>
      var key := s.lookups[k].key;
      s.(lookups := s.lookups[k := if s.owners == map[] then Answered(key, Err(NoShardsRegistered)) else Routed(key, owner)])
    case ReadTable(k, query) =>
      var Routed(key, id) := s.lookups[k];
      s.(lookups := s.lookups[k := Answered(key, AnswerFor(u, s, key, id, query))])
  }

  ghost function Execute(u: Setup, ops: seq<Op>): Option<System> {
    if ops == [] then Some(EMPTY)
    else match Execute(u, Front(ops))
      case None => None
      case Some(s) => if CanDo(u, s, Last(ops)) then Some(Done(u, s, Last(ops))) else None
  }

  function MovesOf(ops: seq<Op>): seq<Move> {
    if ops == [] then []
    else if Last(ops).Control? then MovesOf(Front(ops)) + [Last(ops).m]
    else MovesOf(Front(ops))
  }

  lemma {:induction false} ControlPlaneRunsAsItself(u: Setup, ops: seq<Op>)
    requires Execute(u, ops).Some?
    ensures Unfold(u.top, u.opts, MovesOf(ops)) == Some(Execute(u, ops).value.world)
  {
    if ops != [] {
      ControlPlaneRunsAsItself(u, Front(ops));
      if Last(ops).Control? {
        Snoc(MovesOf(Front(ops)), Last(ops).m);
      }
    }
  }

  /** The ring names only shards the table has, and so does every lookup between its two reads. */
  ghost predicate Covered(s: System) {
    && (forall h :: h in s.owners ==> s.owners[h] in s.world.entries)
    && (forall k :: 0 <= k < |s.lookups| && s.lookups[k].Routed? ==> s.lookups[k].id in s.world.entries)
    && (forall k :: 0 <= k < |s.lookups| && s.lookups[k].Answered? ==>
          !(s.lookups[k].result.Err? && s.lookups[k].result.error.MissingFromShardMap?))
  }

  lemma EntriesOnlyGrow(u: Setup, s: System, m: Move, id: ShardId)
    requires CanMove(u.top, s.world, m) && id in s.world.entries
    ensures id in Moved(u.top, u.opts, s.world, m).entries
  {
    hide Next, Enabled, Emit;
  }

  lemma StepKeepsCovered(u: Setup, s: System, op: Op)
    requires Covered(s) && CanDo(u, s, op)
    ensures Covered(Done(u, s, op))
  {
    match op {
      case Control(m) =>
        forall id | id in s.world.entries ensures id in Moved(u.top, u.opts, s.world, m).entries {
          EntriesOnlyGrow(u, s, m, id);
        }
        hide Moved;
      case PlaceOnRing(id) => OwnersAfterAdding(u.hash, s.owners, id, u.vnodes);
      case Ask(_) =>
      case ReadRing(_, _) =>
      case ReadTable(k, query) => hide ConsistencyFromQuery, Candidates;
    }
  }

  /** No lookup is ever told that its shard is on the ring but missing from the table. */
  lemma {:induction false} RingOwnersAreInTheTable(u: Setup, ops: seq<Op>)
    requires Execute(u, ops).Some?
    ensures Covered(Execute(u, ops).value)
  {
    if ops != [] {
      RingOwnersAreInTheTable(u, Front(ops));
      StepKeepsCovered(u, Execute(u, Front(ops)).value, Last(ops));
    }
  }

  /** Checks and failovers never change which shard a key belongs to; only placing a shard on the ring does. */
  lemma OnlyAddingMovesKeys(u: Setup, s: System, op: Op, key: string, id: ShardId, id2: ShardId)
    requires CanDo(u, s, op)
    requires Owns(s.owners, u.hash(key), id) && Owns(Done(u, s, op).owners, u.hash(key), id2)
    ensures id2 != id ==> op == PlaceOnRing(id2)
  {
    var h := u.hash(key);
    var p :| IsNext(s.owners, h, p) && s.owners[p] == id;
    var p' :| IsNext(Done(u, s, op).owners, h, p') && Done(u, s, op).owners[p'] == id2;
    match op {
      case PlaceOnRing(added) => AddMovesKeysOnlyToTheNewShard(u.hash, s.owners, added, u.vnodes, h, p, p');
      case _ =>
        assert Done(u, s, op).owners == s.owners;
        NextIsUnique(s.owners, h, p, p');
    }
  }

  /** What a lookup may be answered from one entry of the table. */
  ghost predicate Sound(u: Setup, e: Shard, query: string, n: Node) {
    var (level, ceiling) := ConsistencyFromQuery(query, u.defaultMaxLagMS);
    && (level == "strong" ==> n == e.primary)
    && (level == "eventual" ==>
          if exists r :: r in e.replicas && r.status != Down then n in e.replicas && n.status != Down else n == e.primary)
    && (level == "bounded_staleness" ==>
          && ceiling >= 0
          && if exists r :: r in e.replicas && r.status != Down && r.lagMS <= ceiling
             then n in e.replicas && n.status != Down && n.lagMS <= ceiling
             else n == e.primary)
  }

  lemma NodeIsOneOfItsEntry(e: Shard, n: Node)
    requires n == e.primary || n in e.replicas
    ensures n.addr in Addrs(e)
  {
    if n == e.primary {
      assert Addrs(e)[0] == n.addr;
    } else {
      var i :| 0 <= i < |e.replicas| && e.replicas[i] == n;
      assert Addrs(e)[i + 1] == n.addr;
    }
  }

  lemma EntryAnswersSoundly(u: Setup, e: Shard, key: string, query: string)
    requires u.defaultMaxLagMS >= 0
    ensures var (level, ceiling) := ConsistencyFromQuery(query, u.defaultMaxLagMS);
      var r := Choice(e, u.hash(key), level, ceiling);
      r.Ok? && Sound(u, e, query, r.value) && r.value.addr in Addrs(e)
  {
    hide ConsistencyFromQuery, Choice, Addrs;
    var (level, ceiling) := ConsistencyFromQuery(query, u.defaultMaxLagMS);
    HintsAreAlwaysUsable(query, u.defaultMaxLagMS);
    ChoiceIsSound(e, u.hash(key), level, ceiling);
    NodeIsOneOfItsEntry(e, Choice(e, u.hash(key), level, ceiling).value);
  }

  /** A query without a hint goes to the entry's primary, whatever its replicas. */
  lemma UnhintedGoesToThePrimary(u: Setup, s: System, key: string, id: ShardId, blanks: string, t: string)
    requires id in s.world.entries
    requires AllBlank(blanks) && (t == "" || !AllBlank([t[0]])) && !("--" <= t)
    ensures AnswerFor(u, s, key, id, blanks + t) == Ok(s.world.entries[id].primary)
  {
    hide ConsistencyFromQuery, Choice, AllBlank;
    UnhintedIsStrong(blanks, t, u.defaultMaxLagMS);
    ChoiceIsSound(s.world.entries[id], u.hash(key), "strong", 0);
  }

  /**
   * Whatever sweeps, failovers and additions are under way, a lookup is answered from the one entry its shard has
   * at that moment: the primary for strong reads, which is the configured one or a promoted one; for the other
   * levels a replica that is not DOWN and, when a ceiling is asked for, within it, or the primary when none is.
   */
  lemma ResolveDuringFailover(u: Setup, ops: seq<Op>, k: nat, query: string)
    requires Topology(u.top) && u.defaultMaxLagMS >= 0 && Execute(u, ops).Some?
    requires var s := Execute(u, ops).value; k < |s.lookups| && s.lookups[k].Routed?
    ensures var s := Execute(u, ops).value;
      var Routed(key, id) := s.lookups[k];
      && CanDo(u, s, ReadTable(k, query))
      && id in s.world.entries && id in u.top
      && var e := s.world.entries[id];
      && Done(u, s, ReadTable(k, query)).lookups[k] == Answered(key, AnswerFor(u, s, key, id, query))
      && AnswerFor(u, s, key, id, query).Ok?
      && var n := AnswerFor(u, s, key, id, query).value;
      && Sound(u, e, query, n)
      && n.addr in Addrs(u.top[id])
      && (u.opts.pgPromote && n == e.primary ==> Vouched(u.top[id], LogOf(s.world.log, id), n.addr))
  {
    hide ConsistencyFromQuery, Choice, Execute, Unfold, Topology, MovesOf, LogOf, Vouched, Sound;
    var s := Execute(u, ops).value;
    var Routed(key, id) := s.lookups[k];
    RingOwnersAreInTheTable(u, ops);
    ControlPlaneRunsAsItself(u, ops);
    assert id in s.world.entries;
    EntriesAreDrawnFromConfig(u.top, u.opts, MovesOf(ops), id);
    EntryAnswersSoundly(u, s.world.entries[id], key, query);
    if u.opts.pgPromote {
      OnlyVouchedPrimaries(u.top, u.opts, MovesOf(ops), id);
    }
  }
}
