/** The routing table shared by the router, the health checker and the failover controller. */
module ShardMap {
  import opened Prelude

  type Addr = string
  type ShardId = string

  /** `Unset` is the zero value a node carries before its first heartbeat. */
  datatype Status = Unset | Up | Suspect | Down

  datatype Node = Node(addr: Addr, status: Status, lagMS: int)

  datatype Shard = Shard(id: ShardId, primary: Node, replicas: seq<Node>)

  function AddrsOf(ns: seq<Node>): (r: seq<Addr>)
    ensures |r| == |ns|
    ensures forall i :: 0 <= i < |ns| ==> r[i] == ns[i].addr
  {
    seq(|ns|, i requires 0 <= i < |ns| => ns[i].addr)
  }

  /** The addresses of a shard, the primary's first. */
  function Addrs(s: Shard): seq<Addr> {
    [s.primary.addr] + AddrsOf(s.replicas)
  }

  function AddrSet(s: Shard): set<Addr> {
    Elems(Addrs(s))
  }

  /** `out` lists the table's entries, each key of the table once, in the order `order`. */
  ghost predicate Lists(out: seq<Shard>, order: seq<ShardId>, table: map<ShardId, Shard>) {
    && |out| == |order| == |table|
    && NoDup(order)
    && (forall id :: id in table <==> id in order)
    && (forall i :: 0 <= i < |order| ==> order[i] in table && out[i] == table[order[i]])
  }

  /** Entries are whole values: replacing one never changes what an earlier reader holds. */
  class Map {
    var shards: map<ShardId, Shard>

    constructor ()
      ensures shards == map[]
    {
      shards := map[];
    }

    method Get(shardId: ShardId) returns (s: Option<Shard>)
      ensures s.Some? <==> shardId in shards
      ensures s.Some? ==> s.value == shards[shardId]
    {
      s := if shardId in shards then Some(shards[shardId]) else None;
    }

    method Set(shardId: ShardId, s: Shard)
      modifies this
      ensures shards == old(shards)[shardId := s]
    {
      shards := shards[shardId := s];
    }

    /** A snapshot of the table, in no particular order. */
    method All() returns (out: seq<Shard>)
      ensures exists order :: Lists(out, order, shards)
    {
      out := [];
      ghost var order: seq<ShardId> := [];
      var rest := shards.Keys;
      while rest != {}
        invariant rest <= shards.Keys
        invariant |out| == |order| && |order| + |rest| == |shards|
        invariant forall id :: id in shards && id !in rest <==> id in order
        invariant NoDup(order)
        invariant forall i :: 0 <= i < |order| ==> order[i] in shards && out[i] == shards[order[i]]
      {
        var id :| id in rest;
        out := out + [shards[id]];
        order := order + [id];
        rest := rest - {id};
      }
      assert Lists(out, order, shards);
    }
  }
}
