/** The simulator's actions on a shard: toggling a node, setting a lag, promoting, resetting. */
module Simulator {
  import opened Prelude
  import opened ShardMap
  import opened Failover

  datatype Request = Request(action: string, shard: ShardId, node: Addr, lagMS: int)

  datatype ActionError = NoSuchShard | NoHealthyReplicaLeft | UnknownAction | NodeNotFound

  function Toggle(s: Status): Status {
    if s == Down then Up else Down
  }

  function ToggledAll(ns: seq<Node>, addr: Addr): seq<Node> {
    if ns == [] then []
    else
      var n := Last(ns);
      ToggledAll(Front(ns), addr) + [if n.addr == addr then n.(status := Toggle(n.status)) else n]
  }

  function LaggedAll(ns: seq<Node>, addr: Addr, lagMS: int): seq<Node> {
    if ns == [] then []
    else
      var n := Last(ns);
      LaggedAll(Front(ns), addr, lagMS) + [if n.addr == addr then n.(lagMS := lagMS) else n]
  }

  function Toggled(s: Shard, addr: Addr): Shard {
    if s.primary.addr == addr then s.(primary := s.primary.(status := Toggle(s.primary.status)))
    else s.(replicas := ToggledAll(s.replicas, addr))
  }

  function Swapped(s: Shard, i: nat): Shard
    requires i < |s.replicas|
  {
    Shard(s.id, s.replicas[i].(status := Up), RemoveAt(s.replicas, i) + [s.primary.(status := Down)])
  }

  /** The entry a request leaves, or why it changes nothing. */
  function Edited(s: Shard, r: Request): Result<Shard, ActionError> {
    if r.action == "toggle" then
      if r.node in Addrs(s) then Ok(Toggled(s, r.node)) else Err(NodeNotFound)
    else if r.action == "lag" then
      if r.node in AddrsOf(s.replicas) then Ok(s.(replicas := LaggedAll(s.replicas, r.node, r.lagMS))) else Err(NodeNotFound)
    else if r.action == "promote" then
      if Best(s.replicas) == -1 then Err(NoHealthyReplicaLeft) else Ok(Swapped(s, Best(s.replicas)))
    else Err(UnknownAction)
  }

  function Acted(initial: map<ShardId, Shard>, table: map<ShardId, Shard>, r: Request): Result<map<ShardId, Shard>, ActionError> {
    if r.action == "reset" then Ok(initial)
    else if r.shard !in table then Err(NoSuchShard)
    else match Edited(table[r.shard], r)
      case Err(e) => Err(e)
      case Ok(s) => Ok(table[s.id := s])
  }

  class Simulation {
    const initial: map<ShardId, Shard>
    var shards: map<ShardId, Shard>

    constructor (initial: map<ShardId, Shard>)
      ensures this.initial == initial && shards == initial
    {
      this.initial, shards := initial, initial;
    }

    /** Edits a copy of the entry in place and publishes the copy. */
    method Action(r: Request) returns (error: Option<ActionError>)
      modifies this
      ensures match Acted(initial, old(shards), r)
        case Ok(table) => error.None? && shards == table
        case Err(e) => error == Some(e) && shards == old(shards)
      ensures r.action == "reset" ==> error.None? && shards == initial
    {
      if r.action == "reset" {
        shards := initial;
        return None;
      }
      if r.shard !in shards {
        return Some(NoSuchShard);
      }
      var s := shards[r.shard];
      var nodes := new Node[|s.replicas|](i requires 0 <= i < |s.replicas| => s.replicas[i]);
      assert nodes[..] == s.replicas;
      var primary, replicas, found := s.primary, s.replicas, false;
      if r.action == "toggle" {
        if primary.addr == r.node {
          primary := primary.(status := Toggle(primary.status));
          found := true;
          assert Addrs(s)[0] == r.node;
        } else {
          found := ToggleIn(nodes, r.node);
          replicas := nodes[..];
          assert r.node in Addrs(s) <==> r.node in AddrsOf(s.replicas);
        }
      } else if r.action == "lag" {
        found := LagIn(nodes, r.node, r.lagMS);
        replicas := nodes[..];
      } else if r.action == "promote" {
        var candidate := Candidate(replicas);
        if candidate < 0 {
          return Some(NoHealthyReplicaLeft);
        }
        var was := primary;
        primary := replicas[candidate];
        primary := primary.(status := Up);
        replicas := replicas[..candidate] + replicas[candidate + 1..];
        replicas := replicas + [was.(status := Down)];
        found := true;
      } else {
        return Some(UnknownAction);
      }
      if !found {
        return Some(NodeNotFound);
      }
      shards := shards[s.id := Shard(s.id, primary, replicas)];
      return None;
    }
  }

  lemma NoneEdited(addr: Addr, lagMS: int)
    ensures ToggledAll([], addr) == [] && LaggedAll([], addr, lagMS) == []
  {
  }

  lemma OneMoreEdited(ns: seq<Node>, n: Node, addr: Addr, lagMS: int)
    ensures ToggledAll(ns + [n], addr) == ToggledAll(ns, addr) + [if n.addr == addr then n.(status := Toggle(n.status)) else n]
    ensures LaggedAll(ns + [n], addr, lagMS) == LaggedAll(ns, addr, lagMS) + [if n.addr == addr then n.(lagMS := lagMS) else n]
  {
    assert Front(ns + [n]) == ns;
  }

  method ToggleIn(nodes: array<Node>, addr: Addr) returns (found: bool)
    modifies nodes
    ensures nodes[..] == ToggledAll(old(nodes[..]), addr)
    ensures found <==> addr in AddrsOf(old(nodes[..]))
  {
    hide ToggledAll;
    ghost var was := nodes[..];
    NoneEdited(addr, 0);
    found := false;
    for i := 0 to nodes.Length
      invariant nodes[..i] == ToggledAll(was[..i], addr) && nodes[i..] == was[i..]
      invariant found <==> exists k :: 0 <= k < i && was[k].addr == addr
    {
      assert nodes[i] == nodes[i..][0] == was[i];
      assert was[..i + 1] == was[..i] + [was[i]];
      OneMoreEdited(was[..i], was[i], addr, 0);
      ghost var done := nodes[..i];
      if nodes[i].addr == addr {
        nodes[i] := nodes[i].(status := Toggle(nodes[i].status));
        found := true;
      }
      assert nodes[..i] == done && nodes[..i + 1] == nodes[..i] + [nodes[i]];
      assert nodes[i + 1..] == was[i + 1..];
    }
    assert nodes[..nodes.Length] == nodes[..] && was[..nodes.Length] == was;
    MemberOfAddrs(was, addr);
  }

  method LagIn(nodes: array<Node>, addr: Addr, lagMS: int) returns (found: bool)
    modifies nodes
    ensures nodes[..] == LaggedAll(old(nodes[..]), addr, lagMS)
    ensures found <==> addr in AddrsOf(old(nodes[..]))
  {
    hide LaggedAll;
    ghost var was := nodes[..];
    NoneEdited(addr, lagMS);
    found := false;
    for i := 0 to nodes.Length
      invariant nodes[..i] == LaggedAll(was[..i], addr, lagMS) && nodes[i..] == was[i..]
      invariant found <==> exists k :: 0 <= k < i && was[k].addr == addr
    {
      assert nodes[i] == nodes[i..][0] == was[i];
      assert was[..i + 1] == was[..i] + [was[i]];
      OneMoreEdited(was[..i], was[i], addr, lagMS);
      ghost var done := nodes[..i];
      if nodes[i].addr == addr {
        nodes[i] := nodes[i].(lagMS := lagMS);
        found := true;
      }
      assert nodes[..i] == done && nodes[..i + 1] == nodes[..i] + [nodes[i]];
      assert nodes[i + 1..] == was[i + 1..];
    }
    assert nodes[..nodes.Length] == nodes[..] && was[..nodes.Length] == was;
    MemberOfAddrs(was, addr);
  }

  lemma MemberOfAddrs(ns: seq<Node>, addr: Addr)
    ensures addr in AddrsOf(ns) <==> exists k :: 0 <= k < |ns| && ns[k].addr == addr
  {
    var addrs := AddrsOf(ns);
    forall k | 0 <= k < |ns| ensures addrs[k] == ns[k].addr {}
  }

  /** The simulator's own scan picks the replica the failover controller would. */
  method Candidate(replicas: seq<Node>) returns (candidate: int)
    ensures candidate == Best(replicas)
  {
    candidate := -1;
    for i := 0 to |replicas|
      invariant candidate == Best(replicas[..i])
    {
      assert Front(replicas[..i + 1]) == replicas[..i];
      if replicas[i].status != Down && (candidate < 0 || replicas[i].lagMS < replicas[candidate].lagMS) {
        candidate := i;
      }
    }
    assert replicas[..|replicas|] == replicas;
  }

  // ----- what the actions keep -----

  lemma {:induction false} EditsKeepAddrs(ns: seq<Node>, addr: Addr, lagMS: int)
    ensures AddrsOf(ToggledAll(ns, addr)) == AddrsOf(ns)
    ensures AddrsOf(LaggedAll(ns, addr, lagMS)) == AddrsOf(ns)
  {
    if ns != [] {
      EditsKeepAddrs(Front(ns), addr, lagMS);
      var toggled, lagged := ToggledAll(ns, addr), LaggedAll(ns, addr, lagMS);
      assert AddrsOf(ns) == AddrsOf(Front(ns)) + [Last(ns).addr];
      assert AddrsOf(toggled) == AddrsOf(Front(toggled)) + [Last(toggled).addr];
      assert AddrsOf(lagged) == AddrsOf(Front(lagged)) + [Last(lagged).addr];
      assert Front(toggled) == ToggledAll(Front(ns), addr) && Front(lagged) == LaggedAll(Front(ns), addr, lagMS);
    }
  }

  lemma SwapKeepsAddrs(s: Shard, i: nat)
    requires i < |s.replicas|
    ensures multiset(Addrs(Swapped(s, i))) == multiset(Addrs(s))
  {
    var s', rest, addrs := Swapped(s, i), RemoveAt(s.replicas, i), AddrsOf(s.replicas);
    MultisetOfSplit(addrs, i);
    assert AddrsOf(rest) == RemoveAt(addrs, i);
    assert Addrs(s') == [addrs[i]] + RemoveAt(addrs, i) + [s.primary.addr];
    assert Addrs(s) == [s.primary.addr] + addrs;
    hide AddrsOf, Addrs, Swapped, RemoveAt;
  }

  /** Every successful action keeps the shard's nodes: only a promotion moves any, and it only reorders them. */
  lemma ActionsKeepTheNodes(s: Shard, r: Request)
    requires Edited(s, r).Ok?
    ensures Edited(s, r).value.id == s.id
    ensures multiset(Addrs(Edited(s, r).value)) == multiset(Addrs(s))
    ensures r.action != "promote" ==> Addrs(Edited(s, r).value) == Addrs(s)
  {
    hide AddrsOf, ToggledAll, LaggedAll, RemoveAt;
    if r.action == "promote" {
      SwapKeepsAddrs(s, Best(s.replicas));
    } else {
      EditsKeepAddrs(s.replicas, r.node, r.lagMS);
    }
  }

  function Play(initial: map<ShardId, Shard>, requests: seq<Request>): map<ShardId, Shard> {
    if requests == [] then initial
    else
      var before := Play(initial, Front(requests));
      match Acted(initial, before, Last(requests))
      case Ok(after) => after
      case Err(_) => before
  }

  /** Same shards, under their own ids, with the same nodes. */
  ghost predicate SameFleet(table: map<ShardId, Shard>, initial: map<ShardId, Shard>) {
    && table.Keys == initial.Keys
    && forall id :: id in initial ==> table[id].id == id && multiset(Addrs(table[id])) == multiset(Addrs(initial[id]))
  }

  lemma ReplacedKeepsTheFleet(table: map<ShardId, Shard>, initial: map<ShardId, Shard>, s: Shard)
    requires SameFleet(table, initial) && s.id in table && multiset(Addrs(s)) == multiset(Addrs(table[s.id]))
    ensures SameFleet(table[s.id := s], initial)
  {
    hide Addrs;
  }

  /** In every session the table keeps its shards, and each shard its configured nodes. */
  lemma {:induction false} FleetIsKept(initial: map<ShardId, Shard>, requests: seq<Request>)
    requires forall id :: id in initial ==> initial[id].id == id
    ensures SameFleet(Play(initial, requests), initial)
  {
    hide Edited, Addrs;
    if requests != [] {
      FleetIsKept(initial, Front(requests));
      var before, r := Play(initial, Front(requests)), Last(requests);
      if r.action != "reset" && r.shard in before && Edited(before[r.shard], r).Ok? {
        ActionsKeepTheNodes(before[r.shard], r);
        ReplacedKeepsTheFleet(before, initial, Edited(before[r.shard], r).value);
        hide SameFleet;
      }
    }
  }

  /** A simulated promotion installs the node the controller's own failover would, and keeps the old primary as DOWN. */
  lemma PromoteAgreesWithFailover(s: Shard, r: Request)
    requires r.action == "promote"
    ensures Edited(s, r).Ok? <==> Best(s.replicas) != -1
    ensures Best(s.replicas) != -1 ==>
      var simulated, actual := Edited(s, r).value, FailedOver(s);
      && simulated.primary == actual.primary.(lagMS := s.replicas[Best(s.replicas)].lagMS)
      && simulated.replicas == actual.replicas + [s.primary.(status := Down)]
      && IsBest(s.replicas, Best(s.replicas))
  {
    BestIsTheBest(s.replicas);
  }

  /** Toggling a node twice restores the shard exactly when that node was UP or DOWN to begin with. */
  lemma ToggleTwiceExactlyWhen(s: Shard, addr: Addr)
    requires NoDup(Addrs(s)) && addr in Addrs(s)
    ensures Toggled(Toggled(s, addr), addr) == s <==>
      forall n :: (n == s.primary || n in s.replicas) && n.addr == addr ==> Binary(n)
  {
    if s.primary.addr != addr {
      ToggledTwice(s.replicas, addr);
    } else {
      forall i | 0 <= i < |s.replicas| ensures s.replicas[i].addr != addr {
        assert Addrs(s)[i + 1] != Addrs(s)[0];
      }
    }
  }

  lemma {:induction false} ToggledAt(ns: seq<Node>, addr: Addr, i: nat)
    requires i < |ns|
    ensures |ToggledAll(ns, addr)| == |ns|
    ensures ToggledAll(ns, addr)[i] == if ns[i].addr == addr then ns[i].(status := Toggle(ns[i].status)) else ns[i]
  {
    if |ns| > 1 {
      ToggledAt(Front(ns), addr, if i < |ns| - 1 then i else 0);
    }
  }

  lemma {:induction false} LaggedAt(ns: seq<Node>, addr: Addr, lagMS: int, i: nat)
    requires i < |ns|
    ensures |LaggedAll(ns, addr, lagMS)| == |ns|
    ensures LaggedAll(ns, addr, lagMS)[i] == if ns[i].addr == addr then ns[i].(lagMS := lagMS) else ns[i]
  {
    if |ns| > 1 {
      LaggedAt(Front(ns), addr, lagMS, if i < |ns| - 1 then i else 0);
    }
  }

  /** Setting a lag gives exactly the named replicas that lag. */
  lemma LagIsSet(s: Shard, r: Request, i: nat)
    requires r.action == "lag" && Edited(s, r).Ok? && i < |s.replicas|
    ensures var s' := Edited(s, r).value; s'.primary == s.primary && |s'.replicas| == |s.replicas|
    ensures var n, n' := s.replicas[i], Edited(s, r).value.replicas[i];
      n' == Node(n.addr, n.status, if n.addr == r.node then r.lagMS else n.lagMS)
  {
    LaggedAt(s.replicas, r.node, r.lagMS, i);
  }

  /** Toggling takes a DOWN node UP and any other DOWN, and leaves every other node alone. */
  lemma ToggleIsOneNode(s: Shard, r: Request, i: nat)
    requires r.action == "toggle" && Edited(s, r).Ok? && i < |s.replicas| && NoDup(Addrs(s))
    ensures var s' := Edited(s, r).value; |s'.replicas| == |s.replicas|
    ensures var p, p' := s.primary, Edited(s, r).value.primary;
      p' == Node(p.addr, if p.addr != r.node then p.status else if p.status == Down then Up else Down, p.lagMS)
    ensures var n, n' := s.replicas[i], Edited(s, r).value.replicas[i];
      n' == Node(n.addr, if n.addr != r.node then n.status else if n.status == Down then Up else Down, n.lagMS)
  {
    ToggledAt(s.replicas, r.node, i);
    assert Addrs(s)[0] == s.primary.addr && Addrs(s)[i + 1] == s.replicas[i].addr;
  }

  predicate Binary(n: Node) {
    n.status == Up || n.status == Down
  }

  lemma ToggledTwiceAt(ns: seq<Node>, addr: Addr, i: nat)
    requires i < |ns|
    ensures var twice := ToggledAll(ToggledAll(ns, addr), addr);
      |twice| == |ns| && (twice[i] == ns[i] <==> (ns[i].addr == addr ==> Binary(ns[i])))
  {
    hide ToggledAll;
    ToggledAt(ns, addr, i);
    ToggledAt(ToggledAll(ns, addr), addr, i);
  }

  lemma ToggledTwice(ns: seq<Node>, addr: Addr)
    ensures ToggledAll(ToggledAll(ns, addr), addr) == ns <==> forall n :: n in ns && n.addr == addr ==> Binary(n)
  {
    var twice := ToggledAll(ToggledAll(ns, addr), addr);
    if ns != [] {
      hide ToggledAll, Binary;
      ToggledTwiceAt(ns, addr, 0);
      if forall n :: n in ns && n.addr == addr ==> Binary(n) {
        forall i | 0 <= i < |ns| ensures twice[i] == ns[i] {
          ToggledTwiceAt(ns, addr, i);
          assert ns[i] in ns;
        }
      } else {
        var i :| 0 <= i < |ns| && ns[i].addr == addr && !Binary(ns[i]);
        ToggledTwiceAt(ns, addr, i);
      }
    }
  }
}
