/** The health checker as it runs when nothing overlaps: miss counting, one whole check, one sweep. */
module Checker {
  import opened Prelude
  import opened ShardMap
  import opened Failover

  /** Consecutive missed heartbeats per address; an absent address has none. */
  type Misses = map<Addr, nat>

  function Count(m: Misses, a: Addr): nat {
    if a in m then m[a] else 0
  }

  function Recorded(m: Misses, a: Addr, ok: bool): Misses {
    if ok then m - {a} else m[a := Count(m, a) + 1]
  }

  function StatusOf(opts: Options, misses: nat): Status {
    if misses >= opts.downAfter then Down
    else if misses >= opts.suspectAfter then Suspect
    else Up
  }

  /** The thresholds in words of the count of consecutive misses. */
  predicate MeetsThresholds(opts: Options, status: Status, count: nat) {
    && (status == Down <==> count >= opts.downAfter)
    && (status == Suspect <==> opts.suspectAfter <= count < opts.downAfter)
    && (status == Up <==> count < opts.suspectAfter && count < opts.downAfter)
  }

  lemma StatusMeetsThresholds(opts: Options, status: Status, count: nat)
    ensures status == StatusOf(opts, count) <==> MeetsThresholds(opts, status, count)
  {
  }

  /** A node after a heartbeat: a replica's failed heartbeat keeps its last known lag. */
  function Pinged(opts: Options, n: Node, misses: nat, answer: PingAnswer, isReplica: bool): Node {
    Node(n.addr, StatusOf(opts, misses), if isReplica && answer.Alive? then answer.lag else n.lagMS)
  }

  /** The counts once every address in `asked` has been pinged, whatever the order. */
  function AfterPings(m: Misses, asked: set<Addr>, answers: Answers): Misses {
    map a | a in m.Keys + asked && (a in asked ==> answers.Ping(a).Missed?) ::
      if a in asked then Count(m, a) + 1 else m[a]
  }

  /** The count a node is left with by its next heartbeat. */
  function NextCount(m: Misses, a: Addr, answers: Answers): nat {
    if answers.Ping(a).Alive? then 0 else Count(m, a) + 1
  }

  function Rechecked(opts: Options, n: Node, m: Misses, answers: Answers, isReplica: bool): Node {
    Pinged(opts, n, NextCount(m, n.addr, answers), answers.Ping(n.addr), isReplica)
  }

  /** The entry a check publishes for the snapshot `s`, given the counts `m` before it. */
  function Refreshed(opts: Options, s: Shard, m: Misses, answers: Answers): Shard {
    Shard(s.id, Rechecked(opts, s.primary, m, answers, false), RecheckedAll(opts, s.replicas, m, answers))
  }

  function RecheckedAll(opts: Options, rs: seq<Node>, m: Misses, answers: Answers): seq<Node> {
    seq(|rs|, i requires 0 <= i < |rs| => Rechecked(opts, rs[i], m, answers, true))
  }

  /** A shard's routing entry together with the miss counts. */
  datatype Ledger = Ledger(entry: Shard, misses: Misses)

  /** The check fails over: its refreshed primary is DOWN and the attempt on it is not refused. */
  predicate FailsOver(opts: Options, checked: Shard, answers: Answers) {
    checked.primary.status == Down && RefusalOf(opts, checked, answers).None?
  }

  /** One whole check of a shard, started from the snapshot `snap`. */
  function WholeCheck(opts: Options, snap: Shard, m: Misses, answers: Answers): Ledger {
    var checked := Refreshed(opts, snap, m, answers);
    Ledger(if FailsOver(opts, checked, answers) then FailedOver(checked) else checked,
      AfterPings(m, AddrSet(snap), answers))
  }

  /** Why the check's failover attempt is refused; None also when there is no attempt. */
  function RefusalOfCheck(opts: Options, snap: Shard, m: Misses, answers: Answers): Option<Refusal> {
    var checked := Refreshed(opts, snap, m, answers);
    if checked.primary.status == Down then RefusalOf(opts, checked, answers) else None
  }

  /** What the check asks of the backends and does to the table after its write-back. */
  function CallsOfCheck(opts: Options, snap: Shard, m: Misses, answers: Answers): seq<Call> {
    var checked := Refreshed(opts, snap, m, answers);
    if checked.primary.status == Down then CallsOf(opts, checked, answers) else []
  }

  /** Pinging one more address extends the counts the way `AfterPings` says, so the order cannot matter. */
  lemma OneMorePing(m: Misses, asked: set<Addr>, answers: Answers, a: Addr)
    requires a !in asked
    ensures AfterPings(m, asked + {a}, answers) == Recorded(AfterPings(m, asked, answers), a, answers.Ping(a).Alive?)
    ensures Count(AfterPings(m, asked, answers), a) == Count(m, a)
  {
  }

  /** The counts after pinging the addresses of `order` one by one. */
  function InOrder(m: Misses, order: seq<Addr>, answers: Answers): Misses {
    if order == [] then m
    else Recorded(InOrder(m, Front(order), answers), Last(order), answers.Ping(Last(order)).Alive?)
  }

  lemma {:induction false} OrderDoesNotMatter(m: Misses, order: seq<Addr>, answers: Answers)
    requires NoDup(order)
    ensures InOrder(m, order, answers) == AfterPings(m, Elems(order), answers)
  {
    if order != [] {
      OrderDoesNotMatter(m, Front(order), answers);
      assert Elems(order) == Elems(Front(order)) + {Last(order)};
      OneMorePing(m, Elems(Front(order)), answers, Last(order));
    }
  }

  lemma {:induction false} NotYetAsked(m: Misses, order: seq<Addr>, answers: Answers, a: Addr)
    requires a !in order
    ensures Count(InOrder(m, order, answers), a) == Count(m, a)
  {
    if order != [] {
      NotYetAsked(m, Front(order), answers, a);
    }
  }

  lemma NoneAsked(m: Misses, answers: Answers)
    ensures InOrder(m, [], answers) == m
  {
  }

  lemma OneMoreAsked(m: Misses, order: seq<Addr>, a: Addr, answers: Answers)
    ensures InOrder(m, order + [a], answers) == Recorded(InOrder(m, order, answers), a, answers.Ping(a).Alive?)
  {
    hide Recorded;
    assert Front(order + [a]) == order;
  }

  lemma SameCountSameCheck(opts: Options, n: Node, m: Misses, m2: Misses, answers: Answers, isReplica: bool)
    requires Count(m, n.addr) == Count(m2, n.addr)
    ensures Rechecked(opts, n, m, answers, isReplica) == Rechecked(opts, n, m2, answers, isReplica)
  {
  }

  /** Every entry sits under its own id, and no address occurs twice in the table. */
  predicate Separate(table: map<ShardId, Shard>) {
    && (forall id :: id in table ==> table[id].id == id && NoDup(Addrs(table[id])))
    && (forall id, id2 :: id in table && id2 in table && id != id2 ==> forall a :: a in AddrSet(table[id]) ==> a !in AddrSet(table[id2]))
  }

  predicate SameCounts(m: Misses, m2: Misses, s: Shard) {
    forall a :: a in AddrSet(s) ==> Count(m, a) == Count(m2, a)
  }

  /** A check's outcome depends on no other shard's counts. */
  lemma SameRefresh(opts: Options, s: Shard, m: Misses, m2: Misses, answers: Answers)
    requires SameCounts(m, m2, s)
    ensures Refreshed(opts, s, m, answers) == Refreshed(opts, s, m2, answers)
  {
    hide Rechecked;
    assert s.primary.addr == Addrs(s)[0];
    SameCountSameCheck(opts, s.primary, m, m2, answers, false);
    forall i | 0 <= i < |s.replicas|
      ensures Rechecked(opts, s.replicas[i], m, answers, true) == Rechecked(opts, s.replicas[i], m2, answers, true)
    {
      assert s.replicas[i].addr == Addrs(s)[i + 1];
      SameCountSameCheck(opts, s.replicas[i], m, m2, answers, true);
    }
  }

  lemma OwnCountsOnly(opts: Options, s: Shard, m: Misses, m2: Misses, answers: Answers)
    requires SameCounts(m, m2, s)
    ensures WholeCheck(opts, s, m, answers).entry == WholeCheck(opts, s, m2, answers).entry
  {
    SameRefresh(opts, s, m, m2, answers);
    hide Refreshed, AfterPings, FailsOver, FailedOver, SameCounts;
  }

  /** A check counts nothing against another shard's nodes. */
  lemma OthersUntouched(opts: Options, s: Shard, m: Misses, answers: Answers)
    ensures forall a :: a !in AddrSet(s) ==> Count(WholeCheck(opts, s, m, answers).misses, a) == Count(m, a)
  {
  }

  lemma SameAttempt(opts: Options, s: Shard, m: Misses, m2: Misses, answers: Answers)
    requires SameCounts(m, m2, s)
    ensures RefusalOfCheck(opts, s, m, answers) == RefusalOfCheck(opts, s, m2, answers)
    ensures CallsOfCheck(opts, s, m, answers) == CallsOfCheck(opts, s, m2, answers)
  {
    hide Refreshed, RefusalOf, CallsOf, SameCounts;
    SameRefresh(opts, s, m, m2, answers);
  }

  // ----- one sweep with nothing else running -----

  /** Everything a sweep changes. */
  datatype Books = Books(shards: map<ShardId, Shard>, misses: Misses, errors: map<ShardId, Refusal>, calls: seq<Call>)

  function ErrorKept(errors: map<ShardId, Refusal>, id: ShardId, refusal: Option<Refusal>): map<ShardId, Refusal> {
    if refusal.Some? then errors[id := refusal.value] else errors - {id}
  }

  /** A sweep's work on one shard. */
  function CheckedOff(opts: Options, busy: set<ShardId>, snap: Shard, answers: Answers, b: Books): Books {
    if snap.id in busy then b
    else
      var after := WholeCheck(opts, snap, b.misses, answers);
      Books(b.shards[snap.id := after.entry], after.misses,
            ErrorKept(b.errors, snap.id, RefusalOfCheck(opts, snap, b.misses, answers)),
            b.calls + CallsOfCheck(opts, snap, b.misses, answers))
  }

  /** The addresses of the shards of `order` that are free. */
  function FreeAddrs(table: map<ShardId, Shard>, busy: set<ShardId>, order: seq<ShardId>): set<Addr>
    requires forall id :: id in order ==> id in table
  {
    if order == [] then {}
    else FreeAddrs(table, busy, Front(order)) + if Last(order) in busy then {} else AddrSet(table[Last(order)])
  }

  function SweptTable(opts: Options, table: map<ShardId, Shard>, busy: set<ShardId>, m: Misses, answers: Answers,
                      order: seq<ShardId>): map<ShardId, Shard>
  {
    map id | id in table :: if id in order && id !in busy then WholeCheck(opts, table[id], m, answers).entry else table[id]
  }

  function SweptErrors(opts: Options, table: map<ShardId, Shard>, busy: set<ShardId>, b: Books, answers: Answers,
                       order: seq<ShardId>): map<ShardId, Refusal>
    requires forall id :: id in order ==> id in table
  {
    if order == [] then b.errors
    else
      var errors, id := SweptErrors(opts, table, busy, b, answers, Front(order)), Last(order);
      if id in busy then errors else ErrorKept(errors, id, RefusalOfCheck(opts, table[id], b.misses, answers))
  }

  function SweptCalls(opts: Options, table: map<ShardId, Shard>, busy: set<ShardId>, m: Misses, answers: Answers,
                      order: seq<ShardId>): seq<Call>
    requires forall id :: id in order ==> id in table
  {
    if order == [] then []
    else
      SweptCalls(opts, table, busy, m, answers, Front(order))
      + if Last(order) in busy then [] else CallsOfCheck(opts, table[Last(order)], m, answers)
  }

  /** Where checking the shards of `order` leads: each free one is checked as if it were the only one. */
  function Swept(opts: Options, busy: set<ShardId>, b: Books, answers: Answers, order: seq<ShardId>): Books
    requires forall id :: id in order ==> id in b.shards
  {
    Books(SweptTable(opts, b.shards, busy, b.misses, answers, order),
          AfterPings(b.misses, FreeAddrs(b.shards, busy, order), answers),
          SweptErrors(opts, b.shards, busy, b, answers, order),
          b.calls + SweptCalls(opts, b.shards, busy, b.misses, answers, order))
  }

  lemma {:induction false} OthersAreNotAsked(table: map<ShardId, Shard>, busy: set<ShardId>, order: seq<ShardId>, id: ShardId, a: Addr)
    requires Separate(table) && id in table && id !in order && a in AddrSet(table[id])
    requires forall x :: x in order ==> x in table
    ensures a !in FreeAddrs(table, busy, order)
  {
    if order != [] {
      OthersAreNotAsked(table, busy, Front(order), id, a);
      assert Last(order) in order;
      hide AddrSet;
    }
  }

  lemma PingsAddUp(m: Misses, asked: set<Addr>, more: set<Addr>, answers: Answers)
    requires forall a :: a in more ==> a !in asked
    ensures AfterPings(AfterPings(m, asked, answers), more, answers) == AfterPings(m, asked + more, answers)
    ensures forall a :: a in more ==> Count(AfterPings(m, asked, answers), a) == Count(m, a)
  {
  }

  lemma SweptTableSnoc(opts: Options, table: map<ShardId, Shard>, busy: set<ShardId>, m: Misses, answers: Answers,
                       order: seq<ShardId>, id: ShardId)
    requires id in table
    ensures SweptTable(opts, table, busy, m, answers, order + [id]) ==
      var before := SweptTable(opts, table, busy, m, answers, order);
      if id in busy then before else before[id := WholeCheck(opts, table[id], m, answers).entry]
  {
    hide WholeCheck;
  }

  lemma SweptSnoc(opts: Options, table: map<ShardId, Shard>, busy: set<ShardId>, b: Books, answers: Answers,
                  order: seq<ShardId>, id: ShardId)
    requires id in table && forall x :: x in order ==> x in table
    ensures FreeAddrs(table, busy, order + [id]) ==
      FreeAddrs(table, busy, order) + if id in busy then {} else AddrSet(table[id])
    ensures SweptErrors(opts, table, busy, b, answers, order + [id]) ==
      var errors := SweptErrors(opts, table, busy, b, answers, order);
      if id in busy then errors else ErrorKept(errors, id, RefusalOfCheck(opts, table[id], b.misses, answers))
    ensures SweptCalls(opts, table, busy, b.misses, answers, order + [id]) ==
      SweptCalls(opts, table, busy, b.misses, answers, order)
      + if id in busy then [] else CallsOfCheck(opts, table[id], b.misses, answers)
  {
    hide AddrSet, ErrorKept, RefusalOfCheck, CallsOfCheck;
    assert Front(order + [id]) == order && Last(order + [id]) == id;
  }

  /** One more shard: its check sees its own counts untouched, so it does what it would have done first. */
  lemma SweepStep(opts: Options, busy: set<ShardId>, b: Books, answers: Answers, order: seq<ShardId>, id: ShardId)
    requires Separate(b.shards) && id in b.shards && id !in order
    requires forall x :: x in order ==> x in b.shards
    ensures CheckedOff(opts, busy, b.shards[id], answers, Swept(opts, busy, b, answers, order))
         == Swept(opts, busy, b, answers, order + [id])
  {
    hide WholeCheck, AfterPings, FreeAddrs, SweptTable, SweptErrors, SweptCalls, Separate, AddrSet;
    hide RefusalOfCheck, CallsOfCheck, ErrorKept, SameCounts;
    var calls := SweptCalls(opts, b.shards, busy, b.misses, answers, order);
    EntryOf(b.shards, id);
    SweptTableSnoc(opts, b.shards, busy, b.misses, answers, order, id);
    SweptSnoc(opts, b.shards, busy, b, answers, order, id);
    if id in busy {
      assert FreeAddrs(b.shards, busy, order) + {} == FreeAddrs(b.shards, busy, order) && calls + [] == calls;
    } else {
      SameCheckMidSweep(opts, busy, b, answers, order, id);
      Regroup(b.calls, calls, CallsOfCheck(opts, b.shards[id], b.misses, answers));
    }
  }

  lemma Regroup<T>(a: seq<T>, b: seq<T>, c: seq<T>)
    ensures a + b + c == a + (b + c)
  {
  }

  lemma SameCheckMidSweep(opts: Options, busy: set<ShardId>, b: Books, answers: Answers, order: seq<ShardId>, id: ShardId)
    requires Separate(b.shards) && id in b.shards && id !in order
    requires forall x :: x in order ==> x in b.shards
    ensures var s, asked := b.shards[id], FreeAddrs(b.shards, busy, order);
      var m := AfterPings(b.misses, asked, answers);
      && WholeCheck(opts, s, m, answers)
           == Ledger(WholeCheck(opts, s, b.misses, answers).entry, AfterPings(b.misses, asked + AddrSet(s), answers))
      && RefusalOfCheck(opts, s, m, answers) == RefusalOfCheck(opts, s, b.misses, answers)
      && CallsOfCheck(opts, s, m, answers) == CallsOfCheck(opts, s, b.misses, answers)
  {
    hide WholeCheck, AfterPings, FreeAddrs, Separate, AddrSet, RefusalOfCheck, CallsOfCheck;
    var s, asked := b.shards[id], FreeAddrs(b.shards, busy, order);
    var m := AfterPings(b.misses, asked, answers);
    forall a | a in AddrSet(s) ensures a !in asked {
      OthersAreNotAsked(b.shards, busy, order, id, a);
    }
    PingsAddUp(b.misses, asked, AddrSet(s), answers);
    OwnCountsOnly(opts, s, m, b.misses, answers);
    SameAttempt(opts, s, m, b.misses, answers);
    CheckCountsItsOwn(opts, s, m, answers);
  }

  lemma CheckCountsItsOwn(opts: Options, s: Shard, m: Misses, answers: Answers)
    ensures WholeCheck(opts, s, m, answers).misses == AfterPings(m, AddrSet(s), answers)
  {
    hide AfterPings, FailsOver, Refreshed;
  }

  /** `order` names each shard of the table once. */
  ghost predicate Visits(order: seq<ShardId>, table: map<ShardId, Shard>) {
    NoDup(order) && forall id :: id in table <==> id in order
  }

  lemma ListsVisits(snapshot: seq<Shard>, order: seq<ShardId>, table: map<ShardId, Shard>)
    requires Lists(snapshot, order, table)
    ensures |order| == |snapshot| && Visits(order, table) && forall id :: id in order ==> id in table
  {
  }

  lemma SweptEntries(opts: Options, busy: set<ShardId>, b: Books, answers: Answers, order: seq<ShardId>)
    requires Visits(order, b.shards)
    ensures var after := Swept(opts, busy, b, answers, order).shards;
      && after.Keys == b.shards.Keys
      && (forall id :: id in b.shards && id in busy ==> after[id] == b.shards[id])
      && (forall id :: id in b.shards && id !in busy ==> after[id] == WholeCheck(opts, b.shards[id], b.misses, answers).entry)
  {
    hide WholeCheck;
  }

  lemma SweepRound(opts: Options, busy: set<ShardId>, b: Books, answers: Answers,
                   snapshot: seq<Shard>, order: seq<ShardId>, i: nat)
    requires Separate(b.shards) && Lists(snapshot, order, b.shards) && i < |snapshot|
    ensures i < |order| == |snapshot| && NoDup(Addrs(snapshot[i])) && forall id :: id in order ==> id in b.shards
    ensures CheckedOff(opts, busy, snapshot[i], answers, Swept(opts, busy, b, answers, order[..i]))
         == Swept(opts, busy, b, answers, order[..i + 1])
  {
    hide Separate, CheckedOff, Swept;
    EntryOf(b.shards, order[i]);
    assert order[..i + 1] == order[..i] + [order[i]];
    SweepStep(opts, busy, b, answers, order[..i], order[i]);
  }

  lemma EntryOf(table: map<ShardId, Shard>, id: ShardId)
    requires Separate(table) && id in table
    ensures table[id].id == id && NoDup(Addrs(table[id]))
  {
  }

  lemma SweepStarts(opts: Options, busy: set<ShardId>, b: Books, answers: Answers)
    ensures Swept(opts, busy, b, answers, []) == b
  {
    hide WholeCheck;
    assert AfterPings(b.misses, {}, answers) == b.misses;
  }

  class HealthChecker {
    const shardMap: Map
    const failover: Controller
    const opts: Options
    var misses: Misses
    var busy: set<ShardId>
    var lastFailoverErr: map<ShardId, Refusal>

    constructor (shardMap: Map, opts: Options)
      ensures this.shardMap == shardMap && this.opts == opts && Wired() && fresh(failover)
      ensures misses == map[] && busy == {} && lastFailoverErr == map[]
    {
      this.shardMap := shardMap;
      this.opts := opts;
      this.failover := new Controller(shardMap, opts);
      misses, busy, lastFailoverErr := map[], {}, map[];
    }

    predicate Wired() {
      failover.shardMap == shardMap && failover.opts == opts
    }

    method TryAcquire(shardId: ShardId) returns (ok: bool)
      modifies this`busy
      ensures ok <==> shardId !in old(busy)
      ensures busy == old(busy) + {shardId}
    {
      if shardId in busy {
        return false;
      }
      busy := busy + {shardId};
      return true;
    }

    method Release(shardId: ShardId)
      modifies this`busy
      ensures busy == old(busy) - {shardId}
    {
      busy := busy - {shardId};
    }

    method RecordResult(addr: Addr, ok: bool) returns (count: nat)
      modifies this`misses
      ensures misses == Recorded(old(misses), addr, ok)
      ensures count == Count(misses, addr)
    {
      if ok {
        misses := misses - {addr};
        return 0;
      }
      misses := misses[addr := (if addr in misses then misses[addr] else 0) + 1];
      return misses[addr];
    }

    method PingNode(n: Node, isReplica: bool, answers: Answers) returns (r: Node)
      modifies this`misses
      ensures misses == Recorded(old(misses), n.addr, answers.Ping(n.addr).Alive?)
      ensures r == Rechecked(opts, n, old(misses), answers, isReplica)
      ensures MeetsThresholds(opts, r.status, Count(misses, n.addr))
      ensures r.addr == n.addr
        && r.lagMS == match answers.Ping(n.addr)
             case Alive(lag) => if isReplica then lag else n.lagMS
             case Missed => n.lagMS
    {
      var lagMS := n.lagMS;
      var answer := answers.Ping(n.addr);
      if isReplica && answer.Alive? {
        lagMS := answer.lag;
      }
      var count := RecordResult(n.addr, answer.Alive?);
      var status := Up;
      if count >= opts.downAfter {
        status := Down;
      } else if count >= opts.suspectAfter {
        status := Suspect;
      }
      r := Node(n.addr, status, lagMS);
    }

    /** Pings every node of the snapshot once. */
    method PingAll(snap: Shard, answers: Answers) returns (checked: Shard)
      requires NoDup(Addrs(snap))
      modifies this`misses
      ensures misses == InOrder(old(misses), Addrs(snap), answers)
      ensures checked == Refreshed(opts, snap, old(misses), answers)
    {
      hide Recorded, Rechecked, InOrder;
      ghost var order := Addrs(snap);
      assert order[..1] == [] + [snap.primary.addr];
      NoneAsked(misses, answers);
      OneMoreAsked(misses, [], snap.primary.addr, answers);
      var newPrimary := PingNode(snap.primary, false, answers);
      var newReplicas: seq<Node> := [];
      for i := 0 to |snap.replicas|
        invariant misses == InOrder(old(misses), order[..i + 1], answers)
        invariant |newReplicas| == i
        invariant forall k :: 0 <= k < i ==> newReplicas[k] == Rechecked(opts, snap.replicas[k], old(misses), answers, true)
      {
        ghost var a := snap.replicas[i].addr;
        assert order[i + 1] == a;
        assert order[..i + 2] == order[..i + 1] + [a];
        OneMoreAsked(old(misses), order[..i + 1], a, answers);
        NotYetAsked(old(misses), order[..i + 1], answers, a);
        SameCountSameCheck(opts, snap.replicas[i], misses, old(misses), answers, true);
        var newReplica := PingNode(snap.replicas[i], true, answers);
        newReplicas := newReplicas + [newReplica];
      }
      assert order[..|order|] == order;
      checked := Shard(snap.id, newPrimary, newReplicas);
    }

    ghost function Now(): Books
      reads this, shardMap, failover
    {
      Books(shardMap.shards, misses, lastFailoverErr, failover.calls)
    }

    /** One whole check: ping, write back, and fail over if the primary is DOWN. */
    method CheckShard(snap: Shard, answers: Answers)
      requires Wired() && NoDup(Addrs(snap))
      modifies this`misses, this`lastFailoverErr, shardMap, failover
      ensures Now() == CheckedOff(opts, {}, snap, answers, old(Now()))
      ensures var after := WholeCheck(opts, snap, old(misses), answers);
        misses == after.misses && shardMap.shards == old(shardMap.shards)[snap.id := after.entry]
      ensures var checked := Refreshed(opts, snap, old(misses), answers);
        && (snap.id in lastFailoverErr <==> checked.primary.status == Down && RefusalOf(opts, checked, answers).Some?)
        && (snap.id in lastFailoverErr ==> lastFailoverErr[snap.id] == RefusalOf(opts, checked, answers).value)
        && failover.calls == old(failover.calls)
             + (if checked.primary.status == Down then CallsOf(opts, checked, answers) else [])
      ensures forall id :: id != snap.id ==> (id in lastFailoverErr <==> id in old(lastFailoverErr))
      ensures forall id :: id != snap.id && id in lastFailoverErr ==> lastFailoverErr[id] == old(lastFailoverErr)[id]
    {
      hide AfterPings, RefusalOf, FailedOver, CallsOf;
      var checked := PingAll(snap, answers);
      assert misses == AfterPings(old(misses), AddrSet(snap), answers) by {
        OrderDoesNotMatter(old(misses), Addrs(snap), answers);
      }
      shardMap.Set(snap.id, checked);
      if checked.primary.status != Down {
        lastFailoverErr := lastFailoverErr - {snap.id};
        return;
      }
      var refusal := failover.Promote(snap.id, answers);
      if refusal.None? {
        lastFailoverErr := lastFailoverErr - {snap.id};
      } else {
        lastFailoverErr := lastFailoverErr[snap.id := refusal.value];
      }
    }

    /** A sweep's work on one shard: skipped when a check of it is already in flight. */
    method CheckUnlessBusy(snap: Shard, answers: Answers)
      requires Wired() && NoDup(Addrs(snap))
      modifies this, shardMap, failover
      ensures busy == old(busy)
      ensures Now() == CheckedOff(opts, busy, snap, answers, old(Now()))
    {
      hide WholeCheck, RefusalOfCheck, CallsOfCheck, ErrorKept;
      var acquired := TryAcquire(snap.id);
      if !acquired {
        return;
      }
      CheckShard(snap, answers);
      Release(snap.id);
    }

    /** One sweep with nothing else running: every shard not already being checked is checked once. */
    method Sweep(answers: Answers)
      requires Wired() && Separate(shardMap.shards)
      modifies this, shardMap, failover
      ensures busy == old(busy)
      ensures exists order ::
        Visits(order, old(shardMap.shards)) && Now() == Swept(opts, busy, old(Now()), answers, order)
      ensures shardMap.shards.Keys == old(shardMap.shards).Keys
      ensures forall id :: id in shardMap.shards && id in busy ==> shardMap.shards[id] == old(shardMap.shards)[id]
      ensures forall id :: id in shardMap.shards && id !in busy ==>
        shardMap.shards[id] == WholeCheck(opts, old(shardMap.shards)[id], old(misses), answers).entry
    {
      hide CheckedOff, Swept, Separate, Lists, Visits;
      ghost var b := Now();
      var snapshot := shardMap.All();
      ghost var order :| Lists(snapshot, order, b.shards);
      ListsVisits(snapshot, order, b.shards);
      SweepStarts(opts, busy, b, answers);
      assert order[..0] == [];
      for i := 0 to |snapshot|
        invariant busy == old(busy)
        invariant Now() == Swept(opts, busy, b, answers, order[..i])
      {
        SweepRound(opts, busy, b, answers, snapshot, order, i);
        CheckUnlessBusy(snapshot[i], answers);
      }
      assert order[..|snapshot|] == order;
      SweptEntries(opts, busy, b, answers, order);
    }
  }
}
