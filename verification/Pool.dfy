/** The pool manager: check, unlock, create, relock, recheck, interleaved with drains and the final close. */
module Pool {
  import opened Prelude
  import opened ShardMap

  /** Pools are numbered in the order they are created. */
  type PoolId = nat

  /** The manager's table, the number of pools ever created, and the pools handed to close so far. */
  datatype Table = Table(attached: map<Addr, PoolId>, created: nat, closing: seq<PoolId>)

  /** A creator comes back with pool `p`: it publishes it, or closes it because another creator won. */
  function Published(t: Table, addr: Addr, p: PoolId): Table {
    if addr in t.attached then t.(closing := t.closing + [p]) else t.(attached := t.attached[addr := p])
  }

  function Detached(t: Table, addr: Addr): Table {
    if addr in t.attached then Table(t.attached - {addr}, t.created, t.closing + [t.attached[addr]]) else t
  }

  /** `order` lists the attached pools, one per address. */
  predicate ListsPools(order: seq<PoolId>, addrs: seq<Addr>, attached: map<Addr, PoolId>) {
    && |order| == |addrs| && NoDup(addrs)
    && (forall i :: 0 <= i < |addrs| ==> addrs[i] in attached && order[i] == attached[addrs[i]])
    && (forall a :: a in attached ==> a in addrs)
  }

  class Manager {
    var t: Table

    constructor ()
      ensures t == Table(map[], 0, [])
    {
      t := Table(map[], 0, []);
    }

    /** Get with nothing else running; `dialable` is whether the pool could be configured. */
    method Get(addr: Addr, dialable: bool) returns (p: Option<PoolId>)
      modifies this
      ensures p.Some? ==> addr in t.attached && t.attached[addr] == p.value
      ensures addr in old(t).attached ==> t == old(t) && p.Some?
      ensures addr !in old(t).attached ==>
        (p.Some? <==> dialable)
        && t == if dialable then Published(old(t).(created := old(t).created + 1), addr, old(t).created) else old(t)
    {
      if addr in t.attached {
        return Some(t.attached[addr]);
      }
      if !dialable {
        return None;
      }
      var newPool := t.created;
      t := t.(created := t.created + 1);
      var winner := Publish(addr, newPool);
      p := Some(winner);
    }

    /** The second critical section of Get. */
    method Publish(addr: Addr, p: PoolId) returns (winner: PoolId)
      modifies this
      ensures t == Published(old(t), addr, p)
      ensures addr in t.attached && winner == t.attached[addr]
      ensures if addr in old(t).attached then winner == old(t).attached[addr] && t.closing == old(t).closing + [p]
              else winner == p && t.closing == old(t).closing
    {
      if addr in t.attached {
        t := t.(closing := t.closing + [p]);
        return t.attached[addr];
      }
      t := t.(attached := t.attached[addr := p]);
      return p;
    }

    method Drain(addr: Addr)
      modifies this
      ensures t == Detached(old(t), addr)
      ensures addr !in t.attached && t.created == old(t).created
      ensures addr in old(t).attached ==> t.closing == old(t).closing + [old(t).attached[addr]]
      ensures addr !in old(t).attached ==> t.closing == old(t).closing
      ensures forall a :: a != addr ==> (a in t.attached <==> a in old(t).attached)
      ensures forall a :: a in t.attached ==> t.attached[a] == old(t).attached[a]
    {
      if addr in t.attached {
        var p := t.attached[addr];
        t := t.(attached := t.attached - {addr});
        t := t.(closing := t.closing + [p]);
      }
    }

    /** Takes the whole table under the lock, then closes what it took. */
    method Close()
      modifies this
      ensures t.attached == map[] && t.created == old(t).created
      ensures exists order, addrs :: ListsPools(order, addrs, old(t).attached) && t.closing == old(t).closing + order
    {
      var pools := t.attached;
      t := t.(attached := map[]);
      ghost var order: seq<PoolId>, addrs: seq<Addr> := [], [];
      var rest := pools.Keys;
      while rest != {}
        invariant rest <= pools.Keys
        invariant t == Table(map[], old(t).created, old(t).closing + order)
        invariant |order| == |addrs| && NoDup(addrs)
        invariant forall i :: 0 <= i < |addrs| ==> addrs[i] in pools && order[i] == pools[addrs[i]]
        invariant forall a :: a in pools && a !in rest <==> a in addrs
      {
        var a :| a in rest;
        t := t.(closing := t.closing + [pools[a]]);
        order, addrs := order + [pools[a]], addrs + [a];
        rest := rest - {a};
      }
      assert ListsPools(order, addrs, old(t).attached);
    }
  }

  // ----- any interleaving -----

  datatype GetCall =
    | Looking(addr: Addr)
    | Creating(addr: Addr)
    | Holding(addr: Addr, p: PoolId)
    | Got(addr: Addr, p: PoolId)
    | Failed(addr: Addr)

  datatype Shared = Shared(t: Table, calls: seq<GetCall>)

  datatype PoolStep =
    | Begin(addr: Addr)
    | Check(k: nat)
    | Create(k: nat, dialable: bool)
    | Recheck(k: nat)
    | Detach(addr: Addr)
    | CloseAll(order: seq<PoolId>, addrs: seq<Addr>)

  predicate CanTake(s: Shared, st: PoolStep) {
    match st
    case Begin(_) => true
    case Check(k) => k < |s.calls| && s.calls[k].Looking?
    case Create(k, _) => k < |s.calls| && s.calls[k].Creating?
    case Recheck(k) => k < |s.calls| && s.calls[k].Holding?
    case Detach(_) => true
    case CloseAll(order, addrs) => ListsPools(order, addrs, s.t.attached)
  }

  function Taken(s: Shared, st: PoolStep): Shared
    requires CanTake(s, st)
  {
    match st
    case Begin(addr) => s.(calls := s.calls + [Looking(addr)])
    case Check(k) =>
      var addr := s.calls[k].addr;
      s.(calls := s.calls[k := if addr in s.t.attached then Got(addr, s.t.attached[addr]) else Creating(addr)])
    case Create(k, dialable) =>
      var addr := s.calls[k].addr;
      if dialable
      then Shared(s.t.(created := s.t.created + 1), s.calls[k := Holding(addr, s.t.created)])
      else s.(calls := s.calls[k := Failed(addr)])
    case Recheck(k) =>
      var Holding(addr, p) := s.calls[k];
      var t' := Published(s.t, addr, p);
      Shared(t', s.calls[k := Got(addr, t'.attached[addr])])
    case Detach(addr) => s.(t := Detached(s.t, addr))
    case CloseAll(order, _) => s.(t := Table(map[], s.t.created, s.t.closing + order))
  }

  function Played(steps: seq<PoolStep>): Option<Shared> {
    if steps == [] then Some(Shared(Table(map[], 0, []), []))
    else match Played(Front(steps))
      case None => None
      case Some(s) => if CanTake(s, Last(steps)) then Some(Taken(s, Last(steps))) else None
  }

  predicate Held(s: Shared, p: PoolId) {
    exists k :: 0 <= k < |s.calls| && s.calls[k].Holding? && s.calls[k].p == p
  }

  predicate Attached(s: Shared, p: PoolId) {
    exists a :: a in s.t.attached && s.t.attached[a] == p
  }

  /** Every pool is in exactly one place: with its creator, under one address, or closed once. */
  ghost predicate Conserved(s: Shared) {
    && (forall p: PoolId :: p < s.t.created <==> Held(s, p) || Attached(s, p) || p in s.t.closing)
    && (forall p :: !(Held(s, p) && Attached(s, p)) && !(Held(s, p) && p in s.t.closing) && !(Attached(s, p) && p in s.t.closing))
    && (forall k, l :: 0 <= k < l < |s.calls| && s.calls[k].Holding? && s.calls[l].Holding? ==> s.calls[k].p != s.calls[l].p)
    && (forall a, b :: a in s.t.attached && b in s.t.attached && s.t.attached[a] == s.t.attached[b] ==> a == b)
    && NoDup(s.t.closing)
  }

  lemma CallChange(s: Shared, k: nat, call: GetCall, t: Table)
    requires k < |s.calls| && !s.calls[k].Holding?
    ensures forall p :: Held(Shared(t, s.calls[k := call]), p) <==> Held(s, p) || (call.Holding? && call.p == p)
  {
    var s' := Shared(t, s.calls[k := call]);
    forall p ensures Held(s', p) <==> Held(s, p) || (call.Holding? && call.p == p) {
      if Held(s, p) {
        var l :| 0 <= l < |s.calls| && s.calls[l].Holding? && s.calls[l].p == p;
        assert s'.calls[l] == s.calls[l];
      }
      if Held(s', p) {
        var l :| 0 <= l < |s'.calls| && s'.calls[l].Holding? && s'.calls[l].p == p;
        assert l == k || s.calls[l] == s'.calls[l];
      }
      if call.Holding? && call.p == p {
        assert s'.calls[k] == call;
      }
    }
  }

  lemma CheckConserves(s: Shared, k: nat)
    requires Conserved(s) && CanTake(s, Check(k))
    ensures Conserved(Taken(s, Check(k)))
  {
    var s' := Taken(s, Check(k));
    CallChange(s, k, s'.calls[k], s.t);
    assert forall p :: Held(s', p) <==> Held(s, p);
    assert forall p :: Attached(s', p) <==> Attached(s, p);
    hide Held, Attached, NoDup;
  }

  lemma CreateConserves(s: Shared, k: nat, dialable: bool)
    requires Conserved(s) && CanTake(s, Create(k, dialable))
    ensures Conserved(Taken(s, Create(k, dialable)))
  {
    var s' := Taken(s, Create(k, dialable));
    CallChange(s, k, s'.calls[k], s'.t);
    assert forall p :: Attached(s', p) <==> Attached(s, p);
    assert !(s.t.created < s.t.created);
    forall l | 0 <= l < |s.calls| && s.calls[l].Holding? ensures s.calls[l].p < s.t.created {
      assert Held(s, s.calls[l].p);
    }
    hide Held, Attached;
  }

  /** The creator gives its pool up: published if it is the first, closed otherwise. */
  lemma RecheckMoves(s: Shared, k: nat)
    requires Conserved(s) && CanTake(s, Recheck(k))
    ensures var (s', addr, mine) := (Taken(s, Recheck(k)), s.calls[k].addr, s.calls[k].p);
      && Held(s, mine)
      && (forall p :: Held(s', p) <==> Held(s, p) && p != mine)
      && (forall p :: Attached(s', p) <==> Attached(s, p) || (addr !in s.t.attached && p == mine))
  {
    var Holding(addr, mine) := s.calls[k];
    var s' := Taken(s, Recheck(k));
    forall p ensures Held(s', p) <==> Held(s, p) && p != mine {
      if Held(s, p) && p != mine {
        var l :| 0 <= l < |s.calls| && s.calls[l].Holding? && s.calls[l].p == p;
        assert s'.calls[l] == s.calls[l];
      }
      if Held(s', p) {
        var l :| 0 <= l < |s'.calls| && s'.calls[l].Holding? && s'.calls[l].p == p;
        assert l != k && s.calls[l] == s'.calls[l];
      }
    }
    forall p ensures Attached(s', p) <==> Attached(s, p) || (addr !in s.t.attached && p == mine) {
      if Attached(s, p) {
        var a :| a in s.t.attached && s.t.attached[a] == p;
        assert s'.t.attached[a] == p;
      }
      if addr !in s.t.attached {
        assert s'.t.attached[addr] == mine;
      }
    }
  }

  lemma RecheckConserves(s: Shared, k: nat)
    requires Conserved(s) && CanTake(s, Recheck(k))
    ensures Conserved(Taken(s, Recheck(k)))
  {
    assert forall a :: a in s.t.attached ==> Attached(s, s.t.attached[a]);
    RecheckMoves(s, k);
    hide Held, Attached;
  }

  lemma DetachConserves(s: Shared, addr: Addr)
    requires Conserved(s)
    ensures Conserved(Taken(s, Detach(addr)))
  {
    var s' := Taken(s, Detach(addr));
    assert forall p :: Held(s', p) <==> Held(s, p);
    if addr in s.t.attached {
      var gone := s.t.attached[addr];
      assert Attached(s, gone);
      forall p ensures Attached(s', p) <==> Attached(s, p) && p != gone {
        if Attached(s, p) && p != gone {
          var a :| a in s.t.attached && s.t.attached[a] == p;
          assert s'.t.attached[a] == p;
        }
      }
    }
    hide Held, Attached;
  }

  /** What a listing of the attached pools names: each of them, once. */
  lemma ListedOnce(s: Shared, order: seq<PoolId>, addrs: seq<Addr>)
    requires Conserved(s) && ListsPools(order, addrs, s.t.attached)
    ensures forall p :: p in order <==> Attached(s, p)
    ensures NoDup(order)
  {
    forall p ensures p in order <==> Attached(s, p) {
      if Attached(s, p) {
        var a :| a in s.t.attached && s.t.attached[a] == p;
        var i :| 0 <= i < |addrs| && addrs[i] == a;
        assert order[i] == p;
      }
      if p in order {
        var i :| 0 <= i < |order| && order[i] == p;
        assert s.t.attached[addrs[i]] == p;
      }
    }
    forall i, j | 0 <= i < j < |order| ensures order[i] != order[j] {
      assert addrs[i] != addrs[j];
    }
  }

  lemma NoDupJoin<T>(a: seq<T>, b: seq<T>)
    requires NoDup(a) && NoDup(b) && forall x :: x in a ==> x !in b
    ensures NoDup(a + b)
  {
    forall i, j | 0 <= i < j < |a + b| ensures (a + b)[i] != (a + b)[j] {
      if i < |a| <= j {
        assert a[i] in a && b[j - |a|] in b;
      }
    }
  }

  lemma CloseConserves(s: Shared, order: seq<PoolId>, addrs: seq<Addr>)
    requires Conserved(s) && ListsPools(order, addrs, s.t.attached)
    ensures Conserved(Taken(s, CloseAll(order, addrs)))
  {
    var s' := Taken(s, CloseAll(order, addrs));
    ListedOnce(s, order, addrs);
    NoDupJoin(s.t.closing, order);
    assert forall p :: Held(s', p) <==> Held(s, p);
    assert forall p :: !Attached(s', p);
    assert forall p :: p in s'.t.closing <==> p in s.t.closing || p in order;
    hide Held, Attached, ListsPools, NoDup;
  }

  lemma StepConserves(s: Shared, st: PoolStep)
    requires Conserved(s) && CanTake(s, st)
    ensures Conserved(Taken(s, st))
  {
    match st {
      case Begin(addr) =>
        assert forall p :: Held(Taken(s, st), p) <==> Held(s, p) by {
          forall p ensures Held(Taken(s, st), p) <==> Held(s, p) {
            if Held(s, p) {
              var l :| 0 <= l < |s.calls| && s.calls[l].Holding? && s.calls[l].p == p;
              assert Taken(s, st).calls[l] == s.calls[l];
            }
          }
        }
        assert forall p :: Attached(Taken(s, st), p) <==> Attached(s, p);
      case Check(k) => CheckConserves(s, k);
      case Create(k, dialable) => CreateConserves(s, k, dialable);
      case Recheck(k) => RecheckConserves(s, k);
      case Detach(addr) => DetachConserves(s, addr);
      case CloseAll(order, addrs) => CloseConserves(s, order, addrs);
    }
  }

  /** No pool is lost, shared between two addresses, or closed twice, in any interleaving. */
  lemma {:induction false} PoolsAreConserved(steps: seq<PoolStep>)
    requires Played(steps).Some?
    ensures Conserved(Played(steps).value)
  {
    if steps != [] {
      PoolsAreConserved(Front(steps));
      StepConserves(Played(Front(steps)).value, Last(steps));
    }
  }

  /** A Get succeeds only at a moment when the pool it returns is attached under its own address. */
  lemma GetReturnsAnAttachedPool(s: Shared, st: PoolStep, k: nat)
    requires CanTake(s, st) && k < |s.calls|
    requires !s.calls[k].Got? && Taken(s, st).calls[k].Got?
    ensures var call := Taken(s, st).calls[k];
      && call.addr == s.calls[k].addr
      && call.addr in Taken(s, st).t.attached && Taken(s, st).t.attached[call.addr] == call.p
  {
  }

  /** Step `n` of the run ends call `k`, with the pool it returns attached. */
  ghost predicate ReturnsAt(steps: seq<PoolStep>, k: nat, n: nat, call: GetCall)
    requires call.Got?
  {
    && 0 < n <= |steps| && Played(steps[..n]).Some? && Played(steps[..n - 1]).Some?
    && var before, after := Played(steps[..n - 1]).value, Played(steps[..n]).value;
    && k < |before.calls| && !before.calls[k].Got?
    && k < |after.calls| && after.calls[k] == call
    && call.addr in after.t.attached && after.t.attached[call.addr] == call.p
  }

  lemma ReturnsEarlier(steps: seq<PoolStep>, k: nat, n: nat, call: GetCall)
    requires steps != [] && call.Got? && ReturnsAt(Front(steps), k, n, call)
    ensures ReturnsAt(steps, k, n, call)
  {
    assert Front(steps)[..n] == steps[..n] && Front(steps)[..n - 1] == steps[..n - 1];
  }

  lemma GotStaysGot(s: Shared, st: PoolStep, k: nat)
    requires CanTake(s, st) && k < |Taken(s, st).calls|
    requires Taken(s, st).calls[k].Got?
    ensures k < |s.calls|
    ensures s.calls[k].Got? ==> Taken(s, st).calls[k] == s.calls[k]
  {
  }

  /** So in every run, some step during each successful call has the returned pool attached. */
  lemma {:induction false} GotPoolsWereAttached(steps: seq<PoolStep>, k: nat)
    requires Played(steps).Some? && k < |Played(steps).value.calls| && Played(steps).value.calls[k].Got?
    ensures exists n :: ReturnsAt(steps, k, n, Played(steps).value.calls[k])
  {
    var before := Played(Front(steps)).value;
    var call := Played(steps).value.calls[k];
    GotStaysGot(before, Last(steps), k);
    if before.calls[k].Got? {
      GotPoolsWereAttached(Front(steps), k);
      var n :| ReturnsAt(Front(steps), k, n, call);
      ReturnsEarlier(steps, k, n, call);
    } else {
      assert steps[..|steps|] == steps && steps[..|steps| - 1] == Front(steps);
      GetReturnsAnAttachedPool(before, Last(steps), k);
      assert ReturnsAt(steps, k, |steps|, call);
    }
  }

  // ----- a drained pool stays out -----

  lemma ClosingGrows(s: Shared, st: PoolStep)
    requires CanTake(s, st)
    ensures s.t.closing <= Taken(s, st).t.closing
  {
  }

  /** A drain leaves nothing under its address, and hands what was there to close. */
  lemma DrainDetaches(s: Shared, addr: Addr)
    ensures var s' := Taken(s, Detach(addr));
      && addr !in s'.t.attached
      && (addr in s.t.attached ==> s.t.attached[addr] in s'.t.closing)
      && (forall a :: a in s.t.attached && a != addr ==> a in s'.t.attached && s'.t.attached[a] == s.t.attached[a])
  {
    if addr in s.t.attached {
      assert Last(Taken(s, Detach(addr)).t.closing) == s.t.attached[addr];
    }
  }

  lemma {:induction false} StaysClosed(steps: seq<PoolStep>, n: nat, p: PoolId)
    requires n <= |steps| && Played(steps).Some?
    requires Played(steps[..n]).Some? ==> p in Played(steps[..n]).value.t.closing
    ensures Played(steps[..n]).Some? && p in Played(steps).value.t.closing
    decreases |steps|
  {
    if n == |steps| {
      assert steps[..n] == steps;
    } else {
      assert Front(steps)[..n] == steps[..n];
      StaysClosed(Front(steps), n, p);
      ClosingGrows(Played(Front(steps)).value, Last(steps));
    }
  }

  /** Once a pool was handed to close it is under no address again, so no later call returns it. */
  lemma DrainedPoolsStayOut(steps: seq<PoolStep>, n: nat, p: PoolId, k: nat, m: nat, call: GetCall)
    requires Played(steps).Some? && n <= |steps|
    requires Played(steps[..n]).Some? ==> p in Played(steps[..n]).value.t.closing
    requires call.Got? && ReturnsAt(steps, k, m, call) && n <= m
    ensures !Attached(Played(steps).value, p) && call.p != p
  {
    StaysClosed(steps, n, p);
    PoolsAreConserved(steps);
    var now := Played(steps[..m]).value;
    assert steps[..m][..n] == steps[..n];
    StaysClosed(steps[..m], n, p);
    PoolsAreConserved(steps[..m]);
    assert Attached(now, call.p) by {
      assert now.t.attached[call.addr] == call.p;
    }
    hide Held, Attached, NoDup;
  }
}
