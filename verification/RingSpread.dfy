/** How shards spread over the ring: every virtual node is hashed from a label of its own. */
module RingSpread {
  import opened Prelude
  import opened ShardMap
  import opened Ring
  import opened RingLaws
  import Sql

  // ----- labels -----

  /** The number after the last '#' and the shard before it can be read off a label. */
  lemma LabelsAreDistinct(id: ShardId, i: nat, id2: ShardId, j: nat)
    ensures id + "#" + Decimal(i) == id2 + "#" + Decimal(j) <==> id == id2 && i == j
  {
    hide Decimal;
    Sql.DecimalReadsBack(i);
    Sql.DecimalReadsBack(j);
    if id + "#" + Decimal(i) == id2 + "#" + Decimal(j) {
      SplitsAtLastMark(id, Decimal(i), id2, Decimal(j));
    }
  }

  lemma LastMark(a: string, d: string)
    requires '#' !in d
    ensures var s := a + "#" + d; s[|a|] == '#' && forall k :: |a| < k < |s| ==> s[k] != '#'
  {
    var s := a + "#" + d;
    forall k | |a| < k < |s| ensures s[k] != '#' {
      assert s[k] == d[k - |a| - 1];
    }
  }

  lemma SplitsAtLastMark(a: string, d: string, b: string, e: string)
    requires '#' !in d && '#' !in e && a + "#" + d == b + "#" + e
    ensures a == b && d == e
  {
    LastMark(a, d);
    LastMark(b, e);
    var s := a + "#" + d;
    assert |a| == |b|;
    assert a == s[..|a|] && b == s[..|b|] && d == s[|a| + 1..] && e == s[|b| + 1..];
  }

  /** Two virtual nodes share a position under every hash only when they are the same one of the same shard. */
  lemma VnodesSeparateExactlyWhen(id: ShardId, i: nat, id2: ShardId, j: nat)
    ensures (exists hash: Hash :: VnodeAt(hash, id, i) != VnodeAt(hash, id2, j)) <==> id != id2 || i != j
  {
    if id != id2 || i != j {
      var mine := id + "#" + Decimal(i);
      var hash: Hash := s => if s == mine then 0 else 1;
      LabelsAreDistinct(id, i, id2, j);
      hide Decimal;
      assert VnodeAt(hash, id, i) == 0 && VnodeAt(hash, id2, j) == 1;
    }
  }

  lemma LabelsSpelledOut(hash: Hash)
    ensures VnodeAt(hash, "s0", 0) == hash("s0#0") && VnodeAt(hash, "s1", 42) == hash("s1#42")
  {
    assert Decimal(0) == "0";
    assert Decimal(42) == "4" + "2" == "42";
    assert "s0" + "#" + "0" == "s0#0" && "s1" + "#" + "42" == "s1#42";
  }

  // ----- positions owned -----

  function Owned(owners: Owners, id: ShardId): set<Pos> {
    set h | h in owners && owners[h] == id
  }

  function Vnodes(hash: Hash, id: ShardId, n: nat): set<Pos> {
    if n == 0 then {} else Vnodes(hash, id, n - 1) + {VnodeAt(hash, id, n - 1)}
  }

  lemma {:induction false} VnodesAre(hash: Hash, id: ShardId, n: nat, h: Pos)
    ensures h in Vnodes(hash, id, n) <==> IsVnode(hash, id, n, h)
  {
    hide VnodeAt;
    if n > 0 {
      VnodesAre(hash, id, n - 1, h);
    }
  }

  ghost predicate OwnApart(hash: Hash, id: ShardId, n: nat) {
    forall i, j :: 0 <= i < j < n ==> VnodeAt(hash, id, i) != VnodeAt(hash, id, j)
  }

  lemma {:induction false} VnodeCount(hash: Hash, id: ShardId, n: nat)
    ensures |Vnodes(hash, id, n)| <= n
    ensures |Vnodes(hash, id, n)| == n <==> OwnApart(hash, id, n)
  {
    hide VnodeAt;
    if n > 0 {
      var h := VnodeAt(hash, id, n - 1);
      VnodeCount(hash, id, n - 1);
      VnodesAre(hash, id, n - 1, h);
      if h in Vnodes(hash, id, n - 1) {
        assert Vnodes(hash, id, n) == Vnodes(hash, id, n - 1);
      }
    }
  }

  /** No two virtual nodes of the listed shards hash to one position. */
  ghost predicate NoCollisions(hash: Hash, ids: seq<ShardId>, n: nat) {
    && (forall id :: id in ids ==> OwnApart(hash, id, n))
    && (forall id, id2, h :: id in ids && id2 in ids && IsVnode(hash, id, n, h) && IsVnode(hash, id2, n, h) ==> id == id2)
  }

  lemma OwnedAreVnodes(hash: Hash, ids: seq<ShardId>, n: nat, id: ShardId)
    requires id in ids
    ensures Owned(Built(hash, ids, n), id) <= Vnodes(hash, id, n)
    ensures NoCollisions(hash, ids, n) ==> Owned(Built(hash, ids, n), id) == Vnodes(hash, id, n)
  {
    hide Built, Vnodes, IsVnode, OwnApart;
    forall h: Pos
      ensures h in Owned(Built(hash, ids, n), id) ==> h in Vnodes(hash, id, n)
      ensures NoCollisions(hash, ids, n) && h in Vnodes(hash, id, n) ==> h in Owned(Built(hash, ids, n), id)
    {
      FirstComerOwns(hash, ids, n, h);
      VnodesAre(hash, id, n, h);
    }
  }

  /** Every listed shard gets its full number of positions exactly when no two virtual nodes collide. */
  lemma FullShareExactlyWhen(hash: Hash, ids: seq<ShardId>, n: nat)
    ensures (forall id :: id in ids ==> |Owned(Built(hash, ids, n), id)| == n) <==> NoCollisions(hash, ids, n)
  {
    hide Built, Vnodes, IsVnode, OwnApart, Owned;
    var owners := Built(hash, ids, n);
    forall id | id in ids
      ensures |Owned(owners, id)| <= n
      ensures |Owned(owners, id)| == n ==> OwnApart(hash, id, n) && Owned(owners, id) == Vnodes(hash, id, n)
      ensures NoCollisions(hash, ids, n) ==> |Owned(owners, id)| == n
    {
      OwnedAreVnodes(hash, ids, n, id);
      VnodeCount(hash, id, n);
      SubsetCount(Owned(owners, id), Vnodes(hash, id, n));
    }
    if forall id :: id in ids ==> |Owned(owners, id)| == n {
      forall id, id2, h | id in ids && id2 in ids && IsVnode(hash, id, n, h) && IsVnode(hash, id2, n, h) ensures id == id2 {
        VnodesAre(hash, id, n, h);
        VnodesAre(hash, id2, n, h);
        OneOwner(owners, id, id2, h);
      }
    }
  }

  lemma OneOwner(owners: Owners, id: ShardId, id2: ShardId, h: Pos)
    requires h in Owned(owners, id) && h in Owned(owners, id2)
    ensures id == id2
  {
  }

  lemma {:induction false} SubsetCount<T>(a: set<T>, b: set<T>)
    requires a <= b
    ensures |a| <= |b| && (|a| == |b| ==> a == b)
  {
    if a != {} {
      var x :| x in a;
      SubsetCount(a - {x}, b - {x});
    } else if b != {} {
      var y :| y in b;
      assert |b| > 0;
    }
  }
}
