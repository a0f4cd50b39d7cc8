/** What consistent hashing promises: exact minimal disruption, round trips, and independence of the order of adding. */
module RingLaws {
  import opened Prelude
  import opened ShardMap
  import opened Ring

  /** `h` is one of the first `n` virtual nodes of `id`. */
  predicate IsVnode(hash: Hash, id: ShardId, n: nat, h: Pos) {
    exists i :: 0 <= i < n && VnodeAt(hash, id, i) == h
  }

  /** Adding fills exactly the free virtual-node positions and never takes an occupied one. */
  lemma {:induction false} AddedFills(hash: Hash, owners: Owners, id: ShardId, n: nat)
    ensures var after := Added(hash, owners, id, n);
      && (forall h :: h in after <==> h in owners || IsVnode(hash, id, n, h))
      && (forall h :: h in owners ==> after[h] == owners[h])
      && (forall h :: h in after && h !in owners ==> after[h] == id)
  {
    if n > 0 {
      AddedFills(hash, owners, id, n - 1);
      var before := Added(hash, owners, id, n - 1);
      var v := VnodeAt(hash, id, n - 1);
      assert IsVnode(hash, id, n, v);
      forall h ensures IsVnode(hash, id, n, h) <==> IsVnode(hash, id, n - 1, h) || h == v {
        if IsVnode(hash, id, n - 1, h) {
          var i :| 0 <= i < n - 1 && VnodeAt(hash, id, i) == h;
          assert 0 <= i < n;
        }
      }
    }
  }

  /** Adding a shard again changes nothing. */
  lemma AddingTwiceIsAddingOnce(hash: Hash, owners: Owners, id: ShardId, n: nat)
    ensures Added(hash, Added(hash, owners, id, n), id, n) == Added(hash, owners, id, n)
  {
    AddedFills(hash, owners, id, n);
    AddedFills(hash, Added(hash, owners, id, n), id, n);
  }

  // ----- the next occupied position -----

  lemma AheadIsInjective(h: Pos, p: Pos, q: Pos)
    ensures Ahead(h, p) == Ahead(h, q) <==> p == q
  {
  }

  lemma NextIsUnique(owners: Owners, h: Pos, p: Pos, q: Pos)
    requires IsNext(owners, h, p) && IsNext(owners, h, q)
    ensures p == q
  {
    AheadIsInjective(h, p, q);
  }

  /** The clockwise rule, unrolled: the least position at or above the hash, else the least of all. */
  lemma NextIsLeastAtOrAbove(owners: Owners, h: Pos, p: Pos)
    requires p in owners
    ensures IsNext(owners, h, p) <==>
      if exists q :: q in owners && q >= h then p >= h && forall q :: q in owners && q >= h ==> p <= q
      else forall q :: q in owners ==> p <= q
  {
    if q0 :| q0 in owners && q0 >= h {
      assert forall q :: q in owners && q < h ==> Ahead(h, q) > Ahead(h, q0);
    }
  }

  /** Lookup fails only on an empty ring, and never gives two answers. */
  lemma {:induction false} EveryKeyHasOneOwner(owners: Owners, h: Pos)
    ensures owners != map[] ==> exists p :: IsNext(owners, h, p)
    ensures forall id, id2 :: Owns(owners, h, id) && Owns(owners, h, id2) ==> id == id2
    decreases |owners|
  {
    forall id, id2 | Owns(owners, h, id) && Owns(owners, h, id2) ensures id == id2 {
      var p :| IsNext(owners, h, p) && owners[p] == id;
      var q :| IsNext(owners, h, q) && owners[q] == id2;
      NextIsUnique(owners, h, p, q);
    }
    if owners != map[] {
      assert owners.Keys != {};
      var p :| p in owners;
      var rest := owners - {p};
      assert rest.Keys == owners.Keys - {p};
      if rest == map[] {
        assert forall q :: q in owners ==> q == p by {
          forall q | q in owners ensures q == p {
            assert q in rest || q == p;
          }
        }
        assert IsNext(owners, h, p);
      } else {
        assert |rest.Keys| < |owners.Keys|;
        EveryKeyHasOneOwner(rest, h);
        var q :| IsNext(rest, h, q);
        var best := if Ahead(h, p) <= Ahead(h, q) then p else q;
        assert IsNext(owners, h, best);
      }
    }
  }

  // ----- minimal disruption -----

  /**
   * After adding `id`, a key's position moves exactly when a newly placed virtual node lies clockwise of the
   * key before its old successor, and then the key belongs to `id`; every other key keeps its owner.
   */
  lemma AddMovesKeysOnlyToTheNewShard(hash: Hash, owners: Owners, id: ShardId, n: nat, h: Pos, p: Pos, p': Pos)
    requires IsNext(owners, h, p) && IsNext(Added(hash, owners, id, n), h, p')
    ensures var after := Added(hash, owners, id, n);
      && (p' != p <==> exists v :: IsVnode(hash, id, n, v) && v !in owners && Ahead(h, v) < Ahead(h, p))
      && (p' != p ==> after[p'] == id && IsVnode(hash, id, n, p') && p' !in owners)
      && (after[p'] != owners[p] ==> after[p'] == id && p' != p)
  {
    AddedFills(hash, owners, id, n);
    if p' == p {
      assert forall v :: IsVnode(hash, id, n, v) ==> Ahead(h, p) <= Ahead(h, v);
    } else {
      assert p' !in owners || Ahead(h, p) <= Ahead(h, p');
      AheadIsInjective(h, p, p');
      assert p' !in owners;
      assert IsVnode(hash, id, n, p') && Ahead(h, p') < Ahead(h, p);
    }
  }

  /** After removing `id`, a key not its own stays put, and each of its own goes to the next position of another shard. */
  lemma RemoveMovesOnlyItsOwnKeys(owners: Owners, id: ShardId, h: Pos, p: Pos, p': Pos)
    requires IsNext(owners, h, p) && IsNext(Removed(owners, id), h, p')
    ensures owners[p] != id ==> p' == p && Removed(owners, id)[p'] == owners[p]
    ensures owners[p] == id ==>
      && p' in owners && owners[p'] != id && Removed(owners, id)[p'] == owners[p']
      && forall q :: q in owners && owners[q] != id ==> Ahead(h, p') <= Ahead(h, q)
  {
    if owners[p] != id {
      assert p in Removed(owners, id);
      assert IsNext(Removed(owners, id), h, p);
      NextIsUnique(Removed(owners, id), h, p, p');
    }
    assert forall q :: q in owners && owners[q] != id ==> q in Removed(owners, id);
  }

  // ----- round trip -----

  lemma SliceIsDetermined(s: seq<Pos>, t: seq<Pos>, owners: Owners)
    requires Agree(s, owners) && Agree(t, owners)
    ensures s == t
  {
    SameElemsSameSlice(s, t);
  }

  lemma {:induction false} SameElemsSameSlice(s: seq<Pos>, t: seq<Pos>)
    requires Increasing(s) && Increasing(t)
    requires forall h :: h in s <==> h in t
    ensures s == t
  {
    assert t != [] ==> Last(t) in t;
    if s != [] {
      assert Last(s) in t;
      assert Last(t) in s;
      LastIsGreatest(s, Last(t));
      LastIsGreatest(t, Last(s));
      forall h ensures h in Front(s) <==> h in Front(t) {
        InFront(s, h);
        InFront(t, h);
      }
      SameElemsSameSlice(Front(s), Front(t));
      assert s == Front(s) + [Last(s)] && t == Front(t) + [Last(t)];
    }
  }

  lemma LastIsGreatest(s: seq<Pos>, h: Pos)
    requires Increasing(s) && h in s
    ensures h <= Last(s)
  {
    var i :| 0 <= i < |s| && s[i] == h;
    assert i < |s| - 1 ==> s[i] < s[|s| - 1];
  }

  lemma InFront(s: seq<Pos>, h: Pos)
    requires Increasing(s) && s != []
    ensures h in Front(s) <==> h in s && h != Last(s)
  {
    assert s == Front(s) + [Last(s)];
    if h in Front(s) {
      var i :| 0 <= i < |Front(s)| && Front(s)[i] == h;
      assert s[i] < s[|s| - 1];
    }
  }

  /** Adding a shard the ring did not have and removing it again restores the map and the slice exactly. */
  lemma AddThenRemoveRestores(hash: Hash, owners: Owners, id: ShardId, n: nat, s: seq<Pos>, s': seq<Pos>)
    requires forall h :: h in owners ==> owners[h] != id
    requires Agree(s, owners) && Agree(s', Removed(Added(hash, owners, id, n), id))
    ensures Removed(Added(hash, owners, id, n), id) == owners && s' == s
  {
    AddedFills(hash, owners, id, n);
    assert Removed(Added(hash, owners, id, n), id) == owners;
    SliceIsDetermined(s, s', owners);
  }

  // ----- order independence -----

  /** The ring built from empty by adding shards in the given order. */
  function Built(hash: Hash, ids: seq<ShardId>, n: nat): Owners {
    if ids == [] then map[] else Added(hash, Built(hash, Front(ids), n), Last(ids), n)
  }

  /** A position is occupied exactly when some shard hashes there, and the first such shard owns it. */
  lemma {:induction false} FirstComerOwns(hash: Hash, ids: seq<ShardId>, n: nat, h: Pos)
    ensures h in Built(hash, ids, n) <==> exists id :: id in ids && IsVnode(hash, id, n, h)
    ensures h in Built(hash, ids, n) ==>
      exists k :: 0 <= k < |ids| && Built(hash, ids, n)[h] == ids[k] && IsVnode(hash, ids[k], n, h)
        && forall j :: 0 <= j < k ==> !IsVnode(hash, ids[j], n, h)
  {
    if ids != [] {
      var before := Built(hash, Front(ids), n);
      FirstComerOwns(hash, Front(ids), n, h);
      AddedFills(hash, before, Last(ids), n);
      assert ids == Front(ids) + [Last(ids)];
      if h in before {
        var k :| 0 <= k < |Front(ids)| && before[h] == Front(ids)[k] && IsVnode(hash, Front(ids)[k], n, h)
          && forall j :: 0 <= j < k ==> !IsVnode(hash, Front(ids)[j], n, h);
        assert ids[k] == Front(ids)[k];
        assert forall j :: 0 <= j < k ==> Front(ids)[j] == ids[j];
      } else {
        assert forall j :: 0 <= j < |ids| - 1 ==> ids[j] in Front(ids);
        assert ids[|ids| - 1] == Last(ids);
      }
    }
  }

  /** Two orders of adding the same shards occupy the same positions; owners differ only where two shards collide. */
  lemma OrderMattersOnlyAtCollisions(hash: Hash, ids: seq<ShardId>, ids2: seq<ShardId>, n: nat, h: Pos)
    requires forall id :: id in ids <==> id in ids2
    ensures h in Built(hash, ids, n) <==> h in Built(hash, ids2, n)
    ensures h in Built(hash, ids, n) ==>
      var a, b := Built(hash, ids, n)[h], Built(hash, ids2, n)[h];
      a != b ==> a in ids && b in ids && IsVnode(hash, a, n, h) && IsVnode(hash, b, n, h)
  {
    FirstComerOwns(hash, ids, n, h);
    FirstComerOwns(hash, ids2, n, h);
  }
}
