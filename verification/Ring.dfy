/** The consistent-hash ring: a sorted slice of virtual-node positions over a growable buffer, and their owners. */
module Ring {
  import opened Prelude
  import opened ShardMap

  const POSITIONS: nat := 0x1_0000_0000

  /** A position on the ring: an unsigned 32-bit hash. */
  type Pos = p: nat | p < POSITIONS

  /** Any function will do: collisions are allowed. */
  type Hash = string -> Pos

  type Owners = map<Pos, ShardId>

  const DEFAULT_VNODES: nat := 100

  function Decimal(n: nat): string {
    if n < 10 then ["0123456789"[n]] else Decimal(n / 10) + ["0123456789"[n % 10]]
  }

  /** Where the shard's i-th virtual node hashes to. */
  function VnodeAt(hash: Hash, id: ShardId, i: nat): Pos {
    hash(id + "#" + Decimal(i))
  }

  /** The owners after the first `n` virtual nodes of `id` are placed; a taken position is left alone. */
  function Added(hash: Hash, owners: Owners, id: ShardId, n: nat): Owners {
    if n == 0 then owners
    else
      var before := Added(hash, owners, id, n - 1);
      var h := VnodeAt(hash, id, n - 1);
      if h in before then before else before[h := id]
  }

  function Removed(owners: Owners, id: ShardId): Owners {
    map h | h in owners && owners[h] != id :: owners[h]
  }

  predicate Increasing(s: seq<Pos>) {
    forall i, j :: 0 <= i < j < |s| ==> s[i] < s[j]
  }

  /** Steps clockwise from `h` to `p`, wrapping past the highest position. */
  function Ahead(h: Pos, p: Pos): nat {
    if p >= h then p - h else p + POSITIONS - h
  }

  /** `p` is the first occupied position at or clockwise of `h`. */
  ghost predicate IsNext(owners: Owners, h: Pos, p: Pos) {
    p in owners && forall q :: q in owners ==> Ahead(h, p) <= Ahead(h, q)
  }

  /** `id` owns whatever hashes to `h`. */
  ghost predicate Owns(owners: Owners, h: Pos, id: ShardId) {
    exists p :: IsNext(owners, h, p) && owners[p] == id
  }

  /** Inserting into a sorted run by shifting the greater elements up. */
  function Inserted(s: seq<Pos>, x: Pos): seq<Pos> {
    if s == [] || Last(s) <= x then s + [x] else Inserted(Front(s), x) + [Last(s)]
  }

  function InsertionSorted(s: seq<Pos>): seq<Pos> {
    if s == [] then [] else Inserted(InsertionSorted(Front(s)), Last(s))
  }

  lemma {:induction false} InsertedElems(s: seq<Pos>, x: Pos)
    ensures forall y :: y in Inserted(s, x) <==> y in s || y == x
  {
    if s != [] && Last(s) > x {
      InsertedElems(Front(s), x);
      assert s == Front(s) + [Last(s)];
    }
  }

  lemma {:induction false} InsertedKeepsOrder(s: seq<Pos>, x: Pos)
    requires Increasing(s) && x !in s
    ensures Increasing(Inserted(s, x))
  {
    if s != [] && Last(s) > x {
      var rest := Inserted(Front(s), x);
      InsertedKeepsOrder(Front(s), x);
      InsertedElems(Front(s), x);
      forall i | 0 <= i < |rest| ensures rest[i] < Last(s) {
        assert rest[i] in rest;
      }
    }
  }

  lemma {:induction false} InsertionSortSorts(s: seq<Pos>)
    requires NoDup(s)
    ensures Increasing(InsertionSorted(s))
    ensures forall y :: y in InsertionSorted(s) <==> y in s
  {
    if s != [] {
      InsertionSortSorts(Front(s));
      assert s == Front(s) + [Last(s)];
      assert Last(s) !in Front(s);
      InsertedElems(InsertionSorted(Front(s)), Last(s));
      InsertedKeepsOrder(InsertionSorted(Front(s)), Last(s));
    }
  }

  /** Where the shifting stops. */
  lemma {:induction false} InsertedAt(s: seq<Pos>, x: Pos, j: nat)
    requires j <= |s|
    requires j > 0 ==> s[j - 1] <= x
    requires forall k :: j <= k < |s| ==> s[k] > x
    ensures Inserted(s, x) == s[..j] + [x] + s[j..]
  {
    if j < |s| {
      InsertedAt(Front(s), x, j);
      assert Front(s)[..j] == s[..j];
      assert s[j..] == Front(s)[j..] + [Last(s)];
    } else {
      assert s[..j] == s && s[j..] == [];
    }
  }

  method InsertBack(a: array<Pos>, i: nat)
    requires i < a.Length
    modifies a
    ensures a[..i + 1] == Inserted(old(a[..i]), old(a[i]))
    ensures a[i + 1..] == old(a[i + 1..])
  {
    var x, j := a[i], i;
    ghost var s := a[..i];
    while j > 0 && a[j - 1] > x
      invariant 0 <= j <= i
      invariant forall k :: 0 <= k < j ==> a[k] == s[k]
      invariant forall k :: j <= k < i ==> s[k] > x
      invariant forall k :: j < k <= i ==> a[k] == s[k - 1]
      invariant forall k :: i < k < a.Length ==> a[k] == old(a[k])
    {
      a[j] := a[j - 1];
      j := j - 1;
    }
    a[j] := x;
    InsertedAt(s, x, j);
    assert a[..i + 1] == s[..j] + [x] + s[j..];
  }

  method SortPrefix(a: array<Pos>, n: nat)
    requires n <= a.Length
    modifies a
    ensures a[..n] == InsertionSorted(old(a[..n]))
  {
    ghost var s := a[..n];
    for i := 0 to n
      invariant a[..i] == InsertionSorted(s[..i])
      invariant forall k :: i <= k < n ==> a[k] == s[k]
    {
      assert Front(s[..i + 1]) == s[..i];
      ghost var tail := a[i + 1..];
      InsertBack(a, i);
      forall k | i < k < n ensures a[k] == s[k] {
        assert a[k] == a[i + 1..][k - i - 1] == tail[k - i - 1];
      }
    }
    assert s[..n] == s;
  }

  /** The slice a removal keeps. */
  function Kept(s: seq<Pos>, owners: Owners, id: ShardId): seq<Pos> {
    if s == [] then []
    else if Last(s) in owners && owners[Last(s)] == id then Kept(Front(s), owners, id)
    else Kept(Front(s), owners, id) + [Last(s)]
  }

  lemma {:induction false} KeptElems(s: seq<Pos>, owners: Owners, id: ShardId)
    ensures forall h :: h in Kept(s, owners, id) <==> h in s && !(h in owners && owners[h] == id)
  {
    if s != [] {
      KeptElems(Front(s), owners, id);
      assert s == Front(s) + [Last(s)];
    }
  }

  lemma {:induction false} KeptOrder(s: seq<Pos>, owners: Owners, id: ShardId)
    requires Increasing(s)
    ensures Increasing(Kept(s, owners, id))
  {
    if s != [] {
      KeptOrder(Front(s), owners, id);
      KeptElems(Front(s), owners, id);
      var rest := Kept(Front(s), owners, id);
      forall i | 0 <= i < |rest| ensures rest[i] < Last(s) {
        assert rest[i] in Front(s);
      }
    }
  }

  /** The map once the removal has passed over the positions `s`. */
  function Dropped(s: seq<Pos>, owners: Owners, id: ShardId): Owners {
    if s == [] then owners
    else
      var before := Dropped(Front(s), owners, id);
      if Last(s) in before && before[Last(s)] == id then before - {Last(s)} else before
  }

  lemma {:induction false} DroppedSoFar(s: seq<Pos>, owners: Owners, id: ShardId)
    ensures var m := Dropped(s, owners, id);
      && (forall h :: h in m <==> h in owners && !(owners[h] == id && h in s))
      && (forall h :: h in m ==> m[h] == owners[h])
  {
    if s != [] {
      DroppedSoFar(Front(s), owners, id);
      assert s == Front(s) + [Last(s)];
    }
  }

  /** The owner found for the next position is still the one the map had at the start. */
  lemma LookAt(s: seq<Pos>, i: nat, owners: Owners, id: ShardId)
    requires i < |s| && Agree(s, owners)
    ensures s[i] in owners
    ensures Front(s[..i + 1]) == s[..i] && Last(s[..i + 1]) == s[i]
    ensures s[i] in Dropped(s[..i], owners, id) && Dropped(s[..i], owners, id)[s[i]] == owners[s[i]]
  {
    DroppedSoFar(s[..i], owners, id);
    assert s[i] !in s[..i];
  }

  lemma DroppedAll(s: seq<Pos>, owners: Owners, id: ShardId)
    requires forall h :: h in owners ==> h in s
    ensures Dropped(s, owners, id) == Removed(owners, id)
  {
    DroppedSoFar(s, owners, id);
  }

  /** The slice and the map describe the same ring. */
  ghost predicate Agree(s: seq<Pos>, owners: Owners) {
    Increasing(s) && forall h :: h in s <==> h in owners
  }

  lemma RemovalAgrees(s: seq<Pos>, owners: Owners, id: ShardId)
    requires Agree(s, owners)
    ensures Agree(Kept(s, owners, id), Removed(owners, id))
    ensures Dropped(s, owners, id) == Removed(owners, id)
  {
    KeptElems(s, owners, id);
    KeptOrder(s, owners, id);
    DroppedAll(s, owners, id);
  }

  class Ring {
    const vnodes: nat
    const hash: Hash
    var buf: array<Pos>
    var len: nat
    var hashToShard: Owners

    ghost predicate Valid()
      reads this, buf
    {
      len <= buf.Length && Agree(Slice(), hashToShard)
    }

    ghost function Slice(): seq<Pos>
      reads this, buf
      requires len <= buf.Length
    {
      buf[..len]
    }

    constructor (vnodesPerShard: int, hash: Hash)
      ensures Valid() && fresh(buf) && hashToShard == map[] && this.hash == hash
      ensures vnodes == if vnodesPerShard <= 0 then 100 else vnodesPerShard
    {
      this.vnodes := if vnodesPerShard <= 0 then DEFAULT_VNODES else vnodesPerShard;
      this.hash := hash;
      buf := new Pos[0];
      len, hashToShard := 0, map[];
    }

    /** Go's append: in place while there is room, else into a larger buffer. */
    method Append(h: Pos)
      requires len <= buf.Length
      modifies this`buf, this`len, buf
      ensures len <= buf.Length && Slice() == old(Slice()) + [h]
      ensures buf == old(buf) || fresh(buf)
    {
      if len == buf.Length {
        var n := len;
        var bigger := new Pos[2 * n + 1](_ => 0);
        for i := 0 to n
          invariant len == n == buf.Length && buf == old(buf) && buf[..] == old(buf[..])
          invariant forall k :: 0 <= k < i ==> bigger[k] == buf[k]
        {
          bigger[i] := buf[i];
        }
        buf := bigger;
      }
      buf[len] := h;
      len := len + 1;
    }

    method AddShard(shardId: ShardId)
      requires Valid()
      modifies this`buf, this`len, this`hashToShard, buf
      ensures Valid() && (buf == old(buf) || fresh(buf))
      ensures hashToShard == Added(hash, old(hashToShard), shardId, vnodes)
    {
      for i := 0 to vnodes
        invariant len <= buf.Length && (buf == old(buf) || fresh(buf))
        invariant hashToShard == Added(hash, old(hashToShard), shardId, i)
        invariant NoDup(Slice())
        invariant forall h :: h in Slice() <==> h in hashToShard
      {
        var h := VnodeAt(hash, shardId, i);
        if h !in hashToShard {
          hashToShard := hashToShard[h := shardId];
          Append(h);
        }
      }
      InsertionSortSorts(Slice());
      SortPrefix(buf, len);
    }

    method RemoveShard(shardId: ShardId)
      requires Valid()
      modifies this`len, this`hashToShard, buf
      ensures Valid() && buf == old(buf)
      ensures hashToShard == Removed(old(hashToShard), shardId)
    {
      hide Agree;
      ghost var s, owners := Slice(), hashToShard;
      var kept, n := 0, len;
      for i := 0 to n
        invariant kept <= i && len == n
        invariant buf[..kept] == Kept(s[..i], owners, shardId)
        invariant forall k :: i <= k < n ==> buf[k] == s[k]
        invariant hashToShard == Dropped(s[..i], owners, shardId)
      {
        var h := buf[i];
        LookAt(s, i, owners, shardId);
        if hashToShard[h] == shardId {
          hashToShard := hashToShard - {h};
        } else {
          buf[kept] := h;
          kept := kept + 1;
        }
      }
      assert s[..n] == s;
      RemovalAgrees(s, owners, shardId);
      len := kept;
    }

    method ShardFor(shardKey: string) returns (r: Option<ShardId>)
      requires Valid()
      ensures r.None? <==> hashToShard == map[]
      ensures r.Some? ==> Owns(hashToShard, hash(shardKey), r.value)
    {
      if len == 0 {
        assert Slice() == [];
        assert hashToShard.Keys == {};
        return None;
      }
      var h := hash(shardKey);
      var lo, hi := 0, len;
      while lo < hi
        invariant 0 <= lo <= hi <= len
        invariant forall k :: 0 <= k < lo ==> buf[k] < h
        invariant forall k :: hi <= k < len ==> buf[k] >= h
      {
        var mid := lo + (hi - lo) / 2;
        if buf[mid] >= h {
          hi := mid;
        } else {
          lo := mid + 1;
        }
      }
      var idx := if lo == len then 0 else lo;
      assert buf[idx] in Slice();
      forall q | q in hashToShard ensures Ahead(h, buf[idx]) <= Ahead(h, q) {
        var k :| 0 <= k < len && Slice()[k] == q;
      }
      assert IsNext(hashToShard, h, buf[idx]);
      r := Some(hashToShard[buf[idx]]);
    }
  }
}
