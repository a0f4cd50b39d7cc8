/** Shared value types and a few facts about sequences. */
module Prelude {
  datatype Option<+T> = None | Some(value: T)

  datatype Result<+T, +E> = Ok(value: T) | Err(error: E)

  predicate NoDup<T(==)>(s: seq<T>) {
    forall i, j :: 0 <= i < j < |s| ==> s[i] != s[j]
  }

  function Elems<T(==)>(s: seq<T>): set<T> {
    set x | x in s
  }

  function RemoveAt<T>(s: seq<T>, i: nat): seq<T>
    requires i < |s|
  {
    s[..i] + s[i + 1..]
  }

  function Last<T>(s: seq<T>): T
    requires s != []
  {
    s[|s| - 1]
  }

  function Front<T>(s: seq<T>): seq<T>
    requires s != []
  {
    s[..|s| - 1]
  }

  lemma NoDupCons<T>(x: T, s: seq<T>)
    ensures NoDup([x] + s) <==> x !in s && NoDup(s)
    ensures Elems([x] + s) == {x} + Elems(s)
  {
    var t := [x] + s;
    forall i | 0 <= i < |s| ensures t[i + 1] == s[i] {}
    assert t[0] == x;
    if NoDup(t) {
      forall i | 0 <= i < |s| ensures s[i] != x {
        assert t[0] != t[i + 1];
      }
      forall i, j | 0 <= i < j < |s| ensures s[i] != s[j] {
        assert t[i + 1] != t[j + 1];
      }
    }
  }

  lemma MultisetOfSplit<T>(s: seq<T>, i: nat)
    requires i < |s|
    ensures multiset(s) == multiset{s[i]} + multiset(RemoveAt(s, i))
  {
    assert s == s[..i] + [s[i]] + s[i + 1..];
  }

  lemma NoDupCounts<T>(s: seq<T>, x: T)
    requires NoDup(s)
    ensures multiset(s)[x] <= 1
  {
    if s != [] {
      assert s == Front(s) + [Last(s)];
      NoDupCounts(Front(s), x);
      if x == Last(s) {
        assert x !in Front(s);
      }
    }
  }

  /** Any sequence drawn from a duplicate-free one, counting multiplicity, is duplicate-free. */
  lemma NoDupOfSubMultiset<T>(s: seq<T>, whole: seq<T>)
    requires NoDup(whole)
    requires multiset(s) <= multiset(whole)
    ensures NoDup(s)
  {
    forall i, j | 0 <= i < j < |s| ensures s[i] != s[j] {
      if s[i] == s[j] {
        MultisetOfSplit(s, j);
        assert RemoveAt(s, j)[i] == s[i];
        assert multiset(s)[s[i]] >= 2;
        NoDupCounts(whole, s[i]);
      }
    }
  }
}
