/** Identifier generation and key enumeration shared by the two in-memory stores. */
module Identifiers {

  /** Some element of a non-empty set. */
  lemma PickOne(s: set<int>) returns (x: int)
    requires s != {}
    ensures x in s
  {
    if forall y :: y !in s { assert false; }
    x :| x in s;
  }

  /** Every finite, non-empty set of integers has a largest element. */
  lemma {:induction false} MaxExists(s: set<int>)
    requires s != {}
    ensures exists m :: m in s && forall k :: k in s ==> k <= m
  {
    var x := PickOne(s);
    if s == {x} {
      assert forall k :: k in s ==> k <= x;
    } else {
      MaxExists(s - {x});
      var m :| m in s - {x} && forall k :: k in s - {x} ==> k <= m;
      var top := if x > m then x else m;
      forall k | k in s ensures k <= top {
        if k != x { assert k in s - {x}; }
      }
    }
  }

  /** Every finite, non-empty set of integers has a smallest element. */
  lemma {:induction false} MinExists(s: set<int>)
    requires s != {}
    ensures exists m :: m in s && forall k :: k in s ==> m <= k
  {
    var x := PickOne(s);
    if s == {x} {
      assert forall k :: k in s ==> x <= k;
    } else {
      MinExists(s - {x});
      var m :| m in s - {x} && forall k :: k in s - {x} ==> m <= k;
      var bottom := if x < m then x else m;
      forall k | k in s ensures bottom <= k {
        if k != x { assert k in s - {x}; }
      }
    }
  }

  /** The largest key of a non-empty key set (the stream's `max()`). */
  function MaxKey(s: set<int>): (m: int)
    requires s != {}
    ensures m in s
    ensures forall k :: k in s ==> k <= m
  {
    MaxExists(s);
    var m :| m in s && forall k :: k in s ==> k <= m;
    m
  }

  /** The smallest element of a non-empty key set. */
  function MinKey(s: set<int>): (m: int)
    requires s != {}
    ensures m in s
    ensures forall k :: k in s ==> m <= k
  {
    MinExists(s);
    var m :| m in s && forall k :: k in s ==> m <= k;
    m
  }

  /** `getNextId`: the largest key plus one, or 1 when there are no keys
      (`max().orElse(0)` followed by a pre-increment). */
  function NextId(keys: set<int>): (id: int)
    ensures keys == {} ==> id == 1
    ensures keys != {} ==> id - 1 in keys
    ensures forall k :: k in keys ==> k < id
    ensures id !in keys
  {
    if keys == {} then 1 else MaxKey(keys) + 1
  }

  /** On the key set 1..n the next id is n + 1. */
  lemma NextIdOfRange(keys: set<int>, n: nat)
    requires forall k :: k in keys <==> 1 <= k <= n
    ensures NextId(keys) == n + 1
  {
    if n > 0 {
      assert n in keys;
      assert NextId(keys) - 1 in keys;
    }
  }

  /** The elements of a key set in ascending order. Hash-map and hash-set
      iteration order is unspecified in the source; this model fixes it as
      ascending order. */
  function Ascending(s: set<int>): (r: seq<int>)
    ensures |r| == |s|
    ensures forall i :: 0 <= i < |r| ==> r[i] in s
    ensures forall k :: k in s ==> k in r
    ensures forall i, j :: 0 <= i < j < |r| ==> r[i] < r[j]
    decreases |s|
  {
    if s == {} then []
    else
      var m := MinKey(s);
      var rest := Ascending(s - {m});
      MinBeforeRest(s, m, rest);
      [m] + rest
  }

  /** The smallest element in front of the ascending rest is ascending and
      lists the whole set. */
  lemma MinBeforeRest(s: set<int>, m: int, rest: seq<int>)
    requires m in s && forall k :: k in s ==> m <= k
    requires forall i :: 0 <= i < |rest| ==> rest[i] in s - {m}
    requires forall k :: k in s - {m} ==> k in rest
    requires forall i, j :: 0 <= i < j < |rest| ==> rest[i] < rest[j]
    ensures forall i :: 0 <= i < |[m] + rest| ==> ([m] + rest)[i] in s
    ensures forall k :: k in s ==> k in [m] + rest
    ensures forall i, j :: 0 <= i < j < |[m] + rest| ==> ([m] + rest)[i] < ([m] + rest)[j]
  {
    var r := [m] + rest;
    forall i | 0 <= i < |r| ensures r[i] in s {
      if i > 0 { assert r[i] == rest[i - 1]; }
    }
    forall k | k in s ensures k in r {
      if k != m {
        assert k in s - {m};
        var i :| 0 <= i < |rest| && rest[i] == k;
        assert r[i + 1] == k;
      }
    }
    forall i, j | 0 <= i < j < |r| ensures r[i] < r[j] {
      assert r[j] == rest[j - 1];
      assert rest[j - 1] in s - {m};
      if i > 0 { assert r[i] == rest[i - 1]; }
    }
  }

  /** `values()` of a map keyed by identifier: one entry per key, in key order. */
  function ValuesByKey<V>(m: map<int, V>): (r: seq<V>)
    ensures |r| == |m|
  {
    var ks := Ascending(m.Keys);
    assert |ks| == |m.Keys| == |m|;
    EntriesAt(m, ks)
  }

  /** The entries of `m` under the keys `ks`, in the order of `ks`. */
  function EntriesAt<V>(m: map<int, V>, ks: seq<int>): (r: seq<V>)
    requires forall i :: 0 <= i < |ks| ==> ks[i] in m
    ensures |r| == |ks|
    ensures forall i :: 0 <= i < |ks| ==> r[i] == m[ks[i]]
  {
    if ks == [] then [] else [m[ks[0]]] + EntriesAt(m, ks[1..])
  }

  /** `r` lists the entries of `m` one per key, in ascending key order:
      position `i` holds the entry under the `i`-th smallest key, and every
      key's entry occurs. */
  ghost predicate ListsByKey<V>(m: map<int, V>, r: seq<V>) {
    && |r| == |m| == |Ascending(m.Keys)|
    && (forall i :: 0 <= i < |r| ==> Ascending(m.Keys)[i] in m && r[i] == m[Ascending(m.Keys)[i]])
    && (forall k :: k in m ==> m[k] in r)
  }

  /** `ValuesByKey(m)` holds exactly the stored entries. */
  lemma ValuesByKeyContents<V>(m: map<int, V>)
    ensures ListsByKey(m, ValuesByKey(m))
  {
    var ks, r := Ascending(m.Keys), ValuesByKey(m);
    forall k | k in m ensures m[k] in r {
      assert k in m.Keys;
      assert k in ks;
      var i := IndexOf(ks, k);
      assert r[i] == m[ks[i]];
    }
  }

  /** Every element of `ValuesByKey(m)` is the entry under some key. */
  lemma ListedIsStored<V>(m: map<int, V>, x: V) returns (k: int)
    requires x in ValuesByKey(m)
    ensures k in m && m[k] == x
  {
    var ks, r := Ascending(m.Keys), ValuesByKey(m);
    var i :| 0 <= i < |r| && r[i] == x;
    k := ks[i];
  }

  /** The first position of `k` in a sequence that contains it. */
  function IndexOf(s: seq<int>, k: int): (i: nat)
    requires k in s
    ensures i < |s| && s[i] == k
  {
    if s[0] == k then 0 else 1 + IndexOf(s[1..], k)
  }
}
