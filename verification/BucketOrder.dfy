/** Sorting a map of buckets by their times. */
module BucketOrder {
  import MapSums
  import opened MinuteBuckets

  predicate Increasing(s: seq<Bucket>) {
    forall i, j :: 0 <= i < j < |s| ==> s[i].timestamp < s[j].timestamp
  }

  ghost predicate DistinctTimes(m: map<int, Bucket>) {
    forall k, l :: k in m && l in m && m[k].timestamp == m[l].timestamp ==> k == l
  }

  ghost predicate Holds(s: seq<Bucket>, m: map<int, Bucket>, keys: set<int>)
    requires keys <= m.Keys
  {
    (forall k :: k in keys ==> m[k] in s) && (forall b :: b in s ==> exists k :: k in keys && m[k] == b)
  }

  /** There is only one way to sort. */
  lemma {:induction false} SortingIsUnique(s: seq<Bucket>, t: seq<Bucket>)
    requires Increasing(s) && Increasing(t) && forall b :: b in s <==> b in t
    ensures s == t
  {
    assert t != [] ==> t[0] in t;
    if s != [] {
      var x := s[|s| - 1];
      assert x in s && x in t;
      var y := t[|t| - 1];
      assert y in t && y in s;
      assert x == y;
      var s', t' := s[..|s| - 1], t[..|t| - 1];
      forall b ensures b in s' <==> b in t' {
        LastIsLatest(s, b);
        LastIsLatest(t, b);
      }
      SortingIsUnique(s', t');
    }
  }

  lemma LastIsLatest(s: seq<Bucket>, b: Bucket)
    requires Increasing(s) && s != []
    ensures b in s[..|s| - 1] <==> b in s && b != s[|s| - 1]
  {
    if b in s && b != s[|s| - 1] {
      var i :| 0 <= i < |s| && s[i] == b;
      assert s[..|s| - 1][i] == b;
    }
  }

  /** Walking down from any bucket ends at an earliest one. */
  lemma {:induction false} EarliestExists(m: map<int, Bucket>, keys: set<int>, some: int) returns (k: int)
    requires some in keys && keys <= m.Keys
    ensures k in keys && m[k].timestamp <= m[some].timestamp
    ensures forall l :: l in keys ==> m[k].timestamp <= m[l].timestamp
    decreases keys
  {
    k := some;
    if l :| l in keys && m[l].timestamp < m[some].timestamp {
      k := EarliestExists(m, keys - {some}, l);
    }
  }

  /** `s` is the buckets outside `todo`, sorted, all of them earlier than those in `todo`. */
  ghost predicate SortedSoFar(s: seq<Bucket>, m: map<int, Bucket>, todo: set<int>)
    requires todo <= m.Keys
  {
    Increasing(s) && Holds(s, m, m.Keys - todo)
    && forall b, k :: b in s && k in todo ==> b.timestamp < m[k].timestamp
  }

  lemma EarliestGoesNext(s: seq<Bucket>, m: map<int, Bucket>, todo: set<int>, k: int)
    requires DistinctTimes(m) && todo <= m.Keys && SortedSoFar(s, m, todo)
    requires k in todo && forall l :: l in todo ==> m[k].timestamp <= m[l].timestamp
    ensures SortedSoFar(s + [m[k]], m, todo - {k})
  {
    var s', rest := s + [m[k]], todo - {k};
    forall i, j | 0 <= i < j < |s'| ensures s'[i].timestamp < s'[j].timestamp {
      if j == |s| { assert s[i] in s; }
    }
    forall b | b in s' ensures exists l :: l in m.Keys - rest && m[l] == b {
      if b in s {
        var l :| l in m.Keys - todo && m[l] == b;
        assert l in m.Keys - rest;
      } else {
        assert k in m.Keys - rest && m[k] == b;
      }
    }
    forall l | l in m.Keys - rest ensures m[l] in s' {
      if l != k { assert l in m.Keys - todo && m[l] in s; }
    }
    forall b, l | b in s' && l in rest ensures b.timestamp < m[l].timestamp {
      if b !in s { assert b == m[k]; }
    }
  }

  /** `sorted(buckets.values(), key=timestamp)`, on buckets with distinct times. */
  method SortByTimestamp(m: map<int, Bucket>) returns (s: seq<Bucket>)
    requires DistinctTimes(m)
    ensures Increasing(s) && Holds(s, m, m.Keys)
  {
    s := [];
    var todo := m.Keys;
    while todo != {}
      invariant todo <= m.Keys
      invariant SortedSoFar(s, m, todo)
      decreases |todo|
    {
      ghost var some := MapSums.SomeMember(todo);
      ghost var first := EarliestExists(m, todo, some);
      var k :| k in todo && forall l :: l in todo ==> m[k].timestamp <= m[l].timestamp;
      EarliestGoesNext(s, m, todo, k);
      s := s + [m[k]];
      todo := todo - {k};
    }
  }
}
