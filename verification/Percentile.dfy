/** Ascending sort of a list of measurements and what the element at an index says about the whole list. */
module Percentile {
  function Insert(x: real, s: seq<real>): seq<real> {
    if s == [] || x <= s[0] then [x] + s else [s[0]] + Insert(x, s[1..])
  }

  function Sort(s: seq<real>): (r: seq<real>)
    ensures |r| == |s|
  {
    if s == [] then [] else
      InsertLength(s[0], Sort(s[1..]));
      Insert(s[0], Sort(s[1..]))
  }

  lemma {:induction false} InsertLength(x: real, s: seq<real>)
    ensures |Insert(x, s)| == |s| + 1
  {
    if s != [] && x > s[0] { InsertLength(x, s[1..]); }
  }

  predicate Ascending(s: seq<real>) { forall i, j :: 0 <= i < j < |s| ==> s[i] <= s[j] }

  /** Elements strictly below `v`, and at or below it. */
  function Below(s: seq<real>, v: real): nat { if s == [] then 0 else Below(s[1..], v) + if s[0] < v then 1 else 0 }

  function AtOrBelow(s: seq<real>, v: real): nat {
    if s == [] then 0 else AtOrBelow(s[1..], v) + if s[0] <= v then 1 else 0
  }

  lemma {:induction false} InsertKeepsElements(x: real, s: seq<real>)
    ensures multiset(Insert(x, s)) == multiset(s) + multiset{x}
  {
    if s != [] && x > s[0] {
      InsertKeepsElements(x, s[1..]);
      assert s == [s[0]] + s[1..];
    }
  }

  lemma {:induction false} InsertKeepsLowerBound(x: real, s: seq<real>, low: real)
    requires low <= x && forall y <- s :: low <= y
    ensures forall y <- Insert(x, s) :: low <= y
  {
    if s != [] && x > s[0] {
      assert s[0] in s && forall y <- s[1..] :: y in s;
      InsertKeepsLowerBound(x, s[1..], low);
    }
  }

  lemma {:induction false} InsertKeepsOrder(x: real, s: seq<real>)
    requires Ascending(s)
    ensures Ascending(Insert(x, s))
  {
    if s != [] && x > s[0] {
      InsertKeepsOrder(x, s[1..]);
      InsertKeepsLowerBound(x, s[1..], s[0]);
      var rest := Insert(x, s[1..]);
      forall j | 0 <= j < |rest| ensures s[0] <= rest[j] { assert rest[j] in rest; }
    }
  }

  lemma {:induction false} InsertKeepsCounts(x: real, s: seq<real>, v: real)
    ensures Below(Insert(x, s), v) == Below([x] + s, v) && AtOrBelow(Insert(x, s), v) == AtOrBelow([x] + s, v)
  {
    assert ([x] + s)[1..] == s;
    if s != [] && x > s[0] {
      InsertKeepsCounts(x, s[1..], v);
      assert ([x] + s[1..])[1..] == s[1..];
      assert Insert(x, s)[1..] == Insert(x, s[1..]);
    }
  }

  lemma {:induction false} SortSorts(s: seq<real>, v: real)
    ensures Ascending(Sort(s)) && multiset(Sort(s)) == multiset(s)
    ensures Below(Sort(s), v) == Below(s, v) && AtOrBelow(Sort(s), v) == AtOrBelow(s, v)
  {
    if s != [] {
      SortSorts(s[1..], v);
      InsertKeepsOrder(s[0], Sort(s[1..]));
      InsertKeepsElements(s[0], Sort(s[1..]));
      InsertKeepsCounts(s[0], Sort(s[1..]), v);
      assert ([s[0]] + Sort(s[1..]))[1..] == Sort(s[1..]);
      assert s == [s[0]] + s[1..];
    }
  }

  lemma {:induction false} NoneBelow(s: seq<real>, v: real)
    requires forall x <- s :: v <= x
    ensures Below(s, v) == 0
  {
    if s != [] {
      assert s[0] in s && forall x <- s[1..] :: x in s;
      NoneBelow(s[1..], v);
    }
  }

  /** In an ascending list the element at `k` has at most `k` below it and more than `k` at or below it. */
  lemma {:induction false} RankInAscending(s: seq<real>, k: nat)
    requires Ascending(s) && k < |s|
    ensures Below(s, s[k]) <= k < AtOrBelow(s, s[k])
  {
    if k == 0 {
      NoneBelow(s, s[0]);
    } else {
      RankInAscending(s[1..], k - 1);
      assert s[1..][k - 1] == s[k];
    }
  }

  /** The `k`-th smallest of any list. */
  lemma RankOfSorted(s: seq<real>, k: nat)
    requires k < |s|
    ensures var v := Sort(s)[k]; v in s && Below(s, v) <= k < AtOrBelow(s, v)
  {
    var v := Sort(s)[k];
    SortSorts(s, v);
    RankInAscending(Sort(s), k);
    assert v in multiset(Sort(s));
  }
}
