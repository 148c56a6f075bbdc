/** Counting the elements of a sequence that satisfy a predicate. */
module Counting {
  function Count<T>(h: seq<T>, p: T -> bool): nat {
    if h == [] then 0 else Count(h[..|h| - 1], p) + if p(h[|h| - 1]) then 1 else 0
  }

  lemma CountStep<T>(h: seq<T>, e: T, p: T -> bool)
    ensures Count(h + [e], p) == Count(h, p) + if p(e) then 1 else 0
  {
    assert (h + [e])[..|h|] == h;
  }

  lemma {:induction false} CountNone<T>(h: seq<T>, p: T -> bool)
    requires forall e <- h :: !p(e)
    ensures Count(h, p) == 0
  {
    if h != [] { CountNone(h[..|h| - 1], p); }
  }

  lemma {:induction false} CountPositive<T>(h: seq<T>, p: T -> bool, e: T)
    requires e in h && p(e)
    ensures Count(h, p) > 0
  {
    if e != h[|h| - 1] { CountPositive(h[..|h| - 1], p, e); }
  }

  lemma {:induction false} CountSplits<T>(h: seq<T>, p: T -> bool, q: T -> bool, r: T -> bool)
    requires forall e <- h :: (p(e) <==> q(e) || r(e)) && !(q(e) && r(e))
    ensures Count(h, p) == Count(h, q) + Count(h, r)
  {
    if h != [] { CountSplits(h[..|h| - 1], p, q, r); }
  }

  lemma {:induction false} CountAgrees<T>(h: seq<T>, p: T -> bool, q: T -> bool)
    requires forall e <- h :: p(e) <==> q(e)
    ensures Count(h, p) == Count(h, q)
  {
    if h != [] { CountAgrees(h[..|h| - 1], p, q); }
  }

  /** Some element is behind a positive count. */
  lemma {:induction false} CountWitness<T>(h: seq<T>, p: T -> bool) returns (e: T)
    requires Count(h, p) > 0
    ensures e in h && p(e)
  {
    if p(h[|h| - 1]) {
      e := h[|h| - 1];
    } else {
      e := CountWitness(h[..|h| - 1], p);
    }
  }

  lemma {:induction false} CountOfConcat<T>(a: seq<T>, b: seq<T>, p: T -> bool)
    ensures Count(a + b, p) == Count(a, p) + Count(b, p)
  {
    if b == [] {
      assert a + b == a;
    } else {
      assert (a + b)[..|a + b| - 1] == a + b[..|b| - 1];
      CountOfConcat(a, b[..|b| - 1], p);
    }
  }

  lemma CountWithout<T>(a: seq<T>, e: T, b: seq<T>, p: T -> bool)
    ensures Count(a + [e] + b, p) == Count(a + b, p) + if p(e) then 1 else 0
  {
    CountOfConcat(a + [e], b, p);
    CountStep(a, e, p);
    CountOfConcat(a, b, p);
  }

  /** `h'` with one occurrence of `e` taken out. */
  lemma TakeOut<T>(h': seq<T>, e: T) returns (a: seq<T>, b: seq<T>)
    requires e in h'
    ensures h' == a + [e] + b && multiset(a + b) == multiset(h') - multiset{e}
  {
    var i :| 0 <= i < |h'| && h'[i] == e;
    a, b := h'[..i], h'[i + 1..];
    assert h' == a + [e] + b;
  }

  /** Counts do not depend on order. */
  lemma {:induction false} CountIgnoresOrder<T>(h: seq<T>, h': seq<T>, p: T -> bool)
    requires multiset(h) == multiset(h')
    ensures Count(h, p) == Count(h', p)
  {
    assert |h| == |multiset(h)| == |multiset(h')| == |h'|;
    if h != [] {
      var front, e := h[..|h| - 1], h[|h| - 1];
      assert h == front + [e];
      assert e in multiset(h');
      var a, b := TakeOut(h', e);
      assert multiset(front) == multiset(h) - multiset{e};
      CountIgnoresOrder(front, a + b, p);
      CountWithout(a, e, b, p);
    }
  }
}
