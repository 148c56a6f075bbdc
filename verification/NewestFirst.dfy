/** Python's stable `sort(key=..., reverse=True)` on text keys compared character by character. */
module NewestFirst {
  predicate AtMost(a: string, b: string) {
    a == [] || (b != [] && (a[0] < b[0] || (a[0] == b[0] && AtMost(a[1..], b[1..]))))
  }

  lemma {:induction false} AtMostTotal(a: string, b: string)
    ensures AtMost(a, b) || AtMost(b, a)
    ensures AtMost(a, b) && AtMost(b, a) ==> a == b
  {
    if a != [] && b != [] && a[0] == b[0] {
      AtMostTotal(a[1..], b[1..]);
      assert a == [a[0]] + a[1..] && b == [b[0]] + b[1..];
    }
  }

  lemma {:induction false} AtMostTransitive(a: string, b: string, c: string)
    requires AtMost(a, b) && AtMost(b, c)
    ensures AtMost(a, c)
  {
    if a != [] && a[0] == b[0] == c[0] { AtMostTransitive(a[1..], b[1..], c[1..]); }
  }

  /** The first `n` characters agree, and there `a` ends or is smaller. */
  predicate DecidedAt(a: string, b: string, n: nat) {
    n <= |a| && n <= |b| && (forall i :: 0 <= i < n ==> a[i] == b[i]) && (n == |a| || (n < |b| && a[n] < b[n]))
  }

  lemma DecidedInTail(a: string, b: string, n: nat)
    requires a != [] && b != [] && a[0] == b[0]
    ensures DecidedAt(a, b, n + 1) <==> DecidedAt(a[1..], b[1..], n)
  {
    if DecidedAt(a, b, n + 1) {
      assert forall i :: 0 <= i < n ==> a[1..][i] == a[i + 1] && b[1..][i] == b[i + 1];
    }
    if DecidedAt(a[1..], b[1..], n) {
      assert forall i :: 1 <= i < n + 1 ==> a[i] == a[1..][i - 1] && b[i] == b[1..][i - 1];
    }
  }

  /** The order is the dictionary's. */
  lemma {:induction false} AtMostIsDictionary(a: string, b: string)
    ensures AtMost(a, b) <==> exists n: nat :: DecidedAt(a, b, n)
  {
    if a == [] || b == [] || a[0] != b[0] {
      assert AtMost(a, b) ==> DecidedAt(a, b, 0);
      assert forall n: nat :: DecidedAt(a, b, n) ==> n == 0;
    } else {
      AtMostIsDictionary(a[1..], b[1..]);
      if n: nat :| DecidedAt(a[1..], b[1..], n) { DecidedInTail(a, b, n); }
      if n: nat :| DecidedAt(a, b, n) { DecidedInTail(a, b, n - 1); }
    }
  }

  /** Puts `x` before the first element that is not newer than it. */
  function Insert<T>(x: T, s: seq<T>, key: T -> string): seq<T> {
    if s == [] || AtMost(key(s[0]), key(x)) then [x] + s else [s[0]] + Insert(x, s[1..], key)
  }

  function Sort<T>(s: seq<T>, key: T -> string): seq<T> {
    if s == [] then [] else Insert(s[0], Sort(s[1..], key), key)
  }

  ghost predicate Sorted<T>(s: seq<T>, key: T -> string) {
    forall i, j :: 0 <= i < j < |s| ==> AtMost(key(s[j]), key(s[i]))
  }

  lemma {:induction false} InsertKeepsElements<T>(x: T, s: seq<T>, key: T -> string)
    ensures multiset(Insert(x, s, key)) == multiset(s) + multiset{x}
  {
    if s != [] {
      assert s == [s[0]] + s[1..];
      InsertKeepsElements(x, s[1..], key);
    }
  }

  lemma {:induction false} SortKeepsElements<T>(s: seq<T>, key: T -> string)
    ensures multiset(Sort(s, key)) == multiset(s)
  {
    if s != [] {
      assert s == [s[0]] + s[1..];
      SortKeepsElements(s[1..], key);
      InsertKeepsElements(s[0], Sort(s[1..], key), key);
    }
  }

  lemma {:induction false} InsertKeepsSorted<T>(x: T, s: seq<T>, key: T -> string)
    requires Sorted(s, key)
    ensures Sorted(Insert(x, s, key), key)
  {
    if s == [] {
    } else if AtMost(key(s[0]), key(x)) {
      forall j | 0 <= j < |s| ensures AtMost(key(s[j]), key(x)) {
        if j > 0 { AtMostTransitive(key(s[j]), key(s[0]), key(x)); }
      }
    } else {
      var rest := Insert(x, s[1..], key);
      InsertKeepsSorted(x, s[1..], key);
      InsertKeepsElements(x, s[1..], key);
      AtMostTotal(key(s[0]), key(x));
      forall j | 0 <= j < |rest| ensures AtMost(key(rest[j]), key(s[0])) {
        assert rest[j] in multiset(rest);
        assert rest[j] == x || rest[j] in s[1..];
      }
    }
  }

  lemma {:induction false} SortSorts<T>(s: seq<T>, key: T -> string)
    ensures Sorted(Sort(s, key), key)
  {
    if s != [] {
      SortSorts(s[1..], key);
      InsertKeepsSorted(s[0], Sort(s[1..], key), key);
    }
  }

  /** The elements whose key is exactly `k`, in order. */
  function WithKey<T>(s: seq<T>, key: T -> string, k: string): seq<T> {
    if s == [] then [] else (if key(s[0]) == k then [s[0]] else []) + WithKey(s[1..], key, k)
  }

  lemma {:induction false} InsertIsStable<T>(x: T, s: seq<T>, key: T -> string, k: string)
    ensures WithKey(Insert(x, s, key), key, k) == WithKey([x] + s, key, k)
  {
    if s == [] || AtMost(key(s[0]), key(x)) {
    } else {
      InsertIsStable(x, s[1..], key, k);
      AtMostTotal(key(s[0]), key(x));
      assert ([x] + s)[1..] == s && ([x] + s[1..])[1..] == s[1..];
      assert Insert(x, s, key)[1..] == Insert(x, s[1..], key);
      assert AtMost(key(s[0]), key(s[0])) by { AtMostTotal(key(s[0]), key(s[0])); }
    }
  }

  /** Elements with equal keys keep their relative order. */
  lemma {:induction false} SortIsStable<T>(s: seq<T>, key: T -> string, k: string)
    ensures WithKey(Sort(s, key), key, k) == WithKey(s, key, k)
  {
    if s != [] {
      SortIsStable(s[1..], key, k);
      InsertIsStable(s[0], Sort(s[1..], key), key, k);
      assert ([s[0]] + Sort(s[1..], key))[1..] == Sort(s[1..], key);
    }
  }

  lemma {:induction false} WithKeyMembers<T>(s: seq<T>, key: T -> string, k: string, x: T)
    ensures x in WithKey(s, key, k) <==> x in s && key(x) == k
  {
    if s != [] {
      assert s == [s[0]] + s[1..];
      WithKeyMembers(s[1..], key, k, x);
    }
  }

  /** `all` is `shown` and `omitted`, and nothing omitted is newer than what is shown. */
  ghost predicate Omits<T>(omitted: seq<T>, shown: seq<T>, all: seq<T>, key: T -> string) {
    multiset(shown) + multiset(omitted) == multiset(all)
    && forall i, j :: 0 <= i < |omitted| && 0 <= j < |shown| ==> AtMost(key(omitted[i]), key(shown[j]))
  }

  /** `shown` is the newest `limit` of `all`, newest first. */
  ghost predicate IsNewest<T(!new)>(shown: seq<T>, all: seq<T>, key: T -> string, limit: nat) {
    |shown| == (if |all| <= limit then |all| else limit) && Sorted(shown, key)
    && exists omitted :: Omits(omitted, shown, all, key)
  }

  lemma SplitMultiset<T>(s: seq<T>, n: nat)
    requires n <= |s|
    ensures multiset(s[..n]) + multiset(s[n..]) == multiset(s)
  {
    assert s == s[..n] + s[n..];
  }

  lemma SortKeepsLength<T>(s: seq<T>, key: T -> string)
    ensures |Sort(s, key)| == |s|
  {
    SortKeepsElements(s, key);
    assert |multiset(Sort(s, key))| == |multiset(s)|;
  }

  lemma PrefixIsNewest<T(!new)>(all: seq<T>, key: T -> string, n: nat)
    requires n <= |all|
    ensures n <= |Sort(all, key)| && IsNewest(Sort(all, key)[..n], all, key, n)
  {
    var sorted := Sort(all, key);
    SortKeepsLength(all, key);
    SortKeepsElements(all, key);
    SortSorts(all, key);
    SplitMultiset(sorted, n);
    assert Omits(sorted[n..], sorted[..n], all, key);
  }
}
