/** Keeping the first element of every key, in order. */
module FirstOccurrences {
  import opened Wrappers
  import opened NewestFirst

  /** The first element of every key that is not among `seen`. */
  function Distinct<T, K(==)>(s: seq<T>, key: T -> K, seen: set<K>): seq<T> {
    if s == [] then []
    else if key(s[0]) in seen then Distinct(s[1..], key, seen)
    else [s[0]] + Distinct(s[1..], key, seen + {key(s[0])})
  }

  function First<T, K(==)>(s: seq<T>, key: T -> K, k: K): Option<T> {
    if s == [] then None else if key(s[0]) == k then Some(s[0]) else First(s[1..], key, k)
  }

  ghost predicate UniqueKeys<T, K>(s: seq<T>, key: T -> K) {
    forall i, j :: 0 <= i < j < |s| ==> key(s[i]) != key(s[j])
  }

  /** What survives was there, under a key not seen before, and was the first with that key. */
  lemma {:induction false} SurvivorIsFirst<T, K>(s: seq<T>, key: T -> K, seen: set<K>, e: T)
    requires e in Distinct(s, key, seen)
    ensures e in s && key(e) !in seen && First(s, key, key(e)) == Some(e)
  {
    if key(s[0]) in seen {
      SurvivorIsFirst(s[1..], key, seen, e);
    } else if e != s[0] {
      SurvivorIsFirst(s[1..], key, seen + {key(s[0])}, e);
    }
  }

  /** The first element of every new key survives. */
  lemma {:induction false} FirstSurvives<T, K>(s: seq<T>, key: T -> K, seen: set<K>, k: K)
    requires k !in seen && First(s, key, k).Some?
    ensures First(s, key, k).value in Distinct(s, key, seen)
  {
    if key(s[0]) in seen {
      FirstSurvives(s[1..], key, seen, k);
    } else if key(s[0]) != k {
      FirstSurvives(s[1..], key, seen + {key(s[0])}, k);
    }
  }

  lemma {:induction false} DistinctKeysDiffer<T, K>(s: seq<T>, key: T -> K, seen: set<K>)
    ensures UniqueKeys(Distinct(s, key, seen), key)
  {
    if s != [] {
      if key(s[0]) in seen {
        DistinctKeysDiffer(s[1..], key, seen);
      } else {
        var rest := Distinct(s[1..], key, seen + {key(s[0])});
        DistinctKeysDiffer(s[1..], key, seen + {key(s[0])});
        forall j | 0 <= j < |rest| ensures key(rest[j]) != key(s[0]) {
          SurvivorIsFirst(s[1..], key, seen + {key(s[0])}, rest[j]);
        }
      }
    }
  }

  lemma {:induction false} DistinctStaysSorted<T, K>(s: seq<T>, key: T -> K, seen: set<K>, age: T -> string)
    requires Sorted(s, age)
    ensures Sorted(Distinct(s, key, seen), age)
  {
    if s != [] {
      if key(s[0]) in seen {
        DistinctStaysSorted(s[1..], key, seen, age);
      } else {
        var rest := Distinct(s[1..], key, seen + {key(s[0])});
        DistinctStaysSorted(s[1..], key, seen + {key(s[0])}, age);
        forall j | 0 <= j < |rest| ensures AtMost(age(rest[j]), age(s[0])) {
          SurvivorIsFirst(s[1..], key, seen + {key(s[0])}, rest[j]);
          assert rest[j] in s[1..];
        }
      }
    }
  }

  lemma {:induction false} FirstInClass<T, K>(s: seq<T>, key: T -> K, k: K, age: T -> string, e: T)
    requires First(s, key, k) == Some(e)
    ensures First(WithKey(s, age, age(e)), key, k) == Some(e)
  {
    var same := WithKey(s, age, age(e));
    if key(s[0]) != k {
      FirstInClass(s[1..], key, k, age, e);
      assert same == WithKey(s[1..], age, age(e)) || same[1..] == WithKey(s[1..], age, age(e));
    }
  }

  lemma {:induction false} FirstOfConcat<T, K>(a: seq<T>, b: seq<T>, key: T -> K, k: K)
    ensures First(a + b, key, k) == if First(a, key, k).Some? then First(a, key, k) else First(b, key, k)
  {
    if a == [] {
      assert a + b == b;
    } else {
      assert (a + b)[1..] == a[1..] + b;
      FirstOfConcat(a[1..], b, key, k);
    }
  }

  lemma {:induction false} FirstIsMember<T, K>(s: seq<T>, key: T -> K, e: T)
    requires e in s
    ensures var f := First(s, key, key(e)); f.Some? && f.value in s && key(f.value) == key(e)
  {
    if key(s[0]) != key(e) { FirstIsMember(s[1..], key, e); }
  }

  lemma {:induction false} FirstIsNewest<T, K>(s: seq<T>, key: T -> K, age: T -> string, other: T)
    requires Sorted(s, age) && other in s
    ensures First(s, key, key(other)).Some? && AtMost(age(other), age(First(s, key, key(other)).value))
  {
    if key(s[0]) == key(other) {
      var j :| 0 <= j < |s| && s[j] == other;
      AtMostTotal(age(other), age(other));
    } else {
      FirstIsNewest(s[1..], key, age, other);
    }
  }

  lemma {:induction false} WithKeyOfConcat<T>(a: seq<T>, b: seq<T>, age: T -> string, k: string)
    ensures WithKey(a + b, age, k) == WithKey(a, age, k) + WithKey(b, age, k)
  {
    if a == [] {
      assert a + b == b;
    } else {
      var head, rest := if age(a[0]) == k then [a[0]] else [], a[1..];
      assert (a + b)[1..] == rest + b && (a + b)[0] == a[0];
      WithKeyOfConcat(rest, b, age, k);
      assert WithKey(a + b, age, k) == head + (WithKey(rest, age, k) + WithKey(b, age, k));
    }
  }

  /**
   Sorting newest first and keeping the first of every key: an element that survives is the first, in
   the order before sorting, of those with its key and its age.
   */
  lemma SurvivorIsFirstOfItsAge<T, K>(s: seq<T>, key: T -> K, age: T -> string, e: T)
    requires e in Distinct(Sort(s, age), key, {})
    ensures First(WithKey(s, age, age(e)), key, key(e)) == Some(e)
  {
    SurvivorIsFirst(Sort(s, age), key, {}, e);
    FirstInClass(Sort(s, age), key, key(e), age, e);
    SortIsStable(s, age, age(e));
  }

  /** Nothing newer was available under a survivor's key. */
  lemma SurvivorIsNewest<T, K>(s: seq<T>, key: T -> K, age: T -> string, e: T, other: T)
    requires e in Distinct(Sort(s, age), key, {}) && other in s && key(other) == key(e)
    ensures AtMost(age(other), age(e))
  {
    SortKeepsElements(s, age);
    assert other in multiset(s) && other in Sort(s, age);
    SortSorts(s, age);
    SurvivorIsFirst(Sort(s, age), key, {}, e);
    FirstIsNewest(Sort(s, age), key, age, other);
  }
}
