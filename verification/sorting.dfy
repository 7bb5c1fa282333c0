/** Python's `sorted(items, key=...)` for string keys: a stable sort under
    the lexicographic code-point order Python uses to compare `str` values. */
module Sorting {

  /** `a <= b` on Python strings. */
  predicate LexLe(a: string, b: string)
    decreases |a|
  {
    |a| == 0 || (|b| > 0 && (a[0] < b[0] || (a[0] == b[0] && LexLe(a[1..], b[1..]))))
  }

  lemma {:induction false} LexLeRefl(a: string)
    ensures LexLe(a, a)
    decreases |a|
  {
    if |a| > 0 {
      LexLeRefl(a[1..]);
    }
  }

  lemma {:induction false} LexLeTotal(a: string, b: string)
    ensures LexLe(a, b) || LexLe(b, a)
    decreases |a|
  {
    if |a| > 0 && |b| > 0 && a[0] == b[0] {
      LexLeTotal(a[1..], b[1..]);
    }
  }

  lemma {:induction false} LexLeTrans(a: string, b: string, c: string)
    requires LexLe(a, b) && LexLe(b, c)
    ensures LexLe(a, c)
    decreases |a|
  {
    if |a| > 0 && a[0] == b[0] && b[0] == c[0] {
      LexLeTrans(a[1..], b[1..], c[1..]);
    }
  }

  /** Keys never decrease along the sequence. */
  ghost predicate SortedBy<T>(s: seq<T>, key: T -> string) {
    forall i, j :: 0 <= i < j < |s| ==> LexLe(key(s[i]), key(s[j]))
  }

  /** The elements of `s` whose key is `k`, in their order in `s`. */
  function KeyFilter<T>(s: seq<T>, key: T -> string, k: string): seq<T>
    decreases |s|
  {
    if |s| == 0 then []
    else KeyFilter(s[..|s| - 1], key, k) + (if key(s[|s| - 1]) == k then [s[|s| - 1]] else [])
  }

  /** Places `x` after every element whose key is at most `key(x)`. */
  function Insert<T>(t: seq<T>, x: T, key: T -> string): seq<T>
    decreases |t|
  {
    if |t| == 0 then [x]
    else if LexLe(key(t[|t| - 1]), key(x)) then t + [x]
    else Insert(t[..|t| - 1], x, key) + [t[|t| - 1]]
  }

  /** Insertion sort: `sorted(s, key=key)`. */
  function SortBy<T>(s: seq<T>, key: T -> string): seq<T>
    decreases |s|
  {
    if |s| == 0 then [] else Insert(SortBy(s[..|s| - 1], key), s[|s| - 1], key)
  }

  lemma {:induction false} InsertElements<T>(t: seq<T>, x: T, key: T -> string)
    ensures multiset(Insert(t, x, key)) == multiset(t) + multiset{x}
    ensures |Insert(t, x, key)| == |t| + 1
    decreases |t|
  {
    if |t| > 0 && !LexLe(key(t[|t| - 1]), key(x)) {
      InsertElements(t[..|t| - 1], x, key);
      assert t == t[..|t| - 1] + [t[|t| - 1]];
    }
  }

  lemma {:induction false} InsertSorted<T>(t: seq<T>, x: T, key: T -> string)
    requires SortedBy(t, key)
    ensures SortedBy(Insert(t, x, key), key)
    decreases |t|
  {
    if |t| == 0 {
    } else if LexLe(key(t[|t| - 1]), key(x)) {
      var r := t + [x];
      forall i, j | 0 <= i < j < |r|
        ensures LexLe(key(r[i]), key(r[j]))
      {
        if j == |t| && i < |t| - 1 {
          LexLeTrans(key(t[i]), key(t[|t| - 1]), key(x));
        }
      }
    } else {
      var last := t[|t| - 1];
      var init := t[..|t| - 1];
      LexLeTotal(key(last), key(x));
      InsertSorted(init, x, key);
      InsertElements(init, x, key);
      var m := Insert(init, x, key);
      forall i | 0 <= i < |m|
        ensures LexLe(key(m[i]), key(last))
      {
        assert m[i] in multiset(m);
        if m[i] != x {
          assert m[i] in multiset(init);
          var j :| 0 <= j < |init| && init[j] == m[i];
          assert t[j] == m[i];
        }
      }
      var r := m + [last];
      forall i, j | 0 <= i < j < |r|
        ensures LexLe(key(r[i]), key(r[j]))
      {
        if j == |m| {
          assert r[i] == m[i];
        } else {
          assert r[i] == m[i] && r[j] == m[j];
        }
      }
    }
  }

  lemma {:induction false} InsertKeyFilter<T>(t: seq<T>, x: T, key: T -> string, k: string)
    ensures KeyFilter(Insert(t, x, key), key, k)
            == KeyFilter(t, key, k) + (if key(x) == k then [x] else [])
    decreases |t|
  {
    if |t| == 0 {
      assert KeyFilter([x], key, k) == KeyFilter([], key, k) + (if key(x) == k then [x] else []);
    } else if LexLe(key(t[|t| - 1]), key(x)) {
      assert (t + [x])[..|t|] == t;
    } else {
      var last := t[|t| - 1];
      var init := t[..|t| - 1];
      InsertKeyFilter(init, x, key, k);
      var m := Insert(init, x, key);
      assert (m + [last])[..|m|] == m;
      if key(x) == k && key(last) == k {
        LexLeRefl(k);
      }
    }
  }

  /** The result of `SortBy` is ordered by key. */
  lemma {:induction false} SortBySorted<T>(s: seq<T>, key: T -> string)
    ensures SortedBy(SortBy(s, key), key)
    decreases |s|
  {
    if |s| > 0 {
      SortBySorted(s[..|s| - 1], key);
      InsertSorted(SortBy(s[..|s| - 1], key), s[|s| - 1], key);
    }
  }

  /** `SortBy` is a permutation. */
  lemma {:induction false} SortByPermutes<T>(s: seq<T>, key: T -> string)
    ensures multiset(SortBy(s, key)) == multiset(s)
    ensures |SortBy(s, key)| == |s|
    decreases |s|
  {
    if |s| > 0 {
      var init := s[..|s| - 1];
      var x := s[|s| - 1];
      SortByPermutes(init, key);
      InsertElements(SortBy(init, key), x, key);
      assert SortBy(s, key) == Insert(SortBy(init, key), x, key);
      assert multiset(s) == multiset(init) + multiset{x} by {
        assert s == init + [x];
      }
    }
  }

  /** Stability: elements with equal keys keep their relative order. */
  lemma {:induction false} SortByStable<T>(s: seq<T>, key: T -> string, k: string)
    ensures KeyFilter(SortBy(s, key), key, k) == KeyFilter(s, key, k)
    decreases |s|
  {
    if |s| > 0 {
      SortByStable(s[..|s| - 1], key, k);
      InsertKeyFilter(SortBy(s[..|s| - 1], key), s[|s| - 1], key, k);
    }
  }

  /** The elements of `s` satisfying `p`, in their order in `s` (a list
      comprehension with a condition). */
  function Filter<T>(s: seq<T>, p: T -> bool): seq<T>
    decreases |s|
  {
    if |s| == 0 then [] else Filter(s[..|s| - 1], p) + (if p(s[|s| - 1]) then [s[|s| - 1]] else [])
  }

  /** Exactly the elements of `s` that satisfy `p` survive the filter. */
  lemma {:induction false} FilterMembers<T>(s: seq<T>, p: T -> bool)
    ensures forall x :: x in Filter(s, p) <==> x in s && p(x)
    ensures |Filter(s, p)| <= |s|
    decreases |s|
  {
    if |s| > 0 {
      FilterMembers(s[..|s| - 1], p);
      assert s == s[..|s| - 1] + [s[|s| - 1]];
    }
  }

  /** Where the `i`-th element of a filtered sequence comes from. */
  lemma {:induction false} FilterSource<T>(s: seq<T>, p: T -> bool, i: nat) returns (k: nat)
    requires i < |Filter(s, p)|
    ensures k < |s| && s[k] == Filter(s, p)[i]
    decreases |s|
  {
    var f := Filter(s[..|s| - 1], p);
    if i < |f| {
      k := FilterSource(s[..|s| - 1], p, i);
    } else {
      k := |s| - 1;
    }
  }

  /** Filtering a sorted sequence leaves it sorted. */
  lemma {:induction false} FilterSorted<T>(s: seq<T>, p: T -> bool, key: T -> string)
    requires SortedBy(s, key)
    ensures SortedBy(Filter(s, p), key)
    decreases |s|
  {
    if |s| > 0 {
      var init := s[..|s| - 1];
      var last := s[|s| - 1];
      assert SortedBy(init, key) by {
        forall i, j | 0 <= i < j < |init| ensures LexLe(key(init[i]), key(init[j])) {
          assert init[i] == s[i] && init[j] == s[j];
        }
      }
      FilterSorted(init, p, key);
      var f := Filter(init, p);
      if p(last) {
        var r := f + [last];
        forall i, j | 0 <= i < j < |r|
          ensures LexLe(key(r[i]), key(r[j]))
        {
          if j == |f| {
            var k := FilterSource(init, p, i);
            assert s[k] == f[i];
          } else {
            assert r[i] == f[i] && r[j] == f[j];
          }
        }
      }
    }
  }
}
