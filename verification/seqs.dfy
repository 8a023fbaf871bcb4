/** Sequence and set operations shared by the views and routes:
    `Array.prototype.filter`, `Array.prototype.map`, and the add-or-delete
    toggle every selection `Set` goes through. */
module Seqs {

  /** `s.filter(p)`: the elements of `s` satisfying `p`, in their order in
      `s`, each as often as in `s`. */
  function Filter<T(!new)>(p: T -> bool, s: seq<T>): (r: seq<T>)
    ensures |r| <= |s|
  {
    if s == [] then [] else (if p(s[0]) then [s[0]] else []) + Filter(p, s[1..])
  }

  /** The elements `Filter` keeps are exactly the elements of `s` satisfying
      `p`. */
  lemma {:induction false} FilterMembers<T(!new)>(p: T -> bool, s: seq<T>)
    ensures forall x :: x in Filter(p, s) <==> x in s && p(x)
  {
    if s != [] {
      FilterMembers(p, s[1..]);
      assert s == [s[0]] + s[1..];
    }
  }

  /** `Filter` keeps every element satisfying `p` exactly as often as it
      occurs in `s`, and drops every other element. */
  lemma {:induction false} FilterMultiplicity<T(!new)>(p: T -> bool, s: seq<T>)
    ensures forall x :: multiset(Filter(p, s))[x] == if p(x) then multiset(s)[x] else 0
  {
    if s != [] {
      FilterMultiplicity(p, s[1..]);
      assert s == [s[0]] + s[1..];
    }
  }

  /** `s.map(f)`. */
  function Map<T, U>(f: T -> U, s: seq<T>): (r: seq<U>)
    ensures |r| == |s|
    ensures forall i :: 0 <= i < |s| ==> r[i] == f(s[i])
  {
    seq(|s|, i requires 0 <= i < |s| => f(s[i]))
  }

  lemma MapConcat<T, U>(f: T -> U, a: seq<T>, b: seq<T>)
    ensures Map(f, a + b) == Map(f, a) + Map(f, b)
  {
  }

  /** Where the parts of `a + b + c` sit. */
  lemma ConcatParts<T>(a: seq<T>, b: seq<T>, c: seq<T>)
    ensures var d := a + b + c;
      && |d| == |a| + |b| + |c|
      && (forall i :: 0 <= i < |a| ==> d[i] == a[i])
      && (forall i :: |a| <= i < |a| + |b| ==> d[i] == b[i - |a|])
      && d[|a| + |b|..] == c
  {
  }

  /** Mapping a rearrangement of `a` gives a rearrangement of `a`'s image. */
  lemma {:induction false} MapMultiset<T, U>(f: T -> U, a: seq<T>, b: seq<T>)
    requires multiset(a) == multiset(b)
    ensures multiset(Map(f, a)) == multiset(Map(f, b))
    decreases |a|
  {
    if a == [] {
      assert |b| == |multiset(b)| == 0;
    } else {
      var x := a[0];
      assert x in multiset(b);
      var j :| 0 <= j < |b| && b[j] == x;
      var b' := b[..j] + b[j + 1..];
      assert b == b[..j] + [x] + b[j + 1..];
      assert a == [x] + a[1..];
      calc {
        multiset(a[1..]) + multiset{x};
        multiset(a);
        multiset(b);
        multiset(b[..j]) + multiset{x} + multiset(b[j + 1..]);
        multiset(b') + multiset{x};
      }
      assert multiset(a[1..]) == multiset(a[1..]) + multiset{x} - multiset{x};
      assert multiset(b') == multiset(b') + multiset{x} - multiset{x};
      MapMultiset(f, a[1..], b');
      MapConcat(f, b[..j], [x]);
      MapConcat(f, b[..j] + [x], b[j + 1..]);
      MapConcat(f, b[..j], b[j + 1..]);
      MapConcat(f, [x], a[1..]);
    }
  }

  /** Filtering a non-empty sequence decides its first element, then
      filters the rest. */
  lemma FilterCons<T(!new)>(p: T -> bool, s: seq<T>)
    requires s != []
    ensures Filter(p, s) == (if p(s[0]) then [s[0]] else []) + Filter(p, s[1..])
  {
  }

  lemma {:induction false} FilterConcat<T(!new)>(p: T -> bool, a: seq<T>, b: seq<T>)
    ensures Filter(p, a + b) == Filter(p, a) + Filter(p, b)
  {
    if a != [] {
      var ab := a + b;
      assert ab[0] == a[0] && ab[1..] == a[1..] + b;
      FilterConcat(p, a[1..], b);
      var h: seq<T> := if p(a[0]) then [a[0]] else [];
      calc {
        Filter(p, ab);
        h + Filter(p, a[1..] + b);
        h + (Filter(p, a[1..]) + Filter(p, b));
        (h + Filter(p, a[1..])) + Filter(p, b);
      }
    } else {
      assert a + b == b;
    }
  }

  /** The test "both `p` and `q` hold", as one function value for every
      use. */
  function Both<T>(p: T -> bool, q: T -> bool): T -> bool {
    x => p(x) && q(x)
  }

  /** Filtering by two predicates in turn keeps the elements satisfying
      both, in order. */
  lemma {:induction false} FilterTwice<T(!new)>(p: T -> bool, q: T -> bool, s: seq<T>)
    ensures Filter(q, Filter(p, s)) == Filter(Both(p, q), s)
  {
    if s != [] {
      FilterTwice(p, q, s[1..]);
      var rest := Filter(p, s[1..]);
      if p(s[0]) {
        var fs := [s[0]] + rest;
        assert Filter(p, s) == fs;
        assert fs[0] == s[0] && fs[1..] == rest;
      } else {
        assert Filter(p, s) == rest;
      }
    }
  }

  /** Predicates that agree on the elements of `s` filter it alike. */
  lemma {:induction false} FilterAgree<T(!new)>(p: T -> bool, q: T -> bool, s: seq<T>)
    requires forall i :: 0 <= i < |s| ==> p(s[i]) == q(s[i])
    ensures Filter(p, s) == Filter(q, s)
  {
    if s != [] {
      FilterAgree(p, q, s[1..]);
    }
  }

  /** A predicate that holds of every element keeps them all. */
  lemma {:induction false} FilterKeepsAll<T(!new)>(p: T -> bool, s: seq<T>)
    requires forall i :: 0 <= i < |s| ==> p(s[i])
    ensures Filter(p, s) == s
  {
    if s != [] {
      FilterKeepsAll(p, s[1..]);
    }
  }

  /** A predicate that holds of no element keeps none. */
  lemma {:induction false} FilterNone<T(!new)>(p: T -> bool, s: seq<T>)
    requires forall i :: 0 <= i < |s| ==> !p(s[i])
    ensures Filter(p, s) == []
  {
    if s != [] {
      FilterNone(p, s[1..]);
    }
  }

  /** Rearranging a sequence does not change how many of its elements
      satisfy `p`. */
  lemma FilterCountPermutation<T(!new)>(p: T -> bool, a: seq<T>, b: seq<T>)
    requires multiset(a) == multiset(b)
    ensures |Filter(p, a)| == |Filter(p, b)|
  {
    FilterMultiplicity(p, a);
    FilterMultiplicity(p, b);
    assert multiset(Filter(p, a)) == multiset(Filter(p, b));
    assert |multiset(Filter(p, a))| == |Filter(p, a)|;
    assert |multiset(Filter(p, b))| == |Filter(p, b)|;
  }

  /** A weaker predicate keeps at least as many elements. */
  lemma {:induction false} FilterCountMonotone<T(!new)>(p: T -> bool, q: T -> bool, s: seq<T>)
    requires forall i :: 0 <= i < |s| && p(s[i]) ==> q(s[i])
    ensures |Filter(p, s)| <= |Filter(q, s)|
  {
    if s != [] {
      FilterCountMonotone(p, q, s[1..]);
    }
  }

  /** Two distinct positions satisfying `p` leave at least two elements
      after filtering. */
  lemma {:induction false} FilterCountTwo<T(!new)>(p: T -> bool, s: seq<T>, i: nat, j: nat)
    requires i < |s| && j < |s| && i != j
    requires p(s[i]) && p(s[j])
    ensures |Filter(p, s)| >= 2
  {
    if i == 0 || j == 0 {
      var k := if i == 0 then j else i;
      FilterMembers(p, s[1..]);
      assert s[1..][k - 1] in Filter(p, s[1..]);
    } else {
      FilterCountTwo(p, s[1..], i - 1, j - 1);
    }
  }

  /** No two elements of `s` have the same key. */
  predicate DistinctKeys<T, K(==)>(key: T -> K, s: seq<T>) {
    forall i, j :: 0 <= i < j < |s| ==> key(s[i]) != key(s[j])
  }

  /** Some element of `s` has key `k`. */
  predicate HasKey<T, K(==)>(key: T -> K, s: seq<T>, k: K) {
    exists i :: 0 <= i < |s| && key(s[i]) == k
  }

  /** The test "key is in `sel`", as one function value for every use. */
  function KeyIn<T, K>(key: T -> K, sel: set<K>): T -> bool {
    x => key(x) in sel
  }

  /** Selecting the elements of `s` whose key is in `sel` yields one element
      per selected key, when the keys of `s` are distinct and every selected
      key occurs in `s`. */
  lemma {:induction false} SelectByKeyCount<T(!new), K>(key: T -> K, s: seq<T>, sel: set<K>)
    requires DistinctKeys(key, s)
    requires forall k :: k in sel ==> HasKey(key, s, k)
    ensures |Filter(KeyIn(key, sel), s)| == |sel|
  {
    if s == [] {
      assert forall k :: k !in sel;
    } else {
      var h := key(s[0]);
      var t := s[1..];
      var rest := sel - {h};
      assert DistinctKeys(key, t) by {
        forall i, j | 0 <= i < j < |t|
          ensures key(t[i]) != key(t[j])
        {
          assert key(s[i + 1]) != key(s[j + 1]);
        }
      }
      forall k | k in rest
        ensures HasKey(key, t, k)
      {
        assert HasKey(key, s, k);
        var i :| 0 <= i < |s| && key(s[i]) == k;
        assert i != 0;
        assert key(t[i - 1]) == k;
      }
      SelectByKeyCount(key, t, rest);
      FilterAgree(KeyIn(key, sel), KeyIn(key, rest), t) by {
        forall i | 0 <= i < |t|
          ensures key(t[i]) != h
        {
          assert key(s[0]) != key(s[i + 1]);
        }
      }
      if h in sel {
        assert |sel| == |rest| + 1 by {
          assert sel == rest + {h};
        }
      } else {
        assert rest == sel;
      }
    }
  }

  /** The keys of `s` strictly increase along the list. */
  predicate IncreasingKeys<T>(key: T -> int, s: seq<T>) {
    forall i, j :: 0 <= i < j < |s| ==> key(s[i]) < key(s[j])
  }

  /** Filtering a list whose keys increase leaves a list whose keys
      increase. */
  lemma {:induction false} FilterKeepsIncreasing<T(!new)>(p: T -> bool, key: T -> int, s: seq<T>)
    requires IncreasingKeys(key, s)
    ensures IncreasingKeys(key, Filter(p, s))
  {
    if s != [] {
      var t := s[1..];
      assert IncreasingKeys(key, t) by {
        forall i, j | 0 <= i < j < |t|
          ensures key(t[i]) < key(t[j])
        {
          assert t[i] == s[i + 1] && t[j] == s[j + 1];
        }
      }
      FilterKeepsIncreasing(p, key, t);
      FilterCons(p, s);
      var f := Filter(p, t);
      if p(s[0]) {
        FilterMembers(p, t);
        forall j | 0 <= j < |f|
          ensures key(s[0]) < key(f[j])
        {
          assert f[j] in t;
          var m :| 0 <= m < |t| && t[m] == f[j];
          assert t[m] == s[m + 1];
        }
        var r := [s[0]] + f;
        forall i, j | 0 <= i < j < |r|
          ensures key(r[i]) < key(r[j])
        {
          assert r[j] == f[j - 1];
          if i > 0 {
            assert r[i] == f[i - 1];
          }
        }
      } else {
        assert Filter(p, s) == [] + f;
        assert [] + f == f;
      }
    }
  }

  /** Adds `x` to `s` if absent and removes it if present, as the
      selection handlers do with a copied `Set`. */
  function Toggle<T(!new)>(s: set<T>, x: T): (r: set<T>)
    ensures x in r <==> x !in s
    ensures forall y :: y != x ==> (y in r <==> y in s)
  {
    if x in s then s - {x} else s + {x}
  }

  /** Toggling the same element twice restores the selection. */
  lemma ToggleTwice<T(!new)>(s: set<T>, x: T)
    ensures Toggle(Toggle(s, x), x) == s
  {
  }

  /** `a` is `b` with some elements left out and the rest in order. */
  predicate SubseqOf<T(==)>(a: seq<T>, b: seq<T>)
    decreases |b|
  {
    if a == [] then true
    else if b == [] then false
    else (a[0] == b[0] && SubseqOf(a[1..], b[1..])) || SubseqOf(a, b[1..])
  }

  /** Leaving nothing out is a subsequence too. */
  lemma {:induction false} SubseqOfSelf<T>(s: seq<T>)
    ensures SubseqOf(s, s)
  {
    if s != [] {
      SubseqOfSelf(s[1..]);
    }
  }

  /** Filtering keeps the order of what it keeps. */
  lemma {:induction false} FilterIsSubseq<T(!new)>(p: T -> bool, s: seq<T>)
    ensures SubseqOf(Filter(p, s), s)
  {
    if s != [] {
      FilterIsSubseq(p, s[1..]);
      var a := Filter(p, s);
      if p(s[0]) {
        assert a[0] == s[0] && a[1..] == Filter(p, s[1..]);
      } else {
        assert a == Filter(p, s[1..]);
      }
    }
  }
}
