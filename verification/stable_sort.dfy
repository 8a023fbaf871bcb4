/** `Array.prototype.sort((a, b) => key(a) - key(b))` on a copy of the
    array. The language guarantees a stable sort, so the model is a stable
    insertion sort, and `SortedUnique` shows that every stable sort of the
    same input produces the same sequence. */
module StableSort {
  import opened Seqs

  /** Ascending by `key`. */
  predicate SortedBy<T>(key: T -> real, s: seq<T>) {
    forall i, j :: 0 <= i < j < |s| ==> key(s[i]) <= key(s[j])
  }

  /** The test "has key `k`", as one function value for every use. */
  function KeyIs<T>(key: T -> real, k: real): T -> bool {
    x => key(x) == k
  }

  /** For every key value, the elements carrying it appear in the same order
      in `a` as in `b`. */
  ghost predicate SameOrderPerKey<T(!new)>(key: T -> real, a: seq<T>, b: seq<T>) {
    forall k :: Filter(KeyIs(key, k), a) == Filter(KeyIs(key, k), b)
  }

  /** Places `x` in front of the first element of `s` whose key is not
      smaller, so that it precedes the elements of equal key. */
  function Insert<T>(key: T -> real, x: T, s: seq<T>): (r: seq<T>)
    requires SortedBy(key, s)
    ensures SortedBy(key, r)
    ensures multiset(r) == multiset(s) + multiset{x}
    ensures |r| == |s| + 1
  {
    if s == [] || key(x) <= key(s[0]) then [x] + s
    else
      var t := Insert(key, x, s[1..]);
      LeastBeforeInsert(key, x, s, t);
      assert s == [s[0]] + s[1..];
      [s[0]] + t
  }

  /** The step of `Insert` past a first element smaller than `x`: that
      element may stay in front. */
  lemma LeastBeforeInsert<T>(key: T -> real, x: T, s: seq<T>, t: seq<T>)
    requires SortedBy(key, s) && |s| > 0 && key(s[0]) < key(x)
    requires SortedBy(key, t) && multiset(t) == multiset(s[1..]) + multiset{x}
    ensures SortedBy(key, [s[0]] + t)
  {
    forall j | 0 <= j < |t|
      ensures key(s[0]) <= key(t[j])
    {
      assert t[j] in multiset(t);
      if t[j] != x {
        assert t[j] in multiset(s[1..]);
        var i :| 0 <= i < |s[1..]| && s[1..][i] == t[j];
        assert s[i + 1] == t[j];
      }
    }
    var r := [s[0]] + t;
    forall i, j | 0 <= i < j < |r|
      ensures key(r[i]) <= key(r[j])
    {
      assert r[j] == t[j - 1];
      if i > 0 {
        assert r[i] == t[i - 1];
      }
    }
  }

  function Sort<T>(key: T -> real, s: seq<T>): (r: seq<T>)
    ensures SortedBy(key, r)
    ensures multiset(r) == multiset(s)
    ensures |r| == |s|
  {
    if s == [] then []
    else
      assert s == [s[0]] + s[1..];
      Insert(key, s[0], Sort(key, s[1..]))
  }

  /** Inserting `x` puts it before every element of `s` with its key, and
      leaves the order among elements of any other key alone. */
  lemma {:induction false} InsertPerKey<T(!new)>(key: T -> real, x: T, s: seq<T>, k: real)
    requires SortedBy(key, s)
    ensures Filter(KeyIs(key, k), Insert(key, x, s))
         == (if key(x) == k then [x] else []) + Filter(KeyIs(key, k), s)
  {
    var p := KeyIs(key, k);
    if s == [] || key(x) <= key(s[0]) {
      assert ([x] + s)[0] == x && ([x] + s)[1..] == s;
      FilterCons(p, [x] + s);
    } else {
      var t := Insert(key, x, s[1..]);
      InsertPerKey(key, x, s[1..], k);
      assert Insert(key, x, s) == [s[0]] + t;
      FilterCons(p, s);
      PassSmaller(p, s[0], x, t, Filter(p, s[1..]));
    }
  }

  /** Filtering past an element `y` that cannot share `x`'s key keeps `x`
      in front. */
  lemma PassSmaller<T(!new)>(p: T -> bool, y: T, x: T, t: seq<T>, u: seq<T>)
    requires !(p(x) && p(y))
    requires Filter(p, t) == (if p(x) then [x] else []) + u
    ensures Filter(p, [y] + t) == (if p(x) then [x] else []) + ((if p(y) then [y] else []) + u)
  {
    assert ([y] + t)[0] == y && ([y] + t)[1..] == t;
    FilterCons(p, [y] + t);
  }

  /** The sort is stable: elements of equal key keep their input order. */
  lemma {:induction false} SortIsStable<T(!new)>(key: T -> real, s: seq<T>)
    ensures SameOrderPerKey(key, Sort(key, s), s)
  {
    if s != [] {
      SortIsStable(key, s[1..]);
      forall k
        ensures Filter(KeyIs(key, k), Sort(key, s)) == Filter(KeyIs(key, k), s)
      {
        InsertPerKey(key, s[0], Sort(key, s[1..]), k);
      }
    }
  }

  /** Sequences that order the elements of each key alike are empty
      together. */
  lemma EmptyTogether<T(!new)>(key: T -> real, a: seq<T>, b: seq<T>)
    requires SameOrderPerKey(key, a, b)
    ensures a == [] <==> b == []
  {
    if a != [] {
      assert a[0] in Filter(KeyIs(key, key(a[0])), a);
    }
    if b != [] {
      assert b[0] in Filter(KeyIs(key, key(b[0])), b);
    }
  }

  /** Two ascending sequences that order the elements of each key alike are
      equal: the stable sort of an input is unique. */
  lemma {:induction false} SortedUnique<T(!new)>(key: T -> real, a: seq<T>, b: seq<T>)
    requires SortedBy(key, a) && SortedBy(key, b)
    requires SameOrderPerKey(key, a, b)
    ensures a == b
    decreases |a|
  {
    EmptyTogether(key, a, b);
    if a != [] {
      SameFirst(key, a, b);
      SameOrderTails(key, a, b);
      SortedUnique(key, a[1..], b[1..]);
      assert a == [a[0]] + a[1..] && b == [b[0]] + b[1..];
    }
  }

  /** Both start with the first element of the smallest key. */
  lemma SameFirst<T(!new)>(key: T -> real, a: seq<T>, b: seq<T>)
    requires SortedBy(key, a) && SortedBy(key, b)
    requires SameOrderPerKey(key, a, b)
    requires a != [] && b != []
    ensures a[0] == b[0]
  {
    var ka, kb := key(a[0]), key(b[0]);
    FilterMembers(KeyIs(key, ka), a);
    FilterMembers(KeyIs(key, ka), b);
    FilterMembers(KeyIs(key, kb), a);
    FilterMembers(KeyIs(key, kb), b);
    assert a[0] in Filter(KeyIs(key, ka), b);
    assert b[0] in Filter(KeyIs(key, kb), a);
    assert ka == kb by {
      var i :| 0 <= i < |b| && b[i] == a[0];
      var j :| 0 <= j < |a| && a[j] == b[0];
      assert kb <= key(b[i]) == ka;
      assert ka <= key(a[j]) == kb;
    }
    assert KeyIs(key, ka)(a[0]) && KeyIs(key, ka)(b[0]);
    FilterCons(KeyIs(key, ka), a);
    FilterCons(KeyIs(key, ka), b);
    var f := Filter(KeyIs(key, ka), a);
    assert f == Filter(KeyIs(key, ka), b);
    assert f[0] == a[0] && f[0] == b[0];
  }

  /** Dropping a common first element keeps the order per key. */
  lemma SameOrderTails<T(!new)>(key: T -> real, a: seq<T>, b: seq<T>)
    requires SameOrderPerKey(key, a, b)
    requires a != [] && b != [] && a[0] == b[0]
    ensures SameOrderPerKey(key, a[1..], b[1..])
  {
    forall k
      ensures Filter(KeyIs(key, k), a[1..]) == Filter(KeyIs(key, k), b[1..])
    {
      FilterCons(KeyIs(key, k), a);
      FilterCons(KeyIs(key, k), b);
      assert Filter(KeyIs(key, k), a) == Filter(KeyIs(key, k), b);
      if key(a[0]) == k {
        assert KeyIs(key, k)(a[0]) && KeyIs(key, k)(b[0]);
        var fa := Filter(KeyIs(key, k), a);
        assert fa[1..] == Filter(KeyIs(key, k), a[1..]);
        assert fa[1..] == Filter(KeyIs(key, k), b[1..]);
      } else {
        assert !KeyIs(key, k)(a[0]) && !KeyIs(key, k)(b[0]);
        assert Filter(KeyIs(key, k), a) == [] + Filter(KeyIs(key, k), a[1..]) == Filter(KeyIs(key, k), a[1..]);
        assert Filter(KeyIs(key, k), b) == [] + Filter(KeyIs(key, k), b[1..]) == Filter(KeyIs(key, k), b[1..]);
      }
    }
  }

  /** Whatever stable sort produced `r`, it is `Sort`'s result. */
  lemma StableSortIsSort<T(!new)>(key: T -> real, s: seq<T>, r: seq<T>)
    requires SortedBy(key, r)
    requires SameOrderPerKey(key, r, s)
    ensures r == Sort(key, s)
  {
    SortIsStable(key, s);
    SortedUnique(key, r, Sort(key, s));
  }
}
