/**
 Filtering, and Python's stable list.sort(key=...). Keys are integer triples compared
 lexicographically; a key of fewer parts is padded with zeros, and reverse=True, which is stable
 too, is the ascending sort on negated parts.
 */
module Sorting {

  // ---------- filter ----------

  function Filter<T(!new)>(s: seq<T>, p: T -> bool): (r: seq<T>)
    ensures forall x :: x in r <==> x in s && p(x)
  {
    if s == [] then []
    else if p(s[0]) then [s[0]] + Filter(s[1..], p) else Filter(s[1..], p)
  }

  lemma {:induction false} FilterConcat<T(!new)>(a: seq<T>, b: seq<T>, p: T -> bool)
    ensures Filter(a + b, p) == Filter(a, p) + Filter(b, p)
  {
    if a == [] {
      assert a + b == b;
    } else {
      assert (a + b)[1..] == a[1..] + b;
      FilterConcat(a[1..], b, p);
    }
  }

  lemma {:induction false} FilterSame<T(!new)>(s: seq<T>, p: T -> bool, q: T -> bool)
    requires forall x | x in s :: p(x) == q(x)
    ensures Filter(s, p) == Filter(s, q)
  {
    if s != [] {
      FilterSame(s[1..], p, q);
    }
  }

  lemma {:induction false} FilterFilter<T(!new)>(s: seq<T>, p: T -> bool, q: T -> bool, both: T -> bool)
    requires forall x :: both(x) == (p(x) && q(x))
    ensures Filter(Filter(s, p), q) == Filter(s, both)
  {
    if s != [] {
      FilterFilter(s[1..], p, q, both);
      if p(s[0]) {
        assert Filter(s, p)[1..] == Filter(s[1..], p);
      }
    }
  }

  lemma {:induction false} FilterAll<T(!new)>(s: seq<T>, p: T -> bool)
    requires forall x | x in s :: p(x)
    ensures Filter(s, p) == s
  {
    if s != [] {
      FilterAll(s[1..], p);
    }
  }

  /** r is what s holds at exactly the positions that satisfy p, in the order of s. */
  ghost predicate Selects<T(!new)>(r: seq<T>, s: seq<T>, p: T -> bool) {
    exists at: seq<int> :: SelectsAt(r, s, p, at)
  }

  ghost predicate SelectsAt<T(!new)>(r: seq<T>, s: seq<T>, p: T -> bool, at: seq<int>) {
    && |r| == |at|
    && (forall i, k | 0 <= i < k < |at| :: at[i] < at[k])
    && (forall n :: n in at <==> 0 <= n < |s| && p(s[n]))
    && (forall i | 0 <= i < |at| :: 0 <= at[i] < |s| && r[i] == s[at[i]])
  }

  lemma SelectsSnoc<T(!new)>(r: seq<T>, s: seq<T>, p: T -> bool, at: seq<int>, x: T)
    requires SelectsAt(r, s, p, at)
    ensures if p(x) then SelectsAt(r + [x], s + [x], p, at + [|s|]) else SelectsAt(r, s + [x], p, at)
  {
    assert forall i | 0 <= i < |at| :: at[i] in at;
    forall n
      ensures n in (if p(x) then at + [|s|] else at) <==> 0 <= n < |s| + 1 && p((s + [x])[n])
    {
      if 0 <= n < |s| { assert (s + [x])[n] == s[n]; }
    }
  }

  lemma FilterSnoc<T(!new)>(s: seq<T>, x: T, p: T -> bool)
    ensures Filter(s + [x], p) == if p(x) then Filter(s, p) + [x] else Filter(s, p)
  {
    FilterConcat(s, [x], p);
    assert [x][1..] == [];
  }

  lemma {:induction false} FilterSelects<T(!new)>(s: seq<T>, p: T -> bool)
    ensures Selects(Filter(s, p), s, p)
  {
    if s == [] {
      assert SelectsAt([], s, p, []);
    } else {
      var init, x := s[..|s| - 1], s[|s| - 1];
      FilterSelects(init, p);
      var at :| SelectsAt(Filter(init, p), init, p, at);
      SelectsSnoc(Filter(init, p), init, p, at, x);
      FilterSnoc(init, x, p);
      assert s == init + [x];
    }
  }

  lemma {:induction false} FilterNone<T(!new)>(s: seq<T>, p: T -> bool)
    requires forall x | x in s :: !p(x)
    ensures Filter(s, p) == []
  {
    if s != [] {
      FilterNone(s[1..], p);
    }
  }

  lemma {:induction false} FilterMultiplicity<T(!new)>(s: seq<T>, p: T -> bool, x: T)
    ensures multiset(Filter(s, p))[x] == if p(x) then multiset(s)[x] else 0
  {
    if s != [] {
      FilterMultiplicity(s[1..], p, x);
      assert s == [s[0]] + s[1..];
      assert multiset(s) == multiset{s[0]} + multiset(s[1..]);
    }
  }

  /** A permutation filters to a permutation. */
  lemma FilterPermutation<T(!new)>(a: seq<T>, b: seq<T>, p: T -> bool)
    requires multiset(a) == multiset(b)
    ensures multiset(Filter(a, p)) == multiset(Filter(b, p)) && |Filter(a, p)| == |Filter(b, p)|
  {
    forall x ensures multiset(Filter(a, p))[x] == multiset(Filter(b, p))[x] {
      FilterMultiplicity(a, p, x);
      FilterMultiplicity(b, p, x);
    }
    assert |multiset(Filter(a, p))| == |Filter(a, p)|;
    assert |multiset(Filter(b, p))| == |Filter(b, p)|;
  }

  // ---------- sets ----------

  lemma HasElement<T(!new)>(s: set<T>)
    ensures s == {} || exists x :: x in s
  {
    if forall x :: x !in s {
      assert s == {};
    }
  }

  lemma Element<T(!new)>(s: set<T>) returns (x: T)
    requires s != {}
    ensures x in s
  {
    HasElement(s);
    x :| x in s;
  }

  // ---------- flat map ----------

  function FlatMap<S, T>(s: seq<S>, f: S -> seq<T>): seq<T> {
    if s == [] then [] else FlatMap(s[..|s| - 1], f) + f(s[|s| - 1])
  }

  lemma FlatMapOne<S, T>(x: S, f: S -> seq<T>)
    ensures FlatMap([x], f) == f(x)
  {
  }

  lemma {:induction false} FlatMapConcat<S, T>(a: seq<S>, b: seq<S>, f: S -> seq<T>)
    ensures FlatMap(a + b, f) == FlatMap(a, f) + FlatMap(b, f)
  {
    if b == [] {
      assert a + b == a;
    } else {
      var ab, init, last := a + b, b[..|b| - 1], b[|b| - 1];
      assert ab[..|ab| - 1] == a + init && ab[|ab| - 1] == last;
      FlatMapConcat(a, init, f);
      assert (FlatMap(a, f) + FlatMap(init, f)) + f(last) == FlatMap(a, f) + (FlatMap(init, f) + f(last));
    }
  }

  lemma {:induction false} FlatMapElement<S(!new), T(!new)>(s: seq<S>, f: S -> seq<T>, y: T)
    ensures y in FlatMap(s, f) <==> exists x :: x in s && y in f(x)
  {
    if s != [] {
      var init, last := s[..|s| - 1], s[|s| - 1];
      FlatMapElement(init, f, y);
      assert s == init + [last];
      if y in f(last) { assert last in s; }
      if x :| x in init && y in f(x) { assert x in s; }
      if x :| x in s && y in f(x) { assert x in init || x == last; }
    }
  }

  lemma {:induction false} FlatMapSingle<S, T>(s: seq<S>, f: S -> seq<T>)
    requires forall i | 0 <= i < |s| :: |f(s[i])| == 1
    ensures |FlatMap(s, f)| == |s|
    ensures forall i | 0 <= i < |s| :: FlatMap(s, f)[i] == f(s[i])[0]
  {
    if s != [] {
      FlatMapSingle(s[..|s| - 1], f);
    }
  }

  // ---------- keys ----------

  type Key = (int, int, int)

  predicate KeyLeq(a: Key, b: Key) {
    a.0 < b.0 || (a.0 == b.0 && (a.1 < b.1 || (a.1 == b.1 && a.2 <= b.2)))
  }

  ghost predicate SortedBy<T(!new)>(s: seq<T>, key: T -> Key) {
    forall i, j | 0 <= i <= j < |s| :: KeyLeq(key(s[i]), key(s[j]))
  }

  /** The elements of s carrying key k, in the order s has them. */
  function OfKey<T(!new)>(s: seq<T>, key: T -> Key, k: Key): seq<T> {
    Filter(s, x => key(x) == k)
  }

  lemma OfKeyConcat<T(!new)>(a: seq<T>, b: seq<T>, key: T -> Key, k: Key)
    ensures OfKey(a + b, key, k) == OfKey(a, key, k) + OfKey(b, key, k)
  {
    FilterConcat(a, b, x => key(x) == k);
  }

  lemma {:induction false} OfKeyFilter<T(!new)>(s: seq<T>, p: T -> bool, key: T -> Key, k: Key,
                                                both: T -> bool)
    requires forall x :: both(x) == (p(x) && key(x) == k)
    ensures OfKey(Filter(s, p), key, k) == Filter(s, both)
  {
    FilterFilter(s, p, x => key(x) == k, both);
  }

  /** t is s, stably sorted by key: ascending, and elements of equal key keep their order. */
  ghost predicate IsStableSort<T(!new)>(t: seq<T>, s: seq<T>, key: T -> Key) {
    && SortedBy(t, key)
    && forall k: Key :: OfKey(t, key, k) == OfKey(s, key, k)
  }

  // ---------- the sort ----------

  /** Puts x before every element of equal or larger key. */
  function Insert<T(!new)>(x: T, s: seq<T>, key: T -> Key): seq<T> {
    if s == [] || KeyLeq(key(x), key(s[0])) then [x] + s
    else [s[0]] + Insert(x, s[1..], key)
  }

  function StableSort<T(!new)>(s: seq<T>, key: T -> Key): seq<T> {
    if s == [] then [] else Insert(s[0], StableSort(s[1..], key), key)
  }

  lemma SortedCons<T(!new)>(x: T, s: seq<T>, key: T -> Key)
    requires SortedBy(s, key) && forall y | y in s :: KeyLeq(key(x), key(y))
    ensures SortedBy([x] + s, key)
  {
    var all := [x] + s;
    forall i, j | 0 <= i <= j < |all| ensures KeyLeq(key(all[i]), key(all[j])) {
      if i == 0 < j {
        assert all[j] == s[j - 1];
      } else if i > 0 {
        assert all[i] == s[i - 1] && all[j] == s[j - 1];
      }
    }
  }

  lemma HeadLeast<T(!new)>(s: seq<T>, key: T -> Key)
    requires s != [] && SortedBy(s, key)
    ensures forall y | y in s :: KeyLeq(key(s[0]), key(y))
    ensures SortedBy(s[1..], key)
  {
  }

  lemma {:induction false} InsertElements<T(!new)>(x: T, s: seq<T>, key: T -> Key)
    ensures multiset(Insert(x, s, key)) == multiset{x} + multiset(s)
    ensures forall y :: y in Insert(x, s, key) <==> y == x || y in s
  {
    if s != [] {
      InsertElements(x, s[1..], key);
      assert s == [s[0]] + s[1..];
    }
  }

  lemma {:induction false} InsertSorted<T(!new)>(x: T, s: seq<T>, key: T -> Key)
    requires SortedBy(s, key)
    ensures SortedBy(Insert(x, s, key), key)
    ensures multiset(Insert(x, s, key)) == multiset{x} + multiset(s)
  {
    InsertElements(x, s, key);
    if s != [] {
      HeadLeast(s, key);
    }
    if s == [] || KeyLeq(key(x), key(s[0])) {
      SortedCons(x, s, key);
    } else {
      InsertSorted(x, s[1..], key);
      InsertElements(x, s[1..], key);
      SortedCons(s[0], Insert(x, s[1..], key), key);
    }
  }

  lemma {:induction false} InsertOfKey<T(!new)>(x: T, s: seq<T>, key: T -> Key, k: Key)
    requires SortedBy(s, key)
    ensures OfKey(Insert(x, s, key), key, k) == OfKey([x] + s, key, k)
  {
    var p := y => key(y) == k;
    if s == [] || KeyLeq(key(x), key(s[0])) {
    } else {
      InsertOfKey(x, s[1..], key, k);
      FilterConcat([s[0]], Insert(x, s[1..], key), p);
      FilterConcat([s[0]], [x] + s[1..], p);
      FilterConcat([x], s, p);
      FilterConcat([x], s[1..], p);
      FilterConcat([s[0]], s[1..], p);
      assert s == [s[0]] + s[1..];
      assert Filter([s[0]], p) + Filter([x], p) == Filter([x], p) + Filter([s[0]], p);
    }
  }

  /** StableSort is a stable sort and a permutation. */
  lemma {:induction false} StableSortCorrect<T(!new)>(s: seq<T>, key: T -> Key)
    ensures IsStableSort(StableSort(s, key), s, key)
    ensures multiset(StableSort(s, key)) == multiset(s)
  {
    if s != [] {
      var rest := StableSort(s[1..], key);
      StableSortCorrect(s[1..], key);
      InsertSorted(s[0], rest, key);
      assert s == [s[0]] + s[1..];
      forall k: Key ensures OfKey(StableSort(s, key), key, k) == OfKey(s, key, k) {
        InsertOfKey(s[0], rest, key, k);
        FilterConcat([s[0]], rest, x => key(x) == k);
        FilterConcat([s[0]], s[1..], x => key(x) == k);
        assert OfKey(rest, key, k) == OfKey(s[1..], key, k);
      }
    }
  }

  lemma StableSortElements<T(!new)>(s: seq<T>, key: T -> Key)
    ensures forall x :: x in StableSort(s, key) <==> x in s
  {
    StableSortCorrect(s, key);
    forall x ensures x in StableSort(s, key) <==> x in s {
      assert x in multiset(StableSort(s, key)) <==> x in multiset(s);
    }
  }

  lemma SameKeysHead<T(!new)>(a: seq<T>, b: seq<T>, key: T -> Key)
    requires b != []
    requires OfKey(a, key, key(b[0])) == OfKey(b, key, key(b[0]))
    ensures b[0] in a
  {
  }

  /** A stable sort is determined by its input, so StableSort is the only one. */
  lemma {:induction false} StableSortUnique<T(!new)>(a: seq<T>, b: seq<T>, key: T -> Key)
    requires SortedBy(a, key) && SortedBy(b, key)
    requires forall k: Key :: OfKey(a, key, k) == OfKey(b, key, k)
    ensures a == b
  {
    if b != [] { SameKeysHead(a, b, key); }
    if a != [] {
      SameKeysHead(b, a, key);
      assert KeyLeq(key(a[0]), key(b[0])) && KeyLeq(key(b[0]), key(a[0]));
      assert OfKey(a, key, key(a[0]))[0] == a[0] && OfKey(b, key, key(b[0]))[0] == b[0];
      forall k: Key ensures OfKey(a[1..], key, k) == OfKey(b[1..], key, k) {
        assert OfKey(a, key, k) == OfKey(b, key, k);
        if key(a[0]) == k {
          assert OfKey(a, key, k)[1..] == OfKey(a[1..], key, k);
          assert OfKey(b, key, k)[1..] == OfKey(b[1..], key, k);
        }
      }
      StableSortUnique(a[1..], b[1..], key);
      assert a == [a[0]] + a[1..] && b == [b[0]] + b[1..];
    }
  }

  lemma StableSortIs<T(!new)>(s: seq<T>, t: seq<T>, key: T -> Key)
    requires IsStableSort(t, s, key)
    ensures StableSort(s, key) == t
  {
    StableSortCorrect(s, key);
    forall k: Key ensures OfKey(StableSort(s, key), key, k) == OfKey(t, key, k) {
      assert OfKey(t, key, k) == OfKey(s, key, k);
    }
    StableSortUnique(StableSort(s, key), t, key);
  }
}
