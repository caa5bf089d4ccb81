/** The list operations the routes and dashboards are built from: `filter`, counting,
    the stable `sort` by a numeric key (newest first) and `new Set(...)` de-duplication. */
module Seqs {

  /** `s.filter(p)`: the order-preserving subsequence of the elements satisfying `p`. */
  function Filter<T(!new)>(s: seq<T>, p: T -> bool): (r: seq<T>)
    ensures |r| <= |s|
    ensures forall x :: x in r <==> x in s && p(x)
  {
    if s == [] then []
    else
      assert s == [s[0]] + s[1..];
      (if p(s[0]) then [s[0]] else []) + Filter(s[1..], p)
  }

  /** A filter whose predicate holds of every element keeps the whole list, in order. */
  lemma {:induction false} FilterKeepsAll<T(!new)>(s: seq<T>, p: T -> bool)
    requires forall x :: x in s ==> p(x)
    ensures Filter(s, p) == s
  {
    if s != [] {
      FilterKeepsAll(s[1..], p);
    }
  }

  /** Filtering distributes over concatenation. */
  lemma {:induction false} FilterConcat<T(!new)>(a: seq<T>, b: seq<T>, p: T -> bool)
    ensures Filter(a + b, p) == Filter(a, p) + Filter(b, p)
  {
    if a == [] {
      assert a + b == b;
    } else {
      var h := if p(a[0]) then [a[0]] else [];
      calc {
        Filter(a + b, p);
      == { assert a + b == [a[0]] + (a[1..] + b); FilterCons(a[0], a[1..] + b, p); }
        h + Filter(a[1..] + b, p);
      == { FilterConcat(a[1..], b, p); }
        h + (Filter(a[1..], p) + Filter(b, p));
      ==
        (h + Filter(a[1..], p)) + Filter(b, p);
      == { FilterCons(a[0], a[1..], p); assert [a[0]] + a[1..] == a; }
        Filter(a, p) + Filter(b, p);
      }
    }
  }

  /** `m` lists the positions that `r`, a filter of `s` by `p`, takes its elements from:
      strictly increasing, each element of `r` read from its position, and every position
      whose element satisfies `p` taken. */
  ghost predicate PicksInOrder<T>(s: seq<T>, p: T -> bool, r: seq<T>, m: seq<int>)
  {
    && |m| == |r|
    && (forall j :: 0 <= j < |m| ==> 0 <= m[j] < |s| && r[j] == s[m[j]])
    && (forall j, k :: 0 <= j < k < |m| ==> m[j] < m[k])
    && (forall i :: 0 <= i < |s| && p(s[i]) ==> i in m)
  }

  /** The positions the filter keeps: so `s.filter(p)` is the order-preserving subsequence
      of the elements satisfying `p`. */
  function FilterIndices<T(!new)>(s: seq<T>, p: T -> bool): (m: seq<int>)
    ensures PicksInOrder(s, p, Filter(s, p), m)
  {
    if s == [] then []
    else
      var t, x := s[..|s| - 1], s[|s| - 1];
      assert s == t + [x];
      FilterSnoc(t, x, p);
      PicksSnoc(t, x, p, Filter(t, p), FilterIndices(t, p));
      FilterIndices(t, p) + (if p(x) then [|t|] else [])
  }

  lemma PicksSnoc<T>(t: seq<T>, x: T, p: T -> bool, rt: seq<T>, mt: seq<int>)
    requires PicksInOrder(t, p, rt, mt)
    ensures PicksInOrder(t + [x], p, rt + (if p(x) then [x] else []),
                         mt + (if p(x) then [|t|] else []))
  {
    var s := t + [x];
    var m := mt + (if p(x) then [|t|] else []);
    var r := rt + (if p(x) then [x] else []);
    assert forall j :: 0 <= j < |mt| ==> m[j] == mt[j] && r[j] == rt[j];
    assert forall i :: 0 <= i < |t| ==> s[i] == t[i];
    forall i | 0 <= i < |s| && p(s[i]) ensures i in m {
      if i < |t| {
        assert t[i] == s[i] && i in mt;
      }
    }
  }

  /** Filtering a list with one more element at the end. */
  lemma FilterSnoc<T(!new)>(t: seq<T>, x: T, p: T -> bool)
    ensures Filter(t + [x], p) == Filter(t, p) + (if p(x) then [x] else [])
  {
    FilterConcat(t, [x], p);
    FilterCons(x, [], p);
    assert [x] + [] == [x];
  }

  /** The number of elements satisfying `p`: `s.filter(p).length`. */
  function Count<T(!new)>(s: seq<T>, p: T -> bool): (n: nat)
    ensures n <= |s|
  {
    |Filter(s, p)|
  }
  /** The positions whose element satisfies `p`. */
  ghost function IndexSet<T>(s: seq<T>, p: T -> bool): set<int>
  {
    set i | 0 <= i < |s| && p(s[i])
  }

  /** The count is the number of positions whose element satisfies `p`. */
  lemma {:induction false} CountIsIndexCount<T(!new)>(s: seq<T>, p: T -> bool)
    ensures Count(s, p) == |IndexSet(s, p)|
  {
    if s != [] {
      var t, x := s[..|s| - 1], s[|s| - 1];
      CountIsIndexCount(t, p);
      assert s == t + [x];
      FilterSnoc(t, x, p);
      IndexSetSnoc(t, x, p);
      assert |t| !in IndexSet(t, p);
    }
  }

  lemma IndexSetSnoc<T>(t: seq<T>, x: T, p: T -> bool)
    ensures IndexSet(t + [x], p) == IndexSet(t, p) + (if p(x) then {|t|} else {})
  {
    var s := t + [x];
    forall i | 0 <= i < |t| ensures s[i] == t[i] {
    }
  }

  /** Elements satisfying pairwise exclusive predicates are counted at most once. */
  lemma {:induction false} CountExclusive3<T(!new)>(s: seq<T>, p: T -> bool, q: T -> bool, r: T -> bool)
    requires forall x :: !(p(x) && q(x)) && !(p(x) && r(x)) && !(q(x) && r(x))
    ensures Count(s, p) + Count(s, q) + Count(s, r) <= |s|
  {
    if s != [] {
      CountExclusive3(s[1..], p, q, r);
    }
  }

  /** Sorted by `key`, largest first. */
  ghost predicate SortedDesc<T>(s: seq<T>, key: T -> int)
  {
    forall i, j :: 0 <= i < j < |s| ==> key(s[i]) >= key(s[j])
  }

  /** Places `x` before the first element whose key is not larger than its own. */
  function InsertDesc<T>(x: T, s: seq<T>, key: T -> int): (r: seq<T>)
    requires SortedDesc(s, key)
    ensures SortedDesc(r, key)
    ensures multiset(r) == multiset{x} + multiset(s)
    ensures |r| == |s| + 1
  {
    if s == [] || key(s[0]) <= key(x) then
      ConsSorted(x, s, key);
      [x] + s
    else
      var t := InsertDesc(x, s[1..], key);
      assert s == [s[0]] + s[1..];
      assert forall y :: y in t ==> key(s[0]) >= key(y) by {
        forall y | y in t ensures key(s[0]) >= key(y) {
          assert y in multiset(t);
          if y != x {
            assert y in multiset(s[1..]);
            var k :| 0 <= k < |s[1..]| && s[1..][k] == y;
            assert s[k + 1] == y;
          }
        }
      }
      ConsSorted(s[0], t, key);
      [s[0]] + t
  }

  lemma ConsSorted<T>(h: T, t: seq<T>, key: T -> int)
    requires SortedDesc(t, key)
    requires forall y :: y in t ==> key(h) >= key(y)
    ensures SortedDesc([h] + t, key)
  {
    var r := [h] + t;
    forall i, j | 0 <= i < j < |r| ensures key(r[i]) >= key(r[j]) {
      assert r[j] == t[j - 1];
      if i > 0 {
        assert r[i] == t[i - 1];
      }
    }
  }

  /** `s.sort((a, b) => key(b) - key(a))`: a stable sort, newest (largest key) first.
      Equal keys keep their input order (see SortDescStable). */
  function SortDesc<T>(s: seq<T>, key: T -> int): (r: seq<T>)
    ensures SortedDesc(r, key)
    ensures multiset(r) == multiset(s)
    ensures |r| == |s|
  {
    if s == [] then []
    else
      assert s == [s[0]] + s[1..];
      InsertDesc(s[0], SortDesc(s[1..], key), key)
  }

  lemma {:induction false} InsertDescSelect<T(!new)>(x: T, s: seq<T>, key: T -> int, p: T -> bool, k: int)
    requires SortedDesc(s, key)
    requires forall y :: p(y) ==> key(y) == k
    ensures Filter(InsertDesc(x, s, key), p) == (if p(x) then [x] else []) + Filter(s, p)
  {
    if s == [] || key(s[0]) <= key(x) {
      FilterCons(x, s, p);
    } else {
      var t := InsertDesc(x, s[1..], key);
      assert InsertDesc(x, s, key) == [s[0]] + t;
      var h0 := if p(s[0]) then [s[0]] else [];
      var hx := if p(x) then [x] else [];
      assert p(s[0]) ==> key(s[0]) == k;
      assert p(x) ==> key(x) == k;
      InsertDescSelect(x, s[1..], key, p, k);
      FilterCons(s[0], t, p);
      FilterCons(s[0], s[1..], p);
      assert [s[0]] + s[1..] == s;
      SwapHeads(h0, hx, Filter(s[1..], p));
    }
  }

  /** Two prefixes of which one is empty can be swapped. */
  lemma SwapHeads<T>(a: seq<T>, b: seq<T>, c: seq<T>)
    requires a == [] || b == []
    ensures a + (b + c) == b + (a + c)
  {
    if a == [] {
      assert a + (b + c) == b + c == b + (a + c);
    } else {
      assert a + (b + c) == a + c == b + (a + c);
    }
  }

  lemma FilterCons<T(!new)>(h: T, t: seq<T>, p: T -> bool)
    ensures Filter([h] + t, p) == (if p(h) then [h] else []) + Filter(t, p)
  {
    assert ([h] + t)[0] == h && ([h] + t)[1..] == t;
  }

  /** Stability: the elements picked out by any predicate that only selects elements of key `k`
      appear in the sorted list in the same order as in the input. */
  lemma {:induction false} SortDescStable<T(!new)>(s: seq<T>, key: T -> int, p: T -> bool, k: int)
    requires forall y :: p(y) ==> key(y) == k
    ensures Filter(SortDesc(s, key), p) == Filter(s, p)
  {
    if s != [] {
      SortDescStable(s[1..], key, p, k);
      InsertDescSelect(s[0], SortDesc(s[1..], key), key, p, k);
    }
  }

  /** Selects the elements whose key is `k`. */
  function KeyIs<T(!new)>(key: T -> int, k: int): (p: T -> bool)
    ensures forall y :: p(y) <==> key(y) == k
  {
    y => key(y) == k
  }

  /** Stability for every key at once: the elements sharing a key keep their input order. */
  lemma SortDescKeepsTies<T(!new)>(s: seq<T>, key: T -> int)
    ensures forall k :: Filter(SortDesc(s, key), KeyIs(key, k)) == Filter(s, KeyIs(key, k))
  {
    forall k ensures Filter(SortDesc(s, key), KeyIs(key, k)) == Filter(s, KeyIs(key, k)) {
      SortDescStable(s, key, KeyIs(key, k), k);
    }
  }

  /** No element occurs twice. */
  ghost predicate NoDuplicates<T>(s: seq<T>)
  {
    forall i, j :: 0 <= i < j < |s| ==> s[i] != s[j]
  }

  /** `Array.from(new Set(s))`: each element once, at the place of its first appearance. */
  function Dedup<T(==,!new)>(s: seq<T>): (r: seq<T>)
    ensures NoDuplicates(r)
    ensures forall x :: x in r <==> x in s
    ensures |r| <= |s|
  {
    if s == [] then []
    else
      var d := Dedup(s[..|s| - 1]);
      assert s == s[..|s| - 1] + [s[|s| - 1]];
      if s[|s| - 1] in d then d else d + [s[|s| - 1]]
  }
  /** First-appearance order: de-duplicating a longer list only appends to the result of
      de-duplicating its prefix. */
  lemma {:induction false} DedupPrefix<T(!new)>(a: seq<T>, b: seq<T>)
    ensures Dedup(a) <= Dedup(a + b)
  {
    if b == [] {
      assert a + b == a;
    } else {
      var b' := b[..|b| - 1];
      DedupPrefix(a, b');
      assert (a + b)[..|a + b| - 1] == a + b';
    }
  }
  /** How often `x` occurs after filtering: as often as before when it satisfies `p`, never
      otherwise. */
  lemma {:induction false} FilterMultiplicity<T(!new)>(s: seq<T>, p: T -> bool, x: T)
    ensures multiset(Filter(s, p))[x] == if p(x) then multiset(s)[x] else 0
  {
    if s != [] {
      FilterMultiplicity(s[1..], p, x);
      FilterCons(s[0], s[1..], p);
      assert s == [s[0]] + s[1..];
    }
  }
  /** Elements satisfying exclusive predicates are counted at most once. */
  lemma {:induction false} CountExclusive2<T(!new)>(s: seq<T>, p: T -> bool, q: T -> bool)
    requires forall x :: !(p(x) && q(x))
    ensures Count(s, p) + Count(s, q) <= |s|
  {
    if s != [] {
      CountExclusive2(s[1..], p, q);
    }
  }

  /** A stronger predicate never counts more. */
  lemma {:induction false} CountMonotone<T(!new)>(s: seq<T>, p: T -> bool, q: T -> bool)
    requires forall x :: p(x) ==> q(x)
    ensures Count(s, p) <= Count(s, q)
  {
    if s != [] {
      CountMonotone(s[1..], p, q);
    }
  }
}
