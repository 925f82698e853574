/**
 * The list operations the application applies to rows: `filter`, replace-by-id (`map`),
 * append, and the store's `order by`. Rows are kept generic; the caller supplies the
 * id column (`idOf`) or the ordering (`le`).
 */
module Seqs {
  import opened Wrappers

  /** `xs.filter(p)`: the elements that satisfy `p`, in their original order. */
  function Filter<T>(xs: seq<T>, p: T -> bool): (r: seq<T>)
    ensures |r| <= |xs|
    ensures forall i :: 0 <= i < |r| ==> p(r[i]) && r[i] in xs
    ensures forall i :: 0 <= i < |xs| && p(xs[i]) ==> xs[i] in r
  {
    if xs == [] then []
    else if p(xs[0]) then [xs[0]] + Filter(xs[1..], p)
    else Filter(xs[1..], p)
  }

  /** `a` is `b` with some elements left out, order kept. */
  ghost predicate Subsequence<T>(a: seq<T>, b: seq<T>)
    decreases |b|
  {
    if a == [] then true
    else if b == [] then false
    else if a[0] == b[0] then Subsequence(a[1..], b[1..])
    else Subsequence(a, b[1..])
  }

  lemma {:induction false} FilterIsSubsequence<T>(xs: seq<T>, p: T -> bool)
    ensures Subsequence(Filter(xs, p), xs)
  {
    if xs != [] {
      FilterIsSubsequence(xs[1..], p);
      var r := Filter(xs, p);
      if !p(xs[0]) && r != [] {
        assert r[0] in r;
        assert r[0] != xs[0];
      }
    }
  }

  lemma {:induction false} FilterKeepsAll<T>(xs: seq<T>, p: T -> bool)
    requires forall x :: x in xs ==> p(x)
    ensures Filter(xs, p) == xs
  {
    if xs != [] {
      assert xs[0] in xs;
      FilterKeepsAll(xs[1..], p);
      assert [xs[0]] + xs[1..] == xs;
    }
  }

  lemma {:induction false} FilterConcat<T>(a: seq<T>, b: seq<T>, p: T -> bool)
    ensures Filter(a + b, p) == Filter(a, p) + Filter(b, p)
  {
    if a == [] {
      assert a + b == b;
    } else {
      assert (a + b)[1..] == a[1..] + b;
      FilterConcat(a[1..], b, p);
    }
  }

  /** No element satisfies `p`: the filter is empty. */
  lemma {:induction false} FilterNone<T>(xs: seq<T>, p: T -> bool)
    requires forall j :: 0 <= j < |xs| ==> !p(xs[j])
    ensures Filter(xs, p) == []
  {
    if xs != [] {
      FilterNone(xs[1..], p);
    }
  }

  /** Exactly one element satisfies `p`: the filter is that element alone (`.single()` finds it). */
  lemma {:induction false} FilterOne<T>(xs: seq<T>, p: T -> bool, i: int)
    requires 0 <= i < |xs| && p(xs[i])
    requires forall j :: 0 <= j < |xs| && j != i ==> !p(xs[j])
    ensures Filter(xs, p) == [xs[i]]
  {
    if i == 0 {
      assert forall j :: 0 <= j < |xs| - 1 ==> xs[1..][j] == xs[j + 1];
      FilterNone(xs[1..], p);
    } else {
      FilterOne(xs[1..], p, i - 1);
    }
  }

  /** Two elements satisfy `p`: the filter has at least two (`.single()` refuses it). */
  lemma {:induction false} FilterTwo<T>(xs: seq<T>, p: T -> bool, i: int, j: int)
    requires 0 <= i < j < |xs| && p(xs[i]) && p(xs[j])
    ensures |Filter(xs, p)| >= 2
  {
    if i == 0 {
      assert xs[1..][j - 1] == xs[j];
      assert xs[j] in Filter(xs[1..], p);
    } else {
      FilterTwo(xs[1..], p, i - 1, j - 1);
    }
  }

  /** Membership in a filtered sequence: exactly the members that satisfy the predicate. */
  lemma FilterMembership<T>(xs: seq<T>, p: T -> bool, x: T)
    ensures x in Filter(xs, p) <==> x in xs && p(x)
  {
    if x in xs && p(x) {
      var i :| 0 <= i < |xs| && xs[i] == x;
    }
    if x in Filter(xs, p) {
      var i :| 0 <= i < |Filter(xs, p)| && Filter(xs, p)[i] == x;
    }
  }

  /** The predicate `p && q`, as one value so that lemmas can name it. */
  function Both<T>(p: T -> bool, q: T -> bool): T -> bool
  {
    x => p(x) && q(x)
  }

  lemma {:induction false} FilterFilter<T>(xs: seq<T>, p: T -> bool, q: T -> bool)
    ensures Filter(Filter(xs, p), q) == Filter(xs, Both(p, q))
  {
    if xs != [] {
      FilterFilter(xs[1..], p, q);
    }
  }

  /** One step of the filter, as multisets: the head counts when it passes. */
  lemma FilterStep<T>(xs: seq<T>, p: T -> bool)
    requires xs != []
    ensures multiset(xs) == multiset{xs[0]} + multiset(xs[1..])
    ensures multiset(Filter(xs, p))
         == (if p(xs[0]) then multiset{xs[0]} else multiset{}) + multiset(Filter(xs[1..], p))
  {
    assert xs == [xs[0]] + xs[1..];
    if p(xs[0]) {
      assert Filter(xs, p) == [xs[0]] + Filter(xs[1..], p);
    }
  }

  lemma {:induction false} FilterMultiset<T>(xs: seq<T>, p: T -> bool)
    ensures multiset(Filter(xs, p)) <= multiset(xs)
  {
    if xs != [] {
      FilterMultiset(xs[1..], p);
      FilterStep(xs, p);
    }
  }

  /** The predicate "the id column is not `id`". */
  function NotId<T>(idOf: T -> string, id: string): T -> bool
  {
    x => idOf(x) != id
  }

  /** `prev.filter(x => x.id !== id)`: drop the rows with that id. */
  function RemoveById<T>(xs: seq<T>, idOf: T -> string, id: string): (r: seq<T>)
    ensures forall i :: 0 <= i < |r| ==> idOf(r[i]) != id && r[i] in xs
    ensures forall i :: 0 <= i < |xs| && idOf(xs[i]) != id ==> xs[i] in r
  {
    Filter(xs, NotId(idOf, id))
  }

  /** `prev.map(x => x.id === id ? y : x)`: put `y` where the id matches. */
  function ReplaceById<T>(xs: seq<T>, idOf: T -> string, id: string, y: T): (r: seq<T>)
    ensures |r| == |xs|
    ensures forall i :: 0 <= i < |xs| && idOf(xs[i]) != id ==> r[i] == xs[i]
    ensures forall i :: 0 <= i < |xs| && idOf(xs[i]) == id ==> r[i] == y
  {
    if xs == [] then []
    else [if idOf(xs[0]) == id then y else xs[0]] + ReplaceById(xs[1..], idOf, id, y)
  }

  /** Replacing by id touches nothing else: the other rows stay, in order. */
  lemma {:induction false} ReplaceKeepsOthers<T>(xs: seq<T>, idOf: T -> string, id: string, y: T)
    requires idOf(y) == id
    ensures RemoveById(ReplaceById(xs, idOf, id, y), idOf, id) == RemoveById(xs, idOf, id)
  {
    if xs != [] {
      ReplaceKeepsOthers(xs[1..], idOf, id, y);
      var r := ReplaceById(xs, idOf, id, y);
      assert r[1..] == ReplaceById(xs[1..], idOf, id, y);
    }
  }

  /** Replacing an id that is not in the list changes nothing. */
  lemma {:induction false} ReplaceAbsent<T>(xs: seq<T>, idOf: T -> string, id: string, y: T)
    requires forall x :: x in xs ==> idOf(x) != id
    ensures ReplaceById(xs, idOf, id, y) == xs
  {
    if xs != [] {
      assert xs[0] in xs;
      ReplaceAbsent(xs[1..], idOf, id, y);
      assert [xs[0]] + xs[1..] == xs;
    }
  }

  /** Removing an id that is not in the list changes nothing. */
  lemma RemoveAbsent<T>(xs: seq<T>, idOf: T -> string, id: string)
    requires forall x :: x in xs ==> idOf(x) != id
    ensures RemoveById(xs, idOf, id) == xs
  {
    FilterKeepsAll(xs, NotId(idOf, id));
  }

  /** Appending a row and then removing its id gives back the list without that id. */
  lemma AppendThenRemove<T>(xs: seq<T>, idOf: T -> string, y: T)
    ensures RemoveById(xs + [y], idOf, idOf(y)) == RemoveById(xs, idOf, idOf(y))
  {
    FilterConcat(xs, [y], NotId(idOf, idOf(y)));
  }

  /** `xs.map(f)`. */
  function Map<A, B>(xs: seq<A>, f: A -> B): (r: seq<B>)
    ensures |r| == |xs|
    ensures forall i :: 0 <= i < |xs| ==> r[i] == f(xs[i])
  {
    if xs == [] then [] else [f(xs[0])] + Map(xs[1..], f)
  }

  /** The predicate `!p`. */
  function Not<T>(p: T -> bool): T -> bool
  {
    x => !p(x)
  }

  /** An `update ... where p`: every row satisfying `p` becomes `f(row)`, the others stay. */
  function MapWhere<T>(xs: seq<T>, p: T -> bool, f: T -> T): (r: seq<T>)
    ensures |r| == |xs|
    ensures forall i :: 0 <= i < |xs| && !p(xs[i]) ==> r[i] == xs[i]
    ensures forall i :: 0 <= i < |xs| && p(xs[i]) ==> r[i] == f(xs[i])
  {
    if xs == [] then []
    else [if p(xs[0]) then f(xs[0]) else xs[0]] + MapWhere(xs[1..], p, f)
  }

  /** `le` is total and transitive: what an `order by` on one column gives. */
  ghost predicate TotalPreorder<T(!new)>(le: (T, T) -> bool)
  {
    && (forall a, b :: le(a, b) || le(b, a))
    && (forall a, b, c :: le(a, b) && le(b, c) ==> le(a, c))
  }

  ghost predicate SortedBy<T>(xs: seq<T>, le: (T, T) -> bool)
  {
    forall i, j :: 0 <= i < j < |xs| ==> le(xs[i], xs[j])
  }

  function Insert<T>(x: T, xs: seq<T>, le: (T, T) -> bool): (r: seq<T>)
    ensures multiset(r) == multiset(xs) + multiset{x}
  {
    if xs == [] then [x]
    else if le(x, xs[0]) then [x] + xs
    else
      assert xs == [xs[0]] + xs[1..];
      [xs[0]] + Insert(x, xs[1..], le)
  }

  /** The rows in the order the store returns them for `order by le`. */
  function SortBy<T>(xs: seq<T>, le: (T, T) -> bool): (r: seq<T>)
    ensures multiset(r) == multiset(xs)
  {
    if xs == [] then []
    else
      assert xs == [xs[0]] + xs[1..];
      Insert(xs[0], SortBy(xs[1..], le), le)
  }

  lemma {:induction false} InsertSorted<T(!new)>(x: T, xs: seq<T>, le: (T, T) -> bool)
    requires TotalPreorder(le)
    requires SortedBy(xs, le)
    ensures SortedBy(Insert(x, xs, le), le)
  {
    if xs != [] && !le(x, xs[0]) {
      InsertSorted(x, xs[1..], le);
      var r := Insert(x, xs, le);
      var t := Insert(x, xs[1..], le);
      assert r == [xs[0]] + t;
      forall k | 0 <= k < |t|
        ensures le(xs[0], t[k])
      {
        assert t[k] in multiset(t);
        if t[k] != x {
          assert t[k] in multiset(xs[1..]);
          assert t[k] in xs[1..];
        }
      }
    }
  }

  lemma {:induction false} SortBySorted<T(!new)>(xs: seq<T>, le: (T, T) -> bool)
    requires TotalPreorder(le)
    ensures SortedBy(SortBy(xs, le), le)
  {
    if xs != [] {
      SortBySorted(xs[1..], le);
      InsertSorted(xs[0], SortBy(xs[1..], le), le);
    }
  }

  /** The store's `order by` keeps exactly the rows it was given and sorts them. */
  lemma SortByIsOrdering<T(!new)>(xs: seq<T>, le: (T, T) -> bool)
    requires TotalPreorder(le)
    ensures multiset(SortBy(xs, le)) == multiset(xs)
    ensures forall x :: x in SortBy(xs, le) <==> x in xs
    ensures SortedBy(SortBy(xs, le), le)
  {
    SortBySorted(xs, le);
    var r := SortBy(xs, le);
    forall x
      ensures x in r <==> x in xs
    {
      assert x in r <==> x in multiset(r);
      assert x in xs <==> x in multiset(xs);
    }
  }
  /** How often `x` occurs in `Filter(xs, p)`: as often as in `xs` when `p(x)`, else never. */
  lemma {:induction false} FilterCount<T>(xs: seq<T>, p: T -> bool, x: T)
    ensures multiset(Filter(xs, p))[x] == if p(x) then multiset(xs)[x] else 0
  {
    if xs != [] {
      FilterCount(xs[1..], p, x);
      FilterStep(xs, p);
    }
  }

  /** Filtering rows that are a permutation of each other gives a permutation again. */
  lemma FilterPermutation<T>(a: seq<T>, b: seq<T>, p: T -> bool)
    requires multiset(a) == multiset(b)
    ensures multiset(Filter(a, p)) == multiset(Filter(b, p))
  {
    forall x
      ensures multiset(Filter(a, p))[x] == multiset(Filter(b, p))[x]
    {
      FilterCount(a, p, x);
      FilterCount(b, p, x);
    }
  }

  /** Two filters commute, up to the order nothing changes anyway. */
  lemma FilterCommute<T>(xs: seq<T>, p: T -> bool, q: T -> bool)
    ensures Filter(Filter(xs, p), q) == Filter(Filter(xs, q), p)
  {
    FilterFilter(xs, p, q);
    FilterFilter(xs, q, p);
    FilterSamePredicate(xs, Both(p, q), Both(q, p));
  }

  /** Filters by predicates that agree on every element are the same. */
  lemma {:induction false} FilterSamePredicate<T>(xs: seq<T>, p: T -> bool, q: T -> bool)
    requires forall i :: 0 <= i < |xs| ==> p(xs[i]) == q(xs[i])
    ensures Filter(xs, p) == Filter(xs, q)
  {
    if xs != [] {
      assert forall i :: 0 <= i < |xs| - 1 ==> xs[1..][i] == xs[i + 1];
      FilterSamePredicate(xs[1..], p, q);
    }
  }

  /** `xs.find(p)`: the first element satisfying `p`, if any. */
  function Find<T>(xs: seq<T>, p: T -> bool): (r: Option<T>)
    ensures r.None? <==> forall i :: 0 <= i < |xs| ==> !p(xs[i])
    ensures r.Some? ==> exists i :: 0 <= i < |xs| && xs[i] == r.value && p(xs[i])
                                    && forall j :: 0 <= j < i ==> !p(xs[j])
  {
    if xs == [] then None
    else if p(xs[0]) then Some(xs[0])
    else
      var r := Find(xs[1..], p);
      if r.Some? then
        ghost var k :| 0 <= k < |xs| - 1 && xs[1..][k] == r.value && p(xs[1..][k])
                       && forall j :: 0 <= j < k ==> !p(xs[1..][j]);
        assert xs[k + 1] == r.value;
        r
      else r
  }
  lemma MapConcat<A, B>(a: seq<A>, b: seq<A>, f: A -> B)
    ensures Map(a + b, f) == Map(a, f) + Map(b, f)
  {
    assert forall i :: 0 <= i < |a + b| ==> Map(a + b, f)[i] == (Map(a, f) + Map(b, f))[i];
  }

  /** Mapping rows that are a permutation of each other gives a permutation again. */
  lemma {:induction false} MapPermutation<A, B>(a: seq<A>, b: seq<A>, f: A -> B)
    requires multiset(a) == multiset(b)
    ensures multiset(Map(a, f)) == multiset(Map(b, f))
    decreases |a|
  {
    if a == [] {
      assert |multiset(b)| == 0;
    } else {
      assert a[0] in multiset(b);
      var k :| 0 <= k < |b| && b[k] == a[0];
      var rest := b[..k] + b[k + 1..];
      RemoveAtMultiset(b, k);
      assert a == [a[0]] + a[1..];
      assert multiset(a[1..]) == multiset(rest);
      MapPermutation(a[1..], rest, f);
      MapRemoveAt(b, k, f);
      MapConcat([a[0]], a[1..], f);
    }
  }

  /** Taking out the element at `k` takes it out of the multiset. */
  lemma RemoveAtMultiset<A>(b: seq<A>, k: int)
    requires 0 <= k < |b|
    ensures multiset(b[..k] + b[k + 1..]) == multiset(b) - multiset{b[k]}
  {
    assert b == b[..k] + [b[k]] + b[k + 1..];
  }

  /** Mapping a sequence maps the element at `k` and the rest around it. */
  lemma MapRemoveAt<A, B>(b: seq<A>, k: int, f: A -> B)
    requires 0 <= k < |b|
    ensures multiset(Map(b, f)) == multiset{f(b[k])} + multiset(Map(b[..k] + b[k + 1..], f))
  {
    var x, y := b[..k], b[k + 1..];
    var mx, my := Map(x, f), Map(y, f);
    MapAround(b, k, f);
    MapConcat(x, y, f);
    assert Map(b, f) == mx + [f(b[k])] + my;
    assert multiset(Map(b, f)) == multiset(mx) + multiset{f(b[k])} + multiset(my);
  }

  /** Mapping `b` is mapping what comes before `k`, the element at `k`, and what comes after. */
  lemma MapAround<A, B>(b: seq<A>, k: int, f: A -> B)
    requires 0 <= k < |b|
    ensures Map(b, f) == Map(b[..k], f) + [f(b[k])] + Map(b[k + 1..], f)
  {
    var r := Map(b[..k], f) + [f(b[k])] + Map(b[k + 1..], f);
    assert |r| == |b|;
    forall i | 0 <= i < |b|
      ensures Map(b, f)[i] == r[i]
    {
      if i < k {
        assert r[i] == Map(b[..k], f)[i] == f(b[..k][i]);
      } else if i == k {
        assert r[i] == f(b[k]);
      } else {
        assert r[i] == Map(b[k + 1..], f)[i - k - 1] == f(b[k + 1..][i - k - 1]);
      }
    }
  }

  /** An update touches the matching rows and keeps the others, as multisets. */
  lemma {:induction false} MapWhereMultiset<T>(xs: seq<T>, p: T -> bool, f: T -> T)
    ensures multiset(MapWhere(xs, p, f)) == multiset(Map(Filter(xs, p), f)) + multiset(Filter(xs, Not(p)))
  {
    if xs != [] {
      MapWhereMultiset(xs[1..], p, f);
      var r := MapWhere(xs, p, f);
      assert r == [r[0]] + MapWhere(xs[1..], p, f);
      if p(xs[0]) {
        MapConcat([xs[0]], Filter(xs[1..], p), f);
      }
    }
  }

  /** Rewriting where exactly one element matches rewrites that element and keeps the others. */
  lemma MapWhereSingle<T>(xs: seq<T>, p: T -> bool, f: T -> T)
    requires |Filter(xs, p)| == 1
    ensures forall i :: 0 <= i < |xs| ==>
      MapWhere(xs, p, f)[i] == if p(xs[i]) then f(Filter(xs, p)[0]) else xs[i]
  {
    forall i | 0 <= i < |xs| && p(xs[i])
      ensures xs[i] == Filter(xs, p)[0]
    {
      assert xs[i] in Filter(xs, p);
    }
  }

  /** Restricting to a scope and updating commute, when the update keeps rows in or out of scope. */
  lemma {:induction false} FilterMapWhere<T>(xs: seq<T>, s: T -> bool, p: T -> bool, f: T -> T)
    requires forall x :: p(x) ==> s(f(x)) == s(x)
    ensures Filter(MapWhere(xs, p, f), s) == MapWhere(Filter(xs, s), p, f)
  {
    if xs != [] {
      FilterMapWhere(xs[1..], s, p, f);
      var r := MapWhere(xs, p, f);
      assert r[1..] == MapWhere(xs[1..], p, f);
    }
  }
}
