/**
 * What the browser-side hooks have in common: how an operation ends, the guard most of them
 * start with, the string order behind `order('name')`, and what it means for a hook's local
 * list to be in step with the store.
 */
module Client {
  import opened Wrappers
  import opened Records
  import opened Seqs

  /**
   * How a hook operation ends: it returns early without doing anything (the guard on the
   * signed-in user and the clinic), returns a value, or rethrows the store's error.
   */
  datatype Outcome<T> = Skipped | Returned(value: T) | Threw

  /** `user && currentClinic`: the guard at the head of the clinic-scoped operations. */
  predicate Ready(user: Option<Id>, clinic: Option<Clinic>)
  {
    user.Some? && clinic.Some?
  }

  /**
   * `order('name')` on a text column, taken as code-unit order: a proper prefix comes first,
   * otherwise the first differing character decides.
   */
  predicate LexLe(a: string, b: string)
  {
    a == [] || (b != [] && (a[0] < b[0] || (a[0] == b[0] && LexLe(a[1..], b[1..]))))
  }

  lemma {:induction false} LexLeTotal(a: string, b: string)
    ensures LexLe(a, b) || LexLe(b, a)
  {
    if a != [] && b != [] && a[0] == b[0] {
      LexLeTotal(a[1..], b[1..]);
    }
  }

  lemma {:induction false} LexLeTransitive(a: string, b: string, c: string)
    requires LexLe(a, b) && LexLe(b, c)
    ensures LexLe(a, c)
  {
    if a != [] && a[0] == b[0] && b[0] == c[0] {
      LexLeTransitive(a[1..], b[1..], c[1..]);
    }
  }

  lemma {:induction false} LexLeAntisymmetric(a: string, b: string)
    requires LexLe(a, b) && LexLe(b, a)
    ensures a == b
  {
    if a != [] {
      LexLeAntisymmetric(a[1..], b[1..]);
      assert a == [a[0]] + a[1..] && b == [b[0]] + b[1..];
    }
  }

  /**
   * A hook's list is in step with the store when it holds exactly the store's rows that
   * the hook's scope `inScope` selects, each as often, in any order.
   */
  ghost predicate InStep<T>(cache: seq<T>, rows: seq<T>, inScope: T -> bool)
  {
    multiset(cache) == multiset(Filter(rows, inScope))
  }

  /** Loading the scope's rows, in whatever order the store sorts them, puts the list in step. */
  lemma LoadedIsInStep<T>(rows: seq<T>, inScope: T -> bool, le: (T, T) -> bool)
    ensures InStep(SortBy(Filter(rows, inScope), le), rows, inScope)
  {
  }

  /** Appending the inserted row to both keeps them in step, when the row is in scope. */
  lemma AppendKeepsInStep<T>(cache: seq<T>, rows: seq<T>, inScope: T -> bool, y: T)
    requires InStep(cache, rows, inScope) && inScope(y)
    ensures InStep(cache + [y], rows + [y], inScope)
  {
    FilterConcat(rows, [y], inScope);
    assert Filter([y], inScope) == [y] by {
      assert [y][1..] == [];
    }
  }

  /**
   * A delete in the store and the matching `filter` on the list keep them in step, when the
   * two agree on which in-scope rows survive.
   */
  lemma RemoveKeepsInStep<T>(cache: seq<T>, rows: seq<T>, inScope: T -> bool,
                             keepInCache: T -> bool, keepInStore: T -> bool)
    requires InStep(cache, rows, inScope)
    requires forall x :: inScope(x) ==> keepInCache(x) == keepInStore(x)
    ensures InStep(Filter(cache, keepInCache), Filter(rows, keepInStore), inScope)
  {
    var scoped := Filter(rows, inScope);
    FilterPermutation(cache, scoped, keepInCache);
    FilterSamePredicate(scoped, keepInCache, keepInStore);
    FilterCommute(rows, inScope, keepInStore);
  }
  /**
   * An update in the store and the same update on the list keep them in step, when the
   * update moves no row into or out of scope.
   */
  lemma UpdateKeepsInStep<T>(cache: seq<T>, rows: seq<T>, inScope: T -> bool,
                             hit: T -> bool, f: T -> T)
    requires InStep(cache, rows, inScope)
    requires forall x :: hit(x) ==> inScope(f(x)) == inScope(x)
    ensures InStep(MapWhere(cache, hit, f), MapWhere(rows, hit, f), inScope)
  {
    var scoped := Filter(rows, inScope);
    FilterMapWhere(rows, inScope, hit, f);
    MapWhereMultiset(cache, hit, f);
    MapWhereMultiset(scoped, hit, f);
    FilterPermutation(cache, scoped, hit);
    FilterPermutation(cache, scoped, Not(hit));
    MapPermutation(Filter(cache, hit), Filter(scoped, hit), f);
  }
  /**
   * When the store's update found exactly one row `h`, and in scope the rows it matches are
   * the rows with that id, the list's `map(x => x.id === id ? updated : x)` is the same
   * update applied to the list.
   */
  lemma ReplaceIsUpdate<T>(cache: seq<T>, rows: seq<T>, inScope: T -> bool,
                           idOf: T -> string, id: string, hit: T -> bool, f: T -> T, h: T)
    requires InStep(cache, rows, inScope)
    requires Filter(rows, hit) == [h]
    requires forall x :: inScope(x) ==> (hit(x) <==> idOf(x) == id)
    ensures ReplaceById(cache, idOf, id, f(h)) == MapWhere(cache, hit, f)
  {
    var scoped := Filter(rows, inScope);
    FilterPermutation(cache, scoped, hit);
    FilterCommute(rows, inScope, hit);
    FilterMultiset([h], inScope);
    forall i | 0 <= i < |cache|
      ensures ReplaceById(cache, idOf, id, f(h))[i] == MapWhere(cache, hit, f)[i]
    {
      var x := cache[i];
      assert x in multiset(scoped);
      assert x in scoped;
      if idOf(x) == id {
        assert x in Filter(cache, hit);
        assert x in multiset(Filter(scoped, hit));
      }
    }
  }
}
