/** Filtering and stable sorting of lists, and what determines a stable sort's result. */
module StableSort {

  type SortKey = (real, real)

  predicate KeyLe(a: SortKey, b: SortKey) { a.0 < b.0 || (a.0 == b.0 && a.1 <= b.1) }

  function Filter<T>(s: seq<T>, p: T -> bool): (r: seq<T>)
    ensures forall x :: x in r ==> x in s && p(x)
    ensures forall x :: x in s && p(x) ==> x in r
  {
    if s == [] then [] else (if p(s[0]) then [s[0]] else []) + Filter(s[1..], p)
  }

  function HasKey<T>(key: T -> SortKey, v: SortKey): T -> bool { x => key(x) == v }

  function Insert<T>(x: T, s: seq<T>, key: T -> SortKey): seq<T> {
    if s == [] then [x]
    else if KeyLe(key(x), key(s[0])) then [x] + s
    else [s[0]] + Insert(x, s[1..], key)
  }

  /** Python's sort: ascending, equal keys keep their order. */
  function SortBy<T>(s: seq<T>, key: T -> SortKey): seq<T> {
    if s == [] then [] else Insert(s[0], SortBy(s[1..], key), key)
  }

  predicate Sorted<T>(s: seq<T>, key: T -> SortKey) {
    forall i, j :: 0 <= i < j < |s| ==> KeyLe(key(s[i]), key(s[j]))
  }

  predicate Distinct<T(==)>(s: seq<T>) { forall i, j :: 0 <= i < j < |s| ==> s[i] != s[j] }

  // ----- Filters -----

  lemma FilterUnfold<T>(s: seq<T>, p: T -> bool)
    requires s != []
    ensures Filter(s, p) == (if p(s[0]) then [s[0]] else []) + Filter(s[1..], p)
  {
  }

  lemma ConcatAssociates<T>(a: seq<T>, b: seq<T>, c: seq<T>)
    ensures (a + b) + c == a + (b + c)
  {
  }

  lemma TailOfConcat<T>(a: seq<T>, b: seq<T>)
    requires a != []
    ensures (a + b)[0] == a[0] && (a + b)[1..] == a[1..] + b
  {
  }

  lemma {:induction false} FilterConcat<T>(a: seq<T>, b: seq<T>, p: T -> bool)
    ensures Filter(a + b, p) == Filter(a, p) + Filter(b, p)
  {
    if a == [] {
      assert a + b == b;
    } else {
      var head := if p(a[0]) then [a[0]] else [];
      calc {
        Filter(a + b, p);
        { FilterUnfold(a + b, p); TailOfConcat(a, b); }
        head + Filter(a[1..] + b, p);
        { FilterConcat(a[1..], b, p); }
        head + (Filter(a[1..], p) + Filter(b, p));
        { ConcatAssociates(head, Filter(a[1..], p), Filter(b, p)); }
        head + Filter(a[1..], p) + Filter(b, p);
        { FilterUnfold(a, p); }
        Filter(a, p) + Filter(b, p);
      }
    }
  }

  lemma {:induction false} FiltersCommute<T>(s: seq<T>, p: T -> bool, q: T -> bool)
    ensures Filter(Filter(s, p), q) == Filter(Filter(s, q), p)
  {
    if s != [] {
      FiltersCommute(s[1..], p, q);
      var a := if p(s[0]) then [s[0]] else [];
      var b := if q(s[0]) then [s[0]] else [];
      FilterConcat(a, Filter(s[1..], p), q);
      FilterConcat(b, Filter(s[1..], q), p);
      assert [s[0]][1..] == [] && Filter(a, q) == Filter(b, p);
    }
  }

  lemma {:induction false} FilterAll<T>(s: seq<T>, p: T -> bool)
    requires forall x :: x in s ==> p(x)
    ensures Filter(s, p) == s
  {
    if s != [] { FilterAll(s[1..], p); }
  }

  lemma {:induction false} FilterNone<T>(s: seq<T>, p: T -> bool)
    requires forall x :: x in s ==> !p(x)
    ensures Filter(s, p) == []
  {
    if s != [] { FilterNone(s[1..], p); }
  }

  lemma {:induction false} FilterDistinct<T>(s: seq<T>, p: T -> bool)
    requires Distinct(s)
    ensures Distinct(Filter(s, p))
  {
    if s != [] {
      FilterDistinct(s[1..], p);
      assert s[0] !in s[1..];
    }
  }

  lemma FilterCons<T>(x: T, s: seq<T>, p: T -> bool)
    ensures Filter([x] + s, p) == (if p(x) then [x] else []) + Filter(s, p)
  {
    assert ([x] + s)[1..] == s;
  }

  lemma FilterAround<T>(a: seq<T>, x: T, b: seq<T>, p: T -> bool)
    requires p(x)
    ensures Filter(a + [x] + b, p) == Filter(a, p) + [x] + Filter(b, p)
  {
    ConcatAssociates(a, [x], b);
    FilterConcat(a, [x] + b, p);
    FilterCons(x, b, p);
    ConcatAssociates(Filter(a, p), [x], Filter(b, p));
  }

  lemma FilterTake<T>(s: seq<T>, i: nat, p: T -> bool)
    requires i < |s|
    ensures Filter(s[..i + 1], p) == Filter(s[..i], p) + (if p(s[i]) then [s[i]] else [])
  {
    assert s[..i + 1] == s[..i] + [s[i]];
    FilterConcat(s[..i], [s[i]], p);
    assert [s[i]] == [s[i]] + [];
    FilterCons(s[i], [], p);
  }

  // ----- Sorting -----

  lemma {:induction false} InsertMembers<T>(x: T, s: seq<T>, key: T -> SortKey)
    ensures multiset(Insert(x, s, key)) == multiset{x} + multiset(s)
  {
    if s != [] && !KeyLe(key(x), key(s[0])) {
      InsertMembers(x, s[1..], key);
      assert s == [s[0]] + s[1..];
    }
  }

  lemma {:induction false} InsertSorted<T>(x: T, s: seq<T>, key: T -> SortKey)
    requires Sorted(s, key)
    ensures Sorted(Insert(x, s, key), key)
  {
    if s != [] && !KeyLe(key(x), key(s[0])) {
      InsertSorted(x, s[1..], key);
      InsertMembers(x, s[1..], key);
      var rest := Insert(x, s[1..], key);
      forall j | 0 <= j < |rest| ensures KeyLe(key(s[0]), key(rest[j])) {
        assert rest[j] in multiset(rest);
        assert rest[j] == x || rest[j] in s[1..];
      }
    }
  }

  /** An element that is filtered out can stand anywhere. */
  lemma FilterSkips<T>(x: T, y: T, s: seq<T>, p: T -> bool)
    requires !p(x)
    ensures Filter([x] + ([y] + s), p) == Filter([y] + s, p) == Filter([y] + ([x] + s), p)
  {
    FilterCons(x, [y] + s, p);
    FilterCons(y, s, p);
    FilterCons(y, [x] + s, p);
    FilterCons(x, s, p);
    assert [] + Filter(s, p) == Filter(s, p);
    assert [] + Filter([y] + s, p) == Filter([y] + s, p);
  }

  lemma FilterSwap<T>(x: T, y: T, s: seq<T>, p: T -> bool)
    requires !(p(x) && p(y))
    ensures Filter([x] + ([y] + s), p) == Filter([y] + ([x] + s), p)
  {
    if p(x) { FilterSkips(y, x, s, p); } else { FilterSkips(x, y, s, p); }
  }

  lemma {:induction false} InsertStable<T>(x: T, s: seq<T>, key: T -> SortKey, v: SortKey)
    ensures Filter(Insert(x, s, key), HasKey(key, v)) == Filter([x] + s, HasKey(key, v))
  {
    if s != [] && !KeyLe(key(x), key(s[0])) {
      var p := HasKey(key, v);
      InsertStable(x, s[1..], key, v);
      FilterCons(s[0], Insert(x, s[1..], key), p);
      FilterCons(s[0], [x] + s[1..], p);
      FilterSwap(x, s[0], s[1..], p);
      assert s == [s[0]] + s[1..];
    }
  }

  lemma {:induction false} SortSorted<T>(s: seq<T>, key: T -> SortKey)
    ensures Sorted(SortBy(s, key), key)
    ensures multiset(SortBy(s, key)) == multiset(s)
  {
    if s != [] {
      SortSorted(s[1..], key);
      InsertSorted(s[0], SortBy(s[1..], key), key);
      InsertMembers(s[0], SortBy(s[1..], key), key);
      assert s == [s[0]] + s[1..];
    }
  }

  lemma {:induction false} SortStable<T>(s: seq<T>, key: T -> SortKey, v: SortKey)
    ensures Filter(SortBy(s, key), HasKey(key, v)) == Filter(s, HasKey(key, v))
  {
    if s != [] {
      SortStable(s[1..], key, v);
      InsertStable(s[0], SortBy(s[1..], key), key, v);
      FilterCons(s[0], SortBy(s[1..], key), HasKey(key, v));
    }
  }

  lemma SortMembers<T>(s: seq<T>, key: T -> SortKey)
    ensures forall x :: x in s ==> x in SortBy(s, key)
    ensures forall x :: x in SortBy(s, key) ==> x in s
  {
    SortSorted(s, key);
    forall x | x in s ensures x in SortBy(s, key) { assert x in multiset(s); }
    forall x | x in SortBy(s, key) ensures x in s { assert x in multiset(SortBy(s, key)); }
  }

  ghost predicate SameClasses<T>(a: seq<T>, b: seq<T>, key: T -> SortKey) {
    forall v :: Filter(a, HasKey(key, v)) == Filter(b, HasKey(key, v))
  }

  lemma HeadsAgree<T>(a: seq<T>, b: seq<T>, key: T -> SortKey)
    requires Sorted(a, key) && Sorted(b, key) && SameClasses(a, b, key) && a != []
    ensures b != [] && a[0] == b[0]
  {
    var p := HasKey(key, key(a[0]));
    assert Filter(a, p) == Filter(b, p);
    assert a[0] in Filter(b, p);
    var q := HasKey(key, key(b[0]));
    assert Filter(a, q) == Filter(b, q);
    assert b[0] in Filter(a, q);
    assert key(a[0]) == key(b[0]);
    assert Filter(a, p)[0] == a[0] && Filter(b, p)[0] == b[0];
  }

  lemma TailsAgree<T>(a: seq<T>, b: seq<T>, key: T -> SortKey)
    requires a != [] && b != [] && a[0] == b[0] && SameClasses(a, b, key)
    ensures SameClasses(a[1..], b[1..], key)
  {
    forall v ensures Filter(a[1..], HasKey(key, v)) == Filter(b[1..], HasKey(key, v)) {
      var p := HasKey(key, v);
      var n := if p(a[0]) then 1 else 0;
      assert Filter(a, p) == Filter(b, p);
      assert Filter(a[1..], p) == Filter(a, p)[n..] && Filter(b[1..], p) == Filter(b, p)[n..];
    }
  }

  /** A sorted list is determined by its classes of equal keys, each in order. */
  lemma {:induction false} SortedByClasses<T>(a: seq<T>, b: seq<T>, key: T -> SortKey)
    requires Sorted(a, key) && Sorted(b, key) && SameClasses(a, b, key)
    ensures a == b
    decreases |a|
  {
    if a == [] {
      if b != [] { HeadsAgree(b, a, key); }
    } else {
      HeadsAgree(a, b, key);
      TailsAgree(a, b, key);
      SortedByClasses(a[1..], b[1..], key);
      assert a == [a[0]] + a[1..] && b == [b[0]] + b[1..];
    }
  }

  // ----- Sorting commutes with filtering -----

  lemma {:induction false} FilterSorted<T>(s: seq<T>, p: T -> bool, key: T -> SortKey)
    requires Sorted(s, key)
    ensures Sorted(Filter(s, p), key)
  {
    if s != [] {
      FilterSorted(s[1..], p, key);
      var rest := Filter(s[1..], p);
      forall j | 0 <= j < |rest| ensures KeyLe(key(s[0]), key(rest[j])) { assert rest[j] in s[1..]; }
    }
  }

  lemma FilterOfSort<T>(s: seq<T>, p: T -> bool, key: T -> SortKey)
    ensures Filter(SortBy(s, key), p) == SortBy(Filter(s, p), key)
  {
    var a, b := Filter(SortBy(s, key), p), SortBy(Filter(s, p), key);
    SortSorted(s, key);
    SortSorted(Filter(s, p), key);
    FilterSorted(SortBy(s, key), p, key);
    forall v ensures Filter(a, HasKey(key, v)) == Filter(b, HasKey(key, v)) {
      FiltersCommute(SortBy(s, key), p, HasKey(key, v));
      SortStable(s, key, v);
      SortStable(Filter(s, p), key, v);
      FiltersCommute(s, p, HasKey(key, v));
    }
    SortedByClasses(a, b, key);
  }

  lemma SplitOfSort<T>(a: seq<T>, b: seq<T>, p: T -> bool, q: T -> bool, key: T -> SortKey)
    requires forall x :: x in a ==> p(x) && !q(x)
    requires forall x :: x in b ==> !p(x) && q(x)
    ensures Filter(SortBy(a + b, key), p) == SortBy(a, key)
    ensures Filter(SortBy(a + b, key), q) == SortBy(b, key)
  {
    FilterOfSort(a + b, p, key);
    FilterConcat(a, b, p);
    FilterAll(a, p);
    FilterNone(b, p);
    assert a + [] == a;
    FilterOfSort(a + b, q, key);
    FilterConcat(a, b, q);
    FilterNone(a, q);
    FilterAll(b, q);
    assert [] + b == b;
  }

  /** Splitting a stable sort of `a + b` back into the kinds of a and b and sorting again changes
      nothing. */
  lemma ResortIsStable<T>(a: seq<T>, b: seq<T>, key: T -> SortKey)
    ensures SortBy(SortBy(a, key) + SortBy(b, key), key) == SortBy(a + b, key)
  {
    var again := SortBy(a, key) + SortBy(b, key);
    SortSorted(a + b, key);
    SortSorted(again, key);
    forall v ensures Filter(SortBy(again, key), HasKey(key, v)) == Filter(SortBy(a + b, key), HasKey(key, v)) {
      var h := HasKey(key, v);
      SortStable(again, key, v);
      SortStable(a + b, key, v);
      FilterConcat(SortBy(a, key), SortBy(b, key), h);
      FilterConcat(a, b, h);
      SortStable(a, key, v);
      SortStable(b, key, v);
    }
    SortedByClasses(SortBy(again, key), SortBy(a + b, key), key);
  }
}
