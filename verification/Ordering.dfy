/**
 The order `sorted` puts on strings and keys, and a stable sort against an arbitrary total preorder.
 */
module Ordering {

  ghost predicate IsTotalPreorder<T(!new)>(le: (T, T) -> bool) {
    && (forall a, b :: le(a, b) || le(b, a))
    && (forall a, b, c :: le(a, b) && le(b, c) ==> le(a, c))
  }

  ghost predicate Sorted<T>(le: (T, T) -> bool, s: seq<T>) {
    forall i, j {:trigger le(s[i], s[j])} :: 0 <= i < j < |s| ==> le(s[i], s[j])
  }

  /** Places `x` before the first element it does not exceed. */
  function Insert<T>(le: (T, T) -> bool, x: T, s: seq<T>): seq<T> {
    if s == [] then [x]
    else if le(x, s[0]) then [x] + s
    else [s[0]] + Insert(le, x, s[1..])
  }

  /** Python's stable `sorted`. */
  function SortBy<T>(le: (T, T) -> bool, s: seq<T>): seq<T> {
    if s == [] then [] else Insert(le, s[0], SortBy(le, s[1..]))
  }

  lemma {:induction false} InsertPermutes<T>(le: (T, T) -> bool, x: T, s: seq<T>)
    ensures multiset(Insert(le, x, s)) == multiset(s) + multiset{x}
  {
    if s == [] {
    } else if le(x, s[0]) {
    } else {
      InsertPermutes(le, x, s[1..]);
      assert s == [s[0]] + s[1..];
    }
  }

  lemma {:induction false} InsertKeepsSorted<T(!new)>(le: (T, T) -> bool, x: T, s: seq<T>)
    requires IsTotalPreorder(le) && Sorted(le, s)
    ensures Sorted(le, Insert(le, x, s))
  {
    if s == [] {
    } else if le(x, s[0]) {
      forall k | 0 <= k < |s| ensures le(x, s[k]) {
        assert le(s[0], s[0]) && (k > 0 ==> le(s[0], s[k]));
      }
    } else {
      InsertKeepsSorted(le, x, s[1..]);
      InsertPermutes(le, x, s[1..]);
      var rest := Insert(le, x, s[1..]);
      forall y | y in rest ensures le(s[0], y) {
        assert y in multiset(rest);
        assert y == x || y in s[1..];
      }
    }
  }

  lemma {:induction false} SortByPermutes<T>(le: (T, T) -> bool, s: seq<T>)
    ensures multiset(SortBy(le, s)) == multiset(s)
    ensures |SortBy(le, s)| == |s|
  {
    if s == [] {
    } else {
      SortByPermutes(le, s[1..]);
      InsertPermutes(le, s[0], SortBy(le, s[1..]));
      assert s == [s[0]] + s[1..];
      assert |multiset(SortBy(le, s))| == |SortBy(le, s)|;
    }
  }

  lemma {:induction false} SortBySorts<T(!new)>(le: (T, T) -> bool, s: seq<T>)
    requires IsTotalPreorder(le)
    ensures Sorted(le, SortBy(le, s))
  {
    if s == [] {
    } else {
      SortBySorts(le, s[1..]);
      InsertKeepsSorted(le, s[0], SortBy(le, s[1..]));
    }
  }

  lemma SortByMembers<T>(le: (T, T) -> bool, s: seq<T>)
    ensures |SortBy(le, s)| == |s|
    ensures forall x :: x in SortBy(le, s) <==> x in s
  {
    SortByPermutes(le, s);
    forall x ensures x in SortBy(le, s) <==> x in s {
      assert x in SortBy(le, s) <==> x in multiset(SortBy(le, s));
      assert x in s <==> x in multiset(s);
    }
  }

  /** Sorting leaves an already sorted sequence alone. */
  lemma {:induction false} SortBySorted<T>(le: (T, T) -> bool, s: seq<T>)
    requires Sorted(le, s)
    ensures SortBy(le, s) == s
  {
    if |s| > 1 {
      SortBySorted(le, s[1..]);
      assert le(s[0], s[1]);
      assert s == [s[0]] + s[1..];
    } else if |s| == 1 {
      assert s[1..] == [] && s == [s[0]];
    }
  }

  // ----- strings -----

  /** Lexicographic comparison of strings by code point. */
  predicate StringLe(a: string, b: string) {
    a == "" || (b != "" && (a[0] < b[0] || (a[0] == b[0] && StringLe(a[1..], b[1..]))))
  }

  lemma {:induction false} StringLeTotal(a: string, b: string)
    ensures StringLe(a, b) || StringLe(b, a)
  {
    if a != "" && b != "" {
      StringLeTotal(a[1..], b[1..]);
    }
  }

  lemma {:induction false} StringLeTransitive(a: string, b: string, c: string)
    requires StringLe(a, b) && StringLe(b, c)
    ensures StringLe(a, c)
  {
    if a != "" && a[0] == b[0] && b[0] == c[0] {
      StringLeTransitive(a[1..], b[1..], c[1..]);
    }
  }

  lemma {:induction false} StringLeAntisymmetric(a: string, b: string)
    requires StringLe(a, b) && StringLe(b, a)
    ensures a == b
  {
    if a != "" && b != "" {
      StringLeAntisymmetric(a[1..], b[1..]);
      assert a == [a[0]] + a[1..] && b == [b[0]] + b[1..];
    }
  }

  lemma StringLeIsTotalPreorder()
    ensures IsTotalPreorder(StringLe)
  {
    forall a, b ensures StringLe(a, b) || StringLe(b, a) {
      StringLeTotal(a, b);
    }
    forall a, b, c | StringLe(a, b) && StringLe(b, c) ensures StringLe(a, c) {
      StringLeTransitive(a, b, c);
    }
  }

  /** A prefix comes first; otherwise the first difference decides, by code point. */
  lemma {:induction false} FirstDifferenceDecides(a: string, b: string, i: nat)
    requires i <= |a| && i <= |b| && a[..i] == b[..i]
    ensures i == |a| ==> StringLe(a, b)
    ensures i < |a| && i == |b| ==> !StringLe(a, b)
    ensures i < |a| && i < |b| && a[i] != b[i] ==> (StringLe(a, b) <==> a[i] < b[i])
    decreases i
  {
    if i > 0 {
      assert a[0] == a[..i][0] && b[0] == b[..i][0];
      assert a[1..][..i - 1] == a[..i][1..] && b[1..][..i - 1] == b[..i][1..];
      FirstDifferenceDecides(a[1..], b[1..], i - 1);
    }
  }

  // ----- sorted listings of a set of ids -----

  ghost predicate Distinct<T>(s: seq<T>) {
    forall i, j :: 0 <= i < j < |s| ==> s[i] != s[j]
  }

  /** `ids` is `sorted(elements)`: every element once, in string order. */
  ghost predicate IsSortedListing(ids: seq<string>, elements: set<string>) {
    && Sorted(StringLe, ids)
    && Distinct(ids)
    && (forall id :: id in ids <==> id in elements)
  }

  /** Python's `sorted` applied to a set of ids. */
  method SortedListing(elements: set<string>) returns (ids: seq<string>)
    ensures IsSortedListing(ids, elements)
    ensures |ids| == |elements|
  {
    var listed: seq<string> := [];
    var rest := elements;
    while rest != {}
      invariant rest <= elements
      invariant multiset(listed) + multiset(rest) == multiset(elements)
      decreases rest
    {
      var id :| id in rest;
      listed := listed + [id];
      rest := rest - {id};
    }
    ids := SortBy(StringLe, listed);
    StringLeIsTotalPreorder();
    SortBySorts(StringLe, listed);
    SortByPermutes(StringLe, listed);
    MultisetOfSetIsDistinct(ids, elements);
  }

  lemma RepeatsAreCounted<T>(s: seq<T>, i: nat, j: nat)
    requires i < j < |s|
    ensures s[i] == s[j] ==> multiset(s)[s[i]] >= 2
  {
    assert s == s[..i] + [s[i]] + s[i + 1..j] + [s[j]] + s[j + 1..];
  }

  lemma MultisetOfSetIsDistinct<T>(s: seq<T>, elements: set<T>)
    requires multiset(s) == multiset(elements)
    ensures Distinct(s) && |s| == |elements|
    ensures forall x :: x in s <==> x in elements
  {
    forall i, j | 0 <= i < j < |s| ensures s[i] != s[j] {
      RepeatsAreCounted(s, i, j);
      assert multiset(elements)[s[i]] <= 1;
    }
    assert |multiset(s)| == |s|;
    forall x ensures x in s <==> x in elements {
      assert x in s <==> x in multiset(s);
    }
  }

  /** A sorted listing has one entry for each element. */
  lemma SortedListingLength(ids: seq<string>, elements: set<string>)
    requires IsSortedListing(ids, elements)
    ensures |ids| == |elements|
  {
    DistinctLength(ids);
    assert elements == set id | id in ids;
  }

  lemma DistinctAppend<T>(init: seq<T>, last: T)
    ensures Distinct(init + [last]) <==> Distinct(init) && last !in init
  {
    var s := init + [last];
    if Distinct(s) {
      forall i | 0 <= i < |init| ensures init[i] != last {
        assert s[i] != s[|init|];
      }
      forall i, j | 0 <= i < j < |init| ensures init[i] != init[j] {
        assert s[i] != s[j];
      }
    }
  }

  lemma {:induction false} DistinctLength<T>(s: seq<T>)
    ensures |set x | x in s| <= |s|
    ensures |set x | x in s| == |s| <==> Distinct(s)
  {
    if s != [] {
      var init, last := s[..|s| - 1], s[|s| - 1];
      DistinctLength(init);
      assert s == init + [last];
      DistinctAppend(init, last);
      assert (set x | x in init + [last]) == (set x | x in init) + {last};
      if last in init {
        assert (set x | x in init) + {last} == (set x | x in init);
      }
    }
  }

  /** The entries among the first `n` of `s` that are in `keep`, in order. */
  function Filter<T(==)>(keep: set<T>, s: seq<T>, n: nat): seq<T>
    requires n <= |s|
  {
    if n == 0 then []
    else Filter(keep, s, n - 1) + if s[n - 1] in keep then [s[n - 1]] else []
  }

  lemma {:induction false} FilterOfPrefix(keep: set<string>, ids: seq<string>, n: nat)
    requires Sorted(StringLe, ids) && Distinct(ids) && n <= |ids|
    ensures Sorted(StringLe, Filter(keep, ids, n)) && Distinct(Filter(keep, ids, n))
    ensures forall id :: id in Filter(keep, ids, n) <==> id in ids[..n] && id in keep
  {
    if n > 0 {
      var kept, last := Filter(keep, ids, n - 1), ids[n - 1];
      FilterOfPrefix(keep, ids, n - 1);
      assert ids[..n] == ids[..n - 1] + [last];
      if last in keep {
        forall id | id in kept ensures StringLe(id, last) && id != last {
          var i :| 0 <= i < n - 1 && ids[i] == id;
          assert StringLe(ids[i], ids[n - 1]);
        }
        DistinctAppend(kept, last);
      }
    }
  }

  /** Filtering a sorted listing lists what is kept. */
  lemma FilterOfListing(keep: set<string>, ids: seq<string>, elements: set<string>)
    requires IsSortedListing(ids, elements)
    ensures IsSortedListing(Filter(keep, ids, |ids|), elements * keep)
  {
    FilterOfPrefix(keep, ids, |ids|);
    assert ids[..|ids|] == ids;
  }

  /** A set has exactly one sorted listing. */
  lemma {:induction false} ListingIsUnique(a: seq<string>, b: seq<string>, elements: set<string>)
    requires IsSortedListing(a, elements) && IsSortedListing(b, elements)
    ensures a == b
    decreases |a|
  {
    SortedListingLength(a, elements);
    SortedListingLength(b, elements);
    if a != [] {
      var n := |a| - 1;
      LastIsGreatest(a, elements);
      LastIsGreatest(b, elements);
      StringLeAntisymmetric(a[n], b[n]);
      WithoutLast(a, elements);
      WithoutLast(b, elements);
      ListingIsUnique(a[..n], b[..n], elements - {a[n]});
      assert a == a[..n] + [a[n]] && b == b[..n] + [b[n]];
    }
  }

  lemma LastIsGreatest(ids: seq<string>, elements: set<string>)
    requires IsSortedListing(ids, elements) && ids != []
    ensures ids[|ids| - 1] in elements
    ensures forall id :: id in elements ==> StringLe(id, ids[|ids| - 1])
  {
    var last := ids[|ids| - 1];
    assert last in ids;
    forall id | id in elements ensures StringLe(id, last) {
      var i :| 0 <= i < |ids| && ids[i] == id;
      StringLeTotal(id, id);
      if i < |ids| - 1 {
        assert StringLe(ids[i], ids[|ids| - 1]);
      }
    }
  }

  lemma WithoutLast(ids: seq<string>, elements: set<string>)
    requires IsSortedListing(ids, elements) && ids != []
    ensures IsSortedListing(ids[..|ids| - 1], elements - {ids[|ids| - 1]})
  {
    var init, last := ids[..|ids| - 1], ids[|ids| - 1];
    assert ids == init + [last];
    DistinctAppend(init, last);
  }
}
