/**
 First-occurrence deduplication: the loop shape `if key not in seen: seen.add(key); out.append(item)`
 used for evidence, artefact ids and purposes.
 */
module DistinctBy {

  ghost function Keys<T, K>(key: T -> K, xs: seq<T>): set<K> {
    set x | x in xs :: key(x)
  }

  /** The items of `xs` whose key is neither in `seen` nor carried by an earlier item. */
  function Firsts<T, K(==)>(key: T -> K, seen: set<K>, xs: seq<T>): seq<T>
    decreases |xs|
  {
    if xs == [] then []
    else if key(xs[0]) in seen then Firsts(key, seen, xs[1..])
    else [xs[0]] + Firsts(key, seen + {key(xs[0])}, xs[1..])
  }

  /** The loop itself. */
  method KeepFirsts<T, K(==)>(key: T -> K, xs: seq<T>) returns (kept: seq<T>)
    ensures kept == Firsts(key, {}, xs)
  {
    var seen: set<K> := {};
    kept := [];
    for i := 0 to |xs|
      invariant kept + Firsts(key, seen, xs[i..]) == Firsts(key, {}, xs)
    {
      assert xs[i..][1..] == xs[i + 1..];
      if key(xs[i]) !in seen {
        seen := seen + {key(xs[i])};
        kept := kept + [xs[i]];
      }
    }
  }

  lemma KeysConcat<T, K>(key: T -> K, xs: seq<T>, ys: seq<T>)
    ensures Keys(key, xs + ys) == Keys(key, xs) + Keys(key, ys)
  {
    forall x | x in xs + ys ensures x in xs || x in ys {}
  }

  lemma {:induction false} FirstsConcat<T, K>(key: T -> K, seen: set<K>, xs: seq<T>, ys: seq<T>)
    ensures Firsts(key, seen, xs + ys) == Firsts(key, seen, xs) + Firsts(key, seen + Keys(key, xs), ys)
    decreases |xs|
  {
    if xs == [] {
      assert xs + ys == ys && seen + Keys(key, xs) == seen;
    } else {
      var k := key(xs[0]);
      var seen' := seen + {k};
      assert (xs + ys)[1..] == xs[1..] + ys;
      assert xs == [xs[0]] + xs[1..];
      KeysConcat(key, [xs[0]], xs[1..]);
      assert Keys(key, [xs[0]]) == {k};
      FirstsConcat(key, seen', xs[1..], ys);
      assert seen' + Keys(key, xs[1..]) == seen + Keys(key, xs);
      if k in seen {
        assert seen' == seen;
      }
    }
  }

  lemma {:induction false} FirstsKeys<T, K>(key: T -> K, seen: set<K>, xs: seq<T>)
    ensures Keys(key, Firsts(key, seen, xs)) == Keys(key, xs) - seen
    ensures forall x :: x in Firsts(key, seen, xs) ==> x in xs
    decreases |xs|
  {
    if xs == [] {
    } else {
      var k := key(xs[0]);
      assert xs == [xs[0]] + xs[1..];
      KeysConcat(key, [xs[0]], xs[1..]);
      assert Keys(key, [xs[0]]) == {k};
      FirstsKeys(key, seen + {k}, xs[1..]);
      if k in seen {
        assert seen + {k} == seen;
      } else {
        KeysConcat(key, [xs[0]], Firsts(key, seen + {k}, xs[1..]));
      }
    }
  }

  /** No two items share a key, and none carries a key of `seen`. */
  ghost predicate HasDistinctKeys<T, K>(key: T -> K, seen: set<K>, xs: seq<T>) {
    && (forall i :: 0 <= i < |xs| ==> key(xs[i]) !in seen)
    && (forall i, j :: 0 <= i < j < |xs| ==> key(xs[i]) != key(xs[j]))
  }

  lemma {:induction false} FirstsAreDistinct<T, K>(key: T -> K, seen: set<K>, xs: seq<T>)
    ensures HasDistinctKeys(key, seen, Firsts(key, seen, xs))
    decreases |xs|
  {
    if xs != [] {
      var k := key(xs[0]);
      if k in seen {
        FirstsAreDistinct(key, seen, xs[1..]);
      } else {
        FirstsAreDistinct(key, seen + {k}, xs[1..]);
      }
    }
  }

  /** Deduplicating twice is deduplicating once, also when more keys are seen the second time. */
  lemma {:induction false} FirstsAbsorbs<T, K>(key: T -> K, seen: set<K>, before: set<K>, xs: seq<T>)
    requires before <= seen
    ensures Firsts(key, seen, Firsts(key, before, xs)) == Firsts(key, seen, xs)
    decreases |xs|
  {
    if xs != [] {
      var k := key(xs[0]);
      if k in before {
        FirstsAbsorbs(key, seen, before, xs[1..]);
      } else {
        var tail := Firsts(key, before + {k}, xs[1..]);
        assert ([xs[0]] + tail)[1..] == tail;
        if k in seen {
          FirstsAbsorbs(key, seen, before + {k}, xs[1..]);
        } else {
          FirstsAbsorbs(key, seen + {k}, before + {k}, xs[1..]);
        }
      }
    }
  }

  /** Deduplication is a monoid homomorphism: either half may be deduplicated first. */
  lemma FirstsOfParts<T, K>(key: T -> K, xs: seq<T>, ys: seq<T>)
    ensures Firsts(key, {}, Firsts(key, {}, xs) + ys) == Firsts(key, {}, xs + ys)
    ensures Firsts(key, {}, xs + Firsts(key, {}, ys)) == Firsts(key, {}, xs + ys)
  {
    var xs' := Firsts(key, {}, xs);
    FirstsConcat(key, {}, xs', ys);
    FirstsConcat(key, {}, xs, ys);
    FirstsConcat(key, {}, xs, Firsts(key, {}, ys));
    FirstsAbsorbs(key, {}, {}, xs);
    FirstsKeys(key, {}, xs);
    FirstsAbsorbs(key, {} + Keys(key, xs), {}, ys);
    assert Keys(key, xs') == Keys(key, xs);
  }

  /** A sequence whose keys are already distinct is left alone. */
  lemma {:induction false} FirstsOfDistinct<T, K>(key: T -> K, seen: set<K>, xs: seq<T>)
    requires HasDistinctKeys(key, seen, xs)
    ensures Firsts(key, seen, xs) == xs
    decreases |xs|
  {
    if xs != [] {
      assert forall i :: 0 <= i < |xs[1..]| ==> xs[1..][i] == xs[i + 1];
      FirstsOfDistinct(key, seen + {key(xs[0])}, xs[1..]);
      assert xs == [xs[0]] + xs[1..];
    }
  }
}
