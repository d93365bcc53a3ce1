/** One artefact per identity: `ScanResult.deduplicated` (backend/app/schemas/scan.py). */
module Deduplication {
  import opened Wrappers
  import opened Artefacts
  import opened DistinctBy
  import Ordering

  function Self(id: Id): Id {
    id
  }

  function IdsOf(xs: seq<CryptoArtefact>): (ids: seq<Id>)
    ensures |ids| == |xs|
    ensures forall i :: 0 <= i < |xs| ==> ids[i] == xs[i].artefactId
  {
    seq(|xs|, i requires 0 <= i < |xs| => xs[i].artefactId)
  }

  /** Ids in the order they first occur. */
  function FirstIds(xs: seq<CryptoArtefact>): seq<Id> {
    Firsts(Self, {}, IdsOf(xs))
  }

  /** Every artefact of one id, merged from the left. */
  function Combined(xs: seq<CryptoArtefact>, id: Id): CryptoArtefact
    requires id in IdsOf(xs)
  {
    var init, last := xs[..|xs| - 1], xs[|xs| - 1];
    assert xs == init + [last];
    IdsConcat(init, [last]);
    if last.artefactId != id then Combined(init, id)
    else if id in IdsOf(init) then Merge(Combined(init, id), last)
    else last
  }

  /** One artefact per id, in first-occurrence order. */
  function Deduplicated(xs: seq<CryptoArtefact>): seq<CryptoArtefact> {
    FirstIdsOccur(xs);
    seq(|FirstIds(xs)|, i requires 0 <= i < |FirstIds(xs)| => Combined(xs, FirstIds(xs)[i]))
  }

  lemma IdsConcat(xs: seq<CryptoArtefact>, ys: seq<CryptoArtefact>)
    ensures IdsOf(xs + ys) == IdsOf(xs) + IdsOf(ys)
  {}

  lemma KeysOfSelf(ids: seq<Id>)
    ensures forall id :: id in Keys(Self, ids) <==> id in ids
  {
    forall id ensures id in Keys(Self, ids) <==> id in ids {
      if id in ids {
        assert Self(id) in Keys(Self, ids);
      }
    }
  }

  lemma FirstIdsOccur(xs: seq<CryptoArtefact>)
    ensures forall id :: id in FirstIds(xs) <==> id in IdsOf(xs)
    ensures Ordering.Distinct(FirstIds(xs))
  {
    FirstsKeys(Self, {}, IdsOf(xs));
    FirstsAreDistinct(Self, {}, IdsOf(xs));
    KeysOfSelf(IdsOf(xs));
    KeysOfSelf(FirstIds(xs));
    var ids := FirstIds(xs);
    forall i, j | 0 <= i < j < |ids| ensures ids[i] != ids[j] {
      assert Self(ids[i]) != Self(ids[j]);
    }
  }

  lemma {:induction false} CombinedKeepsId(xs: seq<CryptoArtefact>, id: Id)
    requires id in IdsOf(xs)
    ensures Combined(xs, id).artefactId == id
  {
    var init, last := xs[..|xs| - 1], xs[|xs| - 1];
    assert xs == init + [last];
    IdsConcat(init, [last]);
    if id in IdsOf(init) {
      CombinedKeepsId(init, id);
    }
  }

  // ----- the loop -----

  lemma FirstIdsStep(xs: seq<CryptoArtefact>, x: CryptoArtefact)
    ensures FirstIds(xs + [x]) == if x.artefactId in IdsOf(xs) then FirstIds(xs) else FirstIds(xs) + [x.artefactId]
  {
    IdsConcat(xs, [x]);
    assert IdsOf([x]) == [x.artefactId];
    FirstsConcat(Self, {}, IdsOf(xs), [x.artefactId]);
    KeysOfSelf(IdsOf(xs));
  }

  lemma CombinedStep(xs: seq<CryptoArtefact>, x: CryptoArtefact, id: Id)
    ensures id in IdsOf(xs + [x]) <==> x.artefactId == id || id in IdsOf(xs)
    ensures id in IdsOf(xs + [x]) ==>
              Combined(xs + [x], id) ==
              if x.artefactId != id then Combined(xs, id)
              else if id in IdsOf(xs) then Merge(Combined(xs, id), x)
              else x
  {
    IdsConcat(xs, [x]);
    assert IdsOf([x]) == [x.artefactId];
    assert (xs + [x])[..|xs + [x]| - 1] == xs;
  }

  /** `merged` is the dictionary after the artefacts `xs`; `order` lists its keys as they were inserted. */
  ghost predicate IsMerged(xs: seq<CryptoArtefact>, order: seq<Id>, merged: map<Id, CryptoArtefact>) {
    && order == FirstIds(xs)
    && (forall id :: id in merged <==> id in IdsOf(xs))
    && (forall id :: id in merged ==> merged[id] == Combined(xs, id))
  }

  function Enter(merged: map<Id, CryptoArtefact>, x: CryptoArtefact): map<Id, CryptoArtefact> {
    merged[x.artefactId := if x.artefactId in merged then Merge(merged[x.artefactId], x) else x]
  }

  lemma EnterKeepsMerged(xs: seq<CryptoArtefact>, x: CryptoArtefact, order: seq<Id>, merged: map<Id, CryptoArtefact>)
    requires IsMerged(xs, order, merged)
    ensures IsMerged(xs + [x], if x.artefactId in merged then order else order + [x.artefactId], Enter(merged, x))
  {
    FirstIdsStep(xs, x);
    forall id ensures id in Enter(merged, x) <==> id in IdsOf(xs + [x]) {
      CombinedStep(xs, x, id);
    }
    forall id | id in Enter(merged, x) ensures Enter(merged, x)[id] == Combined(xs + [x], id) {
      CombinedStep(xs, x, id);
    }
  }

  /** One turn of the loop.  It never meets two different identities, so merging cannot raise. */
  method EnterArtefact(ghost xs: seq<CryptoArtefact>, x: CryptoArtefact, order: seq<Id>, merged: map<Id, CryptoArtefact>)
    returns (newOrder: seq<Id>, newMerged: map<Id, CryptoArtefact>)
    requires IsMerged(xs, order, merged)
    ensures IsMerged(xs + [x], newOrder, newMerged)
  {
    EnterKeepsMerged(xs, x, order, merged);
    var id := x.artefactId;
    if id in merged {
      CombinedKeepsId(xs, id);
      var united := MergedWith(merged[id], x);
      return order, merged[id := united.value];
    } else {
      return order + [id], merged[id := x];
    }
  }

  /** `list(merged.values())` */
  function Values(order: seq<Id>, merged: map<Id, CryptoArtefact>): seq<CryptoArtefact>
    requires forall id :: id in order ==> id in merged
  {
    seq(|order|, k requires 0 <= k < |order| => merged[order[k]])
  }

  lemma MergedValues(xs: seq<CryptoArtefact>, order: seq<Id>, merged: map<Id, CryptoArtefact>)
    requires IsMerged(xs, order, merged)
    ensures forall id :: id in order ==> id in merged
    ensures Values(order, merged) == Deduplicated(xs)
  {
    FirstIdsOccur(xs);
  }

  method Deduplicate(xs: seq<CryptoArtefact>) returns (values: seq<CryptoArtefact>)
    ensures values == Deduplicated(xs)
  {
    var order: seq<Id>, merged: map<Id, CryptoArtefact> := [], map[];
    for i := 0 to |xs|
      invariant IsMerged(xs[..i], order, merged)
    {
      assert xs[..i + 1] == xs[..i] + [xs[i]];
      order, merged := EnterArtefact(xs[..i], xs[i], order, merged);
    }
    assert xs[..|xs|] == xs;
    MergedValues(xs, order, merged);
    return Values(order, merged);
  }

  // ----- batch against incremental -----

  /** The merge of a concatenation is the merge of the parts. */
  lemma {:induction false} CombinedConcat(xs: seq<CryptoArtefact>, ys: seq<CryptoArtefact>, id: Id)
    requires id in IdsOf(xs) || id in IdsOf(ys)
    ensures id in IdsOf(xs + ys)
    ensures Combined(xs + ys, id) ==
            if id !in IdsOf(ys) then Combined(xs, id)
            else if id !in IdsOf(xs) then Combined(ys, id)
            else Merge(Combined(xs, id), Combined(ys, id))
    decreases |ys|
  {
    IdsConcat(xs, ys);
    if ys == [] {
      assert xs + ys == xs;
    } else {
      var init, last := ys[..|ys| - 1], ys[|ys| - 1];
      assert ys == init + [last] && xs + ys == (xs + init) + [last];
      IdsConcat(init, [last]);
      IdsConcat(xs, init);
      CombinedStep(xs + init, last, id);
      CombinedStep(init, last, id);
      if id in IdsOf(xs) || id in IdsOf(init) {
        CombinedConcat(xs, init, id);
        if id in IdsOf(xs) && id in IdsOf(init) {
          MergeIsAssociative(Combined(xs, id), Combined(init, id), last);
        }
      }
    }
  }

  /** The output has one artefact per id, and the ids are in first-occurrence order. */
  lemma OutputIdsAreTheFirstIds(xs: seq<CryptoArtefact>)
    ensures IdsOf(Deduplicated(xs)) == FirstIds(xs)
    ensures Ordering.Distinct(IdsOf(Deduplicated(xs)))
  {
    FirstIdsOccur(xs);
    forall i | 0 <= i < |FirstIds(xs)| ensures Deduplicated(xs)[i].artefactId == FirstIds(xs)[i] {
      CombinedKeepsId(xs, FirstIds(xs)[i]);
    }
  }

  lemma {:induction false} CombinedOfUnique(ys: seq<CryptoArtefact>, i: nat)
    requires i < |ys| && Ordering.Distinct(IdsOf(ys))
    ensures Combined(ys, IdsOf(ys)[i]) == ys[i]
    decreases |ys|
  {
    var init, last := ys[..|ys| - 1], ys[|ys| - 1];
    var id := ys[i].artefactId;
    assert ys == init + [last];
    assert IdsOf(ys) == IdsOf(init) + [last.artefactId];
    Ordering.DistinctAppend(IdsOf(init), last.artefactId);
    CombinedStep(init, last, id);
    if i < |init| {
      assert IdsOf(init)[i] == id && id in IdsOf(init);
      CombinedOfUnique(init, i);
    } else {
      assert id == last.artefactId && id !in IdsOf(init);
    }
  }

  /** Deduplication keeps what is known of each id. */
  lemma DeduplicatedKeepsCombined(xs: seq<CryptoArtefact>, id: Id)
    ensures id in IdsOf(Deduplicated(xs)) <==> id in IdsOf(xs)
    ensures id in IdsOf(xs) ==> Combined(Deduplicated(xs), id) == Combined(xs, id)
  {
    FirstIdsOccur(xs);
    OutputIdsAreTheFirstIds(xs);
    if id in IdsOf(xs) {
      var i :| 0 <= i < |FirstIds(xs)| && FirstIds(xs)[i] == id;
      CombinedOfUnique(Deduplicated(xs), i);
    }
  }

  /** Two inputs with the same first ids and the same merge per id deduplicate alike. */
  lemma DeduplicatedExtensional(xs: seq<CryptoArtefact>, ys: seq<CryptoArtefact>)
    requires FirstIds(xs) == FirstIds(ys)
    requires forall id :: id in IdsOf(xs) && id in IdsOf(ys) ==> Combined(xs, id) == Combined(ys, id)
    ensures Deduplicated(xs) == Deduplicated(ys)
  {
    FirstIdsOccur(xs);
    FirstIdsOccur(ys);
  }

  /** Either half may be deduplicated on its own first. */
  lemma DeduplicateInParts(xs: seq<CryptoArtefact>, ys: seq<CryptoArtefact>)
    ensures Deduplicated(Deduplicated(xs) + Deduplicated(ys)) == Deduplicated(xs + ys)
  {
    var dx, dy := Deduplicated(xs), Deduplicated(ys);
    OutputIdsAreTheFirstIds(xs);
    OutputIdsAreTheFirstIds(ys);
    IdsConcat(xs, ys);
    IdsConcat(dx, dy);
    FirstsOfParts(Self, IdsOf(xs), IdsOf(ys));
    FirstsOfParts(Self, FirstIds(xs), IdsOf(ys));
    forall id | id in IdsOf(dx + dy) && id in IdsOf(xs + ys) ensures Combined(dx + dy, id) == Combined(xs + ys, id) {
      DeduplicatedKeepsCombined(xs, id);
      DeduplicatedKeepsCombined(ys, id);
      CombinedConcat(xs, ys, id);
      CombinedConcat(dx, dy, id);
    }
    DeduplicatedExtensional(dx + dy, xs + ys);
  }

  /** Deduplicating twice changes nothing. */
  lemma DeduplicateTwice(xs: seq<CryptoArtefact>)
    ensures Deduplicated(Deduplicated(xs)) == Deduplicated(xs)
  {
    DeduplicateInParts(xs, []);
    assert Deduplicated([]) == [];
    assert Deduplicated(xs) + [] == Deduplicated(xs) && xs + [] == xs;
  }

  /** How results arrive: in batches, joined in any grouping, and deduplicated at any points along the way. */
  datatype Arrival = Batch(found: seq<CryptoArtefact>) | Join(left: Arrival, right: Arrival) | Partial(inner: Arrival)

  function Everything(a: Arrival): seq<CryptoArtefact> {
    match a
    case Batch(found) => found
    case Join(l, r) => Everything(l) + Everything(r)
    case Partial(inner) => Everything(inner)
  }

  function Collected(a: Arrival): seq<CryptoArtefact> {
    match a
    case Batch(found) => found
    case Join(l, r) => Collected(l) + Collected(r)
    case Partial(inner) => Deduplicated(Collected(inner))
  }

  /** Whatever the chunking, and wherever partial results were merged, the outcome is that of one pass over everything. */
  lemma {:induction false} IncrementalIsBatch(a: Arrival)
    ensures Deduplicated(Collected(a)) == Deduplicated(Everything(a))
  {
    match a
    case Batch(_) =>
    case Join(l, r) =>
      IncrementalIsBatch(l);
      IncrementalIsBatch(r);
      DeduplicateInParts(Collected(l), Collected(r));
      DeduplicateInParts(Everything(l), Everything(r));
    case Partial(inner) =>
      IncrementalIsBatch(inner);
      DeduplicateTwice(Collected(inner));
  }
}
