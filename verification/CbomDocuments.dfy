/** Ingesting a whole document: every component is accounted for (backend/app/services/cbom_ingest.py). */
module CbomDocuments {
  import opened Wrappers
  import opened Artefacts
  import opened Deduplication
  import opened Cyclonedx
  import opened CbomIngest
  import CbomRoundTrip
  import Decimal
  import DistinctBy
  import Ordering

  datatype Gap = Gap(index: nat, error: IngestError)

  datatype IngestResult = IngestResult(artefacts: seq<CryptoArtefact>, tools: seq<Tool>, skipped: nat, gaps: seq<Gap>)

  /** What becomes of the entry at a position. */
  datatype Outcome = Accepted(artefact: CryptoArtefact) | Rejected(error: IngestError) | PassedOver

  function OutcomeOf(e: Entry, o: Origin, digest: Identity -> Id, index: nat): Outcome {
    match e
    case NotAnObject => PassedOver
    case OtherType => PassedOver
    case MistypedAsset => Rejected(Mistyped)
    case Asset(c) =>
      match Converted(c, o, digest, Decimal.Print(index))
      case Success(a) => Accepted(a)
      case Failure(e) => Rejected(e)
  }

  function OutcomesOf(entries: seq<Entry>, o: Origin, digest: Identity -> Id): (r: seq<Outcome>)
    ensures |r| == |entries|
    ensures forall i :: 0 <= i < |entries| ==> r[i] == OutcomeOf(entries[i], o, digest, i)
  {
    seq(|entries|, i requires 0 <= i < |entries| => OutcomeOf(entries[i], o, digest, i))
  }

  /** The accepted artefacts, in document order. */
  function Found(outcomes: seq<Outcome>): (r: seq<CryptoArtefact>)
    ensures |r| <= |outcomes|
  {
    if outcomes == [] then []
    else
      var last := outcomes[|outcomes| - 1];
      Found(outcomes[..|outcomes| - 1]) + if last.Accepted? then [last.artefact] else []
  }

  /** One gap for each rejected entry, in document order. */
  function Gaps(outcomes: seq<Outcome>): seq<Gap> {
    if outcomes == [] then []
    else
      var last := outcomes[|outcomes| - 1];
      Gaps(outcomes[..|outcomes| - 1]) + if last.Rejected? then [Gap(|outcomes| - 1, last.error)] else []
  }

  function ToolsOf(d: Document): seq<Tool> {
    if d.metadata.Some? && d.metadata.value.tools.ToolsList? then d.metadata.value.tools.tools else []
  }

  lemma OutcomesStep(entries: seq<Entry>, o: Origin, digest: Identity -> Id, i: nat)
    requires i < |entries|
    ensures OutcomesOf(entries[..i + 1], o, digest) ==
            OutcomesOf(entries[..i], o, digest) + [OutcomeOf(entries[i], o, digest, i)]
  {}

  lemma OutcomeStep(seen: seq<Outcome>, last: Outcome)
    ensures Found(seen + [last]) == Found(seen) + if last.Accepted? then [last.artefact] else []
    ensures Gaps(seen + [last]) == Gaps(seen) + if last.Rejected? then [Gap(|seen|, last.error)] else []
  {
    assert (seen + [last])[..|seen|] == seen;
  }

  method ConvertEntry(e: Entry, o: Origin, digest: Identity -> Id, index: nat) returns (outcome: Outcome)
    ensures outcome == OutcomeOf(e, o, digest, index)
  {
    match e
    case NotAnObject =>
      return PassedOver;
    case OtherType =>
      return PassedOver;
    case MistypedAsset =>
      return Rejected(Mistyped);
    case Asset(c) =>
      var converted := ComponentToArtefact(c, o, digest, Decimal.Print(index));
      return if converted.Success? then Accepted(converted.value) else Rejected(converted.error);
  }

  /** The loop over components: the dictionary of artefacts, the number skipped, and the gaps. */
  method IngestEntries(entries: seq<Entry>, o: Origin, digest: Identity -> Id)
    returns (order: seq<Id>, merged: map<Id, CryptoArtefact>, skipped: nat, gaps: seq<Gap>)
    ensures IsMerged(Found(OutcomesOf(entries, o, digest)), order, merged)
    ensures gaps == Gaps(OutcomesOf(entries, o, digest))
    ensures skipped == |entries| - |Found(OutcomesOf(entries, o, digest))|
  {
    ghost var seen: seq<Outcome>, found: seq<CryptoArtefact> := [], [];
    order, merged, skipped, gaps := [], map[], 0, [];
    for i := 0 to |entries|
      invariant seen == OutcomesOf(entries[..i], o, digest)
      invariant found == Found(seen)
      invariant IsMerged(found, order, merged)
      invariant gaps == Gaps(seen)
      invariant skipped == i - |found|
    {
      var outcome := ConvertEntry(entries[i], o, digest, i);
      OutcomesStep(entries, o, digest, i);
      OutcomeStep(seen, outcome);
      match outcome {
        case PassedOver =>
          skipped := skipped + 1;
        case Rejected(e) =>
          gaps := gaps + [Gap(i, e)];
          skipped := skipped + 1;
        case Accepted(artefact) =>
          order, merged := EnterArtefact(found, artefact, order, merged);
          found := found + [artefact];
      }
      seen := seen + [outcome];
    }
    assert entries[..|entries|] == entries;
  }

  /** What a valid document yields. */
  function ResultOf(d: Document, o: Origin, digest: Identity -> Id): IngestResult {
    var outcomes := OutcomesOf(EntriesOf(d), o, digest);
    IngestResult(Deduplicated(Found(outcomes)), ToolsOf(d), |outcomes| - |Found(outcomes)|, Gaps(outcomes))
  }

  method IngestComponents(d: Document, o: Origin, digest: Identity -> Id) returns (r: IngestResult)
    ensures r == ResultOf(d, o, digest)
  {
    var order, merged, skipped, gaps := IngestEntries(EntriesOf(d), o, digest);
    MergedValues(Found(OutcomesOf(EntriesOf(d), o, digest)), order, merged);
    r := IngestResult(Values(order, merged), ToolsOf(d), skipped, gaps);
  }

  method IngestDocument(d: Document, o: Origin, digest: Identity -> Id)
    returns (r: Result<IngestResult, seq<Problem>>)
    ensures r == if Problems(d) != [] then Failure(Problems(d)) else Success(ResultOf(d, o, digest))
  {
    var problems := ValidateDocument(d);
    if problems != [] {
      return Failure(problems);
    }
    var result := IngestComponents(d, o, digest);
    return Success(result);
  }

  // ----- conservation -----

  /** No two identities share an id: the standing assumption about the digest. */
  ghost predicate IsInjective(digest: Identity -> Id) {
    forall a, b :: digest(a) == digest(b) ==> a == b
  }

  /** The positions of the accepted entries. */
  function Positions(outcomes: seq<Outcome>): seq<nat> {
    if outcomes == [] then []
    else
      var last := |outcomes| - 1;
      Positions(outcomes[..last]) + if outcomes[last].Accepted? then [last] else []
  }

  lemma {:induction false} PositionsAscend(outcomes: seq<Outcome>)
    ensures forall k :: 0 <= k < |Positions(outcomes)| ==> Positions(outcomes)[k] < |outcomes|
    ensures forall j, k :: 0 <= j < k < |Positions(outcomes)| ==> Positions(outcomes)[j] < Positions(outcomes)[k]
  {
    if outcomes != [] {
      PositionsAscend(outcomes[..|outcomes| - 1]);
    }
  }

  /** Artefacts are listed at ascending positions, each the conversion of its own entry. */
  lemma {:induction false} ArtefactsKeepDocumentOrder(outcomes: seq<Outcome>)
    ensures |Positions(outcomes)| == |Found(outcomes)|
    ensures forall k :: 0 <= k < |Found(outcomes)| ==>
              Positions(outcomes)[k] < |outcomes| && outcomes[Positions(outcomes)[k]] == Accepted(Found(outcomes)[k])
    ensures forall j, k :: 0 <= j < k < |Positions(outcomes)| ==> Positions(outcomes)[j] < Positions(outcomes)[k]
  {
    PositionsAscend(outcomes);
    if outcomes != [] {
      var init := outcomes[..|outcomes| - 1];
      ArtefactsKeepDocumentOrder(init);
      var at, found := Positions(init), Found(init);
      forall k | 0 <= k < |Found(outcomes)|
        ensures Positions(outcomes)[k] < |outcomes| && outcomes[Positions(outcomes)[k]] == Accepted(Found(outcomes)[k])
      {
        if k < |found| {
          assert Positions(outcomes)[k] == at[k] && Found(outcomes)[k] == found[k];
        }
      }
    }
  }

  /** No accepted entry is left out. */
  lemma {:induction false} EveryAcceptedEntryIsListed(outcomes: seq<Outcome>, i: nat)
    requires i < |outcomes|
    ensures i in Positions(outcomes) <==> outcomes[i].Accepted?
  {
    var init := outcomes[..|outcomes| - 1];
    if i < |init| {
      EveryAcceptedEntryIsListed(init, i);
    } else {
      ArtefactsKeepDocumentOrder(init);
    }
  }

  /** Gaps are exactly the entries whose conversion failed, in document order. */
  lemma {:induction false} GapsAreTheFailures(outcomes: seq<Outcome>)
    ensures forall g :: g in Gaps(outcomes) <==> g.index < |outcomes| && outcomes[g.index] == Rejected(g.error)
    ensures forall j, k :: 0 <= j < k < |Gaps(outcomes)| ==> Gaps(outcomes)[j].index < Gaps(outcomes)[k].index
  {
    if outcomes != [] {
      var init := outcomes[..|outcomes| - 1];
      GapsAreTheFailures(init);
      forall j | 0 <= j < |Gaps(init)| ensures Gaps(init)[j].index < |init| {
        assert Gaps(init)[j] in Gaps(init);
      }
    }
  }

  /** The id of an accepted artefact tells its position. */
  lemma AcceptedIdentity(c: Component, o: Origin, digest: Identity -> Id, discriminator: string)
    requires Converted(c, o, digest, discriminator).Success?
    ensures exists i: Identity :: i.discriminator == discriminator
              && Converted(c, o, digest, discriminator).value.artefactId == digest(i)
  {
    var a := Converted(c, o, digest, discriminator).value;
    var primary := a.evidence[0].location;
    var i := Identity(o.target, a.kind, a.name, primary.path, primary.line, discriminator);
    assert i.discriminator == discriminator && a.artefactId == digest(i);
  }

  lemma PositionsTellApart(entries: seq<Entry>, o: Origin, digest: Identity -> Id, i: nat, j: nat)
    requires IsInjective(digest) && i < j < |entries|
    requires OutcomeOf(entries[i], o, digest, i).Accepted? && OutcomeOf(entries[j], o, digest, j).Accepted?
    ensures OutcomeOf(entries[i], o, digest, i).artefact.artefactId != OutcomeOf(entries[j], o, digest, j).artefact.artefactId
  {
    AcceptedIdentity(entries[i].component, o, digest, Decimal.Print(i));
    AcceptedIdentity(entries[j].component, o, digest, Decimal.Print(j));
    if Decimal.Print(i) == Decimal.Print(j) {
      Decimal.PrintIsInjective(i, j);
    }
  }

  /** The positional discriminator keeps all ids apart, so nothing is ever merged. */
  lemma MergeNeverFires(entries: seq<Entry>, o: Origin, digest: Identity -> Id)
    requires IsInjective(digest)
    ensures var found := Found(OutcomesOf(entries, o, digest));
            Ordering.Distinct(IdsOf(found)) && Deduplicated(found) == found
  {
    var outcomes := OutcomesOf(entries, o, digest);
    var found, at := Found(outcomes), Positions(outcomes);
    ArtefactsKeepDocumentOrder(outcomes);
    forall j, k | 0 <= j < k < |found| ensures IdsOf(found)[j] != IdsOf(found)[k] {
      PositionsTellApart(entries, o, digest, at[j], at[k]);
    }
    DeduplicatedOfUnique(found);
  }

  lemma DeduplicatedOfUnique(xs: seq<CryptoArtefact>)
    requires Ordering.Distinct(IdsOf(xs))
    ensures Deduplicated(xs) == xs
  {
    forall i, j | 0 <= i < j < |xs| ensures Self(IdsOf(xs)[i]) != Self(IdsOf(xs)[j]) {}
    DistinctBy.FirstsOfDistinct(Self, {}, IdsOf(xs));
    FirstIdsOccur(xs);
    forall i | 0 <= i < |xs| ensures Combined(xs, IdsOf(xs)[i]) == xs[i] {
      CombinedOfUnique(xs, i);
    }
  }

  /** Every component becomes an artefact or is skipped, and never both; nothing is merged away. */
  lemma ComponentsAreConserved(d: Document, o: Origin, digest: Identity -> Id)
    requires IsInjective(digest)
    ensures ResultOf(d, o, digest).artefacts == Found(OutcomesOf(EntriesOf(d), o, digest))
    ensures |ResultOf(d, o, digest).artefacts| + ResultOf(d, o, digest).skipped == |EntriesOf(d)|
  {
    MergeNeverFires(EntriesOf(d), o, digest);
  }

  // ----- a whole inventory -----

  lemma {:induction false} AllFoundWhenAllAccepted(outcomes: seq<Outcome>)
    ensures |Found(outcomes)| == |outcomes| <==> forall i :: 0 <= i < |outcomes| ==> outcomes[i].Accepted?
    ensures |Found(outcomes)| == |outcomes| ==>
              forall i :: 0 <= i < |outcomes| ==> Found(outcomes)[i] == outcomes[i].artefact
  {
    if outcomes != [] {
      AllFoundWhenAllAccepted(outcomes[..|outcomes| - 1]);
    }
  }

  /** What becomes of one exported artefact, in terms of the artefact alone. */
  ghost predicate IsReturned(a: CryptoArtefact, outcome: Outcome) {
    && (outcome.Accepted? <==> CbomRoundTrip.Located(a.evidence) != [])
    && (outcome.Accepted? && CbomRoundTrip.AgreesOnCore(a, outcome.artefact) <==> CbomRoundTrip.CoreSurvives(a))
    && (outcome.Accepted? && CbomRoundTrip.ComesBackAs(a, outcome.artefact) <==> CbomRoundTrip.Survives(a))
  }

  lemma PositionIsReturned(a: CryptoArtefact, n: Notes, o: Origin, digest: Identity -> Id, index: nat)
    requires CbomRoundTrip.IsValid(a)
    ensures IsReturned(a, OutcomeOf(Asset(ComponentOf(a, n)), o, digest, index))
  {
    var discriminator := Decimal.Print(index);
    CbomRoundTrip.AcceptedExactlyWhenLocated(a, n, o, digest, discriminator);
    CbomRoundTrip.CoreRoundTrip(a, n, o, digest, discriminator);
    CbomRoundTrip.ComponentRoundTrip(a, n, o, digest, discriminator);
  }

  /**
   Position by position: an exported artefact is accepted exactly when some place is left, agrees exactly when it survives,
   and nothing else in the inventory matters.
   */
  lemma ExportedInventoryByPosition(xs: seq<CryptoArtefact>, notes: map<Id, Notes>, o: Origin, digest: Identity -> Id)
    requires forall i :: 0 <= i < |xs| ==> CbomRoundTrip.IsValid(xs[i])
    ensures var outcomes := OutcomesOf(ComponentsOf(xs, notes), o, digest);
            |outcomes| == |xs| && forall i :: 0 <= i < |xs| ==> IsReturned(xs[i], outcomes[i])
  {
    forall i | 0 <= i < |xs| ensures IsReturned(xs[i], OutcomesOf(ComponentsOf(xs, notes), o, digest)[i]) {
      PositionIsReturned(xs[i], NotesFor(notes, xs[i].artefactId), o, digest, i);
    }
  }

  lemma AllReturned(xs: seq<CryptoArtefact>, outcomes: seq<Outcome>)
    requires |xs| == |outcomes| && forall i :: 0 <= i < |xs| ==> IsReturned(xs[i], outcomes[i])
    ensures && |Found(outcomes)| == |xs|
            && (forall i :: 0 <= i < |xs| ==> CbomRoundTrip.ComesBackAs(xs[i], Found(outcomes)[i]))
            <==> forall i :: 0 <= i < |xs| ==> CbomRoundTrip.Survives(xs[i])
  {
    AllFoundWhenAllAccepted(outcomes);
    var found := Found(outcomes);
    if |found| == |xs| && forall i :: 0 <= i < |xs| ==> CbomRoundTrip.ComesBackAs(xs[i], found[i]) {
      forall i | 0 <= i < |xs| ensures CbomRoundTrip.Survives(xs[i]) {
        assert IsReturned(xs[i], outcomes[i]) && found[i] == outcomes[i].artefact;
      }
    }
    if forall i :: 0 <= i < |xs| ==> CbomRoundTrip.Survives(xs[i]) {
      forall i | 0 <= i < |xs| ensures outcomes[i].Accepted? && CbomRoundTrip.ComesBackAs(xs[i], outcomes[i].artefact) {
        assert IsReturned(xs[i], outcomes[i]) && CbomRoundTrip.Survives(xs[i]);
      }
    }
  }

  /** An exported inventory comes back one for one, in order and in full, exactly when every artefact survives. */
  lemma ExportedInventoryComesBack(xs: seq<CryptoArtefact>, notes: map<Id, Notes>, o: Origin, digest: Identity -> Id)
    requires forall i :: 0 <= i < |xs| ==> CbomRoundTrip.IsValid(xs[i])
    ensures var found := Found(OutcomesOf(ComponentsOf(xs, notes), o, digest));
            && |found| == |xs|
            && (forall i :: 0 <= i < |xs| ==> CbomRoundTrip.ComesBackAs(xs[i], found[i]))
            <==> forall i :: 0 <= i < |xs| ==> CbomRoundTrip.Survives(xs[i])
  {
    ExportedInventoryByPosition(xs, notes, o, digest);
    AllReturned(xs, OutcomesOf(ComponentsOf(xs, notes), o, digest));
  }
}
