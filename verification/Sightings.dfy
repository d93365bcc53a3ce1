/** What merging keeps of every sighting: the whole window, every observation once, and the first report of everything else. */
module Sightings {
  import opened Wrappers
  import opened Artefacts
  import opened DistinctBy
  import opened Deduplication

  /** The same place, found by the same method under the same rule. */
  predicate IsSameObservation(d: Evidence, e: Evidence) {
    && d.location.path == e.location.path && d.location.line == e.location.line
    && d.detectionMethod == e.detectionMethod && d.ruleId == e.ruleId
  }

  /** Everything but evidence and window. */
  predicate IsSameRecord(a: CryptoArtefact, b: CryptoArtefact) {
    && a.artefactId == b.artefactId && a.kind == b.kind && a.name == b.name && a.algorithm == b.algorithm
    && a.oid == b.oid && a.primitive == b.primitive && a.purposes == b.purposes && a.vulnerability == b.vulnerability
    && a.nistSecurityLevel == b.nistSecurityLevel && a.detail == b.detail && a.discoveredBy == b.discoveredBy
  }

  /** Each end of the merged window is an end of one of the two, and the window contains both. */
  lemma MergedWindow(a: CryptoArtefact, b: CryptoArtefact)
    ensures var m := Merge(a, b);
            && IsSameRecord(m, a)
            && (m.firstSeen == a.firstSeen || m.firstSeen == b.firstSeen)
            && m.firstSeen <= a.firstSeen && m.firstSeen <= b.firstSeen
            && (m.lastSeen == a.lastSeen || m.lastSeen == b.lastSeen)
            && m.lastSeen >= a.lastSeen && m.lastSeen >= b.lastSeen
  {}

  /** `e` stands in the list before anything else of its kind. */
  ghost predicate IsFirstReport(evidence: seq<Evidence>, e: Evidence) {
    exists i :: 0 <= i < |evidence| && evidence[i] == e && forall j :: 0 <= j < i ==> !IsSameObservation(evidence[j], e)
  }

  lemma FirstReportStep(evidence: seq<Evidence>, e: Evidence)
    requires evidence != []
    ensures IsFirstReport(evidence, e) <==>
            evidence[0] == e || (!IsSameObservation(evidence[0], e) && IsFirstReport(evidence[1..], e))
  {
    var tail := evidence[1..];
    if evidence[0] != e && IsFirstReport(evidence, e) {
      var i :| 0 <= i < |evidence| && evidence[i] == e && forall j :: 0 <= j < i ==> !IsSameObservation(evidence[j], e);
      assert tail[i - 1] == e && forall j :: 0 <= j < i - 1 ==> tail[j] == evidence[j + 1];
    }
    if !IsSameObservation(evidence[0], e) && IsFirstReport(tail, e) {
      var i :| 0 <= i < |tail| && tail[i] == e && forall j :: 0 <= j < i ==> !IsSameObservation(tail[j], e);
      assert evidence[i + 1] == e && forall j :: 0 < j < i + 1 ==> evidence[j] == tail[j - 1];
    }
  }

  lemma {:induction false} FirstReportsAreKept(seen: set<EvidenceKey>, evidence: seq<Evidence>, e: Evidence)
    ensures e in Firsts(KeyOf, seen, evidence) <==> IsFirstReport(evidence, e) && KeyOf(e) !in seen
    decreases |evidence|
  {
    if evidence != [] {
      FirstReportsAreKept(seen + {KeyOf(evidence[0])}, evidence[1..], e);
      FirstReportsAreKept(seen, evidence[1..], e);
      FirstReportStep(evidence, e);
      assert KeyOf(evidence[0]) == KeyOf(e) <==> IsSameObservation(evidence[0], e);
    }
  }

  /** The merged evidence is exactly the first report of each observation, and no observation is there twice. */
  lemma MergedEvidence(a: CryptoArtefact, b: CryptoArtefact)
    ensures var m := Merge(a, b).evidence;
            && (forall e :: e in m <==> IsFirstReport(a.evidence + b.evidence, e))
            && (forall i, j :: 0 <= i < j < |m| ==> !IsSameObservation(m[i], m[j]))
  {
    var all := a.evidence + b.evidence;
    forall e ensures e in Merge(a, b).evidence <==> IsFirstReport(all, e) {
      FirstReportsAreKept({}, all, e);
    }
    FirstsAreDistinct(KeyOf, {}, all);
  }

  // ----- whole scans -----

  ghost predicate IsFirstSighting(xs: seq<CryptoArtefact>, i: int) {
    0 <= i < |xs| && forall j :: 0 <= j < i ==> xs[j].artefactId != xs[i].artefactId
  }

  /** The window of `d` is the least that contains the windows of all artefacts of its id. */
  ghost predicate SpansAllSightings(xs: seq<CryptoArtefact>, d: CryptoArtefact) {
    && (forall i :: 0 <= i < |xs| && xs[i].artefactId == d.artefactId ==>
                      d.firstSeen <= xs[i].firstSeen && xs[i].lastSeen <= d.lastSeen)
    && (exists i :: 0 <= i < |xs| && xs[i].artefactId == d.artefactId && xs[i].firstSeen == d.firstSeen)
    && (exists i :: 0 <= i < |xs| && xs[i].artefactId == d.artefactId && xs[i].lastSeen == d.lastSeen)
  }

  lemma {:induction false} CombinedContains(xs: seq<CryptoArtefact>, i: nat)
    requires i < |xs|
    ensures xs[i].artefactId in IdsOf(xs)
    ensures var d := Combined(xs, xs[i].artefactId); d.firstSeen <= xs[i].firstSeen && xs[i].lastSeen <= d.lastSeen
  {
    var init, last := xs[..|xs| - 1], xs[|xs| - 1];
    assert IdsOf(xs)[i] == xs[i].artefactId;
    assert xs == init + [last];
    CombinedStep(init, last, xs[i].artefactId);
    if i < |init| {
      CombinedContains(init, i);
    }
  }

  lemma {:induction false} CombinedEnds(xs: seq<CryptoArtefact>, id: Id) returns (first: nat, last: nat)
    requires id in IdsOf(xs)
    ensures first < |xs| && xs[first].artefactId == id && xs[first].firstSeen == Combined(xs, id).firstSeen
    ensures last < |xs| && xs[last].artefactId == id && xs[last].lastSeen == Combined(xs, id).lastSeen
  {
    var n := |xs| - 1;
    var init := xs[..n];
    assert xs == init + [xs[n]];
    CombinedStep(init, xs[n], id);
    first, last := n, n;
    if id in IdsOf(init) {
      var f, l := CombinedEnds(init, id);
      first := if xs[n].artefactId == id && Combined(xs, id).firstSeen == xs[n].firstSeen then n else f;
      last := if xs[n].artefactId == id && Combined(xs, id).lastSeen == xs[n].lastSeen then n else l;
    }
  }

  lemma CombinedSpans(xs: seq<CryptoArtefact>, id: Id)
    requires id in IdsOf(xs)
    ensures SpansAllSightings(xs, Combined(xs, id))
  {
    CombinedKeepsId(xs, id);
    forall i | 0 <= i < |xs| && xs[i].artefactId == id
      ensures Combined(xs, id).firstSeen <= xs[i].firstSeen && xs[i].lastSeen <= Combined(xs, id).lastSeen
    {
      CombinedContains(xs, i);
    }
    var first, last := CombinedEnds(xs, id);
  }

  lemma {:induction false} CombinedRecord(xs: seq<CryptoArtefact>, i: int)
    requires IsFirstSighting(xs, i)
    ensures xs[i].artefactId in IdsOf(xs) && IsSameRecord(Combined(xs, xs[i].artefactId), xs[i])
  {
    var init, last, id := xs[..|xs| - 1], xs[|xs| - 1], xs[i].artefactId;
    assert IdsOf(xs)[i] == id;
    assert xs == init + [last];
    CombinedStep(init, last, id);
    if i < |init| {
      assert IsFirstSighting(init, i) by {
        assert forall j :: 0 <= j < i ==> init[j] == xs[j];
      }
      CombinedRecord(init, i);
    } else {
      forall j | 0 <= j < |init| ensures IdsOf(init)[j] != id {
        assert init[j] == xs[j];
      }
    }
  }

  /** Each artefact after deduplication: the first sighting of its id, seen from the earliest to the latest sighting. */
  lemma DeduplicatedSpansAllSightings(xs: seq<CryptoArtefact>, n: nat)
    requires n < |Deduplicated(xs)|
    ensures SpansAllSightings(xs, Deduplicated(xs)[n])
    ensures forall i :: IsFirstSighting(xs, i) && xs[i].artefactId == Deduplicated(xs)[n].artefactId ==>
                          IsSameRecord(Deduplicated(xs)[n], xs[i])
  {
    FirstIdsOccur(xs);
    var id := FirstIds(xs)[n];
    CombinedKeepsId(xs, id);
    CombinedSpans(xs, id);
    forall i | IsFirstSighting(xs, i) && xs[i].artefactId == id ensures IsSameRecord(Combined(xs, id), xs[i]) {
      CombinedRecord(xs, i);
    }
  }
}
