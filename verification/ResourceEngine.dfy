/** Track B: when an attack's logical resources may be available (backend/app/engines/resource_engine.py). */
module ResourceEngine {
  import opened Wrappers
  import opened Enums
  import opened RiskModel

  /** The scenario scales capability only; the loader admits no other multipliers. */
  function Scale(s: Scenario): real {
    match s
    case Conservative => 0.5
    case Baseline => 1.0
    case Aggressive => 2.0
  }

  function ScaleText(s: Scenario): string {
    match s
    case Conservative => "0.5"
    case Baseline => "1.0"
    case Aggressive => "2.0"
  }

  // ----- attack model lookup -----

  function FirstModel(models: seq<AttackModel>, algorithm: string, size: int): Option<AttackModel> {
    if models == [] then None
    else if models[0].algorithm == algorithm && models[0].keySizeBits == size then Some(models[0])
    else FirstModel(models[1..], algorithm, size)
  }

  /** Elliptic-curve uses fall back to the generic curve model. */
  function CandidateKeys(algorithm: string): seq<string> {
    [algorithm] + if algorithm in {"ecdh", "ecdsa", "x25519", "ed25519"} then ["ecc"] else []
  }

  function FirstModelOf(models: seq<AttackModel>, keys: seq<string>, size: int): Option<AttackModel> {
    if keys == [] then None
    else
      var m := FirstModel(models, keys[0], size);
      if m.Some? then m else FirstModelOf(models, keys[1..], size)
  }

  function AttackModelFor(s: Subject, q: QuantumProfile): Option<AttackModel> {
    if s.algorithmKey.None? || s.keySizeBits.None? then None
    else FirstModelOf(q.models, CandidateKeys(s.algorithmKey.value), s.keySizeBits.value)
  }

  method FindAttackModel(s: Subject, q: QuantumProfile) returns (model: Option<AttackModel>)
    ensures model == AttackModelFor(s, q)
  {
    if s.algorithmKey.None? || s.keySizeBits.None? {
      return None;
    }
    var keys, size := CandidateKeys(s.algorithmKey.value), s.keySizeBits.value;
    for i := 0 to |keys|
      invariant FirstModelOf(q.models, keys, size) == FirstModelOf(q.models, keys[i..], size)
    {
      assert keys[i..][1..] == keys[i + 1..];
      for j := 0 to |q.models|
        invariant FirstModel(q.models, keys[i], size) == FirstModel(q.models[j..], keys[i], size)
      {
        assert q.models[j..][1..] == q.models[j + 1..];
        var m := q.models[j];
        if m.algorithm == keys[i] && m.keySizeBits == size {
          return Some(m);
        }
      }
    }
    return None;
  }

  // ----- the capability curve -----

  predicate IsComplete(p: CapabilityPoint) {
    p.qubits.Some? && p.gates.Some?
  }

  predicate Meets(p: CapabilityPoint, m: AttackModel, scale: real) {
    && IsComplete(p)
    && p.qubits.value as real * scale >= m.qubits as real
    && p.gates.value as real * scale >= m.gates as real
  }

  function FirstCrossing(curve: seq<CapabilityPoint>, m: AttackModel, scale: real): Option<CapabilityPoint> {
    if curve == [] then None
    else if Meets(curve[0], m, scale) then Some(curve[0])
    else FirstCrossing(curve[1..], m, scale)
  }

  function LastComplete(curve: seq<CapabilityPoint>): Option<CapabilityPoint> {
    if curve == [] then None
    else
      var last := curve[|curve| - 1];
      if IsComplete(last) then Some(last) else LastComplete(curve[..|curve| - 1])
  }

  function Scaled(p: CapabilityPoint, scale: real): Capability
    requires IsComplete(p)
  {
    Capability(p.year, p.qubits.value as real * scale, p.gates.value as real * scale, p.confidence)
  }

  /** A point stated to be of low confidence is low; a roadmap anchor or interpolation is medium. */
  function ConfidenceOf(p: PointConfidence): Confidence {
    if p == LowPoint then Confidence.Low else Confidence.Medium
  }

  function Assumptions(m: AttackModel, s: Scenario): map<string, string> {
    map["scenario_multiplier" := ScaleText(s), "construction" := m.construction, "source_id" := m.sourceId]
    + m.assumptions
  }

  function CrossingTrack(q: QuantumProfile, m: AttackModel, s: Scenario, p: CapabilityPoint): Result<ResourceTrack, RiskError>
    requires IsComplete(p)
  {
    NewResourceTrack(ResourceTrack(
      Some((p.year - q.referenceYear) as real), s, Calculated, Some(p.year), Some(m.qubits), Some(m.gates as real),
      Assumptions(m, s), Some(ConfidenceOf(p.confidence)), Some(Scaled(p, Scale(s)))))
  }

  function BeyondTrack(m: AttackModel, s: Scenario, last: Option<CapabilityPoint>): Result<ResourceTrack, RiskError>
    requires last.Some? ==> IsComplete(last.value)
  {
    NewResourceTrack(ResourceTrack(
      None, s, BeyondHorizon, None, Some(m.qubits), Some(m.gates as real),
      Assumptions(m, s), Some(Confidence.Low), if last.Some? then Some(Scaled(last.value, Scale(s))) else None))
  }

  function EmptyTrack(s: Scenario, status: ProjectionStatus): Result<ResourceTrack, RiskError> {
    NewResourceTrack(UNRESOLVED_RESOURCE.(scenario := s, status := status))
  }

  predicate NeedsNoProjection(v: QuantumVulnerability) {
    v == QuantumSafe || v == QuantumVulnerability.NotApplicable
  }

  lemma {:induction false} CrossingIsComplete(curve: seq<CapabilityPoint>, m: AttackModel, scale: real)
    ensures FirstCrossing(curve, m, scale).Some? ==> IsComplete(FirstCrossing(curve, m, scale).value)
    ensures LastComplete(curve).Some? ==> IsComplete(LastComplete(curve).value)
  {
    if curve != [] {
      CrossingIsComplete(curve[1..], m, scale);
      CrossingIsComplete(curve[..|curve| - 1], m, scale);
    }
  }

  /** Track B of a subject. */
  function TrackOf(subject: Subject, q: QuantumProfile, s: Scenario): Result<ResourceTrack, RiskError> {
    if NeedsNoProjection(subject.vulnerability) then EmptyTrack(s, NotRequired)
    else
      match AttackModelFor(subject, q)
      case None => EmptyTrack(s, ModelUnavailable)
      case Some(m) =>
        CrossingIsComplete(q.curve, m, Scale(s));
        var crossing := FirstCrossing(q.curve, m, Scale(s));
        if crossing.Some? then CrossingTrack(q, m, s, crossing.value)
        else BeyondTrack(m, s, LastComplete(q.curve))
  }

  /** The loop over the curve, with its early exit at the first crossing. */
  method ScanCurve(curve: seq<CapabilityPoint>, m: AttackModel, scale: real)
    returns (crossing: Option<CapabilityPoint>, lastComplete: Option<CapabilityPoint>)
    ensures crossing == FirstCrossing(curve, m, scale)
    ensures crossing.None? ==> lastComplete == LastComplete(curve)
  {
    lastComplete := None;
    for i := 0 to |curve|
      invariant lastComplete == LastComplete(curve[..i])
      invariant FirstCrossing(curve, m, scale) == FirstCrossing(curve[i..], m, scale)
    {
      var point := curve[i];
      assert curve[..i + 1][..i] == curve[..i];
      assert curve[i..][1..] == curve[i + 1..];
      if point.qubits.None? || point.gates.None? {
        continue;
      }
      lastComplete := Some(point);
      var scaledQubits, scaledGates := point.qubits.value as real * scale, point.gates.value as real * scale;
      if scaledQubits < m.qubits as real || scaledGates < m.gates as real {
        continue;
      }
      return Some(point), lastComplete;
    }
    assert curve[..|curve|] == curve;
    return None, lastComplete;
  }

  method EvaluateResources(subject: Subject, q: QuantumProfile, s: Scenario) returns (r: Result<ResourceTrack, RiskError>)
    ensures r == TrackOf(subject, q, s)
  {
    if NeedsNoProjection(subject.vulnerability) {
      return EmptyTrack(s, NotRequired);
    }
    var model := FindAttackModel(subject, q);
    if model.None? {
      return EmptyTrack(s, ModelUnavailable);
    }
    var m := model.value;
    var crossing, lastComplete := ScanCurve(q.curve, m, Scale(s));
    CrossingIsComplete(q.curve, m, Scale(s));
    if crossing.Some? {
      return CrossingTrack(q, m, s, crossing.value);
    }
    return BeyondTrack(m, s, lastComplete);
  }

  // ----- what the projection promises -----

  /** The crossing is the first point of the curve that states and meets both dimensions; there is none exactly when no point does. */
  lemma {:induction false} CrossingIsFirst(curve: seq<CapabilityPoint>, m: AttackModel, scale: real)
    ensures match FirstCrossing(curve, m, scale)
            case None => forall i :: 0 <= i < |curve| ==> !Meets(curve[i], m, scale)
            case Some(p) =>
              exists i :: 0 <= i < |curve| && curve[i] == p && Meets(p, m, scale)
                          && forall j :: 0 <= j < i ==> !Meets(curve[j], m, scale)
  {
    if curve != [] && !Meets(curve[0], m, scale) {
      CrossingIsFirst(curve[1..], m, scale);
      var rest := FirstCrossing(curve[1..], m, scale);
      if rest.Some? {
        var i :| 0 <= i < |curve[1..]| && curve[1..][i] == rest.value && Meets(rest.value, m, scale)
                 && forall j :: 0 <= j < i ==> !Meets(curve[1..][j], m, scale);
        assert curve[i + 1] == rest.value;
        forall j | 0 <= j < i + 1 ensures !Meets(curve[j], m, scale) {
          assert j > 0 ==> curve[j] == curve[1..][j - 1];
        }
      } else {
        forall i | 0 <= i < |curve| ensures !Meets(curve[i], m, scale) {
          assert i > 0 ==> curve[i] == curve[1..][i - 1];
        }
      }
    }
  }

  lemma {:induction false} CrossingIgnoresIncomplete(
    before: seq<CapabilityPoint>, p: CapabilityPoint, after: seq<CapabilityPoint>, m: AttackModel, scale: real)
    requires !IsComplete(p)
    ensures FirstCrossing(before + [p] + after, m, scale) == FirstCrossing(before + after, m, scale)
  {
    if before == [] {
      assert ([] + [p] + after)[1..] == after && [] + after == after;
    } else {
      assert (before + [p] + after)[1..] == before[1..] + [p] + after;
      assert (before + after)[1..] == before[1..] + after;
      CrossingIgnoresIncomplete(before[1..], p, after, m, scale);
    }
  }

  lemma {:induction false} LastCompleteIgnoresIncomplete(
    before: seq<CapabilityPoint>, p: CapabilityPoint, after: seq<CapabilityPoint>)
    requires !IsComplete(p)
    ensures LastComplete(before + [p] + after) == LastComplete(before + after)
  {
    if after == [] {
      assert (before + [p] + [])[..|before|] == before && before + [] == before;
    } else {
      var n := |after| - 1;
      assert (before + [p] + after)[..|before| + 1 + n] == before + [p] + after[..n];
      assert (before + after)[..|before| + n] == before + after[..n];
      LastCompleteIgnoresIncomplete(before, p, after[..n]);
    }
  }

  /** A point that states only one dimension, inserted anywhere in the curve, changes nothing in the answer. */
  lemma IncompletePointsAreNoEvidence(
    subject: Subject, q: QuantumProfile, s: Scenario,
    before: seq<CapabilityPoint>, p: CapabilityPoint, after: seq<CapabilityPoint>)
    requires q.curve == before + after && !IsComplete(p)
    ensures TrackOf(subject, q.(curve := before + [p] + after), s) == TrackOf(subject, q, s)
  {
    var m := AttackModelFor(subject, q);
    if m.Some? {
      CrossingIgnoresIncomplete(before, p, after, m.value, Scale(s));
      LastCompleteIgnoresIncomplete(before, p, after);
    }
  }

  lemma MeetsGrowsWithScale(p: CapabilityPoint, m: AttackModel, scale: real, larger: real)
    requires scale <= larger && m.qubits > 0 && m.gates > 0 && scale > 0.0
    requires Meets(p, m, scale)
    ensures Meets(p, m, larger)
  {
    ScaledGrows(p.qubits.value as real, scale, larger, m.qubits as real);
    ScaledGrows(p.gates.value as real, scale, larger, m.gates as real);
  }

  lemma ScaledGrows(x: real, scale: real, larger: real, need: real)
    requires 0.0 < scale <= larger && need > 0.0 && x * scale >= need
    ensures x * larger >= need
  {
    PositiveFactor(x, scale);
    assert x * larger == x * scale + x * (larger - scale);
  }

  lemma PositiveFactor(x: real, y: real)
    requires y > 0.0 && x * y > 0.0
    ensures x > 0.0
  {}

  /** A larger multiplier never loses a crossing and never moves it later. */
  lemma {:induction false} CrossingMovesEarlier(curve: seq<CapabilityPoint>, m: AttackModel, scale: real, larger: real)
    requires forall i, j :: 0 <= i < j < |curve| ==> curve[i].year < curve[j].year
    requires 0.0 < scale <= larger && m.qubits > 0 && m.gates > 0
    requires FirstCrossing(curve, m, scale).Some?
    ensures FirstCrossing(curve, m, larger).Some?
    ensures FirstCrossing(curve, m, larger).value.year <= FirstCrossing(curve, m, scale).value.year
  {
    CrossingIsFirst(curve, m, scale);
    var p := FirstCrossing(curve, m, scale).value;
    var i :| 0 <= i < |curve| && curve[i] == p && Meets(p, m, scale) && forall j :: 0 <= j < i ==> !Meets(curve[j], m, scale);
    MeetsGrowsWithScale(p, m, scale, larger);
    CrossingIsFirst(curve, m, larger);
    var p' := FirstCrossing(curve, m, larger);
    if p'.Some? {
      var k :| 0 <= k < |curve| && curve[k] == p'.value && Meets(p'.value, m, larger)
               && forall j :: 0 <= j < k ==> !Meets(curve[j], m, larger);
      assert k <= i;
    }
  }

  lemma {:induction false} ModelComesFromProfile(models: seq<AttackModel>, keys: seq<string>, size: int)
    ensures FirstModelOf(models, keys, size).Some? ==> FirstModelOf(models, keys, size).value in models
  {
    if keys != [] {
      FirstModelIsIn(models, keys[0], size);
      ModelComesFromProfile(models, keys[1..], size);
    }
  }

  lemma {:induction false} FirstModelIsIn(models: seq<AttackModel>, algorithm: string, size: int)
    ensures FirstModel(models, algorithm, size).Some? ==> FirstModel(models, algorithm, size).value in models
  {
    if models != [] {
      FirstModelIsIn(models[1..], algorithm, size);
    }
  }

  /** Under a valid profile track B always exists; whether it crosses depends on the curve alone. */
  lemma TrackUnderValidProfile(subject: Subject, q: QuantumProfile, s: Scenario)
    requires IsValidQuantum(q)
    ensures TrackOf(subject, q, s).Success?
    ensures var t := TrackOf(subject, q, s).value;
            && t.scenario == s && t.IsValid()
            && (t.status == NotRequired <==> NeedsNoProjection(subject.vulnerability))
            && (t.status == ModelUnavailable <==>
                !NeedsNoProjection(subject.vulnerability) && AttackModelFor(subject, q).None?)
            && (t.status == Calculated <==> t.mYears.Some?)
            && (t.status in {Calculated, BeyondHorizon} <==> t.confidence.Some?)
            && (t.status in {Calculated, BeyondHorizon} ==>
                  && !NeedsNoProjection(subject.vulnerability)
                  && AttackModelFor(subject, q).Some?
                  && (t.status == Calculated <==>
                      FirstCrossing(q.curve, AttackModelFor(subject, q).value, Scale(s)).Some?))
            && (t.status == Calculated ==>
                  t.mYears == Some((FirstCrossing(q.curve, AttackModelFor(subject, q).value, Scale(s)).value.year
                                    - q.referenceYear) as real))
  {
    if !NeedsNoProjection(subject.vulnerability) && AttackModelFor(subject, q).Some? {
      ModelComesFromProfile(q.models, CandidateKeys(subject.algorithmKey.value), subject.keySizeBits.value);
      var m := AttackModelFor(subject, q).value;
      CrossingIsFirst(q.curve, m, Scale(s));
      assert "construction" in Assumptions(m, s);
    }
  }

  /** Raising the scenario keeps the requirement, keeps a crossing, and never moves it later. */
  lemma ScenarioOnlyScalesCapability(subject: Subject, q: QuantumProfile, s: Scenario, s': Scenario)
    requires IsValidQuantum(q) && Scale(s) <= Scale(s')
    ensures TrackOf(subject, q, s).Success? && TrackOf(subject, q, s').Success?
    ensures var t, t' := TrackOf(subject, q, s).value, TrackOf(subject, q, s').value;
            && t.qubitsRequired == t'.qubitsRequired && t.gatesRequired == t'.gatesRequired
            && (t.status == t'.status || (t.status == BeyondHorizon && t'.status == Calculated))
            && (t.status == Calculated ==> t'.mYears.Some? && t'.mYears.value <= t.mYears.value)
  {
    TrackUnderValidProfile(subject, q, s);
    TrackUnderValidProfile(subject, q, s');
    if !NeedsNoProjection(subject.vulnerability) && AttackModelFor(subject, q).Some? {
      var m := AttackModelFor(subject, q).value;
      ModelComesFromProfile(q.models, CandidateKeys(subject.algorithmKey.value), subject.keySizeBits.value);
      if FirstCrossing(q.curve, m, Scale(s)).Some? {
        CrossingMovesEarlier(q.curve, m, Scale(s), Scale(s'));
      }
    }
  }
}
