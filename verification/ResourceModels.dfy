/** What track B rests on: the attack model it picks, and what it reports of model and crossing. */
module ResourceModels {
  import opened Wrappers
  import opened Enums
  import opened RiskModel
  import opened ResourceEngine

  ghost predicate HasModelOf(models: seq<AttackModel>, algorithm: string, size: int) {
    exists i :: 0 <= i < |models| && models[i].algorithm == algorithm && models[i].keySizeBits == size
  }

  /** `m` is the first model of its algorithm and size. */
  ghost predicate IsFirstOf(models: seq<AttackModel>, m: AttackModel) {
    exists i ::
      && 0 <= i < |models| && models[i] == m
      && forall j :: 0 <= j < i ==> models[j].algorithm != m.algorithm || models[j].keySizeBits != m.keySizeBits
  }

  lemma {:induction false} FirstModelMeaning(models: seq<AttackModel>, algorithm: string, size: int)
    ensures match FirstModel(models, algorithm, size)
            case None => !HasModelOf(models, algorithm, size)
            case Some(m) =>
              && m.algorithm == algorithm && m.keySizeBits == size
              && IsFirstOf(models, m) && HasModelOf(models, algorithm, size)
  {
    if models != [] && !(models[0].algorithm == algorithm && models[0].keySizeBits == size) {
      var rest := models[1..];
      FirstModelMeaning(rest, algorithm, size);
      var found := FirstModel(rest, algorithm, size);
      if found.Some? {
        var m := found.value;
        var i :| && 0 <= i < |rest| && rest[i] == m
                 && forall j :: 0 <= j < i ==> rest[j].algorithm != m.algorithm || rest[j].keySizeBits != m.keySizeBits;
        assert models[i + 1] == m;
        forall j | 0 <= j < i + 1 ensures models[j].algorithm != m.algorithm || models[j].keySizeBits != m.keySizeBits {
          assert j > 0 ==> models[j] == rest[j - 1];
        }
      } else {
        forall i | 0 <= i < |models| ensures models[i].algorithm != algorithm || models[i].keySizeBits != size {
          assert i > 0 ==> models[i] == rest[i - 1];
        }
      }
    }
  }

  /** The uses of elliptic curves that the generic curve model covers. */
  predicate IsCurveUse(key: string) {
    key == "ecdh" || key == "ecdsa" || key == "x25519" || key == "ed25519"
  }

  /**
   The model found has exactly the subject's key size.  It is of the subject's algorithm, or the generic curve model for a
   curve use that has none of its own; no earlier model qualifies; and there is none exactly when no model qualifies.
   */
  lemma ModelFitsTheSubject(s: Subject, q: QuantumProfile)
    ensures match AttackModelFor(s, q)
            case None =>
              s.algorithmKey.Some? && s.keySizeBits.Some? ==>
                && !HasModelOf(q.models, s.algorithmKey.value, s.keySizeBits.value)
                && (IsCurveUse(s.algorithmKey.value) ==> !HasModelOf(q.models, "ecc", s.keySizeBits.value))
            case Some(m) =>
              && s.algorithmKey.Some? && s.keySizeBits == Some(m.keySizeBits)
              && IsFirstOf(q.models, m)
              && if HasModelOf(q.models, s.algorithmKey.value, m.keySizeBits) then m.algorithm == s.algorithmKey.value
                 else m.algorithm == "ecc" && IsCurveUse(s.algorithmKey.value)
  {
    if s.algorithmKey.Some? && s.keySizeBits.Some? {
      var key, size := s.algorithmKey.value, s.keySizeBits.value;
      FirstModelMeaning(q.models, key, size);
      FirstModelMeaning(q.models, "ecc", size);
      var keys := CandidateKeys(key);
      assert keys[0] == key;
      if IsCurveUse(key) {
        assert keys == [key, "ecc"] && keys[1..] == ["ecc"];
        assert FirstModelOf(q.models, ["ecc"], size) == FirstModel(q.models, "ecc", size);
      } else {
        assert keys == [key] && keys[1..] == [];
        assert FirstModelOf(q.models, [], size) == None;
      }
    }
  }

  /** A point of the curve that states both dimensions and meets the model's, scaled by the scenario. */
  ghost predicate Suffices(p: CapabilityPoint, m: AttackModel, s: Scenario) {
    var scale := if s == Conservative then 0.5 else if s == Baseline then 1.0 else 2.0;
    && p.qubits.Some? && p.gates.Some?
    && p.qubits.value as real * scale >= m.qubits as real
    && p.gates.value as real * scale >= m.gates as real
  }

  /** `p` is the first point of the curve that suffices. */
  ghost predicate IsCrossing(curve: seq<CapabilityPoint>, p: CapabilityPoint, m: AttackModel, s: Scenario) {
    exists i :: 0 <= i < |curve| && curve[i] == p && Suffices(p, m, s) && forall j :: 0 <= j < i ==> !Suffices(curve[j], m, s)
  }

  lemma SufficesIsMeets(p: CapabilityPoint, m: AttackModel, s: Scenario)
    ensures Suffices(p, m, s) <==> Meets(p, m, Scale(s))
  {}

  lemma CrossingInWords(curve: seq<CapabilityPoint>, m: AttackModel, s: Scenario)
    ensures match FirstCrossing(curve, m, Scale(s))
            case None => forall i :: 0 <= i < |curve| ==> !Suffices(curve[i], m, s)
            case Some(p) => IsCrossing(curve, p, m, s)
  {
    CrossingIsFirst(curve, m, Scale(s));
    forall i | 0 <= i < |curve| ensures Suffices(curve[i], m, s) <==> Meets(curve[i], m, Scale(s)) {
      SufficesIsMeets(curve[i], m, s);
    }
  }

  /** The last complete point, if any, is what a curve that never suffices is reported with. */
  ghost predicate IsLastComplete(curve: seq<CapabilityPoint>, p: CapabilityPoint) {
    exists i ::
      && 0 <= i < |curve| && curve[i] == p && p.qubits.Some? && p.gates.Some?
      && forall j :: i < j < |curve| ==> curve[j].qubits.None? || curve[j].gates.None?
  }

  lemma {:induction false} LastCompleteMeaning(curve: seq<CapabilityPoint>)
    ensures match LastComplete(curve)
            case None => forall i :: 0 <= i < |curve| ==> curve[i].qubits.None? || curve[i].gates.None?
            case Some(p) => IsLastComplete(curve, p)
  {
    if curve != [] {
      var init := curve[..|curve| - 1];
      LastCompleteMeaning(init);
      assert forall i :: 0 <= i < |init| ==> init[i] == curve[i];
      if !IsComplete(curve[|curve| - 1]) && LastComplete(init).Some? {
        var p := LastComplete(init).value;
        var i :| && 0 <= i < |init| && init[i] == p && p.qubits.Some? && p.gates.Some?
                 && forall j :: i < j < |init| ==> init[j].qubits.None? || init[j].gates.None?;
        assert curve[i] == p;
      } else if IsComplete(curve[|curve| - 1]) {
        assert curve[|curve| - 1] == LastComplete(curve).value;
      }
    }
  }

  /** A point as reported: its year, and both dimensions times the scenario's multiplier. */
  ghost predicate IsScaledPoint(c: Capability, p: CapabilityPoint, s: Scenario) {
    var scale := if s == Conservative then 0.5 else if s == Baseline then 1.0 else 2.0;
    && p.qubits.Some? && p.gates.Some?
    && c.year == p.year && c.confidence == p.confidence
    && c.qubits == p.qubits.value as real * scale && c.gates == p.gates.value as real * scale
  }

  /** What a projection reports: the model's requirement unscaled, with its assumptions. */
  ghost predicate ReportsModel(t: ResourceTrack, m: AttackModel, s: Scenario) {
    && t.scenario == s
    && t.qubitsRequired == Some(m.qubits) && t.gatesRequired == Some(m.gates as real)
    && (forall k :: k in m.assumptions ==> k in t.assumptions && t.assumptions[k] == m.assumptions[k])
    && "source_id" in t.assumptions && "construction" in t.assumptions && "scenario_multiplier" in t.assumptions
    && ("source_id" !in m.assumptions ==> t.assumptions["source_id"] == m.sourceId)
    && ("construction" !in m.assumptions ==> t.assumptions["construction"] == m.construction)
    && ("scenario_multiplier" !in m.assumptions ==>
          t.assumptions["scenario_multiplier"] == if s == Conservative then "0.5" else if s == Baseline then "1.0" else "2.0")
  }

  lemma AssumptionsReported(m: AttackModel, s: Scenario)
    ensures forall k :: k in m.assumptions ==> k in Assumptions(m, s) && Assumptions(m, s)[k] == m.assumptions[k]
    ensures "source_id" in Assumptions(m, s) && "construction" in Assumptions(m, s)
    ensures "scenario_multiplier" in Assumptions(m, s)
    ensures "source_id" !in m.assumptions ==> Assumptions(m, s)["source_id"] == m.sourceId
    ensures "construction" !in m.assumptions ==> Assumptions(m, s)["construction"] == m.construction
    ensures "scenario_multiplier" !in m.assumptions ==>
              Assumptions(m, s)["scenario_multiplier"] ==
              if s == Conservative then "0.5" else if s == Baseline then "1.0" else "2.0"
  {
    assert "source_id"[0] != "construction"[0];
    assert |"scenario_multiplier"| != |"construction"| && |"scenario_multiplier"| != |"source_id"|;
  }

  /** With a crossing: its year, counted from the reference year, with its own confidence. */
  lemma CrossingReported(q: QuantumProfile, m: AttackModel, s: Scenario, p: CapabilityPoint)
    requires m.qubits > 0 && m.gates > 0 && q.referenceYear <= p.year && p.qubits.Some? && p.gates.Some?
    ensures CrossingTrack(q, m, s, p).Success?
    ensures var t := CrossingTrack(q, m, s, p).value;
            && ReportsModel(t, m, s) && t.status == Calculated
            && t.breakYear == Some(p.year) && t.mYears == Some((p.year - q.referenceYear) as real)
            && t.confidence == Some(if p.confidence == LowPoint then Confidence.Low else Confidence.Medium)
            && t.capability.Some? && IsScaledPoint(t.capability.value, p, s)
  {
    AssumptionsReported(m, s);
  }

  lemma BeyondReported(m: AttackModel, s: Scenario, last: Option<CapabilityPoint>)
    requires m.qubits > 0 && m.gates > 0 && (last.Some? ==> IsComplete(last.value))
    ensures BeyondTrack(m, s, last).Success?
    ensures var t := BeyondTrack(m, s, last).value;
            && ReportsModel(t, m, s) && t.status == BeyondHorizon
            && t.breakYear == None && t.mYears == None && t.confidence == Some(Confidence.Low)
            && (t.capability.Some? <==> last.Some?)
            && (last.Some? ==> IsScaledPoint(t.capability.value, last.value, s))
  {
    AssumptionsReported(m, s);
  }

  /** The reported track, in terms of the model found and the curve. */
  ghost predicate IsProjection(t: ResourceTrack, q: QuantumProfile, m: AttackModel, s: Scenario) {
    && ReportsModel(t, m, s)
    && if t.status == Calculated then
         exists p ::
           && IsCrossing(q.curve, p, m, s)
           && t.breakYear == Some(p.year) && t.mYears == Some((p.year - q.referenceYear) as real)
           && t.confidence == Some(if p.confidence == LowPoint then Confidence.Low else Confidence.Medium)
           && t.capability.Some? && IsScaledPoint(t.capability.value, p, s)
       else
         && t.status == BeyondHorizon
         && (forall i :: 0 <= i < |q.curve| ==> !Suffices(q.curve[i], m, s))
         && t.breakYear == None && t.mYears == None && t.confidence == Some(Confidence.Low)
         && (t.capability.Some? ==>
               exists p :: IsLastComplete(q.curve, p) && IsScaledPoint(t.capability.value, p, s))
  }

  lemma ProjectionOfModel(subject: Subject, q: QuantumProfile, m: AttackModel, s: Scenario)
    requires IsValidQuantum(q) && m in q.models
    requires !NeedsNoProjection(subject.vulnerability) && AttackModelFor(subject, q) == Some(m)
    ensures TrackOf(subject, q, s).Success? && IsProjection(TrackOf(subject, q, s).value, q, m, s)
  {
    CrossingIsComplete(q.curve, m, Scale(s));
    CrossingInWords(q.curve, m, s);
    var crossing := FirstCrossing(q.curve, m, Scale(s));
    if crossing.Some? {
      var p := crossing.value;
      assert IsCrossing(q.curve, p, m, s) && q.referenceYear <= p.year;
      CrossingReported(q, m, s, p);
    } else {
      LastCompleteMeaning(q.curve);
      BeyondReported(m, s, LastComplete(q.curve));
    }
  }

  /** Track B of any subject: not required for a safe label, unavailable without a model, and otherwise the projection. */
  lemma TrackReportsModelAndCrossing(subject: Subject, q: QuantumProfile, s: Scenario)
    requires IsValidQuantum(q)
    ensures TrackOf(subject, q, s).Success?
    ensures var t := TrackOf(subject, q, s).value;
            if subject.vulnerability in {QuantumSafe, QuantumVulnerability.NotApplicable} then
              t.status == NotRequired && t.scenario == s && t.qubitsRequired == None && t.mYears == None
            else match AttackModelFor(subject, q)
              case None => t.status == ModelUnavailable && t.scenario == s && t.qubitsRequired == None && t.mYears == None
              case Some(m) => IsProjection(t, q, m, s)
  {
    if !NeedsNoProjection(subject.vulnerability) && AttackModelFor(subject, q).Some? {
      ModelComesFromProfile(q.models, CandidateKeys(subject.algorithmKey.value), subject.keySizeBits.value);
      ProjectionOfModel(subject, q, AttackModelFor(subject, q).value, s);
    }
  }
}
