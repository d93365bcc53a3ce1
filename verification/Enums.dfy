/** The canonical vocabulary. */
module Enums {

  datatype AssetType =
    | Algorithm | Key | Certificate | Protocol | Library | HardwareModule | CloudService | RelatedMaterial

  datatype Primitive =
    | BlockCipher | StreamCipher | Hash | Mac | Aead | Signature | Pke | Kem | KeyAgreement | Kdf | Drbg | Other

  datatype Purpose =
    | Encryption | Decryption | DigitalSignature | Verify | KeyEncapsulation | KeyAgreement
    | KeyDerivation | Hashing | Authentication | Integrity | RandomGeneration | Other

  datatype CipherMode = Ecb | Cbc | Ctr | Gcm | Ccm | Ofb | Cfb | Xts | Siv | Poly1305 | Other

  datatype Padding = Pkcs1V15 | Oaep | Pss | Pkcs7 | AnsiX923 | Iso10126 | Zero | Raw | NoPadding | Other

  datatype BusinessCriticality = Critical | High | Medium | Low | Unknown

  datatype DataClassification = Restricted | Confidential | Internal | Public | Unknown

  datatype ExposureLevel = Internet | Partner | Internal | Isolated | Unknown

  datatype ProvenanceTier = User | ScannerEvidence | OrgPreset | Unknown

  datatype EvidenceSource = User | Scanner | OrgPolicy | LegalProfile

  datatype Confidence = High | Medium | Low

  datatype QuantumVulnerability =
    | ShorBroken | GroverWeakened | QuantumSafe | ClassicallyBroken | NotApplicable | Unknown

  datatype AssessmentStatus = Scored | NeedsContext | PolicyDecided | DependencyOnly | NotApplicable

  datatype Priority = P0 | P1 | P2 | NoPriority

  datatype ProjectionStatus = Calculated | BeyondHorizon | ModelUnavailable | NotRequired

  datatype ZBasis = OrgHorizon | ResourceModel | Unavailable

  datatype Scenario = Conservative | Baseline | Aggressive

  datatype ScanStatus = Queued | Running | Succeeded | Partial | Failed | Cancelled

  predicate IsTerminal(s: ScanStatus) {
    s in {Succeeded, Partial, Failed, Cancelled}
  }

  /** Lower rank is stronger. */
  function ConfidenceRank(c: Confidence): nat {
    match c
    case High => 0
    case Medium => 1
    case Low => 2
  }

  /** One level down, floored at low. */
  function Downgrade(c: Confidence): Confidence {
    if c == Confidence.High then Confidence.Medium else Confidence.Low
  }

  /** `Confidence.weaker(*values)`: the first of the weakest values. */
  function Weakest(values: seq<Confidence>): Confidence
    requires values != []
  {
    if |values| == 1 then values[0]
    else
      var rest := Weakest(values[1..]);
      if ConfidenceRank(values[0]) >= ConfidenceRank(rest) then values[0] else rest
  }

  lemma {:induction false} WeakestIsWeakest(values: seq<Confidence>)
    requires values != []
    ensures Weakest(values) in values
    ensures forall v :: v in values ==> ConfidenceRank(v) <= ConfidenceRank(Weakest(values))
  {
    assert values == [values[0]] + values[1..];
    if |values| > 1 {
      WeakestIsWeakest(values[1..]);
    }
  }
}
