/** What an exported component says, word for word. */
module CbomExportRules {
  import opened Wrappers
  import Enums
  import Decimal
  import opened Artefacts
  import opened Deduplication
  import opened Vocabulary
  import opened Cyclonedx
  import opened CbomIngest
  import opened CbomRoundTrip

  /** Each occurrence gives path and line, and the snippet only where there is one that was not redacted. */
  lemma RedactedSnippetsStayHome(a: CryptoArtefact, n: Notes)
    ensures |ComponentOf(a, n).occurrences| == |a.evidence|
    ensures forall i :: 0 <= i < |a.evidence| ==>
              var e, occurrence := a.evidence[i], ComponentOf(a, n).occurrences[i];
              && occurrence.Occurrence? && occurrence.location == Some(e.location.path)
              && (e.location.line.None? <==> occurrence.line.None?)
              && (e.location.line.Some? ==> occurrence.line == Some(Number(e.location.line.value)))
              && (e.isRedacted || e.snippet.None? || e.snippet.value == "" ==> occurrence.additionalContext == None)
              && (!e.isRedacted && e.snippet.Some? && e.snippet.value != "" ==> occurrence.additionalContext == e.snippet)
  {}

  /** A component is named and referenced as its artefact. */
  lemma ComponentIsReferenced(a: CryptoArtefact, n: Notes)
    ensures ComponentOf(a, n).name == Some(a.name) && ComponentOf(a, n).bomRef == a.artefactId
    ensures ComponentOf(a, n).oid == if a.oid == Some("") then None else a.oid
    ensures ComponentOf(a, n).assetType ==
            Some(if a.kind == Enums.AssetType.Algorithm then "algorithm"
                 else if a.kind == Enums.Certificate then "certificate"
                 else if a.kind == Enums.Protocol then "protocol"
                 else if a.kind == Enums.Library then "library"
                 else "related-crypto-material")
  {}

  /** The label is the canonical spelling, and nothing else is written under its name. */
  lemma ExportedLabel(a: CryptoArtefact, n: Notes)
    ensures Get(IndexOf(PropertiesOf(a, n)), "trinetra:quantum-vulnerability") ==
            Some(match a.vulnerability
                 case ShorBroken => "shor_broken"
                 case GroverWeakened => "grover_weakened"
                 case QuantumSafe => "quantum_safe"
                 case ClassicallyBroken => "classically_broken"
                 case NotApplicable => "not_applicable"
                 case Unknown => "unknown")
  {
    ExportedIndex(a, n);
    NoteNames(n);
    LabelIsNoNote();
    IndexOfMaybe(VULNERABILITY, Some(VulnerabilityValue(a.vulnerability)));
    var before := IndexOf(Maybe(ASSET_TYPE, HintFor(a.kind))) + IndexOf(Maybe(ALGORITHM, OrNone(a.algorithm)));
    LookupInGroup(before, IndexOf(Maybe(VULNERABILITY, Some(VulnerabilityValue(a.vulnerability)))),
                  IndexOf(NoteProperties(n)), VULNERABILITY);
  }

  lemma LabelIsNoNote()
    ensures VULNERABILITY !in NOTE_NAMES
  {
    assert VULNERABILITY[9] == 'q';
    assert RISK_SCORE[9] == 'r' && PRIORITY[9] == 'p' && MOSCA_URGENT[9] == 'm' && RECOMMENDED[9] == 'r';
  }

  /** The notes, in order: score if there is one, priority, urgency if known, and a recommendation if one is named. */
  lemma ExportedNotes(n: Notes)
    ensures var score := if n.assessment.Some? && n.assessment.value.score.Some?
                         then [Property("trinetra:risk-score", n.assessment.value.score.value)] else [];
            var priority := if n.assessment.Some? then [Property("trinetra:priority", n.assessment.value.priority)] else [];
            var urgent := if n.assessment.Some? && n.assessment.value.urgent.Some?
                          then [Property("trinetra:mosca-urgent", n.assessment.value.urgent.value)] else [];
            var recommended := if n.recommended.Some? && n.recommended.value != ""
                               then [Property("trinetra:recommended-algorithm", n.recommended.value)] else [];
            NoteProperties(n) == score + priority + urgent + recommended
  {}

  /** The properties, in order: hint, algorithm, label, notes. */
  lemma ExportedProperties(a: CryptoArtefact, n: Notes)
    ensures var hint := if a.kind in {Enums.Key, Enums.HardwareModule, Enums.CloudService} then 1 else 0;
            var algorithm := if a.algorithm.Some? && a.algorithm.value != "" then 1 else 0;
            var properties := PropertiesOf(a, n);
            && |properties| == hint + algorithm + 1 + |NoteProperties(n)|
            && (hint == 1 ==> properties[0].Property? && properties[0].name == "trinetra:asset-type")
            && (algorithm == 1 ==> properties[hint] == Property("trinetra:algorithm", a.algorithm.value))
            && properties[hint + algorithm].Property?
            && properties[hint + algorithm].name == "trinetra:quantum-vulnerability"
            && properties[hint + algorithm + 1..] == NoteProperties(n)
  {}

  /** In a document every artefact has its own component, with the notes on that artefact, if there are any. */
  lemma NotesTravelWithTheirArtefact(xs: seq<CryptoArtefact>, notes: map<Id, Notes>, i: nat)
    requires i < |xs|
    ensures var id, entry := xs[i].artefactId, ComponentsOf(xs, notes)[i];
            && entry.Asset? && entry.component.bomRef == id
            && (id in notes ==> entry.component == ComponentOf(xs[i], notes[id]))
            && (id !in notes ==> entry.component == ComponentOf(xs[i], Notes(None, None)))
  {}

  /** The document is a CycloneDX 1.6 envelope that names the exporting tool and then the scan's. */
  lemma EnvelopeInWords(timestamp: string, uuid: string, own: Tool, tools: seq<Tool>)
    ensures var d := Envelope(timestamp, uuid, own, tools);
            && d.bomFormat == Some("CycloneDX") && d.specVersion == Some("1.6")
            && d.serialNumber == Some("urn:uuid:" + uuid)
            && d.metadata == Some(Metadata(Some(timestamp), ToolsObject([own] + tools)))
  {}

  // ----- the words of `cryptoProperties` -----

  /** The primitive is written in its word, exactly when there is one. */
  lemma ExportedPrimitive(a: CryptoArtefact, n: Notes)
    ensures ComponentOf(a, n).algorithm.primitive ==
            match a.primitive
            case None => None
            case Some(p) =>
              Some(match p
                   case BlockCipher => "block-cipher"
                   case StreamCipher => "stream-cipher"
                   case Hash => "hash"
                   case Mac => "mac"
                   case Aead => "ae"
                   case Signature => "signature"
                   case Pke => "pke"
                   case Kem => "kem"
                   case KeyAgreement => "key-agree"
                   case Kdf => "kdf"
                   case Drbg => "drbg"
                   case Other => "other")
  {}

  /** The purposes are written in their words, all of them and in order. */
  lemma ExportedFunctions(a: CryptoArtefact, n: Notes)
    ensures |ComponentOf(a, n).algorithm.cryptoFunctions| == |a.purposes|
    ensures forall i :: 0 <= i < |a.purposes| ==>
              ComponentOf(a, n).algorithm.cryptoFunctions[i] ==
              match a.purposes[i]
              case Encryption => "encrypt"
              case Decryption => "decrypt"
              case DigitalSignature => "sign"
              case Verify => "verify"
              case KeyEncapsulation => "encapsulate"
              case KeyAgreement => "keygen"
              case KeyDerivation => "derive"
              case Hashing => "digest"
              case Authentication => "tag"
              case Integrity => "verify-integrity"
              case RandomGeneration => "generate"
              case Other => "other"
  {}

  function AlgorithmDetailOf(a: CryptoArtefact): AlgorithmDetail {
    if a.detail.Some? && a.detail.value.OfAlgorithm? then a.detail.value.algorithm
    else AlgorithmDetail(None, None, None, None, None, None)
  }

  /** Mode and padding of an algorithm's detail are written in their words, its curve as it is. */
  lemma ExportedModeAndPadding(a: CryptoArtefact, n: Notes)
    ensures var d, p := AlgorithmDetailOf(a), ComponentOf(a, n).algorithm;
            && p.mode == (match d.mode
                          case None => None
                          case Some(m) =>
                            Some(match m
                                 case Ecb => "ecb"
                                 case Cbc => "cbc"
                                 case Ctr => "ctr"
                                 case Gcm => "gcm"
                                 case Ccm => "ccm"
                                 case Ofb => "ofb"
                                 case Cfb => "cfb"
                                 case Xts => "xts"
                                 case Siv => "siv"
                                 case Poly1305 => "poly1305"
                                 case Other => "other"))
            && p.padding == (match d.padding
                             case None => None
                             case Some(x) =>
                               Some(match x
                                    case Pkcs1V15 => "pkcs1v15"
                                    case Oaep => "oaep"
                                    case Pss => "pss"
                                    case Pkcs7 => "pkcs7"
                                    case AnsiX923 => "ansix923"
                                    case Iso10126 => "iso10126"
                                    case Zero => "zeros"
                                    case Raw => "raw"
                                    case NoPadding => "none"
                                    case Other => "other"))
            && p.curve == if d.curve == Some("") then None else d.curve
  {}

  /** The one identifier: the parameter set where there is one, else a key size in decimal, else nothing. */
  lemma ExportedIdentifier(a: CryptoArtefact, n: Notes)
    ensures var d, written := AlgorithmDetailOf(a), ComponentOf(a, n).algorithm.parameterSetIdentifier;
            && (d.parameterSet.Some? && d.parameterSet.value != "" ==> written == d.parameterSet)
            && (d.parameterSet.None? || d.parameterSet.value == "" ==>
                  && (written.None? <==> d.keySizeBits.None? || d.keySizeBits.value == 0)
                  && (written.Some? ==> Decimal.ParseInt(written.value) == Some(d.keySizeBits.value)))
  {
    var size := AlgorithmDetailOf(a).keySizeBits;
    if size.Some? {
      Decimal.ParseOfPrint(size.value);
    }
  }

  /** The hint is written for keys, hardware modules and cloud services alone; the algorithm where it is not blank. */
  lemma ExportedHintAndAlgorithm(a: CryptoArtefact, n: Notes)
    ensures Get(IndexOf(PropertiesOf(a, n)), "trinetra:asset-type") ==
            (if a.kind == Enums.Key then Some("key")
             else if a.kind == Enums.HardwareModule then Some("hardware_module")
             else if a.kind == Enums.CloudService then Some("cloud_service")
             else None)
    ensures Get(IndexOf(PropertiesOf(a, n)), "trinetra:algorithm") == if a.algorithm == Some("") then None else a.algorithm
  {
    ExportedLookups(a, n);
  }
}
