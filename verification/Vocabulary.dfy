/**
 CycloneDX spellings of the canonical vocabulary (backend/app/schemas/vocab.py), for the `cryptoProperties` object of
 the CycloneDX 1.6 JSON schema (ECMA-424).
 */
module Vocabulary {
  import opened Wrappers
  import opened Enums
  import opened DistinctBy

  // ----- asset types -----

  function AssetTypeToWire(t: AssetType): string {
    match t
    case Algorithm => "algorithm"
    case Certificate => "certificate"
    case Protocol => "protocol"
    case Library => "library"
    case Key => "related-crypto-material"
    case HardwareModule => "related-crypto-material"
    case CloudService => "related-crypto-material"
    case RelatedMaterial => "related-crypto-material"
  }

  /** `value.value`, the canonical snake_case spelling. */
  function AssetTypeValue(t: AssetType): string {
    match t
    case Algorithm => "algorithm"
    case Key => "key"
    case Certificate => "certificate"
    case Protocol => "protocol"
    case Library => "library"
    case HardwareModule => "hardware_module"
    case CloudService => "cloud_service"
    case RelatedMaterial => "related_material"
  }

  function AssetTypeOfValue(v: string): Option<AssetType> {
    if v == "algorithm" then Some(AssetType.Algorithm)
    else if v == "key" then Some(Key)
    else if v == "certificate" then Some(Certificate)
    else if v == "protocol" then Some(Protocol)
    else if v == "library" then Some(Library)
    else if v == "hardware_module" then Some(HardwareModule)
    else if v == "cloud_service" then Some(CloudService)
    else if v == "related_material" then Some(RelatedMaterial)
    else None
  }

  /** A recognised hint wins; an unrecognised wire value degrades to algorithm. */
  function AssetTypeFromWire(wire: string, hint: Option<string>): AssetType {
    if hint.Some? && AssetTypeOfValue(hint.value).Some? then AssetTypeOfValue(hint.value).value
    else if wire == "certificate" then Certificate
    else if wire == "protocol" then Protocol
    else if wire == "library" then Library
    else if wire == "related-crypto-material" then RelatedMaterial
    else AssetType.Algorithm
  }

  /** The types that share a wire spelling and are not its default reading. */
  predicate NeedsHint(t: AssetType) {
    t == Key || t == HardwareModule || t == CloudService
  }

  function HintFor(t: AssetType): Option<string> {
    if NeedsHint(t) then Some(AssetTypeValue(t)) else None
  }

  /** Every asset type survives the trip, with a hint written exactly where one is needed. */
  lemma AssetTypeRoundTrip(t: AssetType)
    ensures AssetTypeFromWire(AssetTypeToWire(t), HintFor(t)) == t
    ensures AssetTypeFromWire(AssetTypeToWire(t), None) == t <==> !NeedsHint(t)
  {
    match t {
      case Algorithm => assert AssetTypeToWire(t)[0] == 'a';
      case Certificate => assert AssetTypeToWire(t)[0] == 'c';
      case Protocol => assert AssetTypeToWire(t)[0] == 'p';
      case Library => assert AssetTypeToWire(t)[0] == 'l';
      case Key => assert AssetTypeValue(t)[0] == 'k';
      case HardwareModule => assert AssetTypeValue(t)[0] == 'h';
      case CloudService => assert AssetTypeValue(t)[0..2] == "cl";
      case RelatedMaterial => assert AssetTypeToWire(t)[0] == 'r';
    }
  }

  // ----- primitives -----

  function PrimitiveToWire(x: Primitive): string {
    match x
    case BlockCipher => "block-cipher"
    case StreamCipher => "stream-cipher"
    case Hash => "hash"
    case Mac => "mac"
    case Aead => "ae"
    case Signature => "signature"
    case Pke => "pke"
    case Kem => "kem"
    case KeyAgreement => "key-agree"
    case Kdf => "kdf"
    case Drbg => "drbg"
    case Other => "other"
  }

  function PrimitiveFromWire(w: string): Primitive {
    if w == "block-cipher" then Primitive.BlockCipher
    else if w == "stream-cipher" then Primitive.StreamCipher
    else if w == "hash" then Primitive.Hash
    else if w == "mac" then Primitive.Mac
    else if w == "ae" then Primitive.Aead
    else if w == "signature" then Primitive.Signature
    else if w == "pke" then Primitive.Pke
    else if w == "kem" then Primitive.Kem
    else if w == "key-agree" then Primitive.KeyAgreement
    else if w == "kdf" then Primitive.Kdf
    else if w == "drbg" then Primitive.Drbg
    else Primitive.Other
  }

  /** The tables are inverses; an unknown spelling reads as `Other`. */
  lemma PrimitiveRoundTrip(x: Primitive, w: string)
    ensures PrimitiveFromWire(PrimitiveToWire(x)) == x
    ensures PrimitiveFromWire(w) == x && x != Primitive.Other ==> w == PrimitiveToWire(x)
  {}

  // ----- purposes (`cryptoFunctions`) -----

  function PurposeToWire(x: Purpose): string {
    match x
    case Encryption => "encrypt"
    case Decryption => "decrypt"
    case DigitalSignature => "sign"
    case Verify => "verify"
    case KeyEncapsulation => "encapsulate"
    case KeyAgreement => "keygen"
    case KeyDerivation => "derive"
    case Hashing => "digest"
    case Authentication => "tag"
    case Integrity => "verify-integrity"
    case RandomGeneration => "generate"
    case Other => "other"
  }

  function PurposeFromWire(w: string): Purpose {
    if w == "encrypt" then Purpose.Encryption
    else if w == "decrypt" then Purpose.Decryption
    else if w == "sign" then Purpose.DigitalSignature
    else if w == "verify" then Purpose.Verify
    else if w == "encapsulate" then Purpose.KeyEncapsulation
    else if w == "keygen" then Purpose.KeyAgreement
    else if w == "derive" then Purpose.KeyDerivation
    else if w == "digest" then Purpose.Hashing
    else if w == "tag" then Purpose.Authentication
    else if w == "verify-integrity" then Purpose.Integrity
    else if w == "generate" then Purpose.RandomGeneration
    else Purpose.Other
  }

  /** The tables are inverses; an unknown spelling reads as `Other`. */
  lemma PurposeRoundTrip(x: Purpose, w: string)
    ensures PurposeFromWire(PurposeToWire(x)) == x
    ensures PurposeFromWire(w) == x && x != Purpose.Other ==> w == PurposeToWire(x)
  {}

  // ----- modes -----

  function ModeToWire(x: CipherMode): string {
    match x
    case Ecb => "ecb"
    case Cbc => "cbc"
    case Ctr => "ctr"
    case Gcm => "gcm"
    case Ccm => "ccm"
    case Ofb => "ofb"
    case Cfb => "cfb"
    case Xts => "xts"
    case Siv => "siv"
    case Poly1305 => "poly1305"
    case Other => "other"
  }

  function ModeFromWire(w: string): CipherMode {
    if w == "ecb" then CipherMode.Ecb
    else if w == "cbc" then CipherMode.Cbc
    else if w == "ctr" then CipherMode.Ctr
    else if w == "gcm" then CipherMode.Gcm
    else if w == "ccm" then CipherMode.Ccm
    else if w == "ofb" then CipherMode.Ofb
    else if w == "cfb" then CipherMode.Cfb
    else if w == "xts" then CipherMode.Xts
    else if w == "siv" then CipherMode.Siv
    else if w == "poly1305" then CipherMode.Poly1305
    else CipherMode.Other
  }

  /** The tables are inverses; an unknown spelling reads as `Other`. */
  lemma ModeRoundTrip(x: CipherMode, w: string)
    ensures ModeFromWire(ModeToWire(x)) == x
    ensures ModeFromWire(w) == x && x != CipherMode.Other ==> w == ModeToWire(x)
  {}

  // ----- paddings -----

  function PaddingToWire(x: Padding): string {
    match x
    case Pkcs1V15 => "pkcs1v15"
    case Oaep => "oaep"
    case Pss => "pss"
    case Pkcs7 => "pkcs7"
    case AnsiX923 => "ansix923"
    case Iso10126 => "iso10126"
    case Zero => "zeros"
    case Raw => "raw"
    case NoPadding => "none"
    case Other => "other"
  }

  function PaddingFromWire(w: string): Padding {
    if w == "pkcs1v15" then Padding.Pkcs1V15
    else if w == "oaep" then Padding.Oaep
    else if w == "pss" then Padding.Pss
    else if w == "pkcs7" then Padding.Pkcs7
    else if w == "ansix923" then Padding.AnsiX923
    else if w == "iso10126" then Padding.Iso10126
    else if w == "zeros" then Padding.Zero
    else if w == "raw" then Padding.Raw
    else if w == "none" then Padding.NoPadding
    else Padding.Other
  }

  /** The tables are inverses; an unknown spelling reads as `Other`. */
  lemma PaddingRoundTrip(x: Padding, w: string)
    ensures PaddingFromWire(PaddingToWire(x)) == x
    ensures PaddingFromWire(w) == x && x != Padding.Other ==> w == PaddingToWire(x)
  {}

  /** Duplicates collapse, order is kept. */
  function NormalisedPurposes(values: seq<string>): seq<Purpose> {
    Firsts(SamePurpose, {}, PurposesOf(values))
  }

  function SamePurpose(p: Purpose): Purpose {
    p
  }

  function PurposesOf(values: seq<string>): (r: seq<Purpose>)
    ensures |r| == |values|
    ensures forall i :: 0 <= i < |values| ==> r[i] == PurposeFromWire(values[i])
  {
    seq(|values|, i requires 0 <= i < |values| => PurposeFromWire(values[i]))
  }

  method NormalisePurposes(values: seq<string>) returns (result: seq<Purpose>)
    ensures result == NormalisedPurposes(values)
  {
    result := KeepFirsts(SamePurpose, PurposesOf(values));
  }

  ghost predicate AreDistinct(ps: seq<Purpose>) {
    forall i, j :: 0 <= i < j < |ps| ==> ps[i] != ps[j]
  }

  /** Exactly the purposes that occur, each once. */
  lemma NormalisedPurposesOccur(values: seq<string>)
    ensures AreDistinct(NormalisedPurposes(values))
    ensures forall p :: p in NormalisedPurposes(values) <==> p in PurposesOf(values)
  {
    var all, kept := PurposesOf(values), NormalisedPurposes(values);
    FirstsAreDistinct(SamePurpose, {}, all);
    forall i, j | 0 <= i < j < |kept| ensures kept[i] != kept[j] {
      assert SamePurpose(kept[i]) != SamePurpose(kept[j]);
    }
    FirstsKeys(SamePurpose, {}, all);
    forall p | p in all ensures p in kept {
      assert SamePurpose(p) in Keys(SamePurpose, all) && SamePurpose(p) in Keys(SamePurpose, kept);
    }
  }

  function PurposesToWire(ps: seq<Purpose>): (r: seq<string>)
    ensures |r| == |ps|
    ensures forall i :: 0 <= i < |ps| ==> r[i] == PurposeToWire(ps[i])
  {
    seq(|ps|, i requires 0 <= i < |ps| => PurposeToWire(ps[i]))
  }

  /** A list of purposes survives the trip exactly when it repeats none. */
  lemma PurposesRoundTrip(ps: seq<Purpose>)
    ensures NormalisedPurposes(PurposesToWire(ps)) == ps <==> AreDistinct(ps)
  {
    forall i | 0 <= i < |ps| ensures PurposesOf(PurposesToWire(ps))[i] == ps[i] {
      PurposeRoundTrip(ps[i], PurposeToWire(ps[i]));
    }
    assert PurposesOf(PurposesToWire(ps)) == ps;
    NormalisedPurposesOccur(PurposesToWire(ps));
    if AreDistinct(ps) {
      FirstsOfDistinct(SamePurpose, {}, ps);
    }
  }
}
