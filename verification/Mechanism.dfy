/** PKCS#11 mechanisms, signing algorithms and DigestInfo (mechanism.go; hashDataForMechanism in backend.go). */
module Mechanism {
  import opened Common
  import opened Der

  const CKM_RSA_PKCS: nat := 0x00000001
  const CKM_SHA256_RSA_PKCS: nat := 0x00000040
  const CKM_SHA384_RSA_PKCS: nat := 0x00000041
  const CKM_SHA512_RSA_PKCS: nat := 0x00000042
  const CKM_SHA256_RSA_PKCS_PSS: nat := 0x00000043
  const CKM_SHA384_RSA_PKCS_PSS: nat := 0x00000044
  const CKM_SHA512_RSA_PKCS_PSS: nat := 0x00000045
  const CKM_ECDSA: nat := 0x00001041
  const CKM_ECDSA_SHA256: nat := 0x00001044
  const CKM_ECDSA_SHA384: nat := 0x00001045
  const CKM_ECDSA_SHA512: nat := 0x00001046

  datatype Hash = Sha256 | Sha384 | Sha512

  datatype Algorithm = RsaPkcs1(hash: Hash) | RsaPss(hash: Hash) | Ecdsa(hash: Hash)

  function DigestLen(h: Hash): nat {
    match h
    case Sha256 => 32
    case Sha384 => 48
    case Sha512 => 64
  }

  function HashOid(h: Hash): seq<nat> {
    [2, 16, 840, 1, 101, 3, 4, 2, match h case Sha256 => 1 case Sha384 => 2 case Sha512 => 3]
  }

  function MechanismToAlgorithm(mechanism: nat): Option<Algorithm> {
    if mechanism == CKM_SHA256_RSA_PKCS then Some(RsaPkcs1(Sha256))
    else if mechanism == CKM_SHA384_RSA_PKCS then Some(RsaPkcs1(Sha384))
    else if mechanism == CKM_SHA512_RSA_PKCS then Some(RsaPkcs1(Sha512))
    else if mechanism == CKM_SHA256_RSA_PKCS_PSS then Some(RsaPss(Sha256))
    else if mechanism == CKM_SHA384_RSA_PKCS_PSS then Some(RsaPss(Sha384))
    else if mechanism == CKM_SHA512_RSA_PKCS_PSS then Some(RsaPss(Sha512))
    else if mechanism == CKM_ECDSA_SHA256 then Some(Ecdsa(Sha256))
    else if mechanism == CKM_ECDSA_SHA384 then Some(Ecdsa(Sha384))
    else if mechanism == CKM_ECDSA_SHA512 then Some(Ecdsa(Sha512))
    else if mechanism == CKM_ECDSA then Some(Ecdsa(Sha256))
    else None
  }

  predicate IsPSSMechanism(mech: nat) {
    mech == CKM_SHA256_RSA_PKCS_PSS || mech == CKM_SHA384_RSA_PKCS_PSS || mech == CKM_SHA512_RSA_PKCS_PSS
  }

  // ------------------------------------------------------------------ DigestInfo

  const TAG_SEQUENCE: byte := 0x30
  const TAG_OID: byte := 0x06
  const TAG_OCTET_STRING: byte := 0x04

  /** The algorithm and the optional parameters of an AlgorithmIdentifier's content. */
  function ParseAlgorithmOid(content: Bytes): Option<seq<nat>> {
    var oid := ParseElement(content);
    if oid.None? || oid.value.first != TAG_OID then None
    else if oid.value.rest != [] && ParseElement(oid.value.rest).None? then None
    else ParseOid(oid.value.content)
  }

  function HashOfOid(oid: seq<nat>): Option<Hash> {
    if oid == HashOid(Sha256) then Some(Sha256)
    else if oid == HashOid(Sha384) then Some(Sha384)
    else if oid == HashOid(Sha512) then Some(Sha512)
    else None
  }

  /** The content of the outer SEQUENCE; elements after the digest are ignored. */
  function ParseDigestInfoContent(inner: Bytes): Option<(Hash, Bytes)> {
    var alg := ParseElement(inner);
    if alg.None? then None
    else
      var digest := ParseElement(alg.value.rest);
      if digest.None? || digest.value.first != TAG_OCTET_STRING then None
      else if alg.value.first != TAG_SEQUENCE then None
      else
        var oid := ParseAlgorithmOid(alg.value.content);
        if oid.None? || HashOfOid(oid.value).None? then None
        else
          var hash := HashOfOid(oid.value).value;
          if |digest.value.content| != DigestLen(hash) then None else Some((hash, digest.value.content))
  }

  /** parseDigestInfo: the signing algorithm is RSA PKCS#1 v1.5 with the hash found. */
  function ParseDigestInfo(data: Bytes): Option<(Hash, Bytes)> {
    var outer := ParseElement(data);
    if outer.None? || outer.value.first != TAG_SEQUENCE || outer.value.rest != [] then None
    else ParseDigestInfoContent(outer.value.content)
  }

  // ------------------------------------------------------------------ the DER encoding

  /** Parameters are absent or start with one well-formed element. */
  predicate ParametersOk(parameters: Bytes) {
    parameters == [] || ParseElement(parameters).Some?
  }

  /** The content of DigestInfo (appendix A.2.4 of RFC 8017), with `extra` bytes after its two elements. */
  function DigestInfoContent(hash: Hash, parameters: Bytes, digest: Bytes, extra: Bytes): (b: Bytes)
    requires |digest| < LENGTH_LIMIT
    requires |AlgorithmContent(hash, parameters)| < LENGTH_LIMIT
  {
    Tlv(TAG_SEQUENCE, AlgorithmContent(hash, parameters)) + Tlv(TAG_OCTET_STRING, digest) + extra
  }

  function AlgorithmContent(hash: Hash, parameters: Bytes): Bytes {
    OidIsShort(hash);
    Tlv(TAG_OID, EncodeOid(HashOid(hash))) + parameters
  }

  lemma OidIsShort(hash: Hash)
    ensures ValidOid(HashOid(hash)) && |EncodeOid(HashOid(hash))| < LENGTH_LIMIT
  {
    var oid := HashOid(hash);
    var arcs := [oid[0] * 40 + oid[1]] + oid[2..];
    ArcsLength(arcs);
  }

  lemma {:induction false} ArcsLength(arcs: seq<nat>)
    requires forall i :: 0 <= i < |arcs| ==> arcs[i] <= MAX_INT32
    ensures |EncodeArcs(arcs)| <= 5 * |arcs|
  {
    if arcs != [] {
      ArcsLength(arcs[1..]);
      assert Pow128(4) == 128 * (128 * (128 * (128 * 1)));
      ContinuedLength(arcs[0] / 128, 4);
    }
  }

  /** A complete DigestInfo that the length limit of the decoder admits. */
  ghost predicate IsDigestInfo(data: Bytes, hash: Hash, parameters: Bytes, digest: Bytes, extra: Bytes) {
    && |digest| == DigestLen(hash)
    && ParametersOk(parameters)
    && |AlgorithmContent(hash, parameters)| < LENGTH_LIMIT
    && |DigestInfoContent(hash, parameters, digest, extra)| < LENGTH_LIMIT
    && data == Tlv(TAG_SEQUENCE, DigestInfoContent(hash, parameters, digest, extra))
  }

  lemma AlgorithmOidCodec(hash: Hash, parameters: Bytes)
    requires ParametersOk(parameters)
    ensures ParseAlgorithmOid(AlgorithmContent(hash, parameters)) == Some(HashOid(hash))
  {
    OidIsShort(hash);
    ElementRoundTrip(TAG_OID, EncodeOid(HashOid(hash)), parameters);
    OidCodec(HashOid(hash), EncodeOid(HashOid(hash)));
  }

  lemma ContentRoundTrip(algorithm: Bytes, hash: Hash, digest: Bytes, extra: Bytes)
    requires ParseAlgorithmOid(algorithm) == Some(HashOid(hash))
    requires |algorithm| < LENGTH_LIMIT && |digest| == DigestLen(hash)
    ensures ParseDigestInfoContent(Tlv(TAG_SEQUENCE, algorithm) + Tlv(TAG_OCTET_STRING, digest) + extra) ==
            Some((hash, digest))
  {
    var rest := Tlv(TAG_OCTET_STRING, digest) + extra;
    assert Tlv(TAG_SEQUENCE, algorithm) + Tlv(TAG_OCTET_STRING, digest) + extra == Tlv(TAG_SEQUENCE, algorithm) + rest;
    ElementRoundTrip(TAG_SEQUENCE, algorithm, rest);
    ElementRoundTrip(TAG_OCTET_STRING, digest, extra);
    HashOfHashOid(hash);
  }

  lemma HashOfHashOid(hash: Hash)
    ensures HashOfOid(HashOid(hash)) == Some(hash)
  {
    assert HashOid(hash)[8] == match hash case Sha256 => 1 case Sha384 => 2 case Sha512 => 3;
  }

  /** Parsing an encoded DigestInfo gives back hash and digest, whatever the parameters and extra elements. */
  lemma DigestInfoRoundTrip(data: Bytes, hash: Hash, parameters: Bytes, digest: Bytes, extra: Bytes)
    requires IsDigestInfo(data, hash, parameters, digest, extra)
    ensures ParseDigestInfo(data) == Some((hash, digest))
  {
    var content := DigestInfoContent(hash, parameters, digest, extra);
    ElementRoundTrip(TAG_SEQUENCE, content, []);
    assert data == Tlv(TAG_SEQUENCE, content) + [];
    AlgorithmOidCodec(hash, parameters);
    ContentRoundTrip(AlgorithmContent(hash, parameters), hash, digest, extra);
  }

  lemma HashOfOidReads(oid: seq<nat>)
    requires HashOfOid(oid).Some?
    ensures oid == HashOid(HashOfOid(oid).value)
  {
  }

  lemma AlgorithmReads(content: Bytes) returns (parameters: Bytes)
    requires ParseAlgorithmOid(content).Some? && HashOfOid(ParseAlgorithmOid(content).value).Some?
    ensures ParametersOk(parameters)
    ensures content == AlgorithmContent(HashOfOid(ParseAlgorithmOid(content).value).value, parameters)
  {
    var oid := ParseAlgorithmOid(content).value;
    var hash := HashOfOid(oid).value;
    HashOfOidReads(oid);
    OidIsShort(hash);
    var e := ParseElement(content).value;
    ElementReads(content);
    OidCodec(oid, e.content);
    parameters := e.rest;
  }

  lemma ContentReads(inner: Bytes) returns (algorithm: Bytes, extra: Bytes)
    requires ParseDigestInfoContent(inner).Some?
    ensures var (hash, digest) := ParseDigestInfoContent(inner).value;
            && |algorithm| < LENGTH_LIMIT && |digest| == DigestLen(hash)
            && ParseAlgorithmOid(algorithm).Some? && HashOfOid(ParseAlgorithmOid(algorithm).value) == Some(hash)
            && inner == Tlv(TAG_SEQUENCE, algorithm) + Tlv(TAG_OCTET_STRING, digest) + extra
  {
    hide ParseElement, ParseAlgorithmOid, HashOfOid, EncodeLength;
    ElementReads(inner);
    var alg := ParseElement(inner).value;
    ElementReads(alg.rest);
    var digest := ParseElement(alg.rest).value;
    algorithm, extra := alg.content, digest.rest;
    assert inner == Tlv(TAG_SEQUENCE, algorithm) + (Tlv(TAG_OCTET_STRING, digest.content) + extra);
  }

  lemma DigestInfoReads(data: Bytes) returns (parameters: Bytes, extra: Bytes)
    requires ParseDigestInfo(data).Some?
    ensures var (hash, digest) := ParseDigestInfo(data).value; IsDigestInfo(data, hash, parameters, digest, extra)
  {
    hide ParseElement, ParseDigestInfoContent, ParseAlgorithmOid, HashOfOid, EncodeOid, EncodeLength, ParametersOk, HashOid;
    ElementReads(data);
    var inner := ParseElement(data).value.content;
    assert data == Tlv(TAG_SEQUENCE, inner);
    var algorithm;
    algorithm, extra := ContentReads(inner);
    parameters := AlgorithmReads(algorithm);
  }

  /** Exactly the DER encodings of a DigestInfo are accepted: one element, nothing behind it, the right length. */
  lemma DigestInfoLanguage(data: Bytes, hash: Hash, digest: Bytes)
    ensures ParseDigestInfo(data) == Some((hash, digest)) <==>
            exists parameters, extra :: IsDigestInfo(data, hash, parameters, digest, extra)
  {
    if ParseDigestInfo(data) == Some((hash, digest)) {
      var parameters, extra := DigestInfoReads(data);
    }
    if parameters, extra :| IsDigestInfo(data, hash, parameters, digest, extra) {
      DigestInfoRoundTrip(data, hash, parameters, digest, extra);
    }
  }
}
