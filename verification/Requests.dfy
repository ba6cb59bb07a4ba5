/** What may be asked of the server for a mechanism and data, said without the functions that build the request. */
module Requests {
  import opened Common
  import opened Errors
  import opened Der
  import opened Mechanism
  import opened EcKey
  import opened Remote
  import opened Signers

  /** The three variants of a mechanism follow one another, in this order. */
  function Variant(hash: Hash): nat {
    match hash
    case Sha256 => 0
    case Sha384 => 1
    case Sha512 => 2
  }

  /**
   The request `r` serves mechanism `mech` with `hash` on `data`.  The numbers are those of PKCS #11 v2.40:
   CKM_SHA256_RSA_PKCS and the next two, CKM_SHA256_RSA_PKCS_PSS and the next two, CKM_ECDSA_SHA256 and the next two,
   CKM_RSA_PKCS, CKM_ECDSA.
   */
  ghost predicate Serves(e: Env, mech: nat, data: Bytes, r: SignRequest, hash: Hash) {
    // the module hashes, the server signs the digest
    || (mech == 0x40 + Variant(hash) && r.algorithm == RsaPkcs1(hash) && r.isDigest && r.data == e.digest(hash, data))
    || (mech == 0x1044 + Variant(hash) && r.algorithm == Ecdsa(hash) && r.isDigest && r.data == e.digest(hash, data))
    // the server hashes
    || (mech == 0x43 + Variant(hash) && r.algorithm == RsaPss(hash) && !r.isDigest && r.data == data)
    // the caller has hashed: the DigestInfo says with what, or else the length does
    || (mech == 0x1 && r.algorithm == RsaPkcs1(hash) && r.isDigest &&
        exists parameters, extra :: IsDigestInfo(data, hash, parameters, r.data, extra))
    || (mech == 0x1041 && r.algorithm == Ecdsa(hash) && r.isDigest && r.data == data &&
        hash == (match |data| case 48 => Sha384 case 64 => Sha512 case _ => Sha256))
  }

  ghost predicate RequestFor(e: Env, mech: nat, data: Bytes, r: SignRequest) {
    r.context == e.context && exists hash :: Serves(e, mech, data, r, hash)
  }

  /** The request built is the one that serves mechanism and data; for every other mechanism, or data, there is none. */
  lemma BuildsExactly(e: Env, mech: nat, data: Bytes, r: SignRequest)
    ensures BuildRequest(e, mech, data) == Ok(r) <==> RequestFor(e, mech, data, r)
  {
    hide ParseDigestInfo, IsDigestInfo;
    if mech == 0x1 {
      RawRsaRequest(e, data, r);
    } else {
      OtherRequest(e, mech, data, r);
    }
  }

  lemma RawRsaRequest(e: Env, data: Bytes, r: SignRequest)
    ensures BuildRequest(e, 0x1, data) == Ok(r) <==> RequestFor(e, 0x1, data, r)
  {
    hide ParseDigestInfo, IsDigestInfo;
    forall hash
      ensures Serves(e, 0x1, data, r, hash) <==>
              ParseDigestInfo(data) == Some((hash, r.data)) && r.algorithm == RsaPkcs1(hash) && r.isDigest
    {
      DigestInfoLanguage(data, hash, r.data);
    }
    var parsed := ParseDigestInfo(data);
    if parsed.Some? {
      assert Serves(e, 0x1, data, r, parsed.value.0) <==>
             parsed.value.1 == r.data && r.algorithm == RsaPkcs1(parsed.value.0) && r.isDigest;
    }
  }

  lemma OtherRequest(e: Env, mech: nat, data: Bytes, r: SignRequest)
    requires mech != 0x1
    ensures BuildRequest(e, mech, data) == Ok(r) <==> RequestFor(e, mech, data, r)
  {
    hide IsDigestInfo;
    var served := Serves(e, mech, data, r, Sha256) || Serves(e, mech, data, r, Sha384) || Serves(e, mech, data, r, Sha512);
    assert (exists hash :: Serves(e, mech, data, r, hash)) <==> served;
  }

  // ------------------------------------------------------------------ the identifiers, byte by byte

  /** DigestInfo with NULL parameters is the fixed prefix of section 9.2 of RFC 8017, then the digest. */
  lemma DigestInfoPrefix(hash: Hash, digest: Bytes)
    requires |digest| == DigestLen(hash)
    ensures IsDigestInfo(LiteralPrefix(hash) + digest, hash, [0x05, 0x00], digest, [])
  {
    hide ParametersOk, EncodeOid, HashOid, Tlv;
    OidIsShort(hash);
    OidBytes(hash);
    NullParameters();
    var oid := [0x60, 0x86, 0x48, 0x01, 0x65, 0x03, 0x04, 0x02, LastArc(hash)];
    ShortTlv(TAG_OID, oid);
    var alg := AlgorithmContent(hash, [0x05, 0x00]);
    assert alg == [0x06, 0x09] + oid + [0x05, 0x00];
    ShortTlv(TAG_SEQUENCE, alg);
    ShortTlv(TAG_OCTET_STRING, digest);
    var content := DigestInfoContent(hash, [0x05, 0x00], digest, []);
    assert content == [0x30, 0x0d] + alg + [0x04, DigestLen(hash)] + digest;
    ShortTlv(TAG_SEQUENCE, content);
    PrefixBytes(hash, digest);
  }

  lemma PrefixBytes(hash: Hash, digest: Bytes)
    ensures var alg := [0x06, 0x09] + [0x60, 0x86, 0x48, 0x01, 0x65, 0x03, 0x04, 0x02, LastArc(hash)] + [0x05, 0x00];
            LiteralPrefix(hash) + digest ==
            [0x30, 17 + DigestLen(hash)] + ([0x30, 0x0d] + alg + [0x04, DigestLen(hash)] + digest)
  {
    hide DigestLen, LastArc, LiteralPrefix;
    var alg := [0x06, 0x09] + [0x60, 0x86, 0x48, 0x01, 0x65, 0x03, 0x04, 0x02, LastArc(hash)] + [0x05, 0x00];
    PrefixList(hash);
    var header := [0x30, 17 + DigestLen(hash)];
    var middle := [0x30, 0x0d] + alg + [0x04, DigestLen(hash)];
    assert LiteralPrefix(hash) == header + middle;
    assert (header + middle) + digest == header + (middle + digest);
  }

  lemma PrefixList(hash: Hash)
    ensures LiteralPrefix(hash) ==
            [0x30, 17 + DigestLen(hash), 0x30, 0x0d, 0x06, 0x09, 0x60, 0x86, 0x48, 0x01, 0x65, 0x03, 0x04, 0x02,
             LastArc(hash), 0x05, 0x00, 0x04, DigestLen(hash)]
  {
    match hash
    case Sha256 =>
    case Sha384 =>
    case Sha512 =>
  }

  function LastArc(hash: Hash): byte {
    match hash
    case Sha256 => 1
    case Sha384 => 2
    case Sha512 => 3
  }

  function LiteralPrefix(hash: Hash): Bytes {
    match hash
    case Sha256 => [0x30, 0x31, 0x30, 0x0d, 0x06, 0x09, 0x60, 0x86, 0x48, 0x01, 0x65, 0x03, 0x04, 0x02, 0x01, 0x05, 0x00, 0x04, 0x20]
    case Sha384 => [0x30, 0x41, 0x30, 0x0d, 0x06, 0x09, 0x60, 0x86, 0x48, 0x01, 0x65, 0x03, 0x04, 0x02, 0x02, 0x05, 0x00, 0x04, 0x30]
    case Sha512 => [0x30, 0x51, 0x30, 0x0d, 0x06, 0x09, 0x60, 0x86, 0x48, 0x01, 0x65, 0x03, 0x04, 0x02, 0x03, 0x05, 0x00, 0x04, 0x40]
  }

  lemma ShortTlv(tag: byte, content: Bytes)
    requires |content| < 128
    ensures Tlv(tag, content) == [tag, |content|] + content
  {
  }

  lemma NullParameters()
    ensures ParametersOk([0x05, 0x00])
  {
    ElementRoundTrip(0x05, [], []);
    assert Tlv(0x05, []) + [] == [0x05, 0x00];
  }

  /** Arcs below 128 take one byte each. */
  lemma {:induction false} SmallArcs(arcs: seq<nat>, bytes: Bytes)
    requires |bytes| == |arcs| && forall i :: 0 <= i < |arcs| ==> arcs[i] == bytes[i] < 128
    ensures EncodeArcs(arcs) == bytes
  {
    if arcs != [] {
      SmallArcs(arcs[1..], bytes[1..]);
      assert bytes == [bytes[0]] + bytes[1..];
    }
  }

  lemma ArcInFront(arc: nat, head: Bytes, arcs: seq<nat>, tail: Bytes)
    requires EncodeBase128(arc) == head && EncodeArcs(arcs) == tail
    ensures EncodeArcs([arc] + arcs) == head + tail
  {
    assert ([arc] + arcs)[1..] == arcs;
  }

  lemma SomeArcs()
    ensures EncodeBase128(96) == [0x60] && EncodeBase128(42) == [0x2a] && EncodeBase128(43) == [0x2b]
    ensures EncodeBase128(840) == [0x86, 0x48] && EncodeBase128(10045) == [0xce, 0x3d] && EncodeBase128(132) == [0x81, 0x04]
  {
    assert Continued(6) == Continued(0) + [0x86];
    assert Continued(78) == Continued(0) + [0xce];
    assert Continued(1) == Continued(0) + [0x81];
  }

  lemma OidBytes(hash: Hash)
    ensures EncodeOid(HashOid(hash)) == [0x60, 0x86, 0x48, 0x01, 0x65, 0x03, 0x04, 0x02, LastArc(hash)]
  {
    hide EncodeArcs, EncodeBase128;
    var small: seq<nat>, bytes: Bytes := [1, 101, 3, 4, 2, LastArc(hash)], [1, 101, 3, 4, 2, LastArc(hash)];
    SmallArcs(small, bytes);
    SomeArcs();
    ArcInFront(840, [0x86, 0x48], small, bytes);
    ArcInFront(96, [0x60], [840] + small, [0x86, 0x48] + bytes);
    var oid := HashOid(hash);
    assert [oid[0] * 40 + oid[1]] + oid[2..] == [96] + ([840] + small);
  }

  /** The parameters that name the curves, as section 2.1.1.1 of RFC 5480 lists them. */
  lemma CurveBytes()
    ensures EcParams(P256) == [0x06, 0x08, 0x2a, 0x86, 0x48, 0xce, 0x3d, 0x03, 0x01, 0x07]
    ensures EcParams(P384) == [0x06, 0x05, 0x2b, 0x81, 0x04, 0x00, 0x22]
    ensures EcParams(P521) == [0x06, 0x05, 0x2b, 0x81, 0x04, 0x00, 0x23]
  {
    P256Bytes();
    P384Bytes(34);
    P384Bytes(35);
    assert CurveOid(P384) == [1, 3, 132, 0, 34] && CurveOid(P521) == [1, 3, 132, 0, 35];
    ShortTlv(TAG_OID, [0x2a, 0x86, 0x48, 0xce, 0x3d, 0x03, 0x01, 0x07]);
    ShortTlv(TAG_OID, [0x2b, 0x81, 0x04, 0x00, 0x22]);
    ShortTlv(TAG_OID, [0x2b, 0x81, 0x04, 0x00, 0x23]);
  }

  lemma P256Bytes()
    ensures EncodeOid(CurveOid(P256)) == [0x2a, 0x86, 0x48, 0xce, 0x3d, 0x03, 0x01, 0x07]
  {
    hide EncodeArcs, EncodeBase128;
    var small: seq<nat>, bytes: Bytes := [3, 1, 7], [3, 1, 7];
    SmallArcs(small, bytes);
    SomeArcs();
    ArcInFront(10045, [0xce, 0x3d], small, bytes);
    ArcInFront(840, [0x86, 0x48], [10045] + small, [0xce, 0x3d] + bytes);
    ArcInFront(42, [0x2a], [840] + ([10045] + small), [0x86, 0x48] + ([0xce, 0x3d] + bytes));
    var oid := CurveOid(P256);
    assert [oid[0] * 40 + oid[1]] + oid[2..] == [42] + ([840] + ([10045] + small));
  }

  lemma P384Bytes(last: byte)
    requires last < 128
    ensures EncodeOid([1, 3, 132, 0, last]) == [0x2b, 0x81, 0x04, 0x00, last]
  {
    hide EncodeArcs, EncodeBase128;
    var small: seq<nat>, bytes: Bytes := [0, last], [0, last];
    SmallArcs(small, bytes);
    SomeArcs();
    ArcInFront(132, [0x81, 0x04], small, bytes);
    ArcInFront(43, [0x2b], [132] + small, [0x81, 0x04] + bytes);
    var oid: seq<nat> := [1, 3, 132, 0, last];
    assert [oid[0] * 40 + oid[1]] + oid[2..] == [43] + ([132] + small);
  }
}
