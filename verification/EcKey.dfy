/** The EC attributes of a public key (backend.go, lines 876-945; section 2.3.3 of SEC 1). */
module EcKey {
  import opened Common
  import opened Der
  import opened Mechanism

  datatype Curve = P256 | P384 | P521 | OtherCurve

  function CurveOid(c: Curve): seq<nat>
    requires c != OtherCurve
  {
    match c
    case P256 => [1, 2, 840, 10045, 3, 1, 7]
    case P384 => [1, 3, 132, 0, 34]
    case P521 => [1, 3, 132, 0, 35]
  }

  function BitSize(c: Curve): nat
    requires c != OtherCurve
  {
    match c
    case P256 => 256
    case P384 => 384
    case P521 => 521
  }

  function ByteLen(c: Curve): nat
    requires c != OtherCurve
  {
    (BitSize(c) + 7) / 8
  }

  /** big.Int.FillBytes on a buffer of `w` bytes: big-endian, padded with zeros on the left. */
  function FillBytes(x: nat, w: nat): (b: Bytes)
    ensures |b| == w
  {
    if w == 0 then [] else FillBytes(x / 256, w - 1) + [x % 256]
  }

  /** The DER-encoded curve identifier. */
  function EcParams(c: Curve): Bytes
    requires c != OtherCurve
  {
    CurveOidIsShort(c);
    Tlv(TAG_OID, EncodeOid(CurveOid(c)))
  }

  /** The DER OCTET STRING around the uncompressed point 0x04 || X || Y. */
  function EcPoint(c: Curve, x: nat, y: nat): Bytes
    requires c != OtherCurve
  {
    Tlv(TAG_OCTET_STRING, [0x04] + FillBytes(x, ByteLen(c)) + FillBytes(y, ByteLen(c)))
  }

  lemma CurveOidIsShort(c: Curve)
    requires c != OtherCurve
    ensures ValidOid(CurveOid(c)) && |EncodeOid(CurveOid(c))| < LENGTH_LIMIT
  {
    var oid := CurveOid(c);
    ArcsLength([oid[0] * 40 + oid[1]] + oid[2..]);
  }

  // ------------------------------------------------------------------ reading them back

  function Value(b: Bytes): nat {
    if b == [] then 0 else Value(b[..|b| - 1]) * 256 + b[|b| - 1]
  }

  /** What a PKCS#11 application does: unwrap the OCTET STRING, drop 0x04, split in two halves. */
  function ReadPoint(c: Curve, der: Bytes): Option<(nat, nat)>
    requires c != OtherCurve
  {
    var w := ByteLen(c);
    var e := ParseElement(der);
    if e.None? || e.value.first != TAG_OCTET_STRING || e.value.rest != [] then None
    else
      var p := e.value.content;
      if |p| != 1 + 2 * w || p[0] != 0x04 then None else Some((Value(p[1..1 + w]), Value(p[1 + w..])))
  }

  lemma {:induction false} ValueOfFill(x: nat, w: nat)
    requires x < Pow256(w)
    ensures Value(FillBytes(x, w)) == x
  {
    if w > 0 {
      ValueOfFill(x / 256, w - 1);
      assert FillBytes(x, w)[..w - 1] == FillBytes(x / 256, w - 1);
    }
  }

  lemma {:induction false} FillOfValue(b: Bytes)
    ensures FillBytes(Value(b), |b|) == b
  {
    if b != [] {
      FillOfValue(b[..|b| - 1]);
      assert Value(b) / 256 == Value(b[..|b| - 1]) && Value(b) % 256 == b[|b| - 1];
    }
  }

  /** Every pair of coordinates that fits the field survives, leading zeros included. */
  lemma PointRoundTrip(c: Curve, x: nat, y: nat)
    requires c != OtherCurve && x < Pow256(ByteLen(c)) && y < Pow256(ByteLen(c))
    ensures ReadPoint(c, EcPoint(c, x, y)) == Some((x, y))
  {
    hide ParseElement, FillBytes, Value, EncodeLength, Pow256;
    var w := ByteLen(c);
    var p := [0x04] + FillBytes(x, w) + FillBytes(y, w);
    ElementRoundTrip(TAG_OCTET_STRING, p, []);
    assert EcPoint(c, x, y) + [] == EcPoint(c, x, y);
    assert p[1..1 + w] == FillBytes(x, w);
    assert p[1 + w..] == FillBytes(y, w);
    ValueOfFill(x, w);
    ValueOfFill(y, w);
  }

  lemma OctetStringReads(der: Bytes)
    requires ParseElement(der).Some? && ParseElement(der).value.first == TAG_OCTET_STRING
    requires ParseElement(der).value.rest == []
    ensures var p := ParseElement(der).value.content; |p| < LENGTH_LIMIT && der == Tlv(TAG_OCTET_STRING, p)
  {
    ElementReads(der);
  }

  lemma HalvesAreFilled(p: Bytes, w: nat)
    requires |p| == 1 + 2 * w
    ensures p == [p[0]] + FillBytes(Value(p[1..1 + w]), w) + FillBytes(Value(p[1 + w..]), w)
  {
    FillOfValue(p[1..1 + w]);
    FillOfValue(p[1 + w..]);
  }

  /** And the point is determined by what is read: there is no second encoding of it. */
  lemma PointIsUnique(c: Curve, der: Bytes)
    requires c != OtherCurve && ReadPoint(c, der).Some?
    ensures var (x, y) := ReadPoint(c, der).value; der == EcPoint(c, x, y)
  {
    OctetStringReads(der);
    HalvesAreFilled(ParseElement(der).value.content, ByteLen(c));
  }

  /** The header is two bytes, except for P-521, whose 133 bytes need the long form. */
  lemma PointHeader(c: Curve, x: nat, y: nat)
    requires c != OtherCurve
    ensures var header := match c case P256 => [0x04, 65] case P384 => [0x04, 97] case P521 => [0x04, 0x81, 133];
            header <= EcPoint(c, x, y) && |EcPoint(c, x, y)| == |header| + 1 + 2 * ByteLen(c)
  {
    assert BigEndian(133) == BigEndian(0) + [133];
  }

  /** The parameters name the curve and nothing else. */
  lemma ParamsRoundTrip(c: Curve)
    requires c != OtherCurve
    ensures var e := ParseElement(EcParams(c));
            e.Some? && e.value.first == TAG_OID && e.value.rest == [] && ParseOid(e.value.content) == Some(CurveOid(c))
  {
    CurveOidIsShort(c);
    ElementRoundTrip(TAG_OID, EncodeOid(CurveOid(c)), []);
    assert EcParams(c) + [] == EcParams(c);
    OidCodec(CurveOid(c), EncodeOid(CurveOid(c)));
  }
}
