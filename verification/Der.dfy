/**
 The part of DER that Go's encoding/asn1 accepts when it decodes the structures of this program:
 identifier and length octets, object identifiers, and the encoders that are their inverses.
 */
module Der {
  import opened Common

  const MAX_INT32: nat := 0x7FFF_FFFF
  /** Lengths from here on are refused as too large. */
  const LENGTH_LIMIT: nat := 0x8000_0000

  // ------------------------------------------------------------------ base 128 numbers

  /** Reads one base 128 number: its value and how many bytes it took.  `n` bytes gave `acc` so far. */
  function Base128(b: Bytes, acc: nat, n: nat): (r: Option<(nat, nat)>)
    ensures r.Some? ==> n < r.value.1 <= n + |b| && r.value.0 <= MAX_INT32
  {
    if b == [] || n == 5 || (n == 0 && b[0] == 0x80) then None
    else
      var v := acc * 128 + b[0] % 128;
      if b[0] >= 128 then Base128(b[1..], v, n + 1)
      else if v > MAX_INT32 then None
      else Some((v, n + 1))
  }

  /** The leading groups of seven bits, each marked as continued. */
  function Continued(v: nat): Bytes {
    if v == 0 then [] else Continued(v / 128) + [128 + v % 128]
  }

  function EncodeBase128(v: nat): (b: Bytes)
    ensures |b| > 0
  {
    Continued(v / 128) + [v % 128]
  }

  lemma {:induction false} ContinuedLength(v: nat, k: nat)
    requires v < Pow128(k)
    ensures |Continued(v)| <= k
  {
    if v > 0 && k > 0 {
      ContinuedLength(v / 128, k - 1);
    }
  }

  function Pow128(k: nat): nat {
    if k == 0 then 1 else 128 * Pow128(k - 1)
  }

  /** Reading continued groups moves them into the accumulator. */
  lemma {:induction false} Base128OfContinued(v: nat, rest: Bytes)
    requires |Continued(v)| < 5
    ensures Base128(Continued(v) + rest, 0, 0) == Base128(rest, v, |Continued(v)|) || (v == 0 && Continued(v) == [])
  {
    if v > 0 {
      var last := 128 + v % 128;
      var front := Continued(v / 128);
      assert Continued(v) + rest == front + ([last] + rest);
      Base128OfContinued(v / 128, [last] + rest);
      assert ([last] + rest)[1..] == rest;
      if v / 128 == 0 {
        assert front + ([last] + rest) == [last] + rest;
      }
    }
  }

  lemma Base128RoundTrip(v: nat, rest: Bytes)
    requires v <= MAX_INT32
    ensures Base128(EncodeBase128(v) + rest, 0, 0) == Some((v, |EncodeBase128(v)|))
  {
    assert Pow128(4) == 128 * (128 * (128 * (128 * 1)));
    ContinuedLength(v / 128, 4);
    var tail := [v % 128] + rest;
    assert EncodeBase128(v) + rest == Continued(v / 128) + tail;
    Base128OfContinued(v / 128, tail);
    assert tail[1..] == rest;
    if v / 128 == 0 {
      assert Continued(v / 128) + tail == tail;
    }
  }

  lemma ShiftedGroup(acc: nat, group: nat)
    requires group < 128
    ensures (acc * 128 + group) / 128 == acc && (acc * 128 + group) % 128 == group
  {
  }

  /** What has been read so far, followed by what is read next, is the encoding of the value. */
  lemma {:induction false} Base128Reads(b: Bytes, acc: nat, n: nat)
    requires Base128(b, acc, n).Some? && (n == 0 ==> acc == 0) && (n > 0 ==> acc > 0)
    ensures var (v, k) := Base128(b, acc, n).value;
            EncodeBase128(v) == Continued(acc) + b[..k - n]
  {
    var v := acc * 128 + b[0] % 128;
    ShiftedGroup(acc, b[0] % 128);
    if b[0] >= 128 {
      Base128Reads(b[1..], v, n + 1);
      var k := Base128(b, acc, n).value.1;
      assert b[..k - n] == [b[0]] + b[1..][..k - n - 1];
      assert Continued(v) == Continued(acc) + [b[0]];
    } else {
      assert b[..1] == [b[0]];
    }
  }

  // ------------------------------------------------------------------ object identifiers

  /** Every arc as one base 128 number. */
  function Arcs(b: Bytes): Option<seq<nat>> {
    if b == [] then Some([])
    else
      var first := Base128(b, 0, 0);
      if first.None? then None
      else
        var rest := Arcs(b[first.value.1..]);
        if rest.None? then None else Some([first.value.0] + rest.value)
  }

  function EncodeArcs(arcs: seq<nat>): Bytes {
    if arcs == [] then [] else EncodeBase128(arcs[0]) + EncodeArcs(arcs[1..])
  }

  /** The first two components share one arc. */
  function ParseOid(b: Bytes): Option<seq<nat>> {
    if b == [] || Arcs(b).None? then None
    else
      var arcs := Arcs(b).value;
      if arcs == [] then None else Some(Components(arcs))
  }

  function EncodeOid(oid: seq<nat>): Bytes
    requires |oid| >= 2
  {
    EncodeArcs([oid[0] * 40 + oid[1]] + oid[2..])
  }

  predicate ValidOid(oid: seq<nat>) {
    && |oid| >= 2
    && oid[0] <= 2 && (oid[0] < 2 ==> oid[1] < 40)
    && oid[0] * 40 + oid[1] <= MAX_INT32
    && forall i :: 2 <= i < |oid| ==> oid[i] <= MAX_INT32
  }

  lemma {:induction false} ArcsRoundTrip(arcs: seq<nat>)
    requires forall i :: 0 <= i < |arcs| ==> arcs[i] <= MAX_INT32
    ensures Arcs(EncodeArcs(arcs)) == Some(arcs)
  {
    if arcs != [] {
      var first, rest := EncodeBase128(arcs[0]), EncodeArcs(arcs[1..]);
      Base128RoundTrip(arcs[0], rest);
      assert (first + rest)[|first|..] == rest;
      ArcsRoundTrip(arcs[1..]);
      assert EncodeArcs(arcs) == first + rest;
      assert [arcs[0]] + arcs[1..] == arcs;
    }
  }

  lemma {:induction false} ArcsAreEncoded(b: Bytes)
    requires Arcs(b).Some?
    ensures b == EncodeArcs(Arcs(b).value)
  {
    hide Base128, EncodeBase128;
    if b != [] {
      var (v, k) := Base128(b, 0, 0).value;
      Base128Reads(b, 0, 0);
      assert Continued(0) + b[..k] == b[..k];
      ArcsAreEncoded(b[k..]);
      assert b == b[..k] + b[k..];
    }
  }

  /** The components that the arcs stand for. */
  function Components(arcs: seq<nat>): seq<nat>
    requires arcs != []
  {
    (if arcs[0] < 80 then [arcs[0] / 40, arcs[0] % 40] else [2, arcs[0] - 80]) + arcs[1..]
  }

  lemma ComponentsCodec(oid: seq<nat>, arcs: seq<nat>)
    requires ValidOid(oid) && arcs != []
    ensures Components(arcs) == oid <==> arcs == [oid[0] * 40 + oid[1]] + oid[2..]
  {
    var own := [oid[0] * 40 + oid[1]] + oid[2..];
    assert Components(own) == oid;
    if Components(arcs) == oid {
      assert oid[0] == Components(arcs)[0] && oid[1] == Components(arcs)[1];
      assert oid[2..] == arcs[1..];
      assert arcs == [arcs[0]] + arcs[1..];
    }
  }

  /** An object identifier has exactly one accepted encoding. */
  lemma OidCodec(oid: seq<nat>, b: Bytes)
    requires ValidOid(oid)
    ensures ParseOid(b) == Some(oid) <==> b == EncodeOid(oid)
  {
    hide Arcs, Components, EncodeBase128;
    var arcs := [oid[0] * 40 + oid[1]] + oid[2..];
    ArcsRoundTrip(arcs);
    ComponentsCodec(oid, arcs);
    EncodedArcsNonEmpty(arcs);
    if ParseOid(b) == Some(oid) {
      ArcsAreEncoded(b);
      ComponentsCodec(oid, Arcs(b).value);
    }
  }

  lemma EncodedArcsNonEmpty(arcs: seq<nat>)
    requires arcs != []
    ensures EncodeArcs(arcs) != []
  {
  }

  // ------------------------------------------------------------------ lengths

  /** The loop over the `n` bytes of a long-form length. */
  function LengthBytes(b: Bytes, n: nat, acc: nat): Option<nat> {
    if n == 0 then Some(acc)
    else if b == [] || acc >= 0x80_0000 || acc * 256 + b[0] == 0 then None
    else LengthBytes(b[1..], n - 1, acc * 256 + b[0])
  }

  /** A length and the number of bytes it took: short form below 128, minimal long form from there. */
  function ParseLength(b: Bytes): Option<(nat, nat)> {
    if b == [] then None
    else if b[0] < 128 then Some((b[0], 1))
    else
      var n := b[0] - 128;
      if n == 0 then None
      else
        var length := LengthBytes(b[1..], n, 0);
        if length.None? || length.value < 128 then None else Some((length.value, 1 + n))
  }

  function BigEndian(n: nat): Bytes {
    if n == 0 then [] else BigEndian(n / 256) + [n % 256]
  }

  function EncodeLength(n: nat): Bytes
    requires n < LENGTH_LIMIT
  {
    if n < 128 then [n]
    else
      BigEndianLength(n, 4);
      [128 + |BigEndian(n)|] + BigEndian(n)
  }

  lemma BigEndianLength(n: nat, k: nat)
    requires n < Pow256(k)
    ensures |BigEndian(n)| <= k
  {
    if n > 0 && k > 0 {
      BigEndianLength(n / 256, k - 1);
    }
  }

  function Pow256(k: nat): nat {
    if k == 0 then 1 else 256 * Pow256(k - 1)
  }

  lemma {:induction false} LengthBytesOfBigEndian(n: nat, rest: Bytes, k: nat)
    requires n < LENGTH_LIMIT
    ensures LengthBytes(BigEndian(n) + rest, |BigEndian(n)| + k, 0) == LengthBytes(rest, k, n)
  {
    if n == 0 {
      assert BigEndian(n) + rest == rest;
    } else {
      var tail := [n % 256] + rest;
      assert BigEndian(n) + rest == BigEndian(n / 256) + tail;
      LengthBytesOfBigEndian(n / 256, tail, k + 1);
      assert tail[1..] == rest;
    }
  }

  lemma {:induction false} LengthBytesReads(b: Bytes, n: nat, acc: nat)
    requires LengthBytes(b, n, acc).Some?
    ensures n <= |b| && BigEndian(LengthBytes(b, n, acc).value) == BigEndian(acc) + b[..n]
    ensures acc < LENGTH_LIMIT ==> LengthBytes(b, n, acc).value < LENGTH_LIMIT
  {
    if n > 0 {
      var next := acc * 256 + b[0];
      LengthBytesReads(b[1..], n - 1, next);
      assert next / 256 == acc && next % 256 == b[0];
      assert b[..n] == [b[0]] + b[1..][..n - 1];
    }
  }

  lemma LengthRoundTrip(n: nat, rest: Bytes)
    requires n < LENGTH_LIMIT
    ensures ParseLength(EncodeLength(n) + rest) == Some((n, |EncodeLength(n)|))
  {
    if n >= 128 {
      BigEndianLength(n, 4);
      var b := EncodeLength(n) + rest;
      assert b[1..] == BigEndian(n) + rest;
      LengthBytesOfBigEndian(n, rest, 0);
    }
  }

  lemma LengthReads(b: Bytes)
    requires ParseLength(b).Some?
    ensures var (n, k) := ParseLength(b).value;
            n < LENGTH_LIMIT && k <= |b| && b[..k] == EncodeLength(n)
  {
    hide LengthBytes, BigEndian;
    if b[0] < 128 {
      assert b[..1] == [b[0]];
    } else {
      var n := b[0] - 128;
      LongLengthReads(b, n);
    }
  }

  lemma LongLengthReads(b: Bytes, n: nat)
    requires b != [] && LengthBytes(b[1..], n, 0).Some?
    ensures n < |b| && BigEndian(LengthBytes(b[1..], n, 0).value) == b[1..][..n]
    ensures LengthBytes(b[1..], n, 0).value < LENGTH_LIMIT && b[..1 + n] == [b[0]] + b[1..][..n]
  {
    LengthBytesReads(b[1..], n, 0);
  }

  // ------------------------------------------------------------------ elements

  /** One element: the number of identifier bytes, the content, and what follows. */
  datatype Element = Element(first: byte, content: Bytes, rest: Bytes)

  /** How many identifier bytes there are; a high tag number must be minimal. */
  function IdentifierLength(b: Bytes): (n: Option<nat>)
    requires b != []
    ensures n.Some? ==> 0 < n.value <= |b|
  {
    if b[0] % 32 != 31 then Some(1)
    else
      var tag := Base128(b[1..], 0, 0);
      if tag.None? || tag.value.0 < 31 then None else Some(1 + tag.value.1)
  }

  function ParseElement(b: Bytes): (r: Option<Element>)
    ensures r.Some? ==> |r.value.rest| < |b| && b[|b| - |r.value.rest|..] == r.value.rest && r.value.first == b[0]
  {
    if b == [] || IdentifierLength(b).None? then None
    else
      var k := IdentifierLength(b).value;
      var length := ParseLength(b[k..]);
      if length.None? then None
      else
        var (n, m) := length.value;
        if k + m + n > |b| then None
        else Some(Element(b[0], b[k + m..k + m + n], b[k + m + n..]))
  }

  /** The bytes of the element itself (FullBytes of a RawValue). */
  function FullBytes(b: Bytes): Bytes
    requires ParseElement(b).Some?
  {
    b[..|b| - |ParseElement(b).value.rest|]
  }

  function Tlv(tag: byte, content: Bytes): Bytes
    requires |content| < LENGTH_LIMIT
  {
    [tag] + EncodeLength(|content|) + content
  }

  lemma ElementRoundTrip(tag: byte, content: Bytes, rest: Bytes)
    requires tag % 32 != 31 && |content| < LENGTH_LIMIT
    ensures ParseElement(Tlv(tag, content) + rest) == Some(Element(tag, content, rest))
    ensures FullBytes(Tlv(tag, content) + rest) == Tlv(tag, content)
  {
    var b := Tlv(tag, content) + rest;
    var header := EncodeLength(|content|);
    assert b[1..] == header + (content + rest);
    LengthRoundTrip(|content|, content + rest);
    var k := 1 + |header|;
    assert b[k..k + |content|] == content;
    assert b[k + |content|..] == rest;
  }

  lemma ElementReads(b: Bytes)
    requires ParseElement(b).Some? && b[0] % 32 != 31
    ensures var e := ParseElement(b).value;
            |e.content| < LENGTH_LIMIT && e.first == b[0] && b == Tlv(b[0], e.content) + e.rest
            && FullBytes(b) == Tlv(b[0], e.content)
  {
    LengthReads(b[1..]);
    var e := ParseElement(b).value;
    var m := ParseLength(b[1..]).value.1;
    assert b == [b[0]] + b[1..][..m] + e.content + e.rest;
    var tlv := Tlv(b[0], e.content);
    assert tlv + e.rest == b;
    assert b[..|tlv|] == tlv;
  }
}
