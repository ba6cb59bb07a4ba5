/** The key attributes an application reads are those of a certificate the server holds for the signer. */
module KeyAttributes {
  import opened Common
  import opened Errors
  import opened Der
  import opened Mechanism
  import opened EcKey
  import opened Slots
  import opened Remote
  import opened Cache
  import opened Signers
  import opened Attributes
  import opened Machine
  import opened Journal
  import opened Staleness
  import opened Stability

  // ------------------------------------------------------------------ certified keys

  /** The k-th call brought a certificate for the signer with this key, at most `bound` ago. */
  ghost predicate CertifiedKey(e: Env, net: Net, id: Bytes, key: PublicKey, bound: int, k: int) {
    && 0 <= k < |net.calls| && IsCert(net.calls[k], id) && net.now - net.calls[k].at <= bound
    && var cert := e.parseCertificate(net.calls[k].reply.certificate.value); cert.Some? && cert.value.key == key
  }

  ghost predicate Certified(e: Env, net: Net, id: Bytes, key: PublicKey, bound: int) {
    exists k :: CertifiedKey(e, net, id, key, bound, k)
  }

  /** Two TTLs. */
  function Bound(b: Back): int {
    2 * Lifetime(b.config.certTTLSeconds, 3600)
  }

  lemma CertifiedKept(e: Env, net: Net, net': Net, id: Bytes, key: PublicKey, bound: int)
    requires Certified(e, net, id, key, bound) && Advances(net, net')
    ensures Certified(e, net', id, key, bound)
  {
    var k :| CertifiedKey(e, net, id, key, bound, k);
    assert CertifiedKey(e, net', id, key, bound, k);
  }

  // ------------------------------------------------------------------ what an attribute shows of a key

  /** No key attribute, or one answered as if there were no key. */
  predicate Blank(a: Attribute) {
    && (a.typ in {CKA_EC_PARAMS, CKA_EC_POINT, CKA_MODULUS, CKA_PUBLIC_EXPONENT} ==> a.value == [])
    && (a.typ == CKA_MODULUS_BITS ==> a.value == UlongBytes(0))
  }

  /** The attribute's value is that of this key. */
  predicate Shows(a: Attribute, key: PublicKey) {
    match key
    case Ec(c, x, y) =>
      && c != OtherCurve
      && ((a.typ == CKA_EC_PARAMS && a.value == EcParams(c)) || (a.typ == CKA_EC_POINT && a.value == EcPoint(c, x, y)))
    case Rsa(n, x) =>
      || (a.typ == CKA_MODULUS && a.value == n)
      || (a.typ == CKA_PUBLIC_EXPONENT && a.value == x)
      || (a.typ == CKA_MODULUS_BITS && a.value == UlongBytes(|n| * 8))
    case OtherKey => false
  }

  /** The same with the key as it is cached. */
  predicate ShowsEntry(a: Attribute, pk: PubKeyEntry) {
    match pk
    case EcEntry(params, point) => (a.typ == CKA_EC_PARAMS && a.value == params) || (a.typ == CKA_EC_POINT && a.value == point)
    case RsaEntry(n, x) =>
      || (a.typ == CKA_MODULUS && a.value == n)
      || (a.typ == CKA_PUBLIC_EXPONENT && a.value == x)
      || (a.typ == CKA_MODULUS_BITS && a.value == UlongBytes(|n| * 8))
  }

  /** Every key attribute that is answered at all shows one key that the server certified. */
  ghost predicate OneKey(e: Env, net: Net, id: Bytes, bound: int, values: seq<Attribute>) {
    || (forall i :: 0 <= i < |values| ==> Blank(values[i]))
    || exists key :: Certified(e, net, id, key, bound) &&
                     forall i :: 0 <= i < |values| ==> Blank(values[i]) || Shows(values[i], key)
  }

  lemma EntryIsCertified(e: Env, b: Back, id: Bytes, pk: PubKeyEntry, bound: int) returns (key: PublicKey)
    requires KeyFrom(e, b, id, pk, bound)
    ensures Certified(e, b.net, id, key, bound)
    ensures forall a: Attribute :: ShowsEntry(a, pk) ==> Shows(a, key)
  {
    hide EcParams, EcPoint, UlongBytes;
    var k :| KeySource(e, b.net.calls, id, pk, k) && b.net.now - b.net.calls[k].at <= bound;
    key := e.parseCertificate(b.net.calls[k].reply.certificate.value).value.key;
    assert CertifiedKey(e, b.net, id, key, bound, k);
  }

  // ------------------------------------------------------------------ one attribute, whatever the TTL

  /** What is answered is blank, or shows the key served by the lookup. */
  lemma AnswerShows(e: Env, b: Back, objType: nat, signer: Signer, typ: nat)
    ensures var (b', value) := AttributeValue(e, b, objType, signer, typ);
            var a := Attribute(typ, value);
            || Blank(a)
            || (NeedsEcKey(objType, signer, typ) && (var (b1, key) := GetECPublicKeyData(e, b, signer.id);
                b' == b1 && key.Ok? && ShowsEntry(a, EcEntry(key.value.0, key.value.1))))
            || (NeedsRsaKey(objType, signer, typ) && (var (b1, key) := GetPublicKeyData(e, b, signer.id);
                b' == b1 && key.Ok? && key.value != ([], []) && ShowsEntry(a, RsaEntry(key.value.0, key.value.1))))
  {
    hide GetPublicKeyData, GetECPublicKeyData, KeyType, UlongBytes, AttributeValue, CertificateAttribute;
    AttributeCases(e, b, objType, signer, typ);
    if NeedsEcKey(objType, signer, typ) {
      assert EcAttribute(e, b, signer, typ).0 == GetECPublicKeyData(e, b, signer.id).0;
    } else if NeedsRsaKey(objType, signer, typ) {
      assert RsaAttribute(e, b, signer, typ).0 == GetPublicKeyData(e, b, signer.id).0;
    } else if !NeedsCertificate(objType, typ) {
      FreeIsBlank(e, b, objType, signer, typ);
    }
  }

  lemma FreeIsBlank(e: Env, b: Back, objType: nat, signer: Signer, typ: nat)
    requires !NeedsCertificate(objType, typ) && !NeedsRsaKey(objType, signer, typ) && !NeedsEcKey(objType, signer, typ)
    ensures Blank(Attribute(typ, AttributeValue(e, b, objType, signer, typ).1))
  {
    hide KeyType, UlongBytes;
  }

  lemma AnswerIsCertified(e: Env, b: Back, objType: nat, signer: Signer, typ: nat)
    requires BackOk(e, b)
    ensures var (b', value) := AttributeValue(e, b, objType, signer, typ);
            OneKey(e, b'.net, signer.id, 2 * Max0(b.certs.ttl), [Attribute(typ, value)])
  {
    hide GetPublicKeyData, GetECPublicKeyData, BackOk, KeyFrom, AttributeValue, Certified, ShowsEntry, Shows, Blank;
    AnswerShows(e, b, objType, signer, typ);
    ECKeyServed(e, b, signer.id);
    RSAKeyServed(e, b, signer.id);
    var (b', value) := AttributeValue(e, b, objType, signer, typ);
    if !Blank(Attribute(typ, value)) {
      var pk := if NeedsEcKey(objType, signer, typ) then
                  var key := GetECPublicKeyData(e, b, signer.id).1.value; EcEntry(key.0, key.1)
                else
                  var key := GetPublicKeyData(e, b, signer.id).1.value; RsaEntry(key.0, key.1);
      var key := EntryIsCertified(e, b', signer.id, pk, 2 * Max0(b.certs.ttl));
    }
  }

  lemma OneKeyKept(e: Env, net: Net, net': Net, id: Bytes, bound: int, values: seq<Attribute>)
    requires OneKey(e, net, id, bound, values) && Advances(net, net')
    ensures OneKey(e, net', id, bound, values)
  {
    hide Certified, Blank, Shows, Advances;
    if exists i :: 0 <= i < |values| && !Blank(values[i]) {
      var key :| Certified(e, net, id, key, bound) && forall i :: 0 <= i < |values| ==> Blank(values[i]) || Shows(values[i], key);
      CertifiedKept(e, net, net', id, key, bound);
    }
  }

  lemma {:induction false} EachIsCertified(e: Env, b: Back, objType: nat, signer: Signer, types: seq<nat>)
    requires BackOk(e, b)
    ensures var (b', values) := AttributeValues(e, b, objType, signer, types);
            forall i :: 0 <= i < |values| ==> OneKey(e, b'.net, signer.id, 2 * Max0(b.certs.ttl), [values[i]])
  {
    hide BackOk, AttributeValue, OneKey;
    if types != [] {
      var n := |types| - 1;
      EachIsCertified(e, b, objType, signer, types[..n]);
      AttributesProgress(e, b, objType, signer, types[..n]);
      var (b1, before) := AttributeValues(e, b, objType, signer, types[..n]);
      AnswerIsCertified(e, b1, objType, signer, types[n]);
      AttributeProgress(e, b1, objType, signer, types[n]);
      var b2 := AttributeValue(e, b1, objType, signer, types[n]).0;
      forall i | 0 <= i < n
        ensures OneKey(e, b2.net, signer.id, 2 * Max0(b.certs.ttl), [before[i]])
      {
        OneKeyKept(e, b1.net, b2.net, signer.id, 2 * Max0(b.certs.ttl), [before[i]]);
      }
    }
  }

  // ------------------------------------------------------------------ one call, with a non-negative TTL

  /** The attribute is blank or shows the key that is held for it. */
  predicate ShowsHeld(b: Back, objType: nat, signer: Signer, a: Attribute) {
    || Blank(a)
    || (Held(b, objType, signer, a.typ) && (NeedsEcKey(objType, signer, a.typ) || NeedsRsaKey(objType, signer, a.typ)) &&
        ShowsEntry(a, Lookup(b.certs.pubKeys, signer.id, b.net.now).value))
  }

  lemma AnswerShowsHeld(e: Env, b: Back, objType: nat, signer: Signer, typ: nat)
    requires b.certs.ttl >= 0
    ensures var (b', value) := AttributeValue(e, b, objType, signer, typ);
            ShowsHeld(b', objType, signer, Attribute(typ, value))
  {
    hide GetPublicKeyData, GetECPublicKeyData, AttributeValue, ShowsEntry, Blank, KeyType;
    AnswerShows(e, b, objType, signer, typ);
    EcLookup(e, b, signer.id);
    RsaLookup(e, b, signer.id);
    RsaHitValue(e, GetPublicKeyData(e, b, signer.id).0, signer.id);
  }

  lemma RsaHitValue(e: Env, b: Back, id: Bytes)
    ensures var hit := Lookup(b.certs.pubKeys, id, b.net.now);
            var key := GetPublicKeyData(e, b, id).1;
            hit.Some? && key.Ok? && key.value != ([], []) ==> hit.value == RsaEntry(key.value.0, key.value.1)
  {
  }

  lemma ShowsHeldKept(e: Env, b: Back, objType: nat, signer: Signer, typ: nat, a: Attribute)
    requires ShowsHeld(b, objType, signer, a)
    ensures ShowsHeld(AttributeValue(e, b, objType, signer, typ).0, objType, signer, a)
  {
    hide AttributeValue, ShowsEntry, Blank, KeyType;
    AttributeKeeps(e, b, objType, signer, typ, a.typ);
  }

  lemma {:induction false} AllShowHeld(e: Env, b: Back, objType: nat, signer: Signer, types: seq<nat>)
    requires BackOk(e, b) && b.certs.ttl >= 0
    ensures var (b', values) := AttributeValues(e, b, objType, signer, types);
            forall i :: 0 <= i < |values| ==> ShowsHeld(b', objType, signer, values[i])
  {
    hide BackOk, AttributeValue, ShowsHeld;
    if types != [] {
      var n := |types| - 1;
      AllShowHeld(e, b, objType, signer, types[..n]);
      AttributesProgress(e, b, objType, signer, types[..n]);
      var (b1, before) := AttributeValues(e, b, objType, signer, types[..n]);
      AnswerShowsHeld(e, b1, objType, signer, types[n]);
      forall i | 0 <= i < n
        ensures ShowsHeld(AttributeValue(e, b1, objType, signer, types[n]).0, objType, signer, before[i])
      {
        ShowsHeldKept(e, b1, objType, signer, types[n], before[i]);
      }
    }
  }

  lemma HeldIsOneKey(e: Env, b: Back, objType: nat, signer: Signer, values: seq<Attribute>)
    requires BackOk(e, b) && forall i :: 0 <= i < |values| ==> ShowsHeld(b, objType, signer, values[i])
    ensures OneKey(e, b.net, signer.id, 2 * Max0(b.certs.ttl), values)
  {
    hide BackOk, Certified, Blank, Shows, ShowsEntry, KeyFrom, KeyType;
    if i :| 0 <= i < |values| && !Blank(values[i]) {
      KeyHit(e, b, signer.id);
      var key := EntryIsCertified(e, b, signer.id, Lookup(b.certs.pubKeys, signer.id, b.net.now).value, 2 * Max0(b.certs.ttl));
    }
  }

  // ------------------------------------------------------------------ the results

  /** What one C_GetAttributeValue reads is of one key. */
  ghost predicate ReadsOneKey(e: Env, st: State, h: nat, obj: nat, types: seq<nat>) {
    var (b', r) := GetAttributeValue(e, st.back, st.table, h, obj, types);
    var signer := GetSignerBySlot(e, st.back, ParseObjectHandle(obj).1).1;
    r.Ok? ==> signer.Ok? && OneKey(e, b'.net, signer.value.id, Bound(st.back), r.value)
  }

  /** Every value for itself is of some key. */
  ghost predicate ReadsKeys(e: Env, st: State, h: nat, obj: nat, types: seq<nat>) {
    var (b', r) := GetAttributeValue(e, st.back, st.table, h, obj, types);
    var signer := GetSignerBySlot(e, st.back, ParseObjectHandle(obj).1).1;
    r.Ok? ==> signer.Ok? &&
              forall i :: 0 <= i < |r.value| ==> OneKey(e, b'.net, signer.value.id, Bound(st.back), [r.value[i]])
  }

  /** A read in a reachable state: its signer is found first, in a backend that is still sound. */
  lemma ReadFrom(e: Env, st: State, events: seq<Event>, h: nat, obj: nat, types: seq<nat>) returns (b1: Back, signer: Result<Signer>)
    requires IsInitial(st) && Run(e, st, events).initialized
    ensures var st1 := Run(e, st, events);
            && GetSignerBySlot(e, st1.back, ParseObjectHandle(obj).1) == (b1, signer)
            && BackOk(e, b1) && b1.certs.ttl == TTL(st1.back.config.certTTLSeconds, 3600)
            && (var (b', r) := GetAttributeValue(e, st1.back, st1.table, h, obj, types);
                r.Ok? ==> signer.Ok? &&
                          (b', r.value) == AttributeValues(e, b1, ParseObjectHandle(obj).0, signer.value, types))
  {
    hide Run, BackOk, TTL, GetSigners, AttributeValues, ParseObjectHandle;
    var st1 := Run(e, st, events);
    RunSound(e, st, events);
    GetSignersJournal(e, st1.back);
    b1, signer := GetSignerBySlot(e, st1.back, ParseObjectHandle(obj).1).0, GetSignerBySlot(e, st1.back, ParseObjectHandle(obj).1).1;
  }

  /**
   With a non-negative certificate TTL, in every reachable state: the EC parameters and point, or the modulus, exponent
   and bit length, that one C_GetAttributeValue returns are of one key, in one certificate that the server gave for the
   signer at most two TTLs ago.
   */
  lemma KeyIsCertified(e: Env, st: State, events: seq<Event>, h: nat, obj: nat, types: seq<nat>)
    requires IsInitial(st) && Run(e, st, events).initialized && Run(e, st, events).back.config.certTTLSeconds >= 0
    ensures ReadsOneKey(e, Run(e, st, events), h, obj, types)
  {
    hide Run, BackOk, GetAttributeValue, GetSignerBySlot, AttributeValues, OneKey, ParseObjectHandle, ShowsHeld;
    var b1, signer := ReadFrom(e, st, events, h, obj, types);
    if signer.Ok? {
      var objType := ParseObjectHandle(obj).0;
      AllShowHeld(e, b1, objType, signer.value, types);
      AttributesProgress(e, b1, objType, signer.value, types);
      HeldIsOneKey(e, AttributeValues(e, b1, objType, signer.value, types).0, objType, signer.value,
                   AttributeValues(e, b1, objType, signer.value, types).1);
    }
  }

  /** The attribute needs a key of the signer's kind, and one is there. */
  predicate KeyAsked(b: Back, objType: nat, signer: Signer, typ: nat) {
    NeedsEcKey(objType, signer, typ) || (NeedsRsaKey(objType, signer, typ) && !EcEntryCached(b, signer.id))
  }

  /** If every lookup of a read succeeded, what is asked of a key is not blank but shows the entry now held. */
  lemma ServedShowsEntry(e: Env, b: Back, objType: nat, signer: Signer, types: seq<nat>, i: nat)
    requires b.certs.ttl >= 0 && AllServed(e, b, objType, signer, types) && i < |types|
    ensures var (b', values) := AttributeValues(e, b, objType, signer, types);
            KeyAsked(b', objType, signer, types[i]) ==>
              var hit := Lookup(b'.certs.pubKeys, signer.id, b'.net.now); hit.Some? && ShowsEntry(values[i], hit.value)
  {
    hide AttributeValue, AllServed, KeyType, UlongBytes;
    ServedRepeats(e, b, objType, signer, types);
    var (b', values) := AttributeValues(e, b, objType, signer, types);
    assert Held(b', objType, signer, types[i]);
    assert AttributeValue(e, b', objType, signer, values[i].typ) == (b', values[i].value);
    AttributeCases(e, b', objType, signer, types[i]);
  }

  /** All that is asked of a key shows one certified key. */
  ghost predicate TheKeyShown(e: Env, b: Back, objType: nat, signer: Signer, values: seq<Attribute>, bound: int) {
    || (forall i :: 0 <= i < |values| ==> !KeyAsked(b, objType, signer, values[i].typ))
    || exists key :: Certified(e, b.net, signer.id, key, bound) &&
                     forall i :: 0 <= i < |values| && KeyAsked(b, objType, signer, values[i].typ) ==> Shows(values[i], key)
  }

  lemma ServedShowsKey(e: Env, b: Back, objType: nat, signer: Signer, types: seq<nat>)
    requires BackOk(e, b) && b.certs.ttl >= 0 && AllServed(e, b, objType, signer, types)
    ensures var (b', values) := AttributeValues(e, b, objType, signer, types);
            TheKeyShown(e, b', objType, signer, values, 2 * Max0(b.certs.ttl))
  {
    hide BackOk, AttributeValues, AllServed, KeyAsked, ShowsEntry, Shows, Certified, KeyFrom;
    var (b', values) := AttributeValues(e, b, objType, signer, types);
    AttributesProgress(e, b, objType, signer, types);
    if j :| 0 <= j < |values| && KeyAsked(b', objType, signer, values[j].typ) {
      ServedShowsEntry(e, b, objType, signer, types, j);
      KeyHit(e, b', signer.id);
      var key := EntryIsCertified(e, b', signer.id, Lookup(b'.certs.pubKeys, signer.id, b'.net.now).value, 2 * Max0(b'.certs.ttl));
      forall i | 0 <= i < |values| && KeyAsked(b', objType, signer, values[i].typ)
        ensures Shows(values[i], key)
      {
        ServedShowsEntry(e, b, objType, signer, types, i);
      }
    }
  }

  /** What one C_GetAttributeValue is asked of a key is answered, with one key. */
  ghost predicate ReadsTheKey(e: Env, st: State, h: nat, obj: nat, types: seq<nat>) {
    var (b', r) := GetAttributeValue(e, st.back, st.table, h, obj, types);
    var signer := GetSignerBySlot(e, st.back, ParseObjectHandle(obj).1).1;
    r.Ok? ==> signer.Ok? && TheKeyShown(e, b', ParseObjectHandle(obj).0, signer.value, r.value, Bound(st.back))
  }

  /** If moreover every lookup succeeded, all of them show that key; none is left blank. */
  lemma KeyIsRead(e: Env, st: State, events: seq<Event>, h: nat, obj: nat, types: seq<nat>)
    requires IsInitial(st) && Run(e, st, events).initialized && Run(e, st, events).back.config.certTTLSeconds >= 0
    requires ReadServed(e, Run(e, st, events).back, obj, types)
    ensures ReadsTheKey(e, Run(e, st, events), h, obj, types)
  {
    hide Run, BackOk, GetAttributeValue, AttributeValues, AllServed, ParseObjectHandle, TheKeyShown, GetSigners;
    var b1, signer := ReadFrom(e, st, events, h, obj, types);
    if signer.Ok? {
      ServedShowsKey(e, b1, ParseObjectHandle(obj).0, signer.value, types);
    }
  }

  /** With any TTL that holds of every single value. */
  lemma ValueIsCertified(e: Env, st: State, events: seq<Event>, h: nat, obj: nat, types: seq<nat>)
    requires IsInitial(st) && Run(e, st, events).initialized
    ensures ReadsKeys(e, Run(e, st, events), h, obj, types)
  {
    hide Run, BackOk, GetAttributeValue, GetSignerBySlot, AttributeValues, OneKey, ParseObjectHandle;
    var b1, signer := ReadFrom(e, st, events, h, obj, types);
    if signer.Ok? {
      EachIsCertified(e, b1, ParseObjectHandle(obj).0, signer.value, types);
    }
  }

  /** Parameters and point read together decode to the curve and the coordinates of one certified key. */
  lemma EcReadDecodes(e: Env, net: Net, id: Bytes, bound: int, values: seq<Attribute>, i: nat, j: nat)
    requires OneKey(e, net, id, bound, values) && i < |values| && j < |values|
    requires values[i].typ == CKA_EC_PARAMS && values[i].value != []
    requires values[j].typ == CKA_EC_POINT && values[j].value != []
    ensures exists c, x: nat, y: nat ::
              && c != OtherCurve && Certified(e, net, id, Ec(c, x, y), bound)
              && ParseElement(values[i].value).Some? && ParseElement(values[i].value).value.first == TAG_OID
              && ParseOid(ParseElement(values[i].value).value.content) == Some(CurveOid(c))
              && (x < Pow256(ByteLen(c)) && y < Pow256(ByteLen(c)) ==> ReadPoint(c, values[j].value) == Some((x, y)))
  {
    hide Certified, EcParams, EcPoint, ParseElement, ParseOid, ReadPoint, Pow256, UlongBytes;
    assert !Blank(values[i]);
    var key :| Certified(e, net, id, key, bound) && forall k :: 0 <= k < |values| ==> Blank(values[k]) || Shows(values[k], key);
    assert Shows(values[i], key) && Shows(values[j], key);
    ParamsRoundTrip(key.curve);
    if key.x < Pow256(ByteLen(key.curve)) && key.y < Pow256(ByteLen(key.curve)) {
      PointRoundTrip(key.curve, key.x, key.y);
    }
  }
}
