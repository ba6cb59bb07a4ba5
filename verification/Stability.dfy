/**
 What reading attributes leaves in the caches, and when a second read finds it there (backend.go, lines 576-945).
 Every lookup that succeeds with a non-negative TTL is answered from the cache from then on.
 */
module Stability {
  import opened Common
  import opened Errors
  import opened EcKey
  import opened Slots
  import opened Remote
  import opened Cache
  import opened Signers
  import opened Attributes
  import opened Journal

  // ------------------------------------------------------------------ the three lookups

  /** No time passes, the settings stay, and an unexpired signer list stays. */
  ghost predicate Settled(b: Back, b': Back) {
    && b'.net.now == b.net.now && b'.config == b.config
    && b'.certs.ttl == b.certs.ttl && b'.signers.ttl == b.signers.ttl
    && (GetSignersCached(b.signers, b.net.now).Some? ==> b'.signers == b.signers)
  }

  lemma SignersLookup(e: Env, b: Back)
    ensures var (b', signers) := GetSigners(e, b);
            && Settled(b, b') && b'.certs == b.certs
            && (GetSignersCached(b.signers, b.net.now).Some? ==> b' == b)
            && (signers.Ok? && b.signers.ttl >= 0 ==> GetSignersCached(b'.signers, b'.net.now) == Some(signers.value))
  {
    hide WithRetryOnAuth;
    RetryJournal(e, b.config.auth, b.net, ListSigners);
  }

  lemma CertLookup(e: Env, b: Back, id: Bytes)
    ensures var (b', der) := GetCertificateData(e, b, id);
            && Settled(b, b') && b'.certs.pubKeys == b.certs.pubKeys
            && (Lookup(b.certs.certs, id, b.net.now).Some? ==> b' == b && der.Ok?)
            && (der.Ok? && b.certs.ttl >= 0 ==> Lookup(b'.certs.certs, id, b'.net.now) == Some(der.value))
  {
    hide WithRetryOnAuth, GetSigners, FindSigner;
    if Lookup(b.certs.certs, id, b.net.now).None? {
      SignersLookup(e, b);
      var (b1, signer) := GetSignerBySignerID(e, b, id);
      if signer.Ok? {
        RetryJournal(e, b1.config.auth, b1.net, GetCertificate(signer.value.id));
      }
    }
  }

  lemma RsaLookup(e: Env, b: Back, id: Bytes)
    ensures var (b', key) := GetPublicKeyData(e, b, id);
            && Settled(b, b')
            && (Lookup(b.certs.certs, id, b.net.now).Some? ==> b'.certs.certs == b.certs.certs)
            && (Lookup(b.certs.pubKeys, id, b.net.now).Some? ==> b' == b && key.Ok?)
            && (key.Err? ==> b'.certs.pubKeys == b.certs.pubKeys)
            && (key.Ok? && b.certs.ttl >= 0 ==> Lookup(b'.certs.pubKeys, id, b'.net.now).Some? && GetPublicKeyData(e, b', id) == (b', key))
  {
    hide GetCertificateData;
    CertLookup(e, b, id);
  }

  lemma EcLookup(e: Env, b: Back, id: Bytes)
    ensures var (b', key) := GetECPublicKeyData(e, b, id);
            && Settled(b, b')
            && (Lookup(b.certs.certs, id, b.net.now).Some? ==> b'.certs.certs == b.certs.certs)
            && (EcEntryCached(b, id) ==> b' == b && key.Ok?)
            && (key.Err? ==> b'.certs.pubKeys == b.certs.pubKeys)
            && (key.Ok? && b.certs.ttl >= 0 ==>
                  Lookup(b'.certs.pubKeys, id, b'.net.now) == Some(EcEntry(key.value.0, key.value.1)))
  {
    hide GetCertificateData, EcParams, EcPoint;
    CertLookup(e, b, id);
  }

  // ------------------------------------------------------------------ one attribute

  predicate IsKey(objType: nat) {
    objType == OBJ_PRIVATE_KEY || objType == OBJ_PUBLIC_KEY
  }

  predicate NeedsCertificate(objType: nat, typ: nat) {
    objType == OBJ_CERTIFICATE && typ in {CKA_VALUE, CKA_SUBJECT, CKA_ISSUER, CKA_SERIAL_NUMBER}
  }

  predicate NeedsRsaKey(objType: nat, signer: Signer, typ: nat) {
    IsKey(objType) && KeyType(signer) == CKK_RSA && typ in {CKA_MODULUS, CKA_PUBLIC_EXPONENT, CKA_MODULUS_BITS}
  }

  predicate NeedsEcKey(objType: nat, signer: Signer, typ: nat) {
    IsKey(objType) && KeyType(signer) == CKK_EC && typ in {CKA_EC_PARAMS, CKA_EC_POINT}
  }

  /** The lookup that the attribute needs, if any, succeeds. */
  predicate Served(e: Env, b: Back, objType: nat, signer: Signer, typ: nat) {
    && (NeedsCertificate(objType, typ) ==> GetCertificateData(e, b, signer.id).1.Ok?)
    && (NeedsRsaKey(objType, signer, typ) ==> GetPublicKeyData(e, b, signer.id).1.Ok?)
    && (NeedsEcKey(objType, signer, typ) ==> GetECPublicKeyData(e, b, signer.id).1.Ok?)
  }

  /** What the attribute needs is in the cache and has not expired. */
  predicate Held(b: Back, objType: nat, signer: Signer, typ: nat) {
    && (NeedsCertificate(objType, typ) ==> Lookup(b.certs.certs, signer.id, b.net.now).Some?)
    && (NeedsRsaKey(objType, signer, typ) ==> Lookup(b.certs.pubKeys, signer.id, b.net.now).Some?)
    && (NeedsEcKey(objType, signer, typ) ==> EcEntryCached(b, signer.id))
  }

  /** The ways an attribute is answered. */
  lemma AttributeCases(e: Env, b: Back, objType: nat, signer: Signer, typ: nat)
    ensures AttributeValue(e, b, objType, signer, typ) ==
            if NeedsCertificate(objType, typ) then CertificateAttribute(e, b, signer, typ)
            else if NeedsRsaKey(objType, signer, typ) then RsaAttribute(e, b, signer, typ)
            else if NeedsEcKey(objType, signer, typ) then EcAttribute(e, b, signer, typ)
            else (b, AttributeValue(e, b, objType, signer, typ).1)
  {
    hide GetCertificateData, GetPublicKeyData, GetECPublicKeyData, KeyType;
  }

  /** Without a lookup the answer does not depend on the backend. */
  lemma FreeAttribute(e: Env, b: Back, b': Back, objType: nat, signer: Signer, typ: nat)
    requires !NeedsCertificate(objType, typ) && !NeedsRsaKey(objType, signer, typ) && !NeedsEcKey(objType, signer, typ)
    ensures AttributeValue(e, b', objType, signer, typ) == (b', AttributeValue(e, b, objType, signer, typ).1)
  {
    hide GetCertificateData, GetPublicKeyData, GetECPublicKeyData, KeyType, UlongBytes;
  }

  /** An attribute that is held is read without changing anything; only the cached entry decides. */
  lemma HeldAttribute(e: Env, b: Back, b': Back, objType: nat, signer: Signer, typ: nat)
    requires Held(b, objType, signer, typ) && Held(b', objType, signer, typ)
    requires KeepsHeld(b, b', objType, signer, typ)
    ensures AttributeValue(e, b', objType, signer, typ) == (b', AttributeValue(e, b, objType, signer, typ).1)
  {
    hide KeyType, UlongBytes, AttributeValue;
    AttributeCases(e, b, objType, signer, typ);
    AttributeCases(e, b', objType, signer, typ);
    if !NeedsCertificate(objType, typ) && !NeedsRsaKey(objType, signer, typ) && !NeedsEcKey(objType, signer, typ) {
      FreeAttribute(e, b, b', objType, signer, typ);
    }
  }

  /** The entry that the attribute needs is the same, if both have one. */
  predicate KeepsHeld(b: Back, b': Back, objType: nat, signer: Signer, typ: nat) {
    var id := signer.id;
    && (NeedsCertificate(objType, typ) && id in b.certs.certs && id in b'.certs.certs ==>
          b'.certs.certs[id].value == b.certs.certs[id].value)
    && ((NeedsRsaKey(objType, signer, typ) || NeedsEcKey(objType, signer, typ)) && id in b.certs.pubKeys && id in b'.certs.pubKeys ==>
          b'.certs.pubKeys[id].value == b.certs.pubKeys[id].value)
  }

  lemma ServedIsHeld(e: Env, b: Back, objType: nat, signer: Signer, typ: nat)
    requires b.certs.ttl >= 0 && Served(e, b, objType, signer, typ)
    ensures var (b', value) := AttributeValue(e, b, objType, signer, typ);
            Held(b', objType, signer, typ) && AttributeValue(e, b', objType, signer, typ) == (b', value)
  {
    hide GetCertificateData, GetPublicKeyData, GetECPublicKeyData, KeyType, UlongBytes, AttributeValue, Settled;
    AttributeCases(e, b, objType, signer, typ);
    var b' := AttributeValue(e, b, objType, signer, typ).0;
    AttributeCases(e, b', objType, signer, typ);
    CertLookup(e, b, signer.id);
    CertLookup(e, b', signer.id);
    RsaLookup(e, b, signer.id);
    EcLookup(e, b, signer.id);
    EcLookup(e, b', signer.id);
    if NeedsCertificate(objType, typ) {
      CertHitValue(e, b', signer.id);
    } else if NeedsEcKey(objType, signer, typ) {
      EcHitValue(e, b', signer.id);
    }
  }

  lemma CertHitValue(e: Env, b: Back, id: Bytes)
    requires Lookup(b.certs.certs, id, b.net.now).Some?
    ensures GetCertificateData(e, b, id) == (b, Ok(Lookup(b.certs.certs, id, b.net.now).value))
  {
  }

  lemma EcHitValue(e: Env, b: Back, id: Bytes)
    requires EcEntryCached(b, id)
    ensures var hit := Lookup(b.certs.pubKeys, id, b.net.now).value;
            GetECPublicKeyData(e, b, id) == (b, Ok((hit.ecParams, hit.ecPoint)))
  {
  }

  /** Reading one attribute leaves what another one of the same object needs. */
  lemma AttributeKeeps(e: Env, b: Back, objType: nat, signer: Signer, typ: nat, other: nat)
    ensures var b' := AttributeValue(e, b, objType, signer, typ).0;
            && Settled(b, b')
            && (Held(b, objType, signer, other) ==> Held(b', objType, signer, other) && KeepsHeld(b, b', objType, signer, other))
  {
    hide GetCertificateData, GetPublicKeyData, GetECPublicKeyData, KeyType, AttributeValue;
    AttributeCases(e, b, objType, signer, typ);
    CertLookup(e, b, signer.id);
    RsaLookup(e, b, signer.id);
    EcLookup(e, b, signer.id);
  }

  // ------------------------------------------------------------------ a whole template

  /** Reading a template leaves what another attribute of the object needs. */
  lemma {:induction false} AttributesKeep(e: Env, b: Back, objType: nat, signer: Signer, types: seq<nat>, other: nat)
    requires Held(b, objType, signer, other)
    ensures var b' := AttributeValues(e, b, objType, signer, types).0;
            Held(b', objType, signer, other) && KeepsHeld(b, b', objType, signer, other)
  {
    hide AttributeValue, KeyType;
    if types != [] {
      var n := |types| - 1;
      AttributesKeep(e, b, objType, signer, types[..n], other);
      AttributeKeeps(e, AttributeValues(e, b, objType, signer, types[..n]).0, objType, signer, types[n], other);
    }
  }

  /** An attribute that is held when a read begins is answered as if it were read alone. */
  lemma {:induction false} HeldAnswer(e: Env, b: Back, objType: nat, signer: Signer, types: seq<nat>, i: nat)
    requires i < |types| && Held(b, objType, signer, types[i])
    ensures AttributeValues(e, b, objType, signer, types).1[i].value == AttributeValue(e, b, objType, signer, types[i]).1
  {
    hide AttributeValue, Held, KeepsHeld;
    var n := |types| - 1;
    if i < n {
      HeldAnswer(e, b, objType, signer, types[..n], i);
    } else {
      AttributesKeep(e, b, objType, signer, types[..n], types[i]);
      HeldAttribute(e, b, AttributeValues(e, b, objType, signer, types[..n]).0, objType, signer, types[i]);
    }
  }

  /** Every lookup made for the template succeeds. */
  predicate AllServed(e: Env, b: Back, objType: nat, signer: Signer, types: seq<nat>) {
    types == [] ||
    var front := types[..|types| - 1];
    && AllServed(e, b, objType, signer, front)
    && Served(e, AttributeValues(e, b, objType, signer, front).0, objType, signer, types[|types| - 1])
  }

  ghost predicate AllHeld(b: Back, objType: nat, signer: Signer, types: seq<nat>) {
    forall i :: 0 <= i < |types| ==> Held(b, objType, signer, types[i])
  }

  /** Reading the template again, one by one, gives these values and changes nothing. */
  ghost predicate Repeats(e: Env, b: Back, objType: nat, signer: Signer, values: seq<Attribute>) {
    forall i :: 0 <= i < |values| ==> AttributeValue(e, b, objType, signer, values[i].typ) == (b, values[i].value)
  }

  lemma {:induction false} ServedRepeats(e: Env, b: Back, objType: nat, signer: Signer, types: seq<nat>)
    requires b.certs.ttl >= 0 && AllServed(e, b, objType, signer, types)
    ensures var (b', values) := AttributeValues(e, b, objType, signer, types);
            Settled(b, b') && AllHeld(b', objType, signer, types) && Repeats(e, b', objType, signer, values)
  {
    hide Served, Held, AttributeValue, KeepsHeld;
    if types != [] {
      var n := |types| - 1;
      var front, typ := types[..n], types[n];
      ServedRepeats(e, b, objType, signer, front);
      var (b1, before) := AttributeValues(e, b, objType, signer, front);
      ServedIsHeld(e, b1, objType, signer, typ);
      AttributeKeeps(e, b1, objType, signer, typ, typ);
      var b2 := AttributeValue(e, b1, objType, signer, typ).0;
      forall i | 0 <= i < n
        ensures Held(b2, objType, signer, types[i])
        ensures AttributeValue(e, b2, objType, signer, types[i]) == (b2, before[i].value)
      {
        assert Held(b1, objType, signer, front[i]);
        assert AttributeValue(e, b1, objType, signer, before[i].typ) == (b1, before[i].value);
        AttributeKeeps(e, b1, objType, signer, typ, types[i]);
        HeldAttribute(e, b1, b2, objType, signer, types[i]);
      }
    }
  }

  lemma {:induction false} RepeatedRead(e: Env, b: Back, objType: nat, signer: Signer, types: seq<nat>, values: seq<Attribute>)
    requires |values| == |types| && (forall i :: 0 <= i < |types| ==> values[i].typ == types[i])
    requires Repeats(e, b, objType, signer, values)
    ensures AttributeValues(e, b, objType, signer, types) == (b, values)
  {
    hide AttributeValue;
    if types != [] {
      var n := |types| - 1;
      RepeatedRead(e, b, objType, signer, types[..n], values[..n]);
      assert AttributeValue(e, b, objType, signer, values[n].typ) == (b, values[n].value);
      assert values == values[..n] + [values[n]];
    }
  }

  /** The object's signer is found and every lookup of the read succeeds. */
  ghost predicate ReadServed(e: Env, b: Back, obj: nat, types: seq<nat>) {
    var (objType, slot) := ParseObjectHandle(obj);
    var (b1, signer) := GetSignerBySlot(e, b, slot);
    signer.Ok? && AllServed(e, b1, objType, signer.value, types)
  }

  /** The signer list and everything that the attributes need are in the caches and have not expired. */
  ghost predicate ReadHeld(b: Back, obj: nat, types: seq<nat>) {
    var (objType, slot) := ParseObjectHandle(obj);
    var signers := GetSignersCached(b.signers, b.net.now);
    signers.Some? && slot < |signers.value| && AllHeld(b, objType, signers.value[slot], types)
  }

  function At(b: Back, time: int): Back {
    b.(net := b.net.(now := time))
  }

  /** A read, taken apart: the signer found is the one the cached list names, and the values can be read again. */
  lemma ServedRead(e: Env, b: Back, t: Table, session: nat, obj: nat, types: seq<nat>) returns (signer: Signer, values: seq<Attribute>)
    requires session in t.sessions && b.signers.ttl >= 0 && b.certs.ttl >= 0 && ReadServed(e, b, obj, types)
    ensures var (b', r) := GetAttributeValue(e, b, t, session, obj, types);
            var (objType, slot) := ParseObjectHandle(obj);
            var signers := GetSignersCached(b'.signers, b'.net.now);
            && r == Ok(values) && |values| == |types| && (forall i :: 0 <= i < |types| ==> values[i].typ == types[i])
            && signers.Some? && slot < |signers.value| && signers.value[slot] == signer
            && AllHeld(b', objType, signer, types) && Repeats(e, b', objType, signer, values)
  {
    hide GetSigners, AttributeValues, AllServed, AllHeld, Repeats, ParseObjectHandle;
    var (objType, slot) := ParseObjectHandle(obj);
    SignersLookup(e, b);
    var (b1, listed) := GetSigners(e, b);
    signer := listed.value[slot];
    assert GetSignerBySlot(e, b, slot) == (b1, Ok(signer));
    assert GetSignersCached(b1.signers, b1.net.now) == Some(listed.value);
    ServedRepeats(e, b1, objType, signer, types);
    var b';
    b', values := AttributeValues(e, b1, objType, signer, types).0, AttributeValues(e, b1, objType, signer, types).1;
    assert Settled(b1, b');
  }

  /** With non-negative TTLs a read whose lookups all succeed leaves everything in the caches. */
  lemma ServedReadIsHeld(e: Env, b: Back, t: Table, session: nat, obj: nat, types: seq<nat>)
    requires session in t.sessions && b.signers.ttl >= 0 && b.certs.ttl >= 0 && ReadServed(e, b, obj, types)
    ensures ReadHeld(GetAttributeValue(e, b, t, session, obj, types).0, obj, types)
  {
    hide GetAttributeValue, ReadServed, AllHeld, Repeats, ParseObjectHandle;
    var signer, values := ServedRead(e, b, t, session, obj, types);
  }

  /**
   A second read gives the same values and leaves the backend as it is, at any time at which the signer list,
   certificate and key that the first read left in the caches have not expired.
   */
  lemma ReadsAreStable(e: Env, b: Back, t: Table, session: nat, obj: nat, types: seq<nat>, time: int)
    requires session in t.sessions && b.signers.ttl >= 0 && b.certs.ttl >= 0 && ReadServed(e, b, obj, types)
    requires ReadHeld(At(GetAttributeValue(e, b, t, session, obj, types).0, time), obj, types)
    ensures var (b', r) := GetAttributeValue(e, b, t, session, obj, types);
            r.Ok? && GetAttributeValue(e, At(b', time), t, session, obj, types) == (At(b', time), r)
  {
    hide GetAttributeValue, ReadServed, AllHeld, ParseObjectHandle, AttributeValue, Repeats;
    var signer, values := ServedRead(e, b, t, session, obj, types);
    var b' := GetAttributeValue(e, b, t, session, obj, types).0;
    LaterRepeats(e, b', time, ParseObjectHandle(obj).0, signer, types, values);
    RepeatedRead(e, At(b', time), ParseObjectHandle(obj).0, signer, types, values);
    CachedSigners(e, At(b', time));
    ReadOfListed(e, At(b', time), t, session, obj, types, signer);
  }

  /** A read that finds everything in the caches leaves the backend as it is, whatever the TTLs. */
  lemma HeldReadIsQuiet(e: Env, b: Back, t: Table, session: nat, obj: nat, types: seq<nat>)
    requires ReadHeld(b, obj, types)
    ensures GetAttributeValue(e, b, t, session, obj, types).0 == b
  {
    hide ParseObjectHandle, AttributeValues, AllHeld;
    CachedSigners(e, b);
    var (objType, slot) := ParseObjectHandle(obj);
    HeldValuesAreQuiet(e, b, objType, GetSigners(e, b).1.value[slot], types);
  }

  lemma {:induction false} HeldValuesAreQuiet(e: Env, b: Back, objType: nat, signer: Signer, types: seq<nat>)
    requires AllHeld(b, objType, signer, types)
    ensures AttributeValues(e, b, objType, signer, types).0 == b
  {
    hide AttributeValue, Held;
    if types != [] {
      var n := |types| - 1;
      HeldValuesAreQuiet(e, b, objType, signer, types[..n]);
      SameEntries(b, b.net.now, objType, signer, types[n]);
      assert At(b, b.net.now) == b;
      HeldAttribute(e, b, b, objType, signer, types[n]);
    }
  }

  lemma LaterRepeats(e: Env, b: Back, time: int, objType: nat, signer: Signer, types: seq<nat>, values: seq<Attribute>)
    requires AllHeld(b, objType, signer, types) && AllHeld(At(b, time), objType, signer, types)
    requires |values| == |types| && (forall i :: 0 <= i < |types| ==> values[i].typ == types[i])
    requires Repeats(e, b, objType, signer, values)
    ensures Repeats(e, At(b, time), objType, signer, values)
  {
    hide AttributeValue, Held, KeepsHeld;
    forall i | 0 <= i < |values|
      ensures AttributeValue(e, At(b, time), objType, signer, values[i].typ) == (At(b, time), values[i].value)
    {
      assert Held(b, objType, signer, types[i]) && Held(At(b, time), objType, signer, types[i]);
      assert AttributeValue(e, b, objType, signer, values[i].typ) == (b, values[i].value);
      SameEntries(b, time, objType, signer, types[i]);
      HeldAttribute(e, b, At(b, time), objType, signer, types[i]);
    }
  }

  lemma SameEntries(b: Back, time: int, objType: nat, signer: Signer, typ: nat)
    ensures KeepsHeld(b, At(b, time), objType, signer, typ)
  {
  }

  lemma CachedSigners(e: Env, b: Back)
    requires GetSignersCached(b.signers, b.net.now).Some?
    ensures GetSigners(e, b) == (b, Ok(GetSignersCached(b.signers, b.net.now).value))
  {
  }

  lemma ReadOfListed(e: Env, b: Back, t: Table, session: nat, obj: nat, types: seq<nat>, signer: Signer)
    requires session in t.sessions && GetSignerBySlot(e, b, ParseObjectHandle(obj).1) == (b, Ok(signer))
    ensures var (b', values) := AttributeValues(e, b, ParseObjectHandle(obj).0, signer, types);
            GetAttributeValue(e, b, t, session, obj, types) == (b', Ok(values))
  {
    hide GetSignerBySlot, AttributeValues, ParseObjectHandle;
  }
}
