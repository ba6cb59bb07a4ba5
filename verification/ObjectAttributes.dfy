/**
 What the attributes of the three objects say, by their numbers in PKCS #11 v2.40: of the object's kind, of its signer,
 and of the certificate that the server gave for it (backend.go, lines 576-820).
 */
module ObjectAttributes {
  import opened Common
  import opened Errors
  import EcKey
  import opened Slots
  import opened Remote
  import opened Cache
  import opened Signers
  import opened Attributes
  import opened Machine
  import opened Journal
  import opened Staleness
  import opened Stability

  const PRIVATE_KEY: nat := 0x1000_0000
  const CERTIFICATE: nat := 0x2000_0000
  const PUBLIC_KEY: nat := 0x3000_0000

  // ------------------------------------------------------------------ kind and signer

  /** A CK_ULONG below 256. */
  function SmallUlong(v: byte): Bytes {
    [v, 0, 0, 0, 0, 0, 0, 0]
  }

  function Flag(v: bool): Bytes {
    [if v then 1 else 0]
  }

  ghost predicate Mentions(s: string, part: string) {
    exists before, after :: s == before + part + after
  }

  /** The attributes that are answered from the kind of the object and its entry in the signer list. */
  ghost predicate Describes(objType: nat, signer: Signer, a: Attribute) {
    // CKA_CLASS: CKO_PRIVATE_KEY, CKO_PUBLIC_KEY or CKO_CERTIFICATE
    && (a.typ == 0x000 ==>
          a.value == (match objType
                      case 0x1000_0000 => SmallUlong(3)
                      case 0x3000_0000 => SmallUlong(2)
                      case 0x2000_0000 => SmallUlong(1)
                      case _ => []))
    // CKA_PRIVATE, CKA_SENSITIVE, CKA_SIGN, CKA_NEVER_EXTRACTABLE, CKA_ALWAYS_SENSITIVE: exactly the private key
    && (a.typ in {0x002, 0x103, 0x108, 0x164, 0x165} ==> a.value == Flag(objType == PRIVATE_KEY))
    // CKA_VERIFY: exactly the public key
    && (a.typ == 0x10A ==> a.value == Flag(objType == PUBLIC_KEY))
    // CKA_TOKEN: all of them
    && (a.typ == 0x001 ==> a.value == Flag(true))
    // CKA_ENCRYPT, CKA_DECRYPT, CKA_WRAP, CKA_UNWRAP, CKA_SIGN_RECOVER, CKA_VERIFY_RECOVER, CKA_DERIVE,
    // CKA_EXTRACTABLE, CKA_LOCAL, CKA_ALWAYS_AUTHENTICATE, CKA_TRUSTED, CKA_WRAP_WITH_TRUSTED: none of them
    && (a.typ in {0x104, 0x105, 0x106, 0x107, 0x109, 0x10B, 0x10C, 0x162, 0x163, 0x202, 0x086, 0x210} ==> a.value == Flag(false))
    // CKA_LABEL, CKA_ID: the name, and the first twenty bytes of the id
    && (a.typ == 0x003 ==> a.value == signer.name)
    && (a.typ == 0x102 ==> a.value <= signer.id && |a.value| == (if |signer.id| < 20 then |signer.id| else 20))
    // CKA_KEY_TYPE: CKK_EC for the algorithms that say "ec" and not "rsa", otherwise CKK_RSA
    && (a.typ == 0x100 ==>
          a.value == SmallUlong(if Mentions(signer.keyAlgorithm, "ec") && !Mentions(signer.keyAlgorithm, "rsa") then 3 else 0))
    // CKA_CERTIFICATE_TYPE: CKC_X_509
    && (a.typ == 0x080 ==> a.value == (if objType == CERTIFICATE then SmallUlong(0) else []))
    // CKA_VALUE, CKA_SUBJECT, CKA_ISSUER, CKA_SERIAL_NUMBER: of the certificate only
    && (a.typ in {0x011, 0x101, 0x081, 0x082} && objType != CERTIFICATE ==> a.value == [])
    // what the module does not know is answered with nothing
    && (a.typ !in KNOWN ==> a.value == [])
  }

  const KNOWN: set<nat> :=
    {0x000, 0x001, 0x002, 0x003, 0x011, 0x080, 0x081, 0x082, 0x086, 0x100, 0x101, 0x102, 0x103, 0x104, 0x105, 0x106, 0x107,
     0x108, 0x109, 0x10A, 0x10B, 0x10C, 0x120, 0x121, 0x122, 0x162, 0x163, 0x164, 0x165, 0x180, 0x181, 0x202, 0x210}

  lemma ContainsIsMentions(s: string, part: string)
    ensures Contains(s, part) <==> Mentions(s, part)
  {
    if Contains(s, part) {
      var i :| 0 <= i <= |s| && part <= s[i..];
      assert s == s[..i] + part + s[i..][|part|..];
    }
    if before, after :| s == before + part + after {
      assert part <= s[|before|..];
    }
  }

  lemma SmallUlongs()
    ensures forall v: nat :: v < 256 ==> UlongBytes(v) == SmallUlong(v)
  {
  }

  /** Every object describes itself so, whatever the caches and the server say. */
  lemma ObjectsDescribe(e: Env, b: Back, objType: nat, signer: Signer, typ: nat)
    ensures Describes(objType, signer, Attribute(typ, AttributeValue(e, b, objType, signer, typ).1))
  {
    hide Contains, Mentions, UlongBytes, GetCertificateData, GetPublicKeyData, GetECPublicKeyData;
    SmallUlongs();
    ContainsIsMentions(signer.keyAlgorithm, "rsa");
    ContainsIsMentions(signer.keyAlgorithm, "ec");
    var fixed := FixedAttribute(objType, signer, typ);
    if fixed.Some? {
      FixedDescribe(objType, signer, typ);
    }
  }

  lemma FixedDescribe(objType: nat, signer: Signer, typ: nat)
    requires FixedAttribute(objType, signer, typ).Some?
    requires Contains(signer.keyAlgorithm, "rsa") <==> Mentions(signer.keyAlgorithm, "rsa")
    requires Contains(signer.keyAlgorithm, "ec") <==> Mentions(signer.keyAlgorithm, "ec")
    ensures Describes(objType, signer, Attribute(typ, FixedAttribute(objType, signer, typ).value))
  {
    hide Contains, Mentions, UlongBytes;
    SmallUlongs();
  }

  ghost predicate AllDescribe(objType: nat, signer: Signer, values: seq<Attribute>) {
    forall i :: 0 <= i < |values| ==> Describes(objType, signer, values[i])
  }

  /** So does every value that one call reads. */
  lemma {:induction false} ReadsDescribe(e: Env, b: Back, objType: nat, signer: Signer, types: seq<nat>)
    ensures AllDescribe(objType, signer, AttributeValues(e, b, objType, signer, types).1)
  {
    hide AttributeValue, Describes;
    if types != [] {
      var n := |types| - 1;
      ReadsDescribe(e, b, objType, signer, types[..n]);
      var (b1, before) := AttributeValues(e, b, objType, signer, types[..n]);
      assert AllDescribe(objType, signer, before);
      ObjectsDescribe(e, b1, objType, signer, types[n]);
      var values := AttributeValues(e, b, objType, signer, types).1;
      forall i | 0 <= i < |values|
        ensures Describes(objType, signer, values[i])
      {
        if i < n {
          assert values[i] == before[i];
          assert Describes(objType, signer, before[i]);
        } else {
          assert values[i] == Attribute(types[n], AttributeValue(e, b1, objType, signer, types[n]).1);
        }
      }
    }
  }

  /** In any state, what C_GetAttributeValue answers describes an object of the handle's kind and the signer listed at its slot. */
  lemma ReadDescribes(e: Env, st: State, h: nat, obj: nat, types: seq<nat>)
    ensures var (b', r) := GetAttributeValue(e, st.back, st.table, h, obj, types);
            var listed := GetSigners(e, st.back).1;
            var (objType, slot) := (obj / 0x1000_0000 % 16 * 0x1000_0000, obj % 0x1000_0000);
            && (r.Ok? <==> h in st.table.sessions && listed.Ok? && slot < |listed.value|)
            && (r.Ok? ==> |r.value| == |types| && AllDescribe(objType, listed.value[slot], r.value))
  {
    hide GetSigners, AttributeValues, AllDescribe;
    var (objType, slot) := ParseObjectHandle(obj);
    var (b1, signer) := GetSignerBySlot(e, st.back, slot);
    if signer.Ok? {
      ReadsDescribe(e, b1, objType, signer.value, types);
    }
  }

  // ------------------------------------------------------------------ the lookups, by what arrives

  /** A signer list is served exactly when it is cached and has not expired, or has just arrived. */
  lemma ListLookup(e: Env, b: Back, signers: seq<Signer>)
    ensures var (b', r) := GetSigners(e, b);
            var arrived := |b'.net.calls| > |b.net.calls| && IsList(b'.net.calls[|b'.net.calls| - 1]);
            r == Ok(signers) <==>
            if b.signers.entry.Some? && b.net.now <= b.signers.entry.value.expiresAt then b.signers.entry.value.value == signers
            else arrived && b'.net.calls[|b'.net.calls| - 1].reply.signers == signers
  {
    hide WithRetryOnAuth;
    RetryJournal(e, b.config.auth, b.net, ListSigners);
  }

  /** So is a certificate. */
  lemma CertificateLookup(e: Env, b: Back, id: Bytes, der: Bytes)
    ensures var (b', r) := GetCertificateData(e, b, id);
            var arrived := |b'.net.calls| > |b.net.calls| && IsCert(b'.net.calls[|b'.net.calls| - 1], id);
            r == Ok(der) <==>
            if id in b.certs.certs && b.net.now <= b.certs.certs[id].expiresAt then b.certs.certs[id].value == der
            else arrived && b'.net.calls[|b'.net.calls| - 1].reply.certificate == Some(der)
  {
    hide WithRetryOnAuth, GetSigners, FindSigner;
    if Lookup(b.certs.certs, id, b.net.now).None? {
      ListJournal(e, b);
      var (b1, signer) := GetSignerBySignerID(e, b, id);
      if signer.Ok? {
        FindSignerId(GetSigners(e, b).1.value, id);
        RetryJournal(e, b1.config.auth, b1.net, GetCertificate(signer.value.id));
      }
    }
  }

  /** Looking for the list brings no certificate. */
  lemma ListJournal(e: Env, b: Back)
    ensures var b' := GetSigners(e, b).0;
            && b.net.calls <= b'.net.calls
            && forall k, id :: |b.net.calls| <= k < |b'.net.calls| ==> !IsCert(b'.net.calls[k], id)
  {
    hide WithRetryOnAuth;
    RetryJournal(e, b.config.auth, b.net, ListSigners);
  }

  /** The position of the first signer with this id. */
  predicate FirstWithId(signers: seq<Signer>, id: Bytes, k: nat) {
    k < |signers| && signers[k].id == id && forall j :: 0 <= j < k ==> signers[j].id != id
  }

  lemma {:induction false} FindSignerIsFirst(signers: seq<Signer>, id: Bytes, k: nat)
    requires FirstWithId(signers, id, k)
    ensures FindSigner(signers, id) == Some(signers[k])
  {
    if k > 0 {
      assert signers[1..][k - 1] == signers[k];
      assert forall j :: 0 <= j < k - 1 ==> signers[1..][j] == signers[j + 1];
      FindSignerIsFirst(signers[1..], id, k - 1);
    }
  }

  /** A certificate that is not cached is requested exactly when the signer's entry in the list names one. */
  lemma CertificateRequested(e: Env, b: Back, id: Bytes, signers: seq<Signer>, k: nat)
    requires GetSignersCached(b.signers, b.net.now) == Some(signers) && FirstWithId(signers, id, k)
    requires Lookup(b.certs.certs, id, b.net.now).None?
    ensures GetCertificateData(e, b, id).0.net ==
            if signers[k].certificateID == "" then b.net else WithRetryOnAuth(e, b.config.auth, b.net, GetCertificate(id)).0
  {
    hide WithRetryOnAuth, FindSigner;
    FindSignerIsFirst(signers, id, k);
  }

  /** A key is served when one of its kind is cached, or the certificate served has one; an EC entry passes as RSA. */
  lemma KeyLookups(e: Env, b: Back, id: Bytes)
    ensures var der := GetCertificateData(e, b, id).1;
            var entry := if id in b.certs.pubKeys && b.net.now <= b.certs.pubKeys[id].expiresAt then Some(b.certs.pubKeys[id].value) else None;
            var cert := if der.Ok? then e.parseCertificate(der.value) else None;
            && (GetECPublicKeyData(e, b, id).1.Ok? <==>
                (entry.Some? && entry.value.EcEntry?) || (cert.Some? && cert.value.key.Ec? && cert.value.key.curve != EcKey.OtherCurve))
            && (GetPublicKeyData(e, b, id).1.Ok? <==> entry.Some? || (cert.Some? && cert.value.key.Rsa?))
  {
    hide GetCertificateData, EcKey.EcParams, EcKey.EcPoint;
  }

  // ------------------------------------------------------------------ the certificate object

  /** The attribute's value is that of this certificate. */
  predicate ShowsCertificate(e: Env, a: Attribute, der: Bytes) {
    var cert := e.parseCertificate(der);
    match a.typ
    case 0x011 => a.value == der                                            // CKA_VALUE
    case 0x101 => a.value == (if cert.Some? then cert.value.subject else [])  // CKA_SUBJECT
    case 0x081 => a.value == (if cert.Some? then cert.value.issuer else [])   // CKA_ISSUER
    case 0x082 => a.value == (if cert.Some? then cert.value.serial else [])   // CKA_SERIAL_NUMBER
    case _ => true
  }

  predicate OfCertificate(typ: nat) {
    typ in {0x011, 0x101, 0x081, 0x082}
  }

  lemma CertificateAnswer(e: Env, b: Back, signer: Signer, typ: nat)
    requires OfCertificate(typ)
    ensures var (b', value) := AttributeValue(e, b, CERTIFICATE, signer, typ);
            var (b1, der) := GetCertificateData(e, b, signer.id);
            b' == b1 && if der.Ok? then ShowsCertificate(e, Attribute(typ, value), der.value) else value == []
  {
    hide GetCertificateData, AttributeValue;
    AttributeCases(e, b, CERTIFICATE, signer, typ);
    assert CertificateAttribute(e, b, signer, typ).0 == GetCertificateData(e, b, signer.id).0;
  }

  /** Shown from what is cached, or blank because no lookup has succeeded. */
  predicate ShownOrBlank(e: Env, b: Back, id: Bytes, a: Attribute) {
    OfCertificate(a.typ) ==>
      a.value == [] || (Lookup(b.certs.certs, id, b.net.now).Some? && ShowsCertificate(e, a, Lookup(b.certs.certs, id, b.net.now).value))
  }

  lemma ShownKept(e: Env, b: Back, signer: Signer, typ: nat, a: Attribute)
    requires ShownOrBlank(e, b, signer.id, a)
    ensures ShownOrBlank(e, AttributeValue(e, b, CERTIFICATE, signer, typ).0, signer.id, a)
  {
    hide AttributeValue, ShowsCertificate, KeyType;
    AttributeKeeps(e, b, CERTIFICATE, signer, typ, 0x011);
  }

  lemma AnswerShown(e: Env, b: Back, signer: Signer, typ: nat)
    requires b.certs.ttl >= 0
    ensures var (b', value) := AttributeValue(e, b, CERTIFICATE, signer, typ); ShownOrBlank(e, b', signer.id, Attribute(typ, value))
  {
    hide AttributeValue, ShowsCertificate, GetCertificateData;
    if OfCertificate(typ) {
      CertificateAnswer(e, b, signer, typ);
      CertLookup(e, b, signer.id);
    }
  }

  lemma {:induction false} AllShown(e: Env, b: Back, signer: Signer, types: seq<nat>)
    requires BackOk(e, b) && b.certs.ttl >= 0
    ensures var (b', values) := AttributeValues(e, b, CERTIFICATE, signer, types);
            forall i :: 0 <= i < |values| ==> ShownOrBlank(e, b', signer.id, values[i])
  {
    hide BackOk, AttributeValue, ShownOrBlank;
    if types != [] {
      var n := |types| - 1;
      AllShown(e, b, signer, types[..n]);
      AttributesProgress(e, b, CERTIFICATE, signer, types[..n]);
      var (b1, before) := AttributeValues(e, b, CERTIFICATE, signer, types[..n]);
      AnswerShown(e, b1, signer, types[n]);
      forall i | 0 <= i < n
        ensures ShownOrBlank(e, AttributeValue(e, b1, CERTIFICATE, signer, types[n]).0, signer.id, before[i])
      {
        ShownKept(e, b1, signer, types[n], before[i]);
      }
    }
  }

  /** If every lookup succeeded, nothing is blank. */
  lemma AllServedShown(e: Env, b: Back, signer: Signer, types: seq<nat>, i: nat)
    requires b.certs.ttl >= 0 && AllServed(e, b, CERTIFICATE, signer, types) && i < |types| && OfCertificate(types[i])
    ensures var (b', values) := AttributeValues(e, b, CERTIFICATE, signer, types);
            var hit := Lookup(b'.certs.certs, signer.id, b'.net.now);
            hit.Some? && ShowsCertificate(e, values[i], hit.value)
  {
    hide AttributeValue, AllServed, ShowsCertificate, GetCertificateData;
    ServedRepeats(e, b, CERTIFICATE, signer, types);
    var (b', values) := AttributeValues(e, b, CERTIFICATE, signer, types);
    assert Held(b', CERTIFICATE, signer, types[i]);
    assert AttributeValue(e, b', CERTIFICATE, signer, values[i].typ) == (b', values[i].value);
    CertificateAnswer(e, b', signer, types[i]);
    CertHitValue(e, b', signer.id);
  }

  /** The latest certificate received for the signer, at most one TTL old, is what the attribute shows. */
  ghost predicate ShowsLatest(e: Env, b: Back, id: Bytes, ttlSeconds: int, a: Attribute) {
    var latest := LatestCert(b.net.calls, id);
    && latest.Some? && ShowsCertificate(e, a, latest.value.1)
    && b.net.now - latest.value.0 <= (if ttlSeconds == 0 then 3600 else ttlSeconds) * 1_000_000_000
  }

  /**
   With a non-negative TTL, in every reachable state: value, subject, issuer and serial number that one
   C_GetAttributeValue reads from a certificate object are those of the latest certificate that the server gave for the
   signer at this slot, at most one TTL ago; they are empty only where no lookup has succeeded.
   */
  lemma CertificateIsRead(e: Env, st: State, events: seq<Event>, h: nat, obj: nat, types: seq<nat>)
    requires IsInitial(st) && Run(e, st, events).initialized && Run(e, st, events).back.config.certTTLSeconds >= 0
    requires ParseObjectHandle(obj).0 == CERTIFICATE
    ensures var st1 := Run(e, st, events);
            var (b', r) := GetAttributeValue(e, st1.back, st1.table, h, obj, types);
            var signer := GetSignerBySlot(e, st1.back, ParseObjectHandle(obj).1).1;
            r.Ok? ==> signer.Ok? && forall i :: 0 <= i < |types| && OfCertificate(types[i]) ==>
              && r.value[i].typ == types[i]
              && (r.value[i].value == [] || ShowsLatest(e, b', signer.value.id, st1.back.config.certTTLSeconds, r.value[i]))
              && (ReadServed(e, st1.back, obj, types) ==>
                    ShowsLatest(e, b', signer.value.id, st1.back.config.certTTLSeconds, r.value[i]))
  {
    hide Run, BackOk, GetSigners, AttributeValues, AllServed, ParseObjectHandle, ShowsCertificate, OfCertificate, LatestCert;
    var st1 := Run(e, st, events);
    RunSound(e, st, events);
    GetSignersJournal(e, st1.back);
    var slot := ParseObjectHandle(obj).1;
    var (b1, signer) := GetSignerBySlot(e, st1.back, slot);
    if h in st1.table.sessions && signer.Ok? {
      var (b', values) := AttributeValues(e, b1, CERTIFICATE, signer.value, types);
      assert GetAttributeValue(e, st1.back, st1.table, h, obj, types) == (b', Ok(values));
      AllShown(e, b1, signer.value, types);
      AttributesProgress(e, b1, CERTIFICATE, signer.value, types);
      forall i | 0 <= i < |types| && OfCertificate(types[i])
        ensures values[i].value == [] || ShowsLatest(e, b', signer.value.id, st1.back.config.certTTLSeconds, values[i])
        ensures ReadServed(e, st1.back, obj, types) ==> ShowsLatest(e, b', signer.value.id, st1.back.config.certTTLSeconds, values[i])
      {
        assert ShownOrBlank(e, b', signer.value.id, values[i]);
        if ReadServed(e, st1.back, obj, types) {
          AllServedShown(e, b1, signer.value, types, i);
        }
        if Lookup(b'.certs.certs, signer.value.id, b'.net.now).Some? {
          CertHit(e, b', signer.value.id);
        }
      }
    }
  }
}
