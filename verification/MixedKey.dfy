/** What a negative certificate TTL, which the configuration does not refuse, does to the key an application reads. */
module MixedKey {
  import opened Common
  import opened Errors
  import opened Capture
  import opened Der
  import opened EcKey
  import opened Slots
  import opened Remote
  import opened Cache
  import opened Signers
  import opened Attributes
  import opened Machine
  import opened Stale
  import opened EmptyModulus
  import opened Journal
  import opened Stability
  import opened KeyAttributes

  /** A server that certifies a P-256 key first and a P-384 key from its third answer on. */
  function RenewingServer(): Env {
    Env(k => Answer(true, "", Ok([EC_SIGNER]), Ok(Some([if k < 2 then 5 else 6])), Err(Transport), false),
        (hash, message) => [], bytes => "",
        der => Some(Certificate([], [], [], if der == [5] then Ec(P256, 1, 2) else Ec(P384, 3, 4))),
        SigningContext("", "", "", "", ""))
  }

  const EC_TYPES: seq<nat> := [CKA_EC_PARAMS, CKA_EC_POINT]

  /** Whatever is stored has expired at once, so that the second attribute is read from a new certificate. */
  lemma Mixes(b: Back)
    requires b == ListedBack(b.config.certTTLSeconds, b.net.now) && b.config.certTTLSeconds < 0
    ensures var values := AttributeValues(RenewingServer(), b, OBJ_PRIVATE_KEY, EC_SIGNER, EC_TYPES).1;
            values == [Attribute(CKA_EC_PARAMS, EcParams(P256)), Attribute(CKA_EC_POINT, EcPoint(P384, 3, 4))]
  {
    hide EcParams, EcPoint, KeyType, GetECPublicKeyData, AttributeValue, AttributeValues;
    KeyTypes();
    var e := RenewingServer();
    FirstCertificate(b);
    var b1 := GetECPublicKeyData(e, b, [1]).0;
    SecondCertificate(b1);
    AttributeCases(e, b, OBJ_PRIVATE_KEY, EC_SIGNER, CKA_EC_PARAMS);
    AttributeCases(e, b1, OBJ_PRIVATE_KEY, EC_SIGNER, CKA_EC_POINT);
    TwoValues(e, b, OBJ_PRIVATE_KEY, EC_SIGNER, CKA_EC_PARAMS, CKA_EC_POINT);
    assert EC_TYPES == [CKA_EC_PARAMS, CKA_EC_POINT];
  }

  lemma TwoValues(e: Env, b: Back, objType: nat, signer: Signer, first: nat, second: nat)
    ensures var (b1, value1) := AttributeValue(e, b, objType, signer, first);
            var value2 := AttributeValue(e, b1, objType, signer, second).1;
            AttributeValues(e, b, objType, signer, [first, second]).1 == [Attribute(first, value1), Attribute(second, value2)]
  {
    hide AttributeValue;
    assert [first, second][..1] == [first] && [first][..0] == [];
    assert AttributeValues(e, b, objType, signer, [first]).0 == AttributeValue(e, b, objType, signer, first).0;
  }

  lemma FirstCertificate(b: Back)
    requires b == ListedBack(b.config.certTTLSeconds, b.net.now) && b.config.certTTLSeconds < 0
    ensures var (b1, key) := GetECPublicKeyData(RenewingServer(), b, [1]);
            && key == Ok((EcParams(P256), EcPoint(P256, 1, 2))) && |b1.net.calls| == 2
            && b1.net.now == b.net.now && b1.config == b.config && b1.signers == b.signers
            && Lookup(b1.certs.certs, [1], b1.net.now).None? && Lookup(b1.certs.pubKeys, [1], b1.net.now).None?
  {
    hide EcParams, EcPoint;
    var (b1, der) := GetCertificateData(RenewingServer(), b, [1]);
    assert der == Ok([5]) && b1.net.now == b.net.now && |b1.net.calls| == 2;
  }

  lemma SecondCertificate(b1: Back)
    requires b1.config.auth == Settings(0).auth && |b1.net.calls| == 2
    requires GetSignersCached(b1.signers, b1.net.now) == Some([EC_SIGNER])
    requires Lookup(b1.certs.certs, [1], b1.net.now).None? && Lookup(b1.certs.pubKeys, [1], b1.net.now).None?
    ensures GetECPublicKeyData(RenewingServer(), b1, [1]).1 == Ok((EcParams(P384), EcPoint(P384, 3, 4)))
  {
    hide EcParams, EcPoint;
    var der := GetCertificateData(RenewingServer(), b1, [1]).1;
    assert der == Ok([6]);
  }

  /** No key has the parameters of P-256 and a point of P-384. */
  lemma NotOneKey(e: Env, net: Net, id: Bytes, bound: int)
    ensures !OneKey(e, net, id, bound, [Attribute(CKA_EC_PARAMS, EcParams(P256)), Attribute(CKA_EC_POINT, EcPoint(P384, 3, 4))])
  {
    hide EcParams, EcPoint, ParseElement, ParseOid, Certified, UlongBytes;
    var values := [Attribute(CKA_EC_PARAMS, EcParams(P256)), Attribute(CKA_EC_POINT, EcPoint(P384, 3, 4))];
    ParamsRoundTrip(P256);
    ParamsRoundTrip(P384);
    ParamsRoundTrip(P521);
    PointHeader(P384, 3, 4);
    assert !Blank(values[1]);
    forall key
      ensures !(Shows(values[0], key) && (Shows(values[1], key) || Blank(values[1])))
    {
      if Shows(values[0], key) {
        assert CurveOid(key.curve)[1] == CurveOid(P256)[1];
        PointHeader(P256, key.x, key.y);
        assert EcPoint(P256, key.x, key.y)[1] == 65 && EcPoint(P384, 3, 4)[1] == 97;
      }
    }
    ParamsAreNotEmpty();
  }

  lemma ParamsAreNotEmpty()
    ensures EcParams(P256) != []
  {
  }

  /** For every negative TTL, one call reads the parameters of one key and the point of another. */
  lemma MixedRead(st: State, certTTLSeconds: int)
    requires IsInitial(st) && certTTLSeconds < 0
    ensures var st2 := Run(RenewingServer(), st, OpenSlot(certTTLSeconds));
            && st2.initialized && st2.back.config.certTTLSeconds == certTTLSeconds
            && !ReadsOneKey(RenewingServer(), st2, 1, KEY, EC_TYPES)
  {
    hide Run, AttributeValues, OneKey, EcParams, EcPoint;
    var e := RenewingServer();
    Opens(e, st, certTTLSeconds);
    var st2 := Run(e, st, OpenSlot(certTTLSeconds));
    Mixes(st2.back);
    assert GetSigners(e, st2.back) == (st2.back, Ok([EC_SIGNER]));
    var (b', r) := GetAttributeValue(e, st2.back, st2.table, 1, KEY, EC_TYPES);
    NotOneKey(e, b'.net, [1], Bound(st2.back));
  }

  /** A TTL keeps every read of every run to one key exactly when it is not negative. */
  lemma OneKeyIffTTL(certTTLSeconds: int)
    ensures certTTLSeconds >= 0 <==>
            forall e: Env, st: State, events: seq<Event>, h: nat, obj: nat, types: seq<nat> ::
              IsInitial(st) && Run(e, st, events).initialized && Run(e, st, events).back.config.certTTLSeconds == certTTLSeconds ==>
                ReadsOneKey(e, Run(e, st, events), h, obj, types)
  {
    hide Run, ReadsOneKey, IsInitial;
    if certTTLSeconds >= 0 {
      forall e: Env, st: State, events: seq<Event>, h: nat, obj: nat, types: seq<nat> |
          IsInitial(st) && Run(e, st, events).initialized && Run(e, st, events).back.config.certTTLSeconds == certTTLSeconds
        ensures ReadsOneKey(e, Run(e, st, events), h, obj, types)
      {
        KeyIsCertified(e, st, events, h, obj, types);
      }
    } else {
      MixedRead(Fresh(), certTTLSeconds);
    }
  }

  function Fresh(): (st: State)
    ensures IsInitial(st)
  {
    State(false, Back(Settings(0), Net(0, false, []), NewSignerCache(0), NewCertCache(0)), NewTable())
  }
}
