/** A run with the default TTLs in which the RSA key of a signer is served as an empty modulus. */
module EmptyModulus {
  import opened Common
  import opened Errors
  import opened Capture
  import opened EcKey
  import opened Slots
  import opened Remote
  import opened Cache
  import opened Signers
  import opened Attributes
  import opened Machine
  import opened Stale

  const EC_SIGNER := Signer([1], [2], "certificate", "ec")
  const RSA_SIGNER := Signer([1], [2], "certificate", "rsa")

  /** After its second answer the server has given the signer an RSA key and certificate. */
  function RekeyedServer(): Env {
    Env(k => Answer(true, "", Ok([if k < 2 then EC_SIGNER else RSA_SIGNER]), Ok(Some([if k < 2 then 5 else 6])), Err(Transport), false),
        (hash, message) => [], bytes => "",
        der => Some(Certificate([], [], [], if der == [5] then Ec(P256, 1, 2) else Rsa([9], [3]))),
        SigningContext("", "", "", "", ""))
  }

  /** Zero stands for the default TTL: 300 s for signers, 3600 s for certificates and keys. */
  function Settings(certTTLSeconds: int): Config {
    Config(AuthConfig(TokenAuth, "", "", "token"), 0, certTTLSeconds, ApprovalConfig(0, "", [], ""))
  }

  function OpenSlot(certTTLSeconds: int): seq<Event> {
    [EvInitialize(Some(Settings(certTTLSeconds)), true), EvOpenSession(0)]
  }

  function Rekeying(): seq<Event> {
    OpenSlot(0) + [EvGetAttributeValue(1, KEY, [CKA_EC_POINT]), EvTick(301 * SECOND), EvGetAttributeValue(1, KEY, [CKA_MODULUS])]
  }

  lemma KeyTypes()
    ensures KeyType(EC_SIGNER) == CKK_EC && KeyType(RSA_SIGNER) == CKK_RSA
  {
    assert "ec" <= "ec"[0..];
    assert "rsa" <= "rsa"[0..];
  }

  /** The backend once the session is open: the list names an EC signer, nothing else is cached. */
  function ListedBack(certTTLSeconds: int, now: int): Back {
    Back(Settings(certTTLSeconds), Net(now, false, [ApiCall(now, "token", ListSigners, Listed([EC_SIGNER]))]),
         SignerCacheState(300 * SECOND, Some(Entry([EC_SIGNER], now + 300 * SECOND))),
         CertCacheState(TTL(certTTLSeconds, 3600), map[], map[]))
  }

  lemma Opens(e: Env, st: State, certTTLSeconds: int)
    requires IsInitial(st) && e.answers(0).listed == Ok([EC_SIGNER])
    ensures var st2 := Run(e, st, OpenSlot(certTTLSeconds));
            st2.initialized && 1 in st2.table.sessions && st2.back == ListedBack(certTTLSeconds, st.back.net.now)
  {
    hide Run;
    var ev := OpenSlot(certTTLSeconds);
    RunTwo(e, st, ev[0], ev[1]);
    var st1 := Step(e, st, ev[0]).0;
    assert st1.back.net == Net(st.back.net.now, false, []) && st1.table == NewTable();
    var (b, signers) := GetSigners(e, st1.back);
    assert b.net.calls == [ApiCall(b.net.now, "token", ListSigners, Listed([EC_SIGNER]))];
    assert b == ListedBack(certTTLSeconds, st.back.net.now);
  }

  /** And after the EC point has been read: the key is cached for an hour. */
  lemma ReadsPoint(now: int)
    ensures var (b, values) := AttributeValues(RekeyedServer(), ListedBack(0, now), OBJ_PRIVATE_KEY, EC_SIGNER, [CKA_EC_POINT]);
            && values == [Attribute(CKA_EC_POINT, EcPoint(P256, 1, 2))]
            && b.net.now == now && |b.net.calls| == 2 && b.config == Settings(0) && b.signers == ListedBack(0, now).signers
            && [1] in b.certs.pubKeys
            && b.certs.pubKeys[[1]] == Entry(EcEntry(EcParams(P256), EcPoint(P256, 1, 2)), now + 3600 * SECOND)
  {
    hide EcParams, EcPoint, KeyType;
    KeyTypes();
    var e := RekeyedServer();
    var (b1, der) := GetCertificateData(e, ListedBack(0, now), [1]);
    assert der == Ok([5]) && b1.net.now == now && |b1.net.calls| == 2;
    var (b, key) := GetECPublicKeyData(e, ListedBack(0, now), [1]);
    assert key == Ok((EcParams(P256), EcPoint(P256, 1, 2)));
    assert [CKA_EC_POINT][..0] == [];
  }

  /** 301 s later the list says "rsa", but the key in the cache is still the EC key. */
  lemma ReadsModulus(b: Back, now: int)
    requires b.net.now == now && |b.net.calls| == 2 && b.config == Settings(0) && b.signers == ListedBack(0, now).signers
    requires [1] in b.certs.pubKeys && b.certs.pubKeys[[1]].value.EcEntry?
    requires b.certs.pubKeys[[1]].expiresAt == now + 3600 * SECOND
    ensures var later := b.(net := b.net.(now := now + 301 * SECOND));
            var (b1, signers) := GetSigners(RekeyedServer(), later);
            && signers == Ok([RSA_SIGNER])
            && AttributeValues(RekeyedServer(), b1, OBJ_PRIVATE_KEY, RSA_SIGNER, [CKA_MODULUS]).1 == [Attribute(CKA_MODULUS, [])]
  {
    hide KeyType;
    KeyTypes();
    var e := RekeyedServer();
    var later := b.(net := b.net.(now := now + 301 * SECOND));
    var (b1, signers) := GetSigners(e, later);
    assert GetPublicKeyData(e, b1, [1]) == (b1, Ok(([], [])));
    assert AttributeValue(e, b1, OBJ_PRIVATE_KEY, RSA_SIGNER, CKA_MODULUS).1 == [];
    assert [CKA_MODULUS][..0] == [];
  }

  /**
   From any initial state: after the EC point has been read and 301 s have passed, the signer is listed with an
   RSA key and the server would answer with its certificate, yet CKA_MODULUS is read as the empty string.
   */
  lemma EmptyModulusRun(st: State)
    requires IsInitial(st)
    ensures var e := RekeyedServer();
            var atPoint, atModulus := Run(e, st, Rekeying()[..2]), Run(e, st, Rekeying()[..4]);
            && Step(e, atPoint, Rekeying()[2]).1 == Values([Attribute(CKA_EC_POINT, EcPoint(P256, 1, 2))])
            && Step(e, atModulus, Rekeying()[4]).1 == Values([Attribute(CKA_MODULUS, [])])
            && GetSigners(e, atModulus.back).1 == Ok([RSA_SIGNER]) && KeyType(RSA_SIGNER) == CKK_RSA
            && forall k: nat :: k >= |atModulus.back.net.calls| ==>
                 e.answers(k).fetched == Ok(Some([6])) && e.parseCertificate([6]).value.key == Rsa([9], [3])
  {
    hide Step, Run, GetSigners, AttributeValues, KeyType, EcPoint, EcParams;
    var e, ev := RekeyedServer(), Rekeying();
    var now := st.back.net.now;
    KeyTypes();
    RunTwo(e, Run(e, st, ev[..2]), ev[2], ev[3]);
    assert ev[..2] == OpenSlot(0) && ev[..4] == ev[..2] + [ev[2], ev[3]];
    RunConcat(e, st, ev[..2], [ev[2], ev[3]]);
    Opens(e, st, 0);
    var st2 := Run(e, st, ev[..2]);
    ReadsPoint(now);
    PointStep(e, st2, now);
    var b := AttributeValues(e, ListedBack(0, now), OBJ_PRIVATE_KEY, EC_SIGNER, [CKA_EC_POINT]).0;
    ReadsModulus(b, now);
    ModulusStep(e, Run(e, st, ev[..4]));
  }

  /** The steps in terms of the backend. */
  lemma PointStep(e: Env, st2: State, now: int)
    requires st2.initialized && 1 in st2.table.sessions && st2.back == ListedBack(0, now)
    ensures var (b, values) := AttributeValues(e, ListedBack(0, now), OBJ_PRIVATE_KEY, EC_SIGNER, [CKA_EC_POINT]);
            && Step(e, st2, Rekeying()[2]) == (st2.(back := b), Values(values))
            && Step(e, st2.(back := b), Rekeying()[3]).0 ==
               st2.(back := b.(net := b.net.(now := b.net.now + 301 * SECOND)))
  {
    hide AttributeValues;
    assert GetSigners(e, ListedBack(0, now)) == (ListedBack(0, now), Ok([EC_SIGNER]));
  }

  lemma ModulusStep(e: Env, st4: State)
    requires st4.initialized && 1 in st4.table.sessions && GetSigners(e, st4.back).1 == Ok([RSA_SIGNER])
    ensures Step(e, st4, Rekeying()[4]).1 ==
            Values(AttributeValues(e, GetSigners(e, st4.back).0, OBJ_PRIVATE_KEY, RSA_SIGNER, [CKA_MODULUS]).1)
  {
    hide AttributeValues, GetSigners;
  }
}
