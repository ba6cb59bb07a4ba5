/**
 What the record of remote calls says about the caches: every cached signer list, certificate and key
 goes back to a recorded reply, and its expiry to the time of that reply.
 */
module Journal {
  import opened Common
  import opened Errors
  import opened EcKey
  import opened Remote
  import opened Cache
  import opened Signers

  // ------------------------------------------------------------------ reading the record

  /** Calls are only added, and no time passes inside a step. */
  ghost predicate Advances(n: Net, n': Net) {
    n'.now == n.now && n.calls <= n'.calls
  }

  /** A call that brought content. */
  predicate Brings(c: Call) {
    c.ApiCall? && !c.reply.Failed?
  }

  predicate IsList(c: Call) {
    c.ApiCall? && c.reply.Listed?
  }

  predicate IsCert(c: Call, id: Bytes) {
    c.ApiCall? && c.op == GetCertificate(id) && c.reply.Fetched? && c.reply.certificate.Some?
  }

  /** The latest signer list received, and when. */
  function LatestList(calls: seq<Call>): Option<(int, seq<Signer>)> {
    if calls == [] then None
    else
      var c := calls[|calls| - 1];
      if IsList(c) then Some((c.at, c.reply.signers)) else LatestList(calls[..|calls| - 1])
  }

  /** The latest certificate received for a signer, and when. */
  function LatestCert(calls: seq<Call>, id: Bytes): Option<(int, Bytes)> {
    if calls == [] then None
    else
      var c := calls[|calls| - 1];
      if IsCert(c, id) then Some((c.at, c.reply.certificate.value)) else LatestCert(calls[..|calls| - 1], id)
  }

  lemma {:induction false} LatestListKept(calls: seq<Call>, calls': seq<Call>)
    requires calls <= calls' && forall k :: |calls| <= k < |calls'| ==> !IsList(calls'[k])
    ensures LatestList(calls') == LatestList(calls)
  {
    if |calls'| > |calls| {
      LatestListKept(calls, calls'[..|calls'| - 1]);
    } else {
      assert calls' == calls;
    }
  }

  lemma {:induction false} LatestCertKept(calls: seq<Call>, calls': seq<Call>, id: Bytes)
    requires calls <= calls' && forall k :: |calls| <= k < |calls'| ==> !IsCert(calls'[k], id)
    ensures LatestCert(calls', id) == LatestCert(calls, id)
  {
    if |calls'| > |calls| {
      LatestCertKept(calls, calls'[..|calls'| - 1], id);
    } else {
      assert calls' == calls;
    }
  }

  /** The latest list is one of the recorded replies. */
  lemma {:induction false} LatestListRecorded(calls: seq<Call>) returns (k: nat)
    requires LatestList(calls).Some?
    ensures k < |calls| && IsList(calls[k]) && LatestList(calls) == Some((calls[k].at, calls[k].reply.signers))
  {
    var n := |calls| - 1;
    if IsList(calls[n]) {
      k := n;
    } else {
      k := LatestListRecorded(calls[..n]);
    }
  }

  lemma {:induction false} LatestCertRecorded(calls: seq<Call>, id: Bytes) returns (k: nat)
    requires LatestCert(calls, id).Some?
    ensures k < |calls| && IsCert(calls[k], id) && LatestCert(calls, id) == Some((calls[k].at, calls[k].reply.certificate.value))
  {
    var n := |calls| - 1;
    if IsCert(calls[n], id) {
      k := n;
    } else {
      k := LatestCertRecorded(calls[..n], id);
    }
  }

  // ------------------------------------------------------------------ what one operation adds

  /** Nothing came in. */
  ghost predicate Quiet(n: Net, n': Net) {
    Advances(n, n') && forall k :: |n.calls| <= k < |n'.calls| ==> !Brings(n'.calls[k])
  }

  /** Exactly one reply came in, as the last call. */
  ghost predicate BringsLast(n: Net, n': Net, op: Op, reply: Reply) {
    && Advances(n, n') && |n.calls| < |n'.calls| && !reply.Failed? && Answers(op, reply)
    && (var last := n'.calls[|n'.calls| - 1];
        last.ApiCall? && last.at == n.now && last.op == op && last.reply == reply)
    && forall k :: |n.calls| <= k < |n'.calls| - 1 ==> !Brings(n'.calls[k])
  }

  lemma GetTokenQuiet(e: Env, auth: AuthConfig, net: Net)
    ensures Quiet(net, GetToken(e, auth, net).0)
  {
  }

  lemma ReauthenticateQuiet(e: Env, auth: AuthConfig, net: Net)
    ensures Quiet(net, Reauthenticate(e, auth, net).0)
  {
  }

  lemma RetryJournal(e: Env, auth: AuthConfig, net: Net, op: Op)
    ensures var (net', reply) := WithRetryOnAuth(e, auth, net, op);
            if reply.Failed? then Quiet(net, net') else BringsLast(net, net', op, reply)
  {
    hide GetToken, Reauthenticate, ReplyTo;
    var (net1, token) := GetToken(e, auth, net);
    GetTokenQuiet(e, auth, net);
    if token.Ok? {
      var net2 := CallApi(e, net1, token.value, op).0;
      ReauthenticateQuiet(e, auth, net2);
    }
  }

  // ------------------------------------------------------------------ the caches and the record

  function Max0(t: int): int {
    if t < 0 then 0 else t
  }

  /** The cached signer list is the latest one received, and expires its TTL later. */
  ghost predicate ListOk(b: Back) {
    b.signers.entry.Some? ==>
      LatestList(b.net.calls) == Some((b.signers.entry.value.expiresAt - b.signers.ttl, b.signers.entry.value.value))
  }

  /** Every cached certificate is the latest one received for its signer, and expires its TTL later. */
  ghost predicate CertsOk(b: Back) {
    forall id :: id in b.certs.certs ==>
      LatestCert(b.net.calls, id) == Some((b.certs.certs[id].expiresAt - b.certs.ttl, b.certs.certs[id].value))
  }

  /** The key attributes that a certificate yields. */
  predicate KeyOf(e: Env, der: Bytes, pk: PubKeyEntry) {
    var cert := e.parseCertificate(der);
    cert.Some? &&
    match pk
    case RsaEntry(n, x) => cert.value.key.Rsa? && cert.value.key.modulus == n && cert.value.key.exponent == x
    case EcEntry(params, point) =>
      cert.value.key.Ec? && cert.value.key.curve != OtherCurve &&
      params == EcParams(cert.value.key.curve) &&
      point == EcPoint(cert.value.key.curve, cert.value.key.x, cert.value.key.y)
  }

  /** An unexpired entry left by an EC certificate: the guard that GetECPublicKeyData has and GetPublicKeyData lacks. */
  predicate EcEntryCached(b: Back, id: Bytes) {
    var hit := Lookup(b.certs.pubKeys, id, b.net.now);
    hit.Some? && hit.value.EcEntry?
  }

  /** Call `k` brought a certificate for this signer that yields the key. */
  ghost predicate KeySource(e: Env, calls: seq<Call>, id: Bytes, pk: PubKeyEntry, k: int) {
    0 <= k < |calls| && IsCert(calls[k], id) && KeyOf(e, calls[k].reply.certificate.value, pk)
  }

  /** Every cached key comes from a certificate received at most two TTLs before its expiry. */
  ghost predicate KeysOk(e: Env, b: Back) {
    forall id :: id in b.certs.pubKeys ==>
      exists k :: KeySource(e, b.net.calls, id, b.certs.pubKeys[id].value, k) &&
                  b.certs.pubKeys[id].expiresAt <= b.net.calls[k].at + b.certs.ttl + Max0(b.certs.ttl)
  }

  ghost predicate BackOk(e: Env, b: Back) {
    ListOk(b) && CertsOk(b) && KeysOk(e, b)
  }

  lemma KeysKept(e: Env, b: Back, net: Net)
    requires KeysOk(e, b) && b.net.calls <= net.calls
    ensures KeysOk(e, b.(net := net))
  {
    forall id | id in b.certs.pubKeys
      ensures exists k :: KeySource(e, net.calls, id, b.certs.pubKeys[id].value, k) &&
                          b.certs.pubKeys[id].expiresAt <= net.calls[k].at + b.certs.ttl + Max0(b.certs.ttl)
    {
      var k :| KeySource(e, b.net.calls, id, b.certs.pubKeys[id].value, k) &&
               b.certs.pubKeys[id].expiresAt <= b.net.calls[k].at + b.certs.ttl + Max0(b.certs.ttl);
      assert KeySource(e, net.calls, id, b.certs.pubKeys[id].value, k);
    }
  }

  /** Calls that bring neither a signer list nor a certificate leave the caches justified. */
  lemma BackOkNet(e: Env, b: Back, net: Net)
    requires BackOk(e, b) && b.net.calls <= net.calls
    requires forall k :: |b.net.calls| <= k < |net.calls| ==> !IsList(net.calls[k]) && forall id :: !IsCert(net.calls[k], id)
    ensures BackOk(e, b.(net := net)) && LatestList(net.calls) == LatestList(b.net.calls)
  {
    LatestListKept(b.net.calls, net.calls);
    forall id | id in b.certs.certs
      ensures LatestCert(net.calls, id) == LatestCert(b.net.calls, id)
    {
      LatestCertKept(b.net.calls, net.calls, id);
    }
    KeysKept(e, b, net);
  }

  /** What a signer list served from here on satisfies. */
  ghost predicate ListServed(b: Back, signers: seq<Signer>) {
    LatestList(b.net.calls).Some? && LatestList(b.net.calls).value.1 == signers &&
    b.net.now - LatestList(b.net.calls).value.0 <= Max0(b.signers.ttl)
  }

  lemma GetSignersJournal(e: Env, b: Back)
    requires BackOk(e, b)
    ensures var (b', signers) := GetSigners(e, b);
            && BackOk(e, b') && Advances(b.net, b'.net)
            && b'.config == b.config && b'.certs == b.certs && b'.signers.ttl == b.signers.ttl
            && (signers.Ok? ==> ListServed(b', signers.value))
  {
    hide WithRetryOnAuth, KeySource;
    if GetSignersCached(b.signers, b.net.now).None? {
      RetryJournal(e, b.config.auth, b.net, ListSigners);
      var (net, reply) := WithRetryOnAuth(e, b.config.auth, b.net, ListSigners);
      if reply.Failed? {
        BackOkNet(e, b, net);
      } else {
        ListArrives(e, b, net, reply);
      }
    }
  }

  lemma ListArrives(e: Env, b: Back, net: Net, reply: Reply)
    requires BackOk(e, b) && BringsLast(b.net, net, ListSigners, reply)
    ensures var b' := b.(net := net, signers := SetSigners(b.signers, reply.signers, net.now));
            BackOk(e, b') && ListServed(b', reply.signers)
  {
    KeysKept(e, b, net);
    forall id | id in b.certs.certs
      ensures LatestCert(net.calls, id) == LatestCert(b.net.calls, id)
    {
      LatestCertKept(b.net.calls, net.calls, id);
    }
  }

  lemma FindSignerId(signers: seq<Signer>, id: Bytes)
    ensures FindSigner(signers, id).Some? ==> FindSigner(signers, id).value.id == id
  {
  }

  /** A certificate served is the latest one received for the signer, at most its TTL ago. */
  ghost predicate CertServed(b: Back, id: Bytes, der: Bytes) {
    LatestCert(b.net.calls, id).Some? && LatestCert(b.net.calls, id).value.1 == der &&
    b.net.now - LatestCert(b.net.calls, id).value.0 <= Max0(b.certs.ttl)
  }

  lemma CertArrives(e: Env, b: Back, net: Net, id: Bytes, reply: Reply)
    requires BackOk(e, b) && BringsLast(b.net, net, GetCertificate(id), reply) && reply.certificate.Some?
    ensures var b' := b.(net := net, certs := SetCert(b.certs, id, reply.certificate.value, net.now));
            BackOk(e, b') && CertServed(b', id, reply.certificate.value)
  {
    LatestListKept(b.net.calls, net.calls);
    KeysKept(e, b, net);
    forall id' | id' in b.certs.certs && id' != id
      ensures LatestCert(net.calls, id') == LatestCert(b.net.calls, id')
    {
      LatestCertKept(b.net.calls, net.calls, id');
    }
  }

  lemma GetCertificateJournal(e: Env, b: Back, id: Bytes)
    requires BackOk(e, b)
    ensures var (b', der) := GetCertificateData(e, b, id);
            && BackOk(e, b') && Advances(b.net, b'.net)
            && b'.config == b.config && b'.signers.ttl == b.signers.ttl && b'.certs.ttl == b.certs.ttl
            && b'.certs.pubKeys == b.certs.pubKeys
            && (der.Ok? ==> CertServed(b', id, der.value))
  {
    hide WithRetryOnAuth, KeySource, GetSigners, BackOk;
    if Lookup(b.certs.certs, id, b.net.now).None? {
      GetSignersJournal(e, b);
      var signers := GetSigners(e, b).1;
      if signers.Ok? {
        FindSignerId(signers.value, id);
      }
      var (b1, signer) := GetSignerBySignerID(e, b, id);
      if signer.Ok? {
        RetryJournal(e, b1.config.auth, b1.net, GetCertificate(id));
        var (net, reply) := WithRetryOnAuth(e, b1.config.auth, b1.net, GetCertificate(id));
        if reply.Failed? || reply.certificate.None? {
          BackOkNet(e, b1, net);
        } else {
          CertArrives(e, b1, net, id, reply);
        }
      }
    } else {
      CertHit(e, b, id);
    }
  }

  lemma CertHit(e: Env, b: Back, id: Bytes)
    requires BackOk(e, b) && Lookup(b.certs.certs, id, b.net.now).Some?
    ensures CertServed(b, id, Lookup(b.certs.certs, id, b.net.now).value)
  {
  }

  /** Storing a key derived from a certificate just served. */
  lemma KeyStored(e: Env, b: Back, id: Bytes, der: Bytes, pk: PubKeyEntry)
    requires BackOk(e, b) && CertServed(b, id, der) && KeyOf(e, der, pk)
    ensures BackOk(e, b.(certs := SetPubKey(b.certs, id, pk, b.net.now)))
  {
    hide KeyOf;
    var k := LatestCertRecorded(b.net.calls, id);
    assert KeySource(e, b.net.calls, id, pk, k);
  }

  lemma GetPublicKeyJournal(e: Env, b: Back, id: Bytes)
    requires BackOk(e, b)
    ensures var b' := GetPublicKeyData(e, b, id).0;
            && BackOk(e, b') && Advances(b.net, b'.net)
            && b'.config == b.config && b'.signers.ttl == b.signers.ttl && b'.certs.ttl == b.certs.ttl
  {
    hide BackOk, GetCertificateData, CertServed;
    GetCertificateJournal(e, b, id);
    var (b1, der) := GetCertificateData(e, b, id);
    if der.Ok? {
      var cert := e.parseCertificate(der.value);
      if cert.Some? && cert.value.key.Rsa? {
        KeyStored(e, b1, id, der.value, RsaEntry(cert.value.key.modulus, cert.value.key.exponent));
      }
    }
  }

  lemma GetECPublicKeyJournal(e: Env, b: Back, id: Bytes)
    requires BackOk(e, b)
    ensures var b' := GetECPublicKeyData(e, b, id).0;
            && BackOk(e, b') && Advances(b.net, b'.net)
            && b'.config == b.config && b'.signers.ttl == b.signers.ttl && b'.certs.ttl == b.certs.ttl
  {
    hide BackOk, GetCertificateData, CertServed, EcParams, EcPoint;
    GetCertificateJournal(e, b, id);
    var (b1, der) := GetCertificateData(e, b, id);
    if der.Ok? {
      var cert := e.parseCertificate(der.value);
      if cert.Some? && cert.value.key.Ec? && cert.value.key.curve != OtherCurve {
        var key := cert.value.key;
        KeyStored(e, b1, id, der.value, EcEntry(EcParams(key.curve), EcPoint(key.curve, key.x, key.y)));
      }
    }
  }
}
