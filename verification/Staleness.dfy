/** How old a served signer list, certificate or key can be, over every run. */
module Staleness {
  import opened Common
  import opened Errors
  import EcKey
  import opened Slots
  import opened Remote
  import opened Cache
  import opened Signers
  import opened Requests
  import opened Attributes
  import opened Machine
  import opened Journal

  // ------------------------------------------------------------------ signing and provenance

  /** The k-th call obtained `sig` for the request of `mech` and `data`, from the signer then listed at `keySlot`. */
  ghost predicate ObtainedBy(e: Env, calls: seq<Call>, k: int, mech: nat, keySlot: nat, data: Bytes, sig: Bytes) {
    && 0 <= k < |calls| && calls[k].ApiCall? && calls[k].op.Sign?
    && calls[k].reply.Signed? && calls[k].reply.signature.Some? && calls[k].reply.signature.value == sig
    && RequestFor(e, mech, data, calls[k].op.request)
    && (var list := LatestList(calls[..k]);
        list.Some? && keySlot < |list.value.1| && list.value.1[keySlot].id == calls[k].op.signerID)
  }

  /** `sig` is a signature the server made, no earlier than call `since`, for this mechanism, key slot and data. */
  ghost predicate Justified(e: Env, calls: seq<Call>, since: nat, mech: nat, keySlot: nat, data: Bytes, sig: Bytes) {
    exists k :: since <= k && ObtainedBy(e, calls, k, mech, keySlot, data, sig)
  }

  lemma JustifiedKept(e: Env, calls: seq<Call>, calls': seq<Call>, since: nat, mech: nat, keySlot: nat, data: Bytes, sig: Bytes)
    requires Justified(e, calls, since, mech, keySlot, data, sig) && calls <= calls'
    ensures Justified(e, calls', since, mech, keySlot, data, sig)
  {
    hide RequestFor, LatestList;
    var k :| since <= k && ObtainedBy(e, calls, k, mech, keySlot, data, sig);
    assert calls'[..k] == calls[..k];
    assert ObtainedBy(e, calls', k, mech, keySlot, data, sig);
  }

  lemma DenialQuiet(e: Env, config: Config, net: Net, signer: Signer, signData: Bytes, error: Error)
    ensures Quiet(net, ReportApprovalDenial(e, config, net, signer, signData, error))
  {
    hide GetToken, BuildApproval, WantsApproval;
    GetTokenQuiet(e, config.auth, net);
  }

  /** The signature returned is the answer to one of the calls added; `since` is any earlier point of the record. */
  lemma SignInternalJournal(e: Env, b: Back, mech: nat, keyIndex: nat, data: Bytes, since: nat)
    requires BackOk(e, b) && since <= |b.net.calls|
    ensures var (b', sig) := SignInternal(e, b, mech, keyIndex, data);
            && BackOk(e, b') && Advances(b.net, b'.net)
            && b'.config == b.config && b'.signers.ttl == b.signers.ttl && b'.certs.ttl == b.certs.ttl
            && (sig.Ok? ==> Justified(e, b'.net.calls, since, mech, keyIndex, data, sig.value))
  {
    hide BackOk, GetSigners, WithRetryOnAuth, BuildRequest, ReportApprovalDenial, LatestList, RequestFor;
    GetSignersJournal(e, b);
    var (b1, signer) := GetSignerBySlot(e, b, keyIndex);
    var request := BuildRequest(e, mech, data);
    if signer.Ok? && request.Ok? {
      BuildsExactly(e, mech, data, request.value);
      var op := Sign(signer.value.id, request.value);
      RetryJournal(e, b1.config.auth, b1.net, op);
      var (net, reply) := WithRetryOnAuth(e, b1.config.auth, b1.net, op);
      BackOkNet(e, b1, net);
      if reply.Failed? {
        DenialQuiet(e, b1.config, net, signer.value, request.value.data, reply.error);
        BackOkNet(e, b1.(net := net), ReportApprovalDenial(e, b1.config, net, signer.value, request.value.data, reply.error));
      } else if reply.signature.Some? {
        var k := |net.calls| - 1;
        LatestListKept(b1.net.calls, net.calls[..k]);
        assert ListServed(b1, GetSigners(e, b).1.value);
        assert ObtainedBy(e, net.calls, k, mech, keyIndex, data, reply.signature.value);
      }
    }
  }

  // ------------------------------------------------------------------ every step keeps the caches justified

  /** What every operation on the backend does to it. */
  ghost predicate Progress(e: Env, b: Back, b': Back) {
    BackOk(e, b') && Advances(b.net, b'.net) &&
    b'.config.signerTTLSeconds == b.config.signerTTLSeconds && b'.config.certTTLSeconds == b.config.certTTLSeconds &&
    b'.signers.ttl == b.signers.ttl && b'.certs.ttl == b.certs.ttl
  }

  lemma AttributeProgress(e: Env, b: Back, objType: nat, signer: Signer, typ: nat)
    requires BackOk(e, b)
    ensures Progress(e, b, AttributeValue(e, b, objType, signer, typ).0)
  {
    hide BackOk, GetCertificateData, GetPublicKeyData, GetECPublicKeyData, FixedAttribute, KeyType;
    GetCertificateJournal(e, b, signer.id);
    GetPublicKeyJournal(e, b, signer.id);
    GetECPublicKeyJournal(e, b, signer.id);
  }

  lemma {:induction false} AttributesProgress(e: Env, b: Back, objType: nat, signer: Signer, types: seq<nat>)
    requires BackOk(e, b)
    ensures Progress(e, b, AttributeValues(e, b, objType, signer, types).0)
  {
    hide BackOk, AttributeValue;
    if types != [] {
      var front := types[..|types| - 1];
      AttributesProgress(e, b, objType, signer, front);
      AttributeProgress(e, AttributeValues(e, b, objType, signer, front).0, objType, signer, types[|types| - 1]);
    }
  }

  lemma MatchesProgress(e: Env, b: Back, slot: nat, f: Filter)
    requires BackOk(e, b)
    ensures Progress(e, b, MatchesSigner(e, b, slot, f).0)
    ensures Progress(e, b, MatchesSubject(e, b, slot, f).0)
  {
    hide BackOk, GetSigners, GetCertificateData, Truncate;
    GetSignersJournal(e, b);
    var (b1, signer) := GetSignerBySlot(e, b, slot);
    if signer.Ok? {
      GetCertificateJournal(e, b1, signer.value.id);
    }
  }

  lemma MatchingObjectsProgress(e: Env, b: Back, slot: nat, template: seq<Attribute>)
    requires BackOk(e, b)
    ensures Progress(e, b, MatchingObjects(e, b, slot, template).0)
  {
    hide BackOk, MatchesSigner, MatchesSubject, FilterOf;
    var f := FilterOf(template);
    MatchesProgress(e, b, slot, f);
    MatchesProgress(e, MatchesSigner(e, b, slot, f).0, slot, f);
  }

  lemma NetProgress(e: Env, b: Back, net: Net)
    requires BackOk(e, b) && Quiet(b.net, net)
    ensures Progress(e, b, b.(net := net))
  {
    hide BackOk;
    BackOkNet(e, b, net);
  }

  lemma LoginProgress(e: Env, b: Back, pin: string)
    requires BackOk(e, b)
    ensures Progress(e, b, LoginBack(e, b, pin).0)
  {
    hide SplitClientCreds, LatestList, LatestCert, KeySource;
    var b' := LoginBack(e, b, pin).0;
    assert Quiet(b.net, b'.net);
    NetProgress(e, b, b'.net);
    assert b' == b.(net := b'.net, config := b'.config);
  }

  lemma OpenProgress(e: Env, st: State, slot: nat)
    requires BackOk(e, st.back)
    ensures Progress(e, st.back, OpenSession(e, st, slot).0.back)
  {
    hide BackOk, GetSigners, Open, SetLoggedIn;
    GetSignersJournal(e, st.back);
    var b1 := GetSignerBySlot(e, st.back, slot).0;
    NetProgress(e, b1, AutoLogin(e, b1).0.net);
  }

  lemma SignCallProgress(e: Env, st: State, h: nat, data: Option<Bytes>, hasBuffer: bool, room: nat)
    requires BackOk(e, st.back)
    ensures Progress(e, st.back, SignCall(e, st, h, data, hasBuffer, room).0.back)
  {
    hide BackOk, GetSigners, SignInternal, Contains;
    GetSignersJournal(e, st.back);
    if h in st.table.sessions {
      var s := st.table.sessions[h];
      SignInternalJournal(e, st.back, s.signMech, s.signKeyIndex, if data.Some? then data.value else s.signBuffer, 0);
    }
  }

  lemma ActiveStepProgress(e: Env, st: State, ev: Event)
    requires BackOk(e, st.back)
    ensures Progress(e, st.back, ActiveStep(e, st, ev).0.back)
  {
    hide BackOk, GetSigners, AttributeValues, OpenSession, LoginBack, MatchingObjects, ParseObjectHandle;
    match ev
    case EvSlotQuery(_) => GetSignersJournal(e, st.back);
    case EvOpenSession(slot) => OpenProgress(e, st, slot);
    case EvLogin(_, pin) => LoginProgress(e, st.back, pin);
    case EvFindObjectsInit(h, template) =>
      if h in st.table.sessions {
        MatchingObjectsProgress(e, st.back, st.table.sessions[h].slotID, template);
      }
    case EvGetAttributeValue(_, obj, types) =>
      GetSignersJournal(e, st.back);
      var (objType, slot) := ParseObjectHandle(obj);
      var (b1, signer) := GetSignerBySlot(e, st.back, slot);
      if signer.Ok? {
        AttributesProgress(e, b1, objType, signer.value, types);
      }
    case _ =>
  }

  /** Whatever happens, calls are only added, the caches stay justified and run with the configured TTLs. */
  ghost predicate Sound(e: Env, st: State) {
    BackOk(e, st.back) &&
    (st.initialized ==>
       && st.back.signers.ttl == TTL(st.back.config.signerTTLSeconds, 300)
       && st.back.certs.ttl == TTL(st.back.config.certTTLSeconds, 3600))
  }

  lemma InitializeSound(e: Env, st: State, config: Option<Config>, clientOk: bool)
    requires Sound(e, st)
    ensures var st' := Initialize(e, st, config, clientOk).0; Sound(e, st') && st.back.net.calls <= st'.back.net.calls
  {
    hide KeySource, LatestList, LatestCert;
    KeysKept(e, st.back, st.back.net);
  }

  lemma StepSound(e: Env, st: State, ev: Event)
    requires Sound(e, st)
    ensures var st' := Step(e, st, ev).0; Sound(e, st') && st.back.net.calls <= st'.back.net.calls
  {
    hide BackOk, ActiveStep, SignCall, GetSigners, Initialize, TTL;
    match ev
    case EvTick(_) => BackOkNet(e, st.back, Step(e, st, ev).0.back.net);
    case EvInitialize(config, clientOk) => InitializeSound(e, st, config, clientOk);
    case EvSign(h, data, hasBuffer, room) =>
      if st.initialized && data.Some? && room.Some? { SignCallProgress(e, st, h, data, hasBuffer, room.value); SignCallStaysInitialized(e, st, h, data, hasBuffer, room.value); }
    case EvSignFinal(h, hasBuffer, room) =>
      if st.initialized && room.Some? { SignCallProgress(e, st, h, None, hasBuffer, room.value); SignCallStaysInitialized(e, st, h, None, hasBuffer, room.value); }
    case EvGetSlotList(_, _) => GetSignersJournal(e, st.back);
    case _ => if st.initialized { ActiveStepProgress(e, st, ev); }
  }

  lemma SignCallStaysInitialized(e: Env, st: State, h: nat, data: Option<Bytes>, hasBuffer: bool, room: nat)
    ensures SignCall(e, st, h, data, hasBuffer, room).0.initialized == st.initialized
  {
    hide SignInternal, GetSigners;
  }

  lemma {:induction false} RunSound(e: Env, st: State, events: seq<Event>)
    requires IsInitial(st)
    ensures Sound(e, Run(e, st, events))
  {
    hide Step, BackOk;
    if events != [] {
      RunSound(e, st, events[..|events| - 1]);
      StepSound(e, Run(e, st, events[..|events| - 1]), events[|events| - 1]);
    } else {
      InitialSound(e, st);
    }
  }

  lemma InitialSound(e: Env, st: State)
    requires IsInitial(st)
    ensures Sound(e, st)
  {
  }

  // ------------------------------------------------------------------ the bounds

  /** A TTL in nanoseconds: zero stands for the default, a negative one expires at once. */
  function Lifetime(ttlSeconds: int, default: int): int {
    if ttlSeconds == 0 then default * 1_000_000_000 else if ttlSeconds < 0 then 0 else ttlSeconds * 1_000_000_000
  }

  /** A signer list served in any reachable state is the latest received, at most one TTL ago. */
  lemma SignerListIsFresh(e: Env, st: State, events: seq<Event>)
    requires IsInitial(st) && Run(e, st, events).initialized
    ensures var b := Run(e, st, events).back;
            var (b', signers) := GetSigners(e, b);
            signers.Ok? ==>
              && LatestList(b'.net.calls).Some? && LatestList(b'.net.calls).value.1 == signers.value
              && b.net.now - LatestList(b'.net.calls).value.0 <= Lifetime(b.config.signerTTLSeconds, 300)
  {
    hide Run, GetSigners, BackOk;
    RunSound(e, st, events);
    GetSignersJournal(e, Run(e, st, events).back);
  }

  /** A certificate served in any reachable state is the latest received for its signer, at most one TTL ago. */
  lemma CertificateIsFresh(e: Env, st: State, events: seq<Event>, id: Bytes)
    requires IsInitial(st) && Run(e, st, events).initialized
    ensures var b := Run(e, st, events).back;
            var (b', der) := GetCertificateData(e, b, id);
            der.Ok? ==>
              && LatestCert(b'.net.calls, id).Some? && LatestCert(b'.net.calls, id).value.1 == der.value
              && b.net.now - LatestCert(b'.net.calls, id).value.0 <= Lifetime(b.config.certTTLSeconds, 3600)
  {
    hide Run, GetCertificateData, BackOk;
    RunSound(e, st, events);
    GetCertificateJournal(e, Run(e, st, events).back, id);
  }

  /** The certificate a served key came from, and its age. */
  ghost predicate KeyFrom(e: Env, b: Back, id: Bytes, pk: PubKeyEntry, bound: int) {
    exists k :: KeySource(e, b.net.calls, id, pk, k) && b.net.now - b.net.calls[k].at <= bound
  }

  lemma KeyHit(e: Env, b: Back, id: Bytes)
    requires BackOk(e, b) && Lookup(b.certs.pubKeys, id, b.net.now).Some?
    ensures KeyFrom(e, b, id, Lookup(b.certs.pubKeys, id, b.net.now).value, 2 * Max0(b.certs.ttl))
  {
    hide KeyOf;
    var entry := b.certs.pubKeys[id];
    var k :| KeySource(e, b.net.calls, id, entry.value, k) &&
             entry.expiresAt <= b.net.calls[k].at + b.certs.ttl + Max0(b.certs.ttl);
    assert KeySource(e, b.net.calls, id, entry.value, k);
  }

  lemma KeyMiss(e: Env, b: Back, id: Bytes, der: Bytes, pk: PubKeyEntry)
    requires CertServed(b, id, der) && KeyOf(e, der, pk)
    ensures KeyFrom(e, b, id, pk, Max0(b.certs.ttl))
  {
    hide KeyOf;
    var k := LatestCertRecorded(b.net.calls, id);
    assert KeySource(e, b.net.calls, id, pk, k);
  }

  lemma KeyFromWeaker(e: Env, b: Back, b': Back, id: Bytes, pk: PubKeyEntry, bound: int, bound': int)
    requires KeyFrom(e, b, id, pk, bound) && bound <= bound' && b'.net == b.net
    ensures KeyFrom(e, b', id, pk, bound')
  {
    hide KeySource;
  }

  /** EC attributes served come from a certificate received at most two TTLs ago. */
  lemma ECKeyServed(e: Env, b: Back, id: Bytes)
    requires BackOk(e, b)
    ensures var (b', key) := GetECPublicKeyData(e, b, id);
            key.Ok? ==> KeyFrom(e, b', id, EcEntry(key.value.0, key.value.1), 2 * Max0(b.certs.ttl))
  {
    hide GetCertificateData, BackOk, KeyFrom, CertServed, EcKey.EcParams, EcKey.EcPoint;
    var hit := Lookup(b.certs.pubKeys, id, b.net.now);
    if hit.Some? && hit.value.EcEntry? {
      KeyHit(e, b, id);
    } else {
      GetCertificateJournal(e, b, id);
      var (b1, der) := GetCertificateData(e, b, id);
      var (b', key) := GetECPublicKeyData(e, b, id);
      if key.Ok? {
        var pk := EcEntry(key.value.0, key.value.1);
        KeyMiss(e, b1, id, der.value, pk);
        KeyFromWeaker(e, b1, b', id, pk, Max0(b.certs.ttl), 2 * Max0(b.certs.ttl));
      }
    }
  }

  /** EC attributes served in any reachable state come from a certificate received at most two TTLs ago. */
  lemma ECKeyIsFresh(e: Env, st: State, events: seq<Event>, id: Bytes)
    requires IsInitial(st) && Run(e, st, events).initialized
    ensures var b := Run(e, st, events).back;
            var (b', key) := GetECPublicKeyData(e, b, id);
            key.Ok? ==> KeyFrom(e, b', id, EcEntry(key.value.0, key.value.1), 2 * Lifetime(b.config.certTTLSeconds, 3600))
  {
    hide Run, GetECPublicKeyData, BackOk, KeyFrom;
    RunSound(e, st, events);
    ECKeyServed(e, Run(e, st, events).back, id);
  }

  /** RSA attributes served come from such a certificate, unless an EC entry is served as an empty key. */
  lemma RSAKeyServed(e: Env, b: Back, id: Bytes)
    requires BackOk(e, b)
    ensures var (b', key) := GetPublicKeyData(e, b, id);
            if EcEntryCached(b, id) then key == Ok(([], []))
            else key.Ok? ==> KeyFrom(e, b', id, RsaEntry(key.value.0, key.value.1), 2 * Max0(b.certs.ttl))
  {
    hide GetCertificateData, BackOk, KeyFrom, CertServed;
    var (b', key) := GetPublicKeyData(e, b, id);
    if Lookup(b.certs.pubKeys, id, b.net.now).Some? {
      KeyHit(e, b, id);
    } else {
      GetCertificateJournal(e, b, id);
      var (b1, der) := GetCertificateData(e, b, id);
      if key.Ok? {
        var pk := RsaEntry(key.value.0, key.value.1);
        KeyMiss(e, b1, id, der.value, pk);
        KeyFromWeaker(e, b1, b', id, pk, Max0(b.certs.ttl), 2 * Max0(b.certs.ttl));
      }
    }
  }

  /**
   RSA attributes served in any reachable state come from an RSA certificate received at most two TTLs ago
   exactly when no EC entry is cached: the lookup does not compare the key's kind, and such an entry is
   served as an empty modulus and exponent.
   */
  lemma RSAKeyIsFresh(e: Env, st: State, events: seq<Event>, id: Bytes)
    requires IsInitial(st) && Run(e, st, events).initialized
    ensures var b := Run(e, st, events).back;
            var (b', key) := GetPublicKeyData(e, b, id);
            && (key.Ok? ==>
                  (KeyFrom(e, b', id, RsaEntry(key.value.0, key.value.1), 2 * Lifetime(b.config.certTTLSeconds, 3600))
                   <==> !EcEntryCached(b, id)))
            && (EcEntryCached(b, id) ==> key == Ok(([], [])))
  {
    hide Run, GetPublicKeyData, BackOk, KeyFrom, EcEntryCached;
    RunSound(e, st, events);
    var b := Run(e, st, events).back;
    RSAKeyServed(e, b, id);
    NoEmptyModulus(e, GetPublicKeyData(e, b, id).0, id, 2 * Max0(b.certs.ttl));
  }

  /** A certified RSA key is never empty. */
  lemma NoEmptyModulus(e: Env, b: Back, id: Bytes, bound: int)
    ensures !KeyFrom(e, b, id, RsaEntry([], []), bound)
  {
  }
}
