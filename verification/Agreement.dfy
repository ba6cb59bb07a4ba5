/** Signing a hash and having the module hash are the same request (backend.go, lines 999-1050 and 1231-1245). */
module Agreement {
  import opened Common
  import opened Errors
  import opened Der
  import opened Mechanism
  import opened Slots
  import opened Remote
  import opened Signers
  import opened Machine

  /** The one thing assumed of the hash functions: the length of a digest. */
  ghost predicate DigestLengths(e: Env) {
    forall hash, message :: |e.digest(hash, message)| == DigestLen(hash)
  }

  function HashingRsa(hash: Hash): nat {
    match hash
    case Sha256 => CKM_SHA256_RSA_PKCS
    case Sha384 => CKM_SHA384_RSA_PKCS
    case Sha512 => CKM_SHA512_RSA_PKCS
  }

  function HashingEcdsa(hash: Hash): nat {
    match hash
    case Sha256 => CKM_ECDSA_SHA256
    case Sha384 => CKM_ECDSA_SHA384
    case Sha512 => CKM_ECDSA_SHA512
  }

  /** CKM_RSA_PKCS over the DigestInfo of a message's hash is the hashing mechanism over the message. */
  lemma RawRsaAgrees(e: Env, hash: Hash, message: Bytes, info: Bytes, parameters: Bytes, extra: Bytes)
    requires IsDigestInfo(info, hash, parameters, e.digest(hash, message), extra)
    ensures BuildRequest(e, CKM_RSA_PKCS, info) == BuildRequest(e, HashingRsa(hash), message)
    ensures BuildRequest(e, CKM_RSA_PKCS, info).Ok?
  {
    hide ParseDigestInfo, IsDigestInfo;
    DigestInfoRoundTrip(info, hash, parameters, e.digest(hash, message), extra);
  }

  /** Conversely, raw RSA builds that request only from such a DigestInfo. */
  lemma RawRsaOnlyFromDigestInfo(e: Env, hash: Hash, message: Bytes, info: Bytes)
    requires BuildRequest(e, CKM_RSA_PKCS, info) == BuildRequest(e, HashingRsa(hash), message)
    ensures exists parameters, extra :: IsDigestInfo(info, hash, parameters, e.digest(hash, message), extra)
  {
    hide ParseDigestInfo, IsDigestInfo;
    assert BuildRequest(e, HashingRsa(hash), message).Ok?;
    DigestInfoLanguage(info, hash, e.digest(hash, message));
  }

  /** CKM_ECDSA over a message's hash is the hashing mechanism over the message. */
  lemma RawEcdsaAgrees(e: Env, hash: Hash, message: Bytes)
    requires DigestLengths(e)
    ensures BuildRequest(e, CKM_ECDSA, e.digest(hash, message)) == BuildRequest(e, HashingEcdsa(hash), message)
  {
    assert |e.digest(hash, message)| == DigestLen(hash);
  }

  /** A state in which only the mechanism of one session's operation differs. */
  function WithMechanism(st: State, h: nat, mech: nat): State
    requires h in st.table.sessions
  {
    st.(table := Put(st.table, h, st.table.sessions[h].(signMech := mech)))
  }

  lemma SameRequestComputesSame(e: Env, st: State, h: nat, mech: nat, data: Bytes, data': Bytes)
    requires h in st.table.sessions && st.table.sessions[h].signActive && st.table.sessions[h].cachedSignature.None?
    requires BuildRequest(e, st.table.sessions[h].signMech, data) == BuildRequest(e, mech, data')
    ensures var (st1, r1) := SignOrReplay(e, st, h, Some(data));
            var (st2, r2) := SignOrReplay(e, WithMechanism(st, h, mech), h, Some(data'));
            r2 == r1 && h in st1.table.sessions && h in st2.table.sessions &&
            st2 == WithMechanism(st1, h, st2.table.sessions[h].signMech)
  {
    hide BuildRequest, GetSigners, WithRetryOnAuth, ReportApprovalDenial;
    var s := st.table.sessions[h];
    assert SignInternal(e, st.back, s.signMech, s.signKeyIndex, data) == SignInternal(e, st.back, mech, s.signKeyIndex, data');
    SameComputation(e, st, h, mech, data, data');
  }

  lemma SameComputation(e: Env, st: State, h: nat, mech: nat, data: Bytes, data': Bytes)
    requires h in st.table.sessions && st.table.sessions[h].signActive && st.table.sessions[h].cachedSignature.None?
    requires var s := st.table.sessions[h];
             SignInternal(e, st.back, s.signMech, s.signKeyIndex, data) == SignInternal(e, st.back, mech, s.signKeyIndex, data')
    ensures var (st1, r1) := SignOrReplay(e, st, h, Some(data));
            var (st2, r2) := SignOrReplay(e, WithMechanism(st, h, mech), h, Some(data'));
            r2 == r1 && h in st1.table.sessions && h in st2.table.sessions &&
            st2 == WithMechanism(st1, h, st2.table.sessions[h].signMech)
  {
    hide SignInternal;
    var st1 := SignOrReplay(e, st, h, Some(data)).0;
    var st2 := SignOrReplay(e, WithMechanism(st, h, mech), h, Some(data')).0;
    assert st2.table.sessions == st1.table.sessions[h := st2.table.sessions[h]];
  }

  /** When the requests agree, C_Sign makes the same calls, returns the same and leaves the same sessions behind. */
  lemma SameRequestSameCall(e: Env, st: State, h: nat, mech: nat, data: Bytes, data': Bytes, room: nat)
    requires h in st.table.sessions && st.table.sessions[h].signActive && st.table.sessions[h].cachedSignature.None?
    requires BuildRequest(e, st.table.sessions[h].signMech, data) == BuildRequest(e, mech, data')
    ensures var (st1, out1) := SignCall(e, st, h, Some(data), true, room);
            var (st2, out2) := SignCall(e, WithMechanism(st, h, mech), h, Some(data'), true, room);
            && out2 == out1 && h in st1.table.sessions && h in st2.table.sessions
            && st2 == WithMechanism(st1, h, st2.table.sessions[h].signMech)
            && (out1.rv == OK ==> st2 == st1)
  {
    hide BuildRequest, SignOrReplay;
    SameRequestComputesSame(e, st, h, mech, data, data');
    var (st1, r) := SignOrReplay(e, st, h, Some(data));
    var st2 := SignOrReplay(e, WithMechanism(st, h, mech), h, Some(data')).0;
    var st1' := Deliver(st1, h, r, room).0;
    var st2' := Deliver(st2, h, r, room).0;
    assert st2'.table.sessions == st1'.table.sessions[h := st2'.table.sessions[h]];
  }
}
