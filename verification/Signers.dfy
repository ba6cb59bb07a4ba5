/** Signers, certificates, keys and signing requests, seen from the value side (backend.go). */
module Signers {
  import opened Common
  import opened Errors
  import opened Capture
  import opened Mechanism
  import opened EcKey
  import opened Slots
  import opened Remote
  import opened Cache

  datatype ApprovalConfig = ApprovalConfig(
    signingCount: int, signingDuration: string, excludeScopeFields: seq<string>, ipAddress: string)
  {
    predicate Configured() {
      signingCount != 0 || signingDuration != ""
    }
  }

  datatype Config = Config(auth: AuthConfig, signerTTLSeconds: int, certTTLSeconds: int, approval: ApprovalConfig)

  /** The backend without its sessions. */
  datatype Back = Back(config: Config, net: Net, signers: SignerCacheState, certs: CertCacheState)

  // ------------------------------------------------------------------ signers (lines 212-240, 823-834)

  function GetSigners(e: Env, b: Back): (Back, Result<seq<Signer>>) {
    var hit := GetSignersCached(b.signers, b.net.now);
    if hit.Some? then (b, Ok(hit.value))
    else
      var (net, reply) := WithRetryOnAuth(e, b.config.auth, b.net, ListSigners);
      if reply.Failed? then (b.(net := net), Err(reply.error))
      else (b.(net := net, signers := SetSigners(b.signers, reply.signers, net.now)), Ok(reply.signers))
  }

  function GetSignerBySlot(e: Env, b: Back, slotIndex: nat): (Back, Result<Signer>) {
    var (b1, signers) := GetSigners(e, b);
    if signers.Err? then (b1, Err(signers.error))
    else if slotIndex >= |signers.value| then (b1, Err(SlotIDInvalid))
    else (b1, Ok(signers.value[slotIndex]))
  }

  /** The first signer with this id. */
  function FindSigner(signers: seq<Signer>, id: Bytes): Option<Signer> {
    if signers == [] then None
    else if signers[0].id == id then Some(signers[0])
    else FindSigner(signers[1..], id)
  }

  function GetSignerBySignerID(e: Env, b: Back, id: Bytes): (Back, Result<Signer>) {
    var (b1, signers) := GetSigners(e, b);
    if signers.Err? then (b1, Err(signers.error))
    else
      var found := FindSigner(signers.value, id);
      (b1, if found.Some? then Ok(found.value) else Err(SignerNotFound))
  }

  // ------------------------------------------------------------------ certificates and keys (lines 790-945)

  function GetCertificateData(e: Env, b: Back, id: Bytes): (Back, Result<Bytes>) {
    var hit := Lookup(b.certs.certs, id, b.net.now);
    if hit.Some? then (b, Ok(hit.value))
    else
      var (b1, signer) := GetSignerBySignerID(e, b, id);
      if signer.Err? then (b1, Err(signer.error))
      else if signer.value.certificateID == "" then (b1, Err(NoCertificate))
      else
        var (net, reply) := WithRetryOnAuth(e, b1.config.auth, b1.net, GetCertificate(signer.value.id));
        var b2 := b1.(net := net);
        if reply.Failed? then (b2, Err(reply.error))
        else if reply.certificate.None? then (b2, Err(UndecodableCertificate))
        else (b2.(certs := SetCert(b2.certs, id, reply.certificate.value, net.now)), Ok(reply.certificate.value))
  }

  function GetPublicKeyData(e: Env, b: Back, id: Bytes): (Back, Result<(Bytes, Bytes)>) {
    var hit := Lookup(b.certs.pubKeys, id, b.net.now);
    if hit.Some? then
      (b, Ok(if hit.value.RsaEntry? then (hit.value.modulus, hit.value.exponent) else ([], [])))
    else
      var (b1, der) := GetCertificateData(e, b, id);
      if der.Err? then (b1, Err(der.error))
      else
        var cert := e.parseCertificate(der.value);
        if cert.None? then (b1, Err(UndecodableCertificate))
        else if !cert.value.key.Rsa? then (b1, Err(WrongKeyType))
        else
          var (n, x) := (cert.value.key.modulus, cert.value.key.exponent);
          (b1.(certs := SetPubKey(b1.certs, id, RsaEntry(n, x), b1.net.now)), Ok((n, x)))
  }

  function GetECPublicKeyData(e: Env, b: Back, id: Bytes): (Back, Result<(Bytes, Bytes)>) {
    var hit := Lookup(b.certs.pubKeys, id, b.net.now);
    if hit.Some? && hit.value.EcEntry? then (b, Ok((hit.value.ecParams, hit.value.ecPoint)))
    else
      var (b1, der) := GetCertificateData(e, b, id);
      if der.Err? then (b1, Err(der.error))
      else
        var cert := e.parseCertificate(der.value);
        if cert.None? then (b1, Err(UndecodableCertificate))
        else if !cert.value.key.Ec? || cert.value.key.curve == OtherCurve then (b1, Err(WrongKeyType))
        else
          var key := cert.value.key;
          var (params, point) := (EcParams(key.curve), EcPoint(key.curve, key.x, key.y));
          (b1.(certs := SetPubKey(b1.certs, id, EcEntry(params, point), b1.net.now)), Ok((params, point)))
  }

  // ------------------------------------------------------------------ signing (lines 999-1136)

  function HashDataForMechanism(e: Env, mech: nat, data: Bytes): Bytes {
    if mech in {CKM_SHA256_RSA_PKCS, CKM_SHA256_RSA_PKCS_PSS, CKM_ECDSA_SHA256} then e.digest(Sha256, data)
    else if mech in {CKM_SHA384_RSA_PKCS, CKM_SHA384_RSA_PKCS_PSS, CKM_ECDSA_SHA384} then e.digest(Sha384, data)
    else if mech in {CKM_SHA512_RSA_PKCS, CKM_SHA512_RSA_PKCS_PSS, CKM_ECDSA_SHA512} then e.digest(Sha512, data)
    else data
  }

  /** The request for a mechanism and the data given to it. */
  function BuildRequest(e: Env, mech: nat, data: Bytes): Result<SignRequest> {
    if mech == CKM_RSA_PKCS then
      var parsed := ParseDigestInfo(data);
      if parsed.None? then Err(InvalidDigestInfo)
      else Ok(SignRequest(parsed.value.1, RsaPkcs1(parsed.value.0), true, e.context))
    else if mech == CKM_ECDSA then
      var hash := if |data| == 48 then Sha384 else if |data| == 64 then Sha512 else Sha256;
      Ok(SignRequest(data, Ecdsa(hash), true, e.context))
    else
      var algorithm := MechanismToAlgorithm(mech);
      if algorithm.None? then Err(UnsupportedMechanism)
      else if IsPSSMechanism(mech) then Ok(SignRequest(data, algorithm.value, false, e.context))
      else Ok(SignRequest(HashDataForMechanism(e, mech, data), algorithm.value, true, e.context))
  }

  function SignInternal(e: Env, b: Back, mech: nat, keyIndex: nat, data: Bytes): (Back, Result<Signature>) {
    var (b1, signer) := GetSignerBySlot(e, b, keyIndex);
    if signer.Err? then (b1, Err(signer.error))
    else
      var request := BuildRequest(e, mech, data);
      if request.Err? then (b1, Err(request.error))
      else
        var (net, reply) := WithRetryOnAuth(e, b1.config.auth, b1.net, Sign(signer.value.id, request.value));
        if reply.Failed? then
          (b1.(net := ReportApprovalDenial(e, b1.config, net, signer.value, request.value.data, reply.error)),
           Err(reply.error))
        else if reply.signature.None? then (b1.(net := net), Err(UndecodableSignature))
        else (b1.(net := net), Ok(reply.signature.value))
  }

  /** Whether a failed signing leads to an approval request. */
  predicate WantsApproval(config: Config, error: Error) {
    error.IsApprovalRequired() && !error.hasPendingRequest && config.approval.Configured()
  }

  function BuildApproval(e: Env, config: Config, signData: Bytes): ApprovalRequest {
    ApprovalRequest(
      RequestedScope(e.context, e.hex(e.digest(Sha256, signData)),
                     config.approval.excludeScopeFields, config.approval.ipAddress),
      config.approval.signingDuration,
      if config.approval.signingCount > 0 then config.approval.signingCount else 0)
  }

  function ReportApprovalDenial(e: Env, config: Config, net: Net, signer: Signer, signData: Bytes, error: Error): Net {
    if !WantsApproval(config, error) then net
    else
      var (net1, token) := GetToken(e, config.auth, net);
      if token.Err? then net1
      else RequestApproval(e, net1, token.value, signer.id, BuildApproval(e, config, signData))
  }

  // ------------------------------------------------------------------ text helpers

  predicate Contains(s: string, part: string) {
    exists i :: 0 <= i <= |s| && part <= s[i..]
  }

  function EstimateSignatureSize(e: Env, b: Back, t: Table, handle: nat): (Back, nat) {
    if handle !in t.sessions then (b, 512)
    else
      var (b1, signer) := GetSignerBySlot(e, b, t.sessions[handle].signKeyIndex);
      if signer.Err? then (b1, 512)
      else
        var alg := signer.value.keyAlgorithm;
        (b1, if Contains(alg, "4096") then 512
             else if Contains(alg, "3072") then 384
             else if Contains(alg, "2048") then 256
             else if Contains(alg, "ec") then 132
             else 512)
  }

  function Truncate(s: Bytes, maxLen: nat): Bytes {
    if |s| <= maxLen then s else s[..maxLen]
  }
}
