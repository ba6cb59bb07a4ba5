/**
 The backend as an object (backend.go).  Every method is proved against the function of Signers, Attributes
 or Machine that says what it computes and what state it leaves.
 */
module Backend {
  import opened Common
  import opened Errors
  import opened Capture
  import opened Mechanism
  import opened EcKey
  import opened Remote
  import opened Sessions
  import opened Client
  import opened Cache
  import Slots
  import Signers
  import Attributes
  import Machine

  class InfisicalBackend {
    const env: Env
    var initialized: bool
    var config: Signers.Config
    var client: InfisicalClient
    var sessions: SessionManager
    var signerCache: SignerCache
    var certCache: CertDataCache

    ghost predicate Valid()
      reads this, client, sessions
    {
      client.env == env && sessions.Valid()
    }

    /** The backend without its sessions. */
    ghost function BackView(): Signers.Back
      reads this, client, signerCache, certCache
    {
      Signers.Back(config, client.View(), signerCache.View(), certCache.View())
    }

    ghost function View(): Machine.State
      reads this, client, signerCache, certCache, sessions, sessions.sessions.Values
    {
      Machine.State(initialized, BackView(), sessions.View())
    }

    constructor (env: Env, config: Signers.Config, now: int)
      ensures Valid() && Machine.IsInitial(View()) && this.env == env
      ensures fresh(client) && fresh(sessions) && fresh(signerCache) && fresh(certCache)
    {
      this.env, this.config, initialized := env, config, false;
      client := new InfisicalClient(env, now, []);
      sessions := new SessionManager();
      signerCache := new SignerCache(config.signerTTLSeconds);
      certCache := new CertDataCache(config.certTTLSeconds);
    }

    // ---------------------------------------------------------------- initialisation

    method Initialize(loaded: Option<Signers.Config>, clientOk: bool) returns (rv: Machine.Rv)
      requires Valid()
      modifies this
      ensures Valid() && (View(), rv) == Machine.Initialize(env, old(View()), loaded, clientOk)
      ensures if rv == Machine.OK then fresh(client) && fresh(sessions) && fresh(signerCache) && fresh(certCache) &&
                                       sessions.sessions == map[]
              else client == old(client) && sessions == old(sessions) && signerCache == old(signerCache) && certCache == old(certCache)
    {
      if initialized {
        return Machine.AlreadyInitialized;
      }
      if loaded.None? {
        return Machine.GeneralError;
      }
      config := loaded.value;
      if !clientOk {
        return Machine.GeneralError;
      }
      StartAfresh();
      if config.auth.HasConfigCredentials() {
        var _ := client.UniversalAuthLogin(config.auth.clientID, config.auth.clientSecret);
      }
      return Machine.OK;
    }

    /** A new client, empty caches and no sessions. */
    method StartAfresh()
      requires Valid()
      modifies this
      ensures Valid() && fresh(client) && fresh(sessions) && fresh(signerCache) && fresh(certCache)
      ensures config == old(config) && sessions.sessions == map[]
      ensures View() == Machine.State(true,
                Signers.Back(config, old(client.View()).(sdkReady := false), Cache.NewSignerCache(config.signerTTLSeconds),
                             Cache.NewCertCache(config.certTTLSeconds)),
                Slots.NewTable())
    {
      client := new InfisicalClient(env, client.now, client.calls);
      sessions := new SessionManager();
      signerCache := new SignerCache(config.signerTTLSeconds);
      certCache := new CertDataCache(config.certTTLSeconds);
      initialized := true;
    }

    method Finalize()
      requires Valid()
      modifies this`initialized
      ensures Valid() && View() == old(View()).(initialized := false)
    {
      if !initialized {
        return;
      }
      initialized := false;
    }

    // ---------------------------------------------------------------- tokens and the retry

    method GetToken() returns (token: Result<string>)
      requires Valid()
      modifies client
      ensures (client.View(), token) == Remote.GetToken(env, config.auth, old(client.View()))
    {
      if config.auth.authMethod.TokenAuth? {
        if config.auth.token == "" {
          return Err(NoToken);
        }
        return Ok(config.auth.token);
      }
      var t := client.GetAccessToken();
      if t != "" {
        return Ok(t);
      }
      if config.auth.HasConfigCredentials() {
        var ok := client.UniversalAuthLogin(config.auth.clientID, config.auth.clientSecret);
        if !ok {
          return Err(Transport);
        }
        t := client.GetAccessToken();
        if t != "" {
          return Ok(t);
        }
        return Err(NoToken);
      }
      return Err(NoToken);
    }

    method WithRetryOnAuth(op: Op) returns (reply: Reply)
      requires Valid()
      modifies client
      ensures (client.View(), reply) == Remote.WithRetryOnAuth(env, config.auth, old(client.View()), op)
      ensures Answers(op, reply)
    {
      hide Remote.GetToken, Remote.ReplyTo;
      var token := GetToken();
      if token.Err? {
        return Failed(token.error);
      }
      reply := client.Call(token.value, op);
      if !reply.Failed? {
        return;
      }
      if !reply.error.IsUnauthorized() {
        return;
      }
      if config.auth.authMethod.TokenAuth? {
        return;
      }
      if config.auth.HasConfigCredentials() {
        var ok := client.UniversalAuthLogin(config.auth.clientID, config.auth.clientSecret);
        if !ok {
          return Failed(Transport);
        }
      }
      var newToken := client.GetAccessToken();
      if newToken == "" || newToken == token.value {
        return;
      }
      reply := client.Call(newToken, op);
    }

    // ---------------------------------------------------------------- signers

    method GetSigners() returns (r: Result<seq<Signer>>)
      requires Valid()
      modifies client, signerCache
      ensures (BackView(), r) == Signers.GetSigners(env, old(BackView()))
    {
      hide Remote.WithRetryOnAuth;
      var hit := signerCache.Get(client.now);
      if hit.Some? {
        return Ok(hit.value);
      }
      var reply := WithRetryOnAuth(ListSigners);
      if reply.Failed? {
        return Err(reply.error);
      }
      signerCache.Set(reply.signers, client.now);
      return Ok(reply.signers);
    }

    method GetSignerBySlot(slotIndex: nat) returns (r: Result<Signer>)
      requires Valid()
      modifies client, signerCache
      ensures (BackView(), r) == Signers.GetSignerBySlot(env, old(BackView()), slotIndex)
    {
      hide Signers.GetSigners;
      var signers := GetSigners();
      if signers.Err? {
        return Err(signers.error);
      }
      if slotIndex >= |signers.value| {
        return Err(SlotIDInvalid);
      }
      return Ok(signers.value[slotIndex]);
    }

    method GetSignerBySignerID(id: Bytes) returns (r: Result<Signer>)
      requires Valid()
      modifies client, signerCache
      ensures (BackView(), r) == Signers.GetSignerBySignerID(env, old(BackView()), id)
    {
      hide Signers.GetSigners;
      var signers := GetSigners();
      if signers.Err? {
        return Err(signers.error);
      }
      for i := 0 to |signers.value|
        invariant Signers.FindSigner(signers.value, id) == Signers.FindSigner(signers.value[i..], id)
      {
        if signers.value[i].id == id {
          return Ok(signers.value[i]);
        }
      }
      return Err(SignerNotFound);
    }

    // ---------------------------------------------------------------- certificates and keys

    method GetCertificateData(id: Bytes) returns (r: Result<Bytes>)
      requires Valid()
      modifies client, signerCache, certCache
      ensures (BackView(), r) == Signers.GetCertificateData(env, old(BackView()), id)
    {
      hide Remote.WithRetryOnAuth, Signers.GetSignerBySignerID;
      var hit := certCache.GetCert(id, client.now);
      if hit.Some? {
        return Ok(hit.value);
      }
      var signer := GetSignerBySignerID(id);
      if signer.Err? {
        return Err(signer.error);
      }
      if signer.value.certificateID == "" {
        return Err(NoCertificate);
      }
      var reply := WithRetryOnAuth(GetCertificate(signer.value.id));
      if reply.Failed? {
        return Err(reply.error);
      }
      if reply.certificate.None? {
        return Err(UndecodableCertificate);
      }
      certCache.SetCertEntry(id, reply.certificate.value, client.now);
      return Ok(reply.certificate.value);
    }

    method GetPublicKeyData(id: Bytes) returns (r: Result<(Bytes, Bytes)>)
      requires Valid()
      modifies client, signerCache, certCache
      ensures (BackView(), r) == Signers.GetPublicKeyData(env, old(BackView()), id)
    {
      hide Signers.GetCertificateData;
      var hit := certCache.GetPubKey(id, client.now);
      if hit.Some? {
        return Ok(if hit.value.RsaEntry? then (hit.value.modulus, hit.value.exponent) else ([], []));
      }
      var der := GetCertificateData(id);
      if der.Err? {
        return Err(der.error);
      }
      var cert := env.parseCertificate(der.value);
      if cert.None? {
        return Err(UndecodableCertificate);
      }
      if !cert.value.key.Rsa? {
        return Err(WrongKeyType);
      }
      var key := cert.value.key;
      certCache.SetPubKeyEntry(id, RsaEntry(key.modulus, key.exponent), client.now);
      return Ok((key.modulus, key.exponent));
    }

    method GetECPublicKeyData(id: Bytes) returns (r: Result<(Bytes, Bytes)>)
      requires Valid()
      modifies client, signerCache, certCache
      ensures (BackView(), r) == Signers.GetECPublicKeyData(env, old(BackView()), id)
    {
      hide Signers.GetCertificateData, EcKey.EcParams, EcKey.EcPoint;
      var hit := certCache.GetPubKey(id, client.now);
      if hit.Some? && hit.value.EcEntry? {
        return Ok((hit.value.ecParams, hit.value.ecPoint));
      }
      var der := GetCertificateData(id);
      if der.Err? {
        return Err(der.error);
      }
      var cert := env.parseCertificate(der.value);
      if cert.None? {
        return Err(UndecodableCertificate);
      }
      if !cert.value.key.Ec? || cert.value.key.curve == OtherCurve {
        return Err(WrongKeyType);
      }
      var key := cert.value.key;
      var params, point := EcParams(key.curve), EcPoint(key.curve, key.x, key.y);
      certCache.SetPubKeyEntry(id, EcEntry(params, point), client.now);
      return Ok((params, point));
    }

    // ---------------------------------------------------------------- attributes

    /** One case of the switch in GetAttributeValue. */
    method AttributeValue(objType: nat, signer: Signer, typ: nat) returns (value: Bytes)
      requires Valid()
      modifies client, signerCache, certCache
      ensures (BackView(), value) == Attributes.AttributeValue(env, old(BackView()), objType, signer, typ)
    {
      hide Signers.GetCertificateData, Signers.GetPublicKeyData, Signers.GetECPublicKeyData, Attributes.FixedAttribute, Attributes.KeyType;
      var fixed := Attributes.FixedAttribute(objType, signer, typ);
      if fixed.Some? {
        return fixed.value;
      }
      var isKey := objType == Slots.OBJ_PRIVATE_KEY || objType == Slots.OBJ_PUBLIC_KEY;
      if typ in {Attributes.CKA_VALUE, Attributes.CKA_SUBJECT, Attributes.CKA_ISSUER, Attributes.CKA_SERIAL_NUMBER} {
        if objType == Slots.OBJ_CERTIFICATE {
          value := CertificateAttribute(signer, typ);
        } else {
          value := [];
        }
      } else if typ in {Attributes.CKA_MODULUS, Attributes.CKA_PUBLIC_EXPONENT, Attributes.CKA_MODULUS_BITS} {
        if isKey && Attributes.KeyType(signer) == Attributes.CKK_RSA {
          var key := GetPublicKeyData(signer.id);
          if key.Err? {
            value := if typ == Attributes.CKA_MODULUS_BITS then Attributes.UlongBytes(0) else [];
          } else {
            value := if typ == Attributes.CKA_MODULUS then key.value.0
                     else if typ == Attributes.CKA_PUBLIC_EXPONENT then key.value.1
                     else Attributes.UlongBytes(|key.value.0| * 8);
          }
        } else {
          value := if typ == Attributes.CKA_MODULUS_BITS then Attributes.UlongBytes(0) else [];
        }
      } else if typ in {Attributes.CKA_EC_PARAMS, Attributes.CKA_EC_POINT} && isKey && Attributes.KeyType(signer) == Attributes.CKK_EC {
        var key := GetECPublicKeyData(signer.id);
        value := if key.Err? then [] else if typ == Attributes.CKA_EC_PARAMS then key.value.0 else key.value.1;
      } else {
        value := [];
      }
    }

    method CertificateAttribute(signer: Signer, typ: nat) returns (value: Bytes)
      requires Valid()
      modifies client, signerCache, certCache
      ensures (BackView(), value) == Attributes.CertificateAttribute(env, old(BackView()), signer, typ)
    {
      hide Signers.GetCertificateData;
      var der := GetCertificateData(signer.id);
      if der.Err? {
        return [];
      }
      if typ == Attributes.CKA_VALUE {
        return der.value;
      }
      var cert := env.parseCertificate(der.value);
      if cert.None? {
        return [];
      }
      return if typ == Attributes.CKA_SUBJECT then cert.value.subject
             else if typ == Attributes.CKA_ISSUER then cert.value.issuer
             else cert.value.serial;
    }

    method GetAttributeValue(sh: nat, obj: nat, types: seq<nat>) returns (r: Result<seq<Slots.Attribute>>)
      requires Valid()
      modifies client, signerCache, certCache
      ensures (BackView(), r) == Attributes.GetAttributeValue(env, old(BackView()), old(sessions.View()), sh, obj, types)
    {
      hide Signers.GetSigners, Attributes.AttributeValue, Slots.ParseObjectHandle;
      if sh !in sessions.sessions {
        return Err(SessionHandleInvalid);
      }
      var (objType, slotIdx) := Slots.ParseObjectHandle(obj);
      var signer := GetSignerBySlot(slotIdx);
      if signer.Err? {
        return Err(signer.error);
      }
      ghost var b := BackView();
      var result: seq<Slots.Attribute> := [];
      for i := 0 to |types|
        invariant (BackView(), result) == Attributes.AttributeValues(env, b, objType, signer.value, types[..i])
      {
        var value := AttributeValue(objType, signer.value, types[i]);
        result := result + [Slots.Attribute(types[i], value)];
        assert types[..i + 1][..i] == types[..i];
      }
      assert types[..|types|] == types;
      return Ok(result);
    }

    // ---------------------------------------------------------------- one signing

    method SignInternal(mech: nat, keyIndex: nat, data: Bytes) returns (r: Result<Signature>)
      requires Valid()
      modifies client, signerCache
      ensures (BackView(), r) == Signers.SignInternal(env, old(BackView()), mech, keyIndex, data)
    {
      hide Signers.GetSigners, Signers.BuildRequest, Remote.WithRetryOnAuth, Signers.ReportApprovalDenial;
      var signer := GetSignerBySlot(keyIndex);
      if signer.Err? {
        return Err(signer.error);
      }
      var request := Signers.BuildRequest(env, mech, data);
      if request.Err? {
        return Err(request.error);
      }
      var reply := WithRetryOnAuth(Op.Sign(signer.value.id, request.value));
      if reply.Failed? {
        ReportApprovalDenial(signer.value, request.value.data, reply.error);
        return Err(reply.error);
      }
      if reply.signature.None? {
        return Err(UndecodableSignature);
      }
      return Ok(reply.signature.value);
    }

    method ReportApprovalDenial(signer: Signer, signData: Bytes, error: Error)
      requires Valid()
      modifies client
      ensures client.View() == Signers.ReportApprovalDenial(env, config, old(client.View()), signer, signData, error)
    {
      hide Remote.GetToken, Signers.BuildApproval;
      if !error.IsApprovalRequired() {
        return;
      }
      if error.hasPendingRequest {
        return;
      }
      if config.approval.signingCount == 0 && config.approval.signingDuration == "" {
        return;
      }
      var token := GetToken();
      if token.Err? {
        return;
      }
      var _ := client.RequestApproval(token.value, signer.id, Signers.BuildApproval(env, config, signData));
    }

    // ---------------------------------------------------------------- sessions and login

    method OpenSession(slotID: nat) returns (r: Result<nat>)
      requires Valid()
      modifies client, signerCache, sessions, sessions.sessions.Values
      ensures Valid() && (View(), r) == Machine.OpenSession(env, old(View()), slotID)
      ensures fresh(sessions.sessions.Values - old(sessions.sessions.Values))
    {
      hide Signers.GetSignerBySlot, Machine.AutoLogin, Slots.SetLoggedIn, Slots.Open;
      var signer := GetSignerBySlot(slotID);
      if signer.Err? {
        return Err(signer.error);
      }
      assert sessions.View() == old(sessions.View());
      var handle := sessions.Open(slotID);
      ghost var withNew := sessions.View();
      var auto := AutoLogin();
      assert sessions.View() == withNew;
      if auto {
        sessions.SetLoggedIn(handle, true);
      }
      return Ok(handle);
    }

    method AutoLogin() returns (auto: bool)
      requires Valid()
      modifies client
      ensures (BackView(), auto) == Machine.AutoLogin(env, old(BackView()))
    {
      if config.auth.IsTokenAuth() {
        return true;
      }
      if config.auth.HasConfigCredentials() {
        var token := client.GetAccessToken();
        return token != "";
      }
      return false;
    }

    method CloseSession(sh: nat) returns (error: Option<Error>)
      requires Valid()
      modifies sessions
      ensures Valid() && error == (if sh in old(sessions.sessions) then None else Some(SessionHandleInvalid))
      ensures View() == old(View()).(table := Slots.Close(old(sessions.View()), sh))
      ensures error.Some? ==> View() == old(View())
      ensures sessions.sessions.Values <= old(sessions.sessions.Values)
    {
      var ok := sessions.Close(sh);
      assert !ok ==> old(sessions.View()).sessions - {sh} == old(sessions.View()).sessions;
      return if ok then None else Some(SessionHandleInvalid);
    }

    method Login(sh: nat, pin: string) returns (error: Option<Error>)
      requires Valid()
      modifies this`config, client, sessions.sessions.Values
      ensures Valid() && (View(), error) == Machine.Login(env, old(View()), sh, pin)
    {
      hide Machine.LoginBack, Machine.LogInSlot;
      var s := sessions.Get(sh);
      if s.None? {
        return Some(SessionHandleInvalid);
      }
      error := AuthenticateFor(pin);
      assert sessions.View() == old(sessions.View());
      if error.None? {
        LogInSlot(sh);
      }
    }

    method LogInSlot(sh: nat)
      requires Valid() && sh in sessions.sessions
      modifies sessions.sessions.Values
      ensures Valid() && sessions.View() == Machine.LogInSlot(old(sessions.View()), sh)
    {
      hide Slots.SetAllLoggedInForSlot, Slots.SetLoggedIn;
      var slotID := sessions.sessions[sh].slotID;
      sessions.SetLoggedIn(sh, true);
      sessions.SetAllLoggedInForSlot(slotID, true);
    }

    /** The part of Login that finds out whether the credentials do. */
    method AuthenticateFor(pin: string) returns (error: Option<Error>)
      requires Valid()
      modifies this`config, client
      ensures Valid() && (BackView(), error) == Machine.LoginBack(env, old(BackView()), pin)
    {
      hide Machine.SplitClientCreds;
      if pin != "" {
        var creds := Machine.SplitClientCreds(pin);
        if creds.Some? {
          var ok := client.UniversalAuthLogin(creds.value.0, creds.value.1);
          return if ok then None else Some(Transport);
        }
        config := config.(auth := config.auth.(authMethod := TokenAuth, token := pin));
        return None;
      }
      if config.auth.authMethod.TokenAuth? {
        return if config.auth.token == "" then Some(NoToken) else None;
      }
      var token := client.GetAccessToken();
      if token != "" && config.auth.HasConfigCredentials() {
        return None;
      }
      if config.auth.clientID == "" {
        return Some(NoCredentials);
      }
      var ok := client.UniversalAuthLogin(config.auth.clientID, config.auth.clientSecret);
      return if ok then None else Some(Transport);
    }

    method Logout(sh: nat) returns (error: Option<Error>)
      requires Valid()
      modifies sessions.sessions.Values
      ensures Valid() && (View(), error) == Machine.Logout(old(View()), sh)
    {
      hide Slots.SetAllLoggedInForSlot;
      var s := sessions.Get(sh);
      if s.None? {
        return Some(SessionHandleInvalid);
      }
      sessions.SetAllLoggedInForSlot(s.value.slotID, false);
      return None;
    }

    // ---------------------------------------------------------------- finding objects

    /** The loop over the template: a later attribute replaces an earlier one of its type. */
    method ReadFilter(template: seq<Slots.Attribute>) returns (f: Machine.Filter)
      ensures f == Machine.FilterOf(template)
    {
      hide Machine.LittleEndian;
      f := Machine.Filter(None, [], [], []);
      for i := 0 to |template|
        invariant f == Machine.FilterOf(template[..i])
      {
        var attr := template[i];
        assert template[..i + 1][..i] == template[..i];
        if attr.typ == Attributes.CKA_CLASS {
          if |attr.value| >= 4 {
            f := f.(class_ := Some(Machine.LittleEndian(attr.value)));
          }
        } else if attr.typ == Attributes.CKA_ID {
          f := f.(id := attr.value);
        } else if attr.typ == Attributes.CKA_LABEL {
          f := f.(name := attr.value);
        } else if attr.typ == Attributes.CKA_SUBJECT {
          f := f.(subject := attr.value);
        }
      }
      assert template[..|template|] == template;
    }

    method MatchingObjects(slot: nat, template: seq<Slots.Attribute>) returns (r: Result<seq<nat>>)
      requires Valid()
      modifies client, signerCache, certCache
      ensures (BackView(), r) == Machine.MatchingObjects(env, old(BackView()), slot, template)
    {
      hide Signers.GetSigners, Signers.GetCertificateData, Machine.FilterOf, Machine.ObjectsOfClass, Signers.Truncate;
      var f := ReadFilter(template);
      if f.id != [] || f.name != [] {
        var signer := GetSignerBySlot(slot);
        if signer.Err? {
          return Err(signer.error);
        }
        if f.id != [] && f.id != Signers.Truncate(signer.value.id, Attributes.MAX_ID_LEN) {
          return Ok([]);
        }
        if f.name != [] && f.name != signer.value.name {
          return Ok([]);
        }
      }
      if f.subject != [] {
        var signer := GetSignerBySlot(slot);
        if signer.Err? {
          return Err(signer.error);
        }
        var der := GetCertificateData(signer.value.id);
        if der.Err? {
          return Ok([]);
        }
        var cert := env.parseCertificate(der.value);
        if cert.None? || cert.value.subject != f.subject {
          return Ok([]);
        }
      }
      return Ok(Machine.ObjectsOfClass(slot, f.class_));
    }

    method FindObjectsInit(sh: nat, template: seq<Slots.Attribute>) returns (error: Option<Error>)
      requires Valid()
      modifies client, signerCache, certCache, sessions.sessions.Values
      ensures Valid() && (View(), error) == Machine.FindObjectsInit(env, old(View()), sh, template)
    {
      hide Machine.MatchingObjects;
      var s := sessions.Get(sh);
      if s.None? {
        return Some(SessionHandleInvalid);
      }
      var sess := s.value;
      if sess.findActive {
        return Some(FindAlreadyActive);
      }
      var found := MatchingObjects(sess.slotID, template);
      assert sessions.View() == old(sessions.View());
      if found.Err? {
        return Some(found.error);
      }
      StoreFind(sh, template, found.value);
      return None;
    }

    method StoreFind(sh: nat, template: seq<Slots.Attribute>, results: seq<nat>)
      requires Valid() && sh in sessions.sessions
      modifies sessions.sessions[sh]
      ensures Valid()
      ensures sessions.View() == Slots.Put(old(sessions.View()), sh,
                old(sessions.sessions[sh].View()).(findActive := true, findTemplate := template, findResults := results, findPos := 0))
    {
      var sess := sessions.sessions[sh];
      sess.findActive, sess.findTemplate, sess.findResults, sess.findPos := true, template, results, 0;
      sessions.PutView(sh);
    }

    method FindObjects(sh: nat, max: nat) returns (r: Result<seq<nat>>)
      requires Valid()
      modifies sessions.sessions.Values
      ensures Valid() && (View(), r) == Machine.FindObjects(old(View()), sh, max)
    {
      hide Machine.NextResults;
      r := NextResults(sh, max);
    }

    method NextResults(sh: nat, max: nat) returns (r: Result<seq<nat>>)
      requires Valid()
      modifies sessions.sessions.Values
      ensures Valid() && (sessions.View(), r) == Machine.NextResults(old(sessions.View()), sh, max)
    {
      var s := sessions.Get(sh);
      if s.None? {
        return Err(SessionHandleInvalid);
      }
      var sess := s.value;
      if !sess.findActive {
        return Err(FindNotActive);
      }
      var remaining := |sess.findResults| - sess.findPos;
      if remaining <= 0 {
        return Ok([]);
      }
      var count := if max > remaining then remaining else max;
      r := Ok(sess.findResults[sess.findPos..sess.findPos + count]);
      sess.findPos := sess.findPos + count;
      sessions.PutView(sh);
    }

    method FindObjectsFinal(sh: nat) returns (error: Option<Error>)
      requires Valid()
      modifies sessions.sessions.Values
      ensures Valid() && (View(), error) == Machine.FindObjectsFinal(old(View()), sh)
    {
      var s := sessions.Get(sh);
      if s.None? {
        return Some(SessionHandleInvalid);
      }
      var sess := s.value;
      sess.findActive, sess.findResults, sess.findPos := false, [], 0;
      sessions.PutView(sh);
      return None;
    }

    // ---------------------------------------------------------------- signing

    method SignInit(sh: nat, mech: nat, key: nat) returns (error: Option<Error>)
      requires Valid()
      modifies sessions.sessions.Values
      ensures Valid() && (View(), error) == Machine.SignInit(old(View()), sh, mech, key)
    {
      hide Slots.ParseObjectHandle;
      var s := sessions.Get(sh);
      if s.None? {
        return Some(SessionHandleInvalid);
      }
      var sess := s.value;
      if !sess.loggedIn {
        return Some(NotLoggedIn);
      }
      if sess.signActive {
        return Some(SignAlreadyActive);
      }
      var (_, slotIdx) := Slots.ParseObjectHandle(key);
      BeginSign(sh, mech, slotIdx);
      return None;
    }

    /** Starts the operation.  A signature left from an earlier one is not touched. */
    method BeginSign(sh: nat, mech: nat, slotIdx: nat)
      requires Valid() && sh in sessions.sessions
      modifies sessions.sessions[sh]
      ensures Valid()
      ensures sessions.View() == Slots.Put(old(sessions.View()), sh,
                old(sessions.sessions[sh].View()).(signActive := true, signMech := mech, signKeyIndex := slotIdx, signBuffer := []))
    {
      var sess := sessions.sessions[sh];
      sess.signActive, sess.signMech, sess.signKeyIndex, sess.signBuffer := true, mech, slotIdx, [];
      sessions.PutView(sh);
    }

    method ClearSignState(ghost sh: nat, sess: Session)
      requires Valid() && sh in sessions.sessions && sessions.sessions[sh] == sess
      modifies sess
      ensures Valid() && sess.View() == Slots.ClearSignState(old(sess.View()))
      ensures sessions.View() == Slots.Put(old(sessions.View()), sh, sess.View())
    {
      sess.signActive, sess.signMech, sess.signKeyIndex, sess.signBuffer, sess.cachedSignature := false, 0, 0, [], None;
      sessions.PutView(sh);
    }

    method ClearSignStateByHandle(sh: nat)
      requires Valid()
      modifies sessions.sessions.Values
      ensures Valid() && View() == Machine.ClearSignStateByHandle(old(View()), sh)
    {
      var s := sessions.Get(sh);
      if s.Some? {
        ClearSignState(sh, s.value);
      }
    }

    method CacheSignResult(sh: nat, sig: Bytes)
      requires Valid()
      modifies sessions.sessions.Values
      ensures Valid() && View() == Machine.CacheSignResult(old(View()), sh, sig)
    {
      var s := sessions.Get(sh);
      if s.Some? {
        s.value.cachedSignature := Some(sig);
        sessions.PutView(sh);
      }
    }

    method SignUpdate(sh: nat, data: Bytes) returns (error: Option<Error>)
      requires Valid()
      modifies sessions.sessions.Values
      ensures Valid() && (View(), error) == Machine.SignUpdate(old(View()), sh, data)
    {
      var s := sessions.Get(sh);
      if s.None? {
        return Some(SessionHandleInvalid);
      }
      if !s.value.signActive {
        return Some(SignNotActive);
      }
      error := s.value.AppendSignBuffer(data);
      sessions.PutView(sh);
    }

    method Sign(sh: nat, data: Bytes) returns (r: Result<Bytes>)
      requires Valid()
      modifies client, signerCache, sessions.sessions.Values
      ensures Valid() && (View(), r) == Machine.SignOrReplay(env, old(View()), sh, Some(data))
    {
      hide Signers.SignInternal, Slots.ClearSignState;
      var s := sessions.Get(sh);
      if s.None? {
        return Err(SessionHandleInvalid);
      }
      var sess := s.value;
      if !sess.signActive {
        return Err(SignNotActive);
      }
      if sess.cachedSignature.Some? {
        var sig := sess.cachedSignature.value;
        ClearSignState(sh, sess);
        return Ok(sig);
      }
      var result := SignInternal(sess.signMech, sess.signKeyIndex, data);
      if result.Err? {
        ClearSignState(sh, sess);
        return Err(result.error);
      }
      return Ok(result.value);
    }

    method SignFinal(sh: nat) returns (r: Result<Bytes>)
      requires Valid()
      modifies client, signerCache, sessions.sessions.Values
      ensures Valid() && (View(), r) == Machine.SignOrReplay(env, old(View()), sh, None)
    {
      hide Signers.SignInternal, Slots.ClearSignState;
      var s := sessions.Get(sh);
      if s.None? {
        return Err(SessionHandleInvalid);
      }
      var sess := s.value;
      if !sess.signActive {
        return Err(SignNotActive);
      }
      if sess.cachedSignature.Some? {
        var sig := sess.cachedSignature.value;
        ClearSignState(sh, sess);
        return Ok(sig);
      }
      var result := SignInternal(sess.signMech, sess.signKeyIndex, sess.signBuffer);
      if result.Err? {
        ClearSignState(sh, sess);
        return Err(result.error);
      }
      return Ok(result.value);
    }

    method EstimateSignatureSize(sh: nat) returns (size: nat)
      requires Valid()
      modifies client, signerCache
      ensures (BackView(), size) == Signers.EstimateSignatureSize(env, old(BackView()), old(sessions.View()), sh)
    {
      hide Signers.GetSigners, Signers.Contains;
      var s := sessions.Get(sh);
      if s.None? {
        return 512;
      }
      var signer := GetSignerBySlot(s.value.signKeyIndex);
      if signer.Err? {
        return 512;
      }
      var alg := signer.value.keyAlgorithm;
      return if Signers.Contains(alg, "4096") then 512
             else if Signers.Contains(alg, "3072") then 384
             else if Signers.Contains(alg, "2048") then 256
             else if Signers.Contains(alg, "ec") then 132
             else 512;
    }
  }
}
