/** Which credentials travel with a call, and when a call is made at all (backend.go, lines 143-210 and 325-379). */
module Tokens {
  import opened Common
  import opened Errors
  import opened Slots
  import opened Remote
  import opened Cache
  import opened Signers
  import opened Attributes
  import opened Machine

  // ------------------------------------------------------------------ bearers and login pairs

  /** The token that was read last. */
  function LatestToken(calls: seq<Call>): Option<string> {
    if calls == [] then None
    else if calls[|calls| - 1].TokenRead? then Some(calls[|calls| - 1].token)
    else LatestToken(calls[..|calls| - 1])
  }

  /** Under token auth the configured token, under universal auth the one read last; never an empty one. */
  predicate BearerFor(auth: AuthConfig, before: seq<Call>, bearer: string) {
    bearer != "" &&
    match auth.authMethod
    case TokenAuth => bearer == auth.token
    case UniversalAuth => LatestToken(before) == Some(bearer)
  }

  /** The call `c`, made after `before`, carries the right credentials; `pin` is that of a C_Login under way. */
  predicate Carries(auth: AuthConfig, pin: Option<string>, before: seq<Call>, c: Call) {
    match c
    case ApiCall(_, bearer, _, _) => BearerFor(auth, before, bearer)
    case ApprovalCall(bearer, _, _, _) => BearerFor(auth, before, bearer)
    case LoginCall(id, secret, _) =>
      || (id == auth.clientID && secret == auth.clientSecret)
      || (pin.Some? && pin.value == id + ":" + secret && ':' !in id && id != "" && secret != "")
    case TokenRead(_) => true
  }

  /** `n'` follows `n`, and every call in between carries the right credentials. */
  ghost predicate AllCarry(auth: AuthConfig, pin: Option<string>, n: Net, n': Net) {
    n.calls <= n'.calls && forall k :: |n.calls| <= k < |n'.calls| ==> Carries(auth, pin, n'.calls[..k], n'.calls[k])
  }

  lemma NothingCarried(auth: AuthConfig, pin: Option<string>, n: Net, n': Net)
    requires n'.calls == n.calls
    ensures AllCarry(auth, pin, n, n')
  {
  }

  lemma CarryThen(auth: AuthConfig, pin: Option<string>, a: Net, b: Net, c: Net)
    requires AllCarry(auth, pin, a, b) && AllCarry(auth, pin, b, c)
    ensures AllCarry(auth, pin, a, c)
  {
    hide Carries;
    forall k | |a.calls| <= k < |c.calls|
      ensures Carries(auth, pin, c.calls[..k], c.calls[k])
    {
      if k < |b.calls| {
        assert c.calls[..k] == b.calls[..k] && c.calls[k] == b.calls[k];
      }
    }
  }

  lemma OneCarried(auth: AuthConfig, pin: Option<string>, n: Net, n': Net, c: Call)
    requires n'.calls == n.calls + [c] && Carries(auth, pin, n.calls, c)
    ensures AllCarry(auth, pin, n, n')
  {
    hide Carries;
    assert n'.calls[..|n.calls|] == n.calls;
  }

  /** What is carried without a PIN is carried during a login, too. */
  lemma CarriedAnyway(auth: AuthConfig, pin: Option<string>, n: Net, n': Net)
    requires AllCarry(auth, None, n, n')
    ensures AllCarry(auth, pin, n, n')
  {
    hide BearerFor;
  }

  lemma AccessTokenCarries(e: Env, auth: AuthConfig, net: Net)
    ensures AllCarry(auth, None, net, AccessToken(e, net).0)
    ensures AccessToken(e, net).1 != "" ==> LatestToken(AccessToken(e, net).0.calls) == Some(AccessToken(e, net).1)
  {
    var (net', token) := AccessToken(e, net);
    if net.sdkReady {
      OneCarried(auth, None, net, net', TokenRead(token));
    } else {
      NothingCarried(auth, None, net, net');
    }
  }

  lemma AuthenticateCarries(e: Env, auth: AuthConfig, net: Net)
    ensures AllCarry(auth, None, net, Authenticate(e, net, auth.clientID, auth.clientSecret).0)
  {
    var (net', ok) := Authenticate(e, net, auth.clientID, auth.clientSecret);
    OneCarried(auth, None, net, net', LoginCall(auth.clientID, auth.clientSecret, ok));
  }

  lemma GetTokenCarries(e: Env, auth: AuthConfig, net: Net)
    ensures var (net', token) := GetToken(e, auth, net);
            AllCarry(auth, None, net, net') && (token.Ok? ==> BearerFor(auth, net'.calls, token.value))
  {
    hide AccessToken, Authenticate, AllCarry, LatestToken;
    NothingCarried(auth, None, net, net);
    AccessTokenCarries(e, auth, net);
    var net1 := AccessToken(e, net).0;
    AuthenticateCarries(e, auth, net1);
    var net2 := Authenticate(e, net1, auth.clientID, auth.clientSecret).0;
    CarryThen(auth, None, net, net1, net2);
    AccessTokenCarries(e, auth, net2);
    CarryThen(auth, None, net, net2, AccessToken(e, net2).0);
  }

  lemma ReauthenticateCarries(e: Env, auth: AuthConfig, net: Net)
    requires auth.authMethod.UniversalAuth?
    ensures var (net', token) := Reauthenticate(e, auth, net);
            AllCarry(auth, None, net, net') && (token.Ok? && token.value != "" ==> BearerFor(auth, net'.calls, token.value))
  {
    hide AccessToken, Authenticate, AllCarry, LatestToken;
    AccessTokenCarries(e, auth, net);
    AuthenticateCarries(e, auth, net);
    var net1 := Authenticate(e, net, auth.clientID, auth.clientSecret).0;
    AccessTokenCarries(e, auth, net1);
    CarryThen(auth, None, net, net1, AccessToken(e, net1).0);
  }

  lemma CallCarries(e: Env, auth: AuthConfig, net: Net, token: string, op: Op)
    requires BearerFor(auth, net.calls, token)
    ensures AllCarry(auth, None, net, CallApi(e, net, token, op).0)
  {
    hide LatestToken;
    var (net', reply) := CallApi(e, net, token, op);
    OneCarried(auth, None, net, net', ApiCall(net.now, token, op, reply));
  }

  lemma RetryCarries(e: Env, auth: AuthConfig, net: Net, op: Op)
    ensures AllCarry(auth, None, net, WithRetryOnAuth(e, auth, net, op).0)
  {
    hide GetToken, Reauthenticate, CallApi, AllCarry, BearerFor;
    var (net1, token) := GetToken(e, auth, net);
    GetTokenCarries(e, auth, net);
    if token.Ok? {
      var (net2, reply) := CallApi(e, net1, token.value, op);
      CallCarries(e, auth, net1, token.value, op);
      CarryThen(auth, None, net, net1, net2);
      if reply.Failed? && reply.error.IsUnauthorized() && auth.authMethod.UniversalAuth? {
        var (net3, renewed) := Reauthenticate(e, auth, net2);
        ReauthenticateCarries(e, auth, net2);
        CarryThen(auth, None, net, net2, net3);
        if renewed.Ok? && renewed.value != "" {
          CallCarries(e, auth, net3, renewed.value, op);
          CarryThen(auth, None, net, net3, CallApi(e, net3, renewed.value, op).0);
        }
      }
    }
  }

  // ------------------------------------------------------------------ every operation, every step

  lemma GetSignersCarries(e: Env, b: Back)
    ensures AllCarry(b.config.auth, None, b.net, GetSigners(e, b).0.net) && GetSigners(e, b).0.config == b.config
  {
    hide WithRetryOnAuth, AllCarry;
    NothingCarried(b.config.auth, None, b.net, b.net);
    RetryCarries(e, b.config.auth, b.net, ListSigners);
  }

  lemma GetCertificateCarries(e: Env, b: Back, id: Bytes)
    ensures AllCarry(b.config.auth, None, b.net, GetCertificateData(e, b, id).0.net) && GetCertificateData(e, b, id).0.config == b.config
  {
    hide WithRetryOnAuth, AllCarry, GetSigners;
    NothingCarried(b.config.auth, None, b.net, b.net);
    GetSignersCarries(e, b);
    var (b1, signer) := GetSignerBySignerID(e, b, id);
    if signer.Ok? {
      var op := GetCertificate(signer.value.id);
      RetryCarries(e, b1.config.auth, b1.net, op);
      CarryThen(b.config.auth, None, b.net, b1.net, WithRetryOnAuth(e, b1.config.auth, b1.net, op).0);
    }
  }

  lemma AttributeCarries(e: Env, b: Back, objType: nat, signer: Signer, typ: nat)
    ensures var b' := AttributeValue(e, b, objType, signer, typ).0;
            AllCarry(b.config.auth, None, b.net, b'.net) && b'.config == b.config
  {
    hide GetCertificateData, FixedAttribute, KeyType, AllCarry;
    NothingCarried(b.config.auth, None, b.net, b.net);
    GetCertificateCarries(e, b, signer.id);
  }

  lemma {:induction false} AttributesCarry(e: Env, b: Back, objType: nat, signer: Signer, types: seq<nat>)
    ensures var b' := AttributeValues(e, b, objType, signer, types).0;
            AllCarry(b.config.auth, None, b.net, b'.net) && b'.config == b.config
  {
    hide AttributeValue, AllCarry;
    NothingCarried(b.config.auth, None, b.net, b.net);
    if types != [] {
      var n := |types| - 1;
      AttributesCarry(e, b, objType, signer, types[..n]);
      var b1 := AttributeValues(e, b, objType, signer, types[..n]).0;
      AttributeCarries(e, b1, objType, signer, types[n]);
      CarryThen(b.config.auth, None, b.net, b1.net, AttributeValue(e, b1, objType, signer, types[n]).0.net);
    }
  }

  lemma ReadCarries(e: Env, b: Back, t: Table, session: nat, obj: nat, types: seq<nat>)
    ensures var b' := GetAttributeValue(e, b, t, session, obj, types).0;
            AllCarry(b.config.auth, None, b.net, b'.net) && b'.config == b.config
  {
    hide GetSigners, AttributeValues, ParseObjectHandle, AllCarry;
    NothingCarried(b.config.auth, None, b.net, b.net);
    GetSignersCarries(e, b);
    var (objType, slot) := ParseObjectHandle(obj);
    var (b1, signer) := GetSignerBySlot(e, b, slot);
    if signer.Ok? {
      AttributesCarry(e, b1, objType, signer.value, types);
      CarryThen(b.config.auth, None, b.net, b1.net, AttributeValues(e, b1, objType, signer.value, types).0.net);
    }
  }

  lemma MatchingObjectsCarry(e: Env, b: Back, slot: nat, template: seq<Attribute>)
    ensures var b' := MatchingObjects(e, b, slot, template).0;
            AllCarry(b.config.auth, None, b.net, b'.net) && b'.config == b.config
  {
    hide GetSigners, GetCertificateData, FilterOf, ObjectsOfClass, Truncate, AllCarry;
    NothingCarried(b.config.auth, None, b.net, b.net);
    GetSignersCarries(e, b);
    var b1 := MatchesSigner(e, b, slot, FilterOf(template)).0;
    NothingCarried(b1.config.auth, None, b1.net, b1.net);
    GetSignersCarries(e, b1);
    var (b2, signer) := GetSignerBySlot(e, b1, slot);
    CarryThen(b.config.auth, None, b.net, b1.net, b2.net);
    if signer.Ok? {
      GetCertificateCarries(e, b2, signer.value.id);
      CarryThen(b.config.auth, None, b.net, b2.net, GetCertificateData(e, b2, signer.value.id).0.net);
    }
  }

  lemma SignInternalCarries(e: Env, b: Back, mech: nat, keyIndex: nat, data: Bytes)
    ensures var b' := SignInternal(e, b, mech, keyIndex, data).0;
            AllCarry(b.config.auth, None, b.net, b'.net) && b'.config == b.config
  {
    hide GetSigners, WithRetryOnAuth, BuildRequest, ReportApprovalDenial, AllCarry;
    GetSignersCarries(e, b);
    var (b1, signer) := GetSignerBySlot(e, b, keyIndex);
    var request := BuildRequest(e, mech, data);
    if signer.Ok? && request.Ok? {
      var op := Sign(signer.value.id, request.value);
      var (net, reply) := WithRetryOnAuth(e, b1.config.auth, b1.net, op);
      RetryCarries(e, b1.config.auth, b1.net, op);
      CarryThen(b.config.auth, None, b.net, b1.net, net);
      if reply.Failed? {
        DenialCarries(e, b1.config, net, signer.value, request.value.data, reply.error);
        CarryThen(b.config.auth, None, b.net, net, ReportApprovalDenial(e, b1.config, net, signer.value, request.value.data, reply.error));
      }
    }
  }

  lemma DenialCarries(e: Env, config: Config, net: Net, signer: Signer, signData: Bytes, error: Error)
    ensures AllCarry(config.auth, None, net, ReportApprovalDenial(e, config, net, signer, signData, error))
  {
    hide GetToken, BuildApproval, WantsApproval, AllCarry, BearerFor;
    NothingCarried(config.auth, None, net, net);
    var (net1, token) := GetToken(e, config.auth, net);
    GetTokenCarries(e, config.auth, net);
    if token.Ok? {
      var net2 := RequestApproval(e, net1, token.value, signer.id, BuildApproval(e, config, signData));
      OneCarried(config.auth, None, net1, net2, net2.calls[|net1.calls|]);
      CarryThen(config.auth, None, net, net1, net2);
    }
  }

  lemma OpenCarries(e: Env, st: State, slot: nat)
    ensures var b' := OpenSession(e, st, slot).0.back;
            AllCarry(st.back.config.auth, None, st.back.net, b'.net) && b'.config == st.back.config
  {
    hide GetSigners, AccessToken, AllCarry;
    var auth := st.back.config.auth;
    GetSignersCarries(e, st.back);
    var b1 := GetSignerBySlot(e, st.back, slot).0;
    NothingCarried(auth, None, b1.net, b1.net);
    AccessTokenCarries(e, auth, b1.net);
    CarryThen(auth, None, st.back.net, b1.net, AccessToken(e, b1.net).0);
  }

  lemma SignCallCarries(e: Env, st: State, h: nat, data: Option<Bytes>, hasBuffer: bool, room: nat)
    ensures var b' := SignCall(e, st, h, data, hasBuffer, room).0.back;
            AllCarry(st.back.config.auth, None, st.back.net, b'.net) && b'.config == st.back.config
  {
    hide GetSigners, SignInternal, Contains, AllCarry;
    NothingCarried(st.back.config.auth, None, st.back.net, st.back.net);
    GetSignersCarries(e, st.back);
    if h in st.table.sessions {
      var s := st.table.sessions[h];
      SignInternalCarries(e, st.back, s.signMech, s.signKeyIndex, if data.Some? then data.value else s.signBuffer);
    }
  }

  lemma ActiveStepCarries(e: Env, st: State, ev: Event)
    requires !ev.EvLogin?
    ensures var b' := ActiveStep(e, st, ev).0.back;
            AllCarry(st.back.config.auth, None, st.back.net, b'.net) && b'.config == st.back.config
  {
    hide GetSigners, GetAttributeValue, OpenSession, MatchingObjects, ParseObjectHandle, AllCarry;
    NothingCarried(st.back.config.auth, None, st.back.net, st.back.net);
    match ev
    case EvSlotQuery(_) => GetSignersCarries(e, st.back);
    case EvOpenSession(slot) => OpenCarries(e, st, slot);
    case EvFindObjectsInit(h, template) =>
      if h in st.table.sessions {
        MatchingObjectsCarry(e, st.back, st.table.sessions[h].slotID, template);
      }
    case EvGetAttributeValue(h, obj, types) => ReadCarries(e, st.back, st.table, h, obj, types);
    case _ =>
  }

  lemma InitializeCarries(e: Env, st: State, config: Config, clientOk: bool)
    ensures AllCarry(config.auth, None, st.back.net, Initialize(e, st, Some(config), clientOk).0.back.net)
  {
    hide Authenticate, AllCarry;
    var auth := config.auth;
    NothingCarried(auth, None, st.back.net, st.back.net);
    var net := st.back.net.(sdkReady := false);
    NothingCarried(auth, None, st.back.net, net);
    AuthenticateCarries(e, auth, net);
    CarryThen(auth, None, st.back.net, net, Authenticate(e, net, auth.clientID, auth.clientSecret).0);
  }

  /** The configuration whose credentials a step uses. */
  function AuthOf(st: State, ev: Event): AuthConfig {
    if ev.EvInitialize? && ev.config.Some? then ev.config.value.auth else st.back.config.auth
  }

  /**
   In every step, every request and approval request carries the configured token, or under universal auth the token
   that was read last; every login carries the configured id and secret, or those that the PIN consists of.
   */
  lemma StepCarries(e: Env, st: State, ev: Event)
    ensures AllCarry(AuthOf(st, ev), if ev.EvLogin? then Some(ev.pin) else None, st.back.net, Step(e, st, ev).0.back.net)
    ensures !ev.EvInitialize? && !ev.EvLogin? ==> Step(e, st, ev).0.back.config == st.back.config
  {
    hide ActiveStep, SignCall, GetSigners, Initialize, AllCarry;
    NothingCarried(AuthOf(st, ev), None, st.back.net, st.back.net);
    match ev
    case EvTick(_) => NothingCarried(AuthOf(st, ev), None, st.back.net, Step(e, st, ev).0.back.net);
    case EvInitialize(config, clientOk) => InitializeStepCarries(e, st, config, clientOk);
    case EvSign(h, data, hasBuffer, room) =>
      if st.initialized && data.Some? && room.Some? { SignCallCarries(e, st, h, data, hasBuffer, room.value); }
    case EvSignFinal(h, hasBuffer, room) =>
      if st.initialized && room.Some? { SignCallCarries(e, st, h, None, hasBuffer, room.value); }
    case EvGetSlotList(_, _) => GetSignersCarries(e, st.back);
    case EvLogin(h, pin) => LoginStepCarries(e, st, h, pin);
    case _ => if st.initialized { ActiveStepCarries(e, st, ev); }
  }

  lemma InitializeStepCarries(e: Env, st: State, config: Option<Config>, clientOk: bool)
    ensures AllCarry(AuthOf(st, EvInitialize(config, clientOk)), None, st.back.net, Initialize(e, st, config, clientOk).0.back.net)
  {
    hide AllCarry;
    if config.Some? {
      hide Initialize;
      InitializeCarries(e, st, config.value, clientOk);
    } else {
      NothingCarried(st.back.config.auth, None, st.back.net, st.back.net);
    }
  }

  lemma LoginStepCarries(e: Env, st: State, h: nat, pin: string)
    ensures AllCarry(st.back.config.auth, Some(pin), st.back.net, Step(e, st, EvLogin(h, pin)).0.back.net)
  {
    hide LoginBack, AllCarry;
    NothingCarried(st.back.config.auth, Some(pin), st.back.net, st.back.net);
    LoginCarries(e, st.back, pin);
  }

  lemma LoginCarries(e: Env, b: Back, pin: string)
    ensures AllCarry(b.config.auth, Some(pin), b.net, LoginBack(e, b, pin).0.net)
  {
    hide Authenticate, AccessToken, SplitClientCreds, AllCarry;
    var auth := b.config.auth;
    NothingCarried(auth, Some(pin), b.net, b.net);
    var creds := SplitClientCreds(pin);
    if creds.Some? {
      var (id, secret) := creds.value;
      var (net, ok) := Authenticate(e, b.net, id, secret);
      PinCredentials(pin, id, secret);
      OneCarried(auth, Some(pin), b.net, net, LoginCall(id, secret, ok));
    }
    AccessTokenCarries(e, auth, b.net);
    CarriedAnyway(auth, Some(pin), b.net, AccessToken(e, b.net).0);
    var net1 := AccessToken(e, b.net).0;
    AuthenticateCarries(e, auth, net1);
    var net2 := Authenticate(e, net1, auth.clientID, auth.clientSecret).0;
    CarriedAnyway(auth, Some(pin), net1, net2);
    CarryThen(auth, Some(pin), b.net, net1, net2);
  }

  /** A PIN is a client id and secret exactly when its part before the first colon and the rest are not empty. */
  lemma PinCredentials(pin: string, id: string, secret: string)
    ensures SplitClientCreds(pin) == Some((id, secret)) <==>
            pin == id + ":" + secret && id != "" && secret != "" && ':' !in id
  {
    var colon := FirstColon(pin, 0);
    if pin == id + ":" + secret && ':' !in id {
      assert pin[|id|] == ':';
      assert colon == |id| by {
        assert forall j :: 0 <= j < |id| ==> pin[j] == id[j] && id[j] in id;
      }
      assert pin[..colon] == id && pin[colon + 1..] == secret;
    }
    if SplitClientCreds(pin) == Some((id, secret)) {
      assert pin == pin[..colon] + ":" + pin[colon + 1..];
    }
  }

  // ------------------------------------------------------------------ when a request is made

  predicate Unauthorized(r: Reply) {
    r.Failed? && r.error.Api? && r.error.status == 401
  }

  /** The calls with which a token is obtained, and the outcome; `ready` says whether there is an SDK client. */
  predicate TokenWord(auth: AuthConfig, ready: bool, word: seq<Call>, token: Result<string>) {
    if auth.authMethod.TokenAuth? then
      word == [] && token == if auth.token == "" then Err(NoToken) else Ok(auth.token)
    else
      var n := if ready then 1 else 0;
      && |word| >= n && (ready ==> word[0].TokenRead?)
      && if ready && word[0].token != "" then |word| == n && token == Ok(word[0].token)
         else if auth.clientID == "" || auth.clientSecret == "" then |word| == n && token == Err(NoToken)
         else
           && |word| > n && word[n].LoginCall? && word[n].clientID == auth.clientID && word[n].clientSecret == auth.clientSecret
           && if !word[n].ok then |word| == n + 1 && token == Err(Transport)
              else && |word| == n + 2 && word[n + 1].TokenRead?
                   && token == if word[n + 1].token == "" then Err(NoToken) else Ok(word[n + 1].token)
  }

  /** The calls of a request once there is a token: it is made, and once again if a 401 can be answered by a new token. */
  predicate RequestWord(auth: AuthConfig, op: Op, token: string, word: seq<Call>, reply: Reply) {
    && |word| >= 1 && word[0].ApiCall? && word[0].bearer == token && word[0].op == op
    && var first := word[0].reply;
       if !Unauthorized(first) || auth.authMethod.TokenAuth? then |word| == 1 && reply == first
       else if auth.clientID != "" && auth.clientSecret != "" then
         && |word| >= 2 && word[1].LoginCall? && word[1].clientID == auth.clientID && word[1].clientSecret == auth.clientSecret
         && if !word[1].ok then |word| == 2 && reply == Failed(Transport) else RenewedWord(op, token, word[2..], first, reply)
       else RenewedWord(op, token, word[1..], first, reply)
  }

  predicate RenewedWord(op: Op, token: string, word: seq<Call>, first: Reply, reply: Reply) {
    && |word| >= 1 && word[0].TokenRead?
    && if word[0].token == "" || word[0].token == token then |word| == 1 && reply == first
       else |word| == 2 && word[1].ApiCall? && word[1].bearer == word[0].token && word[1].op == op && word[1].reply == reply
  }

  /** The calls made between two states. */
  function Added(n: Net, n': Net): seq<Call>
    requires |n.calls| <= |n'.calls|
  {
    n'.calls[|n.calls|..]
  }

  lemma GetTokenWord(e: Env, auth: AuthConfig, net: Net)
    ensures var (net', token) := GetToken(e, auth, net);
            && net.calls <= net'.calls && TokenWord(auth, net.sdkReady, Added(net, net'), token)
            && (net.sdkReady ==> net'.sdkReady) && (token.Ok? && auth.authMethod.UniversalAuth? ==> net'.sdkReady)
  {
    hide AccessToken, Authenticate;
    var (net1, t) := AccessToken(e, net);
    var (net2, ok) := Authenticate(e, net1, auth.clientID, auth.clientSecret);
    var (net3, t3) := AccessToken(e, net2);
    assert net.calls[|net.calls|..] == [];
    assert Added(net, net1) == if net.sdkReady then [TokenRead(t)] else [];
    assert Added(net, net2) == Added(net, net1) + [LoginCall(auth.clientID, auth.clientSecret, ok)];
    assert Added(net, net3) == Added(net, net2) + [TokenRead(t3)];
  }

  /**
   The calls of withRetryOnAuth are a token word, then, exactly if it yields a token, a request word.  A request is
   never dropped while there is a token, nor a retry while there is a new one.
   */
  lemma RequestIsMade(e: Env, auth: AuthConfig, net: Net, op: Op) returns (n: nat, token: Result<string>)
    ensures var (net', reply) := WithRetryOnAuth(e, auth, net, op);
            && net.calls <= net'.calls && n <= |Added(net, net')|
            && TokenWord(auth, net.sdkReady, Added(net, net')[..n], token)
            && if token.Err? then n == |Added(net, net')| && reply == Failed(token.error)
               else RequestWord(auth, op, token.value, Added(net, net')[n..], reply)
  {
    hide GetToken, TokenWord, RequestWord, WithRetryOnAuth;
    GetTokenWord(e, auth, net);
    var net1 := GetToken(e, auth, net).0;
    token := GetToken(e, auth, net).1;
    n := |Added(net, net1)|;
    var net' := WithRetryOnAuth(e, auth, net, op).0;
    if token.Err? {
      NoTokenNoRequest(e, auth, net, op);
    } else {
      AfterToken(e, auth, net, op);
      var word :| net'.calls == net1.calls + word && RequestWord(auth, op, token.value, word, WithRetryOnAuth(e, auth, net, op).1);
      assert Added(net, net')[n..] == word;
    }
    assert net'.calls[..|net1.calls|] == net1.calls;
    assert Added(net, net')[..n] == Added(net, net1);
  }

  lemma NoTokenNoRequest(e: Env, auth: AuthConfig, net: Net, op: Op)
    requires GetToken(e, auth, net).1.Err?
    ensures WithRetryOnAuth(e, auth, net, op) == (GetToken(e, auth, net).0, Failed(GetToken(e, auth, net).1.error))
  {
    hide GetToken;
  }

  /** The calls that answer a 401, and what they yield. */
  predicate ReauthenticationWord(auth: AuthConfig, word: seq<Call>, token: Result<string>) {
    if auth.clientID != "" && auth.clientSecret != "" then
      if token.Err? then word == [LoginCall(auth.clientID, auth.clientSecret, false)] && token == Err(Transport)
      else word == [LoginCall(auth.clientID, auth.clientSecret, true), TokenRead(token.value)]
    else token.Ok? && word == [TokenRead(token.value)]
  }

  lemma ReauthenticateWord(e: Env, auth: AuthConfig, net: Net)
    requires net.sdkReady
    ensures var (net', token) := Reauthenticate(e, auth, net);
            exists word :: net'.calls == net.calls + word && ReauthenticationWord(auth, word, token)
  {
    hide AccessToken, Authenticate;
    var (net1, ok) := Authenticate(e, net, auth.clientID, auth.clientSecret);
    var (net2, t) := AccessToken(e, net1);
    var (net', token) := Reauthenticate(e, auth, net);
    var word := if auth.clientID != "" && auth.clientSecret != "" then
                  [LoginCall(auth.clientID, auth.clientSecret, ok)] + (if ok then [TokenRead(t)] else [])
                else [TokenRead(AccessToken(e, net).1)];
    assert net'.calls == net.calls + word;
    assert ReauthenticationWord(auth, word, token);
  }

  /** A request, a 401, the answer to it, and the second request if there is a new token: a request word. */
  lemma WordAfter401(auth: AuthConfig, op: Op, token: string, first: Call, word: seq<Call>, renewed: Result<string>, second: seq<Call>, reply: Reply)
    requires first.ApiCall? && first.bearer == token && first.op == op && Unauthorized(first.reply) && auth.authMethod.UniversalAuth?
    requires ReauthenticationWord(auth, word, renewed)
    requires if renewed.Err? then second == [] && reply == Failed(renewed.error)
             else if renewed.value == "" || renewed.value == token then second == [] && reply == first.reply
             else |second| == 1 && second[0].ApiCall? && second[0].bearer == renewed.value && second[0].op == op && second[0].reply == reply
    ensures RequestWord(auth, op, token, [first] + word + second, reply)
  {
    var all := [first] + word + second;
    if auth.clientID != "" && auth.clientSecret != "" {
      assert all[1] == word[0];
      if renewed.Ok? {
        assert all[2..] == [word[1]] + second;
      }
    } else {
      assert all[1..] == [word[0]] + second;
    }
  }

  /** The rest of withRetryOnAuth, from its token on. */
  lemma AfterToken(e: Env, auth: AuthConfig, net: Net, op: Op)
    requires GetToken(e, auth, net).1.Ok?
    ensures var (net1, token) := GetToken(e, auth, net);
            var (net', reply) := WithRetryOnAuth(e, auth, net, op);
            exists word :: net'.calls == net1.calls + word && RequestWord(auth, op, token.value, word, reply)
  {
    hide GetToken, Reauthenticate, ReplyTo, TokenWord, RequestWord, ReauthenticationWord;
    GetTokenWord(e, auth, net);
    var (net1, token) := GetToken(e, auth, net);
    var (net', reply) := WithRetryOnAuth(e, auth, net, op);
    var (net2, r) := CallApi(e, net1, token.value, op);
    var first := ApiCall(net1.now, token.value, op, r);
    if Unauthorized(r) && auth.authMethod.UniversalAuth? {
      var (net3, renewed) := Reauthenticate(e, auth, net2);
      ReauthenticateWord(e, auth, net2);
      var word :| net3.calls == net2.calls + word && ReauthenticationWord(auth, word, renewed);
      var second := if renewed.Ok? && renewed.value != "" && renewed.value != token.value then [ApiCall(net3.now, renewed.value, op, reply)] else [];
      WordAfter401(auth, op, token.value, first, word, renewed, second, reply);
      assert net'.calls == net1.calls + ([first] + word + second);
    } else {
      OneCallWord(auth, op, token.value, first);
      assert net'.calls == net1.calls + [first];
    }
  }

  lemma OneCallWord(auth: AuthConfig, op: Op, token: string, first: Call)
    requires first.ApiCall? && first.bearer == token && first.op == op
    requires !Unauthorized(first.reply) || auth.authMethod.TokenAuth?
    ensures RequestWord(auth, op, token, [first], first.reply)
  {
  }
}
