/** Which remote calls one signing makes, and in which order (backend.go, lines 147-210 and 999-1136). */
module Grammar {
  import opened Common
  import opened Errors
  import opened Capture
  import opened Mechanism
  import opened Slots
  import opened Remote
  import opened Cache
  import opened Signers
  import opened Requests
  import opened Attributes
  import opened Machine

  /** The signing requests and approval requests among the recorded calls. */
  predicate IsSubmission(c: Call) {
    (c.ApiCall? && c.op.Sign?) || c.ApprovalCall?
  }

  function Submitted(calls: seq<Call>): seq<Call> {
    if calls == [] then []
    else
      var last := calls[|calls| - 1];
      Submitted(calls[..|calls| - 1]) + (if IsSubmission(last) then [last] else [])
  }

  /** `net'` follows `net`, with exactly `sub` submitted in between. */
  ghost predicate Submits(net: Net, net': Net, sub: seq<Call>) {
    net.calls <= net'.calls && Submitted(net'.calls) == Submitted(net.calls) + sub
  }

  lemma RecordSubmits(net: Net, c: Call)
    ensures Submits(net, Record(net, c), if IsSubmission(c) then [c] else [])
  {
    assert (net.calls + [c])[..|net.calls|] == net.calls;
  }

  lemma SubmitsThen(a: Net, b: Net, c: Net, x: seq<Call>, y: seq<Call>)
    requires Submits(a, b, x) && Submits(b, c, y)
    ensures Submits(a, c, x + y)
  {
  }

  lemma SubmitsNothing(net: Net, net': Net)
    requires net'.calls == net.calls
    ensures Submits(net, net', [])
  {
  }

  // ------------------------------------------------------------------ getting a token submits nothing

  lemma AccessTokenSubmits(e: Env, net: Net)
    ensures Submits(net, AccessToken(e, net).0, [])
  {
    RecordSubmits(net, TokenRead(AccessToken(e, net).1));
    SubmitsNothing(net, net);
  }

  lemma AuthenticateSubmits(e: Env, net: Net, id: string, secret: string)
    ensures Submits(net, Authenticate(e, net, id, secret).0, [])
  {
    var ok := Authenticate(e, net, id, secret).1;
    RecordSubmits(net, LoginCall(id, secret, ok));
  }

  lemma GetTokenSubmits(e: Env, auth: AuthConfig, net: Net)
    ensures Submits(net, GetToken(e, auth, net).0, [])
  {
    hide AccessToken, Authenticate, Submitted;
    SubmitsNothing(net, net);
    AccessTokenSubmits(e, net);
    var net1 := AccessToken(e, net).0;
    AuthenticateSubmits(e, net1, auth.clientID, auth.clientSecret);
    AccessTokenSubmits(e, Authenticate(e, net1, auth.clientID, auth.clientSecret).0);
  }

  lemma ReauthenticateSubmits(e: Env, auth: AuthConfig, net: Net)
    ensures Submits(net, Reauthenticate(e, auth, net).0, [])
  {
    hide AccessToken, Authenticate, Submitted;
    AccessTokenSubmits(e, net);
    AuthenticateSubmits(e, net, auth.clientID, auth.clientSecret);
    AccessTokenSubmits(e, Authenticate(e, net, auth.clientID, auth.clientSecret).0);
  }

  // ------------------------------------------------------------------ at most two signing requests

  predicate SignCallOf(c: Call, op: Op) {
    c.ApiCall? && c.op == op
  }

  /** The second of two requests follows a 401 under universal auth, with another, non-empty token. */
  predicate RetriedAfter401(auth: AuthConfig, first: Call, second: Call) {
    && first.ApiCall? && second.ApiCall?
    && first.reply.Failed? && first.reply.error.Api? && first.reply.error.status == 401
    && auth.authMethod.UniversalAuth?
    && second.bearer != "" && second.bearer != first.bearer
  }

  /** No request, one, or one and its retry. */
  predicate SignRequests(auth: AuthConfig, op: Op, sub: seq<Call>) {
    |sub| <= 2
    && (|sub| >= 1 ==> SignCallOf(sub[0], op) && sub[0].bearer != "" && (auth.authMethod.TokenAuth? ==> sub[0].bearer == auth.token))
    && (|sub| == 2 ==> SignCallOf(sub[1], op) && RetriedAfter401(auth, sub[0], sub[1]))
  }

  /** How the outcome relates to the last request: it is its reply, unless logging in again failed. */
  predicate OutcomeOf(auth: AuthConfig, sub: seq<Call>, reply: Reply) {
    if sub == [] then reply == Failed(NoToken) || reply == Failed(Transport)
    else
      var last := sub[|sub| - 1];
      last.ApiCall? &&
      (last.reply == reply ||
       (|sub| == 1 && auth.authMethod.UniversalAuth? && last.reply.Failed? && last.reply.error.IsUnauthorized() &&
        reply == Failed(Transport)))
  }

  lemma RetrySubmits(e: Env, auth: AuthConfig, net: Net, op: Op) returns (sub: seq<Call>)
    requires op.Sign?
    ensures var (net', reply) := WithRetryOnAuth(e, auth, net, op);
            Submits(net, net', sub) && SignRequests(auth, op, sub) && OutcomeOf(auth, sub, reply)
    ensures sub != [] && auth.authMethod.TokenAuth? ==> auth.token != ""
  {
    hide GetToken, Reauthenticate, Submitted, ReplyTo;
    var (net1, token) := GetToken(e, auth, net);
    GetTokenSubmits(e, auth, net);
    TokenErrors(e, auth, net);
    sub := [];
    if token.Ok? {
      var (net2, reply) := CallApi(e, net1, token.value, op);
      var first := ApiCall(net1.now, token.value, op, reply);
      RecordSubmits(net1, first);
      SubmitsThen(net, net1, net2, [], [first]);
      sub := [first];
      assert [] + [first] == [first];
      if reply.Failed? && reply.error.IsUnauthorized() && auth.authMethod.UniversalAuth? {
        var (net3, renewed) := Reauthenticate(e, auth, net2);
        ReauthenticateSubmits(e, auth, net2);
        SubmitsThen(net, net2, net3, [first], []);
        assert [first] + [] == [first];
        ReauthenticateErrors(e, auth, net2);
        if renewed.Ok? && renewed.value != "" && renewed.value != token.value {
          var reply2 := CallApi(e, net3, renewed.value, op).1;
          var second := ApiCall(net3.now, renewed.value, op, reply2);
          RecordSubmits(net3, second);
          SubmitsThen(net, net3, Record(net3, second), [first], [second]);
          sub := [first, second];
          assert [first] + [second] == [first, second];
        }
      }
    }
  }

  lemma TokenErrors(e: Env, auth: AuthConfig, net: Net)
    ensures var r := GetToken(e, auth, net).1;
            && (r.Err? ==> r.error == NoToken || r.error == Transport)
            && (r.Ok? ==> r.value != "" && (auth.authMethod.TokenAuth? ==> r.value == auth.token))
            && (auth.authMethod.TokenAuth? ==> (r.Ok? <==> auth.token != ""))
  {
  }

  lemma ReauthenticateErrors(e: Env, auth: AuthConfig, net: Net)
    ensures var r := Reauthenticate(e, auth, net).1; r.Err? ==> r.error == Transport
  {
  }

  // ------------------------------------------------------------------ at most one approval request

  /** An approval request for the same signer, bound to the SHA-256 of the data that was to be signed. */
  predicate ApprovalFor(e: Env, config: Config, op: Op, c: Call) {
    && op.Sign? && c.ApprovalCall? && c.approvalSigner == op.signerID
    && c.approval.windowDuration == config.approval.signingDuration
    && c.approval.signings == (if config.approval.signingCount > 0 then config.approval.signingCount else 0)
    && ScopeOf(e.context, e.hex(e.digest(Sha256, op.request.data)), config.approval, c.approval.scope)
  }

  /** The scope names the signing situation, but for the fields that the configuration excludes. */
  predicate ScopeOf(context: SigningContext, dataHash: string, approval: ApprovalConfig, scope: SigningScope) {
    var excluded := approval.excludeScopeFields;
    && scope.command == (if "command" in excluded then "" else context.command)
    && scope.signingApplication == (if "signing_application" in excluded then "" else context.application)
    && scope.signingApplicationHash == (if "signing_application_hash" in excluded then "" else context.applicationHash)
    && scope.hostname == (if "hostname" in excluded then "" else context.hostname)
    && scope.osUsername == (if "os_username" in excluded then "" else context.osUsername)
    && scope.dataHash == (if "data_hash" in excluded then "" else dataHash)
    && match scope.ipAddress
       case Skipped => "ip_address" in excluded
       case Pinned(address) => "ip_address" !in excluded && approval.ipAddress != "" && address == approval.ipAddress
       case Omitted => "ip_address" !in excluded && approval.ipAddress == ""
  }

  /** A denial that an approval can lift, with none pending and approvals configured. */
  predicate Liftable(config: Config, error: Error) {
    && error.Api? && error.status == 403 && error.code == "ApprovalRequired" && !error.hasPendingRequest
    && (config.approval.signingCount != 0 || config.approval.signingDuration != "")
  }

  lemma DenialSubmits(e: Env, config: Config, net: Net, signer: Signer, request: SignRequest, error: Error) returns (sub: seq<Call>)
    ensures Submits(net, ReportApprovalDenial(e, config, net, signer, request.data, error), sub)
    ensures |sub| <= 1 && (sub != [] ==> ApprovalFor(e, config, Sign(signer.id, request), sub[0]))
    ensures sub != [] <==> WantsApproval(config, error) && GetToken(e, config.auth, net).1.Ok?
  {
    hide GetToken, Submitted;
    SubmitsNothing(net, net);
    sub := [];
    if WantsApproval(config, error) {
      var (net1, token) := GetToken(e, config.auth, net);
      GetTokenSubmits(e, config.auth, net);
      if token.Ok? {
        var c := ApprovalCall(token.value, signer.id, BuildApproval(e, config, request.data), e.answers(|net1.calls|).approved);
        RecordSubmits(net1, c);
        SubmitsThen(net, net1, Record(net1, c), [], [c]);
        sub := [c];
        assert [] + [c] == [c];
      }
    }
  }

  /** The calls of one signing: its requests, then at most one approval request. */
  ghost predicate SigningWord(e: Env, config: Config, op: Op, requests: seq<Call>, approvals: seq<Call>, r: Result<Signature>) {
    && SignRequests(config.auth, op, requests)
    && |approvals| <= 1
    // an approval follows only a final denial that it can lift, with none pending and approval configured
    && (approvals != [] ==>
          && r.Err? && requests != []
          && requests[|requests| - 1].reply == Failed(r.error) && Liftable(config, r.error)
          && ApprovalFor(e, config, op, approvals[0]))
    // under token auth such a denial always leads to one
    && (r.Err? && config.auth.authMethod.TokenAuth? && requests != [] && Liftable(config, r.error) ==> approvals != [])
    // a signature is the reply to the last request, and nothing comes after it
    && (r.Ok? ==> && approvals == [] && requests != []
                  && var last := requests[|requests| - 1].reply; last.Signed? && last.signature == Some(r.value))
    // and a signature that arrives is returned
    && (requests != [] ==> var last := requests[|requests| - 1].reply; last.Signed? && last.signature.Some? ==> r == Ok(last.signature.value))
  }

  lemma {:induction false} SubmittedKept(calls: seq<Call>, calls': seq<Call>)
    requires calls <= calls' && forall k :: |calls| <= k < |calls'| ==> !IsSubmission(calls'[k])
    ensures Submitted(calls') == Submitted(calls)
  {
    if |calls'| > |calls| {
      SubmittedKept(calls, calls'[..|calls'| - 1]);
    } else {
      assert calls' == calls;
    }
  }

  lemma RetrySubmitsNothing(e: Env, auth: AuthConfig, net: Net, op: Op)
    requires !op.Sign?
    ensures Submits(net, WithRetryOnAuth(e, auth, net, op).0, [])
  {
    hide GetToken, Reauthenticate, Submitted, ReplyTo;
    SubmitsNothing(net, net);
    var (net1, token) := GetToken(e, auth, net);
    GetTokenSubmits(e, auth, net);
    if token.Ok? {
      var (net2, reply) := CallApi(e, net1, token.value, op);
      RecordSubmits(net1, ApiCall(net1.now, token.value, op, reply));
      var (net3, renewed) := Reauthenticate(e, auth, net2);
      ReauthenticateSubmits(e, auth, net2);
      if renewed.Ok? {
        RecordSubmits(net3, ApiCall(net3.now, renewed.value, op, CallApi(e, net3, renewed.value, op).1));
      }
    }
  }

  /** Whatever the server answers, one signing makes the calls of such a word and no other submission. */
  lemma SigningGrammar(e: Env, b: Back, mech: nat, keyIndex: nat, data: Bytes)
    returns (op: Op, requests: seq<Call>, approvals: seq<Call>)
    ensures var (b', r) := SignInternal(e, b, mech, keyIndex, data);
            && Submits(b.net, b'.net, requests + approvals)
            && SigningWord(e, b.config, op, requests, approvals, r)
            && (requests != [] ==>
                  op.Sign? && RequestFor(e, mech, data, op.request) &&
                  var signer := GetSignerBySlot(e, b, keyIndex).1; signer.Ok? && signer.value.id == op.signerID)
            && (requests == [] ==>
                  r.Err? && (GetSignerBySlot(e, b, keyIndex).1.Err? || (forall q :: !RequestFor(e, mech, data, q)) ||
                             r.error == NoToken || r.error == Transport))
  {
    hide WithRetryOnAuth, BuildRequest, GetSigners, ReportApprovalDenial, Submitted, ApprovalFor, GetToken;
    hide SignRequests, OutcomeOf, SigningWord, WantsApproval, RequestFor;
    op, requests, approvals := ListSigners, [], [];
    GetSignersSubmits(e, b);
    var (b1, signer) := GetSignerBySlot(e, b, keyIndex);
    var request := BuildRequest(e, mech, data);
    assert requests + approvals == [];
    NoWord(e, b.config, op);
    NoneToBuild(e, mech, data);
    if signer.Ok? && request.Ok? {
      BuildsExactly(e, mech, data, request.value);
      op := Sign(signer.value.id, request.value);
      requests := RetrySubmits(e, b1.config.auth, b1.net, op);
      var (net, reply) := WithRetryOnAuth(e, b1.config.auth, b1.net, op);
      SubmitsThen(b.net, b1.net, net, [], requests);
      assert [] + requests == requests && requests + [] == requests;
      NothingRequested(b1.config.auth, requests, reply);
      if reply.Failed? {
        approvals := DenialSubmits(e, b1.config, net, signer.value, request.value, reply.error);
        SubmitsThen(b.net, net, SignInternal(e, b, mech, keyIndex, data).0.net, requests, approvals);
        DenialOutcome(e, b1.config, net, op, requests, approvals, reply.error);
      } else {
        SignedOutcome(e, b1.config, op, requests, reply);
      }
    }
  }

  lemma NothingRequested(auth: AuthConfig, requests: seq<Call>, reply: Reply)
    requires OutcomeOf(auth, requests, reply)
    ensures requests == [] ==> reply == Failed(NoToken) || reply == Failed(Transport)
  {
  }

  lemma NoneToBuild(e: Env, mech: nat, data: Bytes)
    ensures BuildRequest(e, mech, data).Err? ==> forall q :: !RequestFor(e, mech, data, q)
  {
    hide BuildRequest, RequestFor;
    forall q
      ensures BuildRequest(e, mech, data) == Ok(q) <==> RequestFor(e, mech, data, q)
    {
      BuildsExactly(e, mech, data, q);
    }
  }

  /** A signing that fails before anything is submitted. */
  lemma NoWord(e: Env, config: Config, op: Op)
    ensures forall error :: SigningWord(e, config, op, [], [], Err(error))
  {
    hide ApprovalFor;
  }

  lemma SignedOutcome(e: Env, config: Config, op: Op, requests: seq<Call>, reply: Reply)
    requires SignRequests(config.auth, op, requests) && OutcomeOf(config.auth, requests, reply) && reply.Signed?
    ensures requests != []
    ensures SigningWord(e, config, op, requests, [],
              if reply.signature.None? then Err(UndecodableSignature) else Ok(reply.signature.value))
  {
    hide ApprovalFor;
  }

  lemma DenialOutcome(e: Env, config: Config, net: Net, op: Op, requests: seq<Call>, approvals: seq<Call>, error: Error)
    requires SignRequests(config.auth, op, requests) && OutcomeOf(config.auth, requests, Failed(error))
    requires |approvals| <= 1 && (approvals != [] ==> ApprovalFor(e, config, op, approvals[0]))
    requires approvals != [] <==> WantsApproval(config, error) && GetToken(e, config.auth, net).1.Ok?
    requires requests != [] && config.auth.authMethod.TokenAuth? ==> config.auth.token != ""
    ensures SigningWord(e, config, op, requests, approvals, Err(error))
  {
    hide ApprovalFor, GetToken;
    TokenErrors(e, config.auth, net);
  }

  lemma GetSignersSubmits(e: Env, b: Back)
    ensures Submits(b.net, GetSigners(e, b).0.net, []) && GetSigners(e, b).0.config == b.config
  {
    hide WithRetryOnAuth, Submitted;
    SubmitsNothing(b.net, b.net);
    RetrySubmitsNothing(e, b.config.auth, b.net, ListSigners);
  }

  // ------------------------------------------------------------------ nothing else submits

  lemma GetCertificateSubmits(e: Env, b: Back, id: Bytes)
    ensures Submits(b.net, GetCertificateData(e, b, id).0.net, []) && GetCertificateData(e, b, id).0.config == b.config
  {
    hide WithRetryOnAuth, Submitted, GetSigners;
    SubmitsNothing(b.net, b.net);
    GetSignersSubmits(e, b);
    var (b1, signer) := GetSignerBySignerID(e, b, id);
    if signer.Ok? {
      RetrySubmitsNothing(e, b1.config.auth, b1.net, GetCertificate(signer.value.id));
    }
  }

  lemma {:induction false} AttributesSubmit(e: Env, b: Back, objType: nat, signer: Signer, types: seq<nat>)
    ensures Submits(b.net, AttributeValues(e, b, objType, signer, types).0.net, [])
  {
    hide AttributeValue, Submitted;
    SubmitsNothing(b.net, b.net);
    if types != [] {
      AttributesSubmit(e, b, objType, signer, types[..|types| - 1]);
      AttributeSubmits(e, AttributeValues(e, b, objType, signer, types[..|types| - 1]).0, objType, signer, types[|types| - 1]);
    }
  }

  lemma AttributeSubmits(e: Env, b: Back, objType: nat, signer: Signer, typ: nat)
    ensures Submits(b.net, AttributeValue(e, b, objType, signer, typ).0.net, [])
  {
    hide GetCertificateData, FixedAttribute, KeyType, Submitted;
    SubmitsNothing(b.net, b.net);
    GetCertificateSubmits(e, b, signer.id);
  }

  lemma MatchingObjectsSubmits(e: Env, b: Back, slot: nat, template: seq<Attribute>)
    ensures Submits(b.net, MatchingObjects(e, b, slot, template).0.net, [])
  {
    hide GetSigners, GetCertificateData, FilterOf, ObjectsOfClass, Truncate, Submitted;
    SubmitsNothing(b.net, b.net);
    GetSignersSubmits(e, b);
    var b1 := MatchesSigner(e, b, slot, FilterOf(template)).0;
    GetSignersSubmits(e, b1);
    var (b2, signer) := GetSignerBySlot(e, b1, slot);
    if signer.Ok? {
      GetCertificateSubmits(e, b2, signer.value.id);
    }
  }

  lemma LoginSubmits(e: Env, b: Back, pin: string)
    ensures Submits(b.net, LoginBack(e, b, pin).0.net, [])
  {
    hide Authenticate, AccessToken, SplitClientCreds, Submitted;
    SubmitsNothing(b.net, b.net);
    var creds := SplitClientCreds(pin);
    if creds.Some? {
      AuthenticateSubmits(e, b.net, creds.value.0, creds.value.1);
    }
    AccessTokenSubmits(e, b.net);
    AuthenticateSubmits(e, AccessToken(e, b.net).0, b.config.auth.clientID, b.config.auth.clientSecret);
  }

  lemma OpenSubmits(e: Env, st: State, slot: nat)
    ensures Submits(st.back.net, OpenSession(e, st, slot).0.back.net, [])
  {
    hide GetSigners, AccessToken, Submitted;
    GetSignersSubmits(e, st.back);
    AccessTokenSubmits(e, GetSignerBySlot(e, st.back, slot).0.net);
  }

  lemma ActiveStepSubmits(e: Env, st: State, ev: Event)
    ensures Submits(st.back.net, ActiveStep(e, st, ev).0.back.net, [])
  {
    hide GetSigners, AttributeValues, OpenSession, LoginBack, MatchingObjects, ParseObjectHandle, Submitted;
    SubmitsNothing(st.back.net, st.back.net);
    match ev
    case EvSlotQuery(_) => GetSignersSubmits(e, st.back);
    case EvOpenSession(slot) => OpenSubmits(e, st, slot);
    case EvLogin(_, pin) => LoginSubmits(e, st.back, pin);
    case EvFindObjectsInit(h, template) =>
      if h in st.table.sessions {
        MatchingObjectsSubmits(e, st.back, st.table.sessions[h].slotID, template);
      }
    case EvGetAttributeValue(_, obj, types) =>
      GetSignersSubmits(e, st.back);
      var (objType, slot) := ParseObjectHandle(obj);
      var (b1, signer) := GetSignerBySlot(e, st.back, slot);
      if signer.Ok? {
        AttributesSubmit(e, b1, objType, signer.value, types);
      }
    case _ =>
  }

  lemma InitializeSubmits(e: Env, st: State, config: Option<Config>, clientOk: bool)
    ensures Submits(st.back.net, Initialize(e, st, config, clientOk).0.back.net, [])
  {
    hide Authenticate, Submitted;
    SubmitsNothing(st.back.net, st.back.net);
    SubmitsNothing(st.back.net, st.back.net.(sdkReady := false));
    if config.Some? {
      AuthenticateSubmits(e, st.back.net.(sdkReady := false), config.value.auth.clientID, config.value.auth.clientSecret);
    }
  }

  /** The session on which a step really computes a signature. */
  predicate Computes(st: State, ev: Event) {
    && st.initialized
    && (ev.EvSign? || ev.EvSignFinal?)
    && ev.hasBuffer && ev.room.Some? && (ev.EvSign? ==> ev.data.Some?)
    && ev.h in st.table.sessions
    && st.table.sessions[ev.h].signActive && st.table.sessions[ev.h].cachedSignature.None?
  }

  lemma SignCallSubmits(e: Env, st: State, h: nat, data: Option<Bytes>, hasBuffer: bool, room: nat)
    returns (requests: seq<Call>, approvals: seq<Call>)
    ensures Submits(st.back.net, SignCall(e, st, h, data, hasBuffer, room).0.back.net, requests + approvals)
    ensures |requests| <= 2 && |approvals| <= 1
    ensures requests + approvals != [] ==>
              hasBuffer && h in st.table.sessions && st.table.sessions[h].signActive && st.table.sessions[h].cachedSignature.None?
  {
    hide GetSigners, SignInternal, Contains, Submitted;
    requests, approvals := [], [];
    assert requests + approvals == [];
    SubmitsNothing(st.back.net, st.back.net);
    if !hasBuffer {
      GetSignersSubmits(e, st.back);
    } else if h in st.table.sessions {
      var s := st.table.sessions[h];
      if s.signActive && s.cachedSignature.None? {
        var op;
        op, requests, approvals := SigningGrammar(e, st.back, s.signMech, s.signKeyIndex, if data.Some? then data.value else s.signBuffer);
      }
    }
  }

  /**
   One step submits at most two signing requests and one approval request, and none at all unless it is a
   C_Sign or C_SignFinal that computes a signature: no size query, retry, login or find ever does.
   */
  lemma StepSubmits(e: Env, st: State, ev: Event) returns (requests: seq<Call>, approvals: seq<Call>)
    ensures Submits(st.back.net, Step(e, st, ev).0.back.net, requests + approvals)
    ensures |requests| <= 2 && |approvals| <= 1
    ensures requests + approvals != [] ==> Computes(st, ev)
  {
    hide ActiveStep, SignCall, GetSigners, Initialize, Submitted;
    requests, approvals := [], [];
    assert requests + approvals == [];
    SubmitsNothing(st.back.net, st.back.net);
    match ev
    case EvTick(_) => SubmitsNothing(st.back.net, Step(e, st, ev).0.back.net);
    case EvInitialize(config, clientOk) => InitializeSubmits(e, st, config, clientOk);
    case EvSign(h, data, hasBuffer, room) =>
      if st.initialized && data.Some? && room.Some? {
        requests, approvals := SignCallSubmits(e, st, h, data, hasBuffer, room.value);
      }
    case EvSignFinal(h, hasBuffer, room) =>
      if st.initialized && room.Some? {
        requests, approvals := SignCallSubmits(e, st, h, None, hasBuffer, room.value);
      }
    case EvGetSlotList(_, _) => GetSignersSubmits(e, st.back);
    case _ => if st.initialized { ActiveStepSubmits(e, st, ev); }
  }
}
