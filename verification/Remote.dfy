/**
 The server and the clock as an oracle, and the calls made to them: authentication, tokens and the
 retry after a 401 (client.go, lines 122-243; backend.go, lines 143-210).
 The oracle may answer anything: its k-th answer is used by the k-th call, and every call is recorded.
 */
module Remote {
  import opened Common
  import opened Errors
  import opened Capture
  import opened Mechanism
  import opened EcKey

  // ------------------------------------------------------------------ what travels

  /** `keyAlgorithm` is the lower-cased name of the key's algorithm. */
  datatype Signer = Signer(id: Bytes, name: Bytes, certificateID: string, keyAlgorithm: string)

  /** base64 is injective, so the payload stands for its encoding; the context for the client metadata. */
  datatype SignRequest = SignRequest(data: Bytes, algorithm: Algorithm, isDigest: bool, context: SigningContext)

  datatype ApprovalRequest = ApprovalRequest(scope: SigningScope, windowDuration: string, signings: int)

  /** The server never returns an empty signature. */
  type Signature = s: Bytes | |s| > 0 witness [0]

  datatype Op =
    | ListSigners
    | GetCertificate(signerID: Bytes)
    | Sign(signerID: Bytes, request: SignRequest)

  /** `None` where what arrived does not decode (PEM, base64). */
  datatype Reply =
    | Failed(error: Error)
    | Listed(signers: seq<Signer>)
    | Fetched(certificate: Option<Bytes>)
    | Signed(signature: Option<Signature>)

  datatype Call =
    | LoginCall(clientID: string, clientSecret: string, ok: bool)
    | TokenRead(token: string)
    | ApiCall(at: int, bearer: string, op: Op, reply: Reply)
    | ApprovalCall(approvalBearer: string, approvalSigner: Bytes, approval: ApprovalRequest, granted: bool)

  datatype Answer = Answer(
    loginOk: bool,
    token: string,
    listed: Result<seq<Signer>>,
    fetched: Result<Option<Bytes>>,
    signed: Result<Option<Signature>>,
    approved: bool)

  /** crypto/x509 refuses a modulus that is not positive. */
  type Modulus = m: Bytes | |m| > 0 witness [1]

  datatype PublicKey = Rsa(modulus: Modulus, exponent: Bytes) | Ec(curve: Curve, x: nat, y: nat) | OtherKey

  datatype Certificate = Certificate(subject: Bytes, issuer: Bytes, serial: Bytes, key: PublicKey)

  /** Everything the program cannot see into. */
  datatype Env = Env(
    answers: nat -> Answer,
    digest: (Hash, Bytes) -> Bytes,
    hex: Bytes -> string,
    parseCertificate: Bytes -> Option<Certificate>,
    context: SigningContext)

  /** The state of the client: the clock, whether the SDK client exists, and the calls so far. */
  datatype Net = Net(now: int, sdkReady: bool, calls: seq<Call>)

  function Record(net: Net, call: Call): Net {
    net.(calls := net.calls + [call])
  }

  function ReplyTo(op: Op, a: Answer): Reply {
    match op
    case ListSigners => if a.listed.Ok? then Listed(a.listed.value) else Failed(a.listed.error)
    case GetCertificate(_) => if a.fetched.Ok? then Fetched(a.fetched.value) else Failed(a.fetched.error)
    case Sign(_, _) => if a.signed.Ok? then Signed(a.signed.value) else Failed(a.signed.error)
  }

  predicate Answers(op: Op, reply: Reply) {
    reply.Failed? ||
    match op
    case ListSigners => reply.Listed?
    case GetCertificate(_) => reply.Fetched?
    case Sign(_, _) => reply.Signed?
  }

  // ------------------------------------------------------------------ the client

  datatype AuthMethod = UniversalAuth | TokenAuth

  datatype AuthConfig = AuthConfig(authMethod: AuthMethod, clientID: string, clientSecret: string, token: string)
  {
    predicate HasConfigCredentials() {
      clientID != "" && clientSecret != ""
    }

    predicate IsTokenAuth() {
      authMethod.TokenAuth? && token != ""
    }
  }

  /** UniversalAuthLogin creates the SDK client if there is none yet. */
  function Authenticate(e: Env, net: Net, clientID: string, clientSecret: string): (r: (Net, bool))
    ensures r.0 == Net(net.now, true, net.calls + [LoginCall(clientID, clientSecret, r.1)])
  {
    var ok := e.answers(|net.calls|).loginOk;
    (Record(net.(sdkReady := true), LoginCall(clientID, clientSecret, ok)), ok)
  }

  /** GetAccessToken: empty without an SDK client, otherwise whatever token the SDK holds by now. */
  function AccessToken(e: Env, net: Net): (r: (Net, string))
    ensures r.0 == if net.sdkReady then Record(net, TokenRead(r.1)) else net
    ensures !net.sdkReady ==> r.1 == ""
  {
    if !net.sdkReady then (net, "")
    else
      var token := e.answers(|net.calls|).token;
      (Record(net, TokenRead(token)), token)
  }

  function CallApi(e: Env, net: Net, token: string, op: Op): (r: (Net, Reply))
    ensures r.0 == Record(net, ApiCall(net.now, token, op, r.1)) && Answers(op, r.1)
  {
    var reply := ReplyTo(op, e.answers(|net.calls|));
    (Record(net, ApiCall(net.now, token, op, reply)), reply)
  }

  function RequestApproval(e: Env, net: Net, token: string, signerID: Bytes, request: ApprovalRequest): Net {
    Record(net, ApprovalCall(token, signerID, request, e.answers(|net.calls|).approved))
  }

  // ------------------------------------------------------------------ tokens and the retry

  function GetToken(e: Env, auth: AuthConfig, net: Net): (Net, Result<string>) {
    if auth.authMethod.TokenAuth? then
      (net, if auth.token == "" then Err(NoToken) else Ok(auth.token))
    else
      var (net1, token) := AccessToken(e, net);
      if token != "" then (net1, Ok(token))
      else if auth.HasConfigCredentials() then
        var (net2, ok) := Authenticate(e, net1, auth.clientID, auth.clientSecret);
        if !ok then (net2, Err(Transport))
        else
          var (net3, token3) := AccessToken(e, net2);
          (net3, if token3 != "" then Ok(token3) else Err(NoToken))
      else (net1, Err(NoToken))
  }

  /** After a 401 under universal auth: log in again if credentials are configured, then read the token. */
  function Reauthenticate(e: Env, auth: AuthConfig, net: Net): (Net, Result<string>) {
    if auth.HasConfigCredentials() then
      var (net1, ok) := Authenticate(e, net, auth.clientID, auth.clientSecret);
      if !ok then (net1, Err(Transport))
      else
        var (net2, token) := AccessToken(e, net1);
        (net2, Ok(token))
    else
      var (net1, token) := AccessToken(e, net);
      (net1, Ok(token))
  }

  function WithRetryOnAuth(e: Env, auth: AuthConfig, net: Net, op: Op): (r: (Net, Reply))
    ensures Answers(op, r.1)
  {
    var (net1, token) := GetToken(e, auth, net);
    if token.Err? then (net1, Failed(token.error))
    else
      var (net2, reply) := CallApi(e, net1, token.value, op);
      if !reply.Failed? || !reply.error.IsUnauthorized() || auth.authMethod.TokenAuth? then (net2, reply)
      else
        var (net3, renewed) := Reauthenticate(e, auth, net2);
        if renewed.Err? then (net3, Failed(renewed.error))
        else if renewed.value == "" || renewed.value == token.value then (net3, reply)
        else CallApi(e, net3, renewed.value, op)
  }
}
