/** The client as an object: the SDK client is created on first use, every call is recorded (client.go, lines 122-243). */
module Client {
  import opened Common
  import opened Errors
  import Remote

  class InfisicalClient {
    const env: Remote.Env
    var now: int
    var sdkReady: bool
    var calls: seq<Remote.Call>

    ghost function View(): Remote.Net
      reads this
    {
      Remote.Net(now, sdkReady, calls)
    }

    constructor (env: Remote.Env, now: int, calls: seq<Remote.Call>)
      ensures this.env == env && View() == Remote.Net(now, false, calls)
    {
      this.env, this.now, this.sdkReady, this.calls := env, now, false, calls;
    }

    method UniversalAuthLogin(clientID: string, clientSecret: string) returns (ok: bool)
      modifies this
      ensures (View(), ok) == Remote.Authenticate(env, old(View()), clientID, clientSecret)
    {
      sdkReady := true;
      ok := env.answers(|calls|).loginOk;
      calls := calls + [Remote.LoginCall(clientID, clientSecret, ok)];
    }

    method GetAccessToken() returns (token: string)
      modifies this
      ensures (View(), token) == Remote.AccessToken(env, old(View()))
    {
      if !sdkReady {
        return "";
      }
      token := env.answers(|calls|).token;
      calls := calls + [Remote.TokenRead(token)];
    }

    /** ListSigners, GetCertificate and Sign. */
    method Call(token: string, op: Remote.Op) returns (reply: Remote.Reply)
      modifies this
      ensures (View(), reply) == Remote.CallApi(env, old(View()), token, op)
    {
      reply := Remote.ReplyTo(op, env.answers(|calls|));
      calls := calls + [Remote.ApiCall(now, token, op, reply)];
    }

    method RequestApproval(token: string, signerID: Bytes, request: Remote.ApprovalRequest) returns (granted: bool)
      modifies this
      ensures View() == Remote.RequestApproval(env, old(View()), token, signerID, request)
    {
      granted := env.answers(|calls|).approved;
      calls := calls + [Remote.ApprovalCall(token, signerID, request, granted)];
    }
  }
}
