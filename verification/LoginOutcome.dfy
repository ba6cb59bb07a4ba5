/** When C_Login succeeds, said with the calls it makes, and what it does to the flags (backend.go, lines 325-379). */
module LoginOutcome {
  import opened Common
  import opened Errors
  import opened Slots
  import opened Remote
  import opened Signers
  import opened Machine
  import opened Tokens

  /** The flag of every session on the slot is set, and nothing else changes. */
  ghost predicate SlotLoggedIn(t: Table, t': Table, slot: nat) {
    && t'.nextID == t.nextID && t'.sessions.Keys == t.sessions.Keys
    && forall k :: k in t.sessions ==>
         t'.sessions[k] == (if t.sessions[k].slotID == slot then t.sessions[k].(loggedIn := true) else t.sessions[k])
  }

  /** What a login does to the sessions, given whether it is accepted. */
  ghost predicate FlagsFollow(st: State, st': State, h: nat, accepted: bool) {
    st'.initialized == st.initialized &&
    if accepted then h in st.table.sessions && SlotLoggedIn(st.table, st'.table, st.table.sessions[h].slotID)
    else st'.table == st.table
  }

  lemma FlagsOfLogin(e: Env, st: State, h: nat, pin: string)
    requires st.initialized
    ensures var (st', out) := Step(e, st, EvLogin(h, pin));
            var (b, error) := LoginBack(e, st.back, pin);
            && FlagsFollow(st, st', h, out == Returned(OK))
            && (out == Returned(OK) <==> h in st.table.sessions && error.None?)
            && st'.back == (if h in st.table.sessions then b else st.back)
  {
    hide LoginBack, LogInSlot, SlotLoggedIn;
    if h in st.table.sessions {
      SetsWholeSlot(st.table, h);
      var (st', out) := Step(e, st, EvLogin(h, pin));
      var (b, error) := LoginBack(e, st.back, pin);
      assert st'.back == b && (out == Returned(OK) <==> error.None?);
      assert FlagsFollow(st, st', h, out == Returned(OK));
    }
  }

  lemma SetsWholeSlot(t: Table, h: nat)
    requires h in t.sessions
    ensures SlotLoggedIn(t, LogInSlot(t, h), t.sessions[h].slotID)
  {
  }

  /** The PIN "id:secret": accepted exactly when the session is open and the server accepts this very pair. */
  lemma LoginWithCredentials(e: Env, st: State, h: nat, id: string, secret: string)
    requires st.initialized && id != "" && secret != "" && ':' !in id
    ensures var (st', out) := Step(e, st, EvLogin(h, id + ":" + secret));
            var (before, after) := (st.back.net.calls, st'.back.net.calls);
            && (if h in st.table.sessions then exists ok :: after == before + [LoginCall(id, secret, ok)] else after == before)
            && (out == Returned(OK) <==> h in st.table.sessions && after[|after| - 1] == LoginCall(id, secret, true))
            && FlagsFollow(st, st', h, out == Returned(OK)) && st'.back.config == st.back.config
  {
    hide FlagsFollow, LoginBack, Step;
    var pin := id + ":" + secret;
    PinCredentials(pin, id, secret);
    FlagsOfLogin(e, st, h, pin);
    CredentialsBack(e, st.back, pin, id, secret);
  }

  lemma CredentialsBack(e: Env, b: Back, pin: string, id: string, secret: string)
    requires pin != "" && SplitClientCreds(pin) == Some((id, secret))
    ensures var (b', error) := LoginBack(e, b, pin);
            var ok := Authenticate(e, b.net, id, secret).1;
            && b'.net.calls == b.net.calls + [LoginCall(id, secret, ok)] && (error.None? <==> ok) && b'.config == b.config
  {
    hide SplitClientCreds, Authenticate;
  }

  /** A PIN that is such a pair. */
  ghost predicate IsPair(pin: string) {
    exists id, secret :: pin == id + ":" + secret && id != "" && secret != "" && ':' !in id
  }

  /** Any other PIN is an access token: always accepted on an open session, without a call, and used from then on. */
  lemma LoginWithToken(e: Env, st: State, h: nat, pin: string)
    requires st.initialized && pin != "" && !IsPair(pin)
    ensures var (st', out) := Step(e, st, EvLogin(h, pin));
            && (out == Returned(OK) <==> h in st.table.sessions)
            && FlagsFollow(st, st', h, out == Returned(OK)) && st'.back.net == st.back.net
            && st'.back.config == if out != Returned(OK) then st.back.config else
                 st.back.config.(auth := AuthConfig(TokenAuth, st.back.config.auth.clientID, st.back.config.auth.clientSecret, pin))
  {
    hide FlagsFollow, Step;
    FlagsOfLogin(e, st, h, pin);
    var creds := SplitClientCreds(pin);
    if creds.Some? {
      PinCredentials(pin, creds.value.0, creds.value.1);
    }
  }

  /** Without a PIN, under token auth: accepted exactly when a token is configured, without a call. */
  lemma LoginWithConfiguredToken(e: Env, st: State, h: nat)
    requires st.initialized && st.back.config.auth.authMethod.TokenAuth?
    ensures var (st', out) := Step(e, st, EvLogin(h, ""));
            && (out == Returned(OK) <==> h in st.table.sessions && st.back.config.auth.token != "")
            && FlagsFollow(st, st', h, out == Returned(OK)) && st'.back == st.back
  {
    hide FlagsFollow, Step;
    FlagsOfLogin(e, st, h, "");
  }

  /**
   The calls of a login with the configured id and secret, and whether they add up to an acceptance: the SDK's token if
   it holds one and both are configured, otherwise a login that the server accepts.
   */
  predicate ConfiguredWord(auth: AuthConfig, ready: bool, word: seq<Call>, accepted: bool) {
    var n := if ready then 1 else 0;
    && |word| >= n && (ready ==> word[0].TokenRead?)
    && if ready && word[0].token != "" && auth.clientID != "" && auth.clientSecret != "" then |word| == n && accepted
       else if auth.clientID == "" then |word| == n && !accepted
       else |word| == n + 1 && word[n] == LoginCall(auth.clientID, auth.clientSecret, accepted)
  }

  /** Without a PIN, under universal auth: accepted exactly when the calls made add up to it. */
  lemma LoginWithConfiguredPair(e: Env, st: State, h: nat)
    requires st.initialized && st.back.config.auth.authMethod.UniversalAuth?
    ensures var (st', out) := Step(e, st, EvLogin(h, ""));
            && st.back.net.calls <= st'.back.net.calls && st'.back.config == st.back.config
            && (if h in st.table.sessions then
                  ConfiguredWord(st.back.config.auth, st.back.net.sdkReady, Added(st.back.net, st'.back.net), out == Returned(OK))
                else st'.back == st.back && out != Returned(OK))
            && FlagsFollow(st, st', h, out == Returned(OK))
  {
    hide FlagsFollow, Step, LoginBack, ConfiguredWord;
    FlagsOfLogin(e, st, h, "");
    ConfiguredBack(e, st.back);
  }

  lemma ConfiguredBack(e: Env, b: Back)
    requires b.config.auth.authMethod.UniversalAuth?
    ensures var (b', error) := LoginBack(e, b, "");
            && b.net.calls <= b'.net.calls && b'.config == b.config
            && ConfiguredWord(b.config.auth, b.net.sdkReady, Added(b.net, b'.net), error.None?)
  {
    hide Authenticate, AccessToken, SplitClientCreds;
    var auth := b.config.auth;
    var (net1, token) := AccessToken(e, b.net);
    var (net2, ok) := Authenticate(e, net1, auth.clientID, auth.clientSecret);
    assert Added(b.net, net1) == if b.net.sdkReady then [TokenRead(token)] else [];
    assert Added(b.net, net2) == Added(b.net, net1) + [LoginCall(auth.clientID, auth.clientSecret, ok)];
  }

  // ------------------------------------------------------------------ the first login

  /** What C_Initialize leaves: nothing cached, no session, and one login if id and secret are configured. */
  lemma InitializeOutcome(e: Env, st: State, config: Option<Config>, clientOk: bool)
    ensures var (st', out) := Step(e, st, EvInitialize(config, clientOk));
            && (out == Returned(OK) <==> !st.initialized && config.Some? && clientOk)
            && if out == Returned(OK) then
                 var auth := config.value.auth;
                 && st'.initialized && st'.table.sessions == map[] && st'.back.config == config.value
                 && st'.back.signers.entry.None? && st'.back.certs.certs == map[] && st'.back.certs.pubKeys == map[]
                 && (if auth.clientID != "" && auth.clientSecret != "" then
                       exists ok :: st'.back.net.calls == st.back.net.calls + [LoginCall(auth.clientID, auth.clientSecret, ok)]
                     else st'.back.net.calls == st.back.net.calls && !st'.back.net.sdkReady)
               else st'.table == st.table && st'.initialized == st.initialized && st'.back.net == st.back.net
  {
    hide Authenticate;
    if config.Some? {
      var auth := config.value.auth;
      var ok := Authenticate(e, st.back.net.(sdkReady := false), auth.clientID, auth.clientSecret).1;
      assert ok == true || ok == false;
    }
  }
}
