/**
 Conservation of signatures.  Over every run, the signatures obtained from the server are exactly those
 delivered to callers, those cached in sessions still open, and those dropped with a closed session.
 */
module Conservation {
  import opened Common
  import opened Errors
  import opened Slots
  import opened Remote
  import opened Cache
  import opened Signers
  import opened Attributes
  import opened Machine

  // ------------------------------------------------------------------ the three accounts

  // Each account counts how often one signature `x` occurs in it.

  function Single(x: Bytes, sig: Option<Bytes>): nat {
    if sig == Some(x) then 1 else 0
  }

  /** What a call brought in. */
  function SignatureOf(c: Call): Option<Bytes> {
    if c.ApiCall? && c.reply.Signed? then c.reply.signature else None
  }

  /** All signatures the server has returned, with multiplicity. */
  function Obtained(x: Bytes, calls: seq<Call>): nat {
    if calls == [] then 0
    else Obtained(x, calls[..|calls| - 1]) + Single(x, SignatureOf(calls[|calls| - 1]))
  }

  /** The signatures cached in the sessions with handles below `n`. */
  function CachedBelow(x: Bytes, m: map<nat, SessionState>, n: nat): nat {
    if n == 0 then 0
    else CachedBelow(x, m, n - 1) + (if n - 1 in m then Single(x, m[n - 1].cachedSignature) else 0)
  }

  function Cached(x: Bytes, t: Table): nat {
    CachedBelow(x, t.sessions, t.nextID)
  }

  /** What a step hands to its caller with CKR_OK. */
  function DeliveredBy(x: Bytes, out: Output): nat {
    if out.SignResult? && out.out.rv == OK then Single(x, out.out.signature) else 0
  }

  /** The sessions a step removes from the table. */
  function Removed(st: State, ev: Event): map<nat, SessionState> {
    var m := st.table.sessions;
    match ev
    case EvInitialize(config, clientOk) =>
      if !st.initialized && config.Some? && clientOk then m else map[]
    case EvCloseSession(h) => if st.initialized then map k | k in m && k == h :: m[k] else map[]
    case EvCloseAllSessions(slot) => if st.initialized then map k | k in m && m[k].slotID == slot :: m[k] else map[]
    case _ => map[]
  }

  function DroppedBy(x: Bytes, st: State, ev: Event): nat {
    CachedBelow(x, Removed(st, ev), st.table.nextID)
  }

  function Delivered(x: Bytes, e: Env, st: State, events: seq<Event>): nat {
    if events == [] then 0
    else
      var front := events[..|events| - 1];
      Delivered(x, e, st, front) + DeliveredBy(x, Step(e, Run(e, st, front), events[|events| - 1]).1)
  }

  function Dropped(x: Bytes, e: Env, st: State, events: seq<Event>): nat {
    if events == [] then 0
    else
      var front := events[..|events| - 1];
      Dropped(x, e, st, front) + DroppedBy(x, Run(e, st, front), events[|events| - 1])
  }

  /** Handles are issued in order. */
  ghost predicate HandlesBelow(t: Table) {
    forall h :: h in t.sessions ==> h < t.nextID
  }

  // ------------------------------------------------------------------ the server's side

  lemma ObtainedRecord(x: Bytes, net: Net, c: Call)
    ensures Obtained(x, Record(net, c).calls) == Obtained(x, net.calls) + Single(x, SignatureOf(c))
  {
    assert (net.calls + [c])[..|net.calls|] == net.calls;
  }

  lemma AccessTokenObtains(x: Bytes, e: Env, net: Net)
    ensures Obtained(x, AccessToken(e, net).0.calls) == Obtained(x, net.calls)
  {
    ObtainedRecord(x, net, TokenRead(AccessToken(e, net).1));
  }

  lemma AuthenticateObtains(x: Bytes, e: Env, net: Net, id: string, secret: string)
    ensures Obtained(x, Authenticate(e, net, id, secret).0.calls) == Obtained(x, net.calls)
  {
    ObtainedRecord(x, net, LoginCall(id, secret, Authenticate(e, net, id, secret).1));
  }

  lemma GetTokenObtains(x: Bytes, e: Env, auth: AuthConfig, net: Net)
    ensures Obtained(x, GetToken(e, auth, net).0.calls) == Obtained(x, net.calls)
  {
    AccessTokenObtains(x, e, net);
    var net1 := AccessToken(e, net).0;
    AuthenticateObtains(x, e, net1, auth.clientID, auth.clientSecret);
    AccessTokenObtains(x, e, Authenticate(e, net1, auth.clientID, auth.clientSecret).0);
  }

  lemma ReauthenticateObtains(x: Bytes, e: Env, auth: AuthConfig, net: Net)
    ensures Obtained(x, Reauthenticate(e, auth, net).0.calls) == Obtained(x, net.calls)
  {
    AccessTokenObtains(x, e, net);
    AuthenticateObtains(x, e, net, auth.clientID, auth.clientSecret);
    AccessTokenObtains(x, e, Authenticate(e, net, auth.clientID, auth.clientSecret).0);
  }

  lemma CallApiObtains(x: Bytes, e: Env, net: Net, token: string, op: Op)
    ensures var (net', reply) := CallApi(e, net, token, op);
            Obtained(x, net'.calls) == Obtained(x, net.calls) + (if reply.Signed? then Single(x, reply.signature) else 0)
  {
    ObtainedRecord(x, net, ApiCall(net.now, token, op, CallApi(e, net, token, op).1));
  }

  /** Of the at most two calls made, only the one whose reply is returned can have brought a signature. */
  lemma RetryObtains(x: Bytes, e: Env, auth: AuthConfig, net: Net, op: Op)
    ensures var (net', reply) := WithRetryOnAuth(e, auth, net, op);
            Obtained(x, net'.calls) == Obtained(x, net.calls) + (if reply.Signed? then Single(x, reply.signature) else 0)
  {
    hide Obtained, GetToken, Reauthenticate, CallApi;
    var (net1, token) := GetToken(e, auth, net);
    GetTokenObtains(x, e, auth, net);
    if token.Ok? {
      var (net2, reply) := CallApi(e, net1, token.value, op);
      CallApiObtains(x, e, net1, token.value, op);
      if reply.Failed? {
        var (net3, renewed) := Reauthenticate(e, auth, net2);
        ReauthenticateObtains(x, e, auth, net2);
        if renewed.Ok? {
          CallApiObtains(x, e, net3, renewed.value, op);
        }
      }
    }
  }

  lemma GetSignersObtains(x: Bytes, e: Env, b: Back)
    ensures Obtained(x, GetSigners(e, b).0.net.calls) == Obtained(x, b.net.calls)
  {
    hide Obtained, WithRetryOnAuth;
    RetryObtains(x, e, b.config.auth, b.net, ListSigners);
  }

  lemma GetCertificateObtains(x: Bytes, e: Env, b: Back, id: Bytes)
    ensures Obtained(x, GetCertificateData(e, b, id).0.net.calls) == Obtained(x, b.net.calls)
  {
    hide Obtained, WithRetryOnAuth, GetSigners;
    GetSignersObtains(x, e, b);
    var (b1, signer) := GetSignerBySignerID(e, b, id);
    if signer.Ok? {
      RetryObtains(x, e, b1.config.auth, b1.net, GetCertificate(signer.value.id));
    }
  }

  lemma AttributeObtains(x: Bytes, e: Env, b: Back, objType: nat, signer: Signer, typ: nat)
    ensures Obtained(x, AttributeValue(e, b, objType, signer, typ).0.net.calls) == Obtained(x, b.net.calls)
  {
    hide Obtained, GetCertificateData, FixedAttribute, KeyType;
    GetCertificateObtains(x, e, b, signer.id);
  }

  lemma {:induction false} AttributesObtain(x: Bytes, e: Env, b: Back, objType: nat, signer: Signer, types: seq<nat>)
    ensures Obtained(x, AttributeValues(e, b, objType, signer, types).0.net.calls) == Obtained(x, b.net.calls)
  {
    hide Obtained, AttributeValue;
    if types != [] {
      var front := types[..|types| - 1];
      AttributesObtain(x, e, b, objType, signer, front);
      AttributeObtains(x, e, AttributeValues(e, b, objType, signer, front).0, objType, signer, types[|types| - 1]);
    }
  }

  /** A successful signing brings in exactly the signature it returns, a failed one brings in nothing. */
  lemma SignInternalObtains(x: Bytes, e: Env, b: Back, mech: nat, keyIndex: nat, data: Bytes)
    ensures var (b', sig) := SignInternal(e, b, mech, keyIndex, data);
            Obtained(x, b'.net.calls) == Obtained(x, b.net.calls) + (if sig.Ok? then Single(x, Some(sig.value)) else 0)
  {
    hide Obtained, WithRetryOnAuth, GetSigners, GetToken, BuildRequest, BuildApproval;
    GetSignersObtains(x, e, b);
    var (b1, signer) := GetSignerBySlot(e, b, keyIndex);
    var request := BuildRequest(e, mech, data);
    if signer.Ok? && request.Ok? {
      var op := Sign(signer.value.id, request.value);
      RetryObtains(x, e, b1.config.auth, b1.net, op);
      var (net, reply) := WithRetryOnAuth(e, b1.config.auth, b1.net, op);
      if reply.Failed? {
        GetTokenObtains(x, e, b1.config.auth, net);
        var (net1, token) := GetToken(e, b1.config.auth, net);
        if token.Ok? {
          var approval := BuildApproval(e, b1.config, request.value.data);
          var granted := e.answers(|net1.calls|).approved;
          ObtainedRecord(x, net1, ApprovalCall(token.value, signer.value.id, approval, granted));
        }
      }
    }
  }

  // ------------------------------------------------------------------ the sessions' side

  lemma {:induction false} CachedSplit(x: Bytes, m: map<nat, SessionState>, a: map<nat, SessionState>, b: map<nat, SessionState>, n: nat)
    requires forall h :: h in m <==> h in a || h in b
    requires forall h :: h in a ==> h !in b && a[h] == m[h]
    requires forall h :: h in b ==> b[h] == m[h]
    ensures CachedBelow(x, m, n) == CachedBelow(x, a, n) + CachedBelow(x, b, n)
  {
    if n > 0 {
      CachedSplit(x, m, a, b, n - 1);
    }
  }

  lemma {:induction false} CachedSame(x: Bytes, m: map<nat, SessionState>, m': map<nat, SessionState>, n: nat)
    requires forall h :: h < n ==> (h in m <==> h in m')
    requires forall h :: h < n && h in m ==> m[h].cachedSignature == m'[h].cachedSignature
    ensures CachedBelow(x, m, n) == CachedBelow(x, m', n)
  {
    if n > 0 {
      CachedSame(x, m, m', n - 1);
    }
  }

  lemma {:induction false} CachedPut(x: Bytes, m: map<nat, SessionState>, h: nat, s: SessionState, n: nat)
    requires h in m && h < n
    ensures CachedBelow(x, m[h := s], n) + Single(x, m[h].cachedSignature) == CachedBelow(x, m, n) + Single(x, s.cachedSignature)
  {
    if h == n - 1 {
      CachedSame(x, m, m[h := s], n - 1);
    } else {
      CachedPut(x, m, h, s, n - 1);
    }
  }

  lemma {:induction false} CachedEmpty(x: Bytes, n: nat)
    ensures CachedBelow(x, map[], n) == 0
  {
    if n > 0 {
      CachedEmpty(x, n - 1);
    }
  }

  lemma CachedSameTable(x: Bytes, t: Table, t': Table)
    requires t.nextID == t'.nextID && t.sessions.Keys == t'.sessions.Keys
    requires forall h :: h in t.sessions ==> t'.sessions[h].cachedSignature == t.sessions[h].cachedSignature
    ensures Cached(x, t') == Cached(x, t)
  {
    CachedSame(x, t.sessions, t'.sessions, t.nextID);
  }

  // ------------------------------------------------------------------ one step

  /** Everything that came in or was held before is held, delivered or dropped afterwards. */
  ghost predicate Balanced(x: Bytes, st: State, st': State, delivered: nat, dropped: nat) {
    Obtained(x, st'.back.net.calls) + Cached(x, st.table) ==
    Obtained(x, st.back.net.calls) + Cached(x, st'.table) + delivered + dropped
  }

  /** What one changed session means for the accounts. */
  lemma PutBalances(x: Bytes, st: State, st': State, h: nat, s: SessionState, delivered: nat)
    requires HandlesBelow(st.table) && h in st.table.sessions
    requires st'.table == Put(st.table, h, s)
    requires Obtained(x, st'.back.net.calls) + Single(x, st.table.sessions[h].cachedSignature) ==
             Obtained(x, st.back.net.calls) + Single(x, s.cachedSignature) + delivered
    ensures HandlesBelow(st'.table) && Balanced(x, st, st', delivered, 0)
  {
    CachedPut(x, st.table.sessions, h, s, st.table.nextID);
  }

  /** After Sign or SignFinal the signature is in flight: no session holds it any more. */
  lemma SignOrReplayBalances(x: Bytes, e: Env, st: State, h: nat, data: Option<Bytes>)
    requires h in st.table.sessions
    ensures var (st1, r) := SignOrReplay(e, st, h, data);
            && h in st1.table.sessions && st1.table == Put(st.table, h, st1.table.sessions[h])
            && (r.Ok? ==> st1.table.sessions[h].cachedSignature.None?)
            && Obtained(x, st1.back.net.calls) + Single(x, st.table.sessions[h].cachedSignature) ==
               Obtained(x, st.back.net.calls) + Single(x, st1.table.sessions[h].cachedSignature) +
               (if r.Ok? then Single(x, Some(r.value)) else 0)
  {
    hide Obtained, SignInternal;
    var s := st.table.sessions[h];
    assert Put(st.table, h, s) == st.table;
    if s.signActive && s.cachedSignature.None? {
      var signData := if data.Some? then data.value else s.signBuffer;
      SignInternalObtains(x, e, st.back, s.signMech, s.signKeyIndex, signData);
      var (b, sig) := SignInternal(e, st.back, s.signMech, s.signKeyIndex, signData);
      if sig.Ok? {
        assert SignOrReplay(e, st, h, data) == (st.(back := b), Ok(sig.value));
        assert Obtained(x, b.net.calls) == Obtained(x, st.back.net.calls) + Single(x, Some(sig.value));
      }
    }
  }

  lemma SignCallBalances(x: Bytes, e: Env, st: State, h: nat, data: Option<Bytes>, hasBuffer: bool, room: nat)
    requires HandlesBelow(st.table)
    ensures var (st', out) := SignCall(e, st, h, data, hasBuffer, room);
            HandlesBelow(st'.table) && Balanced(x, st, st', DeliveredBy(x, SignResult(out)), 0)
  {
    hide Obtained, SignOrReplay, GetSigners, CachedBelow;
    var (st', out) := SignCall(e, st, h, data, hasBuffer, room);
    if h !in st.table.sessions {
      assert hasBuffer ==> SignOrReplay(e, st, h, data) == (st, Err(SessionHandleInvalid)) by { SignUnknown(e, st, h, data); }
    } else if !hasBuffer {
      GetSignersObtains(x, e, st.back);
    } else {
      SignOrReplayBalances(x, e, st, h, data);
      var (st1, r) := SignOrReplay(e, st, h, data);
      DeliverBalances(x, st, st1, h, r, room);
    }
  }

  lemma DeliverBalances(x: Bytes, st: State, st1: State, h: nat, r: Result<Bytes>, room: nat)
    requires HandlesBelow(st.table) && h in st.table.sessions && h in st1.table.sessions
    requires st1.table == Put(st.table, h, st1.table.sessions[h])
    requires r.Ok? ==> st1.table.sessions[h].cachedSignature.None?
    requires Obtained(x, st1.back.net.calls) + Single(x, st.table.sessions[h].cachedSignature) ==
             Obtained(x, st.back.net.calls) + Single(x, st1.table.sessions[h].cachedSignature) +
             (if r.Ok? then Single(x, Some(r.value)) else 0)
    ensures var (st', out) := Deliver(st1, h, r, room);
            HandlesBelow(st'.table) && Balanced(x, st, st', DeliveredBy(x, SignResult(out)), 0)
  {
    hide Obtained, CachedBelow;
    var (st', out) := Deliver(st1, h, r, room);
    var s' := st'.table.sessions[h];
    assert st'.table.sessions == st.table.sessions[h := s'];
    PutBalances(x, st, st', h, s', DeliveredBy(x, SignResult(out)));
  }

  lemma SignUnknown(e: Env, st: State, h: nat, data: Option<Bytes>)
    requires h !in st.table.sessions
    ensures SignOrReplay(e, st, h, data) == (st, Err(SessionHandleInvalid))
  {
  }

  lemma InitializeBalances(x: Bytes, e: Env, st: State, config: Option<Config>, clientOk: bool)
    requires HandlesBelow(st.table)
    ensures var st' := Initialize(e, st, config, clientOk).0;
            HandlesBelow(st'.table) &&
            Balanced(x, st, st', 0, DroppedBy(x, st, EvInitialize(config, clientOk)))
  {
    hide Obtained, CachedBelow;
    CachedEmpty(x, st.table.nextID);
    CachedEmpty(x, 1);
    if config.Some? {
      var auth := config.value.auth;
      AuthenticateObtains(x, e, st.back.net.(sdkReady := false), auth.clientID, auth.clientSecret);
    }
  }

  lemma OpenSessionBalances(x: Bytes, e: Env, st: State, slot: nat)
    requires HandlesBelow(st.table)
    ensures var st' := OpenSession(e, st, slot).0;
            HandlesBelow(st'.table) && Balanced(x, st, st', 0, 0)
  {
    hide GetSigners, Obtained;
    GetSignersObtains(x, e, st.back);
    var b1 := GetSignerBySlot(e, st.back, slot).0;
    AccessTokenObtains(x, e, b1.net);
    var st' := OpenSession(e, st, slot).0;
    CachedSame(x, st.table.sessions, st'.table.sessions, st.table.nextID);
  }

  lemma LoginBalances(x: Bytes, e: Env, st: State, h: nat, pin: string)
    requires HandlesBelow(st.table)
    ensures var st' := Login(e, st, h, pin).0;
            HandlesBelow(st'.table) && Balanced(x, st, st', 0, 0)
  {
    hide Obtained, CachedBelow, Authenticate, AccessToken, SplitClientCreds;
    var creds := SplitClientCreds(pin);
    if creds.Some? {
      AuthenticateObtains(x, e, st.back.net, creds.value.0, creds.value.1);
    }
    var auth := st.back.config.auth;
    AccessTokenObtains(x, e, st.back.net);
    AuthenticateObtains(x, e, AccessToken(e, st.back.net).0, auth.clientID, auth.clientSecret);
    CachedSameTable(x, st.table, Login(e, st, h, pin).0.table);
  }

  lemma MatchesObtain(x: Bytes, e: Env, b: Back, slot: nat, f: Filter)
    ensures Obtained(x, MatchesSigner(e, b, slot, f).0.net.calls) == Obtained(x, b.net.calls)
    ensures Obtained(x, MatchesSubject(e, b, slot, f).0.net.calls) == Obtained(x, b.net.calls)
  {
    hide Obtained, GetSigners, GetCertificateData, Truncate;
    GetSignersObtains(x, e, b);
    var (b1, signer) := GetSignerBySlot(e, b, slot);
    if signer.Ok? {
      GetCertificateObtains(x, e, b1, signer.value.id);
    }
  }

  lemma FindInitBalances(x: Bytes, e: Env, st: State, h: nat, template: seq<Attribute>)
    requires HandlesBelow(st.table)
    ensures var st' := FindObjectsInit(e, st, h, template).0;
            HandlesBelow(st'.table) && Balanced(x, st, st', 0, 0)
  {
    hide Obtained, CachedBelow, MatchesSigner, MatchesSubject, FilterOf, ObjectsOfClass;
    if h in st.table.sessions {
      var slot := st.table.sessions[h].slotID;
      var f := FilterOf(template);
      MatchesObtain(x, e, st.back, slot, f);
      MatchesObtain(x, e, MatchesSigner(e, st.back, slot, f).0, slot, f);
    }
    CachedSameTable(x, st.table, FindObjectsInit(e, st, h, template).0.table);
  }

  lemma CloseBalances(x: Bytes, e: Env, st: State, ev: Event)
    requires HandlesBelow(st.table) && st.initialized && (ev.EvCloseSession? || ev.EvCloseAllSessions?)
    ensures var st' := ActiveStep(e, st, ev).0;
            HandlesBelow(st'.table) && Balanced(x, st, st', 0, DroppedBy(x, st, ev))
  {
    hide Obtained, CachedBelow;
    CachedSplit(x, st.table.sessions, ActiveStep(e, st, ev).0.table.sessions, Removed(st, ev), st.table.nextID);
  }

  lemma QueryBalances(x: Bytes, e: Env, st: State, ev: Event)
    requires HandlesBelow(st.table) && (ev.EvSlotQuery? || ev.EvGetAttributeValue?)
    ensures var st' := ActiveStep(e, st, ev).0;
            HandlesBelow(st'.table) && Balanced(x, st, st', 0, 0)
  {
    hide Obtained, CachedBelow, GetSigners, AttributeValues, ParseObjectHandle;
    GetSignersObtains(x, e, st.back);
    if ev.EvGetAttributeValue? {
      var (objType, slot) := ParseObjectHandle(ev.obj);
      var (b1, signer) := GetSignerBySlot(e, st.back, slot);
      if signer.Ok? {
        AttributesObtain(x, e, b1, objType, signer.value, ev.types);
      }
    }
  }

  lemma ActiveStepBalances(x: Bytes, e: Env, st: State, ev: Event)
    requires HandlesBelow(st.table) && st.initialized
    ensures var (st', out) := ActiveStep(e, st, ev);
            HandlesBelow(st'.table) &&
            (!ev.EvInitialize? ==> Balanced(x, st, st', DeliveredBy(x, out), DroppedBy(x, st, ev)))
  {
    hide Obtained, CachedBelow, GetSigners, GetAttributeValue, OpenSession, Login, FindObjectsInit, SignCall, Initialize;
    CachedEmpty(x, st.table.nextID);
    match ev
    case EvSlotQuery(_) => QueryBalances(x, e, st, ev);
    case EvGetAttributeValue(_, _, _) => QueryBalances(x, e, st, ev);
    case EvOpenSession(slot) => OpenSessionBalances(x, e, st, slot);
    case EvCloseSession(_) => CloseBalances(x, e, st, ev);
    case EvCloseAllSessions(_) => CloseBalances(x, e, st, ev);
    case EvLogin(h, pin) => LoginBalances(x, e, st, h, pin);
    case EvFindObjectsInit(h, template) => FindInitBalances(x, e, st, h, template);
    case EvSign(_, _, _, _) =>
    case EvSignFinal(_, _, _) =>
    case _ => CachedSameTable(x, st.table, ActiveStep(e, st, ev).0.table);
  }

  lemma StepBalances(x: Bytes, e: Env, st: State, ev: Event)
    requires HandlesBelow(st.table)
    ensures var (st', out) := Step(e, st, ev);
            HandlesBelow(st'.table) && Balanced(x, st, st', DeliveredBy(x, out), DroppedBy(x, st, ev))
  {
    hide Obtained, CachedBelow, GetSigners, ActiveStep, SignCall, Initialize;
    CachedEmpty(x, st.table.nextID);
    match ev
    case EvInitialize(config, clientOk) => InitializeBalances(x, e, st, config, clientOk);
    case EvSign(h, data, hasBuffer, room) =>
      if st.initialized && data.Some? && room.Some? { SignCallBalances(x, e, st, h, data, hasBuffer, room.value); }
    case EvSignFinal(h, hasBuffer, room) =>
      if st.initialized && room.Some? { SignCallBalances(x, e, st, h, None, hasBuffer, room.value); }
    case EvGetSlotList(_, _) => GetSignersObtains(x, e, st.back);
    case EvTick(_) =>
    case _ => if st.initialized { ActiveStepBalances(x, e, st, ev); }
  }

  // ------------------------------------------------------------------ every run

  /** No signature is lost, duplicated or made up, whatever the callers, the server and the clock do. */
  lemma {:induction false} SignaturesConserved(x: Bytes, e: Env, st: State, events: seq<Event>)
    requires IsInitial(st)
    ensures var st' := Run(e, st, events);
            && HandlesBelow(st'.table)
            && Obtained(x, st'.back.net.calls) == Delivered(x, e, st, events) + Cached(x, st'.table) + Dropped(x, e, st, events)
  {
    hide Obtained, CachedBelow, Step, DroppedBy, DeliveredBy;
    if events != [] {
      var front := events[..|events| - 1];
      SignaturesConserved(x, e, st, front);
      StepBalances(x, e, Run(e, st, front), events[|events| - 1]);
    } else {
      NothingAtFirst(x, st);
    }
  }

  lemma NothingAtFirst(x: Bytes, st: State)
    requires IsInitial(st)
    ensures HandlesBelow(st.table) && Obtained(x, st.back.net.calls) == Cached(x, st.table) == 0
  {
    CachedEmpty(x, 1);
  }

  /** A retry after CKR_BUFFER_TOO_SMALL makes no remote call at all, however short its buffer is again. */
  lemma RetryIsFree(e: Env, st: State, h: nat, data: Option<Bytes>, room: nat)
    requires h in st.table.sessions && st.table.sessions[h].signActive && st.table.sessions[h].cachedSignature.Some?
    ensures var (st', out) := SignCall(e, st, h, data, true, room);
            var sig := st.table.sessions[h].cachedSignature.value;
            && st'.back == st.back
            && if room < |sig| then out == SignOutput(BufferTooSmall, Some(|sig|), None)
               else out == SignOutput(OK, Some(|sig|), Some(sig))
  {
  }
}
