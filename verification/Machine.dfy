/**
 The module as a state machine: every C entry point is one step on the state (main.go, backend.go).
 The functions here say what each entry point does; the classes in Backend.dfy and EntryPoints.dfy do it.
 */
module Machine {
  import opened Common
  import opened Errors
  import opened Slots
  import opened Remote
  import opened Cache
  import opened Signers
  import opened Attributes

  datatype State = State(initialized: bool, back: Back, table: Table)

  datatype Rv = OK | BufferTooSmall | ArgumentsBad | NotInitialized | AlreadyInitialized | GeneralError | Mapped(error: Error)

  const MAX_TEMPLATE_ATTRS: nat := 256

  // ------------------------------------------------------------------ initialisation (backend.go, lines 51-93 and 131-141)

  /** `config` is what loadConfig returns, `clientOk` whether the HTTP client could be built. */
  function Initialize(e: Env, st: State, config: Option<Config>, clientOk: bool): (State, Rv) {
    if st.initialized then (st, AlreadyInitialized)
    else if config.None? then (st, GeneralError)
    else if !clientOk then (st.(back := st.back.(config := config.value)), GeneralError)
    else
      var auth := config.value.auth;
      var net0 := st.back.net.(sdkReady := false);
      var net := if auth.HasConfigCredentials() then Authenticate(e, net0, auth.clientID, auth.clientSecret).0 else net0;
      (State(true,
             Back(config.value, net, NewSignerCache(config.value.signerTTLSeconds), NewCertCache(config.value.certTTLSeconds)),
             NewTable()),
       OK)
  }

  // ------------------------------------------------------------------ sessions and login (backend.go, lines 304-396)

  function OpenSession(e: Env, st: State, slotID: nat): (State, Result<nat>) {
    var (b1, signer) := GetSignerBySlot(e, st.back, slotID);
    if signer.Err? then (st.(back := b1), Err(signer.error))
    else
      var (t, handle) := Open(st.table, slotID);
      var (b2, auto) := AutoLogin(e, b1);
      (st.(back := b2, table := if auto then SetLoggedIn(t, handle, true) else t), Ok(handle))
  }

  /** A new session is logged in at once under token auth, or with credentials and a token at hand. */
  function AutoLogin(e: Env, b: Back): (Back, bool) {
    if b.config.auth.IsTokenAuth() then (b, true)
    else if b.config.auth.HasConfigCredentials() then
      var (net, token) := AccessToken(e, b.net);
      (b.(net := net), token != "")
    else (b, false)
  }

  /** "clientId:clientSecret", split at the first colon, both parts non-empty. */
  function SplitClientCreds(pin: string): Option<(string, string)> {
    var colon := FirstColon(pin, 0);
    if 0 < colon && colon + 1 < |pin| then Some((pin[..colon], pin[colon + 1..])) else None
  }

  function FirstColon(pin: string, from: nat): (k: nat)
    requires from <= |pin|
    ensures from <= k <= |pin| && (k < |pin| ==> pin[k] == ':')
    ensures forall j :: from <= j < k ==> pin[j] != ':'
    decreases |pin| - from
  {
    if from == |pin| || pin[from] == ':' then from else FirstColon(pin, from + 1)
  }

  /** What Login does besides setting flags; the flags are set exactly when there is no error. */
  function LoginBack(e: Env, b: Back, pin: string): (Back, Option<Error>) {
    var auth := b.config.auth;
    if pin != "" then
      var creds := SplitClientCreds(pin);
      if creds.Some? then
        var (net, ok) := Authenticate(e, b.net, creds.value.0, creds.value.1);
        (b.(net := net), if ok then None else Some(Transport))
      else
        (b.(config := b.config.(auth := auth.(authMethod := TokenAuth, token := pin))), None)
    else if auth.authMethod.TokenAuth? then
      (b, if auth.token == "" then Some(NoToken) else None)
    else
      var (net, token) := AccessToken(e, b.net);
      var b1 := b.(net := net);
      if token != "" && auth.HasConfigCredentials() then (b1, None)
      else if auth.clientID == "" then (b1, Some(NoCredentials))
      else
        var (net2, ok) := Authenticate(e, net, auth.clientID, auth.clientSecret);
        (b.(net := net2), if ok then None else Some(Transport))
  }

  function Login(e: Env, st: State, handle: nat, pin: string): (State, Option<Error>) {
    if handle !in st.table.sessions then (st, Some(SessionHandleInvalid))
    else
      var (b, error) := LoginBack(e, st.back, pin);
      if error.Some? then (st.(back := b), error)
      else (st.(back := b, table := LogInSlot(st.table, handle)), None)
  }

  /** The session and every other one on its slot. */
  function LogInSlot(t: Table, handle: nat): Table
    requires handle in t.sessions
  {
    SetAllLoggedInForSlot(SetLoggedIn(t, handle, true), t.sessions[handle].slotID, true)
  }

  function Logout(st: State, handle: nat): (State, Option<Error>) {
    var t := st.table;
    if handle !in t.sessions then (st, Some(SessionHandleInvalid))
    else (st.(table := SetAllLoggedInForSlot(t, t.sessions[handle].slotID, false)), None)
  }

  // ------------------------------------------------------------------ finding objects (backend.go, lines 423-574)

  /** The filters of a template; a later attribute of the same type replaces an earlier one. */
  datatype Filter = Filter(class_: Option<nat>, id: Bytes, name: Bytes, subject: Bytes)

  function FilterOf(template: seq<Attribute>): Filter {
    if template == [] then Filter(None, [], [], [])
    else
      var f := FilterOf(template[..|template| - 1]);
      var a := template[|template| - 1];
      if a.typ == CKA_CLASS then
        if |a.value| >= 4 then f.(class_ := Some(LittleEndian(a.value))) else f
      else if a.typ == CKA_ID then f.(id := a.value)
      else if a.typ == CKA_LABEL then f.(name := a.value)
      else if a.typ == CKA_SUBJECT then f.(subject := a.value)
      else f
  }

  function LittleEndian(v: Bytes): nat
    requires |v| >= 4
  {
    v[0] as int + 256 * (v[1] as int + 256 * (v[2] as int + 256 * (v[3] as int)))
  }

  /** Whether the signer's id and label are those asked for; nothing is asked by an empty value. */
  function MatchesSigner(e: Env, b: Back, slot: nat, f: Filter): (Back, Result<bool>) {
    if f.id == [] && f.name == [] then (b, Ok(true))
    else
      var (b1, signer) := GetSignerBySlot(e, b, slot);
      if signer.Err? then (b1, Err(signer.error))
      else (b1, Ok((f.id != [] ==> f.id == Truncate(signer.value.id, MAX_ID_LEN)) &&
                   (f.name != [] ==> f.name == signer.value.name)))
  }

  function MatchesSubject(e: Env, b: Back, slot: nat, f: Filter): (Back, Result<bool>) {
    if f.subject == [] then (b, Ok(true))
    else
      var (b1, signer) := GetSignerBySlot(e, b, slot);
      if signer.Err? then (b1, Err(signer.error))
      else
        var (b2, der) := GetCertificateData(e, b1, signer.value.id);
        (b2, Ok(der.Ok? && var cert := e.parseCertificate(der.value); cert.Some? && cert.value.subject == f.subject))
  }

  function ObjectsOfClass(slot: nat, class_: Option<nat>): seq<nat> {
    if class_.None? then
      [MakeHandle(OBJ_PRIVATE_KEY, slot), MakeHandle(OBJ_PUBLIC_KEY, slot), MakeHandle(OBJ_CERTIFICATE, slot)]
    else if class_.value == CKO_PRIVATE_KEY then [MakeHandle(OBJ_PRIVATE_KEY, slot)]
    else if class_.value == CKO_CERTIFICATE then [MakeHandle(OBJ_CERTIFICATE, slot)]
    else if class_.value == CKO_PUBLIC_KEY then [MakeHandle(OBJ_PUBLIC_KEY, slot)]
    else []
  }

  function MatchingObjects(e: Env, b: Back, slot: nat, template: seq<Attribute>): (Back, Result<seq<nat>>) {
    var f := FilterOf(template);
    var (b1, bySigner) := MatchesSigner(e, b, slot, f);
    if bySigner.Err? then (b1, Err(bySigner.error))
    else if !bySigner.value then (b1, Ok([]))
    else
      var (b2, bySubject) := MatchesSubject(e, b1, slot, f);
      if bySubject.Err? then (b2, Err(bySubject.error))
      else if !bySubject.value then (b2, Ok([]))
      else (b2, Ok(ObjectsOfClass(slot, f.class_)))
  }

  function FindObjectsInit(e: Env, st: State, handle: nat, template: seq<Attribute>): (State, Option<Error>) {
    if handle !in st.table.sessions then (st, Some(SessionHandleInvalid))
    else
      var s := st.table.sessions[handle];
      if s.findActive then (st, Some(FindAlreadyActive))
      else
        var (b, found) := MatchingObjects(e, st.back, s.slotID, template);
        if found.Err? then (st.(back := b), Some(found.error))
        else
          (st.(back := b, table := Put(st.table, handle,
             s.(findActive := true, findTemplate := template, findResults := found.value, findPos := 0))), None)
  }

  function FindObjects(st: State, handle: nat, max: nat): (State, Result<seq<nat>>) {
    var (t, r) := NextResults(st.table, handle, max);
    (st.(table := t), r)
  }

  function NextResults(t: Table, handle: nat, max: nat): (Table, Result<seq<nat>>) {
    if handle !in t.sessions then (t, Err(SessionHandleInvalid))
    else
      var s := t.sessions[handle];
      if !s.findActive then (t, Err(FindNotActive))
      else if |s.findResults| <= s.findPos then (t, Ok([]))
      else
        var count := if max > |s.findResults| - s.findPos then |s.findResults| - s.findPos else max;
        (Put(t, handle, s.(findPos := s.findPos + count)), Ok(s.findResults[s.findPos..s.findPos + count]))
  }

  function FindObjectsFinal(st: State, handle: nat): (State, Option<Error>) {
    if handle !in st.table.sessions then (st, Some(SessionHandleInvalid))
    else
      var s := st.table.sessions[handle];
      (st.(table := Put(st.table, handle, s.(findActive := false, findResults := [], findPos := 0))), None)
  }

  // ------------------------------------------------------------------ signing (backend.go, lines 947-996 and 1169-1229)

  function SignInit(st: State, handle: nat, mech: nat, key: nat): (State, Option<Error>) {
    if handle !in st.table.sessions then (st, Some(SessionHandleInvalid))
    else
      var s := st.table.sessions[handle];
      if !s.loggedIn then (st, Some(NotLoggedIn))
      else if s.signActive then (st, Some(SignAlreadyActive))
      else
        (st.(table := Put(st.table, handle,
           s.(signActive := true, signMech := mech, signKeyIndex := ParseObjectHandle(key).1, signBuffer := []))), None)
  }

  function SignUpdate(st: State, handle: nat, data: Bytes): (State, Option<Error>) {
    if handle !in st.table.sessions then (st, Some(SessionHandleInvalid))
    else
      var s := st.table.sessions[handle];
      if !s.signActive then (st, Some(SignNotActive))
      else
        var (s', error) := AppendSignBuffer(s, data);
        (st.(table := Put(st.table, handle, s')), error)
  }

  /** Sign (`data` given) and SignFinal (`None`: the accumulated buffer). */
  function SignOrReplay(e: Env, st: State, handle: nat, data: Option<Bytes>): (State, Result<Bytes>) {
    if handle !in st.table.sessions then (st, Err(SessionHandleInvalid))
    else
      var s := st.table.sessions[handle];
      var cleared := Put(st.table, handle, ClearSignState(s));
      if !s.signActive then (st, Err(SignNotActive))
      else if s.cachedSignature.Some? then (st.(table := cleared), Ok(s.cachedSignature.value))
      else
        var (b, sig) := SignInternal(e, st.back, s.signMech, s.signKeyIndex, if data.Some? then data.value else s.signBuffer);
        if sig.Err? then (st.(back := b, table := cleared), Err(sig.error))
        else (st.(back := b), Ok(sig.value))
  }

  // ------------------------------------------------------------------ C_Sign and C_SignFinal (main.go, lines 477-563)

  /** `length` is what is written to *pulSignatureLen, `signature` what is copied out. */
  datatype SignOutput = SignOutput(rv: Rv, length: Option<nat>, signature: Option<Bytes>)

  function CacheSignResult(st: State, handle: nat, sig: Bytes): State {
    if handle !in st.table.sessions then st
    else st.(table := Put(st.table, handle, st.table.sessions[handle].(cachedSignature := Some(sig))))
  }

  function ClearSignStateByHandle(st: State, handle: nat): State {
    if handle !in st.table.sessions then st
    else st.(table := Put(st.table, handle, ClearSignState(st.table.sessions[handle])))
  }

  /** The delivery half of both calls: cache on a short buffer, otherwise copy out and clear. */
  function Deliver(st: State, handle: nat, r: Result<Bytes>, room: nat): (State, SignOutput) {
    if r.Err? then (st, SignOutput(Mapped(r.error), None, None))
    else
      var sig := r.value;
      if room < |sig| then (CacheSignResult(st, handle, sig), SignOutput(BufferTooSmall, Some(|sig|), None))
      else (ClearSignStateByHandle(st, handle), SignOutput(OK, Some(|sig|), Some(sig)))
  }

  /** The common body of C_Sign and C_SignFinal: `hasBuffer` is pSignature != NULL, `room` is *pulSignatureLen. */
  function SignCall(e: Env, st: State, handle: nat, data: Option<Bytes>, hasBuffer: bool, room: nat): (State, SignOutput) {
    if !hasBuffer then
      var (b, size) := EstimateSignatureSize(e, st.back, st.table, handle);
      (st.(back := b), SignOutput(OK, Some(size), None))
    else
      var (st1, r) := SignOrReplay(e, st, handle, data);
      Deliver(st1, handle, r, room)
  }

  /** `data` is None for pData == NULL, `room` for pulSignatureLen == NULL. */
  function CSign(e: Env, st: State, handle: nat, data: Option<Bytes>, hasBuffer: bool, room: Option<nat>): (State, SignOutput) {
    if !st.initialized then (st, SignOutput(NotInitialized, None, None))
    else if data.None? || room.None? then (st, SignOutput(ArgumentsBad, None, None))
    else SignCall(e, st, handle, data, hasBuffer, room.value)
  }

  function CSignFinal(e: Env, st: State, handle: nat, hasBuffer: bool, room: Option<nat>): (State, SignOutput) {
    if !st.initialized then (st, SignOutput(NotInitialized, None, None))
    else if room.None? then (st, SignOutput(ArgumentsBad, None, None))
    else SignCall(e, st, handle, None, hasBuffer, room.value)
  }

  // ------------------------------------------------------------------ C_GetAttributeValue (main.go, lines 402-451)

  /** A CK_ATTRIBUTE: its type, the buffer it points to if any, and ulValueLen. */
  datatype CkAttribute = CkAttribute(typ: nat, pValue: Option<Bytes>, ulValueLen: nat)

  /** What happens to one entry, and whether its buffer was long enough. */
  function FillEntry(entry: CkAttribute, value: Bytes): (CkAttribute, bool)
    requires entry.pValue.Some? ==> entry.ulValueLen <= |entry.pValue.value|
  {
    if entry.pValue.None? || |value| == 0 then (entry.(ulValueLen := |value|), true)
    else if entry.ulValueLen >= |value| then
      (entry.(pValue := Some(value + entry.pValue.value[|value|..]), ulValueLen := |value|), true)
    else (entry.(ulValueLen := |value|), false)
  }

  /** The caller's side of the interface: a buffer holds at least as many bytes as announced. */
  ghost predicate WellFormed(template: seq<CkAttribute>) {
    forall i :: 0 <= i < |template| ==>
      template[i].pValue.Some? ==> template[i].ulValueLen <= |template[i].pValue.value|
  }

  /** Entries are filled in order, from entry `i`, up to the first one whose buffer is too short. */
  function FillFrom(template: seq<CkAttribute>, values: seq<Attribute>, i: nat): (seq<CkAttribute>, Rv)
    requires WellFormed(template) && |values| == |template| && i <= |template|
    decreases |template| - i
  {
    if i == |template| then (template, OK)
    else
      var (entry, fits) := FillEntry(template[i], values[i].value);
      if fits then FillFrom(template[i := entry], values, i + 1) else (template[i := entry], BufferTooSmall)
  }

  function FillTemplate(template: seq<CkAttribute>, values: seq<Attribute>): (seq<CkAttribute>, Rv)
    requires WellFormed(template) && |values| == |template|
  {
    FillFrom(template, values, 0)
  }

  function TypesOf(template: seq<CkAttribute>): seq<nat> {
    seq(|template|, i requires 0 <= i < |template| => template[i].typ)
  }

  function CGetAttributeValue(e: Env, st: State, handle: nat, obj: nat, template: Option<seq<CkAttribute>>)
    : (State, Option<seq<CkAttribute>>, Rv)
    requires template.Some? ==> WellFormed(template.value)
  {
    if !st.initialized then (st, template, NotInitialized)
    else if template.None? || |template.value| > MAX_TEMPLATE_ATTRS then (st, template, ArgumentsBad)
    else
      var (b, values) := GetAttributeValue(e, st.back, st.table, handle, obj, TypesOf(template.value));
      if values.Err? then (st.(back := b), template, Mapped(values.error))
      else
        var (filled, rv) := FillTemplate(template.value, values.value);
        (st.(back := b), Some(filled), rv)
  }

  // ------------------------------------------------------------------ C_GetSlotList (main.go, lines 87-116)

  datatype SlotListOutput = SlotListOutput(rv: Rv, count: Option<nat>, slots: seq<nat>)

  function CGetSlotList(e: Env, st: State, hasBuffer: bool, count: Option<nat>): (State, SlotListOutput) {
    if !st.initialized then (st, SlotListOutput(NotInitialized, None, []))
    else if count.None? then (st, SlotListOutput(ArgumentsBad, None, []))
    else
      var (b, signers) := GetSigners(e, st.back);
      var st1 := st.(back := b);
      if signers.Err? then (st1, SlotListOutput(Mapped(signers.error), None, []))
      else
        var n := |signers.value|;
        if !hasBuffer then (st1, SlotListOutput(OK, Some(n), []))
        else if count.value < n then (st1, SlotListOutput(BufferTooSmall, Some(n), []))
        else (st1, SlotListOutput(OK, Some(n), seq(n, i => i)))
  }

  // ------------------------------------------------------------------ steps

  datatype Event =
    | EvTick(elapsed: nat)
    | EvInitialize(config: Option<Config>, clientOk: bool)
    | EvFinalize
    | EvGetSlotList(hasSlotBuffer: bool, slotCount: Option<nat>)
    | EvSlotQuery(querySlot: nat)   // C_GetSlotInfo, C_GetTokenInfo, C_GetMechanismList
    | EvOpenSession(slotID: nat)
    | EvCloseSession(h: nat)
    | EvCloseAllSessions(slotID: nat)
    | EvLogin(h: nat, pin: string)
    | EvLogout(h: nat)
    | EvFindObjectsInit(h: nat, template: seq<Attribute>)
    | EvFindObjects(h: nat, max: nat)
    | EvFindObjectsFinal(h: nat)
    | EvGetAttributeValue(h: nat, obj: nat, types: seq<nat>)
    | EvSignInit(h: nat, mech: nat, key: nat)
    | EvSign(h: nat, data: Option<Bytes>, hasBuffer: bool, room: Option<nat>)
    | EvSignUpdate(h: nat, part: Bytes)
    | EvSignFinal(h: nat, hasBuffer: bool, room: Option<nat>)

  datatype Output =
    | Returned(rv: Rv)
    | Opened(handle: nat)
    | Objects(handles: seq<nat>)
    | Values(attributes: seq<Attribute>)
    | SlotList(slots: SlotListOutput)
    | SignResult(out: SignOutput)

  function RvOf(error: Option<Error>): Rv {
    if error.None? then OK else Mapped(error.value)
  }

  function Step(e: Env, st: State, ev: Event): (State, Output) {
    match ev
    case EvTick(elapsed) => (st.(back := st.back.(net := st.back.net.(now := st.back.net.now + elapsed))), Returned(OK))
    case EvInitialize(config, clientOk) => var (st1, rv) := Initialize(e, st, config, clientOk); (st1, Returned(rv))
    case EvSign(h, data, hasBuffer, room) => var (st1, out) := CSign(e, st, h, data, hasBuffer, room); (st1, SignResult(out))
    case EvSignFinal(h, hasBuffer, room) => var (st1, out) := CSignFinal(e, st, h, hasBuffer, room); (st1, SignResult(out))
    case EvGetSlotList(hasBuffer, count) => var (st1, out) := CGetSlotList(e, st, hasBuffer, count); (st1, SlotList(out))
    case _ =>
      if !st.initialized then (st, Returned(NotInitialized)) else ActiveStep(e, st, ev)
  }

  /** The entry points that have passed checkInitialized. */
  function ActiveStep(e: Env, st: State, ev: Event): (State, Output) {
    match ev
    case EvFinalize => (st.(initialized := false), Returned(OK))
    case EvSlotQuery(slot) =>
      var (b, signer) := GetSignerBySlot(e, st.back, slot);
      (st.(back := b), Returned(if signer.Ok? then OK else Mapped(signer.error)))
    case EvOpenSession(slot) =>
      var (st1, handle) := OpenSession(e, st, slot);
      (st1, if handle.Ok? then Opened(handle.value) else Returned(Mapped(handle.error)))
    case EvCloseSession(h) =>
      if h in st.table.sessions then (st.(table := Close(st.table, h)), Returned(OK))
      else (st, Returned(Mapped(SessionHandleInvalid)))
    case EvCloseAllSessions(slot) => (st.(table := CloseAllForSlot(st.table, slot)), Returned(OK))
    case EvLogin(h, pin) => var (st1, error) := Login(e, st, h, pin); (st1, Returned(RvOf(error)))
    case EvLogout(h) => var (st1, error) := Logout(st, h); (st1, Returned(RvOf(error)))
    case EvFindObjectsInit(h, template) =>
      if |template| > MAX_TEMPLATE_ATTRS then (st, Returned(ArgumentsBad))
      else var (st1, error) := FindObjectsInit(e, st, h, template); (st1, Returned(RvOf(error)))
    case EvFindObjects(h, max) =>
      var (st1, r) := FindObjects(st, h, max);
      (st1, if r.Ok? then Objects(r.value) else Returned(Mapped(r.error)))
    case EvFindObjectsFinal(h) => var (st1, error) := FindObjectsFinal(st, h); (st1, Returned(RvOf(error)))
    case EvGetAttributeValue(h, obj, types) =>
      var (b, r) := GetAttributeValue(e, st.back, st.table, h, obj, types);
      (st.(back := b), if r.Ok? then Values(r.value) else Returned(Mapped(r.error)))
    case EvSignInit(h, mech, key) => var (st1, error) := SignInit(st, h, mech, key); (st1, Returned(RvOf(error)))
    case EvSignUpdate(h, part) => var (st1, error) := SignUpdate(st, h, part); (st1, Returned(RvOf(error)))
    case _ => (st, Returned(OK))
  }

  /** The process before C_Initialize: nothing has been called. */
  predicate IsInitial(st: State) {
    !st.initialized && !st.back.net.sdkReady && st.back.net.calls == [] &&
    st.back.signers.entry.None? && st.back.certs.pubKeys == map[] && st.back.certs.certs == map[] &&
    st.table == NewTable()
  }

  /** The state after a sequence of steps. */
  function Run(e: Env, st: State, events: seq<Event>): State {
    if events == [] then st
    else Step(e, Run(e, st, events[..|events| - 1]), events[|events| - 1]).0
  }
}
