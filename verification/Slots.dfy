/** Object handles and the session table (slots.go). */
module Slots {
  import opened Common
  import opened Errors

  const MAX_SIGN_BUFFER: nat := 16 * 1024 * 1024

  // ------------------------------------------------------------------ object handles

  const P28: nat := 0x1000_0000
  const P32: nat := 0x1_0000_0000

  const OBJ_PRIVATE_KEY: nat := 1 * P28
  const OBJ_CERTIFICATE: nat := 2 * P28
  const OBJ_PUBLIC_KEY: nat := 3 * P28

  /** Bitwise or of two four-bit numbers. */
  function Or4(a: nat, b: nat): (r: nat)
    requires a < 16 && b < 16
    ensures r < 16
  {
    (if a / 8 + b / 8 > 0 then 8 else 0) + (if a / 4 % 2 + b / 4 % 2 > 0 then 4 else 0) +
    (if a / 2 % 2 + b / 2 % 2 > 0 then 2 else 0) + (if a % 2 + b % 2 > 0 then 1 else 0)
  }

  /** objType | slotIndex, where objType has only bits 28 to 31. */
  function MakeHandle(objType: nat, slotIndex: nat): nat
    requires objType < P32 && objType % P28 == 0
  {
    slotIndex / P32 * P32 + Or4(objType / P28, slotIndex / P28 % 16) * P28 + slotIndex % P28
  }

  /** handle & 0xF0000000 and handle & 0x0FFFFFFF. */
  function ParseObjectHandle(handle: nat): (nat, nat) {
    (handle / P28 % 16 * P28, handle % P28)
  }

  predicate ObjectType(objType: nat) {
    objType in {OBJ_PRIVATE_KEY, OBJ_CERTIFICATE, OBJ_PUBLIC_KEY}
  }

  lemma Or4Zero(a: nat)
    requires a < 16
    ensures Or4(a, 0) == a
  {
  }

  /** A handle gives back type and slot exactly when the slot index fits in 28 bits. */
  lemma HandleRoundTrip(objType: nat, slotIndex: nat)
    requires ObjectType(objType)
    ensures ParseObjectHandle(MakeHandle(objType, slotIndex)) == (objType, slotIndex) <==> slotIndex < P28
  {
    Or4Zero(objType / P28);
  }

  /** For such slots the handle is the sum of its two parts. */
  lemma HandleIsSum(objType: nat, slotIndex: nat)
    requires objType in {0x1000_0000, 0x2000_0000, 0x3000_0000} && slotIndex < 0x1000_0000
    ensures ObjectType(objType) && MakeHandle(objType, slotIndex) == objType + slotIndex
  {
    Or4Zero(objType / P28);
  }

  /** Handles of different objects differ. */
  lemma HandleInjective(t: nat, s: nat, t': nat, s': nat)
    requires ObjectType(t) && ObjectType(t') && s < P28 && s' < P28
    requires MakeHandle(t, s) == MakeHandle(t', s')
    ensures t == t' && s == s'
  {
    HandleRoundTrip(t, s);
    HandleRoundTrip(t', s');
  }

  // ------------------------------------------------------------------ sessions as values

  datatype Attribute = Attribute(typ: nat, value: Bytes)

  datatype SessionState = SessionState(
    slotID: nat,
    loggedIn: bool,
    signActive: bool,
    signMech: nat,
    signKeyIndex: nat,
    signBuffer: Bytes,
    cachedSignature: Option<Bytes>,
    findActive: bool,
    findTemplate: seq<Attribute>,
    findResults: seq<nat>,
    findPos: nat)

  function NewSession(slotID: nat): SessionState {
    SessionState(slotID, false, false, 0, 0, [], None, false, [], [], 0)
  }

  datatype Table = Table(sessions: map<nat, SessionState>, nextID: nat)

  function NewTable(): Table {
    Table(map[], 1)
  }

  function Open(t: Table, slotID: nat): (Table, nat) {
    (Table(t.sessions[t.nextID := NewSession(slotID)], t.nextID + 1), t.nextID)
  }

  function Close(t: Table, handle: nat): Table {
    t.(sessions := t.sessions - {handle})
  }

  function CloseAllForSlot(t: Table, slotID: nat): Table {
    t.(sessions := map h | h in t.sessions && t.sessions[h].slotID != slotID :: t.sessions[h])
  }

  function SetLoggedIn(t: Table, handle: nat, loggedIn: bool): Table {
    if handle in t.sessions then Put(t, handle, t.sessions[handle].(loggedIn := loggedIn)) else t
  }

  function SetAllLoggedInForSlot(t: Table, slotID: nat, loggedIn: bool): Table {
    t.(sessions := map h | h in t.sessions ::
         if t.sessions[h].slotID == slotID then t.sessions[h].(loggedIn := loggedIn) else t.sessions[h])
  }

  function AppendSignBuffer(s: SessionState, data: Bytes): (SessionState, Option<Error>) {
    if |s.signBuffer| + |data| > MAX_SIGN_BUFFER then (s, Some(SignBufferExceeded))
    else (s.(signBuffer := s.signBuffer + data), None)
  }

  function ClearSignState(s: SessionState): SessionState {
    s.(signActive := false, signMech := 0, signKeyIndex := 0, signBuffer := [], cachedSignature := None)
  }

  /** The table after one session object has been changed. */
  function Put(t: Table, handle: nat, s: SessionState): Table {
    t.(sessions := t.sessions[handle := s])
  }
}
