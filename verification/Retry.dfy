/**
 Retrying after CKR_BUFFER_TOO_SMALL.  A caller that gives its first retry the reported length always gets
 the signature of its own operation; the run at the end shows that without this a stale signature escapes.
 */
module Retry {
  import opened Common
  import opened Errors
  import opened Slots
  import opened Remote
  import opened Cache
  import opened Signers
  import opened Attributes
  import opened Machine
  import opened Conservation
  import opened Journal
  import opened Staleness

  // ------------------------------------------------------------------ what the application knows

  /**
   The latest successful C_SignInit of a session, the parts given since, and the data of a short-buffered call.
   `since` is the number of remote calls made before that C_SignInit.
   */
  datatype Job = Job(mech: nat, keySlot: nat, parts: Bytes, work: Bytes, since: nat)

  /** Open sessions, jobs, and the lengths reported with CKR_BUFFER_TOO_SMALL that await a retry. */
  datatype Caller = Caller(ready: bool, slots: map<nat, nat>, jobs: map<nat, Job>, pending: map<nat, nat>)

  function NewCaller(ready: bool): Caller {
    Caller(ready, map[], map[], map[])
  }

  function Forget(c: Caller, hs: set<nat>): Caller {
    Caller(c.ready, c.slots - hs, c.jobs - hs, c.pending - hs)
  }

  function AfterSign(c: Caller, h: nat, data: Bytes, out: SignOutput): Caller {
    if out.rv == BufferTooSmall && out.length.Some? then
      if h in c.pending || h !in c.jobs then c.(pending := c.pending[h := out.length.value])
      else c.(pending := c.pending[h := out.length.value], jobs := c.jobs[h := c.jobs[h].(work := data)])
    else if out.rv == ArgumentsBad || out.rv == NotInitialized then c
    else c.(pending := c.pending - {h})
  }

  function PartsOf(c: Caller, h: nat): Bytes {
    if h in c.jobs then c.jobs[h].parts else []
  }

  /**
   The application's knowledge is built from its own calls and their results only.  `mark`, the number of
   remote calls made so far, is noted for the theorems and decides nothing.
   */
  function Observe(c: Caller, ev: Event, out: Output, mark: nat): Caller {
    match ev
    case EvInitialize(_, _) => if out == Returned(OK) then NewCaller(true) else c
    case EvFinalize => if out == Returned(OK) then c.(ready := false) else c
    case EvOpenSession(slot) => if out.Opened? then c.(slots := c.slots[out.handle := slot]) else c
    case EvCloseSession(h) => if out == Returned(OK) then Forget(c, {h}) else c
    case EvCloseAllSessions(slot) =>
      if out == Returned(OK) then Forget(c, set h | h in c.slots && c.slots[h] == slot) else c
    case EvSignInit(h, mech, key) =>
      if out == Returned(OK) then c.(jobs := c.jobs[h := Job(mech, ParseObjectHandle(key).1, [], [], mark)]) else c
    case EvSignUpdate(h, part) =>
      if out == Returned(OK) && h in c.jobs then c.(jobs := c.jobs[h := c.jobs[h].(parts := c.jobs[h].parts + part)]) else c
    case EvSign(h, data, hasBuffer, _) =>
      if hasBuffer && data.Some? && out.SignResult? then AfterSign(c, h, data.value, out.out) else c
    case EvSignFinal(h, hasBuffer, _) =>
      if hasBuffer && out.SignResult? then AfterSign(c, h, PartsOf(c, h), out.out) else c
    case _ => c
  }

  /** If this is a retry on session `h`, it offers at least the length that was reported. */
  predicate Polite(c: Caller, ev: Event, h: nat) {
    match ev
    case EvSign(k, data, hasBuffer, room) =>
      k == h && c.ready && hasBuffer && data.Some? && room.Some? && h in c.pending ==> c.pending[h] <= room.value
    case EvSignFinal(k, hasBuffer, room) =>
      k == h && c.ready && hasBuffer && room.Some? && h in c.pending ==> c.pending[h] <= room.value
    case _ => true
  }

  function Watch(e: Env, st: State, events: seq<Event>): Caller {
    if events == [] then NewCaller(false)
    else
      var front, last := events[..|events| - 1], events[|events| - 1];
      var before := Run(e, st, front);
      Observe(Watch(e, st, front), last, Step(e, before, last).1, |before.back.net.calls|)
  }

  /** Every retry on session `h` is polite; what happens on other sessions does not matter. */
  ghost predicate PoliteRun(e: Env, st: State, events: seq<Event>, h: nat) {
    forall n :: 0 <= n < |events| ==> Polite(Watch(e, st, events[..n]), events[n], h)
  }

  /** The data whose signature a signing call on `h` asks for. */
  function DataOf(c: Caller, h: nat, ev: Event): Bytes {
    if h in c.pending && h in c.jobs then c.jobs[h].work
    else if ev.EvSign? && ev.data.Some? then ev.data.value
    else PartsOf(c, h)
  }

  // ------------------------------------------------------------------ what the application knows is right

  ghost predicate Knows(st: State, c: Caller) {
    && HandlesBelow(st.table)
    && c.ready == st.initialized
    && c.slots.Keys == st.table.sessions.Keys
    && c.pending.Keys <= c.slots.Keys
    && forall h :: h in st.table.sessions ==> c.slots[h] == st.table.sessions[h].slotID
  }

  /** The steps that keep the set of sessions and the slot of each. */
  ghost predicate SameSessions(t: Table, t': Table) {
    && t'.nextID == t.nextID && t'.sessions.Keys == t.sessions.Keys
    && forall h :: h in t.sessions ==> t'.sessions[h].slotID == t.sessions[h].slotID
  }

  lemma SignCallShape(e: Env, st: State, h: nat, data: Option<Bytes>, hasBuffer: bool, room: nat)
    ensures var (st', out) := SignCall(e, st, h, data, hasBuffer, room);
            && st'.initialized == st.initialized && SameSessions(st.table, st'.table)
            && (forall k :: k in st.table.sessions && k != h ==> st'.table.sessions[k] == st.table.sessions[k])
            && (out.rv == BufferTooSmall ==> h in st.table.sessions)
            && (!hasBuffer ==> st'.table == st.table && out.signature.None?)
  {
    hide SignInternal, EstimateSignatureSize;
  }

  predicate OpensOrCloses(ev: Event) {
    ev.EvInitialize? || ev.EvFinalize? || ev.EvOpenSession? || ev.EvCloseSession? || ev.EvCloseAllSessions?
  }

  predicate Signs(ev: Event) {
    ev.EvSign? || ev.EvSignFinal?
  }

  lemma OtherStepShape(e: Env, st: State, ev: Event)
    requires !OpensOrCloses(ev) && !Signs(ev)
    ensures var st' := Step(e, st, ev).0; st'.initialized == st.initialized && SameSessions(st.table, st'.table)
  {
    hide GetSigners, GetAttributeValue, LoginBack, MatchingObjects, ParseObjectHandle;
  }

  lemma AfterSignKnows(st: State, st': State, c: Caller, h: nat, data: Bytes, out: SignOutput)
    requires Knows(st, c) && st'.initialized == st.initialized && SameSessions(st.table, st'.table)
    requires out.rv == BufferTooSmall ==> h in st.table.sessions
    ensures Knows(st', c) && Knows(st', AfterSign(c, h, data, out))
  {
  }

  /** A signing step is refused without effect, or is the call. */
  lemma SignStepIs(e: Env, st: State, ev: Event)
    requires Signs(ev)
    ensures var (st', out) := Step(e, st, ev);
            var given := if ev.EvSign? then ev.data else None;
            if st.initialized && ev.room.Some? && (ev.EvSign? ==> ev.data.Some?) then
              (st', out) == (SignCall(e, st, ev.h, given, ev.hasBuffer, ev.room.value).0,
                             SignResult(SignCall(e, st, ev.h, given, ev.hasBuffer, ev.room.value).1))
            else
              st' == st && out.SignResult? && (out.out.rv == ArgumentsBad || out.out.rv == NotInitialized) && out.out.signature.None?
  {
    hide SignCall;
  }

  lemma SignStepKnows(e: Env, st: State, c: Caller, ev: Event, mark: nat)
    requires Knows(st, c) && Signs(ev)
    ensures var (st', out) := Step(e, st, ev); Knows(st', Observe(c, ev, out, mark))
  {
    hide SignCall, Step, Knows, AfterSign;
    SignStepIs(e, st, ev);
    var (st', out) := Step(e, st, ev);
    var given := if ev.EvSign? then ev.data else None;
    if ev.room.Some? {
      SignCallShape(e, st, ev.h, given, ev.hasBuffer, ev.room.value);
    }
    AfterSignKnows(st, st', c, ev.h, if given.Some? then given.value else PartsOf(c, ev.h), out.out);
  }

  lemma CloseStepKnows(e: Env, st: State, c: Caller, ev: Event, mark: nat)
    requires Knows(st, c) && (ev.EvCloseSession? || ev.EvCloseAllSessions? || ev.EvFinalize?)
    ensures var (st', out) := Step(e, st, ev); Knows(st', Observe(c, ev, out, mark))
  {
    match ev
    case EvFinalize =>
    case EvCloseSession(_) =>
    case EvCloseAllSessions(_) =>
  }

  lemma InitializeKnows(e: Env, st: State, c: Caller, ev: Event, mark: nat)
    requires Knows(st, c) && ev.EvInitialize?
    ensures var (st', out) := Step(e, st, ev); Knows(st', Observe(c, ev, out, mark))
  {
  }

  lemma OpenKnows(e: Env, st: State, c: Caller, slot: nat)
    requires Knows(st, c)
    ensures var (st', r) := OpenSession(e, st, slot);
            Knows(st', if r.Ok? then c.(slots := c.slots[r.value := slot]) else c)
  {
    hide GetSigners, AutoLogin;
  }

  lemma OpenStepKnows(e: Env, st: State, c: Caller, ev: Event, mark: nat)
    requires Knows(st, c) && ev.EvOpenSession?
    ensures var (st', out) := Step(e, st, ev); Knows(st', Observe(c, ev, out, mark))
  {
    hide OpenSession, Knows;
    if st.initialized {
      OpenKnows(e, st, c, ev.slotID);
    }
  }

  lemma OtherStepKnows(e: Env, st: State, c: Caller, ev: Event, mark: nat)
    requires Knows(st, c) && !OpensOrCloses(ev) && !Signs(ev)
    ensures var (st', out) := Step(e, st, ev); Knows(st', Observe(c, ev, out, mark))
  {
    hide Step;
    OtherStepShape(e, st, ev);
  }

  lemma StepKnows(e: Env, st: State, c: Caller, ev: Event, mark: nat)
    requires Knows(st, c)
    ensures var (st', out) := Step(e, st, ev); Knows(st', Observe(c, ev, out, mark))
  {
    hide Step, Knows, Observe;
    if Signs(ev) {
      SignStepKnows(e, st, c, ev, mark);
    } else if ev.EvInitialize? {
      InitializeKnows(e, st, c, ev, mark);
    } else if ev.EvOpenSession? {
      OpenStepKnows(e, st, c, ev, mark);
    } else if OpensOrCloses(ev) {
      CloseStepKnows(e, st, c, ev, mark);
    } else {
      OtherStepKnows(e, st, c, ev, mark);
    }
  }

  // ------------------------------------------------------------------ the invariant of one session

  ghost predicate SessionTracked(e: Env, calls: seq<Call>, c: Caller, h: nat, s: SessionState) {
    && (h in c.pending <==> s.cachedSignature.Some?)
    && (s.signActive ==> h in c.jobs && c.jobs[h].mech == s.signMech && c.jobs[h].keySlot == s.signKeyIndex &&
                         c.jobs[h].parts == s.signBuffer && c.jobs[h].since <= |calls|)
    && (s.cachedSignature.Some? ==>
          && s.signActive && c.pending[h] == |s.cachedSignature.value|
          && JobDone(e, calls, c.jobs[h], c.jobs[h].work, s.cachedSignature.value))
  }

  /** The server made `sig` for this job and this data, after the job was started. */
  ghost predicate JobDone(e: Env, calls: seq<Call>, job: Job, data: Bytes, sig: Bytes) {
    Justified(e, calls, job.since, job.mech, job.keySlot, data, sig)
  }

  ghost predicate Tracks(e: Env, st: State, c: Caller, h: nat) {
    h in st.table.sessions ==> SessionTracked(e, st.back.net.calls, c, h, st.table.sessions[h])
  }

  predicate SameSigning(s: SessionState, s': SessionState) {
    s'.signActive == s.signActive && s'.signMech == s.signMech &&
    s'.signKeyIndex == s.signKeyIndex && s'.signBuffer == s.signBuffer && s'.cachedSignature == s.cachedSignature
  }

  /** What is known about session `h` is the same. */
  ghost predicate SameKnowledge(c: Caller, c': Caller, h: nat) {
    && (h in c.jobs <==> h in c'.jobs) && (h in c.jobs ==> c'.jobs[h] == c.jobs[h])
    && (h in c.pending <==> h in c'.pending) && (h in c.pending ==> c'.pending[h] == c.pending[h])
  }

  lemma TrackedKept(e: Env, calls: seq<Call>, calls': seq<Call>, c: Caller, c': Caller, h: nat, s: SessionState, s': SessionState)
    requires SessionTracked(e, calls, c, h, s) && calls <= calls' && SameSigning(s, s') && SameKnowledge(c, c', h)
    ensures SessionTracked(e, calls', c', h, s')
  {
    hide Justified;
    if s.cachedSignature.Some? {
      var job := c.jobs[h];
      JustifiedKept(e, calls, calls', job.since, job.mech, job.keySlot, job.work, s.cachedSignature.value);
    }
  }

  lemma NewSessionTracked(e: Env, calls: seq<Call>, c: Caller, h: nat, s: SessionState)
    requires h !in c.pending && !s.signActive && s.cachedSignature.None?
    ensures SessionTracked(e, calls, c, h, s)
  {
  }

  // ------------------------------------------------------------------ signing calls on the session

  /** What a delivered signature is. */
  ghost predicate DeliveryOk(e: Env, calls: seq<Call>, c: Caller, h: nat, data: Bytes, out: SignOutput) {
    out.rv == OK && out.signature.Some? ==> h in c.jobs && JobDone(e, calls, c.jobs[h], data, out.signature.value)
  }

  /** A replay with enough room delivers the cached signature and clears the session. */
  lemma ReplayOutcome(e: Env, st: State, h: nat, given: Option<Bytes>, room: nat)
    requires h in st.table.sessions && st.table.sessions[h].signActive
    requires st.table.sessions[h].cachedSignature.Some? && |st.table.sessions[h].cachedSignature.value| <= room
    ensures var s := st.table.sessions[h];
            var sig := s.cachedSignature.value;
            SignCall(e, st, h, given, true, room) ==
            (st.(table := Put(st.table, h, ClearSignState(s))), SignOutput(OK, Some(|sig|), Some(sig)))
  {
    hide SignInternal;
    var s := st.table.sessions[h];
    assert st.table.sessions[h := ClearSignState(s)][h := ClearSignState(s)] == st.table.sessions[h := ClearSignState(s)];
  }

  /** A fresh signing, spelled out: one session changes, by what the server said and whether the buffer is long enough. */
  lemma FreshOutcome(e: Env, st: State, h: nat, given: Option<Bytes>, room: nat, data: Bytes) returns (s': SessionState)
    requires h in st.table.sessions && st.table.sessions[h].signActive && st.table.sessions[h].cachedSignature.None?
    requires data == if given.Some? then given.value else st.table.sessions[h].signBuffer
    ensures var s := st.table.sessions[h];
            var (b, sig) := SignInternal(e, st.back, s.signMech, s.signKeyIndex, data);
            var (st', out) := SignCall(e, st, h, given, true, room);
            && st' == State(st.initialized, b, Put(st.table, h, s'))
            && if sig.Err? then s' == ClearSignState(s) && out == SignOutput(Mapped(sig.error), None, None)
               else if room < |sig.value| then
                 s' == s.(cachedSignature := Some(sig.value)) && out == SignOutput(BufferTooSmall, Some(|sig.value|), None)
               else s' == ClearSignState(s) && out == SignOutput(OK, Some(|sig.value|), Some(sig.value))
  {
    hide SignInternal;
    var st' := SignCall(e, st, h, given, true, room).0;
    s' := st'.table.sessions[h];
    assert st'.table.sessions == st.table.sessions[h := s'];
  }

  /** The three ways a fresh signing can leave its session. */
  lemma FreshSessionTracked(e: Env, calls: seq<Call>, calls': seq<Call>, c: Caller, h: nat, s: SessionState, data: Bytes, sig: Bytes)
    requires SessionTracked(e, calls, c, h, s) && s.signActive && s.cachedSignature.None? && |calls| <= |calls'|
    requires JobDone(e, calls', c.jobs[h], data, sig)
    ensures SessionTracked(e, calls', AfterSign(c, h, data, SignOutput(BufferTooSmall, Some(|sig|), None)), h,
                           s.(cachedSignature := Some(sig)))
    ensures SessionTracked(e, calls', AfterSign(c, h, data, SignOutput(OK, Some(|sig|), Some(sig))), h, ClearSignState(s))
    ensures DeliveryOk(e, calls', c, h, data, SignOutput(OK, Some(|sig|), Some(sig)))
  {
    hide Justified;
  }

  lemma ClearedSessionTracked(e: Env, calls: seq<Call>, c: Caller, h: nat, s: SessionState, data: Bytes, out: SignOutput)
    requires out.rv.OK? || out.rv.Mapped?
    ensures SessionTracked(e, calls, AfterSign(c, h, data, out), h, ClearSignState(s))
  {
  }

  lemma FreshSignTracks(e: Env, st: State, c: Caller, h: nat, given: Option<Bytes>, room: nat)
    requires Sound(e, st) && Tracks(e, st, c, h) && h in st.table.sessions
    requires st.table.sessions[h].signActive && st.table.sessions[h].cachedSignature.None?
    ensures var (st', out) := SignCall(e, st, h, given, true, room);
            var data := if given.Some? then given.value else PartsOf(c, h);
            Tracks(e, st', AfterSign(c, h, data, out), h) && DeliveryOk(e, st'.back.net.calls, c, h, data, out)
  {
    hide BackOk, SignInternal, Justified, AfterSign, SignCall;
    var s := st.table.sessions[h];
    var data := if given.Some? then given.value else PartsOf(c, h);
    SignInternalJournal(e, st.back, s.signMech, s.signKeyIndex, data, c.jobs[h].since);
    var (b, sig) := SignInternal(e, st.back, s.signMech, s.signKeyIndex, data);
    var s' := FreshOutcome(e, st, h, given, room, data);
    if sig.Ok? {
      FreshSessionTracked(e, st.back.net.calls, b.net.calls, c, h, s, data, sig.value);
    } else {
      ClearedSessionTracked(e, b.net.calls, c, h, s, data, SignOutput(Mapped(sig.error), None, None));
    }
    hide SessionTracked;
  }

  /** A non-NULL signing call of a polite caller; `data` is the data of the call itself. */
  lemma SignCallTracks(e: Env, st: State, c: Caller, h: nat, given: Option<Bytes>, room: nat)
    requires Sound(e, st) && Knows(st, c) && Tracks(e, st, c, h)
    requires h in c.pending ==> c.pending[h] <= room
    ensures var (st', out) := SignCall(e, st, h, given, true, room);
            var data := if given.Some? then given.value else PartsOf(c, h);
            && Tracks(e, st', AfterSign(c, h, data, out), h)
            && DeliveryOk(e, st'.back.net.calls, c, h,
                          if h in c.pending && h in c.jobs then c.jobs[h].work else data, out)
  {
    hide BackOk, SignInternal, JobDone, SignCall;
    var data := if given.Some? then given.value else PartsOf(c, h);
    if h in st.table.sessions && st.table.sessions[h].signActive {
      if st.table.sessions[h].cachedSignature.None? {
        FreshSignTracks(e, st, c, h, given, room);
      } else {
        ReplayOutcome(e, st, h, given, room);
        ClearedSessionTracked(e, st.back.net.calls, c, h, st.table.sessions[h], data, SignCall(e, st, h, given, true, room).1);
      }
    } else {
      RefusedSign(e, st, h, given, room);
      assert SameKnowledge(c, AfterSign(c, h, data, SignCall(e, st, h, given, true, room).1), h);
    }
  }

  lemma RefusedSign(e: Env, st: State, h: nat, given: Option<Bytes>, room: nat)
    requires !(h in st.table.sessions && st.table.sessions[h].signActive)
    ensures var (st', out) := SignCall(e, st, h, given, true, room);
            st' == st && out.rv.Mapped? && out.length.None? && out.signature.None?
  {
  }

  // ------------------------------------------------------------------ the other steps

  /** The steps that act on the signing fields of session `h`, or create it. */
  predicate Touches(ev: Event, h: nat) {
    || ev.EvInitialize? || ev.EvOpenSession?
    || ((Signs(ev) || ev.EvSignInit? || ev.EvSignUpdate?) && ev.h == h)
  }

  lemma UntouchedSession(e: Env, st: State, ev: Event, h: nat)
    requires !Touches(ev, h)
    ensures var t' := Step(e, st, ev).0.table;
            h in t'.sessions ==> h in st.table.sessions && SameSigning(st.table.sessions[h], t'.sessions[h])
  {
    hide GetSigners, GetAttributeValue, LoginBack, MatchingObjects, OpenSession, SignCall, Initialize, ParseObjectHandle;
    match ev
    case EvSign(k, data, hasBuffer, room) => if room.Some? { SignCallShape(e, st, k, data, hasBuffer, room.value); }
    case EvSignFinal(k, hasBuffer, room) => if room.Some? { SignCallShape(e, st, k, None, hasBuffer, room.value); }
    case _ =>
  }

  lemma UntouchedKnowledge(e: Env, st: State, c: Caller, ev: Event, mark: nat, h: nat)
    requires Knows(st, c) && !Touches(ev, h)
    ensures var (st', out) := Step(e, st, ev);
            h in st'.table.sessions ==> SameKnowledge(c, Observe(c, ev, out, mark), h)
  {
    hide Step, Knows, AfterSign;
    if ev.EvCloseSession? || ev.EvCloseAllSessions? {
      ClosedKnowledge(e, st, c, ev, mark, h);
    } else if Signs(ev) {
      OthersAfterSign(c, ev.h, if ev.EvSign? && ev.data.Some? then ev.data.value else PartsOf(c, ev.h), Step(e, st, ev).1, h);
    }
  }

  lemma OthersAfterSign(c: Caller, k: nat, data: Bytes, out: Output, h: nat)
    requires k != h
    ensures out.SignResult? ==> SameKnowledge(c, AfterSign(c, k, data, out.out), h)
  {
  }

  lemma ClosedKnowledge(e: Env, st: State, c: Caller, ev: Event, mark: nat, h: nat)
    requires Knows(st, c) && (ev.EvCloseSession? || ev.EvCloseAllSessions?)
    ensures var (st', out) := Step(e, st, ev);
            h in st'.table.sessions ==> SameKnowledge(c, Observe(c, ev, out, mark), h)
  {
    hide HandlesBelow;
    match ev
    case EvCloseSession(_) =>
    case EvCloseAllSessions(_) =>
  }

  lemma UntouchedTracks(e: Env, st: State, c: Caller, ev: Event, mark: nat, h: nat)
    requires Sound(e, st) && Knows(st, c) && Tracks(e, st, c, h) && !Touches(ev, h)
    ensures var (st', out) := Step(e, st, ev); Tracks(e, st', Observe(c, ev, out, mark), h)
  {
    hide Step, Sound, Knows, Observe, SessionTracked, SameKnowledge, SameSigning;
    StepSound(e, st, ev);
    var (st', out) := Step(e, st, ev);
    UntouchedSession(e, st, ev, h);
    UntouchedKnowledge(e, st, c, ev, mark, h);
    if h in st'.table.sessions {
      TrackedKept(e, st.back.net.calls, st'.back.net.calls, c, Observe(c, ev, out, mark), h,
                  st.table.sessions[h], st'.table.sessions[h]);
    }
  }

  lemma OpenTracks(e: Env, st: State, c: Caller, slot: nat, h: nat)
    requires Sound(e, st) && Knows(st, c) && Tracks(e, st, c, h)
    ensures var (st', r) := OpenSession(e, st, slot);
            Tracks(e, st', if r.Ok? then c.(slots := c.slots[r.value := slot]) else c, h)
  {
    hide BackOk, GetSigners, SessionTracked, AutoLogin;
    var (st', r) := OpenSession(e, st, slot);
    OpenProgress(e, st, slot);
    var c' := if r.Ok? then c.(slots := c.slots[r.value := slot]) else c;
    if h in st.table.sessions {
      TrackedKept(e, st.back.net.calls, st'.back.net.calls, c, c', h, st.table.sessions[h], st'.table.sessions[h]);
    } else if h in st'.table.sessions {
      NewSessionTracked(e, st'.back.net.calls, c', h, st'.table.sessions[h]);
    }
  }

  lemma SignInitTracks(e: Env, st: State, c: Caller, h: nat, mech: nat, key: nat)
    requires Tracks(e, st, c, h)
    ensures var (st', error) := SignInit(st, h, mech, key);
            Tracks(e, st', Observe(c, EvSignInit(h, mech, key), Returned(RvOf(error)), |st.back.net.calls|), h)
  {
    hide JobDone, ParseObjectHandle;
  }

  lemma SignUpdateTracks(e: Env, st: State, c: Caller, h: nat, part: Bytes, mark: nat)
    requires Tracks(e, st, c, h)
    ensures var (st', error) := SignUpdate(st, h, part);
            Tracks(e, st', Observe(c, EvSignUpdate(h, part), Returned(RvOf(error)), mark), h)
  {
    hide Justified;
  }

  lemma InitializeTracks(e: Env, st: State, c: Caller, ev: Event, mark: nat, h: nat)
    requires Tracks(e, st, c, h) && ev.EvInitialize?
    ensures var (st', out) := Step(e, st, ev); Tracks(e, st', Observe(c, ev, out, mark), h)
  {
    hide SessionTracked;
    if Step(e, st, ev).1 != Returned(OK) {
      assert Step(e, st, ev).0.table == st.table && Step(e, st, ev).0.back.net == st.back.net;
    }
  }

  /** C_Sign and C_SignFinal on the session, with and without a buffer, or refused. */
  lemma SignStepTracks(e: Env, st: State, c: Caller, ev: Event, mark: nat)
    requires Signs(ev) && Sound(e, st) && Knows(st, c) && Tracks(e, st, c, ev.h) && Polite(c, ev, ev.h)
    ensures var (st', out) := Step(e, st, ev);
            && Tracks(e, st', Observe(c, ev, out, mark), ev.h)
            && out.SignResult? && DeliveryOk(e, st'.back.net.calls, c, ev.h, DataOf(c, ev.h, ev), out.out)
  {
    hide Sound, SignCall, AfterSign, SessionTracked, JobDone, HandlesBelow;
    var given := if ev.EvSign? then ev.data else None;
    if st.initialized && ev.room.Some? && (ev.EvSign? ==> ev.data.Some?) {
      if ev.hasBuffer {
        SignCallTracks(e, st, c, ev.h, given, ev.room.value);
      } else {
        SizeQueryTracks(e, st, c, ev.h, given, ev.room.value);
      }
    } else {
      RefusedTracks(c, ev.h, if given.Some? then given.value else PartsOf(c, ev.h), Step(e, st, ev).1.out);
    }
  }

  /** NULL size queries never touch a session. */
  lemma SizeQueryTracks(e: Env, st: State, c: Caller, h: nat, given: Option<Bytes>, room: nat)
    requires Sound(e, st) && Tracks(e, st, c, h)
    ensures var (st', out) := SignCall(e, st, h, given, false, room);
            Tracks(e, st', c, h) && out.signature.None?
  {
    hide BackOk, SignCall, SessionTracked;
    SignCallProgress(e, st, h, given, false, room);
    SignCallShape(e, st, h, given, false, room);
    if h in st.table.sessions {
      TrackedKept(e, st.back.net.calls, SignCall(e, st, h, given, false, room).0.back.net.calls, c, c, h,
                  st.table.sessions[h], st.table.sessions[h]);
    }
  }

  lemma RefusedTracks(c: Caller, h: nat, data: Bytes, out: SignOutput)
    requires out.rv == ArgumentsBad || out.rv == NotInitialized
    ensures AfterSign(c, h, data, out) == c
  {
  }

  lemma StepTracks(e: Env, st: State, c: Caller, ev: Event, h: nat)
    requires Sound(e, st) && Knows(st, c) && Tracks(e, st, c, h) && Polite(c, ev, h)
    ensures var (st', out) := Step(e, st, ev); Tracks(e, st', Observe(c, ev, out, |st.back.net.calls|), h)
  {
    hide Sound, Knows, Tracks, SignCall, OpenSession, SignInit, SignUpdate, Initialize, AfterSign;
    var mark := |st.back.net.calls|;
    if !Touches(ev, h) {
      UntouchedTracks(e, st, c, ev, mark, h);
    } else if Signs(ev) {
      SignStepTracks(e, st, c, ev, mark);
    } else if ev.EvInitialize? {
      InitializeTracks(e, st, c, ev, mark, h);
    } else if ev.EvOpenSession? {
      if st.initialized { OpenTracks(e, st, c, ev.slotID, h); }
    } else if ev.EvSignInit? {
      if st.initialized { SignInitTracks(e, st, c, h, ev.mech, ev.key); }
    } else if st.initialized {
      SignUpdateTracks(e, st, c, h, ev.part, mark);
    }
  }

  // ------------------------------------------------------------------ every polite run

  lemma {:induction false} RunKnows(e: Env, st: State, events: seq<Event>)
    requires IsInitial(st)
    ensures Knows(Run(e, st, events), Watch(e, st, events))
  {
    hide Step, Observe;
    if events != [] {
      var front := events[..|events| - 1];
      RunKnows(e, st, front);
      StepKnows(e, Run(e, st, front), Watch(e, st, front), events[|events| - 1], |Run(e, st, front).back.net.calls|);
    }
  }

  lemma {:induction false} RunTracks(e: Env, st: State, events: seq<Event>, h: nat)
    requires IsInitial(st) && PoliteRun(e, st, events, h)
    ensures Tracks(e, Run(e, st, events), Watch(e, st, events), h)
  {
    hide Step, Sound, Knows, Polite, Observe, SessionTracked;
    if events != [] {
      var n := |events| - 1;
      var front := events[..n];
      PrefixPolite(e, st, events, n, h);
      RunSound(e, st, front);
      RunKnows(e, st, front);
      RunTracks(e, st, front, h);
      assert Polite(Watch(e, st, events[..n]), events[n], h);
      StepTracks(e, Run(e, st, front), Watch(e, st, front), events[n], h);
    }
  }

  lemma PrefixPolite(e: Env, st: State, events: seq<Event>, n: nat, h: nat)
    requires n <= |events| && forall m :: 0 <= m < n ==> Polite(Watch(e, st, events[..m]), events[m], h)
    ensures PoliteRun(e, st, events[..n], h)
  {
    hide Watch, Polite;
    forall m | 0 <= m < n
      ensures Polite(Watch(e, st, events[..n][..m]), events[..n][m], h)
    {
      assert events[..n][..m] == events[..m];
    }
  }

  /** In every state reached with polite retries on a session, its cached signature means that its operation is still active. */
  lemma CachedMeansActive(e: Env, st: State, events: seq<Event>, h: nat)
    requires IsInitial(st) && PoliteRun(e, st, events, h)
    ensures var m := Run(e, st, events).table.sessions;
            h in m && m[h].cachedSignature.Some? ==> m[h].signActive
  {
    hide Run, Watch, JobDone;
    RunTracks(e, st, events, h);
  }

  /**
   If the retries on a session are polite, every signature delivered on it was made by the server after the
   session's latest successful C_SignInit, for its mechanism and key slot and for the data of the call that had
   it made, whatever else (size queries, updates, finds, other sessions, re-initialisation, time) happened in between.
   */
  lemma DeliveredIsOwn(e: Env, st: State, events: seq<Event>, ev: Event)
    requires IsInitial(st) && Signs(ev) && PoliteRun(e, st, events, ev.h) && Polite(Watch(e, st, events), ev, ev.h)
    ensures var (st', out) := Step(e, Run(e, st, events), ev);
            var c := Watch(e, st, events);
            out.SignResult? && out.out.rv == OK && out.out.signature.Some? ==>
              && ev.h in c.jobs
              && var job := c.jobs[ev.h];
                 Justified(e, st'.back.net.calls, job.since, job.mech, job.keySlot, DataOf(c, ev.h, ev), out.out.signature.value)
  {
    hide Run, Watch, Sound, Knows, Tracks, Justified, Step, DataOf, Polite;
    RunSound(e, st, events);
    RunKnows(e, st, events);
    RunTracks(e, st, events, ev.h);
    SignStepTracks(e, Run(e, st, events), Watch(e, st, events), ev, 0);
  }

  // ------------------------------------------------------------------ the hypothesis is exact

  /** The rule of section 5.2 of PKCS #11 v2.40: CKR_BUFFER_TOO_SMALL does not end the operation. */
  ghost predicate StaysActive(t: Table, h: nat) {
    h in t.sessions && t.sessions[h].cachedSignature.Some? ==> t.sessions[h].signActive
  }

  /** A second short buffer ends the operation but leaves the signature behind. */
  lemma ShortRetryStrands(e: Env, st: State, h: nat, data: Option<Bytes>, room: nat)
    requires h in st.table.sessions && st.table.sessions[h].signActive
    requires st.table.sessions[h].cachedSignature.Some? && room < |st.table.sessions[h].cachedSignature.value|
    ensures var st' := SignCall(e, st, h, data, true, room).0;
            && st'.back == st.back
            && st'.table == Put(st.table, h, ClearSignState(st.table.sessions[h]).(cachedSignature := st.table.sessions[h].cachedSignature))
    ensures !StaysActive(SignCall(e, st, h, data, true, room).0.table, h)
  {
    hide SignInternal;
    var s := st.table.sessions[h];
    assert st.table.sessions[h := ClearSignState(s)][h := ClearSignState(s).(cachedSignature := s.cachedSignature)] ==
           st.table.sessions[h := ClearSignState(s).(cachedSignature := s.cachedSignature)];
  }

  /** A signing step whose buffer is too short for the waiting signature. */
  predicate ShortRetry(st: State, ev: Event, h: nat) {
    && st.initialized && Signs(ev) && ev.h == h && ev.hasBuffer && (ev.EvSign? ==> ev.data.Some?) && ev.room.Some?
    && h in st.table.sessions && st.table.sessions[h].signActive
    && st.table.sessions[h].cachedSignature.Some? && ev.room.value < |st.table.sessions[h].cachedSignature.value|
  }

  lemma ShortRetryStepStrands(e: Env, st: State, ev: Event, h: nat)
    requires ShortRetry(st, ev, h)
    ensures !StaysActive(Step(e, st, ev).0.table, h)
  {
    hide StaysActive, SignCall;
    ShortRetryStrands(e, st, h, if ev.EvSign? then ev.data else None, ev.room.value);
  }

  ghost predicate StaysActiveThroughout(e: Env, st: State, events: seq<Event>, h: nat) {
    forall n :: 0 <= n <= |events| ==> StaysActive(Run(e, st, events[..n]).table, h)
  }

  /** Along a run the rule is kept on a session exactly when every retry on it offers at least the length reported. */
  lemma {:induction false} RuleKeptIffPolite(e: Env, st: State, events: seq<Event>, h: nat)
    requires IsInitial(st)
    ensures StaysActiveThroughout(e, st, events, h) <==> PoliteRun(e, st, events, h)
  {
    hide Run, Watch, Polite, Step;
    if PoliteRun(e, st, events, h) {
      forall n | 0 <= n <= |events|
        ensures StaysActive(Run(e, st, events[..n]).table, h)
      {
        PrefixPolite(e, st, events, n, h);
        CachedMeansActive(e, st, events[..n], h);
      }
    } else {
      var n := FirstImpolite(e, st, events, |events|, h);
      ImpoliteIsShort(e, st, events[..n], events[n], h);
      ShortRetryStepStrands(e, Run(e, st, events[..n]), events[n], h);
      RunOneMore(e, st, events, n);
    }
  }

  /** After polite retries, an impolite one meets a waiting signature that it is too short for. */
  lemma ImpoliteIsShort(e: Env, st: State, events: seq<Event>, ev: Event, h: nat)
    requires IsInitial(st) && PoliteRun(e, st, events, h) && !Polite(Watch(e, st, events), ev, h)
    ensures ShortRetry(Run(e, st, events), ev, h)
  {
    hide Run, Watch, JobDone, HandlesBelow;
    RunKnows(e, st, events);
    RunTracks(e, st, events, h);
  }

  lemma RunOneMore(e: Env, st: State, events: seq<Event>, n: nat)
    requires n < |events|
    ensures Run(e, st, events[..n + 1]) == Step(e, Run(e, st, events[..n]), events[n]).0
  {
    hide Step;
    assert events[..n + 1][..n] == events[..n];
  }

  /** The first impolite step on a session: everything before it was polite. */
  lemma {:induction false} FirstImpolite(e: Env, st: State, events: seq<Event>, bound: nat, h: nat) returns (n: nat)
    requires bound <= |events|
    requires exists m :: 0 <= m < bound && !Polite(Watch(e, st, events[..m]), events[m], h)
    ensures n < bound && !Polite(Watch(e, st, events[..n]), events[n], h) && PoliteRun(e, st, events[..n], h)
  {
    hide Watch, Polite;
    if exists m :: 0 <= m < bound - 1 && !Polite(Watch(e, st, events[..m]), events[m], h) {
      n := FirstImpolite(e, st, events, bound - 1, h);
    } else {
      n := bound - 1;
      PrefixPolite(e, st, events, n, h);
    }
  }
}
