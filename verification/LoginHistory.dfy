/** The login flag of every session, and the life of session handles, over every run. */
module LoginHistory {
  import opened Common
  import opened Errors
  import opened Slots
  import opened Remote
  import Attributes
  import opened Signers
  import opened Machine
  import opened Conservation
  import opened Journal

  // ------------------------------------------------------------------ the history

  datatype Entry =
    | OpenedAs(handle: nat, slot: nat, auto: bool)
    | LoggedIn(slot: nat)
    | LoggedOut(slot: nat)

  /**
   A session is opened logged in under token auth with a token, or when id and secret are configured and the step
   ended with reading a token from the SDK.
   */
  predicate OpensLoggedIn(auth: AuthConfig, before: seq<Call>, after: seq<Call>) {
    || (auth.authMethod.TokenAuth? && auth.token != "")
    || (auth.clientID != "" && auth.clientSecret != "" && |after| > |before| &&
        after[|after| - 1].TokenRead? && after[|after| - 1].token != "")
  }

  /** What one step adds to the history; `after` are the calls recorded by its end. */
  function Added(st: State, ev: Event, out: Output, after: seq<Call>): seq<Entry> {
    match ev
    case EvOpenSession(slot) =>
      if out.Opened? then [OpenedAs(out.handle, slot, OpensLoggedIn(st.back.config.auth, st.back.net.calls, after))] else []
    case EvLogin(h, _) => if out == Returned(OK) && h in st.table.sessions then [LoggedIn(st.table.sessions[h].slotID)] else []
    case EvLogout(h) => if out == Returned(OK) && h in st.table.sessions then [LoggedOut(st.table.sessions[h].slotID)] else []
    case _ => []
  }

  predicate Reinitializes(ev: Event, out: Output) {
    ev.EvInitialize? && out == Returned(OK)
  }

  /** Everything since the last successful C_Initialize. */
  function History(e: Env, st: State, events: seq<Event>): seq<Entry> {
    if events == [] then []
    else
      var front, ev := events[..|events| - 1], events[|events| - 1];
      var before := Run(e, st, front);
      var (after, out) := Step(e, before, ev);
      if Reinitializes(ev, out) then [] else History(e, st, front) + Added(before, ev, out, after.back.net.calls)
  }

  /** The latest entry that concerns a session decides. */
  function Flag(history: seq<Entry>, handle: nat, slot: nat): bool {
    if history == [] then false
    else
      match history[|history| - 1]
      case OpenedAs(h, _, auto) => if h == handle then auto else Flag(history[..|history| - 1], handle, slot)
      case LoggedIn(s) => s == slot || Flag(history[..|history| - 1], handle, slot)
      case LoggedOut(s) => s != slot && Flag(history[..|history| - 1], handle, slot)
  }

  // ------------------------------------------------------------------ the flag is what the history says

  /** Handles issued so far are in order and below the next one; flags agree with the history. */
  ghost predicate FlagsOk(t: Table, history: seq<Entry>) {
    && HandlesBelow(t)
    && (forall h :: h in t.sessions ==> t.sessions[h].loggedIn == Flag(history, h, t.sessions[h].slotID))
    && (forall i :: 0 <= i < |history| && history[i].OpenedAs? ==> history[i].handle < t.nextID)
    && (forall i, j :: 0 <= i < j < |history| && history[i].OpenedAs? && history[j].OpenedAs? ==>
          history[i].handle < history[j].handle)
  }

  lemma FlagAfter(history: seq<Entry>, entry: Entry, handle: nat, slot: nat)
    ensures Flag(history + [entry], handle, slot) ==
            match entry
            case OpenedAs(h, _, auto) => if h == handle then auto else Flag(history, handle, slot)
            case LoggedIn(s) => s == slot || Flag(history, handle, slot)
            case LoggedOut(s) => s != slot && Flag(history, handle, slot)
  {
    assert (history + [entry])[..|history|] == history;
  }

  /** Steps that neither open sessions nor change flags. */
  lemma FlagsKept(t: Table, t': Table, history: seq<Entry>)
    requires FlagsOk(t, history) && FlagsFrom(t, t')
    ensures FlagsOk(t', history)
  {
    hide Flag;
  }

  /** What AutoLogin decides can be read off the record. */
  lemma OpensAsRecorded(e: Env, st: State, slot: nat)
    ensures var (st', r) := OpenSession(e, st, slot);
            r.Ok? ==> && r.value == st.table.nextID && st'.table.nextID == r.value + 1
                      && var auto := OpensLoggedIn(st.back.config.auth, st.back.net.calls, st'.back.net.calls);
                         st'.table.sessions == st.table.sessions[r.value := NewSession(slot).(loggedIn := auto)]
  {
    hide WithRetryOnAuth;
    RetryJournal(e, st.back.config.auth, st.back.net, ListSigners);
    var b1 := GetSignerBySlot(e, st.back, slot).0;
    var (net, token) := AccessToken(e, b1.net);
    var (st', r) := OpenSession(e, st, slot);
    if r.Ok? {
      assert st'.table.sessions == st.table.sessions[r.value := st'.table.sessions[r.value]];
    }
  }

  lemma OpenFlags(e: Env, st: State, slot: nat, history: seq<Entry>)
    requires FlagsOk(st.table, history)
    ensures var (st', r) := OpenSession(e, st, slot);
            FlagsOk(st'.table, history + (if r.Ok? then [OpenedAs(r.value, slot, OpensLoggedIn(st.back.config.auth, st.back.net.calls, st'.back.net.calls))] else []))
  {
    hide GetSigners, AutoLogin, Flag, OpensLoggedIn;
    OpensAsRecorded(e, st, slot);
    var (st', r) := OpenSession(e, st, slot);
    if r.Ok? {
      hide OpenSession;
      var entry := OpenedAs(r.value, slot, OpensLoggedIn(st.back.config.auth, st.back.net.calls, st'.back.net.calls));
      forall h | h in st'.table.sessions
        ensures st'.table.sessions[h].loggedIn == Flag(history + [entry], h, st'.table.sessions[h].slotID)
      {
        FlagAfter(history, entry, h, st'.table.sessions[h].slotID);
      }
    } else {
      assert history + [] == history;
    }
  }

  lemma LoginFlags(e: Env, st: State, h: nat, pin: string, history: seq<Entry>)
    requires FlagsOk(st.table, history)
    ensures var (st', error) := Login(e, st, h, pin);
            FlagsOk(st'.table, history + Added(st, EvLogin(h, pin), Returned(RvOf(error)), st'.back.net.calls))
  {
    hide LoginBack, Flag;
    var (st', error) := Login(e, st, h, pin);
    if error.None? {
      var entry := LoggedIn(st.table.sessions[h].slotID);
      forall k | k in st'.table.sessions
        ensures st'.table.sessions[k].loggedIn == Flag(history + [entry], k, st'.table.sessions[k].slotID)
      {
        FlagAfter(history, entry, k, st'.table.sessions[k].slotID);
      }
    } else {
      assert history + [] == history;
    }
  }

  lemma LogoutFlags(e: Env, st: State, h: nat, history: seq<Entry>)
    requires FlagsOk(st.table, history)
    ensures var (st', error) := Logout(st, h);
            FlagsOk(st'.table, history + Added(st, EvLogout(h), Returned(RvOf(error)), st'.back.net.calls))
  {
    hide Flag;
    var (st', error) := Logout(st, h);
    if error.None? {
      var entry := LoggedOut(st.table.sessions[h].slotID);
      forall k | k in st'.table.sessions
        ensures st'.table.sessions[k].loggedIn == Flag(history + [entry], k, st'.table.sessions[k].slotID)
      {
        FlagAfter(history, entry, k, st'.table.sessions[k].slotID);
      }
    } else {
      assert history + [] == history;
    }
  }

  predicate FlagStep(ev: Event) {
    ev.EvInitialize? || ev.EvOpenSession? || ev.EvLogin? || ev.EvLogout?
  }

  /** The table `t'` has no session or flag that `t` has not. */
  ghost predicate FlagsFrom(t: Table, t': Table) {
    && t'.nextID == t.nextID && t'.sessions.Keys <= t.sessions.Keys
    && forall h :: h in t'.sessions ==>
         t'.sessions[h].loggedIn == t.sessions[h].loggedIn && t'.sessions[h].slotID == t.sessions[h].slotID
  }

  lemma SignKeepsFlags(e: Env, st: State, h: nat, data: Option<Bytes>, hasBuffer: bool, room: nat)
    ensures FlagsFrom(st.table, SignCall(e, st, h, data, hasBuffer, room).0.table)
  {
    hide SignInternal, EstimateSignatureSize;
  }

  lemma OtherStep(e: Env, st: State, ev: Event)
    requires !FlagStep(ev)
    ensures FlagsFrom(st.table, Step(e, st, ev).0.table)
  {
    hide GetSigners, Attributes.GetAttributeValue, LoginBack, MatchingObjects, OpenSession, SignCall, Initialize;
    match ev
    case EvSign(h, data, hasBuffer, room) => if room.Some? { SignKeepsFlags(e, st, h, data, hasBuffer, room.value); }
    case EvSignFinal(h, hasBuffer, room) => if room.Some? { SignKeepsFlags(e, st, h, None, hasBuffer, room.value); }
    case _ =>
  }

  lemma StepFlags(e: Env, st: State, ev: Event, history: seq<Entry>)
    requires FlagsOk(st.table, history)
    ensures var (st', out) := Step(e, st, ev);
            FlagsOk(st'.table, if Reinitializes(ev, out) then [] else history + Added(st, ev, out, st'.back.net.calls))
  {
    hide FlagsOk, OpenSession, Login, Logout, SignCall, GetSigners, AutoLogin;
    assert history + [] == history;
    match ev
    case EvInitialize(_, _) => InitializeFlags(e, st, ev, history);
    case EvOpenSession(slot) => if st.initialized { OpenFlags(e, st, slot, history); }
    case EvLogin(h, pin) => if st.initialized { LoginFlags(e, st, h, pin, history); }
    case EvLogout(h) => if st.initialized { LogoutFlags(e, st, h, history); }
    case _ =>
      OtherStep(e, st, ev);
      FlagsKept(st.table, Step(e, st, ev).0.table, history);
  }

  lemma InitializeFlags(e: Env, st: State, ev: Event, history: seq<Entry>)
    requires FlagsOk(st.table, history) && ev.EvInitialize?
    ensures var (st', out) := Step(e, st, ev);
            FlagsOk(st'.table, if Reinitializes(ev, out) then [] else history)
  {
    hide Flag;
  }

  lemma {:induction false} RunFlags(e: Env, st: State, events: seq<Event>)
    requires IsInitial(st)
    ensures FlagsOk(Run(e, st, events).table, History(e, st, events))
  {
    hide Step, FlagsOk, Added;
    if events == [] {
      InitialFlags(st);
    } else {
      var front := events[..|events| - 1];
      RunFlags(e, st, front);
      StepFlags(e, Run(e, st, front), events[|events| - 1], History(e, st, front));
    }
  }

  lemma InitialFlags(st: State)
    requires IsInitial(st)
    ensures FlagsOk(st.table, [])
  {
  }

  // ------------------------------------------------------------------ the results

  /**
   In every reachable state a session is logged in exactly when the latest of these says so: its own opening,
   a successful C_Login and a C_Logout on its slot.  Other slots have no say.
   */
  lemma LoginFollowsHistory(e: Env, st: State, events: seq<Event>, h: nat)
    requires IsInitial(st) && h in Run(e, st, events).table.sessions
    ensures var s := Run(e, st, events).table.sessions[h];
            s.loggedIn == Flag(History(e, st, events), h, s.slotID)
  {
    hide Run, History, Flag;
    RunFlags(e, st, events);
  }

  /** A signing operation starts exactly when the history has its open session logged in and none is under way. */
  lemma SigningNeedsLogin(e: Env, st: State, events: seq<Event>, h: nat, mech: nat, key: nat)
    requires IsInitial(st)
    ensures var st1 := Run(e, st, events);
            Step(e, st1, EvSignInit(h, mech, key)).1 == Returned(OK) <==>
            && st1.initialized && h in st1.table.sessions && !st1.table.sessions[h].signActive
            && Flag(History(e, st, events), h, st1.table.sessions[h].slotID)
  {
    hide Run, History, Flag, ParseObjectHandle;
    RunFlags(e, st, events);
  }

  /** A handle issued by C_OpenSession has not been issued since the last C_Initialize. */
  lemma HandlesAreFresh(e: Env, st: State, events: seq<Event>, slot: nat)
    requires IsInitial(st)
    ensures var out := Step(e, Run(e, st, events), EvOpenSession(slot)).1;
            out.Opened? ==>
              && out.handle !in Run(e, st, events).table.sessions
              && forall i :: 0 <= i < |History(e, st, events)| && History(e, st, events)[i].OpenedAs? ==>
                   History(e, st, events)[i].handle != out.handle
  {
    hide Run, History, Flag, GetSigners, AutoLogin;
    RunFlags(e, st, events);
  }

  /** No step of the run initialises the module again; a C_Initialize that fails or comes too early may occur. */
  ghost predicate NotReinitialized(e: Env, st: State, events: seq<Event>) {
    forall n :: 0 <= n < |events| ==> !Reinitializes(events[n], Step(e, Run(e, st, events[..n]), events[n]).1)
  }

  /** A handle that was issued and closed stays invalid until the module is initialised again. */
  lemma {:induction false} ClosedStaysClosed(e: Env, st: State, events: seq<Event>, h: nat)
    requires HandlesBelow(st.table) && h < st.table.nextID && h !in st.table.sessions
    requires NotReinitialized(e, st, events)
    ensures var t := Run(e, st, events).table; HandlesBelow(t) && h < t.nextID && h !in t.sessions
  {
    hide Step;
    if events != [] {
      var front, ev := events[..|events| - 1], events[|events| - 1];
      forall n | 0 <= n < |front|
        ensures !Reinitializes(front[n], Step(e, Run(e, st, front[..n]), front[n]).1)
      {
        assert front[..n] == events[..n];
      }
      ClosedStaysClosed(e, st, front, h);
      StepKeepsClosed(e, Run(e, st, front), ev, h);
    }
  }

  lemma StepKeepsClosed(e: Env, st: State, ev: Event, h: nat)
    requires HandlesBelow(st.table) && h < st.table.nextID && h !in st.table.sessions
    requires !Reinitializes(ev, Step(e, st, ev).1)
    ensures var t := Step(e, st, ev).0.table; HandlesBelow(t) && h < t.nextID && h !in t.sessions
  {
    if FlagStep(ev) {
      hide GetSigners, AutoLogin, LoginBack;
    } else {
      hide Step;
      OtherStep(e, st, ev);
    }
  }
}
