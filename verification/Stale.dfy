/** What goes wrong when a retry is too short a second time: the run behind the hypothesis of Retry.dfy. */
module Stale {
  import opened Common
  import opened Errors
  import opened Capture
  import opened Mechanism
  import opened Slots
  import opened Remote
  import opened Signers
  import opened Requests
  import opened Machine
  import opened Journal
  import opened Staleness
  import opened Retry

  /**
   From any state with a signature waiting for a retry: a short retry, a new C_SignInit with any mechanism
   and key, and C_Sign on any data deliver the old signature, without a single call to the server.
   */
  lemma StaleSignatureEscapes(e: Env, st: State, h: nat, short: nat, mech: nat, key: nat, first: Option<Bytes>, data: Bytes, room: nat)
    requires h in st.table.sessions
    requires var s := st.table.sessions[h];
             s.loggedIn && s.signActive && s.cachedSignature.Some? &&
             short < |s.cachedSignature.value| <= room
    ensures var (st1, _) := SignCall(e, st, h, first, true, short);
            var (st2, error) := SignInit(st1, h, mech, key);
            var (st3, out) := SignCall(e, st2, h, Some(data), true, room);
            error.None? && out.rv == OK && out.signature == st.table.sessions[h].cachedSignature && st3.back == st.back
  {
    hide SignInternal, ParseObjectHandle;
    ShortRetryStrands(e, st, h, first, short);
  }

  // ------------------------------------------------------------------ such a state is reachable

  const SIGNER := Signer([1], [2], "certificate", "ec")

  /** A server with one signer that answers every signing request with the signature [7]. */
  function Server(): Env {
    Env(k => Answer(true, "", Ok([SIGNER]), Err(Transport), Ok(Some([7])), false),
        (hash, message) => [], bytes => "", der => None, SigningContext("", "", "", "", ""))
  }

  const TOKEN_CONFIG := Config(AuthConfig(TokenAuth, "", "", "token"), 300, 3600, ApprovalConfig(0, "", [], ""))

  const KEY: nat := OBJ_PRIVATE_KEY

  function Prefix(): seq<Event> {
    [EvInitialize(Some(TOKEN_CONFIG), true), EvOpenSession(0), EvSignInit(1, CKM_ECDSA, KEY),
     EvSign(1, Some([1]), true, Some(0))]
  }

  function Suffix(): seq<Event> {
    [EvSign(1, Some([1]), true, Some(0)), EvSignInit(1, CKM_ECDSA, KEY), EvSign(1, Some([2]), true, Some(1))]
  }

  lemma {:induction false} RunConcat(e: Env, st: State, a: seq<Event>, b: seq<Event>)
    ensures Run(e, st, a + b) == Run(e, Run(e, st, a), b)
  {
    hide Step;
    if b == [] {
      assert a + b == a;
    } else {
      var n := |b| - 1;
      assert (a + b)[..|a + b| - 1] == a + b[..n];
      RunConcat(e, st, a, b[..n]);
    }
  }

  lemma RunTwo(e: Env, st: State, ev: Event, ev': Event)
    ensures Run(e, st, [ev]) == Step(e, st, ev).0
    ensures Run(e, st, [ev, ev']) == Step(e, Step(e, st, ev).0, ev').0
  {
    hide Step;
    assert [ev][..0] == [];
    assert [ev, ev'][..1] == [ev];
  }

  /** The session's state after C_SignInit, with the signer list cached. */
  lemma Opening(st: State)
    requires IsInitial(st)
    ensures var e := Server();
            var st3 := Step(e, Step(e, Step(e, st, Prefix()[0]).0, Prefix()[1]).0, Prefix()[2]).0;
            && st3.initialized && 1 in st3.table.sessions
            && st3.table.sessions[1] == NewSession(0).(loggedIn := true, signActive := true, signMech := CKM_ECDSA)
            && GetSigners(e, st3.back) == (st3.back, Ok([SIGNER]))
            && st3.back.config == TOKEN_CONFIG
            && st3.back.net.calls == [ApiCall(st3.back.net.now, "token", ListSigners, Listed([SIGNER]))]
  {
    var e := Server();
    var st1 := Step(e, st, Prefix()[0]).0;
    assert st1.initialized && st1.back.net.calls == [] && st1.table == NewTable();
    var (b, signers) := GetSigners(e, st1.back);
    assert signers == Ok([SIGNER]);
    var st2 := Step(e, st1, Prefix()[1]).0;
    assert st2.back == b;
    assert st2.table.sessions[1] == NewSession(0).(loggedIn := true);
  }

  /** The first signing call finds its buffer too short and leaves the signature waiting. */
  lemma FirstCall(st3: State)
    requires st3.initialized && 1 in st3.table.sessions
    requires st3.table.sessions[1] == NewSession(0).(loggedIn := true, signActive := true, signMech := CKM_ECDSA)
    requires GetSigners(Server(), st3.back) == (st3.back, Ok([SIGNER])) && st3.back.config == TOKEN_CONFIG
    ensures var st4 := Step(Server(), st3, Prefix()[3]).0;
            && st4.initialized && 1 in st4.table.sessions
            && st4.table.sessions[1] == st3.table.sessions[1].(cachedSignature := Some([7]))
            && exists request: SignRequest :: request.data == [1] &&
                 st4.back.net.calls == st3.back.net.calls + [ApiCall(st3.back.net.now, "token", Sign([1], request), Signed(Some([7])))]
  {
    hide GetSigners;
    var e := Server();
    var request := BuildRequest(e, CKM_ECDSA, [1]).value;
    var (net, reply) := WithRetryOnAuth(e, TOKEN_CONFIG.auth, st3.back.net, Sign([1], request));
    assert reply == Signed(Some([7]));
    assert SignInternal(e, st3.back, CKM_ECDSA, 0, [1]) == (st3.back.(net := net), Ok([7]));
  }

  /** From any initial state, these seven calls deliver for [2] a signature that the server made for [1]. */
  lemma StaleRun(st: State)
    requires IsInitial(st)
    ensures var e := Server();
            var before := Run(e, st, Prefix() + Suffix()[..2]);
            var (after, out) := Step(e, before, Suffix()[2]);
            && out == SignResult(SignOutput(OK, Some(1), Some([7])))
            && !Justified(e, after.back.net.calls, 0, CKM_ECDSA, 0, [2], [7])
  {
    hide Step, Run, GetSigners, WithRetryOnAuth, IsInitial;
    var e := Server();
    var p := Prefix();
    RunTwo(e, st, p[0], p[1]);
    RunTwo(e, Run(e, st, p[..2]), p[2], p[3]);
    RunConcat(e, st, p[..2], p[2..]);
    assert p[..2] == [p[0], p[1]] && p[2..] == [p[2], p[3]] && p[..2] + p[2..] == p;
    Opening(st);
    var st3 := Step(e, Run(e, st, p[..2]), p[2]).0;
    FirstCall(st3);
    var st4 := Run(e, st, p);
    RunConcat(e, st, p, Suffix()[..2]);
    assert Suffix()[..2] == [Suffix()[0], Suffix()[1]];
    RunTwo(e, st4, Suffix()[0], Suffix()[1]);
    StaleSignatureEscapes(e, st4, 1, 0, CKM_ECDSA, KEY, Some([1]), [2], 1);
    StaleSteps(e, st4);
    NotForOtherData(e, st4.back.net.calls, st3.back.net.now);
  }

  lemma StaleSteps(e: Env, st4: State)
    requires st4.initialized
    ensures var st5 := SignCall(e, st4, 1, Some([1]), true, 0).0;
            var st6 := SignInit(st5, 1, CKM_ECDSA, KEY).0;
            var (st7, out) := SignCall(e, st6, 1, Some([2]), true, 1);
            Step(e, Step(e, Step(e, st4, Suffix()[0]).0, Suffix()[1]).0, Suffix()[2]) == (st7, SignResult(out))
  {
    hide SignInternal;
  }

  lemma NotForOtherData(e: Env, calls: seq<Call>, now: int)
    requires exists request: SignRequest :: request.data == [1] &&
               calls == [ApiCall(now, "token", ListSigners, Listed([SIGNER]))] +
                        [ApiCall(now, "token", Sign([1], request), Signed(Some([7])))]
    ensures !Justified(e, calls, 0, CKM_ECDSA, 0, [2], [7])
  {
    hide LatestList;
    var request: SignRequest :| request.data == [1] &&
               calls == [ApiCall(now, "token", ListSigners, Listed([SIGNER]))] +
                        [ApiCall(now, "token", Sign([1], request), Signed(Some([7])))];
    assert !RequestFor(e, CKM_ECDSA, [2], request);
  }
}
