/** Signing in parts is signing the whole (slots.go, lines 121-128; backend.go, lines 1186-1229). */
module Multipart {
  import opened Common
  import opened Errors
  import opened Slots
  import opened Remote
  import opened Signers
  import opened Machine

  function Concat(parts: seq<Bytes>): Bytes {
    if parts == [] then [] else Concat(parts[..|parts| - 1]) + parts[|parts| - 1]
  }

  /** C_SignUpdate for every part in turn, and whether all of them succeeded. */
  function Updates(st: State, h: nat, parts: seq<Bytes>): (State, bool) {
    if parts == [] then (st, true)
    else
      var (st1, ok) := Updates(st, h, parts[..|parts| - 1]);
      var (st2, error) := SignUpdate(st1, h, parts[|parts| - 1]);
      (st2, ok && error.None?)
  }

  function WithBuffer(st: State, h: nat, buffer: Bytes): State
    requires h in st.table.sessions
  {
    st.(table := Put(st.table, h, st.table.sessions[h].(signBuffer := buffer)))
  }

  lemma {:induction false} ConcatGrows(parts: seq<Bytes>, n: nat)
    requires n <= |parts|
    ensures |Concat(parts[..n])| <= |Concat(parts)|
  {
    if n < |parts| {
      assert parts[..|parts| - 1][..n] == parts[..n];
      ConcatGrows(parts[..|parts| - 1], n);
    } else {
      assert parts[..n] == parts;
    }
  }

  /** The updates succeed exactly when everything fits; then the buffer holds all parts in order. */
  lemma {:induction false} UpdatesAccumulate(st: State, h: nat, parts: seq<Bytes>)
    requires h in st.table.sessions && st.table.sessions[h].signActive && st.table.sessions[h].signBuffer == []
    ensures Updates(st, h, parts).1 <==> |Concat(parts)| <= 16 * 1024 * 1024
    ensures Updates(st, h, parts).1 ==> Updates(st, h, parts).0 == WithBuffer(st, h, Concat(parts))
    ensures var st' := Updates(st, h, parts).0;
            h in st'.table.sessions && st'.table.sessions[h].signActive && st'.back == st.back
  {
    if parts == [] {
      assert st.table.sessions[h := st.table.sessions[h].(signBuffer := [])] == st.table.sessions;
    } else {
      var front, last := parts[..|parts| - 1], parts[|parts| - 1];
      UpdatesAccumulate(st, h, front);
      if Updates(st, h, front).1 {
        var s := st.table.sessions[h];
        var buffer := Concat(front);
        assert st.table.sessions[h := s.(signBuffer := buffer)][h := s.(signBuffer := buffer + last)] ==
               st.table.sessions[h := s.(signBuffer := buffer + last)];
      } else {
        ConcatGrows(parts, |parts| - 1);
      }
    }
  }

  /** An update that would exceed the limit is refused and changes nothing at all. */
  lemma OverlongUpdateRefused(st: State, h: nat, part: Bytes)
    requires h in st.table.sessions && st.table.sessions[h].signActive
    ensures var (st', error) := SignUpdate(st, h, part);
            if |st.table.sessions[h].signBuffer| + |part| > 16 * 1024 * 1024 then
              st' == st && error == Some(SignBufferExceeded)
            else
              st' == WithBuffer(st, h, st.table.sessions[h].signBuffer + part) && error.None?
  {
    assert st.table.sessions[h := st.table.sessions[h]] == st.table.sessions;
  }

  /** Equal up to the signing buffer of one session. */
  ghost predicate SameButBuffer(st: State, st': State, h: nat) {
    && h in st.table.sessions && h in st'.table.sessions
    && st' == WithBuffer(st, h, st'.table.sessions[h].signBuffer)
  }

  lemma FinalComputesSame(e: Env, st: State, h: nat, whole: Bytes)
    requires h in st.table.sessions
    ensures var (st1, r1) := SignOrReplay(e, st, h, Some(whole));
            var (st2, r2) := SignOrReplay(e, WithBuffer(st, h, whole), h, None);
            r2 == r1 && SameButBuffer(st1, st2, h)
  {
    hide SignInternal;
    var st1 := SignOrReplay(e, st, h, Some(whole)).0;
    var st2 := SignOrReplay(e, WithBuffer(st, h, whole), h, None).0;
    assert st2.table.sessions == st1.table.sessions[h := st2.table.sessions[h]];
  }

  lemma DeliversSame(st1: State, st2: State, h: nat, r: Result<Bytes>, room: nat)
    requires SameButBuffer(st1, st2, h)
    ensures var (st1', out1) := Deliver(st1, h, r, room);
            var (st2', out2) := Deliver(st2, h, r, room);
            out2 == out1 && SameButBuffer(st1', st2', h) && (out1.rv == OK ==> st2' == st1')
  {
    var st1', st2' := Deliver(st1, h, r, room).0, Deliver(st2, h, r, room).0;
    assert st2'.table.sessions == st1'.table.sessions[h := st2'.table.sessions[h]];
  }

  /** C_SignFinal after the parts does what C_Sign does on the whole: same calls to the server, same outcome. */
  lemma FinalIsSign(e: Env, st: State, h: nat, whole: Bytes, hasBuffer: bool, room: Option<nat>)
    requires h in st.table.sessions
    ensures var (st1, out1) := CSign(e, st, h, Some(whole), hasBuffer, room);
            var (st2, out2) := CSignFinal(e, WithBuffer(st, h, whole), h, hasBuffer, room);
            && out2 == out1 && st2.back == st1.back && SameButBuffer(st1, st2, h)
            && (out1.rv == OK && out1.signature.Some? ==> st2 == st1)
  {
    hide SignOrReplay, GetSigners, Contains, Deliver;
    if st.initialized && hasBuffer && room.Some? {
      FinalComputesSame(e, st, h, whole);
      var (st1, r) := SignOrReplay(e, st, h, Some(whole));
      DeliversSame(st1, SignOrReplay(e, WithBuffer(st, h, whole), h, None).0, h, r, room.value);
    }
  }

  /**
   For every way of cutting data of at most 16 MiB into parts: C_SignInit, C_SignUpdate for each part and
   C_SignFinal make the same calls to the server and return the same as C_SignInit and C_Sign on the whole.
   */
  lemma MultipartIsSinglePart(e: Env, st: State, h: nat, mech: nat, key: nat, parts: seq<Bytes>, hasBuffer: bool, room: Option<nat>)
    requires |Concat(parts)| <= 16 * 1024 * 1024 && SignInit(st, h, mech, key).1.None?
    ensures var begun := SignInit(st, h, mech, key).0;
            var (fed, ok) := Updates(begun, h, parts);
            var (st1, out1) := CSign(e, begun, h, Some(Concat(parts)), hasBuffer, room);
            var (st2, out2) := CSignFinal(e, fed, h, hasBuffer, room);
            && ok && out2 == out1 && st2.back == st1.back && SameButBuffer(st1, st2, h)
            && (out1.rv == OK && out1.signature.Some? ==> st2 == st1)
  {
    hide CSign, CSignFinal, Updates, ParseObjectHandle;
    var begun := SignInit(st, h, mech, key).0;
    UpdatesAccumulate(begun, h, parts);
    FinalIsSign(e, begun, h, Concat(parts), hasBuffer, room);
  }
}
