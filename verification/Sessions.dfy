/** Sessions and the session manager as objects (slots.go, lines 36-128). */
module Sessions {
  import opened Common
  import opened Errors
  import Slots

  class Session {
    var slotID: nat
    var loggedIn: bool
    var signActive: bool
    var signMech: nat
    var signKeyIndex: nat
    var signBuffer: Bytes
    var cachedSignature: Option<Bytes>
    var findActive: bool
    var findTemplate: seq<Slots.Attribute>
    var findResults: seq<nat>
    var findPos: nat

    ghost function View(): Slots.SessionState
      reads this
    {
      Slots.SessionState(slotID, loggedIn, signActive, signMech, signKeyIndex, signBuffer, cachedSignature,
                         findActive, findTemplate, findResults, findPos)
    }

    constructor (slotID: nat)
      ensures View() == Slots.NewSession(slotID)
    {
      this.slotID := slotID;
      loggedIn, signActive, signMech, signKeyIndex, signBuffer, cachedSignature := false, false, 0, 0, [], None;
      findActive, findTemplate, findResults, findPos := false, [], [], 0;
    }

    /** Refuses data that would exceed the limit, before anything is changed. */
    method AppendSignBuffer(data: Bytes) returns (error: Option<Error>)
      modifies this
      ensures (View(), error) == Slots.AppendSignBuffer(old(View()), data)
    {
      var newLen := |signBuffer| + |data|;
      if newLen > Slots.MAX_SIGN_BUFFER {
        return Some(SignBufferExceeded);
      }
      signBuffer := signBuffer + data;
      return None;
    }
  }

  class SessionManager {
    var sessions: map<nat, Session>
    var nextID: nat

    /** No two handles share a session. */
    ghost predicate Valid()
      reads this
    {
      forall h, k :: h in sessions && k in sessions && sessions[h] == sessions[k] ==> h == k
    }

    ghost function View(): Slots.Table
      reads this, sessions.Values
    {
      Slots.Table(map h | h in sessions :: sessions[h].View(), nextID)
    }

    constructor ()
      ensures Valid() && View() == Slots.NewTable() && sessions == map[]
    {
      sessions, nextID := map[], 1;
    }

    method Open(slotID: nat) returns (handle: nat)
      requires Valid()
      modifies this
      ensures Valid() && (View(), handle) == Slots.Open(old(View()), slotID)
      ensures handle in sessions && fresh(sessions[handle]) && sessions == old(sessions)[handle := sessions[handle]]
    {
      handle := nextID;
      nextID := nextID + 1;
      var s := new Session(slotID);
      sessions := sessions[handle := s];
      assert View().sessions == old(View()).sessions[handle := s.View()];
    }

    method Get(handle: nat) returns (s: Option<Session>)
      ensures s == if handle in sessions then Some(sessions[handle]) else None
    {
      return if handle in sessions then Some(sessions[handle]) else None;
    }

    method Close(handle: nat) returns (ok: bool)
      requires Valid()
      modifies this
      ensures Valid() && ok == (handle in old(sessions))
      ensures View() == Slots.Close(old(View()), handle) && sessions == old(sessions) - {handle}
    {
      if handle !in sessions {
        assert sessions == sessions - {handle};
        return false;
      }
      sessions := sessions - {handle};
      return true;
    }

    method CloseAllForSlot(slotID: nat)
      requires Valid()
      modifies this
      ensures Valid() && View() == Slots.CloseAllForSlot(old(View()), slotID)
      ensures sessions.Values <= old(sessions.Values)
    {
      ghost var before := sessions;
      var todo := sessions.Keys;
      while todo != {}
        invariant todo <= sessions.Keys <= before.Keys && nextID == old(nextID)
        invariant forall h :: h in before ==> (h in sessions <==> h in todo || before[h].slotID != slotID)
        invariant forall h :: h in sessions ==> sessions[h] == before[h]
        decreases todo
      {
        var h :| h in todo;
        todo := todo - {h};
        if sessions[h].slotID == slotID {
          sessions := sessions - {h};
        }
      }
      assert View().sessions == Slots.CloseAllForSlot(old(View()), slotID).sessions;
    }

    method SetLoggedIn(handle: nat, loggedIn: bool)
      requires Valid()
      modifies sessions.Values
      ensures Valid() && View() == Slots.SetLoggedIn(old(View()), handle, loggedIn)
    {
      if handle in sessions {
        var s := sessions[handle];
        s.loggedIn := loggedIn;
        assert View().sessions == old(View()).sessions[handle := s.View()];
      }
    }

    method SetAllLoggedInForSlot(slotID: nat, loggedIn: bool)
      requires Valid()
      modifies sessions.Values
      ensures Valid() && View() == Slots.SetAllLoggedInForSlot(old(View()), slotID, loggedIn)
    {
      MarkSessions(slotID, loggedIn);
      assert View().sessions == Slots.SetAllLoggedInForSlot(old(View()), slotID, loggedIn).sessions;
    }

    method MarkSessions(slotID: nat, loggedIn: bool)
      requires Valid()
      modifies sessions.Values
      ensures forall h :: h in sessions ==> sessions[h].View() == Marked(old(sessions[h].View()), slotID, loggedIn)
    {
      var todo := sessions.Keys;
      while todo != {}
        invariant todo <= sessions.Keys
        invariant forall h :: h in todo ==> sessions[h].View() == old(sessions[h].View())
        invariant forall h :: h in sessions && h !in todo ==>
                    sessions[h].View() == Marked(old(sessions[h].View()), slotID, loggedIn)
        decreases todo
      {
        var h :| h in todo;
        var s := sessions[h];
        if s.slotID == slotID {
          s.loggedIn := loggedIn;
        }
        todo := todo - {h};
      }
    }

    static function Marked(s: Slots.SessionState, slotID: nat, loggedIn: bool): Slots.SessionState {
      if s.slotID == slotID then s.(loggedIn := loggedIn) else s
    }

    /** What changing one session object does to the table. */
    twostate lemma PutView(handle: nat)
      requires Valid() && handle in sessions && sessions == old(sessions) && nextID == old(nextID)
      requires forall h :: h in sessions && h != handle ==> unchanged(sessions[h])
      ensures View() == Slots.Put(old(View()), handle, sessions[handle].View())
    {
      assert View().sessions == old(View()).sessions[handle := sessions[handle].View()];
    }
  }
}
