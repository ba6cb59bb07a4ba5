/** What single entry points return and leave behind, where no other theorem says it (main.go, backend.go). */
module Outcomes {
  import opened Common
  import opened Errors
  import opened Slots
  import opened Remote
  import opened Cache
  import opened Signers
  import opened Attributes
  import opened Machine
  import opened Journal
  import opened Staleness
  import opened ObjectAttributes

  // ------------------------------------------------------------------ slots

  /** Count and slot numbers are those of the list, in all three uses of the call. */
  predicate SlotsOf(out: SlotListOutput, signers: seq<Signer>, hasBuffer: bool, room: nat) {
    && out.count == Some(|signers|)
    && (out.rv == if hasBuffer && room < |signers| then BufferTooSmall else OK)
    && (if hasBuffer && room >= |signers| then
          |out.slots| == |signers| && forall i :: 0 <= i < |out.slots| ==> out.slots[i] == i
        else out.slots == [])
  }

  /** In every reachable state, C_GetSlotList numbers the signers of the latest list received. */
  lemma SlotListIsRead(e: Env, st: State, events: seq<Event>, hasBuffer: bool, room: nat)
    requires IsInitial(st) && Run(e, st, events).initialized
    ensures var (st', out) := CGetSlotList(e, Run(e, st, events), hasBuffer, Some(room));
            if GetSigners(e, Run(e, st, events).back).1.Ok? then
              LatestList(st'.back.net.calls).Some? && SlotsOf(out, LatestList(st'.back.net.calls).value.1, hasBuffer, room)
            else out.rv.Mapped? && out.count.None? && out.slots == []
  {
    hide Run, GetSigners, BackOk, LatestList;
    RunSound(e, st, events);
    GetSignersJournal(e, Run(e, st, events).back);
  }

  // ------------------------------------------------------------------ sessions

  /** C_OpenSession succeeds exactly for the slots of the list; the new session has no operation under way. */
  lemma OpenOutcome(e: Env, st: State, slot: nat)
    requires st.initialized
    ensures var (st', out) := Step(e, st, EvOpenSession(slot));
            var listed := GetSigners(e, st.back).1;
            && (out.Opened? <==> listed.Ok? && slot < |listed.value|)
            && (if out.Opened? then
                  && out.handle in st'.table.sessions
                  && var s := st'.table.sessions[out.handle];
                     s.slotID == slot && !s.signActive && !s.findActive && s.cachedSignature.None? && s.signBuffer == []
                else st'.table == st.table)
  {
    hide GetSigners, AutoLogin;
  }

  // ------------------------------------------------------------------ searches

  /** C_FindObjectsFinal ends the search of its session and nothing else: results are gone, a new search may begin. */
  lemma SearchEnds(e: Env, st: State, h: nat, max: nat, template: seq<Attribute>)
    requires st.initialized && |template| <= 256
    ensures var (st1, out) := Step(e, st, EvFindObjectsFinal(h));
            && st1.back == st.back && (out == Returned(OK) <==> h in st.table.sessions)
            && (h in st.table.sessions ==>
                  && st1.table == Put(st.table, h, st.table.sessions[h].(findActive := false, findResults := [], findPos := 0))
                  && Step(e, st1, EvFindObjects(h, max)).1 == Returned(Mapped(FindNotActive))
                  && (Step(e, st1, EvFindObjectsInit(h, template)).1 == Returned(OK) <==>
                      MatchingObjects(e, st.back, st.table.sessions[h].slotID, template).1.Ok?))
  {
    hide MatchingObjects;
    if h in st.table.sessions {
      var st1 := Step(e, st, EvFindObjectsFinal(h)).0;
      assert st1.table.sessions[h] == st.table.sessions[h].(findActive := false, findResults := [], findPos := 0);
      assert !st1.table.sessions[h].findActive;
    }
  }

  /** While a search is under way a second one is refused and changes nothing. */
  lemma SecondSearchRefused(e: Env, st: State, h: nat, template: seq<Attribute>)
    requires st.initialized && |template| <= 256 && h in st.table.sessions && st.table.sessions[h].findActive
    ensures Step(e, st, EvFindObjectsInit(h, template)) == (st, Returned(Mapped(FindAlreadyActive)))
  {
    hide MatchingObjects;
  }

  /** Templates of more than 256 entries are refused. */
  lemma LongTemplatesRefused(e: Env, st: State, h: nat, obj: nat, template: seq<Attribute>, entries: seq<CkAttribute>)
    requires st.initialized && |template| > 256 && |entries| > 256 && WellFormed(entries)
    ensures Step(e, st, EvFindObjectsInit(h, template)) == (st, Returned(ArgumentsBad))
    ensures CGetAttributeValue(e, st, h, obj, Some(entries)) == (st, Some(entries), ArgumentsBad)
  {
    hide MatchingObjects, GetAttributeValue, FillTemplate;
  }

  // ------------------------------------------------------------------ size queries

  /** A NULL buffer asks for the size: that of the modulus the key's algorithm mentions, or of a P-521 signature. */
  lemma SizeIsEstimated(e: Env, st: State, h: nat, data: Option<Bytes>, room: nat)
    requires h in st.table.sessions
    ensures var (st', out) := SignCall(e, st, h, data, false, room);
            var listed := GetSigners(e, st.back).1;
            var slot := st.table.sessions[h].signKeyIndex;
            && out.rv == OK && out.signature.None? && st'.table == st.table && out.length.Some?
            && if listed.Ok? && slot < |listed.value| then
                 var alg := listed.value[slot].keyAlgorithm;
                 match out.length.value
                 case 384 => Mentions(alg, "3072") && !Mentions(alg, "4096")
                 case 256 => Mentions(alg, "2048") && !Mentions(alg, "3072") && !Mentions(alg, "4096")
                 case 132 => Mentions(alg, "ec") && !Mentions(alg, "2048") && !Mentions(alg, "3072") && !Mentions(alg, "4096")
                 case 512 => Mentions(alg, "4096") || !(Mentions(alg, "ec") || Mentions(alg, "2048") || Mentions(alg, "3072"))
                 case _ => false
               else out.length.value == 512
  {
    hide GetSigners, Contains, Mentions;
    var (b1, signer) := GetSignerBySlot(e, st.back, st.table.sessions[h].signKeyIndex);
    if signer.Ok? {
      var alg := signer.value.keyAlgorithm;
      ContainsIsMentions(alg, "4096");
      ContainsIsMentions(alg, "3072");
      ContainsIsMentions(alg, "2048");
      ContainsIsMentions(alg, "ec");
    }
  }
}
