/**
 The C entry points (main.go, lines 41-563).  Each one is proved to be the corresponding step of the state
 machine, including what it writes through the caller's pointers.  NULL is `null` or `None`.
 */
module EntryPoints {
  import opened Common
  import opened Errors
  import opened Backend
  import opened Remote
  import Slots
  import Signers
  import Attributes
  import Machine
  import AttributeReads

  /** A CK_ULONG that the caller points to. */
  class CULong {
    var value: nat
    constructor (value: nat)
      ensures this.value == value
    {
      this.value := value;
    }
  }

  function RvOf(error: Option<Error>): Machine.Rv {
    Machine.RvOf(error)
  }

  // ------------------------------------------------------------------ initialisation, sessions, login

  method C_Initialize(backend: InfisicalBackend, loaded: Option<Signers.Config>, clientOk: bool) returns (rv: Machine.Rv)
    requires backend.Valid()
    modifies backend
    ensures backend.Valid()
    ensures (backend.View(), Machine.Returned(rv)) ==
            Machine.Step(backend.env, old(backend.View()), Machine.EvInitialize(loaded, clientOk))
  {
    hide Machine.Initialize;
    rv := backend.Initialize(loaded, clientOk);
  }

  method C_Finalize(backend: InfisicalBackend) returns (rv: Machine.Rv)
    requires backend.Valid()
    modifies backend
    ensures backend.Valid()
    ensures (backend.View(), Machine.Returned(rv)) == Machine.Step(backend.env, old(backend.View()), Machine.EvFinalize)
  {
    if !backend.initialized {
      return Machine.NotInitialized;
    }
    backend.Finalize();
    return Machine.OK;
  }

  method C_OpenSession(backend: InfisicalBackend, slotID: nat, phSession: CULong?) returns (rv: Machine.Rv)
    requires backend.Valid()
    modifies backend.client, backend.signerCache, backend.sessions, backend.sessions.sessions.Values, phSession
    ensures backend.Valid()
    ensures phSession != null ==>
      var (st, out) := Machine.Step(backend.env, old(backend.View()), Machine.EvOpenSession(slotID));
      && backend.View() == st
      && if out.Opened? then rv == Machine.OK && phSession.value == out.handle
         else out == Machine.Returned(rv) && phSession.value == old(phSession.value)
    ensures phSession == null ==> backend.View() == old(backend.View()) && rv in {Machine.NotInitialized, Machine.ArgumentsBad}
  {
    hide Machine.OpenSession;
    if !backend.initialized {
      return Machine.NotInitialized;
    }
    if phSession == null {
      return Machine.ArgumentsBad;
    }
    var handle := backend.OpenSession(slotID);
    if handle.Err? {
      return Machine.Mapped(handle.error);
    }
    phSession.value := handle.value;
    return Machine.OK;
  }

  method C_CloseSession(backend: InfisicalBackend, hSession: nat) returns (rv: Machine.Rv)
    requires backend.Valid()
    modifies backend.sessions
    ensures backend.Valid()
    ensures (backend.View(), Machine.Returned(rv)) == Machine.Step(backend.env, old(backend.View()), Machine.EvCloseSession(hSession))
  {
    if !backend.initialized {
      return Machine.NotInitialized;
    }
    var error := backend.CloseSession(hSession);
    return RvOf(error);
  }

  method C_CloseAllSessions(backend: InfisicalBackend, slotID: nat) returns (rv: Machine.Rv)
    requires backend.Valid()
    modifies backend.sessions
    ensures backend.Valid()
    ensures (backend.View(), Machine.Returned(rv)) == Machine.Step(backend.env, old(backend.View()), Machine.EvCloseAllSessions(slotID))
  {
    hide Slots.CloseAllForSlot;
    if !backend.initialized {
      return Machine.NotInitialized;
    }
    backend.sessions.CloseAllForSlot(slotID);
    return Machine.OK;
  }

  method C_Login(backend: InfisicalBackend, hSession: nat, pPin: Option<string>) returns (rv: Machine.Rv)
    requires backend.Valid()
    modifies backend`config, backend.client, backend.sessions.sessions.Values
    ensures backend.Valid()
    ensures (backend.View(), Machine.Returned(rv)) ==
            Machine.Step(backend.env, old(backend.View()), Machine.EvLogin(hSession, if pPin.Some? then pPin.value else ""))
  {
    hide Machine.Login;
    if !backend.initialized {
      return Machine.NotInitialized;
    }
    var pin := if pPin.Some? then pPin.value else "";
    var error := backend.Login(hSession, pin);
    return RvOf(error);
  }

  method C_Logout(backend: InfisicalBackend, hSession: nat) returns (rv: Machine.Rv)
    requires backend.Valid()
    modifies backend.sessions.sessions.Values
    ensures backend.Valid()
    ensures (backend.View(), Machine.Returned(rv)) == Machine.Step(backend.env, old(backend.View()), Machine.EvLogout(hSession))
  {
    hide Machine.Logout;
    if !backend.initialized {
      return Machine.NotInitialized;
    }
    var error := backend.Logout(hSession);
    return RvOf(error);
  }

  // ------------------------------------------------------------------ slots and objects

  method C_GetSlotList(backend: InfisicalBackend, pSlotList: array?<nat>, pulCount: CULong?) returns (rv: Machine.Rv)
    requires backend.Valid()
    requires pSlotList != null && pulCount != null ==> pulCount.value <= pSlotList.Length
    modifies backend.client, backend.signerCache, pSlotList, pulCount
    ensures backend.Valid()
    ensures var (st, out) := Machine.CGetSlotList(backend.env, old(backend.View()), pSlotList != null,
                               if pulCount == null then None else Some(old(pulCount.value)));
            && backend.View() == st && rv == out.rv
            && (pulCount != null ==> pulCount.value == if out.count.Some? then out.count.value else old(pulCount.value))
            && (pSlotList != null ==>
                  && |out.slots| <= pSlotList.Length
                  && pSlotList[..] == out.slots + old(pSlotList[..])[|out.slots|..])
  {
    hide Signers.GetSigners;
    if !backend.initialized {
      return Machine.NotInitialized;
    }
    if pulCount == null {
      return Machine.ArgumentsBad;
    }
    var slots := backend.GetSigners();
    assert backend.View() == old(backend.View()).(back := backend.BackView());
    if slots.Err? {
      return Machine.Mapped(slots.error);
    }
    var n := |slots.value|;
    if pSlotList == null {
      pulCount.value := n;
      return Machine.OK;
    }
    if pulCount.value < n {
      pulCount.value := n;
      return Machine.BufferTooSmall;
    }
    WriteOut(seq(n, i => i), pSlotList, pulCount);
    return Machine.OK;
  }

  method C_FindObjectsInit(backend: InfisicalBackend, hSession: nat, template: seq<Slots.Attribute>) returns (rv: Machine.Rv)
    requires backend.Valid()
    modifies backend.client, backend.signerCache, backend.certCache, backend.sessions.sessions.Values
    ensures backend.Valid()
    ensures (backend.View(), Machine.Returned(rv)) ==
            Machine.Step(backend.env, old(backend.View()), Machine.EvFindObjectsInit(hSession, template))
  {
    hide Machine.FindObjectsInit;
    if !backend.initialized {
      return Machine.NotInitialized;
    }
    if |template| > Machine.MAX_TEMPLATE_ATTRS {
      return Machine.ArgumentsBad;
    }
    var error := backend.FindObjectsInit(hSession, template);
    return RvOf(error);
  }

  /** Writes at most ulMaxObjectCount handles to the front of the caller's array. */
  method C_FindObjects(backend: InfisicalBackend, hSession: nat, phObject: array<nat>, ulMaxObjectCount: nat, pulObjectCount: CULong)
    returns (rv: Machine.Rv)
    requires backend.Valid() && ulMaxObjectCount <= phObject.Length
    modifies backend.sessions.sessions.Values, phObject, pulObjectCount
    ensures backend.Valid()
    ensures !backend.initialized ==> backend.View() == old(backend.View()) && rv == Machine.NotInitialized
    ensures backend.initialized ==>
              var (st, r) := Machine.FindObjects(old(backend.View()), hSession, ulMaxObjectCount);
              && backend.View() == st
              && if r.Ok? then
                   && rv == Machine.OK && |r.value| <= ulMaxObjectCount && pulObjectCount.value == |r.value|
                   && phObject[..] == r.value + old(phObject[..])[|r.value|..]
                 else rv == Machine.Mapped(r.error)
    ensures rv != Machine.OK ==> pulObjectCount.value == old(pulObjectCount.value) && phObject[..] == old(phObject[..])
  {
    if !backend.initialized {
      return Machine.NotInitialized;
    }
    hide Machine.FindObjects;
    var objects := FindUpTo(backend, hSession, ulMaxObjectCount);
    if objects.Err? {
      return Machine.Mapped(objects.error);
    }
    WriteOut(objects.value, phObject, pulObjectCount);
    return Machine.OK;
  }

  method FindUpTo(backend: InfisicalBackend, hSession: nat, max: nat) returns (r: Result<seq<nat>>)
    requires backend.Valid()
    modifies backend.sessions.sessions.Values
    ensures backend.Valid() && (backend.View(), r) == Machine.FindObjects(old(backend.View()), hSession, max)
    ensures r.Ok? ==> |r.value| <= max
  {
    r := backend.FindObjects(hSession, max);
  }

  method C_FindObjectsFinal(backend: InfisicalBackend, hSession: nat) returns (rv: Machine.Rv)
    requires backend.Valid()
    modifies backend.sessions.sessions.Values
    ensures backend.Valid()
    ensures (backend.View(), Machine.Returned(rv)) == Machine.Step(backend.env, old(backend.View()), Machine.EvFindObjectsFinal(hSession))
  {
    hide Machine.FindObjectsFinal;
    if !backend.initialized {
      return Machine.NotInitialized;
    }
    var error := backend.FindObjectsFinal(hSession);
    return RvOf(error);
  }

  // ------------------------------------------------------------------ attributes

  /** The caller's array of CK_ATTRIBUTE is filled in place. */
  method C_GetAttributeValue(backend: InfisicalBackend, hSession: nat, hObject: nat, pTemplate: array?<Machine.CkAttribute>)
    returns (rv: Machine.Rv)
    requires backend.Valid() && (pTemplate != null ==> Machine.WellFormed(pTemplate[..]))
    modifies backend.client, backend.signerCache, backend.certCache, pTemplate
    ensures backend.Valid()
    ensures var (st, filled, r) := Machine.CGetAttributeValue(backend.env, old(backend.View()), hSession, hObject,
                                     if pTemplate == null then None else Some(old(pTemplate[..])));
            && backend.View() == st && rv == r
            && (pTemplate != null ==> filled == Some(pTemplate[..]))
  {
    hide Attributes.GetAttributeValue, Machine.FillTemplate, Machine.WellFormed, Machine.TypesOf;
    if !backend.initialized {
      return Machine.NotInitialized;
    }
    if pTemplate == null || pTemplate.Length > Machine.MAX_TEMPLATE_ATTRS {
      return Machine.ArgumentsBad;
    }
    var types := ReadTypes(pTemplate);
    var results := ReadValues(backend, hSession, hObject, types);
    if results.Err? {
      return Machine.Mapped(results.error);
    }
    rv := FillAll(pTemplate, results.value);
  }

  method ReadValues(backend: InfisicalBackend, hSession: nat, hObject: nat, types: seq<nat>) returns (r: Result<seq<Slots.Attribute>>)
    requires backend.Valid()
    modifies backend.client, backend.signerCache, backend.certCache
    ensures backend.Valid()
    ensures var (b, values) := Attributes.GetAttributeValue(backend.env, old(backend.View()).back, old(backend.View()).table,
                                                            hSession, hObject, types);
            backend.View() == old(backend.View()).(back := b) && r == values
    ensures r.Ok? ==> |r.value| == |types|
  {
    hide Attributes.GetAttributeValue;
    r := backend.GetAttributeValue(hSession, hObject, types);
    AttributeReads.ReadIsOneForOne(backend.env, old(backend.BackView()), old(backend.sessions.View()), hSession, hObject, types);
  }

  method ReadTypes(pTemplate: array<Machine.CkAttribute>) returns (types: seq<nat>)
    ensures types == Machine.TypesOf(pTemplate[..]) && |types| == pTemplate.Length
  {
    types := [];
    for i := 0 to pTemplate.Length
      invariant |types| == i && forall j :: 0 <= j < i ==> types[j] == pTemplate[j].typ
    {
      types := types + [pTemplate[i].typ];
    }
  }

  /** The loop over the results, up to the first entry that is too short. */
  method FillAll(pTemplate: array<Machine.CkAttribute>, results: seq<Slots.Attribute>) returns (rv: Machine.Rv)
    requires |results| == pTemplate.Length && Machine.WellFormed(pTemplate[..])
    modifies pTemplate
    ensures (pTemplate[..], rv) == Machine.FillTemplate(old(pTemplate[..]), results)
  {
    hide Machine.FillEntry;
    for i := 0 to pTemplate.Length
      invariant Machine.WellFormed(pTemplate[..])
      invariant Machine.FillTemplate(old(pTemplate[..]), results) == Machine.FillFrom(pTemplate[..], results, i)
    {
      ghost var before := pTemplate[..];
      var (entry, fits) := Machine.FillEntry(pTemplate[i], results[i].value);
      pTemplate[i] := entry;
      assert pTemplate[..] == before[i := entry];
      if !fits {
        return Machine.BufferTooSmall;
      }
      FittingKeepsWellFormed(before, i, results[i].value);
    }
    return Machine.OK;
  }

  lemma FittingKeepsWellFormed(template: seq<Machine.CkAttribute>, i: nat, value: Bytes)
    requires Machine.WellFormed(template) && i < |template| && Machine.FillEntry(template[i], value).1
    ensures Machine.WellFormed(template[i := Machine.FillEntry(template[i], value).0])
  {
  }

  // ------------------------------------------------------------------ signing

  method C_SignInit(backend: InfisicalBackend, hSession: nat, mechType: nat, hKey: nat) returns (rv: Machine.Rv)
    requires backend.Valid()
    modifies backend.sessions.sessions.Values
    ensures backend.Valid()
    ensures (backend.View(), Machine.Returned(rv)) == Machine.Step(backend.env, old(backend.View()), Machine.EvSignInit(hSession, mechType, hKey))
  {
    hide Machine.SignInit;
    if !backend.initialized {
      return Machine.NotInitialized;
    }
    var error := backend.SignInit(hSession, mechType, hKey);
    return RvOf(error);
  }

  method C_SignUpdate(backend: InfisicalBackend, hSession: nat, part: Bytes) returns (rv: Machine.Rv)
    requires backend.Valid()
    modifies backend.sessions.sessions.Values
    ensures backend.Valid()
    ensures (backend.View(), Machine.Returned(rv)) == Machine.Step(backend.env, old(backend.View()), Machine.EvSignUpdate(hSession, part))
  {
    hide Machine.SignUpdate;
    if !backend.initialized {
      return Machine.NotInitialized;
    }
    var error := backend.SignUpdate(hSession, part);
    return RvOf(error);
  }

  /** What a signing call writes: the length, and the signature at the front of the buffer. */
  twostate predicate Written(out: Machine.SignOutput, pSignature: array?<byte>, pulSignatureLen: CULong?)
    reads pSignature, pulSignatureLen
  {
    && (pulSignatureLen != null ==>
          pulSignatureLen.value == if out.length.Some? then out.length.value else old(pulSignatureLen.value))
    && (pSignature != null ==>
          if out.signature.Some? then
            && |out.signature.value| <= pSignature.Length
            && pSignature[..] == out.signature.value + old(pSignature[..])[|out.signature.value|..]
          else pSignature[..] == old(pSignature[..]))
  }

  method C_Sign(backend: InfisicalBackend, hSession: nat, pData: Option<Bytes>, pSignature: array?<byte>, pulSignatureLen: CULong?)
    returns (rv: Machine.Rv)
    requires backend.Valid()
    requires pSignature != null && pulSignatureLen != null ==> pulSignatureLen.value <= pSignature.Length
    modifies backend.client, backend.signerCache, backend.sessions.sessions.Values, pSignature, pulSignatureLen
    ensures backend.Valid()
    ensures var (st, out) := Machine.CSign(backend.env, old(backend.View()), hSession, pData, pSignature != null,
                               if pulSignatureLen == null then None else Some(old(pulSignatureLen.value)));
            backend.View() == st && rv == out.rv && Written(out, pSignature, pulSignatureLen)
  {
    hide Machine.SignOrReplay, Signers.EstimateSignatureSize, Machine.Deliver;
    if !backend.initialized {
      return Machine.NotInitialized;
    }
    if pData.None? || pulSignatureLen == null {
      return Machine.ArgumentsBad;
    }
    if pSignature == null {
      ReportSize(backend, hSession, pulSignatureLen);
      return Machine.OK;
    }
    var sig := backend.Sign(hSession, pData.value);
    rv := DeliverTo(backend, hSession, sig, pSignature, pulSignatureLen);
  }

  method C_SignFinal(backend: InfisicalBackend, hSession: nat, pSignature: array?<byte>, pulSignatureLen: CULong?)
    returns (rv: Machine.Rv)
    requires backend.Valid()
    requires pSignature != null && pulSignatureLen != null ==> pulSignatureLen.value <= pSignature.Length
    modifies backend.client, backend.signerCache, backend.sessions.sessions.Values, pSignature, pulSignatureLen
    ensures backend.Valid()
    ensures var (st, out) := Machine.CSignFinal(backend.env, old(backend.View()), hSession, pSignature != null,
                               if pulSignatureLen == null then None else Some(old(pulSignatureLen.value)));
            backend.View() == st && rv == out.rv && Written(out, pSignature, pulSignatureLen)
  {
    hide Machine.SignOrReplay, Signers.EstimateSignatureSize, Machine.Deliver;
    if !backend.initialized {
      return Machine.NotInitialized;
    }
    if pulSignatureLen == null {
      return Machine.ArgumentsBad;
    }
    if pSignature == null {
      ReportSize(backend, hSession, pulSignatureLen);
      return Machine.OK;
    }
    var sig := backend.SignFinal(hSession);
    rv := DeliverTo(backend, hSession, sig, pSignature, pulSignatureLen);
  }

  /** The answer to a size query. */
  method ReportSize(backend: InfisicalBackend, hSession: nat, pulSignatureLen: CULong)
    requires backend.Valid()
    modifies backend.client, backend.signerCache, pulSignatureLen
    ensures backend.Valid()
    ensures var (b, size) := Signers.EstimateSignatureSize(backend.env, old(backend.BackView()), old(backend.sessions.View()), hSession);
            backend.View() == old(backend.View()).(back := b) && pulSignatureLen.value == size
  {
    hide Signers.EstimateSignatureSize;
    var size := backend.EstimateSignatureSize(hSession);
    pulSignatureLen.value := size;
  }

  /** The half that C_Sign and C_SignFinal share: cache, or copy out and clear. */
  method DeliverTo(backend: InfisicalBackend, hSession: nat, sig: Result<Bytes>, pSignature: array<byte>, pulSignatureLen: CULong)
    returns (rv: Machine.Rv)
    requires backend.Valid() && pulSignatureLen.value <= pSignature.Length
    modifies backend.sessions.sessions.Values, pSignature, pulSignatureLen
    ensures backend.Valid()
    ensures var (st, out) := Machine.Deliver(old(backend.View()), hSession, sig, old(pulSignatureLen.value));
            backend.View() == st && rv == out.rv && Written(out, pSignature, pulSignatureLen)
  {
    hide Machine.CacheSignResult, Machine.ClearSignStateByHandle;
    if sig.Err? {
      return Machine.Mapped(sig.error);
    }
    if pulSignatureLen.value < |sig.value| {
      KeepForRetry(backend, hSession, sig.value, pulSignatureLen);
      return Machine.BufferTooSmall;
    }
    CopyOut(backend, hSession, sig.value, pSignature, pulSignatureLen);
    return Machine.OK;
  }

  method KeepForRetry(backend: InfisicalBackend, hSession: nat, sig: Bytes, pulSignatureLen: CULong)
    requires backend.Valid()
    modifies backend.sessions.sessions.Values, pulSignatureLen
    ensures backend.Valid() && backend.View() == Machine.CacheSignResult(old(backend.View()), hSession, sig)
    ensures pulSignatureLen.value == |sig|
  {
    hide Machine.CacheSignResult;
    backend.CacheSignResult(hSession, sig);
    pulSignatureLen.value := |sig|;
  }

  method CopyOut(backend: InfisicalBackend, hSession: nat, sig: Bytes, pSignature: array<byte>, pulSignatureLen: CULong)
    requires backend.Valid() && |sig| <= pSignature.Length
    modifies backend.sessions.sessions.Values, pSignature, pulSignatureLen
    ensures backend.Valid() && backend.View() == Machine.ClearSignStateByHandle(old(backend.View()), hSession)
    ensures pSignature[..] == sig + old(pSignature[..])[|sig|..] && pulSignatureLen.value == |sig|
  {
    hide Machine.ClearSignStateByHandle;
    WriteOut(sig, pSignature, pulSignatureLen);
    backend.ClearSignStateByHandle(hSession);
  }

  /** memcpy to the front of the caller's buffer, and the count or length beside it. */
  method WriteOut<T>(source: seq<T>, target: array<T>, length: CULong)
    requires |source| <= target.Length
    modifies target, length
    ensures target[..] == source + old(target[..])[|source|..] && length.value == |source|
  {
    for i := 0 to |source|
      invariant forall j :: 0 <= j < i ==> target[j] == source[j]
      invariant forall j :: i <= j < target.Length ==> target[j] == old(target[j])
    {
      target[i] := source[i];
    }
    length.value := |source|;
  }
}
