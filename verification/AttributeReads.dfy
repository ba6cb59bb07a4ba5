/** Reading attributes in two phases (main.go, lines 402-451). */
module AttributeReads {
  import opened Common
  import opened Errors
  import opened Slots
  import opened Remote
  import opened Signers
  import opened Attributes
  import opened Machine
  import opened Stability

  /** An entry that has been answered completely. */
  predicate Complete(before: CkAttribute, after: CkAttribute, value: Bytes) {
    && after.typ == before.typ && after.ulValueLen == |value|
    && if before.pValue.Some? && value != [] then
         && after.pValue.Some? && |after.pValue.value| == |before.pValue.value|
         && value <= after.pValue.value
         && after.pValue.value[|value|..] == before.pValue.value[|value|..]
       else after.pValue == before.pValue
  }

  /** An entry whose buffer is too short for its value. */
  predicate TooShort(entry: CkAttribute, value: Bytes) {
    entry.pValue.Some? && value != [] && entry.ulValueLen < |value|
  }

  /**
   C_GetAttributeValue succeeds exactly when no buffer is too short, and then every entry is complete.
   Otherwise the first short entry, k, gets its required length; the entries before it are complete and
   those after it untouched.
   */
  lemma FillIsExact(template: seq<CkAttribute>, values: seq<Attribute>) returns (k: nat)
    requires WellFormed(template) && |values| == |template|
    ensures var (filled, rv) := FillTemplate(template, values);
            && |filled| == |template| && k <= |template|
            && (forall i :: 0 <= i < k ==> Complete(template[i], filled[i], values[i].value) && !TooShort(template[i], values[i].value))
            && (if rv == OK then k == |template|
                else && rv == BufferTooSmall && k < |template|
                     && TooShort(template[k], values[k].value)
                     && filled[k] == template[k].(ulValueLen := |values[k].value|)
                     && forall i :: k < i < |template| ==> filled[i] == template[i])
  {
    k := FillFromIsExact(template, values, 0);
  }

  lemma {:induction false} FillFromIsExact(template: seq<CkAttribute>, values: seq<Attribute>, n: nat) returns (k: nat)
    requires WellFormed(template) && |values| == |template| && n <= |template|
    ensures var (filled, rv) := FillFrom(template, values, n);
            && |filled| == |template| && n <= k <= |template|
            && (forall i :: 0 <= i < n ==> filled[i] == template[i])
            && (forall i :: n <= i < k ==> Complete(template[i], filled[i], values[i].value) && !TooShort(template[i], values[i].value))
            && (if rv == OK then k == |template|
                else && rv == BufferTooSmall && k < |template|
                     && TooShort(template[k], values[k].value)
                     && filled[k] == template[k].(ulValueLen := |values[k].value|)
                     && forall i :: k < i < |template| ==> filled[i] == template[i])
    decreases |template| - n
  {
    k := n;
    if n < |template| {
      var (entry, fits) := FillEntry(template[n], values[n].value);
      if fits {
        assert Complete(template[n], entry, values[n].value);
        k := FillFromIsExact(template[n := entry], values, n + 1);
      }
    }
  }

  /** A size query: no buffers. */
  predicate SizeQuery(template: seq<CkAttribute>) {
    forall i :: 0 <= i < |template| ==> template[i].pValue.None?
  }

  /** The same types with buffers of at least the lengths a query reported. */
  predicate Prepared(asked: seq<CkAttribute>, template: seq<CkAttribute>) {
    |template| == |asked| &&
    forall i :: 0 <= i < |asked| ==>
      template[i].typ == asked[i].typ && template[i].pValue.Some? &&
      template[i].ulValueLen == |template[i].pValue.value| && template[i].ulValueLen >= asked[i].ulValueLen
  }

  /** With the values unchanged, the second call fills every buffer with its value. */
  lemma TwoPhaseFill(query: seq<CkAttribute>, template: seq<CkAttribute>, values: seq<Attribute>)
    requires SizeQuery(query) && WellFormed(query) && |values| == |query|
    requires Prepared(FillTemplate(query, values).0, template) && WellFormed(template) && |template| == |values|
    ensures FillTemplate(query, values).1 == OK && FillTemplate(template, values).1 == OK
    ensures var filled := FillTemplate(template, values).0;
            |filled| == |template| &&
            forall i :: 0 <= i < |filled| ==>
              filled[i].pValue.Some? && filled[i].ulValueLen == |values[i].value| && values[i].value <= filled[i].pValue.value
  {
    hide FillTemplate;
    var k := FillIsExact(query, values);
    var j := FillIsExact(template, values);
    var filled := FillTemplate(template, values).0;
    assert k == |query|;
    forall i | 0 <= i < |template|
      ensures !TooShort(template[i], values[i].value)
    {
      assert Complete(query[i], FillTemplate(query, values).0[i], values[i].value);
    }
    forall i | 0 <= i < |filled|
      ensures filled[i].pValue.Some? && values[i].value <= filled[i].pValue.value
    {
      assert Complete(template[i], filled[i], values[i].value);
    }
  }

  // ------------------------------------------------------------------ the whole call

  /**
   A size query followed by a call with buffers of at least the reported lengths returns CKR_OK with every
   value in its buffer, provided the attribute values have not changed in between.
   */
  lemma TwoPhaseRead(e: Env, st: State, st1: State, h: nat, obj: nat, query: seq<CkAttribute>, template: seq<CkAttribute>)
    requires SizeQuery(query) && WellFormed(query) && WellFormed(template)
    requires CGetAttributeValue(e, st, h, obj, Some(query)).2 == OK
    requires Prepared(CGetAttributeValue(e, st, h, obj, Some(query)).1.value, template)
    requires st1.initialized
    requires GetAttributeValue(e, st1.back, st1.table, h, obj, TypesOf(query)).1 ==
             GetAttributeValue(e, st.back, st.table, h, obj, TypesOf(query)).1
    ensures var values := GetAttributeValue(e, st.back, st.table, h, obj, TypesOf(query)).1;
            var (_, filled, rv) := CGetAttributeValue(e, st1, h, obj, Some(template));
            && values.Ok? && rv == OK && filled.Some? && |filled.value| == |template| == |values.value|
            && forall i :: 0 <= i < |template| ==>
                 && values.value[i].typ == template[i].typ
                 && filled.value[i].pValue.Some? && filled.value[i].ulValueLen == |values.value[i].value|
                 && values.value[i].value <= filled.value[i].pValue.value
  {
    hide GetAttributeValue, FillTemplate;
    var values := GetAttributeValue(e, st.back, st.table, h, obj, TypesOf(query)).1.value;
    ReadIsOneForOne(e, st.back, st.table, h, obj, TypesOf(query));
    var k := FillIsExact(query, values);
    SameTypes(e, st, h, obj, query, template);
    TwoPhaseFill(query, template, values);
  }

  /**
   With non-negative TTLs the values cannot have changed if every lookup of the query succeeded and what it left in
   the caches has not expired, in particular not right after the query.
   */
  lemma TwoPhaseReadCached(e: Env, st: State, h: nat, obj: nat, query: seq<CkAttribute>, elapsed: nat, template: seq<CkAttribute>)
    requires SizeQuery(query) && WellFormed(query) && WellFormed(template)
    requires CGetAttributeValue(e, st, h, obj, Some(query)).2 == OK
    requires Prepared(CGetAttributeValue(e, st, h, obj, Some(query)).1.value, template)
    requires st.back.signers.ttl >= 0 && st.back.certs.ttl >= 0 && ReadServed(e, st.back, obj, TypesOf(query))
    requires var st1 := Step(e, CGetAttributeValue(e, st, h, obj, Some(query)).0, EvTick(elapsed)).0;
             elapsed == 0 || ReadHeld(st1.back, obj, TypesOf(query))
    ensures var values := GetAttributeValue(e, st.back, st.table, h, obj, TypesOf(query)).1;
            var st1 := Step(e, CGetAttributeValue(e, st, h, obj, Some(query)).0, EvTick(elapsed)).0;
            var (st2, filled, rv) := CGetAttributeValue(e, st1, h, obj, Some(template));
            && st1 == Step(e, Step(e, st, EvGetAttributeValue(h, obj, TypesOf(query))).0, EvTick(elapsed)).0 && st2 == st1
            && values.Ok? && rv == OK && filled.Some? && |filled.value| == |template| == |values.value|
            && forall i :: 0 <= i < |template| ==>
                 && values.value[i].typ == template[i].typ
                 && filled.value[i].pValue.Some? && filled.value[i].ulValueLen == |values.value[i].value|
                 && values.value[i].value <= filled.value[i].pValue.value
  {
    hide ReadServed, ReadHeld, FillTemplate, GetSigners, AttributeValues, ParseObjectHandle;
    var types := TypesOf(query);
    var st1 := Step(e, CGetAttributeValue(e, st, h, obj, Some(query)).0, EvTick(elapsed)).0;
    var b := GetAttributeValue(e, st.back, st.table, h, obj, types).0;
    assert h in st.table.sessions;
    CallIsStep(e, st, h, obj, query);
    assert st1 == st.(back := At(b, b.net.now + elapsed));
    ServedReadIsHeld(e, st.back, st.table, h, obj, types);
    assert At(b, b.net.now) == b;
    ReadsAreStable(e, st.back, st.table, h, obj, types, b.net.now + elapsed);
    hide GetAttributeValue;
    TwoPhaseRead(e, st, st1, h, obj, query, template);
    SameTypes(e, st, h, obj, query, template);
  }

  lemma SameTypes(e: Env, st: State, h: nat, obj: nat, query: seq<CkAttribute>, template: seq<CkAttribute>)
    requires WellFormed(query) && CGetAttributeValue(e, st, h, obj, Some(query)).2 == OK
    requires Prepared(CGetAttributeValue(e, st, h, obj, Some(query)).1.value, template)
    ensures TypesOf(template) == TypesOf(query)
  {
    hide GetAttributeValue, FillTemplate;
    var values := GetAttributeValue(e, st.back, st.table, h, obj, TypesOf(query)).1.value;
    ReadIsOneForOne(e, st.back, st.table, h, obj, TypesOf(query));
    var k := FillIsExact(query, values);
    forall i | 0 <= i < |query|
      ensures template[i].typ == query[i].typ
    {
      assert Complete(query[i], FillTemplate(query, values).0[i], values[i].value);
    }
  }

  /** On the state, the call with its buffers is the step of the machine that reads the same types. */
  lemma CallIsStep(e: Env, st: State, h: nat, obj: nat, template: seq<CkAttribute>)
    requires st.initialized && WellFormed(template) && |template| <= MAX_TEMPLATE_ATTRS
    ensures CGetAttributeValue(e, st, h, obj, Some(template)).0 ==
            Step(e, st, EvGetAttributeValue(h, obj, TypesOf(template))).0
  {
    hide GetAttributeValue, FillTemplate;
  }

  /** Results match the template one for one, by type. */
  lemma ReadIsOneForOne(e: Env, b: Back, t: Table, session: nat, obj: nat, types: seq<nat>)
    ensures var r := GetAttributeValue(e, b, t, session, obj, types).1;
            r.Ok? ==> |r.value| == |types| && forall i :: 0 <= i < |types| ==> r.value[i].typ == types[i]
  {
    hide GetSigners;
  }
}
