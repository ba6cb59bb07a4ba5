/** Finding objects agrees with reading their attributes (backend.go, lines 430-574 and 576-625). */
module Find {
  import opened Common
  import opened Errors
  import opened Slots
  import opened Remote
  import opened Cache
  import opened Signers
  import opened Attributes
  import opened Machine
  import Stability

  // ------------------------------------------------------------------ CK_ULONG values

  predicate HighBytesZero(w: Bytes)
    requires |w| == 8
  {
    w[4] == 0 && w[5] == 0 && w[6] == 0 && w[7] == 0
  }

  lemma UlongReads(v: nat)
    requires v < P32
    ensures LittleEndian(UlongBytes(v)) == v && HighBytesZero(UlongBytes(v))
  {
  }

  lemma Digit(a: byte, rest: nat)
    ensures (a as int + 256 * rest) % 256 == a && (a as int + 256 * rest) / 256 == rest
  {
  }

  /** Eight bytes with zero upper half are the encoding of the number in their lower half. */
  lemma UlongWrites(w: Bytes)
    requires |w| == 8 && HighBytesZero(w)
    ensures UlongBytes(LittleEndian(w)) == w
  {
    var v3: nat := w[3];
    var v2: nat := w[2] as int + 256 * v3;
    var v1: nat := w[1] as int + 256 * v2;
    Digit(w[0], v1);
    Digit(w[1], v2);
    Digit(w[2], v3);
  }

  function ClassCode(objType: nat): nat
    requires ObjectType(objType)
  {
    if objType == OBJ_PRIVATE_KEY then CKO_PRIVATE_KEY
    else if objType == OBJ_PUBLIC_KEY then CKO_PUBLIC_KEY
    else CKO_CERTIFICATE
  }

  // ------------------------------------------------------------------ what a template asks for

  /** Attributes that every object answers from the signer list alone. */
  predicate Searchable(typ: nat) {
    typ == CKA_CLASS || typ == CKA_ID || typ == CKA_LABEL
  }

  /** At most one attribute of each of the three types, each with a value; a class in its eight-byte form. */
  predicate Canonical(template: seq<Attribute>) {
    && (forall i :: 0 <= i < |template| ==> Searchable(template[i].typ) && template[i].value != [])
    && (forall i, j :: 0 <= i < j < |template| ==> template[i].typ != template[j].typ)
    && (forall i :: 0 <= i < |template| && template[i].typ == CKA_CLASS ==>
          |template[i].value| == 8 && HighBytesZero(template[i].value))
  }

  function Asked(template: seq<Attribute>, typ: nat): Bytes {
    if template == [] then []
    else if template[|template| - 1].typ == typ then template[|template| - 1].value
    else Asked(template[..|template| - 1], typ)
  }

  lemma {:induction false} AskedAt(template: seq<Attribute>, i: nat)
    requires Canonical(template) && i < |template|
    ensures Asked(template, template[i].typ) == template[i].value
  {
    if i < |template| - 1 {
      assert template[..|template| - 1][i] == template[i];
      AskedAt(template[..|template| - 1], i);
    }
  }

  lemma {:induction false} AskedFor(template: seq<Attribute>, typ: nat)
    ensures Asked(template, typ) != [] ==> exists i :: 0 <= i < |template| && template[i].typ == typ && template[i].value == Asked(template, typ)
  {
    if template != [] && template[|template| - 1].typ != typ {
      AskedFor(template[..|template| - 1], typ);
      if Asked(template, typ) != [] {
        var i :| 0 <= i < |template| - 1 && template[..|template| - 1][i].typ == typ &&
                 template[..|template| - 1][i].value == Asked(template, typ);
        assert template[i].typ == typ && template[i].value == Asked(template, typ);
      }
    }
  }

  lemma {:induction false} FilterAsks(template: seq<Attribute>)
    requires Canonical(template)
    ensures var f := FilterOf(template);
            && f.id == Asked(template, CKA_ID) && f.name == Asked(template, CKA_LABEL) && f.subject == []
            && f.class_ == (if Asked(template, CKA_CLASS) == [] then None else
                              if |Asked(template, CKA_CLASS)| >= 4 then Some(LittleEndian(Asked(template, CKA_CLASS))) else None)
  {
    if template != [] {
      assert Canonical(template[..|template| - 1]);
      FilterAsks(template[..|template| - 1]);
    }
  }

  // ------------------------------------------------------------------ what the objects answer

  function AnswerOf(objType: nat, signer: Signer, typ: nat): Bytes {
    if typ == CKA_CLASS then ClassOf(objType)
    else if typ == CKA_LABEL then signer.name
    else Truncate(signer.id, MAX_ID_LEN)
  }

  lemma {:induction false} SearchableAnswers(e: Env, b: Back, objType: nat, signer: Signer, types: seq<nat>)
    requires forall i :: 0 <= i < |types| ==> Searchable(types[i])
    ensures AttributeValues(e, b, objType, signer, types).0 == b
    ensures forall i :: 0 <= i < |types| ==>
              AttributeValues(e, b, objType, signer, types).1[i] == Attribute(types[i], AnswerOf(objType, signer, types[i]))
  {
    if types != [] {
      SearchableAnswers(e, b, objType, signer, types[..|types| - 1]);
    }
  }

  function TemplateTypes(template: seq<Attribute>): seq<nat> {
    seq(|template|, i requires 0 <= i < |template| => template[i].typ)
  }

  /** C_GetAttributeValue on this object answers exactly the template. */
  predicate Answers(e: Env, b: Back, t: Table, session: nat, obj: nat, template: seq<Attribute>) {
    GetAttributeValue(e, b, t, session, obj, TemplateTypes(template)).1 == Ok(template)
  }

  /** The signer list is at hand and does not change. */
  predicate ListedAs(e: Env, b: Back, signers: seq<Signer>) {
    GetSigners(e, b) == (b, Ok(signers))
  }

  lemma AnswersPointwise(e: Env, b: Back, t: Table, session: nat, objType: nat, slot: nat, signers: seq<Signer>, template: seq<Attribute>)
    requires ListedAs(e, b, signers) && slot < |signers| && slot < P28 && ObjectType(objType) && session in t.sessions
    requires forall i :: 0 <= i < |template| ==> Searchable(template[i].typ)
    ensures Answers(e, b, t, session, MakeHandle(objType, slot), template) <==>
            forall i :: 0 <= i < |template| ==> template[i].value == AnswerOf(objType, signers[slot], template[i].typ)
  {
    hide GetSigners, AnswerOf, AttributeValues, MakeHandle, ParseObjectHandle;
    HandleRoundTrip(objType, slot);
    var types := TemplateTypes(template);
    SearchableAnswers(e, b, objType, signers[slot], types);
    var values := AttributeValues(e, b, objType, signers[slot], types).1;
    assert GetAttributeValue(e, b, t, session, MakeHandle(objType, slot), types).1 == Ok(values);
    if values == template {
      forall i | 0 <= i < |template|
        ensures template[i].value == AnswerOf(objType, signers[slot], template[i].typ)
      {
        assert values[i] == template[i];
      }
    }
    if forall i :: 0 <= i < |template| ==> template[i].value == AnswerOf(objType, signers[slot], template[i].typ) {
      forall i | 0 <= i < |template|
        ensures values[i] == template[i]
      {
        assert template[i] == Attribute(types[i], template[i].value);
      }
      assert values == template;
    }
  }

  /** What the filter of a canonical template demands of an object, and what its attributes are. */
  predicate Wanted(objType: nat, signer: Signer, template: seq<Attribute>) {
    && (Asked(template, CKA_ID) != [] ==> Asked(template, CKA_ID) == Truncate(signer.id, MAX_ID_LEN))
    && (Asked(template, CKA_LABEL) != [] ==> Asked(template, CKA_LABEL) == signer.name)
    && (Asked(template, CKA_CLASS) != [] ==> Asked(template, CKA_CLASS) == ClassOf(objType))
  }

  lemma WantedPointwise(objType: nat, signer: Signer, template: seq<Attribute>)
    requires Canonical(template)
    ensures Wanted(objType, signer, template) <==>
            forall i :: 0 <= i < |template| ==> template[i].value == AnswerOf(objType, signer, template[i].typ)
  {
    hide ClassOf, Truncate;
    forall i | 0 <= i < |template|
      ensures Asked(template, template[i].typ) == template[i].value && template[i].value != []
    {
      AskedAt(template, i);
    }
    AskedFor(template, CKA_ID);
    AskedFor(template, CKA_LABEL);
    AskedFor(template, CKA_CLASS);
  }

  lemma ClassMatches(objType: nat, w: Bytes)
    requires ObjectType(objType) && |w| == 8 && HighBytesZero(w)
    ensures LittleEndian(w) == ClassCode(objType) <==> w == ClassOf(objType)
  {
    UlongWrites(w);
    UlongReads(ClassCode(objType));
  }

  lemma ObjectsAreDistinct(slot: nat)
    requires slot < P28
    ensures MakeHandle(OBJ_PRIVATE_KEY, slot) != MakeHandle(OBJ_PUBLIC_KEY, slot)
    ensures MakeHandle(OBJ_PRIVATE_KEY, slot) != MakeHandle(OBJ_CERTIFICATE, slot)
    ensures MakeHandle(OBJ_PUBLIC_KEY, slot) != MakeHandle(OBJ_CERTIFICATE, slot)
  {
    hide MakeHandle, ParseObjectHandle;
    HandleRoundTrip(OBJ_PRIVATE_KEY, slot);
    HandleRoundTrip(OBJ_PUBLIC_KEY, slot);
    HandleRoundTrip(OBJ_CERTIFICATE, slot);
  }

  lemma InClass(objType: nat, slot: nat, class_: Option<nat>)
    requires ObjectType(objType) && slot < P28
    ensures MakeHandle(objType, slot) in ObjectsOfClass(slot, class_) <==> class_.None? || class_.value == ClassCode(objType)
  {
    hide MakeHandle;
    ObjectsAreDistinct(slot);
  }

  lemma FoundIsWanted(e: Env, b: Back, signers: seq<Signer>, slot: nat, objType: nat, template: seq<Attribute>)
    requires ListedAs(e, b, signers) && slot < |signers| && slot < P28 && ObjectType(objType) && Canonical(template)
    ensures MatchingObjects(e, b, slot, template).0 == b && MatchingObjects(e, b, slot, template).1.Ok?
    ensures MakeHandle(objType, slot) in MatchingObjects(e, b, slot, template).1.value <==> Wanted(objType, signers[slot], template)
  {
    hide GetSigners, MakeHandle, ObjectsOfClass, ClassOf, Truncate, LittleEndian, FilterOf;
    FilterAsks(template);
    var f := FilterOf(template);
    var w := Asked(template, CKA_CLASS);
    AskedFor(template, CKA_CLASS);
    if w != [] {
      ClassMatches(objType, w);
    }
    InClass(objType, slot, f.class_);
  }

  /**
   With the signer list unchanged, C_FindObjectsInit on a canonical template stores exactly those of the
   slot's three objects whose attributes, read with C_GetAttributeValue, equal the template.
   */
  lemma FindAgreesWithRead(e: Env, st: State, h: nat, signers: seq<Signer>, template: seq<Attribute>, objType: nat)
    requires h in st.table.sessions && !st.table.sessions[h].findActive
    requires ListedAs(e, st.back, signers) && ObjectType(objType) && Canonical(template)
    requires st.table.sessions[h].slotID < |signers| && st.table.sessions[h].slotID < P28
    ensures var slot := st.table.sessions[h].slotID;
            var obj := MakeHandle(objType, slot);
            var (st', error) := FindObjectsInit(e, st, h, template);
            && error.None? && st'.back == st.back && h in st'.table.sessions
            && (obj in st'.table.sessions[h].findResults <==> Answers(e, st'.back, st'.table, h, obj, template))
  {
    hide GetSigners, MakeHandle, MatchingObjects, Answers, Wanted, AnswerOf;
    var slot := st.table.sessions[h].slotID;
    var st' := FindObjectsInit(e, st, h, template).0;
    FoundIsWanted(e, st.back, signers, slot, objType, template);
    WantedPointwise(objType, signers[slot], template);
    AnswersPointwise(e, st.back, st'.table, h, objType, slot, signers, template);
  }

  /** Nothing but objects of the session's slot is ever found, and none twice. */
  lemma OnlySlotObjectsFound(e: Env, b: Back, slot: nat, template: seq<Attribute>)
    requires slot < P28 && MatchingObjects(e, b, slot, template).1.Ok?
    ensures var found := MatchingObjects(e, b, slot, template).1.value;
            && (forall obj :: obj in found ==> exists objType :: ObjectType(objType) && obj == MakeHandle(objType, slot))
            && (forall i, j :: 0 <= i < j < |found| ==> found[i] != found[j])
  {
    hide MakeHandle, GetSigners, GetCertificateData, FilterOf;
    ObjectsAreDistinct(slot);
    assert ObjectType(OBJ_PRIVATE_KEY) && ObjectType(OBJ_PUBLIC_KEY) && ObjectType(OBJ_CERTIFICATE);
  }

  /**
   For a template of one class attribute with arbitrary bytes, finding and reading agree on all three objects
   exactly when the bytes are a CK_ULONG below 2^32, or name no class of the module in their first four bytes.
   */
  lemma ClassFilterExact(e: Env, b: Back, t: Table, session: nat, slot: nat, signers: seq<Signer>, w: Bytes)
    requires ListedAs(e, b, signers) && slot < |signers| && slot < P28 && session in t.sessions
    ensures var template := [Attribute(CKA_CLASS, w)];
            var found := MatchingObjects(e, b, slot, template).1;
            && found.Ok?
            && ((forall objType :: ObjectType(objType) ==>
                   (MakeHandle(objType, slot) in found.value <==> Answers(e, b, t, session, MakeHandle(objType, slot), template)))
                <==> ((|w| == 8 && HighBytesZero(w)) ||
                      (|w| >= 4 && LittleEndian(w) !in {CKO_PRIVATE_KEY, CKO_PUBLIC_KEY, CKO_CERTIFICATE})))
  {
    hide GetSigners, MakeHandle, Answers, ObjectsOfClass, LittleEndian, UlongBytes;
    var template := [Attribute(CKA_CLASS, w)];
    var found := ObjectsOfClass(slot, if |w| >= 4 then Some(LittleEndian(w)) else None);
    ClassOnlyFound(e, b, slot, w);
    forall objType | ObjectType(objType)
      ensures MakeHandle(objType, slot) in found <==> |w| < 4 || LittleEndian(w) == ClassCode(objType)
      ensures Answers(e, b, t, session, MakeHandle(objType, slot), template) <==> w == UlongBytes(ClassCode(objType))
    {
      InClass(objType, slot, if |w| >= 4 then Some(LittleEndian(w)) else None);
      AnswersPointwise(e, b, t, session, objType, slot, signers, template);
      assert template[0].value == w;
    }
    UlongReads(CKO_PRIVATE_KEY);
    UlongReads(CKO_PUBLIC_KEY);
    UlongReads(CKO_CERTIFICATE);
    assert ObjectType(OBJ_PRIVATE_KEY) && ObjectType(OBJ_PUBLIC_KEY) && ObjectType(OBJ_CERTIFICATE);
    assert ClassCode(OBJ_PRIVATE_KEY) == 3 && ClassCode(OBJ_PUBLIC_KEY) == 2 && ClassCode(OBJ_CERTIFICATE) == 1;
    if |w| == 8 && HighBytesZero(w) {
      UlongWrites(w);
    }
  }

  lemma ClassOnlyFound(e: Env, b: Back, slot: nat, w: Bytes)
    ensures MatchingObjects(e, b, slot, [Attribute(CKA_CLASS, w)]) ==
            (b, Ok(ObjectsOfClass(slot, if |w| >= 4 then Some(LittleEndian(w)) else None)))
  {
    hide ObjectsOfClass, LittleEndian;
    var template := [Attribute(CKA_CLASS, w)];
    assert template[..0] == [];
    assert FilterOf(template) == Filter(if |w| >= 4 then Some(LittleEndian(w)) else None, [], [], []);
  }

  // ------------------------------------------------------------------ arbitrary templates

  /** Whatever the filter asks for stands somewhere in the template. */
  lemma {:induction false} FilterStandsIn(template: seq<Attribute>)
    ensures var f := FilterOf(template);
            && (f.id != [] ==> Attribute(CKA_ID, f.id) in template)
            && (f.name != [] ==> Attribute(CKA_LABEL, f.name) in template)
            && (f.subject != [] ==> Attribute(CKA_SUBJECT, f.subject) in template)
            && (f.class_.Some? ==> exists a :: a in template && a.typ == CKA_CLASS && |a.value| >= 4 && LittleEndian(a.value) == f.class_.value)
  {
    hide LittleEndian;
    if template != [] {
      var n := |template| - 1;
      FilterStandsIn(template[..n]);
      var f := FilterOf(template[..n]);
      if f.class_.Some? {
        var a :| a in template[..n] && a.typ == CKA_CLASS && |a.value| >= 4 && LittleEndian(a.value) == f.class_.value;
        assert a in template;
      }
      assert template[n] in template && template[n] == Attribute(template[n].typ, template[n].value);
    }
  }

  /** The signer list is cached, and so is the certificate if the search asks for a subject. */
  predicate SearchHeld(b: Back, signers: seq<Signer>, slot: nat, f: Filter)
    requires slot < |signers|
  {
    GetSignersCached(b.signers, b.net.now) == Some(signers) &&
    (f.subject != [] ==> Lookup(b.certs.certs, signers[slot].id, b.net.now).Some?)
  }

  /** The object's answers to the attributes that a search looks at. */
  predicate Meets(e: Env, b: Back, objType: nat, signer: Signer, f: Filter)
    requires ObjectType(objType)
  {
    && (f.id != [] ==> f.id == Truncate(signer.id, MAX_ID_LEN))
    && (f.name != [] ==> f.name == signer.name)
    && (f.class_.Some? ==> f.class_.value == ClassCode(objType))
    && (f.subject != [] ==>
          objType == OBJ_CERTIFICATE && CertificateAttribute(e, b, signer, CKA_SUBJECT) == (b, f.subject))
  }

  /** What an object answers to an attribute in its template, when the search has what it needs at hand. */
  lemma TemplateAnswer(e: Env, b: Back, t: Table, session: nat, objType: nat, slot: nat, signers: seq<Signer>, template: seq<Attribute>, a: Attribute)
    requires ListedAs(e, b, signers) && slot < |signers| && slot < P28 && ObjectType(objType) && session in t.sessions
    requires Answers(e, b, t, session, MakeHandle(objType, slot), template) && a in template
    requires Stability.Held(b, objType, signers[slot], a.typ)
    ensures a.value == AttributeValue(e, b, objType, signers[slot], a.typ).1
  {
    hide GetSigners, AttributeValue, AttributeValues, MakeHandle, ParseObjectHandle, Stability.Held;
    HandleRoundTrip(objType, slot);
    var types := TemplateTypes(template);
    var i :| 0 <= i < |template| && template[i] == a;
    Stability.HeldAnswer(e, b, objType, signers[slot], types, i);
    assert AttributeValues(e, b, objType, signers[slot], types).1 == template;
  }

  lemma AnswersMeet(e: Env, b: Back, t: Table, session: nat, objType: nat, slot: nat, signers: seq<Signer>, template: seq<Attribute>)
    requires ListedAs(e, b, signers) && slot < |signers| && slot < P28 && ObjectType(objType) && session in t.sessions
    requires SearchHeld(b, signers, slot, FilterOf(template))
    requires Answers(e, b, t, session, MakeHandle(objType, slot), template)
    ensures Meets(e, b, objType, signers[slot], FilterOf(template))
  {
    hide GetSigners, Answers, MakeHandle, FilterOf, LittleEndian, UlongBytes, Truncate;
    FilterStandsIn(template);
    var f := FilterOf(template);
    if f.id != [] {
      TemplateAnswer(e, b, t, session, objType, slot, signers, template, Attribute(CKA_ID, f.id));
    }
    if f.name != [] {
      TemplateAnswer(e, b, t, session, objType, slot, signers, template, Attribute(CKA_LABEL, f.name));
    }
    if f.class_.Some? {
      var a :| a in template && a.typ == CKA_CLASS && |a.value| >= 4 && LittleEndian(a.value) == f.class_.value;
      TemplateAnswer(e, b, t, session, objType, slot, signers, template, a);
      UlongReads(ClassCode(objType));
    }
    if f.subject != [] {
      TemplateAnswer(e, b, t, session, objType, slot, signers, template, Attribute(CKA_SUBJECT, f.subject));
    }
  }

  lemma MeetsIsFound(e: Env, b: Back, objType: nat, slot: nat, signers: seq<Signer>, template: seq<Attribute>)
    requires ListedAs(e, b, signers) && slot < |signers| && slot < P28 && ObjectType(objType)
    requires SearchHeld(b, signers, slot, FilterOf(template))
    ensures MatchingObjects(e, b, slot, template).0 == b && MatchingObjects(e, b, slot, template).1.Ok?
    ensures Meets(e, b, objType, signers[slot], FilterOf(template)) ==>
              MakeHandle(objType, slot) in MatchingObjects(e, b, slot, template).1.value
  {
    hide GetSigners, MakeHandle, ObjectsOfClass, Truncate, FilterOf;
    InClass(objType, slot, FilterOf(template).class_);
    if FilterOf(template).subject != [] {
      Stability.CertHitValue(e, b, signers[slot].id);
    }
  }

  /**
   For every template, with subjects, repeated and ignored attributes: an object whose attributes, read with
   C_GetAttributeValue, equal the template is never missed by C_FindObjectsInit.
   */
  lemma NeverMissed(e: Env, st: State, h: nat, signers: seq<Signer>, template: seq<Attribute>, objType: nat)
    requires h in st.table.sessions && !st.table.sessions[h].findActive && ObjectType(objType)
    requires st.table.sessions[h].slotID < |signers| && st.table.sessions[h].slotID < P28
    requires SearchHeld(st.back, signers, st.table.sessions[h].slotID, FilterOf(template))
    ensures var obj := MakeHandle(objType, st.table.sessions[h].slotID);
            var (st', error) := FindObjectsInit(e, st, h, template);
            && error.None? && st'.back == st.back && h in st'.table.sessions
            && (Answers(e, st'.back, st'.table, h, obj, template) ==> obj in st'.table.sessions[h].findResults)
  {
    hide GetSigners, MakeHandle, MatchingObjects, Answers, Meets, SearchHeld, FilterOf;
    var slot := st.table.sessions[h].slotID;
    HeldIsListed(e, st.back, signers, slot, FilterOf(template));
    MeetsIsFound(e, st.back, objType, slot, signers, template);
    var st' := FindObjectsInit(e, st, h, template).0;
    if Answers(e, st.back, st'.table, h, MakeHandle(objType, slot), template) {
      AnswersMeet(e, st.back, st'.table, h, objType, slot, signers, template);
    }
  }

  lemma HeldIsListed(e: Env, b: Back, signers: seq<Signer>, slot: nat, f: Filter)
    requires slot < |signers| && SearchHeld(b, signers, slot, f)
    ensures ListedAs(e, b, signers)
  {
  }

  /**
   The converse fails for a subject: keys have none, but are found with their certificate.  For a template of one
   non-empty subject, finding and reading agree on all three objects exactly when nothing is found.
   */
  lemma SubjectFilterExact(e: Env, b: Back, t: Table, session: nat, slot: nat, signers: seq<Signer>, subject: Bytes)
    requires slot < |signers| && slot < P28 && session in t.sessions && subject != []
    requires SearchHeld(b, signers, slot, Filter(None, [], [], subject))
    ensures var template := [Attribute(CKA_SUBJECT, subject)];
            var found := MatchingObjects(e, b, slot, template).1;
            var cert := e.parseCertificate(b.certs.certs[signers[slot].id].value);
            && found.Ok?
            && ((forall objType :: ObjectType(objType) ==>
                   (MakeHandle(objType, slot) in found.value <==> Answers(e, b, t, session, MakeHandle(objType, slot), template)))
                <==> !(cert.Some? && cert.value.subject == subject))
  {
    hide GetSigners, MakeHandle, Answers, ObjectsOfClass;
    var template := [Attribute(CKA_SUBJECT, subject)];
    SubjectOnlyFound(e, b, slot, signers, subject);
    var found := MatchingObjects(e, b, slot, template).1.value;
    var cert := e.parseCertificate(b.certs.certs[signers[slot].id].value);
    HeldIsListed(e, b, signers, slot, Filter(None, [], [], subject));
    forall objType | ObjectType(objType)
      ensures MakeHandle(objType, slot) in found <==> cert.Some? && cert.value.subject == subject
      ensures Answers(e, b, t, session, MakeHandle(objType, slot), template) <==>
              objType == OBJ_CERTIFICATE && cert.Some? && cert.value.subject == subject
    {
      InClass(objType, slot, None);
      SubjectAnswer(e, b, t, session, objType, slot, signers, subject);
    }
    assert ObjectType(OBJ_PRIVATE_KEY);
  }

  lemma SubjectOnlyFound(e: Env, b: Back, slot: nat, signers: seq<Signer>, subject: Bytes)
    requires slot < |signers| && subject != [] && SearchHeld(b, signers, slot, Filter(None, [], [], subject))
    ensures var cert := e.parseCertificate(b.certs.certs[signers[slot].id].value);
            MatchingObjects(e, b, slot, [Attribute(CKA_SUBJECT, subject)]).1 ==
            Ok(if cert.Some? && cert.value.subject == subject then ObjectsOfClass(slot, None) else [])
  {
    hide ObjectsOfClass;
    var template := [Attribute(CKA_SUBJECT, subject)];
    assert template[..0] == [];
    assert FilterOf(template) == Filter(None, [], [], subject);
  }

  lemma SubjectAnswer(e: Env, b: Back, t: Table, session: nat, objType: nat, slot: nat, signers: seq<Signer>, subject: Bytes)
    requires slot < |signers| && slot < P28 && session in t.sessions && subject != [] && ObjectType(objType)
    requires SearchHeld(b, signers, slot, Filter(None, [], [], subject)) && ListedAs(e, b, signers)
    ensures var cert := e.parseCertificate(b.certs.certs[signers[slot].id].value);
            Answers(e, b, t, session, MakeHandle(objType, slot), [Attribute(CKA_SUBJECT, subject)]) <==>
            objType == OBJ_CERTIFICATE && cert.Some? && cert.value.subject == subject
  {
    hide GetSigners, AttributeValue, AttributeValues, MakeHandle, ParseObjectHandle;
    HandleRoundTrip(objType, slot);
    var template := [Attribute(CKA_SUBJECT, subject)];
    assert TemplateTypes(template) == [CKA_SUBJECT];
    Stability.HeldAnswer(e, b, objType, signers[slot], [CKA_SUBJECT], 0);
    Stability.AttributeCases(e, b, objType, signers[slot], CKA_SUBJECT);
    SubjectOfKey(e, b, objType, signers[slot]);
    var values := AttributeValues(e, b, objType, signers[slot], [CKA_SUBJECT]).1;
    assert values == [Attribute(CKA_SUBJECT, values[0].value)];
    assert template[0].value == subject;
  }

  lemma SubjectOfKey(e: Env, b: Back, objType: nat, signer: Signer)
    ensures objType != OBJ_CERTIFICATE ==> AttributeValue(e, b, objType, signer, CKA_SUBJECT).1 == []
  {
    hide KeyType;
  }

  // ------------------------------------------------------------------ enumerating the results

  /** C_FindObjects once for every entry of `sizes`, and all handles returned, in order. */
  function Enumerated(st: State, h: nat, sizes: seq<nat>): (State, seq<nat>) {
    if sizes == [] then (st, [])
    else
      var (st1, front) := Enumerated(st, h, sizes[..|sizes| - 1]);
      var (st2, r) := FindObjects(st1, h, sizes[|sizes| - 1]);
      (st2, front + (if r.Ok? then r.value else []))
  }

  function Sum(sizes: seq<nat>): nat {
    if sizes == [] then 0 else Sum(sizes[..|sizes| - 1]) + sizes[|sizes| - 1]
  }

  function Min(a: nat, b: nat): nat {
    if a < b then a else b
  }

  /** However the calls are sized, they return the stored results one after the other, each once. */
  lemma {:induction false} EnumerationIsOrdered(st: State, h: nat, sizes: seq<nat>)
    requires h in st.table.sessions && st.table.sessions[h].findActive && st.table.sessions[h].findPos == 0
    ensures var results := st.table.sessions[h].findResults;
            var n := Min(Sum(sizes), |results|);
            Enumerated(st, h, sizes) ==
            (st.(table := Put(st.table, h, st.table.sessions[h].(findPos := n))), results[..n])
  {
    hide FindObjects;
    var s := st.table.sessions[h];
    if sizes == [] {
      assert st.table.sessions[h := s.(findPos := 0)] == st.table.sessions;
    } else {
      var front := sizes[..|sizes| - 1];
      EnumerationIsOrdered(st, h, front);
      var m := Min(Sum(front), |s.findResults|);
      NextBatch(st, h, m, sizes[|sizes| - 1]);
      var n := Min(Sum(sizes), |s.findResults|);
      assert s.findResults[..m] + s.findResults[m..n] == s.findResults[..n];
    }
  }

  /** One call from position `m`. */
  lemma NextBatch(st: State, h: nat, m: nat, size: nat)
    requires h in st.table.sessions && st.table.sessions[h].findActive && m <= |st.table.sessions[h].findResults|
    ensures var s := st.table.sessions[h];
            var n := Min(m + size, |s.findResults|);
            FindObjects(st.(table := Put(st.table, h, s.(findPos := m))), h, size) ==
            (st.(table := Put(st.table, h, s.(findPos := n))), Ok(s.findResults[m..n]))
  {
    var s := st.table.sessions[h];
    var n := Min(m + size, |s.findResults|);
    assert s.findResults[m..m] == [];
    assert st.table.sessions[h := s.(findPos := m)][h := s.(findPos := n)] == st.table.sessions[h := s.(findPos := n)];
  }
}
