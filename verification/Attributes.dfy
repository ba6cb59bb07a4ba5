/** The attributes of the three objects of a slot (GetAttributeValue and getKeyType, backend.go, lines 576-787). */
module Attributes {
  import opened Common
  import opened Errors
  import opened Slots
  import opened Remote
  import opened Signers

  const CKA_CLASS: nat := 0x000
  const CKA_TOKEN: nat := 0x001
  const CKA_PRIVATE: nat := 0x002
  const CKA_LABEL: nat := 0x003
  const CKA_VALUE: nat := 0x011
  const CKA_CERTIFICATE_TYPE: nat := 0x080
  const CKA_ISSUER: nat := 0x081
  const CKA_SERIAL_NUMBER: nat := 0x082
  const CKA_TRUSTED: nat := 0x086
  const CKA_KEY_TYPE: nat := 0x100
  const CKA_SUBJECT: nat := 0x101
  const CKA_ID: nat := 0x102
  const CKA_SENSITIVE: nat := 0x103
  const CKA_ENCRYPT: nat := 0x104
  const CKA_DECRYPT: nat := 0x105
  const CKA_WRAP: nat := 0x106
  const CKA_UNWRAP: nat := 0x107
  const CKA_SIGN: nat := 0x108
  const CKA_SIGN_RECOVER: nat := 0x109
  const CKA_VERIFY: nat := 0x10A
  const CKA_VERIFY_RECOVER: nat := 0x10B
  const CKA_DERIVE: nat := 0x10C
  const CKA_MODULUS: nat := 0x120
  const CKA_MODULUS_BITS: nat := 0x121
  const CKA_PUBLIC_EXPONENT: nat := 0x122
  const CKA_EXTRACTABLE: nat := 0x162
  const CKA_LOCAL: nat := 0x163
  const CKA_NEVER_EXTRACTABLE: nat := 0x164
  const CKA_ALWAYS_SENSITIVE: nat := 0x165
  const CKA_EC_PARAMS: nat := 0x180
  const CKA_EC_POINT: nat := 0x181
  const CKA_ALWAYS_AUTHENTICATE: nat := 0x202
  const CKA_WRAP_WITH_TRUSTED: nat := 0x210

  const CKO_CERTIFICATE: nat := 1
  const CKO_PUBLIC_KEY: nat := 2
  const CKO_PRIVATE_KEY: nat := 3

  const CKK_RSA: nat := 0
  const CKK_EC: nat := 3

  const CKC_X_509: nat := 0

  const MAX_ID_LEN: nat := 20

  /** A CK_ULONG in memory: eight bytes, least significant first. */
  function UlongBytes(v: nat): (b: Bytes)
    ensures |b| == 8
  {
    var v1 := v / 256;
    var v2 := v1 / 256;
    var v3 := v2 / 256;
    var v4 := v3 / 256;
    var v5 := v4 / 256;
    var v6 := v5 / 256;
    var v7 := v6 / 256;
    [v % 256, v1 % 256, v2 % 256, v3 % 256, v4 % 256, v5 % 256, v6 % 256, v7 % 256]
  }

  function BoolBytes(v: bool): Bytes {
    if v then [1] else [0]
  }

  function KeyType(signer: Signer): nat {
    if Contains(signer.keyAlgorithm, "rsa") then CKK_RSA
    else if Contains(signer.keyAlgorithm, "ec") then CKK_EC
    else CKK_RSA
  }

  function ClassOf(objType: nat): Bytes {
    if objType == OBJ_PRIVATE_KEY then UlongBytes(CKO_PRIVATE_KEY)
    else if objType == OBJ_PUBLIC_KEY then UlongBytes(CKO_PUBLIC_KEY)
    else if objType == OBJ_CERTIFICATE then UlongBytes(CKO_CERTIFICATE)
    else []
  }

  /** Attributes whose value needs neither certificate nor key; `None` for the others. */
  function FixedAttribute(objType: nat, signer: Signer, typ: nat): Option<Bytes> {
    var isPrivate := objType == OBJ_PRIVATE_KEY;
    if typ == CKA_CLASS then Some(ClassOf(objType))
    else if typ == CKA_TOKEN then Some(BoolBytes(true))
    else if typ in {CKA_PRIVATE, CKA_SENSITIVE, CKA_SIGN, CKA_NEVER_EXTRACTABLE, CKA_ALWAYS_SENSITIVE} then
      Some(BoolBytes(isPrivate))
    else if typ == CKA_LABEL then Some(signer.name)
    else if typ == CKA_ID then Some(Truncate(signer.id, MAX_ID_LEN))
    else if typ == CKA_KEY_TYPE then Some(UlongBytes(KeyType(signer)))
    else if typ == CKA_CERTIFICATE_TYPE then
      Some(if objType == OBJ_CERTIFICATE then UlongBytes(CKC_X_509) else [])
    else if typ == CKA_VERIFY then Some(BoolBytes(objType == OBJ_PUBLIC_KEY))
    else if typ in {CKA_EXTRACTABLE, CKA_ALWAYS_AUTHENTICATE, CKA_ENCRYPT, CKA_DECRYPT, CKA_WRAP, CKA_UNWRAP,
                    CKA_VERIFY_RECOVER, CKA_SIGN_RECOVER, CKA_DERIVE, CKA_TRUSTED, CKA_WRAP_WITH_TRUSTED, CKA_LOCAL} then
      Some(BoolBytes(false))
    else None
  }

  function CertificateAttribute(e: Env, b: Back, signer: Signer, typ: nat): (Back, Bytes) {
    var (b1, der) := GetCertificateData(e, b, signer.id);
    if der.Err? then (b1, [])
    else if typ == CKA_VALUE then (b1, der.value)
    else
      var cert := e.parseCertificate(der.value);
      (b1, if cert.None? then []
           else if typ == CKA_SUBJECT then cert.value.subject
           else if typ == CKA_ISSUER then cert.value.issuer
           else cert.value.serial)
  }

  function RsaAttribute(e: Env, b: Back, signer: Signer, typ: nat): (Back, Bytes) {
    var (b1, key) := GetPublicKeyData(e, b, signer.id);
    (b1, if key.Err? then (if typ == CKA_MODULUS_BITS then UlongBytes(0) else [])
         else if typ == CKA_MODULUS then key.value.0
         else if typ == CKA_PUBLIC_EXPONENT then key.value.1
         else UlongBytes(|key.value.0| * 8))
  }

  function EcAttribute(e: Env, b: Back, signer: Signer, typ: nat): (Back, Bytes) {
    var (b1, key) := GetECPublicKeyData(e, b, signer.id);
    (b1, if key.Err? then [] else if typ == CKA_EC_PARAMS then key.value.0 else key.value.1)
  }

  /** One attribute of one object. */
  function AttributeValue(e: Env, b: Back, objType: nat, signer: Signer, typ: nat): (Back, Bytes) {
    var fixed := FixedAttribute(objType, signer, typ);
    var isKey := objType == OBJ_PRIVATE_KEY || objType == OBJ_PUBLIC_KEY;
    if fixed.Some? then (b, fixed.value)
    else if typ in {CKA_VALUE, CKA_SUBJECT, CKA_ISSUER, CKA_SERIAL_NUMBER} then
      if objType == OBJ_CERTIFICATE then CertificateAttribute(e, b, signer, typ) else (b, [])
    else if typ in {CKA_MODULUS, CKA_PUBLIC_EXPONENT, CKA_MODULUS_BITS} then
      if isKey && KeyType(signer) == CKK_RSA then RsaAttribute(e, b, signer, typ)
      else (b, if typ == CKA_MODULUS_BITS then UlongBytes(0) else [])
    else if typ in {CKA_EC_PARAMS, CKA_EC_POINT} then
      if isKey && KeyType(signer) == CKK_EC then EcAttribute(e, b, signer, typ) else (b, [])
    else (b, [])
  }

  /** The template is answered from left to right, one attribute for each entry. */
  function AttributeValues(e: Env, b: Back, objType: nat, signer: Signer, types: seq<nat>): (r: (Back, seq<Attribute>))
    ensures |r.1| == |types|
    ensures forall i :: 0 <= i < |types| ==> r.1[i].typ == types[i]
  {
    if types == [] then (b, [])
    else
      var (b1, front) := AttributeValues(e, b, objType, signer, types[..|types| - 1]);
      var typ := types[|types| - 1];
      var (b2, value) := AttributeValue(e, b1, objType, signer, typ);
      (b2, front + [Attribute(typ, value)])
  }

  function GetAttributeValue(e: Env, b: Back, t: Table, session: nat, obj: nat, types: seq<nat>)
    : (Back, Result<seq<Attribute>>)
  {
    if session !in t.sessions then (b, Err(SessionHandleInvalid))
    else
      var (objType, slot) := ParseObjectHandle(obj);
      var (b1, signer) := GetSignerBySlot(e, b, slot);
      if signer.Err? then (b1, Err(signer.error))
      else
        var (b2, values) := AttributeValues(e, b1, objType, signer.value, types);
        (b2, Ok(values))
  }
}
