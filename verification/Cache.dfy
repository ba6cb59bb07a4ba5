/** The time-limited caches (cache.go). */
module Cache {
  import opened Common
  import opened Remote

  /** Times are in nanoseconds. */
  const SECOND: int := 1_000_000_000

  datatype Entry<+T> = Entry(value: T, expiresAt: int)

  predicate IsExpired<T>(entry: Entry<T>, now: int) {
    now > entry.expiresAt
  }

  datatype PubKeyEntry =
    | RsaEntry(modulus: Bytes, exponent: Bytes)
    | EcEntry(ecParams: Bytes, ecPoint: Bytes)

  // ------------------------------------------------------------------ as values

  datatype SignerCacheState = SignerCacheState(ttl: int, entry: Option<Entry<seq<Signer>>>)

  datatype CertCacheState = CertCacheState(
    ttl: int,
    pubKeys: map<Bytes, Entry<PubKeyEntry>>,
    certs: map<Bytes, Entry<Bytes>>)

  function TTL(ttlSeconds: int, default: int): int {
    (if ttlSeconds == 0 then default else ttlSeconds) * SECOND
  }

  function NewSignerCache(ttlSeconds: int): SignerCacheState {
    SignerCacheState(TTL(ttlSeconds, 300), None)
  }

  function NewCertCache(ttlSeconds: int): CertCacheState {
    CertCacheState(TTL(ttlSeconds, 3600), map[], map[])
  }

  function GetSignersCached(c: SignerCacheState, now: int): Option<seq<Signer>> {
    if c.entry.None? || IsExpired(c.entry.value, now) then None else Some(c.entry.value.value)
  }

  function SetSigners(c: SignerCacheState, signers: seq<Signer>, now: int): SignerCacheState {
    c.(entry := Some(Entry(signers, now + c.ttl)))
  }

  function Lookup<T>(m: map<Bytes, Entry<T>>, id: Bytes, now: int): Option<T> {
    if id !in m || IsExpired(m[id], now) then None else Some(m[id].value)
  }

  function SetPubKey(c: CertCacheState, id: Bytes, pk: PubKeyEntry, now: int): CertCacheState {
    c.(pubKeys := c.pubKeys[id := Entry(pk, now + c.ttl)])
  }

  function SetCert(c: CertCacheState, id: Bytes, cert: Bytes, now: int): CertCacheState {
    c.(certs := c.certs[id := Entry(cert, now + c.ttl)])
  }

  // ------------------------------------------------------------------ as objects

  class SignerCache {
    var ttl: int
    var entry: Option<Entry<seq<Signer>>>

    ghost function View(): SignerCacheState
      reads this
    {
      SignerCacheState(ttl, entry)
    }

    constructor (ttlSeconds: int)
      ensures View() == NewSignerCache(ttlSeconds)
    {
      ttl := (if ttlSeconds == 0 then 300 else ttlSeconds) * SECOND;
      entry := None;
    }

    method Get(now: int) returns (signers: Option<seq<Signer>>)
      ensures signers == GetSignersCached(View(), now)
    {
      if entry.None? || IsExpired(entry.value, now) {
        return None;
      }
      return Some(entry.value.value);
    }

    method Set(signers: seq<Signer>, now: int)
      modifies this
      ensures View() == SetSigners(old(View()), signers, now)
    {
      entry := Some(Entry(signers, now + ttl));
    }
  }

  class CertDataCache {
    var ttl: int
    var pubKeys: map<Bytes, Entry<PubKeyEntry>>
    var certs: map<Bytes, Entry<Bytes>>

    ghost function View(): CertCacheState
      reads this
    {
      CertCacheState(ttl, pubKeys, certs)
    }

    constructor (ttlSeconds: int)
      ensures View() == NewCertCache(ttlSeconds)
    {
      ttl := (if ttlSeconds == 0 then 3600 else ttlSeconds) * SECOND;
      pubKeys, certs := map[], map[];
    }

    method GetPubKey(signerID: Bytes, now: int) returns (pk: Option<PubKeyEntry>)
      ensures pk == Lookup(pubKeys, signerID, now)
    {
      if signerID !in pubKeys || IsExpired(pubKeys[signerID], now) {
        return None;
      }
      return Some(pubKeys[signerID].value);
    }

    method SetPubKeyEntry(signerID: Bytes, pk: PubKeyEntry, now: int)
      modifies this
      ensures View() == SetPubKey(old(View()), signerID, pk, now)
    {
      pubKeys := pubKeys[signerID := Entry(pk, now + ttl)];
    }

    method GetCert(signerID: Bytes, now: int) returns (cert: Option<Bytes>)
      ensures cert == Lookup(certs, signerID, now)
    {
      if signerID !in certs || IsExpired(certs[signerID], now) {
        return None;
      }
      return Some(certs[signerID].value);
    }

    method SetCertEntry(signerID: Bytes, cert: Bytes, now: int)
      modifies this
      ensures View() == SetCert(old(View()), signerID, cert, now)
    {
      certs := certs[signerID := Entry(cert, now + ttl)];
    }
  }
}
