# Verification of the Infisical PKCS#11 module

The module gives applications a PKCS#11 v2.40 interface to keys that live behind a remote API. This project
models its three parts with hard invariants and proves them for every input, every server and every run.

**The state machine.** `Machine.State` holds the initialised flag, the configuration, the client, the two
caches and the session table. `Machine.Step` is one C entry point, or the passing of time. The server is an
oracle (`Remote.Env.answers`) that may answer anything: its k-th answer is used by the k-th remote call, and
every call is recorded in `Net.calls`, so that statements about a run can speak of what was asked and what came
back. `Machine.Run` is a whole run, from the state before the first `C_Initialize`.

The program changes these things in place, and so do the classes `SignerCache`, `CertDataCache`, `Session`,
`SessionManager`, `InfisicalClient` and `InfisicalBackend`, and the methods of `EntryPoints` that write through
the caller's pointers. Each method is proved equal, in its result and in the whole state it leaves, to a function
of `Slots`, `Remote`, `Cache`, `Signers`, `Attributes` or `Machine`. The theorems are about those functions. What a
single branch says (a retry makes no remote call, an overlong update is refused, a cache entry expires) is stated
beside them, but not listed.

What the leaves compute is said once more, without them: `Requests` relates mechanism, data and request by the numbers
and encodings of the standards, `ObjectAttributes` the attributes to the object and its certificate, `Tokens` every
call to the credentials it carries, `LoginOutcome` the result of `C_Login` to the calls it makes, and `Secrets` says by
the text of an argument which part of it is a secret.

**The command capture.** Decoding argv as macOS and Linux report it, redacting credentials with a stateful loop,
joining with quotes, cutting at a UTF-8 boundary. One `char` stands for one byte of a Go string.

**The encodings.** DigestInfo, object identifiers and EC points in DER. Go's encoding/asn1 is not part of this
model; `Der` states the rules it applies to these structures.

Where the code and its documentation disagree, the model follows the code:

- The comment at `main.go:502` says that `CKR_BUFFER_TOO_SMALL` must not terminate the operation. A second short
  buffer does terminate it, because the cached branch (`backend.go:982-986`) clears the operation before
  `main.go:501-507` caches the signature again, and `SignInit` (`backend.go:965-968`) does not reset that cache.
  `Retry.RuleKeptIffPolite` gives, session by session, the exact condition on the caller under which the rule
  holds, and `Stale.StaleRun` a run of seven calls in which `C_Sign` delivers, for one piece of data, the signature of another.
- `getPublicKeyData` (`backend.go:842-845`) does not look at the kind of a cached key, so that an entry left by an
  EC certificate is served as an empty RSA modulus. `EmptyModulus.EmptyModulusRun` is such a run with the default
  TTLs; by `Staleness.RSAKeyIsFresh` the key served is a certified one exactly when no EC entry is cached.
- `setDefaults` (`config.go:63-73`) does not refuse a negative certificate TTL. Certificates and keys then expire at
  once, and one `C_GetAttributeValue` can mix two keys; `MixedKey.OneKeyIffTTL` says that a non-negative TTL is exactly
  what excludes it.
- `FindObjectsInit` (`backend.go:448-452`) reads only the first four bytes of a class. `Find.ClassFilterExact` says
  for which byte strings finding and reading agree.
- A subject in the template selects all three objects of a slot (`backend.go:486-509`), although only the certificate
  answers `CKA_SUBJECT`. `Find.SubjectFilterExact` says when that makes finding and reading differ; an object that answers
  the template is never missed (`Find.NeverMissed`).
- Arguments that contain a double quote are not escaped (`signing_context.go:140-145`). The promise of
  `signing_context_test.go:153` that every argument comes back as one token is kept exactly for the argument lists
  without one (`CommandLine.JoinThenTokenise`); `CommandLine.QuotesCollide` shows two lists that no reader can tell apart.
- The argv decoders lose an empty first argument (macOS) or an empty last one (Linux); `Argv.DarwinRecoversArgv`
  and `Argv.LinuxRecoversArgv` are equivalences.

## Model

| member | source | states |
|---|---|---|
| Conservation.SignaturesConserved | backend.go:972-1072 | Over every run, for every signature: the times the server returned it equal the times it was delivered with CKR_OK, plus the copies cached in open sessions, plus those dropped with closed sessions or by re-initialisation. |
| Conservation.SignInternalObtains | backend.go:999-1072 | A successful signing brings in exactly the signature it returns; a failed one brings in none, retries and approval requests included. |
| Retry.DeliveredIsOwn | main.go:477-563 | If every retry on a session offers at least the reported length, each signature delivered on it was made by the server after the session's latest successful C_SignInit, for its mechanism and key slot and the data of the call that computed it, whatever happens in between and on other sessions. |
| Retry.CachedMeansActive | backend.go:1186-1194 | In every state reached with such retries on a session, its cached signature implies that its operation is still active. |
| Retry.RuleKeptIffPolite | backend.go:972-996 | Along any run, the rule that a short buffer does not end the operation is kept on a session exactly when every retry on it offers at least the reported length. |
| Retry.ShortRetryStrands | main.go:501-507 | A second short buffer ends the operation and leaves the signature cached on the inactive session. |
| Stale.StaleSignatureEscapes | backend.go:947-986 | After that, any new C_SignInit and C_Sign on any data deliver the old signature without asking the server. |
| Stale.StaleRun | backend.go:947-996 | A reachable run in which the delivered signature was not made for the data it is delivered for. |
| Multipart.MultipartIsSinglePart | backend.go:1196-1229 | For every way of cutting data of at most 16 MiB, init, updates and C_SignFinal make the same remote calls and return the same as init and C_Sign on the whole. |
| Multipart.UpdatesAccumulate | slots.go:121-128 | A sequence of updates succeeds exactly when everything fits the limit, and then the buffer is their concatenation. |
| LoginHistory.LoginFollowsHistory | backend.go:304-396 | In every reachable state a session's flag is what the latest of its own opening, a successful login on its slot and a logout on its slot says. |
| LoginHistory.SigningNeedsLogin | backend.go:947-971 | C_SignInit succeeds exactly when the session is open, the history has it logged in and no signing is under way. |
| LoginHistory.HandlesAreFresh | slots.go:65-72 | A handle returned by C_OpenSession was never issued before since the last initialisation. |
| LoginHistory.ClosedStaysClosed | slots.go:65-100 | A closed handle stays invalid over every continuation in which no C_Initialize succeeds. |
| Tokens.PinCredentials | backend.go:381-387 | A PIN is a client id and secret exactly when it is two non-empty parts around its first colon. |
| LoginOutcome.LoginWithCredentials | backend.go:330-341 | The PIN "id:secret" is accepted exactly when the session is open and the server accepts a login with this very pair, the only call made; then all sessions of the slot are flagged, otherwise none. |
| LoginOutcome.LoginWithToken | backend.go:342-348 | Any other PIN is accepted on an open session without a call, and is the token from then on. |
| LoginOutcome.LoginWithConfiguredToken | backend.go:352-360 | Without a PIN under token auth: accepted exactly when a token is configured. |
| LoginOutcome.LoginWithConfiguredPair | backend.go:363-379 | Without a PIN under universal auth: accepted exactly when the SDK holds a token and id and secret are configured, or else the server accepts that pair. |
| LoginOutcome.InitializeOutcome | backend.go:51-93 | C_Initialize leaves nothing cached and no session, and makes one login exactly if id and secret are configured; when it fails, sessions and calls stay as they are. |
| Grammar.SigningGrammar | backend.go:999-1136 | One signing makes at most two signing requests, each serving mechanism and data, the second only after a 401 under universal auth with another non-empty token, and at most one approval request, only after a final denial that it can lift, with window, count and scope as configured and the SHA-256 of the data; a signature is always the last reply, and one that arrives is returned. |
| Grammar.StepSubmits | main.go:477-563 | No entry point but a C_Sign or C_SignFinal that computes a signature submits signing or approval requests, and such a step at most two and one. |
| Journal.RetryJournal | backend.go:174-210 | Of all calls made by a request with its retry, only the last can have brought content, and it is the reply returned. |
| Staleness.SignerListIsFresh | cache.go:13-46 | In every reachable state a served signer list is the latest received, at most one signer TTL old. |
| Staleness.CertificateIsFresh | backend.go:790-820 | A served certificate is the latest received for its signer, at most one certificate TTL old. |
| Staleness.ECKeyIsFresh | backend.go:888-945 | Served EC attributes come from a certificate received for that signer at most two certificate TTLs ago. |
| Staleness.RSAKeyIsFresh | backend.go:842-874 | Served RSA attributes come from an RSA certificate received for that signer at most two TTLs ago exactly when no EC entry is cached; otherwise they are served empty. |
| EmptyModulus.EmptyModulusRun | backend.go:842-845 | A run with the default TTLs: after the EC point was read and the signer was listed with an RSA key, CKA_MODULUS is read as empty although the server holds an RSA certificate. |
| Staleness.SignInternalJournal | backend.go:999-1072 | A returned signature is recorded as the answer to a request that serves mechanism and data, for the signer then listed at the key slot. |
| Requests.BuildsExactly | backend.go:1005-1050 | A request is built exactly when it serves mechanism and data, by mechanism number: the digest for the hashing mechanisms, the data itself for PSS, the digest inside a DigestInfo for raw RSA, the hash by length for raw ECDSA. For anything else there is none. |
| Requests.DigestInfoPrefix | mechanism.go:69-73 | The DigestInfo of a hash with NULL parameters is, byte by byte, the prefix of section 9.2 of RFC 8017 and the digest. |
| Requests.CurveBytes | backend.go:881-922 | The parameters of the three curves, byte by byte. |
| Tokens.StepCarries | backend.go:143-210 | In every step, each request and approval request carries the configured token, or under universal auth the token read last; each login carries the configured id and secret or those of the PIN. |
| Tokens.RequestIsMade | backend.go:147-210 | The calls of a request form one word: obtaining a token, the request if there is one, and after a 401 a new token and the request once more exactly if the token is another, non-empty one. |
| KeyAttributes.KeyIsCertified | backend.go:634-722 | With a non-negative TTL, in every reachable state: all EC parameters and points, or moduli, exponents and bit lengths, that one C_GetAttributeValue answers are of one key in a certificate the server gave for the signer at most two TTLs ago. |
| KeyAttributes.ValueIsCertified | backend.go:634-722 | With any TTL, every single one of them is of some such key. |
| KeyAttributes.EcReadDecodes | backend.go:702-722 | Parameters and point read together decode to the curve identifier and the coordinates of that one key. |
| KeyAttributes.KeyIsRead | backend.go:634-722 | If all lookups of a read succeed, nothing asked of a key is left blank: all of it shows one certified key. |
| ObjectAttributes.CertificateIsRead | backend.go:728-767 | With a non-negative TTL, in every reachable state: value, subject, issuer and serial number read from a certificate object are those of the latest certificate received for the signer at its slot, at most one TTL ago; empty only where no lookup has succeeded. |
| ObjectAttributes.ReadDescribes | backend.go:576-632 | In any state, class, flags, label, id and key type read are those of the handle's kind of object and the signer listed at its slot; a read succeeds exactly on an open session for a listed slot. |
| ObjectAttributes.CertificateLookup | backend.go:790-820 | A certificate is served exactly when it is cached and has not expired, or has just arrived. |
| ObjectAttributes.ListLookup | backend.go:212-229 | So is a signer list. |
| ObjectAttributes.KeyLookups | backend.go:842-945 | A key is served exactly when one is cached, of its kind for EC, or the certificate served has one. |
| MixedKey.OneKeyIffTTL | config.go:63-73 | A TTL keeps every read of every run to one key exactly when it is not negative. |
| MixedKey.MixedRead | backend.go:888-945 | For every negative TTL, a reachable state in which one call reads the parameters of one key and the point of another. |
| Find.FindAgreesWithRead | backend.go:430-537 | C_FindObjectsInit stores exactly those of the slot's objects whose C_GetAttributeValue answers equal the template. |
| Find.ClassFilterExact | backend.go:448-452 | For an arbitrary class value, finding and reading agree exactly on CK_ULONGs below 2^32 and on values that name no class. |
| Find.NeverMissed | backend.go:430-537 | For every template, with subjects, repeated and ignored attributes: an object whose C_GetAttributeValue answers equal the template is found. |
| Find.SubjectFilterExact | backend.go:486-509 | For a template of one subject, finding and reading agree on all objects exactly when the certificate has another subject. |
| Find.OnlySlotObjectsFound | backend.go:511-530 | Only objects of the session's slot are found, none twice. |
| Find.EnumerationIsOrdered | backend.go:539-563 | However the calls of C_FindObjects are sized, they return the stored results in order, each once. |
| Outcomes.SearchEnds | backend.go:565-574 | C_FindObjectsFinal ends the search of its session and nothing else; the next one may begin. |
| Outcomes.SlotListIsRead | main.go:87-116 | In every reachable state C_GetSlotList counts and numbers the signers of the latest list received, in all three uses. |
| Outcomes.OpenOutcome | backend.go:304-316 | C_OpenSession succeeds exactly for listed slots; the new session has no operation under way. |
| Outcomes.SizeIsEstimated | backend.go:1145-1167 | A size query answers by the key size that the algorithm mentions, and touches no session. |
| Slots.HandleRoundTrip | slots.go:14-34 | A handle gives back object type and slot exactly when the slot index is below 2^28. |
| Slots.HandleInjective | slots.go:20-34 | Handles of different objects differ. |
| Slots.HandleIsSum | slots.go:14-34 | For such slots a handle is its object type plus the slot. |
| AttributeReads.FillIsExact | main.go:431-450 | CKR_OK exactly when no buffer is short, then every entry is complete; otherwise the first short entry holds its required length, those before it are complete and those after it untouched. |
| AttributeReads.TwoPhaseRead | main.go:402-451 | A size query and a call with buffers of the reported lengths return CKR_OK with every value in its buffer, if the values did not change. |
| AttributeReads.TwoPhaseReadCached | main.go:402-451 | With non-negative TTLs they cannot have changed if the lookups of the query succeeded and what it left in the caches has not expired, in particular not right after the query. |
| Stability.ReadsAreStable | backend.go:576-774 | After a read whose lookups succeeded, a second one gives the same values and changes nothing, at any time before the cached list, certificate and key expire. |
| Stability.ServedReadIsHeld | backend.go:790-945 | With non-negative TTLs such a read leaves everything it needed in the caches. |
| Stability.HeldReadIsQuiet | backend.go:576-774 | A read that finds everything in the caches, or needs only the signer list, leaves the backend as it is. |
| AttributeReads.ReadIsOneForOne | backend.go:588-591 | Results match the template one for one, by type. |
| Agreement.RawRsaAgrees | backend.go:999-1050 | CKM_RSA_PKCS over the DigestInfo of a message's hash builds the same request as the hashing mechanism over the message. |
| Agreement.RawRsaOnlyFromDigestInfo | mechanism.go:82-116 | And only from such a DigestInfo. |
| Agreement.RawEcdsaAgrees | backend.go:1018-1028 | CKM_ECDSA over a message's hash builds the same request as the hashing mechanism over the message. |
| Agreement.SameRequestSameCall | main.go:477-513 | When the requests agree, C_Sign makes the same calls, returns the same and leaves the same sessions. |
| Mechanism.DigestInfoRoundTrip | mechanism.go:82-116 | Parsing an encoded DigestInfo gives back hash and digest for all parameters and extra elements within the length limit. |
| Mechanism.DigestInfoLanguage | mechanism.go:82-116 | Exactly the DER encodings of a DigestInfo are accepted: one outer element, nothing behind it, a digest of the right length. |
| Der.OidCodec | mechanism.go:69-97 | An object identifier has exactly one accepted encoding. |
| EcKey.PointRoundTrip | backend.go:924-934 | Decoding the OCTET STRING and splitting after 0x04 recovers both coordinates, left padding included. |
| EcKey.PointIsUnique | backend.go:924-934 | No other byte string decodes to that point. |
| EcKey.PointHeader | backend.go:924-934 | The header is short-form except for P-521, whose 133 bytes need the long form. |
| EcKey.ParamsRoundTrip | backend.go:881-922 | The curve parameters decode to the identifier of the curve and nothing else. |
| Redaction.RedactCommandArgs | signing_context.go:97-134 | The loop with its carried flag computes the stateless rule: output i depends on inputs i-1 and i alone, and the length is kept. |
| Redaction.RedactionRule | signing_context.go:52-134 | Said by text alone: the value after a secret flag becomes "***", that behind a secret key "key=***", that behind a secret prefix "prefix:***"; every other argument is reported as it is. |
| Redaction.NonInterference | signing_context.go:97-134 | Argument lists that differ only inside what their text makes secrets' values are redacted alike. |
| Redaction.HidesExactlySecrets | signing_context.go:97-134 | And only those: two lists are redacted alike exactly when they differ only there. |
| Redaction.RedactionIsIdempotent | signing_context.go:97-134 | Redacting twice is redacting once. |
| CommandLine.JoinCommandArgs | signing_context.go:136-149 | The loop renders every argument and joins them with spaces. |
| CommandLine.JoinThenTokenise | signing_context.go:136-149 | Reading the joined line back gives the argument list exactly when no argument contains a double quote. |
| CommandLine.JoinIsInjective | signing_context.go:136-149 | Distinct such lists are joined to distinct lines. |
| CommandLine.QuotesCollide | signing_context.go:136-149 | With double quotes two lists can collide. |
| Truncation.TruncateCommand | signing_context.go:151-160 | The loop stops at the last start byte at or before the limit, on any bytes. |
| Truncation.TruncationIsMaximal | signing_context.go:151-160 | On valid UTF-8 the result is the longest valid prefix of at most 32767 bytes, and at most 3 bytes are lost to the boundary. |
| Truncation.ValidPrefix | signing_context.go:151-160 | The valid prefixes of valid UTF-8 are exactly those that end before a start byte. |
| Capture.CaptureNonInterference | signing_context.go:175-182 | No secret's value, as told by the text alone, influences the captured command. |
| Capture.FlagValueHidden | signing_context.go:52-90 | "--f v", "-f v" and "/f v" are captured alike for every v that is no secret flag itself, if f names a secret. |
| Capture.InlineValueHidden | signing_context.go:97-124 | So are "--f=v" and "f=v" for every v. |
| Capture.PrefixedValueHidden | signing_context.go:125-131 | And "-f:v", unless the token as a whole names a secret. |
| Capture.CaptureHidesExactlySecrets | signing_context.go:175-182 | Short quote-free command lines are captured alike exactly when they differ only inside secrets' values. |
| Capture.RedactedRoundTrip | signing_context.go:97-149 | The redacted arguments can be read back from the line one by one exactly when none contains a quote, which redaction never adds. |
| Capture.RequestScope | signing_context.go:220-256 | A scope field is dropped exactly when its name is excluded; an excluded address is an explicit null and overrides a pinned one. |
| Argv.DarwinCommandLine | signing_context_darwin.go:13-51 | The decoder loops terminate within bounds on any buffer and compute the recursive decoder. |
| Argv.DarwinRecoversArgv | signing_context_darwin.go:19-49 | For every executable path, padding and environment, argv is returned exactly when its first argument is not empty. |
| Argv.LinuxRecoversArgv | signing_context_linux.go:11-22 | Argv is returned exactly when its last argument is not empty. |
| Argv.DecodersAgree | signing_context_linux.go:16-20 | When neither end is empty both systems report argv. |
| Sessions.Session.AppendSignBuffer | slots.go:121-128 | The object does what the value function says: the limit is checked before anything is changed. |
| Sessions.SessionManager.Open | slots.go:65-72 | Adds a new session under the next handle and keeps all others. |
| Sessions.SessionManager.CloseAllForSlot | slots.go:91-99 | Removes exactly the sessions of the slot. |
| Sessions.SessionManager.SetAllLoggedInForSlot | slots.go:111-119 | Sets the flag of exactly the sessions of the slot. |
| Backend.InfisicalBackend.WithRetryOnAuth | backend.go:174-210 | The object performs the calls of the value function and leaves the client in its state. |
| Backend.InfisicalBackend.GetCertificateData | backend.go:790-820 | The same for certificates, with both caches. |
| Backend.InfisicalBackend.GetAttributeValue | backend.go:576-774 | The loop over the template answers it from left to right. |
| Backend.InfisicalBackend.SignInternal | backend.go:999-1072 | The object makes the calls of the value function and returns its result. |
| Backend.InfisicalBackend.Login | backend.go:325-379 | Configuration, client and flags end up as the machine says. |
| Backend.InfisicalBackend.FindObjectsInit | backend.go:430-537 | Only the session's find state and the caches change, as the machine says. |
| Backend.InfisicalBackend.Sign | backend.go:972-996 | Replays and clears, or signs, as the machine says. |
| Backend.InfisicalBackend.SignFinal | backend.go:1207-1229 | The same on the accumulated buffer. |
| EntryPoints.C_Sign | main.go:477-513 | The whole state, the length written, and the buffer contents (signature in front, the rest untouched) are those of the machine. |
| EntryPoints.C_SignFinal | main.go:531-563 | The same for the multi-part call. |
| EntryPoints.C_GetAttributeValue | main.go:402-451 | The caller's array is filled in place as the machine says. |
| EntryPoints.C_FindObjects | main.go:369-388 | The handles are written to the front of the caller's array, the rest is untouched. |
| EntryPoints.C_GetSlotList | main.go:87-116 | Count and slot numbers are written as the machine says, in all of the size query, short and full cases. |
| EntryPoints.C_OpenSession | main.go:196-211 | The new handle is written exactly when the session was opened. |

## Left out

- Find.FindAgreesWithRead: the template has at most one attribute each of class, id and label, with non-empty values and the class in its eight-byte form; for all templates only NeverMissed holds, with the certificate cached if a subject is asked for.
- AttributeReads.TwoPhaseRead: that the values did not change is a hypothesis; TwoPhaseReadCached replaces it by lookups that succeed and caches that have not expired.
- Retry.DeliveredIsOwn: needs retries of at least the reported length, which RuleKeptIffPolite and StaleRun show cannot be dropped.
- SignerCache.invalidate: nothing in the module calls it.
- HTTP, the SDK, TLS and JSON: the server and the SDK's token are the oracle; base64 is injective, so a payload stands for its encoding.
- Empty signatures: the model's server never returns one; the program would index an empty slice.
- Threads: entry points are atomic steps, so races inside one session are not seen.
- The clock is read once in each step: the time a request takes is not added to the age of its reply.
- Machine integers: handles, lengths and times are unbounded, and the conversions of lengths to C.int do not truncate; CK_ULONG has eight bytes, least significant first.
- Caller memory: a CK_ATTRIBUTE holds its buffer as a value, so two entries never share one; struct packing and C.GoBytes are not expressible.
- The mapping of errors to CKR codes: a failed call returns `Mapped(error)`.
- Reading and validating the configuration file and environment: C_Initialize receives the outcome.
- strings.ToLower is a parameter of the redaction; only idempotence and exactness need that it keeps a "***" suffix.
- X.509 parsing, PEM and the hash functions are arbitrary functions, except that the modulus of an RSA key is not empty, as crypto/x509 refuses one that is not positive; digests are assumed to have their length where needed.
- Contents of C_GetInfo, C_GetSlotInfo, C_GetTokenInfo, C_GetSessionInfo and C_GetMechanismInfo, and the unsupported-operation stubs: constants and copies.
- EstimateSignatureSize as an upper bound: it depends on the server's signature format.
- Logging, the host name, the user and the executable's hash: the signing context is an arbitrary value in the state machine.
- Windows and other systems' command lines.
