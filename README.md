# SPNEGO/Kerberos HTTP authentication gate (gokrb5 `service/http.go`)

This project models, in Dafny, the decision logic of the gokrb5 HTTP service
wrapper `SPNEGOKRB5Authenticate` and of the AP-REQ validator
`validateAPREQ` behind it, and proves properties of that model.

- **`validateAPREQ`** (module `Validate`) applies the AP-REQ acceptance
  rules of section 3.2.3 of RFC 4120 to a decrypted authenticator and
  ticket. The checks run in a fixed order, and the first one that fails
  decides the error code (section 7.5.9 of RFC 4120):
  - principal match: `KRB_AP_ERR_BADMATCH` (36);
  - clock skew: `KRB_AP_ERR_SKEW` (37);
  - replay: `KRB_AP_ERR_REPEAT` (34);
  - not yet valid, or the Invalid flag set: `KRB_AP_ERR_TKT_NYV` (33);
  - expired: `KRB_AP_ERR_TKT_EXPIRED` (32).

  The clock is read once, so `now` is a parameter. The maximum skew is the
  hard-coded five minutes, kept as a Go `Duration`, which is 64-bit
  nanoseconds. Go's saturating `Time.Sub` and its wrapping
  `Duration * Microsecond` are modelled explicitly in module `GoTime`.
  The validation exists twice:
  - a specification function, `Validation`, which threads the replay cache
    as a map;
  - an imperative method, `ValidateAPReq`, which updates a `ReplayCache`
    object in place and is proved equal to the function.
- **The replay cache** (module `ReplayCache`) is a class holding a map from
  fingerprints to the instant each was first seen. A fingerprint is
  {SName, CName, CRealm, CTime, Cusec}. The class has one check-and-record
  method: it returns true exactly when the fingerprint was already present,
  and otherwise inserts it. `Verdicts` gives the verdicts of a series of
  such calls made one after another, and `CheckAndRecordEach` is the loop
  over the class that produces them. Reading concurrent requests as such a
  series assumes each check-and-record is atomic. This is an assumption,
  not part of the model.
- **The gate** (module `Gate`) sorts a request into one of three responses.
  The one exception is a NegTokenInit with an empty mechanism list, on
  which the source panics (see "## Left out"):
  - a challenge: 401 with `WWW-Authenticate: Negotiate`;
  - the fixed reject artifact: 401 with `SPNEGO_NegTokenResp_Reject`, a
    NegTokenResp with negState reject (section 4.2.2 of RFC 4178);
  - acceptance: the `SPNEGO_NegTokenResp_Krb_Accept_Completed` header is
    set and the handler is called with cname, crealm and
    authenticated = true.

  The header test follows `strings.SplitN(h, " ", 2)` and compares the
  scheme exactly with "Negotiate" (section 4.2 of RFC 4559). Base64
  decoding, SPNEGO and Kerberos unmarshalling, and decryption are external
  steps. Their outcomes are inputs, tried in the source's order. The
  response is a value: status, header, body, handler call with identity,
  and logged diagnostic. `Authenticate` is the function view of the gate
  and `Serve` is the method that drives the shared cache. `HeaderGet`
  renders `r.Header.Get("Authorization")`, and `Validate.Failure` renders
  the `NewKRBError` calls at lines 94, 110, 117, 123 and 129. The lemmas
  about the gate and the validator pin the values these two produce.

Two facts about the code shape the model:
- `validateAPREQ` returns only `(bool, error)`. The gate takes the identity
  it hands the handler from the authenticator: its principal name joined
  with "/", and its realm (service/http.go:79-80).
- `service/http.go:132` reads `return true` with a single value. That does
  not compile against the `(bool, error)` signature. The model reads it as
  `(true, nil)`: `ValidationResult(true, None)`.

## Model

| member | source | states |
|---|---|---|
| `GoTime.Wrap64` | service/http.go:105 | The 64-bit result equals the input modulo 2^64, and it is the input itself when the input fits in 64 bits. |
| `GoTime.MulDuration` | service/http.go:105 | Go's Duration product is the true product whenever that fits in 64 bits. Otherwise it wraps (via `Wrap64`). |
| `GoTime.SubExceedsExactly` | service/http.go:109 | Go's saturating `t.Sub(u) > d` holds exactly when the true difference exceeds `d`, for any `d` below the largest Duration. |
| `ReplayCache.Record` | service/http.go:115-116 | After a check-and-record, the cache holds exactly the old keys plus the fingerprint. A known fingerprint keeps its first-seen instant, a new one gets the call's instant, and every other entry is unchanged. |
| `ReplayCache.ReplayCache.constructor` | service/http.go:115 | The cache starts empty. |
| `ReplayCache.ReplayCache.CheckAndRecord` | service/http.go:115-116 | Returns true iff the fingerprint was already present. Otherwise it inserts it. The new map is `Record` of the old one, and the fingerprint is present afterwards. |
| `ReplayCache.Verdicts` | service/http.go:115-116 | A series of check-and-record calls made one after another gives one verdict per call. |
| `ReplayCache.ReplayCache.CheckAndRecordEach` | service/http.go:115-116 | Calling check-and-record on each fingerprint in turn returns exactly the verdicts `Verdicts` gives for the cache as it was. |
| `ReplayCache.FreshAtMostOnce` | service/http.go:115-119 | Once a fingerprint has been presented, every later presentation of it in the series is reported as a replay. |
| `ReplayCache.SeenStaysSeen` | service/http.go:115-119 | A fingerprint already in the cache is reported as a replay by every later call presenting it. |
| `ReplayCache.ReplayOnlyIfSeen` | service/http.go:115-119 | A fingerprint that was not in the cache and was not presented earlier in the series is reported fresh, whatever else the series presents. |
| `ReplayCache.ReplayExactly` | service/http.go:115-119 | In a series of calls made one after another, a call is a replay iff its fingerprint was in the cache at the start or was presented by an earlier call. |
| `ReplayCache.FirstPresentationOnlyIsFresh` | service/http.go:115-119 | In a series of calls made one after another, the first presentation of a fingerprint not yet in the cache is fresh, and every later one is a replay, whatever other fingerprints come in between. |
| `Validate.AuthenticatorTime` | service/http.go:105 | `ct` is CTime plus an offset that is a 64-bit Duration. For a microsecond field in 0..999999 the offset is exactly Cusec microseconds, with no wrap-around. |
| `Validate.SkewTooLarge` | service/http.go:109 | The skew test on Go's saturating differences fires exactly when the authenticator time and `now` are more than five minutes apart, in either direction. |
| `Validate.NotYetValid` | service/http.go:122 | The not-yet-valid test fires exactly when the start time is more than five minutes after `now` or the Invalid flag (bit 7) is set. |
| `Validate.Expired` | service/http.go:128 | The expiry test fires exactly when the end time is more than five minutes before `now`. |
| `Validate.Validation` | service/http.go:91-133 | The result is accepted iff it carries no error. A rejection names the ticket's server and realm and carries one of the five AP error codes. The cache only gains this authenticator's fingerprint and never loses or re-dates an entry. |
| `Validate.ValidateAPReq` | service/http.go:91-133 | The method returns what `Validation` returns, and leaves the replay cache object holding `Validation`'s new cache. |
| `Validate.SkewBoundaryPasses` | service/http.go:109 | A difference of exactly five minutes, either way, passes the skew check. One nanosecond more fails it. |
| `Validate.AcceptsExactly` | service/http.go:91-133 | `validateAPREQ` returns true exactly when all five checks pass: principal match, skew, fingerprint unseen, started and not flagged invalid, not expired. It then returns no error. |
| `Validate.FirstFailureDecides` | service/http.go:93-131 | Each error code is returned exactly when every earlier check passed and its own check failed. |
| `Validate.CacheEffect` | service/http.go:105-119 | The cache changes only when the principal and skew checks pass and the fingerprint is new. The fingerprint is then recorded at `now`, even if the not-yet-valid or expiry check fails afterwards. |
| `Validate.BadMatchLeavesCache` | service/http.go:93-96 | A principal mismatch gives `(false, KRB_AP_ERR_BADMATCH)` with the cache unchanged. |
| `Validate.SkewLeavesCache` | service/http.go:105-112 | With matching principals, an authenticator time more than five minutes away gives `KRB_AP_ERR_SKEW` with the cache unchanged, whatever the other fields hold. |
| `Validate.OtherFingerprintsUnaffected` | service/http.go:115-131 | No validation, accepted or rejected, changes the presence or the instant of any other fingerprint. |
| `Validate.SecondPresentationIsReplay` | service/http.go:115-119 | Once an AP-REQ has reached the replay check, validating it again against any later cache that still holds what that validation left fails with `KRB_AP_ERR_REPEAT` and leaves that cache unchanged, provided the new validation passes the skew check. So, in this model, whose cache never evicts, an AP-REQ is accepted at most once. |
| `Gate.ResponseTokens` | service/http.go:22-23 | Both response header values are Negotiate credentials: the scheme, a space and a non-empty token. The two differ. |
| `Gate.IndexOf` | service/http.go:29 | Returns the index of the first occurrence of the character, or -1 iff it does not occur. |
| `Gate.SplitN2` | service/http.go:29 | `SplitN(s, " ", 2)` gives two parts iff `s` contains a space. The parts then rejoin to `s` around the first space. Otherwise the single part is `s`. |
| `Gate.NegotiateTokenExact` | service/http.go:29-30 | The split-and-compare accepts a header iff it starts with exactly "Negotiate ". The token is the rest of the header. |
| `Gate.NegotiateToken` | service/http.go:29-30 | A token found is the header minus its "Negotiate " prefix. |
| `Gate.Challenge` | service/http.go:31-33 | The challenge is 401 with a bare `WWW-Authenticate: Negotiate` and "Unauthorised.\n". No handler is called and nothing is logged. The client can tell it from the reject artifact. |
| `Gate.RejectSPNEGO` | service/http.go:135-142 | The cause is logged. Whatever the cause, the client sees the same 401 with `SPNEGO_NegTokenResp_Reject` and "Unauthorised.\n". |
| `Gate.Accept` | service/http.go:78-83 | The accept-completed header is set, and the gate writes no status and no body of its own. The handler is called with the principal string, the realm and authenticated = true. Nothing is logged. The client can tell it from both the challenge and the reject artifact. |
| `Gate.FirstDecodeFailure` | service/http.go:36-76 | No step fails iff all of these succeed: base64 decoding, NegToken parsing as a NegTokenInit, the KRB5 mech OID, MechToken parsing, the AP_REQ type, ticket decryption, authenticator decryption and authenticator unmarshalling. Each step is named exactly when every earlier step succeeded and that step failed. |
| `Gate.Authenticate` | service/http.go:27-89 | The handler only ever gets an authenticated identity. Every response without a handler call is a 401 with body "Unauthorised.\n". Every logged rejection looks the same to the client. The cache only gains the request's fingerprint. |
| `Gate.Serve` | service/http.go:27-89 | The imperative gate returns `Authenticate`'s response and leaves the shared cache holding `Authenticate`'s new cache. |
| `Gate.ChallengeExactly` | service/http.go:29-34 | The gate challenges iff the header does not start with "Negotiate ". The challenge is 401, `WWW-Authenticate: Negotiate`, "Unauthorised.\n", no handler call and an unchanged cache. |
| `Gate.DecodeFailureRejects` | service/http.go:36-76 | A failing decode or decrypt step gives 401 with "Negotiate oQcwBaADCgEC" and "Unauthorised.\n". The handler is not called, the log names the failing step, and the cache is unchanged. |
| `Gate.DecodedFollowsValidation` | service/http.go:77-87 | Once decoding succeeds, the response follows the validator. If it is true, the accept-completed header is set and the handler is called with cname = principal string, crealm and authenticated = true. If it is false, the reject artifact is sent and the validation error is logged. |
| `Gate.HandlerCalledExactly` | service/http.go:27-89 | The handler is called iff the header starts with "Negotiate ", every external step succeeds, and all five AP-REQ checks pass. |
| `Gate.ThreeResponses` | service/http.go:29-87 | In the model, the client sees one of exactly three responses: the challenge, the single reject artifact (whatever the cause), or acceptance. The source's panic on an empty mechanism list is not covered. |

## Left out

- Base64 decoding, SPNEGO/GSSAPI ASN.1 unmarshalling, MechToken and
  Authenticator unmarshalling, and the OID comparison are foreign library
  code. Each is modelled as a success/failure input in `Gate.Collaborators`.
- Ticket and authenticator decryption and keytab lookup are cryptography
  and an external key store. They are success/failure inputs too, together
  with the decrypted values they produce.
- `time.Now()` reads a wall clock. It is the parameter `now`.
- `http.ResponseWriter`, `context.WithValue` and `log.Logger` are I/O. The
  response is the `Gate.Response` value. The log line is kept only as the
  logged diagnostic. A nil logger only suppresses printing, which is not
  modelled.
- The status and body that the downstream handler itself writes are not
  modelled: on acceptance the gate writes neither.
- The replay cache's internals (in a file that is not part of this model)
  are left out: the window `d` passed to `GetReplayCache` and `IsReplay`,
  eviction, the process-wide singleton and any locking. The cache keeps
  only the sequential check-and-record contract. An entry's first-seen
  instant is the validation's `now`.
- ReplayCache.Verdicts: assumes that `IsReplay` checks and inserts in one
  atomic step. That atomicity is not modelled. Concurrent requests are
  covered only as a series of calls made one after another. The same holds
  for `ReplayExactly` and `FirstPresentationOnlyIsFresh`.
- Validate.SecondPresentationIsReplay: the replay rejection holds at any
  later time only because the model's cache never evicts. The source passes
  a window `d` to `GetReplayCache` and `IsReplay`, and an entry older than
  that window may be gone by the second presentation.
- The client-address check is an unimplemented TODO in the source
  (service/http.go:97-102). It is not modelled as present.
- `PrincipalName.Equal`, `GetPrincipalNameString` and `types.IsFlagSet`
  live in a file that is not part of this model:
  - principal equality is modelled as equality of the name-string
    components, with the name type not significant (section 6.2 of
    RFC 4120);
  - the principal string is the components joined with "/";
  - ticket flags are the set of bit positions that are set, with Invalid
    at bit 7 (section 5.3 of RFC 4120).
- Line 47 indexes `MechTypes[0]`. A NegTokenInit with an empty mechanism
  list makes that index out of range. The model folds the whole OID test
  into the `firstMechIsKrb5` input.
- Gate.ThreeResponses: it does not cover a NegTokenInit with an empty
  mechanism list. On such a token the source panics at
  service/http.go:47 and writes no response; net/http then drops the
  request. The model treats the token as one whose first mechanism is not
  Kerberos V5. It sends the reject artifact, so the panic is not one of the
  model's outcomes.
- The two header constants (service/http.go:22-23) are taken as given.
  Their base64 and DER contents (negState accept-completed with the
  Kerberos V5 mechanism, and negState reject) are not re-derived.
- Go header values are byte strings. They are modelled as Dafny character
  sequences. The gate's decision depends only on the ASCII prefix
  "Negotiate ", so nothing is lost.
- `NewKRBError` also fills STime and Susec from a second clock read.
  `Kerberos.KrbError` leaves them out, because they are only logged.
- Go `time.Time` is a count of nanoseconds with an unbounded range here.
  `Time.Add` is plain addition.
