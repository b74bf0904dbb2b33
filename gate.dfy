/**
 * `SPNEGOKRB5Authenticate`: the HTTP gate in front of a downstream handler.
 * A request is classified into one of three responses (a NegTokenInit with
 * an empty mechanism list, on which the source panics, is read as one whose
 * first mechanism is not Kerberos V5):
 *   - a challenge, when the Authorization header does not carry a
 *     "Negotiate" credential (section 4.2 of RFC 4559);
 *   - the fixed reject artifact (a NegTokenResp with negState reject,
 *     section 4.2.2 of RFC 4178), when decoding, decryption or validation fails;
 *   - acceptance, when `validateAPREQ` succeeds: the accept-completed header
 *     is set and the handler runs with the client's identity.
 * Base64, SPNEGO/Kerberos unmarshalling and decryption are external; their
 * outcomes for the request's token are inputs, in the order the gate runs them.
 */
module Gate {
  import opened Wrappers
  import opened GoTime
  import opened Kerberos
  import opened ReplayCache
  import opened Validate

  /** The header value sent with every successful authentication. */
  const SPNEGO_NegTokenResp_Krb_Accept_Completed: string := "Negotiate oRQwEqADCgEAoQsGCSqGSIb3EgECAg=="
  /** The header value sent with every rejection. */
  const SPNEGO_NegTokenResp_Reject: string := "Negotiate oQcwBaADCgEC"

  const UnauthorisedBody: string := "Unauthorised.\n"

  // ---------------------------------------------------------------------
  // The Authorization header

  /** `r.Header.Get("Authorization")`: the first value, or "" when there is none. */
  function HeaderGet(values: seq<string>): string
  {
    if |values| == 0 then "" else values[0]
  }

  /** The index of the first `c` in `s`, or -1 (`strings.Index`). */
  function IndexOf(s: string, c: char): (r: int)
    ensures -1 <= r < |s|
    ensures r == -1 <==> c !in s
    ensures r >= 0 ==> s[r] == c && c !in s[..r]
  {
    if |s| == 0 then -1
    else if s[0] == c then 0
    else
      var k := IndexOf(s[1..], c);
      assert s[1..][..if k < 0 then 0 else k] == s[1..if k < 0 then 1 else k + 1];
      if k < 0 then -1 else k + 1
  }

  /**
   * `strings.SplitN(s, sep, 2)` for a one-character separator: the text
   * before the first separator and the rest, or `s` alone when there is no
   * separator.
   */
  function SplitN2(s: string, sep: char): (parts: seq<string>)
    ensures |parts| == 1 || |parts| == 2
    ensures |parts| == 2 <==> sep in s
    ensures |parts| == 1 ==> parts[0] == s
    ensures |parts| == 2 ==> parts[0] + [sep] + parts[1] == s && sep !in parts[0]
  {
    var i := IndexOf(s, sep);
    if i < 0 then [s]
    else
      assert s[..i] + [sep] + s[i + 1..] == s;
      [s[..i], s[i + 1..]]
  }

  /**
   * The token of a "Negotiate <token>" header, or None when the gate must
   * challenge; a token found is the header minus its "Negotiate " prefix.
   */
  function NegotiateToken(h: string): (t: Option<string>)
    ensures t.Some? ==> h == NegotiatePrefix + t.value
  {
    var s := SplitN2(h, ' ');
    if |s| != 2 || s[0] != "Negotiate" then None else Some(s[1])
  }

  const NegotiatePrefix: string := "Negotiate "

  /** The header starts with the scheme name "Negotiate" and a space. */
  predicate HasNegotiatePrefix(h: string)
  {
    |h| >= |NegotiatePrefix| && h[..|NegotiatePrefix|] == NegotiatePrefix
  }

  /**
   * The split accepts exactly the headers that start with "Negotiate " (the
   * scheme matched exactly, case included) and yields the remainder, spaces
   * and all, as the token.
   */
  lemma NegotiateTokenExact(h: string)
    ensures NegotiateToken(h).Some? <==> HasNegotiatePrefix(h)
    ensures NegotiateToken(h).Some? ==> h == NegotiatePrefix + NegotiateToken(h).value
  {
    var s := SplitN2(h, ' ');
    if HasNegotiatePrefix(h) {
      assert h[9] == ' ';
      var i := IndexOf(h, ' ');
      assert i <= 9;
      assert forall k :: 0 <= k < 9 ==> h[k] == NegotiatePrefix[k];
      assert i == 9;
      assert s[0] == h[..9];
      assert h[..9] == "Negotiate";
    }
    if |s| == 2 && s[0] == "Negotiate" {
      assert h == s[0] + [' '] + s[1];
      assert h[..|NegotiatePrefix|] == s[0] + [' '];
    }
  }

  // ---------------------------------------------------------------------
  // The external decode and decrypt steps

  /** What the external steps report for the request's token, in the order the gate runs them. */
  datatype Collaborators = Collaborators(
    base64Decodes: bool,          // base64.StdEncoding.DecodeString
    negTokenParses: bool,         // GSSAPI.UnmarshalNegToken returns no error
    isNegTokenInit: bool,         //   ... and the token is a NegTokenInit
    firstMechIsKrb5: bool,        // MechTypes[0] is the Kerberos V5 OID
    mechTokenParses: bool,        // MechToken.Unmarshal
    mechTokenIsAPReq: bool,       // MechToken.IsAPReq
    ticketDecrypts: bool,         // Ticket.DecryptEncPart with the keytab
    authenticatorDecrypts: bool,  // crypto.DecryptEncPart of the authenticator
    authenticatorParses: bool,    // Authenticator.Unmarshal
    authenticator: Authenticator, // the authenticator once all steps succeed
    apReq: APReq)                 // the AP-REQ with its decrypted ticket

  /** The step that failed, as the log line names it. */
  datatype DecodeFailure =
    | Base64Error
    | NotNegTokenInit
    | NotKrb5Mech
    | MechTokenError
    | NotAPReq
    | TicketDecryptError
    | AuthenticatorDecryptError
    | AuthenticatorUnmarshalError

  /**
   * The first step that fails, in the order the gate runs them, or None
   * when the authenticator and ticket are in hand: each step is named
   * exactly when every earlier step succeeded and it failed.
   */
  function FirstDecodeFailure(c: Collaborators): (f: Option<DecodeFailure>)
    ensures f == None <==>
              && c.base64Decodes && c.negTokenParses && c.isNegTokenInit && c.firstMechIsKrb5
              && c.mechTokenParses && c.mechTokenIsAPReq && c.ticketDecrypts
              && c.authenticatorDecrypts && c.authenticatorParses
    ensures f == Some(Base64Error) <==> !c.base64Decodes
    ensures f == Some(NotNegTokenInit) <==>
              c.base64Decodes && !(c.negTokenParses && c.isNegTokenInit)
    ensures f == Some(NotKrb5Mech) <==>
              c.base64Decodes && c.negTokenParses && c.isNegTokenInit && !c.firstMechIsKrb5
    ensures f == Some(MechTokenError) <==>
              && c.base64Decodes && c.negTokenParses && c.isNegTokenInit && c.firstMechIsKrb5
              && !c.mechTokenParses
    ensures f == Some(NotAPReq) <==>
              && c.base64Decodes && c.negTokenParses && c.isNegTokenInit && c.firstMechIsKrb5
              && c.mechTokenParses && !c.mechTokenIsAPReq
    ensures f == Some(TicketDecryptError) <==>
              && c.base64Decodes && c.negTokenParses && c.isNegTokenInit && c.firstMechIsKrb5
              && c.mechTokenParses && c.mechTokenIsAPReq && !c.ticketDecrypts
    ensures f == Some(AuthenticatorDecryptError) <==>
              && c.base64Decodes && c.negTokenParses && c.isNegTokenInit && c.firstMechIsKrb5
              && c.mechTokenParses && c.mechTokenIsAPReq && c.ticketDecrypts
              && !c.authenticatorDecrypts
    ensures f == Some(AuthenticatorUnmarshalError) <==>
              && c.base64Decodes && c.negTokenParses && c.isNegTokenInit && c.firstMechIsKrb5
              && c.mechTokenParses && c.mechTokenIsAPReq && c.ticketDecrypts
              && c.authenticatorDecrypts && !c.authenticatorParses
  {
    if !c.base64Decodes then Some(Base64Error)
    else if !c.negTokenParses || !c.isNegTokenInit then Some(NotNegTokenInit)
    else if !c.firstMechIsKrb5 then Some(NotKrb5Mech)
    else if !c.mechTokenParses then Some(MechTokenError)
    else if !c.mechTokenIsAPReq then Some(NotAPReq)
    else if !c.ticketDecrypts then Some(TicketDecryptError)
    else if !c.authenticatorDecrypts then Some(AuthenticatorDecryptError)
    else if !c.authenticatorParses then Some(AuthenticatorUnmarshalError)
    else None
  }

  // ---------------------------------------------------------------------
  // Responses

  /** The values the gate attaches to the request context for the handler. */
  datatype Identity = Identity(cname: string, crealm: string, authenticated: bool)

  /** Why a request was rejected: logged on the server, never sent to the client. */
  datatype Diagnostic = DecodeFailed(step: DecodeFailure) | AuthenticationFailed(err: Option<KrbError>)

  /**
   * What the gate does with the response writer: the status it writes (None
   * when it leaves that to the handler), the `WWW-Authenticate` value, the
   * body it writes, whether it calls the handler and with what identity,
   * and the diagnostic it logs.
   */
  datatype Response = Response(
    status: Option<int>,
    wwwAuthenticate: string,
    body: string,
    handler: Option<Identity>,
    logged: Option<Diagnostic>)

  /** What the client can see of a response: everything but the log. */
  datatype ClientView = ClientView(status: Option<int>, wwwAuthenticate: string, body: string, handler: Option<Identity>)

  function Visible(r: Response): ClientView
  {
    ClientView(r.status, r.wwwAuthenticate, r.body, r.handler)
  }

  /** The client's view of every rejection, whatever its cause. */
  const RejectView: ClientView := ClientView(Some(401), SPNEGO_NegTokenResp_Reject, UnauthorisedBody, None)

  /**
   * Both response tokens are Negotiate credentials (a scheme name, a space
   * and a non-empty token), and the client can tell the two apart.
   */
  lemma ResponseTokens()
    ensures HasNegotiatePrefix(SPNEGO_NegTokenResp_Krb_Accept_Completed)
    ensures HasNegotiatePrefix(SPNEGO_NegTokenResp_Reject)
    ensures |SPNEGO_NegTokenResp_Krb_Accept_Completed| > |NegotiatePrefix|
    ensures |SPNEGO_NegTokenResp_Reject| > |NegotiatePrefix|
    ensures SPNEGO_NegTokenResp_Krb_Accept_Completed != SPNEGO_NegTokenResp_Reject
  {
  }

  /**
   * The negotiation prompt sent when there is no Negotiate credential: 401,
   * a bare "Negotiate" scheme, the fixed body, no handler and nothing
   * logged; it is not the reject artifact.
   */
  function Challenge(): (r: Response)
    ensures r.status == Some(401) && r.wwwAuthenticate == "Negotiate" && r.body == UnauthorisedBody
    ensures r.handler == None && r.logged == None
    ensures Visible(r) != RejectView
  {
    Response(Some(401), "Negotiate", UnauthorisedBody, None, None)
  }

  /**
   * `rejectSPNEGO`: the cause is logged, and the client sees the same 401
   * with the reject token and the fixed body whatever that cause was.
   */
  function RejectSPNEGO(d: Diagnostic): (r: Response)
    ensures Visible(r) == RejectView
    ensures r.logged == Some(d)
  {
    Response(Some(401), SPNEGO_NegTokenResp_Reject, UnauthorisedBody, None, Some(d))
  }

  /**
   * The accept branch: the accept-completed header is set, the gate writes
   * no status and no body, and the handler is called with the client's
   * principal string, realm and authenticated = true.
   */
  function Accept(a: Authenticator): (r: Response)
    ensures r.status == None && r.body == "" && r.wwwAuthenticate == SPNEGO_NegTokenResp_Krb_Accept_Completed
    ensures r.handler == Some(Identity(PrincipalNameString(a.cname), a.crealm, true))
    ensures r.logged == None
    ensures Visible(r) != RejectView && Visible(r) != Visible(Challenge())
  {
    Response(None, SPNEGO_NegTokenResp_Krb_Accept_Completed, "",
             Some(Identity(PrincipalNameString(a.cname), a.crealm, true)), None)
  }

  // ---------------------------------------------------------------------
  // The gate

  /** A response together with the replay cache the request leaves behind. */
  datatype Outcome = Outcome(response: Response, cache: map<Fingerprint, Time>)

  /**
   * The gate's decision for a request whose Authorization header values are
   * `authorization`, whose token the external steps treat as `c`, arriving
   * at `now` with replay cache `seen`. The handler runs only with an
   * authenticated identity, every rejection looks the same to the client,
   * and the cache changes only through validation.
   */
  function Authenticate(authorization: seq<string>, c: Collaborators, now: Time, seen: map<Fingerprint, Time>): (o: Outcome)
    ensures o.response.handler.Some? ==> o.response.handler.value.authenticated
    ensures o.response.handler.None? ==> o.response.status == Some(401) && o.response.body == UnauthorisedBody
    ensures o.response.logged.Some? ==> Visible(o.response) == RejectView
    ensures seen.Keys <= o.cache.Keys <= seen.Keys + {FingerprintOf(c.apReq.ticket.sname, c.authenticator)}
  {
    if NegotiateToken(HeaderGet(authorization)).None? then
      Outcome(Challenge(), seen)
    else if FirstDecodeFailure(c).Some? then
      Outcome(RejectSPNEGO(DecodeFailed(FirstDecodeFailure(c).value)), seen)
    else
      var v := Validation(c.authenticator, c.apReq, now, seen);
      if v.result.ok then Outcome(Accept(c.authenticator), v.cache)
      else Outcome(RejectSPNEGO(AuthenticationFailed(v.result.err)), v.cache)
  }

  /** The gate serving one request against the shared replay cache. */
  method Serve(authorization: seq<string>, c: Collaborators, now: Time, cache: ReplayCache) returns (r: Response)
    modifies cache
    ensures r == Authenticate(authorization, c, now, old(cache.entries)).response
    ensures cache.entries == Authenticate(authorization, c, now, old(cache.entries)).cache
  {
    var s := SplitN2(HeaderGet(authorization), ' ');
    if |s| != 2 || s[0] != "Negotiate" {
      return Challenge();
    }
    var failure := FirstDecodeFailure(c);
    if failure.Some? {
      return RejectSPNEGO(DecodeFailed(failure.value));
    }
    var result := ValidateAPReq(c.authenticator, c.apReq, now, cache);
    if result.ok {
      return Accept(c.authenticator);
    }
    return RejectSPNEGO(AuthenticationFailed(result.err));
  }

  // ---------------------------------------------------------------------
  // Properties of the gate

  /**
   * Without a "Negotiate " credential the gate challenges: 401,
   * `WWW-Authenticate: Negotiate`, the fixed body, no handler, no cache
   * change; and it challenges in no other case.
   */
  lemma ChallengeExactly(authorization: seq<string>, c: Collaborators, now: Time, seen: map<Fingerprint, Time>)
    ensures Authenticate(authorization, c, now, seen).response.wwwAuthenticate == "Negotiate" <==>
              !HasNegotiatePrefix(HeaderGet(authorization))
    ensures !HasNegotiatePrefix(HeaderGet(authorization)) ==>
              && Authenticate(authorization, c, now, seen).response
                   == Response(Some(401), "Negotiate", UnauthorisedBody, None, None)
              && Authenticate(authorization, c, now, seen).cache == seen
  {
    NegotiateTokenExact(HeaderGet(authorization));
  }

  /**
   * A Negotiate credential whose decoding or decryption fails in any step
   * gets the reject artifact, naming that step in the log; the handler is
   * not called and the cache is unchanged.
   */
  lemma DecodeFailureRejects(authorization: seq<string>, c: Collaborators, now: Time, seen: map<Fingerprint, Time>)
    requires HasNegotiatePrefix(HeaderGet(authorization))
    requires FirstDecodeFailure(c).Some?
    ensures Visible(Authenticate(authorization, c, now, seen).response)
              == ClientView(Some(401), SPNEGO_NegTokenResp_Reject, UnauthorisedBody, None)
    ensures Authenticate(authorization, c, now, seen).response.logged == Some(DecodeFailed(FirstDecodeFailure(c).value))
    ensures Authenticate(authorization, c, now, seen).cache == seen
  {
    NegotiateTokenExact(HeaderGet(authorization));
  }

  /**
   * Once the authenticator and ticket are in hand, the gate accepts exactly
   * when `validateAPREQ` does: then the accept-completed header is set and
   * the handler is called once with cname, crealm and authenticated = true;
   * otherwise the reject artifact is sent, logging the validation error.
   */
  lemma DecodedFollowsValidation(authorization: seq<string>, c: Collaborators, now: Time, seen: map<Fingerprint, Time>)
    requires HasNegotiatePrefix(HeaderGet(authorization))
    requires FirstDecodeFailure(c) == None
    ensures var v := Validation(c.authenticator, c.apReq, now, seen);
            var r := Authenticate(authorization, c, now, seen);
            && r.cache == v.cache
            && (v.result.ok ==>
                  && r.response.wwwAuthenticate == SPNEGO_NegTokenResp_Krb_Accept_Completed
                  && r.response.handler == Some(Identity(PrincipalNameString(c.authenticator.cname), c.authenticator.crealm, true)))
            && (!v.result.ok ==>
                  && Visible(r.response) == RejectView
                  && r.response.logged == Some(AuthenticationFailed(v.result.err)))
  {
    NegotiateTokenExact(HeaderGet(authorization));
  }

  /**
   * The handler is called exactly when the header carries a Negotiate
   * credential, every external step succeeds and all five AP-REQ checks
   * pass.
   */
  lemma HandlerCalledExactly(authorization: seq<string>, c: Collaborators, now: Time, seen: map<Fingerprint, Time>)
    ensures Authenticate(authorization, c, now, seen).response.handler.Some? <==>
              && HasNegotiatePrefix(HeaderGet(authorization))
              && FirstDecodeFailure(c) == None
              && Acceptable(c.authenticator, c.apReq, now, seen)
  {
    NegotiateTokenExact(HeaderGet(authorization));
    AcceptsExactly(c.authenticator, c.apReq, now, seen);
  }

  /**
   * The client sees one of exactly three responses: the challenge, the one
   * reject artifact (whichever check failed), or acceptance. This holds of
   * the model; the source's panic on an empty mechanism list is not one of
   * its outcomes.
   */
  lemma ThreeResponses(authorization: seq<string>, c: Collaborators, now: Time, seen: map<Fingerprint, Time>)
    ensures var v := Visible(Authenticate(authorization, c, now, seen).response);
            || v == Visible(Challenge())
            || v == RejectView
            || v == Visible(Accept(c.authenticator))
  {
  }
}
