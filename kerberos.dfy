/**
 * The Kerberos values an AP-REQ carries once its ticket and authenticator
 * have been decrypted (RFC 4120 sections 5.3 and 5.5.1), and the error
 * codes of section 7.5.9 of RFC 4120 that the acceptance checks return.
 */
module Kerberos {
  import opened GoTime

  /** A principal name: a name type and its name-string components. */
  datatype PrincipalName = PrincipalName(nameType: int, nameString: seq<string>)

  /**
   * Principal equivalence, the model's reading of `PrincipalName.Equal`
   * (whose definition is not part of this model): the name type is not
   * significant (section 6.2 of RFC 4120), the components are.
   */
  predicate SamePrincipal(p: PrincipalName, q: PrincipalName)
  {
    p.nameString == q.nameString
  }

  /** The components joined by "/": the text form handed to the downstream handler. */
  function PrincipalNameString(p: PrincipalName): string
  {
    Join(p.nameString)
  }

  function Join(parts: seq<string>): string
  {
    if |parts| == 0 then ""
    else if |parts| == 1 then parts[0]
    else parts[0] + "/" + Join(parts[1..])
  }

  /** The decrypted authenticator: client principal, realm and timestamp. */
  datatype Authenticator = Authenticator(
    cname: PrincipalName,
    crealm: string,
    ctime: Time,     // the authenticator's KerberosTime
    cusec: int64)    // its microsecond part, kept apart as on the wire

  /** Ticket flag bit positions (section 5.3 of RFC 4120). */
  const TicketFlagInvalid: nat := 7

  /** The flags of a ticket, as the set of bit positions that are set. */
  predicate IsFlagSet(flags: set<nat>, bit: nat)
  {
    bit in flags
  }

  /** The decrypted part of a service ticket. */
  datatype EncTicketPart = EncTicketPart(
    cname: PrincipalName,
    flags: set<nat>,
    startTime: Time,
    endTime: Time)

  datatype Ticket = Ticket(realm: string, sname: PrincipalName, decryptedEncPart: EncTicketPart)

  /** The AP-REQ, after `Ticket.DecryptEncPart` has filled in the ticket's decrypted part. */
  datatype APReq = APReq(ticket: Ticket)

  /** Error codes of section 7.5.9 of RFC 4120 that the AP-REQ checks use. */
  const KRB_AP_ERR_TKT_EXPIRED: int := 32
  const KRB_AP_ERR_TKT_NYV: int := 33
  const KRB_AP_ERR_REPEAT: int := 34
  const KRB_AP_ERR_BADMATCH: int := 36
  const KRB_AP_ERR_SKEW: int := 37

  /** A KRB-ERROR as `messages.NewKRBError` builds it: server name, realm, code and text (its STime and Susec are not kept). */
  datatype KrbError = KrbError(sname: PrincipalName, realm: string, errorCode: int, eText: string)
}
