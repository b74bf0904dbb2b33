/**
 * `validateAPREQ`: the acceptance rules of section 3.2.3 of RFC 4120 applied
 * to a decrypted authenticator and ticket, in a fixed order, the first
 * failing rule deciding the error:
 *   principal match  -> KRB_AP_ERR_BADMATCH
 *   clock skew       -> KRB_AP_ERR_SKEW
 *   replay           -> KRB_AP_ERR_REPEAT
 *   not yet valid    -> KRB_AP_ERR_TKT_NYV
 *   expired          -> KRB_AP_ERR_TKT_EXPIRED
 * The wall clock is read once, so `now` is a parameter; the replay cache is
 * the only state the validation changes.
 */
module Validate {
  import opened Wrappers
  import opened GoTime
  import opened Kerberos
  import opened ReplayCache

  /** The maximum clock skew, hard-coded to five minutes. */
  const MaxSkew: Duration := 5 * Minute

  /**
   * `ct`: the authenticator's timestamp plus its microseconds, the offset
   * being a wrapped Duration; for a microsecond field in 0..999999 it is
   * exactly that many microseconds.
   */
  function AuthenticatorTime(a: Authenticator): (ct: Time)
    ensures MinInt64 <= ct - a.ctime <= MaxInt64
    ensures 0 <= a.cusec <= 999_999 ==> ct == a.ctime + a.cusec * 1000
  {
    Add(a.ctime, MulDuration(a.cusec, Microsecond))
  }

  /**
   * The skew test on Go's saturating differences; it rejects exactly when
   * the two instants are more than `MaxSkew` apart, in either direction.
   */
  function SkewTooLarge(now: Time, ct: Time): (r: bool)
    ensures r <==> !WithinSkew(now, ct)
  {
    SubExceedsExactly(now, ct, MaxSkew);
    SubExceedsExactly(ct, now, MaxSkew);
    Sub(now, ct) > MaxSkew || Sub(ct, now) > MaxSkew
  }

  /**
   * The not-yet-valid test; it rejects exactly when the ticket starts more
   * than `MaxSkew` in the future or carries the Invalid flag.
   */
  function NotYetValid(enc: EncTicketPart, now: Time): (r: bool)
    ensures r <==> !Started(enc, now)
  {
    SubExceedsExactly(enc.startTime, now, MaxSkew);
    Sub(enc.startTime, now) > MaxSkew || IsFlagSet(enc.flags, TicketFlagInvalid)
  }

  /** The expiry test; it rejects exactly when the ticket ended more than `MaxSkew` ago. */
  function Expired(enc: EncTicketPart, now: Time): (r: bool)
    ensures r <==> !Unexpired(enc, now)
  {
    SubExceedsExactly(now, enc.endTime, MaxSkew);
    Sub(now, enc.endTime) > MaxSkew
  }

  /** Go's `(bool, error)` result of `validateAPREQ`. */
  datatype ValidationResult = ValidationResult(ok: bool, err: Option<KrbError>)

  /** A validation's result together with the replay cache it leaves behind. */
  datatype Validated = Validated(result: ValidationResult, cache: map<Fingerprint, Time>)

  const BadMatchText: string := "CName in Authenticator does not match that in service ticket"
  const SkewText: string := "Clock skew with client too large. Greater than 5m0s seconds"
  const ReplayText: string := "Replay detected"
  const NotYetValidText: string := "Service ticket provided is not yet valid"
  const ExpiredText: string := "Service ticket provided has expired"

  /**
   * `return false, NewKRBError(SName, Realm, code, text)`: a rejection whose
   * error names the ticket's server principal and realm.
   */
  function Failure(tkt: Ticket, code: int, text: string): ValidationResult
  {
    ValidationResult(false, Some(KrbError(tkt.sname, tkt.realm, code, text)))
  }

  /** Whether the principal and skew checks pass, so that the replay cache is consulted. */
  predicate ReachesReplayCheck(a: Authenticator, apReq: APReq, now: Time)
  {
    SamePrincipal(a.cname, apReq.ticket.decryptedEncPart.cname) && !SkewTooLarge(now, AuthenticatorTime(a))
  }

  /**
   * The outcome of `validateAPREQ(a, apReq)` at instant `now` against the
   * replay cache `seen`. An accepted result carries no error, a rejected one
   * an error naming the ticket's server and realm with one of the five
   * codes, and the cache only ever gains this authenticator's fingerprint.
   */
  function Validation(a: Authenticator, apReq: APReq, now: Time, seen: map<Fingerprint, Time>): (v: Validated)
    ensures v.result.ok <==> v.result.err == None
    ensures v.result.err.Some? ==>
              && v.result.err.value.sname == apReq.ticket.sname
              && v.result.err.value.realm == apReq.ticket.realm
              && v.result.err.value.errorCode in {KRB_AP_ERR_BADMATCH, KRB_AP_ERR_SKEW, KRB_AP_ERR_REPEAT,
                                                  KRB_AP_ERR_TKT_NYV, KRB_AP_ERR_TKT_EXPIRED}
    ensures seen.Keys <= v.cache.Keys <= seen.Keys + {FingerprintOf(apReq.ticket.sname, a)}
    ensures forall g :: g in seen ==> v.cache[g] == seen[g]
  {
    var tkt := apReq.ticket;
    var enc := tkt.decryptedEncPart;
    if !SamePrincipal(a.cname, enc.cname) then
      Validated(Failure(tkt, KRB_AP_ERR_BADMATCH, BadMatchText), seen)
    else if SkewTooLarge(now, AuthenticatorTime(a)) then
      Validated(Failure(tkt, KRB_AP_ERR_SKEW, SkewText), seen)
    else if FingerprintOf(apReq.ticket.sname, a) in seen then
      Validated(Failure(tkt, KRB_AP_ERR_REPEAT, ReplayText), seen)
    else
      var recorded := Record(seen, FingerprintOf(apReq.ticket.sname, a), now);
      if NotYetValid(enc, now) then
        Validated(Failure(tkt, KRB_AP_ERR_TKT_NYV, NotYetValidText), recorded)
      else if Expired(enc, now) then
        Validated(Failure(tkt, KRB_AP_ERR_TKT_EXPIRED, ExpiredText), recorded)
      else
        Validated(ValidationResult(true, None), recorded)
  }

  /** `validateAPREQ`, consulting and updating the shared replay cache. */
  method ValidateAPReq(a: Authenticator, apReq: APReq, now: Time, cache: ReplayCache) returns (r: ValidationResult)
    modifies cache
    ensures r == Validation(a, apReq, now, old(cache.entries)).result
    ensures cache.entries == Validation(a, apReq, now, old(cache.entries)).cache
  {
    var tkt := apReq.ticket;
    var enc := tkt.decryptedEncPart;
    if !SamePrincipal(a.cname, enc.cname) {
      return Failure(tkt, KRB_AP_ERR_BADMATCH, BadMatchText);
    }
    var ct := AuthenticatorTime(a);
    var d := MaxSkew;
    if Sub(now, ct) > d || Sub(ct, now) > d {
      return Failure(tkt, KRB_AP_ERR_SKEW, SkewText);
    }
    var replay := cache.CheckAndRecord(FingerprintOf(tkt.sname, a), now);
    if replay {
      return Failure(tkt, KRB_AP_ERR_REPEAT, ReplayText);
    }
    if Sub(enc.startTime, now) > d || IsFlagSet(enc.flags, TicketFlagInvalid) {
      return Failure(tkt, KRB_AP_ERR_TKT_NYV, NotYetValidText);
    }
    if Sub(now, enc.endTime) > d {
      return Failure(tkt, KRB_AP_ERR_TKT_EXPIRED, ExpiredText);
    }
    return ValidationResult(true, None);
  }

  // ---------------------------------------------------------------------
  // The checks in plain integer arithmetic, independent of Go's saturation
  // and of the order of evaluation.

  /** The result is a rejection carrying error code `code`. */
  predicate HasCode(r: ValidationResult, code: int)
  {
    r.err.Some? && r.err.value.errorCode == code
  }

  /** The authenticator time is within `MaxSkew` of `now`, in either direction. */
  predicate WithinSkew(now: Time, ct: Time)
  {
    -MaxSkew <= now - ct <= MaxSkew
  }

  /** The ticket starts no more than `MaxSkew` in the future and is not flagged invalid. */
  predicate Started(enc: EncTicketPart, now: Time)
  {
    enc.startTime - now <= MaxSkew && TicketFlagInvalid !in enc.flags
  }

  /** The ticket ended no more than `MaxSkew` ago. */
  predicate Unexpired(enc: EncTicketPart, now: Time)
  {
    now - enc.endTime <= MaxSkew
  }

  /** Everything section 3.2.3 of RFC 4120 (as implemented) demands of an AP-REQ. */
  predicate Acceptable(a: Authenticator, apReq: APReq, now: Time, seen: map<Fingerprint, Time>)
  {
    var enc := apReq.ticket.decryptedEncPart;
    && SamePrincipal(a.cname, enc.cname)
    && WithinSkew(now, AuthenticatorTime(a))
    && FingerprintOf(apReq.ticket.sname, a) !in seen
    && Started(enc, now)
    && Unexpired(enc, now)
  }

  /** A difference of exactly `MaxSkew`, either way, passes the skew check (the comparison is strict). */
  lemma SkewBoundaryPasses(now: Time)
    ensures !SkewTooLarge(now, now - MaxSkew)
    ensures !SkewTooLarge(now, now + MaxSkew)
    ensures SkewTooLarge(now, now - MaxSkew - 1)
    ensures SkewTooLarge(now, now + MaxSkew + 1)
  {
  }

  /** `validateAPREQ` accepts exactly when all five checks pass. */
  lemma AcceptsExactly(a: Authenticator, apReq: APReq, now: Time, seen: map<Fingerprint, Time>)
    ensures Validation(a, apReq, now, seen).result.ok <==> Acceptable(a, apReq, now, seen)
    ensures Validation(a, apReq, now, seen).result.ok ==> Validation(a, apReq, now, seen).result.err == None
  {
  }

  /**
   * Each error code is returned exactly when every earlier check passed and
   * its own check failed, so the first failing check decides the error.
   */
  lemma FirstFailureDecides(a: Authenticator, apReq: APReq, now: Time, seen: map<Fingerprint, Time>)
    ensures HasCode(Validation(a, apReq, now, seen).result, KRB_AP_ERR_BADMATCH) <==>
              !SamePrincipal(a.cname, apReq.ticket.decryptedEncPart.cname)
    ensures HasCode(Validation(a, apReq, now, seen).result, KRB_AP_ERR_SKEW) <==>
              && SamePrincipal(a.cname, apReq.ticket.decryptedEncPart.cname)
              && !WithinSkew(now, AuthenticatorTime(a))
    ensures HasCode(Validation(a, apReq, now, seen).result, KRB_AP_ERR_REPEAT) <==>
              && SamePrincipal(a.cname, apReq.ticket.decryptedEncPart.cname)
              && WithinSkew(now, AuthenticatorTime(a))
              && FingerprintOf(apReq.ticket.sname, a) in seen
    ensures HasCode(Validation(a, apReq, now, seen).result, KRB_AP_ERR_TKT_NYV) <==>
              && SamePrincipal(a.cname, apReq.ticket.decryptedEncPart.cname)
              && WithinSkew(now, AuthenticatorTime(a))
              && FingerprintOf(apReq.ticket.sname, a) !in seen
              && !Started(apReq.ticket.decryptedEncPart, now)
    ensures HasCode(Validation(a, apReq, now, seen).result, KRB_AP_ERR_TKT_EXPIRED) <==>
              && SamePrincipal(a.cname, apReq.ticket.decryptedEncPart.cname)
              && WithinSkew(now, AuthenticatorTime(a))
              && FingerprintOf(apReq.ticket.sname, a) !in seen
              && Started(apReq.ticket.decryptedEncPart, now)
              && !Unexpired(apReq.ticket.decryptedEncPart, now)
  {
  }

  /**
   * The replay cache is consulted only once the principal and skew checks
   * pass; then a fresh fingerprint is recorded at `now`, whatever the later
   * checks decide. Otherwise the cache is left exactly as it was.
   */
  lemma CacheEffect(a: Authenticator, apReq: APReq, now: Time, seen: map<Fingerprint, Time>)
    ensures Validation(a, apReq, now, seen).cache ==
              if ReachesReplayCheck(a, apReq, now) && FingerprintOf(apReq.ticket.sname, a) !in seen
              then seen[FingerprintOf(apReq.ticket.sname, a) := now]
              else seen
  {
  }

  /** A principal mismatch is rejected with KRB_AP_ERR_BADMATCH and leaves the cache untouched. */
  lemma BadMatchLeavesCache(a: Authenticator, apReq: APReq, now: Time, seen: map<Fingerprint, Time>)
    requires !SamePrincipal(a.cname, apReq.ticket.decryptedEncPart.cname)
    ensures Validation(a, apReq, now, seen) ==
              Validated(Failure(apReq.ticket, KRB_AP_ERR_BADMATCH, BadMatchText), seen)
  {
  }

  /**
   * With matching principals, an authenticator time more than `MaxSkew`
   * away from `now` is rejected with KRB_AP_ERR_SKEW, whatever the other
   * fields hold, and the cache is untouched.
   */
  lemma SkewLeavesCache(a: Authenticator, apReq: APReq, now: Time, seen: map<Fingerprint, Time>)
    requires SamePrincipal(a.cname, apReq.ticket.decryptedEncPart.cname)
    requires !WithinSkew(now, AuthenticatorTime(a))
    ensures Validation(a, apReq, now, seen) ==
              Validated(Failure(apReq.ticket, KRB_AP_ERR_SKEW, SkewText), seen)
  {
  }

  /**
   * A rejection, for any reason, changes nothing another fingerprint can
   * observe: which other fingerprints are present, and when they were seen.
   */
  lemma OtherFingerprintsUnaffected(a: Authenticator, apReq: APReq, now: Time, seen: map<Fingerprint, Time>, g: Fingerprint)
    requires g != FingerprintOf(apReq.ticket.sname, a)
    ensures g in Validation(a, apReq, now, seen).cache <==> g in seen
    ensures g in seen ==> Validation(a, apReq, now, seen).cache[g] == seen[g]
  {
  }

  /**
   * An AP-REQ whose fingerprint is still in the cache is rejected as a
   * replay, with the cache unchanged, by any validation that passes the
   * principal and skew checks. A validation that reached the replay check
   * leaves its fingerprint in the cache, and no validation removes one, so
   * in this model, whose cache never evicts, an accepted AP-REQ is accepted
   * once, whatever other validations run in between.
   */
  lemma {:induction false} SecondPresentationIsReplay(a: Authenticator, apReq: APReq, now1: Time, now2: Time,
                                                      seen: map<Fingerprint, Time>, later: map<Fingerprint, Time>)
    requires ReachesReplayCheck(a, apReq, now1)
    requires Validation(a, apReq, now1, seen).cache.Keys <= later.Keys
    requires WithinSkew(now2, AuthenticatorTime(a))
    ensures Validation(a, apReq, now2, later) ==
              Validated(Failure(apReq.ticket, KRB_AP_ERR_REPEAT, ReplayText), later)
  {
    CacheEffect(a, apReq, now1, seen);
  }
}
