/**
 * The replay cache that `validateAPREQ` consults through
 * `GetReplayCache(d).IsReplay(d, sname, a)`: a map from authenticator
 * fingerprints to the instant each was first seen, with one
 * check-and-record operation.
 */
module ReplayCache {
  import opened GoTime
  import opened Kerberos

  /** What identifies one presentation of an authenticator to one service. */
  datatype Fingerprint = Fingerprint(
    sname: PrincipalName,
    cname: PrincipalName,
    crealm: string,
    ctime: Time,
    cusec: int64)

  function FingerprintOf(sname: PrincipalName, a: Authenticator): Fingerprint
  {
    Fingerprint(sname, a.cname, a.crealm, a.ctime, a.cusec)
  }

  /**
   * The cache after a check-and-record of `fp` at instant `at`: a known
   * fingerprint keeps its first sighting, an unknown one is added with
   * `at`, and every other entry is left as it was.
   */
  function Record(seen: map<Fingerprint, Time>, fp: Fingerprint, at: Time): (r: map<Fingerprint, Time>)
    ensures r.Keys == seen.Keys + {fp}
    ensures r[fp] == if fp in seen then seen[fp] else at
    ensures forall g :: g in seen && g != fp ==> r[g] == seen[g]
  {
    if fp in seen then seen else seen[fp := at]
  }

  class ReplayCache {
    /** Every fingerprint seen so far, with the instant it was first seen. */
    var entries: map<Fingerprint, Time>

    constructor ()
      ensures entries == map[]
    {
      entries := map[];
    }

    /**
     * Reports whether `fp` was already present; if it was not, inserts it
     * with instant `at`. The result and the new state are decided in one step.
     */
    method CheckAndRecord(fp: Fingerprint, at: Time) returns (replay: bool)
      modifies this
      ensures replay <==> fp in old(entries)
      ensures entries == Record(old(entries), fp, at)
    {
      replay := fp in entries;
      if !replay {
        entries := entries[fp := at];
      }
    }

    /**
     * Check-and-record of each call in turn, one completing before the next
     * begins; the verdicts are those of `Verdicts` from the cache as it was.
     */
    method CheckAndRecordEach(calls: seq<(Fingerprint, Time)>) returns (vs: seq<bool>)
      modifies this
      ensures vs == Verdicts(old(entries), calls)
      ensures |vs| == |calls|
    {
      vs := [];
      var i := 0;
      while i < |calls|
        invariant 0 <= i <= |calls|
        invariant vs + Verdicts(entries, calls[i..]) == Verdicts(old(entries), calls)
      {
        assert calls[i..][1..] == calls[i + 1..];
        var replay := CheckAndRecord(calls[i].0, calls[i].1);
        vs := vs + [replay];
        i := i + 1;
      }
      assert calls[i..] == [];
    }
  }

  /**
   * The replay verdicts of a series of check-and-record calls served one
   * after another, starting from the cache `seen`. Concurrent requests
   * reduce to such a series only if each check-and-record is atomic, which
   * is assumed here, not modelled.
   */
  function Verdicts(seen: map<Fingerprint, Time>, calls: seq<(Fingerprint, Time)>): (r: seq<bool>)
    ensures |r| == |calls|
    decreases |calls|
  {
    if |calls| == 0 then []
    else [calls[0].0 in seen] + Verdicts(Record(seen, calls[0].0, calls[0].1), calls[1..])
  }

  /**
   * Once a fingerprint has been presented, every later presentation of it
   * is reported as a replay: of any series of calls, at most the first
   * presentation of a fingerprint is found fresh.
   */
  lemma {:induction false} FreshAtMostOnce(seen: map<Fingerprint, Time>, calls: seq<(Fingerprint, Time)>, i: nat, j: nat)
    requires i < j < |calls|
    requires calls[i].0 == calls[j].0
    ensures Verdicts(seen, calls)[j]
    decreases |calls|
  {
    var next := Record(seen, calls[0].0, calls[0].1);
    if i == 0 {
      SeenStaysSeen(next, calls[1..], calls[0].0, j - 1);
    } else {
      FreshAtMostOnce(next, calls[1..], i - 1, j - 1);
    }
  }

  /** A fingerprint in the cache is reported as a replay by every later call presenting it. */
  lemma {:induction false} SeenStaysSeen(seen: map<Fingerprint, Time>, calls: seq<(Fingerprint, Time)>, fp: Fingerprint, j: nat)
    requires fp in seen
    requires j < |calls| && calls[j].0 == fp
    ensures Verdicts(seen, calls)[j]
    decreases |calls|
  {
    if j > 0 {
      SeenStaysSeen(Record(seen, calls[0].0, calls[0].1), calls[1..], fp, j - 1);
    }
  }

  /**
   * A fingerprint not in the cache and not presented earlier in the series
   * is reported fresh, whatever other fingerprints the series presents.
   */
  lemma {:induction false} ReplayOnlyIfSeen(seen: map<Fingerprint, Time>, calls: seq<(Fingerprint, Time)>, j: nat)
    requires j < |calls| && calls[j].0 !in seen
    requires forall i :: 0 <= i < j ==> calls[i].0 != calls[j].0
    ensures !Verdicts(seen, calls)[j]
    decreases |calls|
  {
    if j > 0 {
      ReplayOnlyIfSeen(Record(seen, calls[0].0, calls[0].1), calls[1..], j - 1);
    }
  }

  /**
   * In any series of calls made one after another, a call is reported as a
   * replay exactly when its fingerprint was in the cache at the start or
   * was presented by an earlier call of the series.
   */
  lemma ReplayExactly(seen: map<Fingerprint, Time>, calls: seq<(Fingerprint, Time)>, j: nat)
    requires j < |calls|
    ensures Verdicts(seen, calls)[j] <==>
              calls[j].0 in seen || exists i :: 0 <= i < j && calls[i].0 == calls[j].0
  {
    if calls[j].0 in seen {
      SeenStaysSeen(seen, calls, calls[j].0, j);
    } else if i :| 0 <= i < j && calls[i].0 == calls[j].0 {
      FreshAtMostOnce(seen, calls, i, j);
    } else {
      ReplayOnlyIfSeen(seen, calls, j);
    }
  }

  /**
   * In a series of calls made one after another, of the presentations of a
   * fingerprint not yet in the cache, the first is fresh and every later
   * one is a replay, whatever other fingerprints are presented in between.
   */
  lemma {:induction false} FirstPresentationOnlyIsFresh(seen: map<Fingerprint, Time>, calls: seq<(Fingerprint, Time)>, fp: Fingerprint, first: nat)
    requires fp !in seen
    requires first < |calls| && calls[first].0 == fp
    requires forall i :: 0 <= i < first ==> calls[i].0 != fp
    ensures !Verdicts(seen, calls)[first]
    ensures forall j :: first < j < |calls| && calls[j].0 == fp ==> Verdicts(seen, calls)[j]
  {
    ReplayOnlyIfSeen(seen, calls, first);
    forall j | first < j < |calls| && calls[j].0 == fp
      ensures Verdicts(seen, calls)[j]
    {
      FreshAtMostOnce(seen, calls, first, j);
    }
  }
}
