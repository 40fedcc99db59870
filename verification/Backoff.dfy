/** The timed gate that keeps a domain from being attempted again soon after a failure. */
module Backoff {
  import opened Prelude
  import opened Cloud

  /** RFC 3339 text has no fraction of a second. */
  function StampOf(now: int): Stamp {
    At(now / SECOND)
  }

  predicate InBackoff(lastFailure: map<string, Stamp>, domain: string, minutes: int, now: int) {
    && minutes > 0
    && domain in lastFailure
    && lastFailure[domain].At?
    && now - lastFailure[domain].seconds * SECOND < minutes * MINUTE
  }

  /** The failure times that the process holds in memory and writes to the bucket. */
  class FailureState {
    var lastFailure: map<string, Stamp>

    constructor (lastFailure: map<string, Stamp>)
      ensures this.lastFailure == lastFailure
    {
      this.lastFailure := lastFailure;
    }

    method RecordFailure(domain: string, now: int)
      modifies this
      ensures lastFailure == old(lastFailure)[domain := StampOf(now)]
    {
      lastFailure := lastFailure[domain := StampOf(now)];
    }

    method ClearFailure(domain: string)
      modifies this
      ensures lastFailure == old(lastFailure) - {domain}
    {
      lastFailure := lastFailure - {domain};
    }
  }

  /**
    Once a failure is recorded, the gate stays shut for the whole backoff less the lost fraction of a
    second, whatever other domains record in between.
   */
  lemma GateStaysShut(recorded: map<string, Stamp>, domain: string, minutes: int, failed: int, now: int)
    requires minutes > 0 && domain in recorded && recorded[domain] == StampOf(failed)
    requires !InBackoff(recorded, domain, minutes, now)
    ensures now - failed > minutes * MINUTE - SECOND
  {
  }

  /**
    After a failure the gate is shut until the backoff has passed since the whole second of the failure;
    without a backoff, an entry, or a readable one it is open.
   */
  lemma GateOpensIff(recorded: map<string, Stamp>, domain: string, minutes: int, failed: int, now: int)
    ensures InBackoff(recorded, domain, minutes, now) ==> minutes > 0 && domain in recorded && recorded[domain].At?
    ensures domain in recorded && recorded[domain] == StampOf(failed) ==>
              (InBackoff(recorded, domain, minutes, now) <==>
                 minutes > 0 && now < failed - failed % SECOND + minutes * 60 * SECOND)
  {
  }

  lemma CeilingBound(n: int, gap: int, window: int)
    requires n > 0 && gap > 0 && (n - 1) * gap < window
    ensures n <= (window + gap - 1) / gap
  {
    var q := (window + gap - 1) / gap;
    if q <= n - 1 {
      assert q * gap <= (n - 1) * gap by { MulMonotone(q, n - 1, gap); }
    }
  }
}
