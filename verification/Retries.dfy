/** How often the withdrawal of an old association can fail before the rollover is closed by force. */
module Retries {
  import opened Prelude
  import opened Names
  import opened RolloverProtocol
  import opened Cloud
  import opened CertCloset
  import opened Backoff
  import opened Turns
  import opened Runs

  /** The run whose turn of the domain, turn p, gave up withdrawing. */
  predicate GaveUp(r: Run, p: nat) {
    p < |r.outcomes| && r.outcomes[p].kind.Advance? && r.outcomes[p].kind.gaveUp
  }

  /** How many of the first n runs gave up withdrawing. */
  function Retries(runs: seq<Run>, at: seq<nat>, n: nat): nat
    requires n <= |runs| == |at|
  {
    if n == 0 then 0 else Retries(runs, at, n - 1) + if GaveUp(runs[n - 1], at[n - 1]) then 1 else 0
  }

  /** Run i has a turn of the domain, which finds this record. */
  ghost predicate Visits(t: Terms, r: Run, p: nat, d: string, rec: RolloverState) {
    RunOf(t, r) && p < |r.domains| && r.domains[p] == d && RecordAt(r.trace[0].s3, d) == Some(rec)
  }

  /** Failures persist: the earlier run could save them, the later one could load them. */
  ghost predicate Remembered(r: Run, s: Run)
    requires |s.trace| > 0
  {
    && r.end.now <= s.start.now
    && FailuresSaved(r.end) && StoredFailures(s.start.s3) == StoredFailures(r.end.s3)
    && s.trace[0].lastFailure == StoredFailures(s.start.s3)
  }

  /** Within one process it takes a save that succeeded and a load that succeeded. */
  lemma ProcessRemembers(t: Terms, runs: seq<Run>, i: nat)
    requires History(t, runs) && i < |runs| - 1
    ensures RunOf(t, runs[i + 1])
    ensures Remembered(runs[i], runs[i + 1]) <==>
              FailuresSaved(runs[i].end) && runs[i + 1].trace[0].lastFailure == StoredFailures(runs[i + 1].start.s3)
  {
    assert Succeeds(runs[i].end, runs[i + 1].start);
  }

  /** Successive runs, of one process or of several, while a domain has one and the same record. */
  ghost predicate Series(t: Terms, runs: seq<Run>, at: seq<nat>, d: string, rec: RolloverState) {
    && |runs| == |at| && t.cfg.dnsEnabled && !IsWildcard(d)
    && !t.cfg.forceRenewOnFailure && t.cfg.failureBackoffMinutes > 0
    && (forall i :: 0 <= i < |runs| ==> Visits(t, runs[i], at[i], d, rec))
    && (forall i, j :: 0 <= i < |runs| - 1 && j == i + 1 ==> Remembered(runs[i], runs[j]))
  }

  function Gap(t: Terms): int {
    t.cfg.failureBackoffMinutes * MINUTE - SECOND
  }

  /** The entry says that a failure was noted at some instant, not before another. */
  predicate StampedSince(lastFailure: map<string, Stamp>, d: string, noted: int, since: int) {
    d in lastFailure && lastFailure[d] == StampOf(noted) && since <= noted
  }

  /** One visit: unless the gate is shut it comes a backoff after the failure noted before. */
  lemma OneVisit(t: Terms, r: Run, p: nat, d: string, rec: RolloverState, noted: int, since: int) returns (noted': int)
    requires Visits(t, r, p, d, rec) && t.cfg.dnsEnabled && !IsWildcard(d)
    requires !t.cfg.forceRenewOnFailure && t.cfg.failureBackoffMinutes > 0
    requires StampedSince(r.trace[0].lastFailure, d, noted, since)
    ensures !GaveUp(r, p) ==> StampedSince(r.end.lastFailure, d, noted', since)
    ensures GaveUp(r, p) ==> var tried := r.outcomes[p].kind.tried;
              tried - noted > Gap(t) && StampedSince(r.end.lastFailure, d, noted', tried)
  {
    var a, b, o := r.trace[p], r.trace[p + 1], r.outcomes[p];
    AroundTurn(t, r, p);
    assert d in r.domains;
    noted' := if o.failed then o.noted else noted;
    if !o.kind.Shut? {
      GateStaysShut(a.lastFailure, d, t.cfg.failureBackoffMinutes, noted, a.now);
    }
  }

  lemma FirstVisit(t: Terms, r: Run, p: nat, d: string, rec: RolloverState) returns (noted: int)
    requires Visits(t, r, p, d, rec) && GaveUp(r, p)
    ensures StampedSince(r.end.lastFailure, d, noted, r.outcomes[p].kind.tried)
  {
    AroundTurn(t, r, p);
    assert d in r.domains;
    noted := r.outcomes[p].noted;
  }

  /** Giving up happens after the sync lag and before ten times that. */
  lemma GivingUpInTime(t: Terms, r: Run, p: nat, d: string, rec: RolloverState)
    requires Visits(t, r, p, d, rec) && GaveUp(r, p)
    ensures rec.phase.CertSwitched?
    ensures rec.lagSeconds * SECOND <= r.outcomes[p].kind.tried - rec.startedAt < 10 * rec.lagSeconds * SECOND
  {
    AroundTurn(t, r, p);
    assert d in r.domains;
  }

  /** After n runs: the first and the last of k attempts, and the failure that is remembered. */
  ghost predicate SpacedOut(t: Terms, lastFailure: map<string, Stamp>, d: string, rec: RolloverState, k: nat,
                            first: int, last: int, noted: int) {
    k > 0 ==>
      && StampedSince(lastFailure, d, noted, last)
      && rec.lagSeconds * SECOND <= first - rec.startedAt && last - rec.startedAt < 10 * rec.lagSeconds * SECOND
      && last - first >= (k - 1) * Gap(t)
  }

  lemma OneMore(t: Terms, r: Run, p: nat, d: string, rec: RolloverState, k: nat, first: int, last: int, noted: int)
    returns (first': int, last': int, noted': int)
    requires Visits(t, r, p, d, rec) && t.cfg.dnsEnabled && !IsWildcard(d)
    requires !t.cfg.forceRenewOnFailure && t.cfg.failureBackoffMinutes > 0
    requires SpacedOut(t, r.trace[0].lastFailure, d, rec, k, first, last, noted)
    ensures SpacedOut(t, r.end.lastFailure, d, rec, k + if GaveUp(r, p) then 1 else 0, first', last', noted')
  {
    first', last', noted' := first, last, noted;
    if GaveUp(r, p) { GivingUpInTime(t, r, p, d, rec); }
    if k > 0 {
      noted' := OneVisit(t, r, p, d, rec, noted, last);
      if GaveUp(r, p) {
        assert k * Gap(t) == (k - 1) * Gap(t) + Gap(t);
        last' := r.outcomes[p].kind.tried;
      }
    } else if GaveUp(r, p) {
      noted' := FirstVisit(t, r, p, d, rec);
      first', last' := r.outcomes[p].kind.tried, r.outcomes[p].kind.tried;
    }
  }

  /** The attempts so far lie a backoff apart, and the last of them is still remembered. */
  lemma {:induction false} Spread(t: Terms, runs: seq<Run>, at: seq<nat>, d: string, rec: RolloverState, n: nat)
    returns (first: int, last: int, noted: int)
    requires Series(t, runs, at, d, rec) && 0 < n <= |runs|
    ensures SpacedOut(t, runs[n - 1].end.lastFailure, d, rec, Retries(runs, at, n), first, last, noted)
  {
    assert Visits(t, runs[n - 1], at[n - 1], d, rec);
    first, last, noted := 0, 0, 0;
    if n > 1 {
      first, last, noted := Spread(t, runs, at, d, rec, n - 1);
      assert Remembered(runs[n - 2], runs[n - 1]);
    }
    first, last, noted := OneMore(t, runs[n - 1], at[n - 1], d, rec, Retries(runs, at, n - 1), first, last, noted);
  }

  /**
    With failures persisted and no forced renewal, at most ceil(9L / (B - 1s)) runs of one rollover
    give up withdrawing, for backoff B and sync lag L; after that the record is closed by force.
   */
  lemma BoundedWithdrawalRetries(t: Terms, runs: seq<Run>, at: seq<nat>, d: string, rec: RolloverState)
    requires Series(t, runs, at, d, rec)
    ensures var k := Retries(runs, at, |runs|);
            k == 0 || k <= (9 * rec.lagSeconds * SECOND + Gap(t) - 1) / Gap(t)
  {
    var k := Retries(runs, at, |runs|);
    if k > 0 {
      var first, last, noted := Spread(t, runs, at, d, rec, |runs|);
      CeilingBound(k, Gap(t), 9 * rec.lagSeconds * SECOND);
    }
  }
}
