/** What the turns of one run of the renewing loop add up to. */
module Runs {
  import opened Prelude
  import opened Names
  import opened RolloverProtocol
  import opened Cloud
  import opened CertCloset
  import opened Backoff
  import opened Calendar
  import opened Turns

  /** trace[i] is what there is before turn i; start is before the failure times are loaded, end after the last save. */
  datatype Run = Run(domains: seq<string>, outcomes: seq<Outcome>, trace: seq<Snapshot>, start: Snapshot, end: Snapshot)

  function Total(outcomes: seq<Outcome>): nat {
    if outcomes == [] then 0 else Total(outcomes[..|outcomes| - 1]) + Renewed(outcomes[|outcomes| - 1])
  }

  function FailedAmong(domains: seq<string>, outcomes: seq<Outcome>): seq<string>
    requires |outcomes| <= |domains|
  {
    if outcomes == [] then []
    else
      var n := |outcomes| - 1;
      FailedAmong(domains, outcomes[..n]) + if outcomes[n].failed then [domains[n]] else []
  }

  ghost predicate TurnAt(t: Terms, domains: seq<string>, outcomes: seq<Outcome>, trace: seq<Snapshot>, i: nat)
    requires i < |outcomes| <= |domains| && |trace| == |outcomes| + 1
  {
    TurnOf(t, trace[i], trace[i + 1], domains[i], outcomes[i])
  }

  /** The turns of the first |outcomes| domains, one after the other. */
  ghost predicate Ledger(t: Terms, domains: seq<string>, outcomes: seq<Outcome>, trace: seq<Snapshot>) {
    && |outcomes| <= |domains| && |trace| == |outcomes| + 1
    && forall i: nat :: i < |outcomes| ==> TurnAt(t, domains, outcomes, trace, i)
  }

  /** Such a turn takes at least the configured pause, or three seconds, if another came before it in the run. */
  ghost predicate Paced(cfg: RenewConfig, outcomes: seq<Outcome>, trace: seq<Snapshot>) {
    && |trace| == |outcomes| + 1
    && forall p, q :: 0 <= p < q < |outcomes| && Asks(outcomes[p]) && Asks(outcomes[q]) ==>
         trace[q + 1].now - trace[q].now
         >= (if cfg.requestDelaySeconds > 0 then cfg.requestDelaySeconds else 3) * SECOND
  }

  /** The failure times are those of the bucket, or none if they cannot be loaded. */
  ghost predicate Opens(t: Terms, a: Snapshot, b: Snapshot) {
    && a.now <= b.now && b == a.(now := b.now, lastFailure := b.lastFailure)
    && (b.lastFailure == StoredFailures(a.s3) || (!t.reliable && b.lastFailure == map[]))
  }

  /** The index is saved if and only if a certificate was renewed. */
  ghost predicate Closes(a: Snapshot, b: Snapshot, renewed: nat) {
    && a.now <= b.now && b == a.(now := b.now, s3 := b.s3, saves := a.saves + (if renewed > 0 then 1 else 0))
    && b.s3 - {INDEX_KEY} == a.s3 - {INDEX_KEY} && (renewed == 0 ==> b.s3 == a.s3)
  }

  ghost predicate RunOf(t: Terms, r: Run) {
    && Distinct(r.domains) && (forall d :: d in r.domains ==> ProperName(d))
    && |r.outcomes| == |r.domains| && Ledger(t, r.domains, r.outcomes, r.trace)
    && Paced(t.cfg, r.outcomes, r.trace)
    && Opens(t, r.start, r.trace[0]) && Closes(r.trace[|r.domains|], r.end, Total(r.outcomes))
  }

  /** One more turn. */
  lemma LedgerExtends(t: Terms, domains: seq<string>, outcomes: seq<Outcome>, trace: seq<Snapshot>, o: Outcome,
                      b: Snapshot)
    requires Ledger(t, domains, outcomes, trace) && |outcomes| < |domains|
    requires TurnOf(t, trace[|outcomes|], b, domains[|outcomes|], o)
    ensures Ledger(t, domains, outcomes + [o], trace + [b])
    ensures Total(outcomes + [o]) == Total(outcomes) + Renewed(o)
    ensures FailedAmong(domains, outcomes + [o])
         == FailedAmong(domains, outcomes) + if o.failed then [domains[|outcomes|]] else []
  {
    var os, bs := outcomes + [o], trace + [b];
    assert os[..|os| - 1] == outcomes;
    forall i: nat | i < |os|
      ensures TurnAt(t, domains, os, bs, i)
    {
      if i < |outcomes| { assert TurnAt(t, domains, outcomes, trace, i); }
    }
  }

  lemma PacedExtends(cfg: RenewConfig, outcomes: seq<Outcome>, trace: seq<Snapshot>, o: Outcome, b: Snapshot,
                     asked: bool)
    requires Paced(cfg, outcomes, trace) && (asked <==> exists p :: 0 <= p < |outcomes| && Asks(outcomes[p]))
    requires asked && Asks(o) ==>
               b.now - trace[|outcomes|].now
               >= (if cfg.requestDelaySeconds > 0 then cfg.requestDelaySeconds else 3) * SECOND
    ensures Paced(cfg, outcomes + [o], trace + [b])
    ensures asked || Asks(o) <==> exists p :: 0 <= p < |outcomes + [o]| && Asks((outcomes + [o])[p])
  {
    var os := outcomes + [o];
    assert Asks(o) ==> Asks(os[|outcomes|]);
    if asked {
      var p :| 0 <= p < |outcomes| && Asks(outcomes[p]);
      assert Asks(os[p]);
    }
  }

  // ---------------------------------------------------------------- what other turns leave alone

  /** Nothing of this domain has changed, but perhaps its RRset. */
  ghost predicate Unmoved(a: Snapshot, b: Snapshot, e: string) {
    && a.now <= b.now
    && RecordAt(b.s3, e) == RecordAt(a.s3, e) && PendingAt(b.s3, e) == PendingAt(a.s3, e)
    && CertAt(b.s3, e) == CertAt(a.s3, e)
    && (RecordReadable(b.s3, e) <==> RecordReadable(a.s3, e)) && (CertKey(e) in b.s3 <==> CertKey(e) in a.s3)
    && SameEntry(a.index, b.index, e) && SameEntry(a.lastFailure, b.lastFailure, e)
    && b.requested[e] == a.requested[e]
  }

  /** Objects of other domains, and shared ones, may change. */
  lemma ElsewhereChanges(a: Bucket, b: Bucket, ks: set<string>, e: string)
    requires a - ks == b - ks && ks !! DomainKeys(e)
    ensures RecordAt(b, e) == RecordAt(a, e) && PendingAt(b, e) == PendingAt(a, e) && CertAt(b, e) == CertAt(a, e)
    ensures (RecordReadable(b, e) <==> RecordReadable(a, e)) && (CertKey(e) in b <==> CertKey(e) in a)
  {
    assert CertKey(e) in DomainKeys(e) && RolloverKey(e) in DomainKeys(e) && PendingKey(e) in DomainKeys(e);
    StaysThere(a, b, ks, CertKey(e));
    StaysThere(a, b, ks, RolloverKey(e));
    StaysThere(a, b, ks, PendingKey(e));
  }

  lemma OthersUnmoved(a: Snapshot, b: Snapshot, d: string, o: Outcome, e: string)
    requires OnlyItsOwn(a, b, d) && EntryAsTold(a, b, d, o) && b.requested[e] == a.requested[e]
    requires d != e && ProperName(d) && ProperName(e)
    ensures Unmoved(a, b, e)
  {
    KeysApart(e);
    DomainsApart(d, e);
    ElsewhereChanges(a.s3, b.s3, DomainKeys(d) + SharedKeys(), e);
    StaysThere(a.index, b.index, {d}, e);
  }

  lemma OtherRRsetStays(a: Snapshot, b: Snapshot, d: string, e: string)
    requires OnlyItsOwn(a, b, d) && (IsWildcard(d) || TlsaOwner(d) != TlsaOwner(e))
    ensures RRset(b.tlsa, e) == RRset(a.tlsa, e)
  {
    if !IsWildcard(d) { StaysThere(a.tlsa, b.tlsa, {TlsaOwner(d)}, TlsaOwner(e)); }
  }

  lemma TurnMovesOnlyItsOwn(t: Terms, a: Snapshot, b: Snapshot, d: string, o: Outcome, e: string)
    requires TurnOf(t, a, b, d, o) && d != e && ProperName(d) && ProperName(e)
    ensures Unmoved(a, b, e)
    ensures IsWildcard(d) || TlsaOwner(d) != TlsaOwner(e) ==> RRset(b.tlsa, e) == RRset(a.tlsa, e)
  {
    if !o.kind.Shut? {
      assert b.requested == a.requested || b.requested == a.requested + multiset{d};
      OthersUnmoved(a, b, d, o, e);
      if IsWildcard(d) || TlsaOwner(d) != TlsaOwner(e) { OtherRRsetStays(a, b, d, e); }
    }
  }

  lemma {:induction false} StretchUnmoved(t: Terms, r: Run, i: nat, j: nat, e: string)
    requires RunOf(t, r) && i <= j <= |r.domains| && ProperName(e) && forall k :: i <= k < j ==> r.domains[k] != e
    ensures Unmoved(r.trace[i], r.trace[j], e)
    ensures (forall k :: i <= k < j ==> IsWildcard(r.domains[k]) || TlsaOwner(r.domains[k]) != TlsaOwner(e)) ==>
              RRset(r.trace[j].tlsa, e) == RRset(r.trace[i].tlsa, e)
  {
    if i < j {
      StretchUnmoved(t, r, i, j - 1, e);
      assert TurnAt(t, r.domains, r.outcomes, r.trace, j - 1) && r.domains[j - 1] in r.domains;
      TurnMovesOnlyItsOwn(t, r.trace[j - 1], r.trace[j], r.domains[j - 1], r.outcomes[j - 1], e);
    }
  }

  lemma EndUnmoved(t: Terms, r: Run, e: string)
    requires RunOf(t, r) && ProperName(e)
    ensures Unmoved(r.trace[|r.domains|], r.end, e) && RRset(r.end.tlsa, e) == RRset(r.trace[|r.domains|].tlsa, e)
  {
    KeysApart(e);
    ElsewhereChanges(r.trace[|r.domains|].s3, r.end.s3, {INDEX_KEY}, e);
  }

  lemma {:induction false} ClockForward(t: Terms, r: Run, i: nat, j: nat)
    requires RunOf(t, r) && i <= j <= |r.domains|
    ensures r.trace[i].now <= r.trace[j].now
  {
    if i < j {
      ClockForward(t, r, i, j - 1);
      assert TurnAt(t, r.domains, r.outcomes, r.trace, j - 1);
    }
  }

  lemma ClockRuns(t: Terms, r: Run, i: nat)
    requires RunOf(t, r) && i <= |r.domains|
    ensures r.start.now <= r.trace[0].now <= r.trace[i].now <= r.end.now
  {
    ClockForward(t, r, 0, i);
    ClockForward(t, r, i, |r.domains|);
  }

  /** Two turns that ask for something end at least the pause apart. */
  lemma AskedApart(t: Terms, r: Run, p: nat, q: nat)
    requires RunOf(t, r) && p < q < |r.domains| && Asks(r.outcomes[p]) && Asks(r.outcomes[q])
    ensures r.trace[q + 1].now - r.trace[p + 1].now
         >= (if t.cfg.requestDelaySeconds > 0 then t.cfg.requestDelaySeconds else 3) * SECOND
  {
    ClockForward(t, r, p + 1, q);
  }

  // ---------------------------------------------------------------- the accounts of a run

  /** The certificates counted as renewed are those that were stored. */
  lemma {:induction false} StoresCounted(t: Terms, r: Run, n: nat)
    requires RunOf(t, r) && n <= |r.domains|
    ensures r.trace[n].stores == r.start.stores + Total(r.outcomes[..n])
    ensures n == |r.domains| ==> r.end.stores == r.start.stores + Total(r.outcomes)
  {
    if n > 0 {
      StoresCounted(t, r, n - 1);
      assert TurnAt(t, r.domains, r.outcomes, r.trace, n - 1);
      assert r.outcomes[..n][..n - 1] == r.outcomes[..n - 1];
    }
    assert r.outcomes[..|r.outcomes|] == r.outcomes;
  }

  lemma OnesTurn(r: Run, e: string) returns (p: nat)
    requires e in r.domains
    ensures p < |r.domains| && r.domains[p] == e
  {
    p :| p < |r.domains| && r.domains[p] == e;
  }

  /** Before its turn, and after it, nothing of a domain moves. */
  lemma AroundTurn(t: Terms, r: Run, p: nat)
    requires RunOf(t, r) && p < |r.domains|
    ensures TurnOf(t, r.trace[p], r.trace[p + 1], r.domains[p], r.outcomes[p])
    ensures Unmoved(r.trace[0], r.trace[p], r.domains[p]) && Unmoved(r.trace[p + 1], r.trace[|r.domains|], r.domains[p])
    ensures Unmoved(r.trace[|r.domains|], r.end, r.domains[p]) && r.start.now <= r.trace[0].now
  {
    assert r.domains[p] in r.domains && TurnAt(t, r.domains, r.outcomes, r.trace, p);
    StretchUnmoved(t, r, 0, p, r.domains[p]);
    StretchUnmoved(t, r, p + 1, |r.domains|, r.domains[p]);
    EndUnmoved(t, r, r.domains[p]);
  }

  /** A domain that is not listed keeps everything, its RRset too unless a listed one owns it. */
  lemma OtherDomainsUntouched(t: Terms, r: Run, e: string)
    requires RunOf(t, r) && ProperName(e) && e !in r.domains
    ensures Unmoved(r.trace[0], r.end, e)
    ensures (forall d :: d in r.domains ==> IsWildcard(d) || TlsaOwner(d) != TlsaOwner(e)) ==>
              ViewIn(r.end, e) == ViewIn(r.start, e)
  {
    StretchUnmoved(t, r, 0, |r.domains|, e);
    EndUnmoved(t, r, e);
  }

  /** Among plain names, which own their RRsets alone, a domain that is not listed keeps everything. */
  lemma OtherPlainDomainsUntouched(t: Terms, r: Run, e: string)
    requires RunOf(t, r) && ProperName(e) && e !in r.domains
    requires PlainName(e) && forall d :: d in r.domains ==> PlainName(d)
    ensures ViewIn(r.end, e) == ViewIn(r.start, e)
  {
    forall d | d in r.domains
      ensures TlsaOwner(d) != TlsaOwner(e)
    {
      OwnersDiffer(d, e);
    }
    OtherDomainsUntouched(t, r, e);
  }

  /** Each listed domain has at most one ACME request, and no other has any. */
  lemma OneRequestEach(t: Terms, r: Run, e: string)
    requires RunOf(t, r) && ProperName(e)
    ensures r.start.requested[e] <= r.end.requested[e] <= r.start.requested[e] + if e in r.domains then 1 else 0
  {
    if e in r.domains {
      var p := OnesTurn(r, e);
      AroundTurn(t, r, p);
      RequestsOfTurn(t, r.trace[p], r.trace[p + 1], e, r.outcomes[p]);
    } else {
      OtherDomainsUntouched(t, r, e);
    }
  }

  lemma RequestsOfTurn(t: Terms, a: Snapshot, b: Snapshot, d: string, o: Outcome)
    requires TurnOf(t, a, b, d, o)
    ensures a.requested[d] <= b.requested[d] <= a.requested[d] + 1
    ensures b.requested[d] > a.requested[d] ==> o.kind.Advance? || o.kind.Simple?
  {
  }

  /**
    The failure entry of a listed domain is set if its turn failed, gone if its certificate was found
    valid or it was renewed simply, and otherwise what it was.
   */
  lemma EntryTells(t: Terms, r: Run, p: nat)
    requires RunOf(t, r) && p < |r.domains|
    ensures var d, o := r.domains[p], r.outcomes[p];
            if o.failed then
              d in r.end.lastFailure && r.end.lastFailure[d] == StampOf(o.noted) && r.start.now <= o.noted <= r.end.now
            else if Clears(o) then d !in r.end.lastFailure
            else SameEntry(r.trace[0].lastFailure, r.end.lastFailure, d)
  {
    AroundTurn(t, r, p);
    EntryOfTurn(t, r.trace[p], r.trace[p + 1], r.domains[p], r.outcomes[p]);
  }

  lemma EntryOfTurn(t: Terms, a: Snapshot, b: Snapshot, d: string, o: Outcome)
    requires TurnOf(t, a, b, d, o)
    ensures a.now <= b.now
    ensures if o.failed then d in b.lastFailure && b.lastFailure[d] == StampOf(o.noted) && a.now <= o.noted <= b.now
            else if Clears(o) then d !in b.lastFailure
            else SameEntry(a.lastFailure, b.lastFailure, d)
  {
  }

  /** The failed are exactly the domains whose turns failed. */
  lemma {:induction false} FailedAreThose(r: Run, n: nat)
    requires |r.outcomes| == |r.domains| && n <= |r.domains|
    ensures forall d :: d in FailedAmong(r.domains, r.outcomes[..n]) <==>
              exists p :: 0 <= p < n && r.domains[p] == d && r.outcomes[p].failed
  {
    if n > 0 {
      FailedAreThose(r, n - 1);
      assert r.outcomes[..n][..n - 1] == r.outcomes[..n - 1];
    }
  }

  /** No other listed domain owns this one's RRset. */
  ghost predicate SoleOwner(r: Run, d: string) {
    forall e :: e in r.domains && e != d && !IsWildcard(e) ==> TlsaOwner(e) != TlsaOwner(d)
  }

  lemma RRsetAround(t: Terms, r: Run, p: nat)
    requires RunOf(t, r) && p < |r.domains| && SoleOwner(r, r.domains[p])
    ensures RRset(r.trace[p].tlsa, r.domains[p]) == RRset(r.start.tlsa, r.domains[p])
    ensures RRset(r.end.tlsa, r.domains[p]) == RRset(r.trace[p + 1].tlsa, r.domains[p])
  {
    var d := r.domains[p];
    forall k | 0 <= k < |r.domains| && k != p
      ensures IsWildcard(r.domains[k]) || TlsaOwner(r.domains[k]) != TlsaOwner(d)
    {
      assert r.domains[k] in r.domains;
    }
    assert d in r.domains;
    StretchUnmoved(t, r, 0, p, d);
    StretchUnmoved(t, r, p + 1, |r.domains|, d);
    EndUnmoved(t, r, d);
  }

  /**
    Where no call fails, a domain that was renewed without rollover ends the run with its new
    certificate and, if it has a signing key, with that certificate's association alone.
   */
  lemma RenewedIsPublished(t: Terms, r: Run, p: nat)
    requires RunOf(t, r) && t.reliable && p < |r.domains| && r.outcomes[p].kind.Simple?
    requires SoleOwner(r, r.domains[p])
    ensures var d, cert := r.domains[p], r.outcomes[p].kind.cert;
            && cert.Some? && CertAt(r.end.s3, d) == cert
            && (Publishes(t, d, cert.value) ==> RRset(r.end.tlsa, d) == {cert.value.leaf.value.tlsa})
            && (!Publishes(t, d, cert.value) ==> RRset(r.end.tlsa, d) == RRset(r.start.tlsa, d))
  {
    AroundTurn(t, r, p);
    RRsetAround(t, r, p);
  }

  /** The turn of a wildcard starts and advances no rollover and changes no RRset. */
  lemma WildcardTurn(t: Terms, a: Snapshot, b: Snapshot, base: string, o: Outcome)
    requires TurnOf(t, a, b, "*." + base, o)
    ensures b.tlsa == a.tlsa && (o.kind.Shut? || o.kind.Current? || o.kind.Simple?)
  {
    WildcardOf(base);
  }

  // ---------------------------------------------------------------- the waits of a rollover

  predicate RecordAsAsked(cfg: RenewConfig, record: Option<RolloverState>) {
    record.Some? ==> AsAsked(cfg, record.value)
  }

  lemma TurnKeepsWaits(t: Terms, a: Snapshot, b: Snapshot, d: string, o: Outcome)
    requires TurnOf(t, a, b, d, o) && ProperName(d) && RecordAsAsked(t.cfg, RecordAt(a.s3, d))
    ensures RecordAsAsked(t.cfg, RecordAt(b.s3, d))
  {
    KeysApart(d);
    if o.kind.Unloadable? || o.kind.Current? {
      ElsewhereChanges(a.s3, b.s3, {FAILURES_KEY}, d);
    } else if o.kind.Advance? {
      AdvanceKeepsWaits(t, a, b, d, o.kind, o.failed);
    } else {
      assert RecordAt(b.s3, d) == ViewIn(b, d).record;
    }
  }

  lemma AdvanceKeepsWaits(t: Terms, a: Snapshot, b: Snapshot, d: string, kind: Kind, failed: bool)
    requires kind.Advance? && WentOn(t, a, b, d, kind, failed) && RecordAsAsked(t.cfg, RecordAt(a.s3, d))
    ensures RecordAsAsked(t.cfg, RecordAt(b.s3, d))
  {
    assert RecordAt(a.s3, d) == ViewIn(a, d).record && RecordAt(b.s3, d) == ViewIn(b, d).record;
  }

  /** Every record that a run leaves has the waits of the configuration, if every one it found had. */
  lemma RunKeepsWaits(t: Terms, r: Run, e: string)
    requires RunOf(t, r) && ProperName(e) && RecordAsAsked(t.cfg, RecordAt(r.start.s3, e))
    ensures RecordAsAsked(t.cfg, RecordAt(r.end.s3, e))
  {
    if e in r.domains {
      var p := OnesTurn(r, e);
      AroundTurn(t, r, p);
      TurnKeepsWaits(t, r.trace[p], r.trace[p + 1], e, r.outcomes[p]);
    } else {
      OtherDomainsUntouched(t, r, e);
    }
  }

  /**
    A rollover's certificate is requested only once the record is as old as the configuration asks:
    its number of seconds, or one hour.
   */
  lemma RequestedAfterTheWait(t: Terms, r: Run, p: nat)
    requires RunOf(t, r) && p < |r.domains| && r.outcomes[p].kind.Advance?
    requires RecordAsAsked(t.cfg, RecordAt(r.start.s3, r.domains[p]))
    requires r.end.requested[r.domains[p]] > r.start.requested[r.domains[p]]
    ensures RecordAt(r.start.s3, r.domains[p]).Some?
    ensures r.end.now - RecordAt(r.start.s3, r.domains[p]).value.startedAt
         >= (if t.cfg.tlsaTtlSeconds > 0 then t.cfg.tlsaTtlSeconds else 3600) * SECOND
  {
    var d := r.domains[p];
    AroundTurn(t, r, p);
    ClockRuns(t, r, p + 1);
    assert d in r.domains;
    assert RecordAt(r.trace[p].s3, d) == ViewIn(r.trace[p], d).record;
  }

  /** Once the backoff is over, or where there is none, the gate lets the domain through. */
  lemma OpenAfterBackoff(t: Terms, r: Run, p: nat, failed: int)
    requires RunOf(t, r) && p < |r.domains|
    requires r.domains[p] in r.trace[0].lastFailure ==>
               || r.trace[0].lastFailure[r.domains[p]].Garbled?
               || t.cfg.forceRenewOnFailure || t.cfg.failureBackoffMinutes <= 0
               || (r.trace[0].lastFailure[r.domains[p]] == StampOf(failed)
                   && r.start.now - failed >= t.cfg.failureBackoffMinutes * MINUTE)
    ensures !r.outcomes[p].kind.Shut?
  {
    var d := r.domains[p];
    AroundTurn(t, r, p);
    ClockRuns(t, r, p);
    if d in r.trace[0].lastFailure {
      GateOpensIff(r.trace[p].lastFailure, d, t.cfg.failureBackoffMinutes, failed, r.trace[p].now);
    }
  }

  // ---------------------------------------------------------------- certificates that are not due

  /** No rollover is to be taken on, and until some instant the certificate is there and not due. */
  ghost predicate UpToDate(t: Terms, a: Snapshot, d: string, until: int) {
    && NoRecord(t, a, d) && CertKey(d) in a.s3
    && forall at :: at <= until ==> Outlives(a.index, d, at)
  }

  lemma TurnKeepsUpToDate(t: Terms, a: Snapshot, b: Snapshot, d: string, o: Outcome, until: int)
    requires TurnOf(t, a, b, d, o) && ProperName(d) && UpToDate(t, a, d, until) && b.now <= until
    ensures UpToDate(t, b, d, until) && b.requested == a.requested && SameEntry(a.index, b.index, d)
  {
    KeysApart(d);
    if o.kind.Unloadable? || o.kind.Current? {
      ElsewhereChanges(a.s3, b.s3, {FAILURES_KEY}, d);
    } else {
      assert Outlives(a.index, d, a.now);
    }
  }

  lemma UnmovedUpToDate(t: Terms, a: Snapshot, b: Snapshot, d: string, until: int)
    requires Unmoved(a, b, d) && UpToDate(t, a, d, until)
    ensures UpToDate(t, b, d, until)
  {
    forall at | at <= until
      ensures Outlives(b.index, d, at)
    {
      assert Outlives(a.index, d, at);
    }
  }

  /** A run requests no certificate for a domain whose certificate is there and not due before the run ends. */
  lemma CurrentIsNotRequested(t: Terms, r: Run, d: string, until: int)
    requires RunOf(t, r) && ProperName(d) && UpToDate(t, r.start, d, until) && r.end.now <= until
    ensures r.end.requested[d] == r.start.requested[d] && UpToDate(t, r.end, d, until)
  {
    assert UpToDate(t, r.trace[0], d, until);
    if d in r.domains {
      var p := OnesTurn(r, d);
      AroundTurn(t, r, p);
      ClockRuns(t, r, p + 1);
      UnmovedUpToDate(t, r.trace[0], r.trace[p], d, until);
      TurnKeepsUpToDate(t, r.trace[p], r.trace[p + 1], d, r.outcomes[p], until);
      UnmovedUpToDate(t, r.trace[p + 1], r.trace[|r.domains|], d, until);
      UnmovedUpToDate(t, r.trace[|r.domains|], r.end, d, until);
    } else {
      OtherDomainsUntouched(t, r, d);
      UnmovedUpToDate(t, r.trace[0], r.end, d, until);
    }
  }

  /** An open gate stays open while the entry is the same. */
  lemma OpenLater(cfg: RenewConfig, a: map<string, Stamp>, b: map<string, Stamp>, d: string, now: int, later: int)
    requires Open(cfg, a, d, now) && SameEntry(a, b, d) && now <= later
    ensures Open(cfg, b, d, later)
  {
  }

  /** The index knows of no certificate that outlives the shortest renewal window. */
  predicate Due(index: map<string, Entry>, d: string, now: int) {
    d !in index || index[d].expires <= now + 59 * DAY
  }

  lemma DueIsNotCurrent(index: map<string, Entry>, d: string, now: int, at: int)
    requires Due(index, d, now) && now <= at
    ensures !Outlives(index, d, at)
  {
    TwoMonthsBounds(at);
  }

  /**
    A due domain that is let through and has no rollover, nor is to have one, is requested once, unless
    it cannot be told whether it has one.
   */
  lemma DueIsRequested(t: Terms, r: Run, p: nat)
    requires RunOf(t, r) && p < |r.domains| && !UsesRollover(t, r.domains[p])
    requires NoRecord(t, r.start, r.domains[p]) && Due(r.start.index, r.domains[p], r.start.now)
    requires Open(t.cfg, r.trace[0].lastFailure, r.domains[p], r.start.now)
    ensures if r.outcomes[p].kind.Unloadable? then r.outcomes[p].failed
            else r.end.requested[r.domains[p]] == r.start.requested[r.domains[p]] + 1
  {
    var d, a, o := r.domains[p], r.trace[p], r.outcomes[p];
    AroundTurn(t, r, p);
    OpenLater(t.cfg, r.trace[0].lastFailure, a.lastFailure, d, r.start.now, a.now);
    if o.kind.Current? { DueIsNotCurrent(a.index, d, r.start.now, o.kind.at); }
  }

  // ---------------------------------------------------------------- one run after the other

  /** Runs of one process; between them only time passes. */
  ghost predicate History(t: Terms, runs: seq<Run>) {
    && (forall i :: 0 <= i < |runs| ==> RunOf(t, runs[i]))
    && (forall i, j :: 0 <= i < |runs| - 1 && j == i + 1 ==> Succeeds(runs[i].end, runs[j].start))
  }

  ghost predicate Succeeds(a: Snapshot, b: Snapshot) {
    a.now <= b.now && b == a.(now := b.now, lastFailure := b.lastFailure)
  }

  lemma HistoryExtends(t: Terms, runs: seq<Run>, r: Run)
    requires History(t, runs) && RunOf(t, r) && (runs != [] ==> Succeeds(runs[|runs| - 1].end, r.start))
    ensures History(t, runs + [r])
  {
  }

  /** A new process comes after one that has saved its index: its closet holds that index. */
  ghost predicate Restarted(a: Snapshot, b: Snapshot) {
    && a.now <= b.now && b.s3 == a.s3 && b.tlsa == a.tlsa
    && PersistedIndex(a.s3) == a.index && b.index == PersistedIndex(b.s3)
  }

  /** Runs of one process or of several. */
  ghost predicate Lineage(t: Terms, runs: seq<Run>) {
    && (forall i :: 0 <= i < |runs| ==> RunOf(t, runs[i]))
    && (forall i, j :: 0 <= i < |runs| - 1 && j == i + 1 ==>
          Succeeds(runs[i].end, runs[j].start) || Restarted(runs[i].end, runs[j].start))
  }

  /** No run after run i and up to run j requests a certificate for the domain. */
  ghost predicate NotRequested(runs: seq<Run>, i: nat, j: nat, d: string)
    requires j < |runs|
  {
    forall k :: i < k <= j ==> runs[k].end.requested[d] == runs[k].start.requested[d]
  }

  lemma StaysUpToDate(t: Terms, a: Snapshot, b: Snapshot, d: string, until: int)
    requires (Succeeds(a, b) || Restarted(a, b)) && UpToDate(t, a, d, until)
    ensures UpToDate(t, b, d, until)
  {
    assert b.index == a.index && b.s3 == a.s3 && b.tlsa == a.tlsa;
  }

  lemma {:induction false} CurrentOverRuns(t: Terms, runs: seq<Run>, i: nat, j: nat, d: string, until: int)
    requires Lineage(t, runs) && i <= j < |runs| && ProperName(d)
    requires UpToDate(t, runs[i].end, d, until) && runs[j].end.now <= until
    ensures NotRequested(runs, i, j, d) && UpToDate(t, runs[j].end, d, until)
  {
    if i < j {
      assert Succeeds(runs[j - 1].end, runs[j].start) || Restarted(runs[j - 1].end, runs[j].start);
      ClockRuns(t, runs[j], 0);
      CurrentOverRuns(t, runs, i, j - 1, d, until);
      StaysUpToDate(t, runs[j - 1].end, runs[j].start, d, until);
      CurrentIsNotRequested(t, runs[j], d, until);
    }
  }

  /** A certificate that outlives the longest window is up to date. */
  lemma LongLivedIsUpToDate(t: Terms, a: Snapshot, d: string, until: int)
    requires NoRecord(t, a, d) && CertKey(d) in a.s3 && d in a.index && a.index[d].expires > until + 62 * DAY
    ensures UpToDate(t, a, d, until)
  {
    forall at | at <= until
      ensures Outlives(a.index, d, at)
    {
      TwoMonthsBounds(at);
    }
  }

  /** So no run requests it that ends more than 62 days before it expires. */
  lemma LongLivedIsNotRequested(t: Terms, runs: seq<Run>, i: nat, j: nat, d: string)
    requires Lineage(t, runs) && i <= j < |runs| && ProperName(d)
    requires NoRecord(t, runs[i].end, d) && CertKey(d) in runs[i].end.s3
    requires d in runs[i].end.index && runs[i].end.index[d].expires > runs[j].end.now + 62 * DAY
    ensures NotRequested(runs, i, j, d)
  {
    LongLivedIsUpToDate(t, runs[i].end, d, runs[j].end.now);
    CurrentOverRuns(t, runs, i, j, d, runs[j].end.now);
  }

  /** A renewal that stored a certificate without a readable expiry. */
  predicate FellBack(o: Outcome) {
    o.kind.Simple? && !o.failed && o.kind.cert.Some? && o.kind.cert.value.leaf.None?
  }

  /** A certificate that was stored without a readable expiry is up to date for 27 days. */
  lemma FallbackIsUpToDate(t: Terms, r: Run, p: nat)
    requires RunOf(t, r) && p < |r.domains| && FellBack(r.outcomes[p])
    ensures UpToDate(t, r.end, r.domains[p], r.outcomes[p].kind.stored + 27 * DAY - 1)
  {
    var d, kind, b := r.domains[p], r.outcomes[p].kind, r.trace[p + 1];
    var until := kind.stored + 27 * DAY - 1;
    AroundTurn(t, r, p);
    assert d in r.domains;
    assert b.index[d] == Entry(d, kind.stored + FALLBACK_LIFETIME);
    forall at | at <= until
      ensures Outlives(b.index, d, at)
    {
      FallbackOutsideWindow(kind.stored, at);
    }
    UnmovedUpToDate(t, b, r.trace[|r.domains|], d, until);
    UnmovedUpToDate(t, r.trace[|r.domains|], r.end, d, until);
  }

  /**
    After a renewal that stored a certificate with the 89-day fallback no run that ends less than 27
    days later, of this process or of a later one, requests one for the domain again.
   */
  lemma FallbackIsNotRequestedAgain(t: Terms, runs: seq<Run>, i: nat, p: nat, j: nat)
    requires Lineage(t, runs) && i <= j < |runs| && p < |runs[i].domains| && FellBack(runs[i].outcomes[p])
    requires runs[j].end.now < runs[i].outcomes[p].kind.stored + 27 * DAY
    ensures NotRequested(runs, i, j, runs[i].domains[p])
  {
    FallbackIsUpToDate(t, runs[i], p);
    assert runs[i].domains[p] in runs[i].domains;
    CurrentOverRuns(t, runs, i, j, runs[i].domains[p], runs[i].outcomes[p].kind.stored + 27 * DAY - 1);
  }
}
