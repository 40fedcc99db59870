/**
  What one turn of a domain in the renewing loop can do, as a relation between what is there before and
  after it.  The program's turns are proved to be such turns in Renew.dfy.
 */
module Turns {
  import opened Prelude
  import opened Names
  import opened DnsKeys
  import opened RolloverProtocol
  import opened Cloud
  import opened CertCloset
  import opened Backoff
  import opened Calendar

  datatype RenewConfig = RenewConfig(
    dnsEnabled: bool,              // a DNS updater is configured
    rolloverEnabled: bool,
    tlsaTtlSeconds: int,
    syncLagSeconds: int,
    failureBackoffMinutes: int,
    forceRenewOnFailure: bool,
    requestDelaySeconds: int)

  function ResolvedTtl(cfg: RenewConfig): nat {
    if cfg.tlsaTtlSeconds <= 0 then 3600 else cfg.tlsaTtlSeconds
  }

  function ResolvedLag(cfg: RenewConfig): nat {
    if cfg.syncLagSeconds <= 0 then 300 else cfg.syncLagSeconds
  }

  /** The wait for caches that the configuration asks for: its own number, or one hour. */
  predicate AsksForTtl(cfg: RenewConfig, seconds: int) {
    (cfg.tlsaTtlSeconds > 0 ==> seconds == cfg.tlsaTtlSeconds) && (cfg.tlsaTtlSeconds <= 0 ==> seconds == 3600)
  }

  /** The wait for nodes: its own number, or five minutes. */
  predicate AsksForLag(cfg: RenewConfig, seconds: int) {
    (cfg.syncLagSeconds > 0 ==> seconds == cfg.syncLagSeconds) && (cfg.syncLagSeconds <= 0 ==> seconds == 300)
  }

  /** The record has the waits that the configuration asks for, as far as it keeps them. */
  predicate AsAsked(cfg: RenewConfig, rec: RolloverState) {
    && (rec.phase.PrePublishing? ==> AsksForTtl(cfg, rec.ttlSeconds))
    && (!rec.phase.OtherPhase? ==> AsksForLag(cfg, rec.lagSeconds))
  }

  /** What stays the same over a run: configuration, signing keys, and whether calls can fail at all. */
  datatype Terms = Terms(cfg: RenewConfig, keys: KeyMap, reliable: bool)

  /** The configuration puts domain under the rollover protocol. */
  ghost predicate UsesRollover(t: Terms, domain: string) {
    t.cfg.dnsEnabled && t.cfg.rolloverEnabled && !IsWildcard(domain) && HasKey(t.keys, domain)
  }

  /** The world and the process at one instant. */
  datatype Snapshot = Snapshot(
    s3: Bucket, tlsa: Zone, now: int,
    requested: multiset<string>,        // ACME requests so far, by domain
    stores: nat,                        // certificates stored so far
    saves: nat,                         // attempts to save the index so far
    index: map<string, Entry>, lastFailure: map<string, Stamp>)

  function ViewIn(a: Snapshot, d: string): View {
    ViewOf(a.s3, a.tlsa, d)
  }

  /** Which branch of the loop a turn took. */
  datatype Kind =
    | Shut                                // the domain is in backoff
    | Unloadable                          // its rollover record cannot be loaded
    | Advance(at: int, end: int, renewed: nat, gaveUp: bool, tried: int)    // its rollover is taken on
    | Current(at: int, confirmed: bool)   // its certificate is not due; confirmed: and its object is there
    | Start(at: int, lost: bool, prior: Hash, next: Hash)                   // a rollover is started
    | Simple(at: int, lost: bool, cert: Option<Cert>, stored: int)          // it is renewed without rollover

  /** noted is the instant of a failure. */
  datatype Outcome = Outcome(kind: Kind, failed: bool, noted: int)

  /** How many certificates the turn counts as renewed. */
  function Renewed(o: Outcome): nat {
    match o.kind
    case Advance(_, _, renewed, _, _) => renewed
    case Simple(_, _, _, _) => if o.failed then 0 else 1
    case _ => 0
  }

  /** The turns that ask the CA or the DNS for something new; they are kept apart by a pause. */
  predicate Asks(o: Outcome) {
    o.kind.Start? || o.kind.Simple?
  }

  /** The turns that remove the domain's failure entry. */
  predicate Clears(o: Outcome) {
    (o.kind.Current? && o.kind.confirmed) || (o.kind.Simple? && !o.failed)
  }

  predicate Distinct(s: seq<string>) {
    forall i, j :: 0 <= i < j < |s| ==> s[i] != s[j]
  }

  /** The bucket without the objects of one domain and those that all domains share. */
  function Outside(s3: Bucket, d: string): Bucket {
    s3 - (DomainKeys(d) + SharedKeys())
  }

  /**
    What phase one can do to a domain without a record: nothing, or publish one association, or also
    replace the pending key by that association's key, or also store the record that names it.
   */
  ghost predicate Started(v: View, v': View, prior: Hash, next: Hash, cfg: RenewConfig, from: int, to: int) {
    || v' == v
    || v' == v.(rrset := v.rrset + {next})
    || v' == v.(rrset := v.rrset + {next}, pending := Some(next))
    || Recorded(v.(rrset := v.rrset + {next}), v', prior, next, cfg, from, to)
  }

  /** Key and record of a published association are stored. */
  ghost predicate Recorded(v: View, v': View, prior: Hash, next: Hash, cfg: RenewConfig, from: int, to: int) {
    && v'.record.Some?
    && from <= v'.record.value.startedAt <= to && AsAsked(cfg, v'.record.value)
    && v'.record.value.phase == PrePublishing
    && v'.record.value.oldTlsa == prior && v'.record.value.newTlsa == next
    && v' == v.(pending := Some(next), record := v'.record)
  }

  /** What phase two can do: nothing, or switch to the pending key's certificate, or also note the switch. */
  ghost predicate Switched(v: View, v': View, rec: RolloverState, from: int, to: int, renewed: nat, err: bool) {
    || (v' == v && err && renewed == 0)
    || (v.pending.Some? && v' == v.(cert := v.pending) && err)
    || (v.pending.Some? && SwitchNoted(v.(cert := v.pending), v', rec, from, to) && renewed == 1)
  }

  ghost predicate SwitchNoted(v: View, v': View, rec: RolloverState, from: int, to: int) {
    && v'.record.Some? && from <= v'.record.value.startedAt <= to
    && var rs := RolloverState(CertSwitched, rec.oldTlsa, rec.newTlsa, v'.record.value.startedAt, 0, rec.lagSeconds);
       v' == v.(record := Some(rs))
  }

  /** What closing can do: drop the pending key or not, and the record or not. */
  ghost predicate Closed(v: View, v': View) {
    && v'.cert == v.cert && v'.rrset == v.rrset
    && (v'.pending == v.pending || v'.pending.None?)
    && (v'.record == v.record || v'.record.None?)
  }

  /** What phase three can do: withdraw the old association or not, and close or not. */
  ghost predicate Finished(v: View, v': View, rec: RolloverState) {
    || Closed(v, v')
    || (rec.oldTlsa != "" && Closed(v.(rrset := v.rrset - {rec.oldTlsa}), v'))
  }

  /** The backoff gate lets the domain through. */
  predicate Open(cfg: RenewConfig, lastFailure: map<string, Stamp>, domain: string, now: int) {
    cfg.forceRenewOnFailure || !InBackoff(lastFailure, domain, cfg.failureBackoffMinutes, now)
  }

  /** The certificate that the index knows of outlives the renewal window that opens at an instant. */
  predicate Outlives(index: map<string, Entry>, domain: string, at: int) {
    domain in index && index[domain].expires > TwoMonthsAfter(at)
  }

  /** The wait that a record's phase asks for. */
  function Wait(rec: RolloverState): int {
    match rec.phase
    case PrePublishing => rec.ttlSeconds * SECOND
    case CertSwitched => rec.lagSeconds * SECOND
    case OtherPhase(_) => 0
  }

  /** What one run can do to a domain with a record: nothing, a reset, phase two or phase three. */
  ghost predicate Advanced(v: View, v': View, rec: RolloverState, from: int, to: int, renewed: nat, err: bool) {
    || (v' == v && renewed == 0 && (!err || !rec.phase.OtherPhase?))
    || (rec.phase.PrePublishing? && v' == v.(record := None) && renewed == 0 && !err)
    || (rec.phase.PrePublishing? && to - rec.startedAt >= Wait(rec) && Switched(v, v', rec, from, to, renewed, err))
    || (rec.phase.CertSwitched? && to - rec.startedAt >= Wait(rec) && Finished(v, v', rec)
        && renewed == 0 && (err || v'.record.None?))
  }

  /** The RRset without the association that is to be withdrawn. */
  ghost function Kept(rrset: set<Hash>, rec: RolloverState, enabled: bool): set<Hash> {
    if rec.oldTlsa != "" && enabled then rrset - {rec.oldTlsa} else rrset
  }

  /** What a run without faults does to a record. */
  ghost predicate Faultless(v: View, v': View, rec: RolloverState, enabled: bool, from: int, to: int) {
    if rec.phase.PrePublishing? && v.pending.None? then v' == v.(record := None)
    else if from - rec.startedAt >= Wait(rec) then OnTime(v, v', rec, enabled, from, to)
    else to - rec.startedAt < Wait(rec) ==> v' == v
  }

  /** What it does to a record whose wait is over. */
  ghost predicate OnTime(v: View, v': View, rec: RolloverState, enabled: bool, from: int, to: int) {
    match rec.phase
    case PrePublishing => SwitchNoted(v.(cert := v.pending), v', rec, from, to)
    case CertSwitched =>
      v' == v.(record := None, pending := None, rrset := Kept(v.rrset, rec, enabled))
    case OtherPhase(_) => v' == v
  }

  // ---------------------------------------------------------------- one turn

  /** No other domain's objects, RRset or index entry are touched. */
  ghost predicate OnlyItsOwn(a: Snapshot, b: Snapshot, d: string) {
    && a.now <= b.now
    && Outside(b.s3, d) == Outside(a.s3, d)
    && (if IsWildcard(d) then b.tlsa == a.tlsa else ZoneApart(b.tlsa, d) == ZoneApart(a.tlsa, d))
    && b.index - {d} == a.index - {d}
  }

  /** The failure entries are as the outcome says; no other domain's entry is touched. */
  ghost predicate EntryAsTold(a: Snapshot, b: Snapshot, d: string, o: Outcome) {
    if o.failed then a.now <= o.noted <= b.now && b.lastFailure == a.lastFailure[d := StampOf(o.noted)]
    else if Clears(o) then b.lastFailure == a.lastFailure - {d}
    else b.lastFailure == a.lastFailure
  }

  /** The bucket has the failure times that the process has. */
  predicate FailuresSaved(a: Snapshot) {
    StoredFailures(a.s3) == a.lastFailure
  }

  /** The turn's own branch for rollovers is not taken, or finds no record. */
  ghost predicate NoRecord(t: Terms, a: Snapshot, d: string) {
    t.cfg.dnsEnabled && !IsWildcard(d) ==> ViewIn(a, d).record.None?
  }

  ghost predicate WentUnloadable(t: Terms, a: Snapshot, b: Snapshot, d: string, o: Outcome) {
    && t.cfg.dnsEnabled && !IsWildcard(d) && o.failed
    && b == a.(now := b.now, s3 := b.s3, lastFailure := b.lastFailure)
    && b.s3 - {FAILURES_KEY} == a.s3 - {FAILURES_KEY}
    && (t.reliable ==> !RecordReadable(a.s3, d))
  }

  /**
    A rollover is taken on by at most one phase.  gaveUp: the withdrawal of the old association failed,
    and at instant tried the record was not yet ten sync lags old.
   */
  ghost predicate WentOn(t: Terms, a: Snapshot, b: Snapshot, d: string, kind: Kind, failed: bool)
    requires kind.Advance?
  {
    && t.cfg.dnsEnabled && !IsWildcard(d)
    && a.now <= kind.at <= kind.end <= b.now
    && ViewIn(a, d).record.Some?
    && var rec := ViewIn(a, d).record.value;
    && Advanced(ViewIn(a, d), ViewIn(b, d), rec, kind.at, kind.end, kind.renewed, failed)
    && b.saves == a.saves
    && (kind.renewed == 0 ==> b.index == a.index)
    && (b.requested == a.requested || (b.requested == a.requested + multiset{d} && rec.phase.PrePublishing?))
    && (kind.renewed > 0 ==> b.requested != a.requested)
    && (kind.end - rec.startedAt < Wait(rec) ==> b.requested == a.requested && !failed)
    && (kind.gaveUp ==> failed && rec.phase.CertSwitched? && kind.at <= kind.tried <= kind.end
                        && Wait(rec) <= kind.tried - rec.startedAt < 10 * Wait(rec))
    && (!kind.gaveUp && failed && rec.phase.CertSwitched? ==> Withdrawn(ViewIn(b, d), rec, HasKey(t.keys, d), kind.end))
    && (t.reliable ==> !failed && Faultless(ViewIn(a, d), ViewIn(b, d), rec, HasKey(t.keys, d), kind.at, kind.end))
  }

  /** There is nothing to withdraw any more, or the record is ten sync lags old. */
  ghost predicate Withdrawn(v: View, rec: RolloverState, enabled: bool, now: int) {
    rec.oldTlsa == "" || !enabled || rec.oldTlsa !in v.rrset || now - rec.startedAt >= 10 * rec.lagSeconds * SECOND
  }

  ghost predicate WentCurrent(t: Terms, a: Snapshot, b: Snapshot, d: string, kind: Kind)
    requires kind.Current?
  {
    && NoRecord(t, a, d) && a.now <= kind.at <= b.now && Outlives(a.index, d, kind.at)
    && (kind.confirmed ==> CertKey(d) in a.s3)
    && b == a.(now := b.now, s3 := b.s3, lastFailure := b.lastFailure)
    && b.s3 - {FAILURES_KEY} == a.s3 - {FAILURES_KEY}
    && (t.reliable ==> kind.confirmed)
  }

  /** The certificate is due: its index entry does not outlive the window, or its object is lost. */
  ghost predicate Missed(a: Snapshot, d: string, at: int, lost: bool) {
    if lost then Outlives(a.index, d, at) && CertKey(d) !in a.s3 else !Outlives(a.index, d, at)
  }

  /** The entry of a lost object is dropped. */
  function IndexWithout(index: map<string, Entry>, d: string, lost: bool): map<string, Entry> {
    if lost then index - {d} else index
  }

  ghost predicate WentStart(t: Terms, a: Snapshot, b: Snapshot, d: string, kind: Kind, failed: bool)
    requires kind.Start?
  {
    && NoRecord(t, a, d) && a.now <= kind.at <= b.now && Missed(a, d, kind.at, kind.lost)
    && UsesRollover(t, d)
    && b.requested == a.requested && b.saves == a.saves + (if kind.lost then 1 else 0)
    && b.index == IndexWithout(a.index, d, kind.lost)
    && Started(ViewIn(a, d), ViewIn(b, d), kind.prior, kind.next, t.cfg, a.now, b.now)
    && (kind.prior == "" || ViewIn(a, d).cert == Some(kind.prior))
    && (!failed ==> ViewIn(b, d).record.Some? && kind.next != "")
    && (t.reliable ==> !failed && (ViewIn(a, d).cert.Some? ==> ViewIn(a, d).cert.value == kind.prior))
  }

  /** The entry that a stored certificate gets; one that cannot be parsed is taken to last 89 days. */
  function EntryFor(cert: Cert, stored: int): Entry {
    Entry(cert.domain, match cert.leaf case Some(leaf) => leaf.notAfter case None => stored + FALLBACK_LIFETIME)
  }

  /** Renewing the domain simply is to replace its RRset by the association of this certificate. */
  ghost predicate Publishes(t: Terms, d: string, cert: Cert) {
    t.cfg.dnsEnabled && !IsWildcard(d) && HasKey(t.keys, d) && cert.leaf.Some?
  }

  /** The RRset is replaced only if it is to be, and is if no call fails. */
  ghost predicate PublishedSimply(t: Terms, a: Zone, b: Zone, d: string, cert: Cert) {
    && (b == a || (Publishes(t, d, cert) && RRset(b, d) == {cert.leaf.value.tlsa}))
    && (t.reliable && Publishes(t, d, cert) ==> RRset(b, d) == {cert.leaf.value.tlsa})
  }

  ghost predicate WentSimply(t: Terms, a: Snapshot, b: Snapshot, d: string, kind: Kind, failed: bool)
    requires kind.Simple?
  {
    && NoRecord(t, a, d) && a.now <= kind.at <= b.now && Missed(a, d, kind.at, kind.lost)
    && !UsesRollover(t, d)
    && b.requested == a.requested + multiset{d} && b.saves == a.saves + (if kind.lost then 1 else 0)
    && (failed ==> b.index == IndexWithout(a.index, d, kind.lost) && b.tlsa == a.tlsa)
    && (!failed ==>
          && kind.cert.Some? && kind.cert.value.domain == d && a.now <= kind.stored <= b.now
          && CertAt(b.s3, d) == kind.cert
          && b.index == IndexWithout(a.index, d, kind.lost)[d := EntryFor(kind.cert.value, kind.stored)]
          && PublishedSimply(t, a.tlsa, b.tlsa, d, kind.cert.value))
    && ViewIn(b, d).record == ViewIn(a, d).record && ViewIn(b, d).pending == ViewIn(a, d).pending
    && (t.reliable ==> !failed)
  }

  /** What each branch of the loop does. */
  ghost predicate TookBranch(t: Terms, a: Snapshot, b: Snapshot, d: string, o: Outcome) {
    match o.kind
    case Shut => false
    case Unloadable => WentUnloadable(t, a, b, d, o)
    case Advance(_, end, _, _, _) => WentOn(t, a, b, d, o.kind, o.failed) && (o.failed ==> end <= o.noted)
    case Current(_, _) => !o.failed && WentCurrent(t, a, b, d, o.kind)
    case Start(_, _, _, _) => WentStart(t, a, b, d, o.kind, o.failed)
    case Simple(_, _, _, _) => WentSimply(t, a, b, d, o.kind, o.failed)
  }

  /** A turn behind the gate. */
  ghost predicate Went(t: Terms, a: Snapshot, b: Snapshot, d: string, o: Outcome) {
    && OnlyItsOwn(a, b, d) && EntryAsTold(a, b, d, o)
    && (t.reliable && FailuresSaved(a) ==> FailuresSaved(b))
    && b.stores == a.stores + Renewed(o)
    && TookBranch(t, a, b, d, o)
  }

  /** The turn of a domain: nothing while it is in backoff. */
  ghost predicate TurnOf(t: Terms, a: Snapshot, b: Snapshot, d: string, o: Outcome) {
    if o.kind.Shut? then !Open(t.cfg, a.lastFailure, d, a.now) && b == a && !o.failed
    else Open(t.cfg, a.lastFailure, d, a.now) && Went(t, a, b, d, o)
  }

  // ---------------------------------------------------------------- a turn from its pieces

  lemma UpdateKeepsRest<V>(a: map<string, V>, d: string, v: V)
    ensures a[d := v] - {d} == a - {d}
  {
  }

  /** What a change of shared objects leaves alone. */
  lemma SharedChange(a: Bucket, b: Bucket, tlsa: Zone, key: string, d: string)
    requires ProperName(d) && key in SharedKeys() && a - {key} == b - {key}
    ensures ViewOf(a, tlsa, d) == ViewOf(b, tlsa, d) && RecordReadable(a, d) == RecordReadable(b, d)
    ensures CertAt(a, d) == CertAt(b, d) && (CertKey(d) in a <==> CertKey(d) in b) && Outside(a, d) == Outside(b, d)
    ensures key != FAILURES_KEY ==> StoredFailures(a) == StoredFailures(b)
    ensures key != INDEX_KEY ==> PersistedIndex(a) == PersistedIndex(b)
  {
    KeysApart(d);
    assert CertKey(d) in DomainKeys(d);
    ViewOfRest(a, b, tlsa, {key}, d);
    StaysThere(a, b, {key}, CertKey(d));
    RemovalsMerge(a, b, {key}, DomainKeys(d) + SharedKeys());
    if key != FAILURES_KEY { StaysThere(a, b, {key}, FAILURES_KEY); }
    if key != INDEX_KEY { StaysThere(a, b, {key}, INDEX_KEY); }
  }

  /** What a change of the domain's own objects leaves alone. */
  lemma OwnChange(a: Bucket, b: Bucket, d: string)
    requires ProperName(d) && Apart(a, d) == Apart(b, d)
    ensures Outside(a, d) == Outside(b, d) && StoredFailures(a) == StoredFailures(b)
    ensures PersistedIndex(a) == PersistedIndex(b)
  {
    KeysApart(d);
    assert FAILURES_KEY in SharedKeys() && INDEX_KEY in SharedKeys();
    StaysThere(a, b, DomainKeys(d), FAILURES_KEY);
    StaysThere(a, b, DomainKeys(d), INDEX_KEY);
    RemovalsMerge(a, b, DomainKeys(d), DomainKeys(d) + SharedKeys());
  }

  /** The failure times in memory become these, and as far as that succeeds those in the bucket too. */
  ghost predicate Noting(t: Terms, a: Snapshot, b: Snapshot, lastFailure: map<string, Stamp>) {
    && a.now <= b.now && b == a.(now := b.now, s3 := b.s3, lastFailure := lastFailure)
    && b.s3 - {FAILURES_KEY} == a.s3 - {FAILURES_KEY}
    && (t.reliable ==> FailuresSaved(b))
  }

  /** The end of a turn: a failure is noted, an entry is cleared, or nothing happens. */
  ghost predicate Noted(t: Terms, a: Snapshot, b: Snapshot, d: string, o: Outcome) {
    if o.failed then Noting(t, a, b, a.lastFailure[d := StampOf(o.noted)]) && a.now <= o.noted <= b.now
    else if Clears(o) then Noting(t, a, b, a.lastFailure - {d})
    else b == a
  }

  lemma NotedKeeps(t: Terms, a: Snapshot, b: Snapshot, d: string, o: Outcome)
    requires ProperName(d) && Noted(t, a, b, d, o)
    ensures a.now <= b.now && b == a.(now := b.now, s3 := b.s3, lastFailure := b.lastFailure)
    ensures ViewIn(b, d) == ViewIn(a, d) && CertAt(b.s3, d) == CertAt(a.s3, d) && Outside(b.s3, d) == Outside(a.s3, d)
    ensures t.reliable && FailuresSaved(a) ==> FailuresSaved(b)
  {
    if o.failed || Clears(o) { SharedChange(a.s3, b.s3, a.tlsa, FAILURES_KEY, d); }
  }

  lemma UnloadableTurn(t: Terms, a: Snapshot, b: Snapshot, c: Snapshot, d: string, o: Outcome)
    requires ProperName(d) && t.cfg.dnsEnabled && !IsWildcard(d) && o.kind.Unloadable? && o.failed
    requires a.now <= b.now && b == a.(now := b.now) && (t.reliable ==> !RecordReadable(a.s3, d))
    requires Noted(t, b, c, d, o)
    ensures Went(t, a, c, d, o)
  {
    NotedKeeps(t, b, c, d, o);
  }

  /** A rollover has been taken on, and nothing noted yet. */
  ghost predicate AdvanceMade(t: Terms, a: Snapshot, b: Snapshot, d: string, kind: Kind, failed: bool)
    requires kind.Advance?
  {
    && WentOn(t, a, b, d, kind, failed)
    && Apart(b.s3, d) == Apart(a.s3, d) && ZoneApart(b.tlsa, d) == ZoneApart(a.tlsa, d)
    && b.index - {d} == a.index - {d} && b.lastFailure == a.lastFailure
    && b.stores == a.stores + kind.renewed
  }

  lemma AdvanceTurn(t: Terms, a: Snapshot, b: Snapshot, c: Snapshot, e: Snapshot, d: string, o: Outcome)
    requires ProperName(d) && o.kind.Advance? && a.now <= b.now && b == a.(now := b.now)
    requires AdvanceMade(t, b, c, d, o.kind, o.failed) && Noted(t, c, e, d, o)
    ensures Went(t, a, e, d, o)
  {
    NotedKeeps(t, c, e, d, o);
    OwnChange(b.s3, c.s3, d);
  }

  lemma CurrentTurn(t: Terms, a: Snapshot, b: Snapshot, c: Snapshot, d: string, o: Outcome)
    requires ProperName(d) && o.kind.Current? && !o.failed && NoRecord(t, a, d)
    requires o.kind.at == a.now <= b.now && b == a.(now := b.now) && Outlives(a.index, d, o.kind.at)
    requires (o.kind.confirmed ==> CertKey(d) in a.s3) && (t.reliable ==> o.kind.confirmed)
    requires Noted(t, b, c, d, o)
    ensures Went(t, a, c, d, o)
  {
    NotedKeeps(t, b, c, d, o);
  }

  /** The currency check has found the certificate due. */
  ghost predicate Lapsed(a: Snapshot, b: Snapshot, d: string, at: int, lost: bool) {
    && a.now <= at <= b.now && Missed(a, d, at, lost)
    && b == a.(now := b.now, s3 := b.s3, saves := a.saves + (if lost then 1 else 0),
               index := IndexWithout(a.index, d, lost))
    && b.s3 - {INDEX_KEY} == a.s3 - {INDEX_KEY}
  }

  lemma LapsedKeeps(a: Snapshot, b: Snapshot, d: string, at: int, lost: bool)
    requires ProperName(d) && Lapsed(a, b, d, at, lost)
    ensures ViewIn(b, d) == ViewIn(a, d) && Outside(b.s3, d) == Outside(a.s3, d)
    ensures StoredFailures(b.s3) == StoredFailures(a.s3)
    ensures b.index - {d} == a.index - {d} && FailuresSaved(a) == FailuresSaved(b)
  {
    SharedChange(a.s3, b.s3, a.tlsa, INDEX_KEY, d);
    assert a.index - {d} - {d} == a.index - {d};
  }

  /** The first phase of a rollover has been tried, and nothing noted yet. */
  ghost predicate StartMade(t: Terms, a: Snapshot, b: Snapshot, d: string, prior: Hash, next: Hash, failed: bool) {
    && a.now <= b.now && b == a.(now := b.now, s3 := b.s3, tlsa := b.tlsa)
    && Apart(b.s3, d) == Apart(a.s3, d) && ZoneApart(b.tlsa, d) == ZoneApart(a.tlsa, d)
    && Started(ViewIn(a, d), ViewIn(b, d), prior, next, t.cfg, a.now, b.now)
    && (prior == "" || ViewIn(a, d).cert == Some(prior))
    && (!failed ==> ViewIn(b, d).record.Some? && next != "")
    && (t.reliable ==> !failed && (ViewIn(a, d).cert.Some? ==> ViewIn(a, d).cert.value == prior))
  }

  lemma StartTurn(t: Terms, a: Snapshot, b: Snapshot, c: Snapshot, e: Snapshot, d: string, o: Outcome)
    requires ProperName(d) && o.kind.Start? && NoRecord(t, a, d) && UsesRollover(t, d)
    requires Lapsed(a, b, d, o.kind.at, o.kind.lost)
    requires StartMade(t, b, c, d, o.kind.prior, o.kind.next, o.failed) && Noted(t, c, e, d, o)
    ensures Went(t, a, e, d, o)
  {
    LapsedKeeps(a, b, d, o.kind.at, o.kind.lost);
    OwnChange(b.s3, c.s3, d);
    NotedKeeps(t, c, e, d, o);
    StartedEarlier(ViewIn(b, d), ViewIn(c, d), o.kind.prior, o.kind.next, t.cfg, b.now, c.now, a.now, e.now);
  }

  lemma StartedEarlier(v: View, v': View, prior: Hash, next: Hash, cfg: RenewConfig, from: int, to: int,
                       from': int, to': int)
    requires Started(v, v', prior, next, cfg, from, to) && from' <= from && to <= to'
    ensures Started(v, v', prior, next, cfg, from', to')
  {
  }

  /** A renewal without rollover has been tried, and nothing noted yet. */
  ghost predicate SimpleMade(t: Terms, a: Snapshot, b: Snapshot, d: string, cert: Option<Cert>, stored: int,
                             failed: bool) {
    && a.now <= b.now && b.saves == a.saves && b.lastFailure == a.lastFailure
    && b.requested == a.requested + multiset{d} && b.stores == a.stores + (if failed then 0 else 1)
    && Apart(b.s3, d) == Apart(a.s3, d)
    && (if IsWildcard(d) then b.tlsa == a.tlsa else ZoneApart(b.tlsa, d) == ZoneApart(a.tlsa, d))
    && (failed ==> b.index == a.index && b.tlsa == a.tlsa)
    && (!failed ==>
          && cert.Some? && cert.value.domain == d && a.now <= stored <= b.now && CertAt(b.s3, d) == cert
          && b.index == a.index[d := EntryFor(cert.value, stored)]
          && PublishedSimply(t, a.tlsa, b.tlsa, d, cert.value))
    && ViewIn(b, d).record == ViewIn(a, d).record && ViewIn(b, d).pending == ViewIn(a, d).pending
    && (t.reliable ==> !failed)
  }

  lemma SimpleWent(t: Terms, a: Snapshot, b: Snapshot, c: Snapshot, e: Snapshot, d: string, o: Outcome)
    requires ProperName(d) && o.kind.Simple? && NoRecord(t, a, d) && !UsesRollover(t, d)
    requires Lapsed(a, b, d, o.kind.at, o.kind.lost)
    requires SimpleMade(t, b, c, d, o.kind.cert, o.kind.stored, o.failed) && Noted(t, c, e, d, o)
    ensures WentSimply(t, a, e, d, o.kind, o.failed)
  {
    LapsedKeeps(a, b, d, o.kind.at, o.kind.lost);
    NotedKeeps(t, c, e, d, o);
  }

  lemma SimpleOwn(t: Terms, a: Snapshot, b: Snapshot, c: Snapshot, e: Snapshot, d: string, o: Outcome)
    requires ProperName(d) && o.kind.Simple?
    requires Lapsed(a, b, d, o.kind.at, o.kind.lost)
    requires SimpleMade(t, b, c, d, o.kind.cert, o.kind.stored, o.failed) && Noted(t, c, e, d, o)
    ensures OnlyItsOwn(a, e, d) && (t.reliable && FailuresSaved(a) ==> FailuresSaved(e))
  {
    LapsedKeeps(a, b, d, o.kind.at, o.kind.lost);
    OwnChange(b.s3, c.s3, d);
    NotedKeeps(t, c, e, d, o);
    assert c.index - {d} == b.index - {d};
  }

  lemma SimpleTurn(t: Terms, a: Snapshot, b: Snapshot, c: Snapshot, e: Snapshot, d: string, o: Outcome)
    requires ProperName(d) && o.kind.Simple? && NoRecord(t, a, d) && !UsesRollover(t, d)
    requires Lapsed(a, b, d, o.kind.at, o.kind.lost)
    requires SimpleMade(t, b, c, d, o.kind.cert, o.kind.stored, o.failed) && Noted(t, c, e, d, o)
    ensures Went(t, a, e, d, o)
  {
    SimpleWent(t, a, b, c, e, d, o);
    SimpleOwn(t, a, b, c, e, d, o);
  }

  lemma BranchEarlier(t: Terms, a: Snapshot, b: Snapshot, c: Snapshot, d: string, o: Outcome)
    requires a.now <= b.now && b == a.(now := b.now) && TookBranch(t, b, c, d, o)
    ensures TookBranch(t, a, c, d, o)
  {
    if o.kind.Start? {
      StartedEarlier(ViewIn(b, d), ViewIn(c, d), o.kind.prior, o.kind.next, t.cfg, b.now, c.now, a.now, c.now);
    }
  }

  /** The turn may be taken to begin earlier, as long as nothing but time has passed. */
  lemma WentEarlier(t: Terms, a: Snapshot, b: Snapshot, c: Snapshot, d: string, o: Outcome)
    requires a.now <= b.now && b == a.(now := b.now) && Went(t, b, c, d, o)
    ensures Went(t, a, c, d, o)
  {
    BranchEarlier(t, a, b, c, d, o);
  }
}
