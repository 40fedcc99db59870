/**
  The TLSA key rollover of one domain as a state machine.

  A moment records what the outside world holds for the domain (rollover record, pending key,
  certificate, authoritative TLSA RRset), the time, and where the renewing process stands between
  two external calls.  A run is any sequence of moments, each one step after the previous one.  The
  steps include the passage of time, a call that takes effect, the return of a call, and the process
  giving up at any point, be it for an error or a crash.  A call that fails is a call whose return
  step never comes; it may or may not have taken effect.

  The theorems hold for every run: the code in Renew.dfy is proved to produce only such runs.
 */
module RolloverProtocol {
  import opened Prelude

  datatype Phase = PrePublishing | CertSwitched | OtherPhase(name: string)

  /** The persisted rollover record.  oldTlsa is "" when there is no association to withdraw. */
  datatype RolloverState = RolloverState(
    phase: Phase, oldTlsa: Hash, newTlsa: Hash, startedAt: int, ttlSeconds: int, lagSeconds: int)

  /** What the world holds for the domain; keys and certificates are known by their TLSA hash. */
  datatype View = View(
    record: Option<RolloverState>, pending: Option<Hash>, cert: Option<Hash>, rrset: set<Hash>)

  /** Where the process stands; each state but Idle names the external call it is busy with. */
  datatype Pc =
    | Idle
    | Publishing(prior: Hash, next: Hash)   // adding the new association
    | KeepingKey(prior: Hash, next: Hash)   // storing the pending key
    | Recording(rec: RolloverState)       // storing the pre-publishing record
    | Resetting(rec: RolloverState)       // deleting a record whose key cannot be loaded
    | Requesting(rec: RolloverState)      // loading the key and asking for the certificate
    | Switching(rec: RolloverState, issued: Hash)   // storing the certificate
    | Advancing(rec: RolloverState)       // storing the cert-switched record
    | Withdrawing(rec: RolloverState)     // removing the old association
    | Cleaning(rec: RolloverState)        // deleting the pending key
    | Closing(rec: RolloverState)         // deleting the record

  /** used holds every hash that ever belonged to a certificate or a key of the domain. */
  datatype Moment = Moment(now: int, view: View, pc: Pc, used: set<Hash>)

  /**
    cacheTtl: how long a resolver may keep an RRset; syncLag: how long a node may serve a certificate
    after it was replaced; ttlSeconds and lagSeconds: the two waits that the configuration asks for.
   */
  datatype Timing = Timing(cacheTtl: nat, syncLag: nat, ttlSeconds: nat, lagSeconds: nat)

  /** The configured waits are long enough.  The code takes this for granted and never checks it. */
  predicate Patient(t: Timing) {
    t.cacheTtl <= t.ttlSeconds * SECOND && t.syncLag <= t.lagSeconds * SECOND
  }

  // ---------------------------------------------------------------- steps

  /** The call the process is busy with takes effect. */
  ghost predicate Effect(pc: Pc, v: View, v': View) {
    match pc
    case Idle => false
    case Publishing(_, next) => v' == v.(rrset := v.rrset + {next})
    case KeepingKey(_, next) => v' == v.(pending := Some(next))
    case Recording(rec) => v' == v.(record := Some(rec))
    case Resetting(_) => v' == v.(record := None)
    case Requesting(_) => false
    case Switching(_, issued) => v' == v.(cert := Some(issued))
    case Advancing(rec) => v' == v.(record := Some(rec))
    case Withdrawing(rec) => v' == v.(rrset := v.rrset - {rec.oldTlsa})
    case Cleaning(_) => v' == v.(pending := None)
    case Closing(_) => v' == v.(record := None)
  }

  /** Leaving Idle: the guards are the branch conditions of the code. */
  ghost predicate Begins(m: Moment, pc': Pc, used': set<Hash>) {
    match pc'
    case Publishing(prior, next) =>
      && m.view.record.None?
      && (prior == "" || m.view.cert == Some(prior))
      && next !in m.used && next != "" && used' == m.used + {next}
    case Resetting(rec) =>
      && used' == m.used
      && m.view.record == Some(rec) && rec.phase.PrePublishing?
    case Requesting(rec) =>
      && used' == m.used
      && m.view.record == Some(rec) && rec.phase.PrePublishing?
      && m.now - rec.startedAt >= rec.ttlSeconds * SECOND
    case Withdrawing(rec) =>
      && used' == m.used
      && m.view.record == Some(rec) && rec.phase.CertSwitched?
      && m.now - rec.startedAt >= rec.lagSeconds * SECOND
    case _ => false
  }

  /** A call returns successfully and the process takes up the next one. */
  ghost predicate Proceeds(t: Timing, m: Moment, pc': Pc) {
    match (m.pc, pc')
    case (Publishing(prior, next), KeepingKey(prior', next')) =>
      prior' == prior && next' == next && next in m.view.rrset
    case (KeepingKey(prior, next), Recording(rec)) =>
      && m.view.pending == Some(next)
      && rec.phase.PrePublishing? && rec.oldTlsa == prior && rec.newTlsa == next && rec.startedAt == m.now
      && rec.ttlSeconds == t.ttlSeconds && rec.lagSeconds == t.lagSeconds
    case (Requesting(rec), Switching(rec', issued)) =>
      rec' == rec && m.view.pending == Some(issued)
    case (Switching(rec, issued), Advancing(rec')) =>
      && m.view.cert == Some(issued)
      && rec'.phase.CertSwitched? && rec'.startedAt == m.now
      && rec'.oldTlsa == rec.oldTlsa && rec'.newTlsa == rec.newTlsa && rec'.lagSeconds == rec.lagSeconds
    case (Withdrawing(rec), Cleaning(rec')) => rec' == rec
    case (Cleaning(rec), Closing(rec')) => rec' == rec
    case _ => false
  }

  ghost predicate Move(t: Timing, m: Moment, pc': Pc, used': set<Hash>) {
    || (pc' == Idle && used' == m.used)
    || (m.pc == Idle && Begins(m, pc', used'))
    || (used' == m.used && Proceeds(t, m, pc'))
  }

  ghost predicate Next(t: Timing, m: Moment, m': Moment) {
    || (m.now <= m'.now && m' == m.(now := m'.now))
    || (m' == m.(view := m'.view) && Effect(m.pc, m.view, m'.view))
    || (m' == m.(pc := m'.pc, used := m'.used) && Move(t, m, m'.pc, m'.used))
  }

  /**
    The start: no rollover under way, and the stored certificate (if any) has been in the store, and
    its association in the RRset, for long enough that nothing older is still cached or served.
   */
  ghost predicate Init(m: Moment) {
    && m.pc == Idle && m.view.record.None?
    && (m.view.cert.Some? ==> m.view.cert.value in m.view.rrset && m.view.cert.value in m.used)
    && "" in m.used
  }

  ghost predicate IsRun(t: Timing, run: seq<Moment>) {
    && |run| > 0
    && Init(run[0])
    && forall i :: 0 <= i < |run| - 1 ==> Next(t, run[i], run[i + 1])
  }

  function Last(run: seq<Moment>): Moment
    requires |run| > 0
  {
    run[|run| - 1]
  }

  // ---------------------------------------------------------------- what resolvers and nodes see

  /** Moment i lasts until moment i + 1; a resolver may still hold the RRset of moment i. */
  ghost predicate Cached(t: Timing, run: seq<Moment>, i: int)
    requires 0 <= i < |run|
  {
    i == |run| - 1 || Last(run).now < run[i + 1].now + t.cacheTtl
  }

  /** Some node may still serve the certificate of moment j. */
  ghost predicate Served(t: Timing, run: seq<Moment>, j: int)
    requires 0 <= j < |run|
  {
    j == |run| - 1 || Last(run).now < run[j + 1].now + t.syncLag
  }

  /** Every served certificate validates against every cached TLSA RRset. */
  ghost predicate Continuous(t: Timing, run: seq<Moment>)
    requires |run| > 0
  {
    forall i, j ::
      0 <= i < |run| && 0 <= j < |run| && Cached(t, run, i) && Served(t, run, j) && run[j].view.cert.Some?
      ==> run[j].view.cert.value in run[i].view.rrset
  }

  /** h has been in the authoritative RRset without a gap since instant at. */
  ghost predicate PublishedSince(run: seq<Moment>, h: Hash, at: int) {
    forall i :: 0 <= i < |run| && h !in run[i].view.rrset ==> i + 1 < |run| && run[i + 1].now <= at
  }

  /** No certificate with another hash than h has been in the store since instant at. */
  ghost predicate OnlyStoredSince(run: seq<Moment>, h: Hash, at: int) {
    forall j :: 0 <= j < |run| && run[j].view.cert.Some? && run[j].view.cert.value != h
      ==> j + 1 < |run| && run[j + 1].now <= at
  }

  // ---------------------------------------------------------------- the invariant

  ghost predicate Monotone(run: seq<Moment>) {
    forall i, j :: 0 <= i <= j < |run| ==> run[i].now <= run[j].now
  }

  ghost predicate GoodPre(t: Timing, run: seq<Moment>, rec: RolloverState) {
    && |run| > 0
    && rec.phase.PrePublishing?
    && rec.oldTlsa != rec.newTlsa && rec.newTlsa in Last(run).used
    && rec.startedAt <= Last(run).now
    && rec.ttlSeconds == t.ttlSeconds && rec.lagSeconds == t.lagSeconds
    && PublishedSince(run, rec.newTlsa, rec.startedAt)
    && (Last(run).view.pending.Some? ==> Last(run).view.pending.value == rec.newTlsa)
  }

  ghost predicate GoodSwitched(t: Timing, run: seq<Moment>, rec: RolloverState) {
    && |run| > 0
    && rec.phase.CertSwitched?
    && rec.oldTlsa != rec.newTlsa && rec.newTlsa in Last(run).used
    && rec.startedAt <= Last(run).now
    && rec.lagSeconds == t.lagSeconds
    && Last(run).view.cert == Some(rec.newTlsa)
    && rec.newTlsa in Last(run).view.rrset
    && OnlyStoredSince(run, rec.newTlsa, rec.startedAt)
    && (Last(run).view.pending.Some? ==> Last(run).view.pending.value == rec.newTlsa)
  }

  ghost predicate GoodRecord(t: Timing, run: seq<Moment>, rec: RolloverState) {
    match rec.phase
    case PrePublishing => GoodPre(t, run, rec)
    case CertSwitched => GoodSwitched(t, run, rec)
    case OtherPhase(_) => false
  }

  ghost predicate PcInv(t: Timing, run: seq<Moment>)
    requires |run| > 0
  {
    var m := Last(run);
    var v := m.view;
    match m.pc
    case Idle => true
    case Publishing(prior, next) => v.record.None? && prior != next && next in m.used
    case KeepingKey(prior, next) => v.record.None? && prior != next && next in m.used && next in v.rrset
    case Recording(rec) =>
      (v.record.None? || v.record == Some(rec)) && v.pending == Some(rec.newTlsa) && GoodPre(t, run, rec)
    case Resetting(rec) => (v.record.None? || v.record == Some(rec)) && rec.phase.PrePublishing?
    case Requesting(rec) =>
      && v.record == Some(rec) && GoodPre(t, run, rec)
      && rec.startedAt + rec.ttlSeconds * SECOND <= m.now
    case Switching(rec, issued) =>
      && v.record == Some(rec) && GoodPre(t, run, rec) && issued == rec.newTlsa
      && rec.startedAt + rec.ttlSeconds * SECOND <= m.now
    case Advancing(rec) =>
      && v.record.Some? && (v.record == Some(rec) || v.record.value.phase.PrePublishing?)
      && GoodSwitched(t, run, rec)
    case Withdrawing(rec) =>
      && v.record == Some(rec) && GoodSwitched(t, run, rec)
      && rec.startedAt + rec.lagSeconds * SECOND <= m.now
    case Cleaning(rec) => v.record == Some(rec) && rec.phase.CertSwitched?
    case Closing(rec) => (v.record.None? || v.record == Some(rec)) && rec.phase.CertSwitched?
  }

  /** What holds of every run, however short the configured waits are. */
  ghost predicate Inv(t: Timing, run: seq<Moment>) {
    && |run| > 0
    && Monotone(run)
    && (Last(run).view.record.Some? ==> GoodRecord(t, run, Last(run).view.record.value))
    && (Last(run).view.cert.Some? ==> Last(run).view.cert.value in Last(run).used)
    && "" in Last(run).used
    && PcInv(t, run)
  }

  // ---------------------------------------------------------------- preservation, one kind of step at a time

  lemma InitInv(t: Timing, m: Moment)
    requires Init(m)
    ensures Inv(t, [m])
  {
  }

  lemma PublishedExtends(run: seq<Moment>, m: Moment, h: Hash, at: int)
    requires |run| > 0 && PublishedSince(run, h, at) && h in m.view.rrset
    ensures PublishedSince(run + [m], h, at)
  {
  }

  lemma OnlyStoredExtends(run: seq<Moment>, m: Moment, h: Hash, at: int)
    requires |run| > 0 && OnlyStoredSince(run, h, at)
    requires m.view.cert.Some? ==> m.view.cert.value == h
    ensures OnlyStoredSince(run + [m], h, at)
  {
  }

  /** A good record stays good when neither the RRset nor the stores lose what it relies on. */
  lemma GoodPreExtends(t: Timing, run: seq<Moment>, m: Moment, rec: RolloverState)
    requires GoodPre(t, run, rec) && Last(run).now <= m.now && Last(run).used <= m.used
    requires rec.newTlsa in m.view.rrset
    requires m.view.pending.Some? ==> m.view.pending.value == rec.newTlsa
    ensures GoodPre(t, run + [m], rec)
  {
    PublishedExtends(run, m, rec.newTlsa, rec.startedAt);
  }

  lemma GoodSwitchedExtends(t: Timing, run: seq<Moment>, m: Moment, rec: RolloverState)
    requires GoodSwitched(t, run, rec) && Last(run).now <= m.now && Last(run).used <= m.used
    requires m.view.cert == Last(run).view.cert && rec.newTlsa in m.view.rrset
    requires m.view.pending.Some? ==> m.view.pending.value == rec.newTlsa
    ensures GoodSwitched(t, run + [m], rec)
  {
    OnlyStoredExtends(run, m, rec.newTlsa, rec.startedAt);
  }

  /** A good pre-publishing record has its new association in the RRset right now. */
  lemma GoodPrePublished(t: Timing, run: seq<Moment>, rec: RolloverState)
    requires GoodPre(t, run, rec)
    ensures rec.newTlsa in Last(run).view.rrset
  {
  }

  /** Time and the process moving on change no view, so records stay good. */
  lemma SameViewRecord(t: Timing, run: seq<Moment>, m: Moment, rec: RolloverState)
    requires |run| > 0 && Last(run).now <= m.now && Last(run).used <= m.used && m.view == Last(run).view
    ensures GoodPre(t, run, rec) ==> GoodPre(t, run + [m], rec)
    ensures GoodSwitched(t, run, rec) ==> GoodSwitched(t, run + [m], rec)
  {
    if GoodPre(t, run, rec) {
      GoodPrePublished(t, run, rec);
      GoodPreExtends(t, run, m, rec);
    }
    if GoodSwitched(t, run, rec) {
      GoodSwitchedExtends(t, run, m, rec);
    }
  }

  lemma TickInv(t: Timing, run: seq<Moment>, m: Moment)
    requires Inv(t, run) && Last(run).now <= m.now && m == Last(run).(now := m.now)
    ensures Inv(t, run + [m])
  {
    if m.view.record.Some? { SameViewRecord(t, run, m, m.view.record.value); }
    match m.pc
    case Recording(rec) => SameViewRecord(t, run, m, rec);
    case Requesting(rec) => SameViewRecord(t, run, m, rec);
    case Switching(rec, _) => SameViewRecord(t, run, m, rec);
    case Advancing(rec) => SameViewRecord(t, run, m, rec);
    case Withdrawing(rec) => SameViewRecord(t, run, m, rec);
    case _ =>
  }

  lemma BeginInv(t: Timing, run: seq<Moment>, m: Moment)
    requires Inv(t, run) && Last(run).pc == Idle
    requires m == Last(run).(pc := m.pc, used := m.used) && Begins(Last(run), m.pc, m.used)
    ensures Inv(t, run + [m])
  {
    if m.view.record.Some? { SameViewRecord(t, run, m, m.view.record.value); }
  }

  lemma IdleInv(t: Timing, run: seq<Moment>, m: Moment)
    requires Inv(t, run) && m == Last(run).(pc := Idle)
    ensures Inv(t, run + [m])
  {
    if m.view.record.Some? { SameViewRecord(t, run, m, m.view.record.value); }
  }

  lemma ProceedInv(t: Timing, run: seq<Moment>, m: Moment)
    requires Inv(t, run) && m == Last(run).(pc := m.pc) && Proceeds(t, Last(run), m.pc)
    ensures Inv(t, run + [m])
  {
    if m.view.record.Some? { SameViewRecord(t, run, m, m.view.record.value); }
    match m.pc
    case Recording(rec) => PublishedNow(run, m, rec.newTlsa);
    case Switching(rec, _) => SameViewRecord(t, run, m, rec);
    case Advancing(rec) => CertStoredNow(run, m, rec.newTlsa); GoodPrePublished(t, run, Last(run).pc.rec);
    case _ =>
  }

  /** What is in the RRset at a moment has been published since that very instant at the latest. */
  lemma PublishedNow(run: seq<Moment>, m: Moment, h: Hash)
    requires |run| > 0 && h in m.view.rrset && Monotone(run + [m])
    ensures PublishedSince(run + [m], h, m.now)
  {
    var run' := run + [m];
    forall i | 0 <= i < |run'| && h !in run'[i].view.rrset
      ensures i + 1 < |run'| && run'[i + 1].now <= m.now
    {
      assert run'[|run|] == m;
    }
  }

  lemma CertStoredNow(run: seq<Moment>, m: Moment, h: Hash)
    requires |run| > 0 && m.view.cert == Some(h) && Monotone(run + [m])
    ensures OnlyStoredSince(run + [m], h, m.now)
  {
    var run' := run + [m];
    forall j | 0 <= j < |run'| && run'[j].view.cert.Some? && run'[j].view.cert.value != h
      ensures j + 1 < |run'| && run'[j + 1].now <= m.now
    {
      assert run'[|run|] == m;
    }
  }

  /** A call takes effect. */
  lemma EffectInv(t: Timing, run: seq<Moment>, m: Moment)
    requires Inv(t, run) && m == Last(run).(view := m.view) && Effect(m.pc, Last(run).view, m.view)
    ensures Inv(t, run + [m])
  {
    match m.pc
    case Recording(rec) =>
      GoodPrePublished(t, run, rec);
      GoodPreExtends(t, run, m, rec);
    case Switching(rec, _) =>
      GoodPrePublished(t, run, rec);
      GoodPreExtends(t, run, m, rec);
    case Advancing(rec) =>
      GoodSwitchedExtends(t, run, m, rec);
    case Withdrawing(rec) =>
      GoodSwitchedExtends(t, run, m, rec);
    case Cleaning(rec) =>
      GoodSwitchedExtends(t, run, m, rec);
    case _ =>
  }

  ghost predicate Ticks(m: Moment, m': Moment) {
    m.now <= m'.now && m' == m.(now := m'.now)
  }

  ghost predicate TakesEffect(m: Moment, m': Moment) {
    m' == m.(view := m'.view) && Effect(m'.pc, m.view, m'.view)
  }

  lemma StepInv(t: Timing, run: seq<Moment>, m: Moment)
    requires Inv(t, run) && Next(t, Last(run), m)
    ensures Inv(t, run + [m])
  {
    if Ticks(Last(run), m) {
      TickInv(t, run, m);
    } else if TakesEffect(Last(run), m) {
      EffectInv(t, run, m);
    } else if m.pc == Idle {
      IdleInv(t, run, m);
    } else if Last(run).pc == Idle && Begins(Last(run), m.pc, m.used) {
      BeginInv(t, run, m);
    } else {
      ProceedInv(t, run, m);
    }
  }

  lemma {:induction false} RunInv(t: Timing, run: seq<Moment>)
    requires IsRun(t, run)
    ensures Inv(t, run)
  {
    if |run| == 1 {
      InitInv(t, run[0]);
      assert run == [run[0]];
    } else {
      var front := run[..|run| - 1];
      assert Next(t, run[|run| - 2], run[|run| - 1]);
      RunInv(t, front);
      StepInv(t, front, Last(run));
      assert run == front + [Last(run)];
    }
  }

  // ---------------------------------------------------------------- continuity, one kind of step at a time

  /** Appending a moment that changes neither store nor RRset. */
  lemma SameViewKeeps(t: Timing, run: seq<Moment>, m: Moment)
    requires |run| > 0 && Continuous(t, run)
    requires m.view == Last(run).view && Last(run).now <= m.now
    ensures Continuous(t, run + [m])
  {
    var run' := run + [m];
    var n := |run|;
    forall i, j |
      0 <= i <= n && 0 <= j <= n && Cached(t, run', i) && Served(t, run', j) && run'[j].view.cert.Some?
      ensures run'[j].view.cert.value in run'[i].view.rrset
    {
      var i0 := if i == n then n - 1 else i;
      var j0 := if j == n then n - 1 else j;
      assert run'[i].view == run[i0].view && run'[j].view == run[j0].view;
      assert Cached(t, run, i0) && Served(t, run, j0);
    }
  }

  /** Appending a moment at the same instant whose RRset and certificate keep the property. */
  lemma EffectKeeps(t: Timing, run: seq<Moment>, m: Moment)
    requires |run| > 0 && Continuous(t, run)
    requires m.now == Last(run).now
    requires m.view.cert.Some? ==>
               forall i :: 0 <= i < |run| && Cached(t, run, i) ==> m.view.cert.value in run[i].view.rrset
    requires forall j :: 0 <= j < |run| && Served(t, run, j) && run[j].view.cert.Some?
               ==> run[j].view.cert.value in m.view.rrset
    requires m.view.cert.Some? ==> m.view.cert.value in m.view.rrset
    ensures Continuous(t, run + [m])
  {
    var run' := run + [m];
    var n := |run|;
    forall i, j |
      0 <= i <= n && 0 <= j <= n && Cached(t, run', i) && Served(t, run', j) && run'[j].view.cert.Some?
      ensures run'[j].view.cert.value in run'[i].view.rrset
    {
      if i < n { assert Cached(t, run, i); }
      if j < n { assert Served(t, run, j); }
    }
  }

  /** Steps other than the switch and the withdrawal harm neither caches nor nodes, whatever the waits. */
  lemma HarmlessStep(t: Timing, run: seq<Moment>, m: Moment)
    requires Inv(t, run) && Continuous(t, run) && TakesEffect(Last(run), m)
    requires !m.pc.Switching? && !m.pc.Withdrawing?
    ensures Continuous(t, run + [m])
  {
    EffectKeeps(t, run, m);
  }

  /** The heart of the pre-publish rule: when the certificate is switched no cache lacks its hash. */
  lemma SwitchKeeps(t: Timing, run: seq<Moment>, m: Moment)
    requires Patient(t) && Inv(t, run) && Continuous(t, run) && TakesEffect(Last(run), m) && m.pc.Switching?
    ensures Continuous(t, run + [m])
  {
    var rec := m.pc.rec;
    GoodPrePublished(t, run, rec);
    forall i | 0 <= i < |run| && Cached(t, run, i)
      ensures rec.newTlsa in run[i].view.rrset
    {
    }
    forall j | 0 <= j < |run| && Served(t, run, j) && run[j].view.cert.Some?
      ensures run[j].view.cert.value in m.view.rrset
    {
      assert Cached(t, run, |run| - 1);
    }
    EffectKeeps(t, run, m);
  }

  /** When the old association is withdrawn no node serves a certificate that needs it. */
  lemma WithdrawKeeps(t: Timing, run: seq<Moment>, m: Moment)
    requires Patient(t) && Inv(t, run) && Continuous(t, run) && TakesEffect(Last(run), m) && m.pc.Withdrawing?
    ensures Continuous(t, run + [m])
  {
    var rec := m.pc.rec;
    forall j | 0 <= j < |run| && Served(t, run, j) && run[j].view.cert.Some?
      ensures run[j].view.cert.value == rec.newTlsa
    {
    }
    forall i | 0 <= i < |run| && Cached(t, run, i)
      ensures rec.newTlsa in run[i].view.rrset
    {
      assert Served(t, run, |run| - 1);
    }
    EffectKeeps(t, run, m);
  }

  lemma StepKeeps(t: Timing, run: seq<Moment>, m: Moment)
    requires Patient(t) && Inv(t, run) && Continuous(t, run) && Next(t, Last(run), m)
    ensures Continuous(t, run + [m])
  {
    if !TakesEffect(Last(run), m) {
      SameViewKeeps(t, run, m);
    } else if m.pc.Switching? {
      SwitchKeeps(t, run, m);
    } else if m.pc.Withdrawing? {
      WithdrawKeeps(t, run, m);
    } else {
      HarmlessStep(t, run, m);
    }
  }

  lemma {:induction false} RunContinuous(t: Timing, run: seq<Moment>)
    requires Patient(t) && IsRun(t, run)
    ensures Continuous(t, run)
  {
    if |run| == 1 {
      assert run == [run[0]];
    } else {
      var front := run[..|run| - 1];
      assert Next(t, run[|run| - 2], run[|run| - 1]);
      RunInv(t, front);
      RunContinuous(t, front);
      StepKeeps(t, front, Last(run));
      assert run == front + [Last(run)];
    }
  }

  // ---------------------------------------------------------------- theorems over every run

  /**
    DANE continuity: at every point of every run, through any number of rollovers, failures, crashes
    and resets, each certificate that some node may serve validates against each TLSA RRset that some
    resolver may hold.
   */
  lemma DaneContinuity(t: Timing, run: seq<Moment>, k: nat)
    requires Patient(t) && IsRun(t, run) && 0 < k <= |run|
    ensures Continuous(t, run[..k])
  {
    RunContinuous(t, run[..k]);
  }

  /**
    While a rollover record exists its new association is published, and a pending key, if there is
    one, is the key of that association.
   */
  lemma RecordedRolloverIsPublished(t: Timing, run: seq<Moment>, k: nat)
    requires IsRun(t, run) && k < |run| && run[k].view.record.Some?
    ensures run[k].view.record.value.newTlsa in run[k].view.rrset
    ensures run[k].view.pending.Some? ==> run[k].view.pending.value == run[k].view.record.value.newTlsa
    ensures run[k].view.record.value.oldTlsa != run[k].view.record.value.newTlsa
  {
    RunInv(t, run[..k + 1]);
    assert Last(run[..k + 1]) == run[k];
    if run[k].view.record.value.phase.PrePublishing? {
      GoodPrePublished(t, run[..k + 1], run[k].view.record.value);
    }
  }

  /**
    A key that is about to be certified has had its association in the RRset, without a gap, for at
    least the TTL that the record asks for.
   */
  lemma CertifiedKeyIsLongPublished(t: Timing, run: seq<Moment>, k: nat, i: nat)
    requires IsRun(t, run) && i <= k < |run| && run[k].pc.Requesting? && run[k].view.pending.Some?
    requires i == k || run[k].now - run[k].pc.rec.ttlSeconds * SECOND < run[i + 1].now
    ensures run[k].view.pending.value in run[i].view.rrset
  {
    RunInv(t, run[..k + 1]);
    assert Last(run[..k + 1]) == run[k];
    GoodPrePublished(t, run[..k + 1], run[k].pc.rec);
    assert run[..k + 1][i] == run[i];
  }

  // ---------------------------------------------------------------- the waits are exactly long enough

  /** A first rollover from "a" to "b", up to the moment after the certificate is stored. */
  ghost function SwitchRun(t: Timing): (run: seq<Moment>)
    ensures |run| == 12
    ensures run[11].pc.Switching? && run[11].view.cert == Some("b") && run[11].now == t.ttlSeconds * SECOND
    ensures run[11].view.rrset == {"a", "b"} && run[11].view.record == Some(run[11].pc.rec)
    ensures run[11].pc.rec == RolloverState(PrePublishing, "a", "b", 0, t.ttlSeconds, t.lagSeconds)
    ensures run[1].view.rrset == {"a"} && run[2].now == 0
    ensures run[10].view.cert == Some("a")
    ensures IsRun(t, run)
  {
    var rec := RolloverState(PrePublishing, "a", "b", 0, t.ttlSeconds, t.lagSeconds);
    var v0 := View(None, None, Some("a"), {"a"});
    var v1 := v0.(rrset := {"a", "b"});
    var v2 := v1.(pending := Some("b"));
    var v3 := v2.(record := Some(rec));
    var v4 := v3.(cert := Some("b"));
    var later := t.ttlSeconds * SECOND;
    var used := {"", "a", "b"};
    assert {"", "a"} + {"b"} == used && {"a"} + {"b"} == {"a", "b"};
    var run := [
      Moment(0, v0, Idle, {"", "a"}),
      Moment(0, v0, Publishing("a", "b"), used),
      Moment(0, v1, Publishing("a", "b"), used),
      Moment(0, v1, KeepingKey("a", "b"), used),
      Moment(0, v2, KeepingKey("a", "b"), used),
      Moment(0, v2, Recording(rec), used),
      Moment(0, v3, Recording(rec), used),
      Moment(0, v3, Idle, used),
      Moment(later, v3, Idle, used),
      Moment(later, v3, Requesting(rec), used),
      Moment(later, v3, Switching(rec, "b"), used),
      Moment(later, v4, Switching(rec, "b"), used)];
    run
  }

  /** The same rollover, up to the moment after the old association is withdrawn. */
  ghost function WithdrawRun(t: Timing): (run: seq<Moment>)
    ensures |run| == 18
    ensures run[17].view.rrset == {"b"} && run[17].now == (t.ttlSeconds + t.lagSeconds) * SECOND
    ensures run[10].view.cert == Some("a") && run[11].now == t.ttlSeconds * SECOND
    ensures IsRun(t, run)
  {
    var first := SwitchRun(t);
    var m := first[11];
    var later := t.ttlSeconds * SECOND;
    var rec := RolloverState(CertSwitched, "a", "b", later, 0, t.lagSeconds);
    var v := m.view.(record := Some(rec));
    var end := later + t.lagSeconds * SECOND;
    assert {"a", "b"} - {"a"} == {"b"};
    var tail := [
      m.(pc := Advancing(rec)),
      m.(pc := Advancing(rec), view := v),
      m.(pc := Idle, view := v),
      m.(pc := Idle, view := v, now := end),
      m.(pc := Withdrawing(rec), view := v, now := end),
      m.(pc := Withdrawing(rec), view := v.(rrset := {"b"}), now := end)];
    first + tail
  }

  /**
    The configured waits are exactly what DANE continuity needs: every run is continuous if and only
    if the TTL wait covers the resolvers' cache lifetime and the lag wait covers the nodes' sync lag.
   */
  lemma ContinuousIffPatient(t: Timing)
    ensures Patient(t) <==> forall run :: IsRun(t, run) ==> Continuous(t, run)
  {
    if Patient(t) {
      forall run | IsRun(t, run)
        ensures Continuous(t, run)
      {
        RunContinuous(t, run);
      }
    } else if t.ttlSeconds * SECOND < t.cacheTtl {
      var run := SwitchRun(t);
      assert Cached(t, run, 1) && Served(t, run, 11);
      assert !Continuous(t, run);
    } else {
      var run := WithdrawRun(t);
      assert Served(t, run, 10) && Cached(t, run, 17);
      assert !Continuous(t, run);
    }
  }
}
