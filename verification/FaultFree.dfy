/** Rollovers that meet no fault end, and leave exactly one association behind. */
module FaultFree {
  import opened Prelude
  import opened Names
  import opened RolloverProtocol
  import opened Cloud
  import opened CertCloset
  import opened Turns
  import opened Runs
  import opened Renew

  /** No rollover is under way and the RRset is the stored certificate's one association. */
  ghost predicate AtRest(v: View) {
    && v.record.None? && v.pending.None?
    && v.rrset == (if v.cert.Some? then {v.cert.value} else {})
    && v.cert != Some("")
  }

  /** The three turns of one rollover: what they left, and when each of them began and ended. */
  datatype Round = Round(prior: Hash, next: Hash, started: View, switched: View, times: seq<int>)

  /** From v to v' by a start and two turns that each come after the wait of their phase. */
  ghost predicate RoundOf(cfg: RenewConfig, v: View, r: Round, v': View) {
    && |r.times| == 6
    && r.prior == (if v.cert.Some? then v.cert.value else "") && r.next != r.prior && r.next != ""
    && Recorded(v.(rrset := v.rrset + {r.next}), r.started, r.prior, r.next, cfg, r.times[0], r.times[1])
    && r.times[2] - r.started.record.value.startedAt >= Wait(r.started.record.value)
    && Faultless(r.started, r.switched, r.started.record.value, true, r.times[2], r.times[3])
    && r.switched.record.Some?
    && r.times[4] - r.switched.record.value.startedAt >= Wait(r.switched.record.value)
    && Faultless(r.switched, v', r.switched.record.value, true, r.times[4], r.times[5])
  }

  lemma RoundConserves(cfg: RenewConfig, v: View, r: Round, v': View)
    requires AtRest(v) && RoundOf(cfg, v, r, v')
    ensures AtRest(v') && v'.cert == Some(r.next)
  {
    assert r.started.pending == Some(r.next);
    assert r.switched.cert == Some(r.next) && r.switched.record.value.oldTlsa == r.prior;
    assert v'.rrset == Kept(v.rrset + {r.next}, r.switched.record.value, true);
  }

  /** One rollover after the other. */
  ghost predicate Chained(cfg: RenewConfig, views: seq<View>, rounds: seq<Round>) {
    && |views| == |rounds| + 1
    && forall i {:trigger rounds[i]} :: 0 <= i < |rounds| ==> RoundOf(cfg, views[i], rounds[i], views[i + 1])
  }

  lemma ChainExtends(cfg: RenewConfig, views: seq<View>, rounds: seq<Round>, round: Round, v: View)
    requires Chained(cfg, views, rounds) && RoundOf(cfg, views[|rounds|], round, v)
    ensures Chained(cfg, views + [v], rounds + [round]) && (views + [v])[0] == views[0]
  {
    forall i | 0 <= i < |rounds| + 1
      ensures RoundOf(cfg, (views + [v])[i], (rounds + [round])[i], (views + [v])[i + 1])
    {
      if i < |rounds| { assert RoundOf(cfg, views[i], rounds[i], views[i + 1]); }
    }
  }

  /**
    However many rollovers follow one another, the RRset at rest is exactly the one association of
    the certificate that the last of them stored.
   */
  lemma {:induction false} RoundsConserve(cfg: RenewConfig, views: seq<View>, rounds: seq<Round>)
    requires Chained(cfg, views, rounds) && AtRest(views[0])
    ensures AtRest(views[|rounds|])
    ensures rounds != [] ==> views[|rounds|].rrset == {rounds[|rounds| - 1].next}
  {
    if rounds != [] {
      var n := |rounds| - 1;
      assert RoundOf(cfg, views[n], rounds[n], views[n + 1]);
      RoundsConserve(cfg, views[..n + 1], rounds[..n]);
      RoundConserves(cfg, views[n], rounds[n], views[n + 1]);
    }
  }

  // ---------------------------------------------------------------- the three runs of a rollover

  /** A run without faults in which turn p is that of domain d, which alone owns its RRset. */
  ghost predicate Quiet(t: Terms, r: Run, p: nat, d: string) {
    && t.reliable && UsesRollover(t, d) && RunOf(t, r) && p < |r.domains| && r.domains[p] == d
    && RecordReadable(r.start.s3, d) && SoleOwner(r, d)
  }

  lemma ViewsAround(t: Terms, r: Run, p: nat, d: string)
    requires Quiet(t, r, p, d)
    ensures ViewIn(r.trace[p], d) == ViewIn(r.start, d) && ViewIn(r.end, d) == ViewIn(r.trace[p + 1], d)
    ensures RecordReadable(r.trace[p].s3, d) && r.start.now <= r.trace[p].now
    ensures SameEntry(StoredFailures(r.start.s3), r.trace[p].lastFailure, d)
    ensures SameEntry(r.start.index, r.trace[p].index, d)
    ensures TurnOf(t, r.trace[p], r.trace[p + 1], d, r.outcomes[p])
    ensures r.trace[p].requested[d] == r.start.requested[d] && r.end.requested[d] == r.trace[p + 1].requested[d]
  {
    AroundTurn(t, r, p);
    assert d in r.domains;
    ClockRuns(t, r, p);
    RRsetAround(t, r, p);
  }

  lemma {:induction false} FailuresStaySaved(t: Terms, r: Run, n: nat)
    requires RunOf(t, r) && t.reliable && n <= |r.domains|
    ensures FailuresSaved(r.trace[n])
  {
    if n > 0 {
      FailuresStaySaved(t, r, n - 1);
      assert TurnAt(t, r.domains, r.outcomes, r.trace, n - 1);
    }
  }

  /** The domain's gate is open as the run begins, and the failure times persist. */
  ghost predicate GateOpen(t: Terms, r: Run, d: string) {
    Open(t.cfg, StoredFailures(r.start.s3), d, r.start.now)
  }

  /** A turn that sets no failure entry and clears none leaves the gate open. */
  lemma GateOpenAtEnd(t: Terms, r: Run, p: nat, d: string)
    requires Quiet(t, r, p, d) && GateOpen(t, r, d) && !r.outcomes[p].failed && !Clears(r.outcomes[p])
    ensures Open(t.cfg, StoredFailures(r.end.s3), d, r.end.now)
  {
    EntryTells(t, r, p);
    FailuresStaySaved(t, r, |r.domains|);
    StaysThere(r.trace[|r.domains|].s3, r.end.s3, {INDEX_KEY}, FAILURES_KEY);
    ClockRuns(t, r, 0);
    OpenLater(t.cfg, StoredFailures(r.start.s3), StoredFailures(r.end.s3), d, r.start.now, r.end.now);
  }

  /** So it is open for the next run. */
  lemma GateStaysOpen(t: Terms, r: Run, p: nat, s: Run, d: string)
    requires Quiet(t, r, p, d) && GateOpen(t, r, d) && !r.outcomes[p].failed && !Clears(r.outcomes[p])
    requires Succeeds(r.end, s.start)
    ensures GateOpen(t, s, d)
  {
    GateOpenAtEnd(t, r, p, d);
    OpenLater(t.cfg, StoredFailures(r.end.s3), StoredFailures(s.start.s3), d, r.end.now, s.start.now);
  }

  /** The first run starts the rollover. */
  lemma FirstRun(t: Terms, r: Run, p: nat, d: string)
    requires Quiet(t, r, p, d) && GateOpen(t, r, d)
    requires ViewIn(r.start, d).record.None? && Due(r.start.index, d, r.start.now)
    ensures r.outcomes[p].kind.Start? && !r.outcomes[p].failed
    ensures var v, kind := ViewIn(r.start, d), r.outcomes[p].kind;
            && Recorded(v.(rrset := v.rrset + {kind.next}), ViewIn(r.end, d), kind.prior, kind.next, t.cfg,
                        r.trace[p].now, r.trace[p + 1].now)
            && kind.next != "" && (kind.prior == "" || v.cert == Some(kind.prior))
            && (v.cert.Some? ==> v.cert.value == kind.prior)
    ensures r.end.requested[d] == r.start.requested[d]
  {
    ViewsAround(t, r, p, d);
    var a, o := r.trace[p], r.outcomes[p];
    OpenLater(t.cfg, StoredFailures(r.start.s3), a.lastFailure, d, r.start.now, a.now);
    if o.kind.Current? { DueIsNotCurrent(a.index, d, r.start.now, o.kind.at); }
  }

  /** A later run, once the wait is over, takes the rollover one phase on. */
  lemma LaterRun(t: Terms, r: Run, p: nat, d: string)
    requires Quiet(t, r, p, d) && GateOpen(t, r, d)
    requires ViewIn(r.start, d).record.Some? && !ViewIn(r.start, d).record.value.phase.OtherPhase?
    requires ViewIn(r.start, d).record.value.phase.PrePublishing? ==> ViewIn(r.start, d).pending.Some?
    requires r.start.now - ViewIn(r.start, d).record.value.startedAt >= Wait(ViewIn(r.start, d).record.value)
    ensures r.outcomes[p].kind.Advance? && !r.outcomes[p].failed
    ensures r.start.now <= r.outcomes[p].kind.at
    ensures Faultless(ViewIn(r.start, d), ViewIn(r.end, d), ViewIn(r.start, d).record.value, true,
                      r.outcomes[p].kind.at, r.outcomes[p].kind.end)
    ensures var switches := if ViewIn(r.start, d).record.value.phase.PrePublishing? then 1 else 0;
            r.outcomes[p].kind.renewed == switches && r.end.requested[d] == r.start.requested[d] + switches
  {
    ViewsAround(t, r, p, d);
    var a, b, o := r.trace[p], r.trace[p + 1], r.outcomes[p];
    OpenLater(t.cfg, StoredFailures(r.start.s3), a.lastFailure, d, r.start.now, a.now);
    RenewedOnce(t, a, b, d, o);
  }

  lemma RenewedOnce(t: Terms, a: Snapshot, b: Snapshot, d: string, o: Outcome)
    requires t.reliable && o.kind.Advance? && TurnOf(t, a, b, d, o) && !ViewIn(a, d).record.value.phase.OtherPhase?
    requires ViewIn(a, d).record.value.phase.PrePublishing? ==> ViewIn(a, d).pending.Some?
    requires o.kind.at - ViewIn(a, d).record.value.startedAt >= Wait(ViewIn(a, d).record.value)
    ensures o.kind.renewed == if ViewIn(a, d).record.value.phase.PrePublishing? then 1 else 0
    ensures b.requested[d] == a.requested[d] + o.kind.renewed
  {
  }

  /** A run and the place of the domain's turn in it. */
  datatype Visit = Visit(run: Run, p: nat)

  /** How many certificates the domain's own turn stored. */
  function StoredIn(v: Visit): nat {
    if v.p < |v.run.outcomes| then Renewed(v.run.outcomes[v.p]) else 0
  }

  ghost predicate Visits(t: Terms, v: Visit, d: string) {
    Quiet(t, v.run, v.p, d)
  }

  /** The second visit comes next, and at least so much later. */
  ghost predicate Later(v: Visit, w: Visit, wait: int) {
    Succeeds(v.run.end, w.run.start) && w.run.start.now - v.run.end.now >= wait
  }

  /** What the first visit leaves: a record in phase one. */
  ghost predicate Begun(t: Terms, v: Visit, d: string) {
    && Visits(t, v, d) && GateOpen(t, v.run, d)
    && v.run.outcomes[v.p].kind.Start? && !v.run.outcomes[v.p].failed
    && var rest, kind := ViewIn(v.run.start, d), v.run.outcomes[v.p].kind;
    && Recorded(rest.(rrset := rest.rrset + {kind.next}), ViewIn(v.run.end, d), kind.prior, kind.next, t.cfg,
                v.run.trace[v.p].now, v.run.trace[v.p + 1].now)
    && v.run.trace[v.p + 1].now <= v.run.end.now
    && kind.prior == (if rest.cert.Some? then rest.cert.value else "") && kind.next != "" && kind.next != kind.prior
    && v.run.end.requested[d] == v.run.start.requested[d]
  }

  /** What a later visit does. */
  ghost predicate TakenOn(t: Terms, v: Visit, d: string, switches: nat)
    requires ViewIn(v.run.start, d).record.Some?
  {
    && Visits(t, v, d) && v.run.outcomes[v.p].kind.Advance? && !v.run.outcomes[v.p].failed
    && var kind := v.run.outcomes[v.p].kind;
    && v.run.start.now <= kind.at && kind.end <= v.run.end.now && kind.renewed == switches
    && Faultless(ViewIn(v.run.start, d), ViewIn(v.run.end, d), ViewIn(v.run.start, d).record.value, true,
                 kind.at, kind.end)
    && v.run.end.requested[d] == v.run.start.requested[d] + switches
  }

  lemma BeginsRollover(t: Terms, v: Visit, d: string)
    requires Visits(t, v, d) && GateOpen(t, v.run, d) && AtRest(ViewIn(v.run.start, d))
    requires Due(v.run.start.index, d, v.run.start.now)
    requires ViewIn(v.run.end, d).record.Some? ==>
              ViewIn(v.run.end, d).record.value.oldTlsa != ViewIn(v.run.end, d).record.value.newTlsa
    ensures Begun(t, v, d)
  {
    FirstRun(t, v.run, v.p, d);
    ClockRuns(t, v.run, v.p + 1);
  }

  lemma SwitchesNext(t: Terms, v: Visit, w: Visit, d: string)
    requires Begun(t, v, d) && Visits(t, w, d) && Later(v, w, ResolvedTtl(t.cfg) * SECOND)
    ensures TakenOn(t, w, d, 1) && GateOpen(t, w.run, d)
  {
    GateStaysOpen(t, v.run, v.p, w.run, d);
    LaterRun(t, w.run, w.p, d);
    AdvancedInTime(t, w.run, w.p);
  }

  lemma FinishesNext(t: Terms, v: Visit, w: Visit, x: Visit, d: string)
    requires Begun(t, v, d) && Later(v, w, ResolvedTtl(t.cfg) * SECOND) && TakenOn(t, w, d, 1) && GateOpen(t, w.run, d)
    requires Visits(t, x, d) && Later(w, x, ResolvedLag(t.cfg) * SECOND)
    ensures ViewIn(x.run.start, d).record.Some? && TakenOn(t, x, d, 0)
    ensures Open(t.cfg, StoredFailures(x.run.end.s3), d, x.run.end.now)
  {
    GateStaysOpen(t, w.run, w.p, x.run, d);
    LaterRun(t, x.run, x.p, d);
    AdvancedInTime(t, x.run, x.p);
    GateOpenAtEnd(t, x.run, x.p, d);
  }

  lemma AdvancedInTime(t: Terms, r: Run, p: nat)
    requires RunOf(t, r) && p < |r.domains| && r.outcomes[p].kind.Advance?
    ensures r.outcomes[p].kind.end <= r.end.now
  {
    AroundTurn(t, r, p);
  }

  function RoundFrom(v: Visit, w: Visit, x: Visit, d: string): Round
    requires v.p < |v.run.outcomes| && v.run.outcomes[v.p].kind.Start? && v.p + 1 < |v.run.trace|
    requires w.p < |w.run.outcomes| && w.run.outcomes[w.p].kind.Advance?
    requires x.p < |x.run.outcomes| && x.run.outcomes[x.p].kind.Advance?
  {
    var kind, second, third := v.run.outcomes[v.p].kind, w.run.outcomes[w.p].kind, x.run.outcomes[x.p].kind;
    Round(kind.prior, kind.next, ViewIn(v.run.end, d), ViewIn(w.run.end, d),
          [v.run.trace[v.p].now, v.run.trace[v.p + 1].now, second.at, second.end, third.at, third.end])
  }

  lemma MakesRound(t: Terms, v: Visit, w: Visit, x: Visit, d: string)
    requires Begun(t, v, d) && Later(v, w, ResolvedTtl(t.cfg) * SECOND)
    requires ViewIn(w.run.start, d).record.Some? && TakenOn(t, w, d, 1) && Later(w, x, ResolvedLag(t.cfg) * SECOND)
    requires ViewIn(x.run.start, d).record.Some? && TakenOn(t, x, d, 0)
    ensures RoundOf(t.cfg, ViewIn(v.run.start, d), RoundFrom(v, w, x, d), ViewIn(x.run.end, d))
  {
  }

  /** The three visits make a round. */
  lemma ThreeVisits(t: Terms, v: Visit, w: Visit, x: Visit, d: string) returns (round: Round)
    requires Begun(t, v, d) && AtRest(ViewIn(v.run.start, d))
    requires Visits(t, w, d) && Later(v, w, ResolvedTtl(t.cfg) * SECOND)
    requires Visits(t, x, d) && Later(w, x, ResolvedLag(t.cfg) * SECOND)
    ensures RoundOf(t.cfg, ViewIn(v.run.start, d), round, ViewIn(x.run.end, d)) && AtRest(ViewIn(x.run.end, d))
    ensures x.run.end.requested[d] == v.run.start.requested[d] + 1
    ensures StoredIn(v) + StoredIn(w) + StoredIn(x) == 1
    ensures Open(t.cfg, StoredFailures(x.run.end.s3), d, x.run.end.now)
  {
    SwitchesNext(t, v, w, d);
    FinishesNext(t, v, w, x, d);
    round := RoundFrom(v, w, x, d);
    MakesRound(t, v, w, x, d);
    RoundConserves(t.cfg, ViewIn(v.run.start, d), round, ViewIn(x.run.end, d));
  }

  /**
    Without faults a rollover of a domain that is due, wherever it stands in the lists, is started by
    one run and over after two more that come late enough, with exactly one certificate requested and
    stored for it.
   */
  method CompleteRollover(app: App, domain: string, cfg: RenewConfig, plan: Plan)
    returns (ghost round: Round, ghost v: Visit, ghost w: Visit, ghost x: Visit)
    requires app.world.Valid() && app.Wired() && app.world.reliable && domain == app.world.focus
    requires Planned(app, domain, cfg, plan)
    requires AtRest(app.world.ViewAt(domain)) && Due(app.closet.index, domain, app.world.now)
    requires Open(cfg, StoredFailures(app.world.s3), domain, app.world.now)
    modifies app, app.closet, app.world
    ensures app.world.Valid() && old(app.world.run) <= app.world.run
    ensures RoundOf(cfg, old(app.world.ViewAt(domain)), round, app.world.ViewAt(domain))
    ensures AtRest(app.world.ViewAt(domain)) && Open(cfg, StoredFailures(app.world.s3), domain, app.world.now)
    ensures v.run.start == old(app.Books(map[])) && Visits(app.TermsOf(cfg), v, domain) && v.run.domains == plan.first
    ensures Follow(app.TermsOf(cfg), plan, v, w, x, domain) && x.run.end == app.Books(x.run.end.lastFailure)
    ensures app.requested[domain] == old(app.requested[domain]) + 1 && StoredIn(v) + StoredIn(w) + StoredIn(x) == 1
  {
    v := FirstVisit(app, domain, cfg, plan.first);
    w, x, round := LaterVisits(app, domain, cfg, plan, v);
  }

  /** The second and the third visit each come after the wait of their phase. */
  ghost predicate Follow(t: Terms, plan: Plan, v: Visit, w: Visit, x: Visit, d: string) {
    && Visits(t, w, d) && w.run.domains == plan.second && Later(v, w, ResolvedTtl(t.cfg) * SECOND)
    && Visits(t, x, d) && x.run.domains == plan.third && Later(w, x, ResolvedLag(t.cfg) * SECOND)
  }

  method LaterVisits(app: App, domain: string, cfg: RenewConfig, plan: Plan, ghost v: Visit)
    returns (ghost w: Visit, ghost x: Visit, ghost round: Round)
    requires app.world.Valid() && app.Wired() && app.world.reliable && domain == app.world.focus
    requires Planned(app, domain, cfg, plan)
    requires Begun(app.TermsOf(cfg), v, domain) && AtRest(ViewIn(v.run.start, domain))
    requires v.run.end == app.Books(v.run.end.lastFailure)
    modifies app, app.closet, app.world
    ensures app.world.Valid() && old(app.world.run) <= app.world.run
    ensures RoundOf(cfg, ViewIn(v.run.start, domain), round, app.world.ViewAt(domain))
    ensures AtRest(app.world.ViewAt(domain)) && Open(cfg, StoredFailures(app.world.s3), domain, app.world.now)
    ensures Follow(app.TermsOf(cfg), plan, v, w, x, domain) && x.run.end == app.Books(x.run.end.lastFailure)
    ensures app.requested[domain] == v.run.start.requested[domain] + 1
    ensures StoredIn(v) + StoredIn(w) + StoredIn(x) == 1
  {
    w := LaterVisit(app, domain, cfg, plan.second, v, ResolvedTtl(cfg) * SECOND);
    x := LaterVisit(app, domain, cfg, plan.third, w, ResolvedLag(cfg) * SECOND);
    round := ThreeVisits(app.TermsOf(cfg), v, w, x, domain);
  }

  /** The lists of domains that the three runs of a rollover are given. */
  datatype Plan = Plan(first: seq<string>, second: seq<string>, third: seq<string>)

  ghost predicate Planned(app: App, domain: string, cfg: RenewConfig, plan: Plan) {
    && Listed(app, domain, cfg, plan.first) && Listed(app, domain, cfg, plan.second)
    && Listed(app, domain, cfg, plan.third)
  }

  /** Time passes until the certificate, if the index knows of one, is to be renewed. */
  method AwaitDue(app: App, domain: string)
    requires app.world.Valid() && app.Wired()
    modifies app.world
    ensures app.world.Valid() && old(app.world.run) <= app.world.run && old(app.world.now) <= app.world.now
    ensures app.world.s3 == old(app.world.s3) && app.world.tlsa == old(app.world.tlsa)
    ensures Due(app.closet.index, domain, app.world.now)
  {
    if domain in app.closet.index {
      var wait := app.closet.index[domain].expires - app.world.now - 59 * DAY;
      app.world.Wait(if wait > 0 then wait else 0);
    }
  }

  method NextRollover(app: App, domain: string, cfg: RenewConfig, plan: Plan) returns (ghost round: Round)
    requires app.world.Valid() && app.Wired() && app.world.reliable && domain == app.world.focus
    requires Planned(app, domain, cfg, plan)
    requires AtRest(app.world.ViewAt(domain)) && Open(cfg, StoredFailures(app.world.s3), domain, app.world.now)
    modifies app, app.closet, app.world
    ensures app.world.Valid() && old(app.world.run) <= app.world.run
    ensures RoundOf(cfg, old(app.world.ViewAt(domain)), round, app.world.ViewAt(domain))
    ensures AtRest(app.world.ViewAt(domain)) && Open(cfg, StoredFailures(app.world.s3), domain, app.world.now)
    ensures app.requested[domain] == old(app.requested[domain]) + 1
  {
    AwaitDue(app, domain);
    ghost var v, w, x;
    round, v, w, x := CompleteRollover(app, domain, cfg, plan);
  }

  /**
    Any number of rollovers, each once the last certificate is due: each of them requests one
    certificate, and at the end the RRset is the one association of the last certificate.
   */
  method CompleteRollovers(app: App, domain: string, cfg: RenewConfig, plans: seq<Plan>)
    returns (ghost views: seq<View>, ghost rounds: seq<Round>)
    requires app.world.Valid() && app.Wired() && app.world.reliable && domain == app.world.focus
    requires forall plan :: plan in plans ==> Planned(app, domain, cfg, plan)
    requires AtRest(app.world.ViewAt(domain)) && Open(cfg, StoredFailures(app.world.s3), domain, app.world.now)
    modifies app, app.closet, app.world
    ensures app.world.Valid() && old(app.world.run) <= app.world.run
    ensures |rounds| == |plans| && Chained(cfg, views, rounds)
    ensures views[0] == old(app.world.ViewAt(domain)) && views[|plans|] == app.world.ViewAt(domain)
    ensures app.requested[domain] == old(app.requested[domain]) + |plans|
    ensures AtRest(app.world.ViewAt(domain))
    ensures plans != [] ==> app.world.ViewAt(domain).rrset == {rounds[|plans| - 1].next}
  {
    views, rounds := [app.world.ViewAt(domain)], [];
    for i := 0 to |plans|
      invariant app.world.Valid() && old(app.world.run) <= app.world.run
      invariant AtRest(app.world.ViewAt(domain)) && Open(cfg, StoredFailures(app.world.s3), domain, app.world.now)
      invariant |rounds| == i && Chained(cfg, views, rounds)
      invariant views[0] == old(app.world.ViewAt(domain)) && views[i] == app.world.ViewAt(domain)
      invariant app.requested[domain] == old(app.requested[domain]) + i
    {
      ghost var round := NextRollover(app, domain, cfg, plans[i]);
      ChainExtends(cfg, views, rounds, round, app.world.ViewAt(domain));
      views, rounds := views + [app.world.ViewAt(domain)], rounds + [round];
    }
    RoundsConserve(cfg, views, rounds);
  }

  /** The domain is somewhere in a duplicate-free list whose domains all suit the configuration. */
  ghost predicate Listed(app: App, domain: string, cfg: RenewConfig, list: seq<string>) {
    Distinct(list) && domain in list && forall d :: d in list ==> app.Suits(cfg, d)
  }

  method FirstVisit(app: App, domain: string, cfg: RenewConfig, list: seq<string>) returns (ghost v: Visit)
    requires app.world.Valid() && app.Wired() && app.world.reliable
    requires domain == app.world.focus && Listed(app, domain, cfg, list)
    requires AtRest(app.world.ViewAt(domain)) && Due(app.closet.index, domain, app.world.now)
    requires Open(cfg, StoredFailures(app.world.s3), domain, app.world.now)
    modifies app, app.closet, app.world
    ensures app.world.Valid() && old(app.world.run) <= app.world.run
    ensures v.run.start == old(app.Books(map[])) && v.run.end == app.Books(v.run.end.lastFailure)
    ensures Begun(app.TermsOf(cfg), v, domain) && v.run.domains == list
  {
    v := OneVisit(app, domain, cfg, list);
    ghost var t := app.TermsOf(cfg);
    FirstRun(t, v.run, v.p, domain);
    RecordedRolloverIsPublished(app.world.timing, app.world.run, |app.world.run| - 1);
    BeginsRollover(t, v, domain);
  }

  method LaterVisit(app: App, domain: string, cfg: RenewConfig, list: seq<string>, ghost v: Visit, wait: nat)
    returns (ghost w: Visit)
    requires app.world.Valid() && app.Wired() && app.world.reliable
    requires domain == app.world.focus && Listed(app, domain, cfg, list)
    requires v.run.end == app.Books(v.run.end.lastFailure)
    modifies app, app.closet, app.world
    ensures app.world.Valid() && old(app.world.run) <= app.world.run
    ensures Later(v, w, wait) && w.run.end == app.Books(w.run.end.lastFailure)
    ensures Visits(app.TermsOf(cfg), w, domain) && w.run.domains == list
  {
    app.world.Wait(wait);
    w := OneVisit(app, domain, cfg, list);
  }

  method OneVisit(app: App, domain: string, cfg: RenewConfig, list: seq<string>) returns (ghost v: Visit)
    requires app.world.Valid() && app.Wired() && app.world.reliable
    requires domain == app.world.focus && Listed(app, domain, cfg, list)
    modifies app, app.closet, app.world
    ensures app.world.Valid() && old(app.world.run) <= app.world.run
    ensures Visits(app.TermsOf(cfg), v, domain) && v.run.domains == list
    ensures v.run.start == old(app.Books(map[])) && v.run.end == app.Books(v.run.end.lastFailure)
  {
    var renewed, failed;
    ghost var r;
    renewed, failed, r := app.Renew(cfg, list);
    ghost var p := OnesTurn(r, domain);
    v := Visit(r, p);
  }
}
