/** The renewing process over its whole life. */
module Daemon {
  import opened Prelude
  import opened Names
  import opened DnsKeys
  import opened RolloverProtocol
  import opened Cloud
  import opened CertCloset
  import opened DnsUpdate
  import opened Turns
  import opened Runs
  import opened Renew

  /** Every list that a run may be given suits the configuration. */
  ghost predicate AllSuit(t: Terms, world: World, wakeUps: seq<seq<string>>, ignoredDomains: seq<string>) {
    forall i, d :: 0 <= i < |wakeUps| && d in wakeUps[i] && d !in ignoredDomains ==>
      Suiting(t, world.focus, world.timing, d)
  }

  /** Some run is given the focus. */
  ghost predicate Listed(focus: string, wakeUps: seq<seq<string>>, ignoredDomains: seq<string>) {
    focus !in ignoredDomains && exists i :: 0 <= i < |wakeUps| && focus in wakeUps[i]
  }

  /** In no run is more than one certificate requested for a domain. */
  ghost predicate OneRequestARun(runs: seq<Run>) {
    forall i, d :: 0 <= i < |runs| && ProperName(d) ==> runs[i].end.requested[d] <= runs[i].start.requested[d] + 1
  }

  /** A domain that is up to date after one run is not requested by any that ends in time. */
  ghost predicate NoneTooEarly(t: Terms, runs: seq<Run>) {
    forall i: nat, j: nat, d, until ::
      i <= j < |runs| && ProperName(d) && UpToDate(t, runs[i].end, d, until) && runs[j].end.now <= until ==>
        NotRequested(runs, i, j, d)
  }

  /**
    A process opens its closet or fails to start; then there is one run at once and one at every tick
    or trigger.  The domains may differ from run to run.  However many runs there are and whatever
    fails in them, the focus never has a DANE gap if the waits are long enough.
   */
  method RunRenewDaemon(world: World, keys: KeyMap, pushPrivateKey: bool, cfg: RenewConfig,
                        wakeUps: seq<seq<string>>, ignoredDomains: seq<string>)
    returns (closet: Option<CertCloset>, ghost runs: seq<Run>)
    requires world.Valid() && AllSuit(Terms(cfg, keys, world.reliable), world, wakeUps, ignoredDomains)
    modifies world
    ensures world.Valid() && old(world.run) <= world.run
    ensures Patient(world.timing) || (Covers(cfg, world.timing) && Listed(world.focus, wakeUps, ignoredDomains)) ==>
              forall k :: 0 < k <= |world.run| ==> Continuous(world.timing, world.run[..k])
    ensures closet.Some? ==> closet.value.world == world && closet.value.Synced()
    ensures world.reliable && (INDEX_KEY in old(world.s3) ==> old(world.s3)[INDEX_KEY].IndexObject?) ==> closet.Some?
    ensures closet.Some? ==>
              && |runs| == |wakeUps| && History(Terms(cfg, keys, world.reliable), runs)
              && OneRequestARun(runs) && NoneTooEarly(Terms(cfg, keys, world.reliable), runs)
    // the history is that of this process, from its first request to what it leaves
    ensures closet.Some? && runs != [] ==>
              && runs[0].start.s3 == old(world.s3) && runs[0].start.tlsa == old(world.tlsa)
              && runs[0].start.index == PersistedIndex(old(world.s3)) && runs[0].start.requested == multiset{}
              && runs[|runs| - 1].end.s3 == world.s3 && runs[|runs| - 1].end.tlsa == world.tlsa
              && runs[|runs| - 1].end.index == closet.value.index
  {
    runs := [];
    closet := NewCertCloset(world, pushPrivateKey);
    if closet.Some? { runs := RunWith(world, closet.value, keys, cfg, wakeUps, ignoredDomains); }
    NeverAGap(world, keys, cfg, wakeUps, ignoredDomains);
  }

  /** The runs of a process that has opened its closet. */
  method RunWith(world: World, closet: CertCloset, keys: KeyMap, cfg: RenewConfig, wakeUps: seq<seq<string>>,
                 ignoredDomains: seq<string>)
    returns (ghost runs: seq<Run>)
    requires world.Valid() && closet.world == world && closet.Synced()
    requires AllSuit(Terms(cfg, keys, world.reliable), world, wakeUps, ignoredDomains)
    modifies world, closet
    ensures world.Valid() && old(world.run) <= world.run && closet.Synced()
    ensures |runs| == |wakeUps| && History(Terms(cfg, keys, world.reliable), runs)
    ensures OneRequestARun(runs) && NoneTooEarly(Terms(cfg, keys, world.reliable), runs)
    ensures runs != [] ==>
              && runs[0].start.s3 == old(world.s3) && runs[0].start.tlsa == old(world.tlsa)
              && runs[0].start.index == old(closet.index) && runs[0].start.requested == multiset{}
              && runs[|runs| - 1].end.s3 == world.s3 && runs[|runs| - 1].end.tlsa == world.tlsa
              && runs[|runs| - 1].end.index == closet.index
  {
    var updater := new Updater(world, keys);
    var app := new App(world, closet, updater);
    runs := Serve(app, cfg, wakeUps, ignoredDomains);
    OneRequestEachRun(Terms(cfg, keys, world.reliable), runs);
    EachInItsTime(Terms(cfg, keys, world.reliable), runs);
  }

  lemma NeverAGap(world: World, keys: KeyMap, cfg: RenewConfig, wakeUps: seq<seq<string>>, ignoredDomains: seq<string>)
    requires world.Valid() && AllSuit(Terms(cfg, keys, world.reliable), world, wakeUps, ignoredDomains)
    ensures Patient(world.timing) || (Covers(cfg, world.timing) && Listed(world.focus, wakeUps, ignoredDomains)) ==>
              forall k :: 0 < k <= |world.run| ==> Continuous(world.timing, world.run[..k])
  {
    if Listed(world.focus, wakeUps, ignoredDomains) {
      PatientIffCovers(Terms(cfg, keys, world.reliable), world.focus, world.timing);
    }
    if Patient(world.timing) { world.FocusIsContinuous(); }
  }

  method Serve(app: App, cfg: RenewConfig, wakeUps: seq<seq<string>>, ignoredDomains: seq<string>)
    returns (ghost runs: seq<Run>)
    requires app.world.Valid() && app.Wired() && AllSuit(app.TermsOf(cfg), app.world, wakeUps, ignoredDomains)
    modifies app, app.closet, app.world
    ensures app.world.Valid() && old(app.world.run) <= app.world.run
    ensures |runs| == |wakeUps| && History(app.TermsOf(cfg), runs)
    ensures runs != [] ==> runs[0].start == old(app.Books(map[]))
    ensures runs != [] ==> runs[|runs| - 1].end == app.Books(runs[|runs| - 1].end.lastFailure)
    ensures old(app.closet.Synced()) ==> app.closet.Synced()
  {
    runs := [];
    for i := 0 to |wakeUps|
      invariant app.world.Valid() && old(app.world.run) <= app.world.run
      invariant |runs| == i && History(app.TermsOf(cfg), runs)
      invariant i == 0 ==> app.Books(map[]) == old(app.Books(map[]))
      invariant i > 0 ==> runs[0].start == old(app.Books(map[]))
      invariant i > 0 ==> runs[i - 1].end == app.Books(runs[i - 1].end.lastFailure)
      invariant old(app.closet.Synced()) ==> app.closet.Synced()
    {
      if i > 0 { app.world.Wait(0); }
      var domains, renewed, failed;
      ghost var r;
      domains, renewed, failed, r := app.RenewConfigured(cfg, wakeUps[i], ignoredDomains);
      HistoryExtends(app.TermsOf(cfg), runs, r);
      runs := runs + [r];
    }
  }

  lemma OneRequestEachRun(t: Terms, runs: seq<Run>)
    requires History(t, runs)
    ensures OneRequestARun(runs)
  {
    forall i, d | 0 <= i < |runs| && ProperName(d)
      ensures runs[i].end.requested[d] <= runs[i].start.requested[d] + 1
    {
      OneRequestEach(t, runs[i], d);
    }
  }

  lemma EachInItsTime(t: Terms, runs: seq<Run>)
    requires History(t, runs)
    ensures NoneTooEarly(t, runs)
  {
    assert Lineage(t, runs);
    forall i: nat, j: nat, d, until |
      i <= j < |runs| && ProperName(d) && UpToDate(t, runs[i].end, d, until) && runs[j].end.now <= until
      ensures NotRequested(runs, i, j, d)
    {
      CurrentOverRuns(t, runs, i, j, d, until);
    }
  }
}
