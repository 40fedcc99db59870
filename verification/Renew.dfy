/** The renewing process: the loop over all domains and the steps of one domain's TLSA rollover. */
module Renew {
  import opened Prelude
  import opened Names
  import opened DnsKeys
  import opened RolloverProtocol
  import opened Cloud
  import opened CertCloset
  import opened DnsUpdate
  import opened Backoff
  import opened Calendar
  import opened Turns
  import opened Runs

  /**
    What continuity of the focus asks of the configuration: the focus, if it is this domain, is under
    the protocol with the waits of its timing, and no other domain owns its TLSA RRset.
   */
  ghost predicate Suiting(t: Terms, focus: string, timing: Timing, domain: string) {
    && ProperName(domain)
    && (domain == focus ==>
          && UsesRollover(t, domain)
          && AsksForTtl(t.cfg, timing.ttlSeconds) && AsksForLag(t.cfg, timing.lagSeconds))
    && (domain != focus && !IsWildcard(domain) ==> TlsaOwner(domain) != TlsaOwner(focus))
  }

  /** The resolvers' cache lifetime and the nodes' sync lag are within what the configuration waits for. */
  predicate Covers(cfg: RenewConfig, timing: Timing) {
    && timing.cacheTtl <= (if cfg.tlsaTtlSeconds > 0 then cfg.tlsaTtlSeconds else 3600) * SECOND
    && timing.syncLag <= (if cfg.syncLagSeconds > 0 then cfg.syncLagSeconds else 300) * SECOND
  }

  /** A configuration is patient exactly if its own two numbers, or their defaults, are long enough. */
  lemma PatientIffCovers(t: Terms, focus: string, timing: Timing)
    requires Suiting(t, focus, timing, focus)
    ensures Patient(timing) <==> Covers(t.cfg, timing)
  {
  }

  /** Among plain names a proper one other than the focus always suits. */
  lemma PlainNamesSuit(t: Terms, focus: string, timing: Timing, domain: string)
    requires PlainName(focus) && PlainName(domain) && ProperName(domain) && domain != focus
    ensures Suiting(t, focus, timing, domain)
  {
    OwnersDiffer(domain, focus);
  }

  class App {
    const world: World
    const closet: CertCloset
    const updater: Updater
    ghost var requested: multiset<string>   // ACME requests, by domain

    constructor (world: World, closet: CertCloset, updater: Updater)
      requires closet.world == world && updater.world == world
      ensures this.world == world && this.closet == closet && this.updater == updater && Wired()
      ensures requested == multiset{}
    {
      this.world, this.closet, this.updater := world, closet, updater;
      this.requested := multiset{};
    }

    ghost predicate Wired() {
      closet.world == world && updater.world == world
    }

    ghost function TermsOf(cfg: RenewConfig): Terms {
      Terms(cfg, updater.keys, world.reliable)
    }

    ghost predicate Suits(cfg: RenewConfig, domain: string) {
      Suiting(TermsOf(cfg), world.focus, world.timing, domain)
    }

    /** The world and the process as they are, with these failure times. */
    ghost function Books(lastFailure: map<string, Stamp>): Snapshot
      reads this, world, closet
    {
      Snapshot(world.s3, world.tlsa, world.now, requested, closet.stores, closet.saves, closet.index, lastFailure)
    }

    lemma OtherRRsetMayChange(cfg: RenewConfig, domain: string, rrset: set<Hash>)
      requires world.Valid() && Suits(cfg, domain) && domain != world.focus && !IsWildcard(domain)
      ensures world.MayBecome(world.s3, world.tlsa[TlsaOwner(domain) := rrset])
    {
    }

    // ---------------------------------------------------------------- the ACME server

    /** The issued certificate is for the requested domain and carries the key of the request. */
    method RequestCertWithKey(domain: string, key: Key) returns (cert: Option<Cert>)
      requires world.Valid()
      modifies world`now, world`run, `requested
      ensures world.Progress()
      ensures requested == old(requested) + multiset{domain}
      ensures cert.Some? ==> cert.value.domain == domain && CertHash(cert) == Some(key.tlsa)
      ensures world.reliable ==> cert.Some?
    {
      world.Wait(0);
      requested := requested + multiset{domain};
      var ok: bool := *;
      var notAfter: int := *;
      cert := if ok || world.reliable then Some(Cert(domain, Some(Leaf(key.tlsa, notAfter)))) else None;
    }

    /** A certificate on a key that the ACME client generates itself; its text may be unreadable. */
    method RequestCert(domain: string) returns (cert: Option<Cert>)
      requires world.Valid()
      modifies world`now, world`run, world`drawn, `requested
      ensures world.Valid() && old(world.run) <= world.run && old(world.now) <= world.now
      ensures world.Pc() == old(world.Pc())
      ensures requested == old(requested) + multiset{domain}
      ensures cert.Some? ==> cert.value.domain == domain
      ensures world.reliable ==> cert.Some?
    {
      var key := world.GenerateKey();
      requested := requested + multiset{domain};
      var ok: bool, readable: bool := *, *;
      var notAfter: int := *;
      if key.Some? && (ok || world.reliable) {
        cert := Some(Cert(domain, if readable then Some(Leaf(key.value.tlsa, notAfter)) else None));
      } else {
        cert := None;
      }
    }

    // ---------------------------------------------------------------- one domain's rollover

    /** The first call of phase one: publish the association of a new key. */
    method Publish(domain: string, base: string, cfg: RenewConfig, prior: Hash, key: Key) returns (ok: bool)
      requires world.Valid() && Wired() && Suits(cfg, domain) && base == BaseDomain(domain)
      requires UsesRollover(TermsOf(cfg), domain)
      requires world.Pc() == Idle && world.ViewAt(domain).record.None?
      requires prior == "" || world.ViewAt(domain).cert == Some(prior)
      requires world.Fresh(key)
      modifies world`now, world`run, world`tlsa
      ensures world.Valid() && old(world.run) <= world.run && old(world.now) <= world.now
      ensures ZoneApart(world.tlsa, domain) == ZoneApart(old(world.tlsa), domain)
      ensures || world.ViewAt(domain)
                 == old(world.ViewAt(domain)).(rrset := RRset(old(world.tlsa), domain) + {key.tlsa})
              || (!ok && world.ViewAt(domain) == old(world.ViewAt(domain)))
      ensures world.Pc() == if ok && domain == world.focus then KeepingKey(prior, key.tlsa) else Idle
      ensures world.reliable ==> ok
    {
      world.GotoPublishing(domain, prior, key);
      if domain != world.focus { OtherRRsetMayChange(cfg, domain, RRset(world.tlsa, domain) + {key.tlsa}); }
      ok := updater.AddTLSA(base, key.tlsa);
      world.Goto(domain, if ok then KeepingKey(prior, key.tlsa) else Idle);
    }

    /** The second half: store the key, then the record that names its association. */
    method Persist(domain: string, prior: Hash, key: Key, cfg: RenewConfig) returns (err: bool)
      requires world.Valid() && Wired() && Suits(cfg, domain)
      requires world.Pc() == if domain == world.focus then KeepingKey(prior, key.tlsa) else Idle
      modifies world`now, world`run, world`s3
      ensures world.Valid() && world.Pc() == Idle && old(world.run) <= world.run && old(world.now) <= world.now
      ensures Apart(world.s3, domain) == Apart(old(world.s3), domain)
      ensures err ==>
                || world.ViewAt(domain) == old(world.ViewAt(domain))
                || world.ViewAt(domain) == old(world.ViewAt(domain)).(pending := Some(key.tlsa))
                || Recorded(old(world.ViewAt(domain)), world.ViewAt(domain), prior, key.tlsa, cfg,
                            old(world.now), world.now)
      ensures !err ==>
                Recorded(old(world.ViewAt(domain)), world.ViewAt(domain), prior, key.tlsa, cfg,
                            old(world.now), world.now)
      ensures world.reliable ==> !err
    {
      var kept := closet.StorePendingKey(domain, key);
      if !kept { world.Goto(domain, Idle); return true; }
      err := PersistRecord(domain, prior, key, cfg);
    }

    /** The record names the association whose key has been kept. */
    method PersistRecord(domain: string, prior: Hash, key: Key, cfg: RenewConfig) returns (err: bool)
      requires world.Valid() && Wired() && Suits(cfg, domain) && world.ViewAt(domain).pending == Some(key.tlsa)
      requires world.Pc() == if domain == world.focus then KeepingKey(prior, key.tlsa) else Idle
      modifies world`now, world`run, world`s3
      ensures world.Valid() && world.Pc() == Idle && old(world.run) <= world.run && old(world.now) <= world.now
      ensures Apart(world.s3, domain) == Apart(old(world.s3), domain)
      ensures || Recorded(old(world.ViewAt(domain)), world.ViewAt(domain), prior, key.tlsa, cfg,
                          old(world.now), world.now)
              || (err && world.ViewAt(domain) == old(world.ViewAt(domain)))
      ensures world.reliable ==> !err
    {
      var rec := RolloverState(PrePublishing, prior, key.tlsa, world.now, ResolvedTtl(cfg), ResolvedLag(cfg));
      world.Goto(domain, Recording(rec));
      var recorded := closet.StoreRolloverState(domain, rec);
      world.Goto(domain, Idle);
      err := !recorded;
    }

    /** The association of the stored certificate, or none if there is no certificate or it cannot be read. */
    method PriorAssociation(domain: string) returns (prior: Hash)
      requires world.Valid() && Wired() && ProperName(domain)
      modifies world`now, world`run
      ensures world.Progress()
      ensures prior == "" || world.ViewAt(domain).cert == Some(prior)
      ensures world.reliable && world.ViewAt(domain).cert.Some? ==> world.ViewAt(domain).cert.value == prior
    {
      prior := "";
      var existing := closet.RetrieveCertificate(domain);
      if existing.Retrieved? && existing.cert.leaf.Some? {
        prior := existing.cert.leaf.value.tlsa;
      }
    }

    /** Publish the association of a new key, then keep the key, then keep the record. */
    method PublishAndPersist(domain: string, base: string, cfg: RenewConfig, prior: Hash, key: Key)
      returns (err: bool)
      requires world.Valid() && Wired() && Suits(cfg, domain) && base == BaseDomain(domain)
      requires UsesRollover(TermsOf(cfg), domain)
      requires world.Pc() == Idle && world.ViewAt(domain).record.None?
      requires prior == "" || world.ViewAt(domain).cert == Some(prior)
      requires world.Fresh(key)
      modifies world`now, world`run, world`s3, world`tlsa
      ensures world.Valid() && world.Pc() == Idle && old(world.run) <= world.run && old(world.now) <= world.now
      ensures Apart(world.s3, domain) == Apart(old(world.s3), domain)
      ensures ZoneApart(world.tlsa, domain) == ZoneApart(old(world.tlsa), domain)
      ensures Started(old(world.ViewAt(domain)), world.ViewAt(domain), prior, key.tlsa, cfg, old(world.now), world.now)
      ensures !err ==> world.ViewAt(domain).record.Some?
      ensures world.reliable ==> !err
    {
      var published := Publish(domain, base, cfg, prior, key);
      if !published { return true; }
      err := Persist(domain, prior, key, cfg);
    }

    /** Phase one of a rollover, for a key that has been generated for it. */
    method StartRollover(domain: string, base: string, cfg: RenewConfig)
      returns (err: bool, ghost prior: Hash, ghost next: Hash)
      requires world.Valid() && Wired() && Suits(cfg, domain) && base == BaseDomain(domain)
      requires UsesRollover(TermsOf(cfg), domain)
      requires world.Pc() == Idle && world.ViewAt(domain).record.None?
      modifies world`now, world`run, world`s3, world`tlsa, world`drawn
      ensures world.Valid() && world.Pc() == Idle && old(world.run) <= world.run && old(world.now) <= world.now
      ensures Apart(world.s3, domain) == Apart(old(world.s3), domain)
      ensures ZoneApart(world.tlsa, domain) == ZoneApart(old(world.tlsa), domain)
      ensures prior == "" || world.ViewAt(domain).cert == Some(prior)
      ensures Started(old(world.ViewAt(domain)), world.ViewAt(domain), prior, next, cfg, old(world.now), world.now)
      ensures !err ==> world.ViewAt(domain).record.Some? && next != ""
      ensures world.ViewAt(domain).record.Some? ==>
                var rec := world.ViewAt(domain).record.value;
                && rec.ttlSeconds == (if cfg.tlsaTtlSeconds > 0 then cfg.tlsaTtlSeconds else 3600)
                && rec.lagSeconds == (if cfg.syncLagSeconds > 0 then cfg.syncLagSeconds else 300)
      ensures world.reliable ==> !err
      ensures world.reliable && world.ViewAt(domain).cert.Some? ==> world.ViewAt(domain).cert.value == prior
    {
      next := "";
      var former := PriorAssociation(domain);
      prior := former;
      var key := world.GenerateKey();
      if key.None? { err := true; return; }
      next := key.value.tlsa;
      err := PublishAndPersist(domain, base, cfg, former, key.value);
    }

    // ---------------------------------------------------------------- advancing

    /** Certify the pending key and store the certificate. */
    method ObtainCertificate(domain: string, rec: RolloverState) returns (ok: bool)
      requires world.Valid() && Wired() && ProperName(domain)
      requires world.Pc() == if domain == world.focus then Requesting(rec) else Idle
      modifies world`now, world`run, world`s3, closet`index, closet`dirty, closet`stores, `requested
      ensures world.Valid() && old(world.run) <= world.run && old(world.now) <= world.now
      ensures if ok && domain == world.focus
              then world.Pc().Switching? && world.Pc().rec == rec
                   && world.ViewAt(domain).cert == Some(world.Pc().issued)
              else world.Pc() == Idle
      ensures Apart(world.s3, domain) == Apart(old(world.s3), domain)
      ensures requested == old(requested) || requested == old(requested) + multiset{domain}
      ensures ok ==> requested == old(requested) + multiset{domain}
      ensures closet.stores == old(closet.stores) + if ok then 1 else 0
      ensures closet.index - {domain} == old(closet.index) - {domain}
      ensures !ok ==> closet.index == old(closet.index)
      ensures old(closet.Synced()) ==> closet.Synced()
      ensures world.ViewAt(domain) == old(world.ViewAt(domain))
              || (old(world.ViewAt(domain)).pending.Some?
                  && world.ViewAt(domain) == old(world.ViewAt(domain)).(cert := old(world.ViewAt(domain)).pending))
      ensures ok ==> world.ViewAt(domain).pending.Some? && world.ViewAt(domain).cert == world.ViewAt(domain).pending
      ensures world.reliable && old(world.ViewAt(domain)).pending.Some? ==> ok
    {
      var key := closet.LoadPendingKey(domain);
      if key.None? { world.Goto(domain, Idle); return false; }

      var cert := RequestCertWithKey(domain, key.value);
      if cert.None? { world.Goto(domain, Idle); return false; }

      world.Goto(domain, Switching(rec, key.value.tlsa));
      ok := closet.StoreCertificate(cert.value);
      if ok {
        UpdateKeepsRest(old(closet.index), domain, closet.index[domain]);
      } else {
        world.Goto(domain, Idle);
      }
    }

    /** The certificate is stored: note the switch in the record. */
    method NoteSwitch(domain: string, base: string, rec: RolloverState) returns (ok: bool)
      requires world.Valid() && Wired() && ProperName(domain)
      requires if domain == world.focus
               then world.Pc().Switching? && world.Pc().rec == rec
                   && world.ViewAt(domain).cert == Some(world.Pc().issued)
               else world.Pc() == Idle
      modifies world`now, world`run, world`s3
      ensures world.Valid() && world.Pc() == Idle && old(world.run) <= world.run && old(world.now) <= world.now
      ensures Apart(world.s3, domain) == Apart(old(world.s3), domain)
      ensures || SwitchNoted(old(world.ViewAt(domain)), world.ViewAt(domain), rec, old(world.now), world.now)
              || (!ok && world.ViewAt(domain) == old(world.ViewAt(domain)))
      ensures world.reliable ==> ok
    {
      var rs := RolloverState(CertSwitched, rec.oldTlsa, rec.newTlsa, world.now, 0, rec.lagSeconds);
      world.Goto(domain, Advancing(rs));
      ok := closet.StoreRolloverState(domain, rs);
      world.Goto(domain, Idle);
      if ok { var _ := updater.UpdateCAA(base); }
    }

    /** Phase two, once the wait is over: certify the pending key, store the certificate, note the switch. */
    method SwitchCertificate(domain: string, base: string, rec: RolloverState) returns (err: bool, renewed: nat)
      requires world.Valid() && Wired() && ProperName(domain)
      requires world.Pc() == Idle && world.ViewAt(domain).record == Some(rec) && rec.phase.PrePublishing?
      requires world.now - rec.startedAt >= rec.ttlSeconds * SECOND
      modifies world`now, world`run, world`s3, closet`index, closet`dirty, closet`stores, `requested
      ensures world.Valid() && world.Pc() == Idle && old(world.run) <= world.run && old(world.now) <= world.now
      ensures Apart(world.s3, domain) == Apart(old(world.s3), domain)
      ensures closet.stores == old(closet.stores) + renewed && renewed <= 1
      ensures requested == old(requested) || requested == old(requested) + multiset{domain}
      ensures renewed == 1 ==> requested == old(requested) + multiset{domain}
      ensures closet.index - {domain} == old(closet.index) - {domain}
      ensures renewed == 0 ==> err && closet.index == old(closet.index)
      ensures old(closet.Synced()) ==> closet.Synced()
      ensures Switched(old(world.ViewAt(domain)), world.ViewAt(domain), rec, old(world.now), world.now, renewed, err)
      ensures world.reliable && old(world.ViewAt(domain)).pending.Some? ==> !err
    {
      world.Goto(domain, Requesting(rec));
      var ok := ObtainCertificate(domain, rec);
      if !ok { return true, 0; }
      ghost var s3 := world.s3;
      var noted := NoteSwitch(domain, base, rec);
      OwnChange(s3, world.s3, domain);
      return !noted, 1;
    }

    /**
      Withdraw the old association; give up only while the record is younger than ten sync lags, which
      is looked up at instant tried.
     */
    method Withdraw(domain: string, base: string, rec: RolloverState, cfg: RenewConfig)
      returns (gaveUp: bool, ghost tried: int)
      requires world.Valid() && Wired() && Suits(cfg, domain) && base == domain && !IsWildcard(domain)
      requires world.Pc() == if domain == world.focus then Withdrawing(rec) else Idle
      modifies world`now, world`run, world`tlsa
      ensures world.Progress()
      ensures ZoneApart(world.tlsa, domain) == ZoneApart(old(world.tlsa), domain)
      ensures world.ViewAt(domain) == old(world.ViewAt(domain))
              || world.ViewAt(domain)
                 == old(world.ViewAt(domain)).(rrset := RRset(old(world.tlsa), domain) - {rec.oldTlsa})
      ensures rec.oldTlsa == "" ==> world.ViewAt(domain) == old(world.ViewAt(domain))
      ensures old(world.now) <= tried <= world.now
      ensures gaveUp ==> tried - rec.startedAt < 10 * rec.lagSeconds * SECOND
      ensures !gaveUp ==> Withdrawn(world.ViewAt(domain), rec, HasKey(updater.keys, domain), tried)
      ensures world.reliable ==> !gaveUp
      ensures world.reliable ==>
                RRset(world.tlsa, domain) == Kept(RRset(old(world.tlsa), domain), rec, HasKey(updater.keys, domain))
    {
      gaveUp, tried := false, world.now;
      if rec.oldTlsa == "" { world.Wait(0); return; }
      var removed := RetryRemoveTLSA(domain, base, rec.oldTlsa, cfg);
      tried := world.now;
      gaveUp := !removed && world.now - rec.startedAt < rec.lagSeconds * 10 * SECOND;
    }

    /** Drop the pending key, as far as that succeeds, then the record. */
    method CloseRollover(domain: string, rec: RolloverState) returns (ok: bool)
      requires world.Valid() && Wired() && ProperName(domain)
      requires world.Pc() == if domain == world.focus then Withdrawing(rec) else Idle
      modifies world`now, world`run, world`s3
      ensures world.Valid() && world.Pc() == Idle && old(world.run) <= world.run && old(world.now) <= world.now
      ensures Apart(world.s3, domain) == Apart(old(world.s3), domain)
      ensures Closed(old(world.ViewAt(domain)), world.ViewAt(domain))
      ensures ok ==> world.ViewAt(domain).record.None?
      ensures world.reliable ==> ok && world.ViewAt(domain).pending.None?
    {
      world.Goto(domain, Cleaning(rec));
      var _ := closet.DeletePendingKey(domain);
      world.Goto(domain, Closing(rec));
      ok := closet.DeleteRolloverState(domain);
      world.Goto(domain, Idle);
    }

    /** Phase three, once the wait is over: withdraw the old association, then drop key and record. */
    method FinishRollover(domain: string, base: string, rec: RolloverState, cfg: RenewConfig)
      returns (err: bool, gaveUp: bool, ghost tried: int)
      requires world.Valid() && Wired() && Suits(cfg, domain) && base == domain && !IsWildcard(domain)
      requires world.Pc() == Idle && world.ViewAt(domain).record == Some(rec) && rec.phase.CertSwitched?
      requires world.now - rec.startedAt >= rec.lagSeconds * SECOND
      modifies world`now, world`run, world`s3, world`tlsa
      ensures world.Valid() && world.Pc() == Idle && old(world.run) <= world.run && old(world.now) <= world.now
      ensures Apart(world.s3, domain) == Apart(old(world.s3), domain)
      ensures ZoneApart(world.tlsa, domain) == ZoneApart(old(world.tlsa), domain)
      ensures Finished(old(world.ViewAt(domain)), world.ViewAt(domain), rec)
      ensures !err ==> world.ViewAt(domain).record.None?
      ensures old(world.now) <= tried <= world.now
      ensures gaveUp ==> err && tried - rec.startedAt < 10 * rec.lagSeconds * SECOND
      ensures !gaveUp ==> Withdrawn(world.ViewAt(domain), rec, HasKey(updater.keys, domain), world.now)
      ensures world.reliable ==>
                !err && OnTime(old(world.ViewAt(domain)), world.ViewAt(domain), rec,
                               HasKey(updater.keys, domain), old(world.now), world.now)
    {
      world.Goto(domain, Withdrawing(rec));
      gaveUp, tried := Withdraw(domain, base, rec, cfg);
      if gaveUp { world.Goto(domain, Idle); return true, gaveUp, tried; }
      var closed := CloseRollover(domain, rec);
      err := !closed;
    }

    method ResetRollover(domain: string, rec: RolloverState)
      requires world.Valid() && Wired() && ProperName(domain)
      requires world.Pc() == Idle && world.ViewAt(domain).record == Some(rec) && rec.phase.PrePublishing?
      modifies world`now, world`run, world`s3
      ensures world.Valid() && world.Pc() == Idle && old(world.run) <= world.run && old(world.now) <= world.now
      ensures Apart(world.s3, domain) == Apart(old(world.s3), domain)
      ensures || world.ViewAt(domain) == old(world.ViewAt(domain)).(record := None)
              || (!world.reliable && world.ViewAt(domain) == old(world.ViewAt(domain)))
    {
      world.Goto(domain, Resetting(rec));
      var _ := closet.DeleteRolloverState(domain);
      world.Goto(domain, Idle);
    }

    /** In phase one: a pending key that cannot be loaded, for whatever reason, drops the record. */
    method LeavePrePublishing(domain: string, base: string, rec: RolloverState, cfg: RenewConfig,
                              ghost lastFailure: map<string, Stamp>)
      returns (err: bool, renewed: nat, ghost kind: Kind)
      requires world.Valid() && Wired() && Suits(cfg, domain) && base == domain && !IsWildcard(domain) && cfg.dnsEnabled
      requires world.Pc() == Idle && world.ViewAt(domain).record == Some(rec) && rec.phase.PrePublishing?
      modifies world`now, world`run, world`s3, closet`index, closet`dirty, closet`stores, `requested
      ensures world.Valid() && world.Pc() == Idle && old(world.run) <= world.run
      ensures kind.Advance? && kind.renewed == renewed
      ensures AdvanceMade(TermsOf(cfg), old(Books(lastFailure)), Books(lastFailure), domain, kind, err)
      ensures old(closet.Synced()) ==> closet.Synced()
    {
      renewed, err := 0, false;
      var probe := closet.LoadPendingKey(domain);
      if probe.None? {
        ResetRollover(domain, rec);
      } else if world.now - rec.startedAt >= rec.ttlSeconds * SECOND {
        err, renewed := SwitchCertificate(domain, base, rec);
      }
      kind := Advance(old(world.now), world.now, renewed, false, 0);
      OwnChange(old(world.s3), world.s3, domain);
    }

    /** In phase two the sync lag is waited for. */
    method LeaveCertSwitched(domain: string, base: string, rec: RolloverState, cfg: RenewConfig,
                             ghost lastFailure: map<string, Stamp>)
      returns (err: bool, ghost kind: Kind)
      requires world.Valid() && Wired() && Suits(cfg, domain) && base == domain && !IsWildcard(domain) && cfg.dnsEnabled
      requires world.Pc() == Idle && world.ViewAt(domain).record == Some(rec) && rec.phase.CertSwitched?
      modifies world`now, world`run, world`s3, world`tlsa
      ensures world.Valid() && world.Pc() == Idle && old(world.run) <= world.run
      ensures kind.Advance? && kind.renewed == 0
      ensures AdvanceMade(TermsOf(cfg), old(Books(lastFailure)), Books(lastFailure), domain, kind, err)
      ensures old(closet.Synced()) ==> closet.Synced()
    {
      err := false;
      var gaveUp := false;
      ghost var tried := 0;
      if world.now - rec.startedAt >= rec.lagSeconds * SECOND {
        err, gaveUp, tried := FinishRollover(domain, base, rec, cfg);
      }
      kind := Advance(old(world.now), world.now, 0, gaveUp, tried);
      OwnChange(old(world.s3), world.s3, domain);
    }

    /** Moves an existing rollover one phase on if its wait is over. */
    method AdvanceRollover(domain: string, base: string, rec: RolloverState, cfg: RenewConfig,
                           ghost lastFailure: map<string, Stamp>)
      returns (err: bool, renewed: nat, ghost kind: Kind)
      requires world.Valid() && Wired() && Suits(cfg, domain) && base == domain && !IsWildcard(domain) && cfg.dnsEnabled
      requires world.Pc() == Idle && world.ViewAt(domain).record == Some(rec)
      modifies world`now, world`run, world`s3, world`tlsa, closet`index, closet`dirty, closet`stores, `requested
      ensures world.Valid() && world.Pc() == Idle && old(world.run) <= world.run
      ensures kind.Advance? && kind.renewed == renewed
      ensures AdvanceMade(TermsOf(cfg), old(Books(lastFailure)), Books(lastFailure), domain, kind, err)
      ensures old(closet.Synced()) ==> closet.Synced()
    {
      match rec.phase
      case PrePublishing =>
        err, renewed, kind := LeavePrePublishing(domain, base, rec, cfg, lastFailure);
      case CertSwitched =>
        renewed := 0;
        err, kind := LeaveCertSwitched(domain, base, rec, cfg, lastFailure);
      case OtherPhase(_) =>
        err, renewed, kind := false, 0, Advance(world.now, world.now, 0, false, 0);
    }

    /** At most this association goes, and only where there is a signing key; on success it is gone there. */
    ghost predicate Removed(v: View, v': View, hash: Hash, enabled: bool, ok: bool) {
      && (v' == v || (enabled && v' == v.(rrset := v.rrset - {hash})))
      && (ok && enabled ==> v'.rrset == v.rrset - {hash})
    }

    /**
      Three attempts, two and four seconds apart; any of them may take effect, whatever is reported.
      An outage that ends within six seconds is survived.
     */
    method RetryRemoveTLSA(domain: string, base: string, hash: Hash, cfg: RenewConfig) returns (ok: bool)
      requires world.Valid() && Wired() && Suits(cfg, domain) && base == domain && !IsWildcard(domain) && hash != ""
      requires domain == world.focus ==> world.Pc().Withdrawing? && world.Pc().rec.oldTlsa == hash
      modifies world`now, world`run, world`tlsa
      ensures world.Progress()
      ensures ZoneApart(world.tlsa, domain) == ZoneApart(old(world.tlsa), domain)
      ensures Removed(old(world.ViewAt(domain)), world.ViewAt(domain), hash, HasKey(updater.keys, domain), ok)
      ensures world.reliable || old(world.now) + 6 * SECOND >= world.calm ==> ok
    {
      var attempt := 0;
      ok := false;
      while attempt < 3 && !ok
        invariant 0 <= attempt <= 3
        invariant world.Progress()
        invariant ZoneApart(world.tlsa, domain) == ZoneApart(old(world.tlsa), domain)
        invariant Removed(old(world.ViewAt(domain)), world.ViewAt(domain), hash, HasKey(updater.keys, domain), ok)
        invariant world.reliable && attempt > 0 ==> ok
        invariant !ok ==> world.now >= old(world.now) + Paused(attempt)
        invariant attempt == 3 && old(world.now) + 6 * SECOND >= world.calm ==> ok
        decreases 3 - attempt
      {
        if attempt > 0 { world.Wait(attempt * 2 * SECOND); }
        if domain != world.focus { OtherRRsetMayChange(cfg, domain, RRset(world.tlsa, domain) - {hash}); }
        ok := updater.RemoveTLSA(base, hash);
        attempt := attempt + 1;
      }
    }

    // ---------------------------------------------------------------- one domain's turn

    /** A failure is noted in memory and, as far as that succeeds, in the bucket. */
    method NoteFailure(state: FailureState, domain: string, cfg: RenewConfig) returns (ghost noted: int)
      requires world.Valid() && Wired()
      modifies world`now, world`run, world`s3, state
      ensures world.Progress() && old(world.now) <= noted <= world.now
      ensures state.lastFailure == old(state.lastFailure)[domain := StampOf(noted)]
      ensures Noting(TermsOf(cfg), old(Books(state.lastFailure)), Books(state.lastFailure), state.lastFailure)
      ensures old(closet.Synced()) ==> closet.Synced()
    {
      noted := world.now;
      state.RecordFailure(domain, world.now);
      var _ := closet.StoreFailureState(state.lastFailure);
    }

    method NoteSuccess(state: FailureState, domain: string, cfg: RenewConfig)
      requires world.Valid() && Wired()
      modifies world`now, world`run, world`s3, state
      ensures world.Progress()
      ensures state.lastFailure == old(state.lastFailure) - {domain}
      ensures Noting(TermsOf(cfg), old(Books(state.lastFailure)), Books(state.lastFailure), state.lastFailure)
      ensures old(closet.Synced()) ==> closet.Synced()
    {
      state.ClearFailure(domain);
      var _ := closet.StoreFailureState(state.lastFailure);
    }

    /** Takes the rollover of this record one phase on; a failure is noted. */
    method AdvanceAndNote(domain: string, base: string, rec: RolloverState, cfg: RenewConfig, state: FailureState,
                          ghost a: Snapshot)
      returns (failed: bool, renewed: nat, ghost o: Outcome)
      requires world.Valid() && Wired() && Suits(cfg, domain) && base == domain && !IsWildcard(domain) && cfg.dnsEnabled
      requires world.Pc() == Idle && world.ViewAt(domain).record == Some(rec)
      requires a.now <= world.now && Books(state.lastFailure) == a.(now := world.now)
      modifies world`now, world`run, world`s3, world`tlsa, closet`index, closet`dirty, closet`stores, `requested, state
      ensures world.Valid() && world.Pc() == Idle && old(world.run) <= world.run
      ensures failed == o.failed && renewed == Renewed(o) && o.kind.Advance?
      ensures Went(TermsOf(cfg), a, Books(state.lastFailure), domain, o)
      ensures old(closet.Synced()) ==> closet.Synced()
    {
      ghost var t, b := TermsOf(cfg), Books(state.lastFailure);
      ghost var kind;
      failed, renewed, kind := AdvanceRollover(domain, base, rec, cfg, state.lastFailure);
      ghost var c := Books(state.lastFailure);
      ghost var noted := 0;
      if failed { noted := NoteFailure(state, domain, cfg); }
      o := Outcome(kind, failed, noted);
      AdvanceTurn(t, a, b, c, Books(state.lastFailure), domain, o);
    }

    /** Takes an existing rollover one phase on; handled tells that the domain's turn is over. */
    method ContinueRollover(domain: string, base: string, cfg: RenewConfig, state: FailureState)
      returns (handled: bool, failed: bool, renewed: nat, ghost o: Outcome)
      requires world.Valid() && Wired() && Suits(cfg, domain) && base == domain && !IsWildcard(domain) && cfg.dnsEnabled
      requires world.Pc() == Idle
      modifies world`now, world`run, world`s3, world`tlsa, closet`index, closet`dirty, closet`stores, `requested, state
      ensures world.Valid() && world.Pc() == Idle && old(world.run) <= world.run && old(world.now) <= world.now
      ensures handled ==>
                && failed == o.failed && renewed == Renewed(o) && !Asks(o)
                && Went(TermsOf(cfg), old(Books(state.lastFailure)), Books(state.lastFailure), domain, o)
      ensures !handled ==>
                && !failed && renewed == 0 && world.ViewAt(domain).record.None?
                && Books(state.lastFailure) == old(Books(state.lastFailure)).(now := world.now)
      ensures old(closet.Synced()) ==> closet.Synced()
    {
      ghost var t, a := TermsOf(cfg), Books(state.lastFailure);
      var loaded := closet.LoadRolloverState(domain);
      ghost var b := Books(state.lastFailure);
      match loaded
      case Unloadable =>
        ghost var noted := NoteFailure(state, domain, cfg);
        o := Outcome(Kind.Unloadable, true, noted);
        UnloadableTurn(t, a, b, Books(state.lastFailure), domain, o);
        return true, true, 0, o;
      case Nothing =>
        return false, false, 0, Outcome(Shut, false, 0);
      case Found(rec) =>
        handled := true;
        failed, renewed, o := AdvanceAndNote(domain, base, rec, cfg, state, a);
    }

    /** The entry of a lost object is dropped, and the index saved if that succeeds. */
    method DropLost(domain: string, ghost lastFailure: map<string, Stamp>)
      requires world.Valid() && Wired()
      modifies world`now, world`run, world`s3, closet`index, closet`dirty, closet`saves
      ensures world.Progress()
      ensures var a, b := old(Books(lastFailure)), Books(lastFailure);
              && b == a.(now := b.now, s3 := b.s3, saves := a.saves + 1, index := a.index - {domain})
              && b.s3 - {INDEX_KEY} == a.s3 - {INDEX_KEY}
      ensures old(closet.Synced()) ==> closet.Synced()
    {
      closet.RemoveFromIndex(domain);
      var _ := closet.SaveIndex();
    }

    /**
      Whether the stored certificate makes a renewal unnecessary at instant at, the beginning of the
      check.  An index entry whose object is gone is dropped, and the domain is due.
     */
    method IsCurrent(domain: string, cfg: RenewConfig, state: FailureState)
      returns (current: bool, ghost at: int, ghost lost: bool, ghost confirmed: bool)
      requires world.Valid() && Wired() && ProperName(domain)
      requires NoRecord(TermsOf(cfg), Books(state.lastFailure), domain)
      modifies world`now, world`run, world`s3, closet`index, closet`dirty, closet`saves, state
      ensures world.Progress() && at == old(world.now)
      ensures current ==> Went(TermsOf(cfg), old(Books(state.lastFailure)), Books(state.lastFailure), domain,
                               Outcome(Current(at, confirmed), false, 0))
      ensures !current ==> state.lastFailure == old(state.lastFailure)
                           && Lapsed(old(Books(state.lastFailure)), Books(state.lastFailure), domain, at, lost)
      ensures old(closet.Synced()) ==> closet.Synced()
    {
      current, at, lost, confirmed := false, world.now, false, false;
      ghost var t, a := TermsOf(cfg), Books(state.lastFailure);
      var window := TwoMonthsAfter(world.now);
      if domain in closet.index && closet.index[domain].expires > window {
        var present := closet.CertificateExists(domain);
        ghost var b := Books(state.lastFailure);
        match present
        case HeadFailed =>
          current := true;
          CurrentTurn(t, a, b, b, domain, Outcome(Current(at, false), false, 0));
        case Present =>
          current, confirmed := true, true;
          NoteSuccess(state, domain, cfg);
          CurrentTurn(t, a, b, Books(state.lastFailure), domain, Outcome(Current(at, true), false, 0));
        case Absent =>
          lost := true;
          DropLost(domain, state.lastFailure);
      }
    }

    /** Stores a certificate and then replaces the DNS records, whose failure is no failure. */
    method StoreAndPublish(domain: string, cfg: RenewConfig, cert: Cert) returns (ok: bool, ghost stored: int)
      requires world.Valid() && Wired() && Suits(cfg, domain) && !UsesRollover(TermsOf(cfg), domain)
      requires world.Pc() == Idle && cert.domain == domain
      modifies world`now, world`run, world`s3, world`tlsa, closet`index, closet`dirty, closet`stores
      ensures world.Progress() && old(world.now) <= stored <= world.now
      ensures Apart(world.s3, domain) == Apart(old(world.s3), domain)
      ensures if IsWildcard(domain) then world.tlsa == old(world.tlsa)
              else ZoneApart(world.tlsa, domain) == ZoneApart(old(world.tlsa), domain)
      ensures closet.stores == old(closet.stores) + if ok then 1 else 0
      ensures ok ==> CertAt(world.s3, domain) == Some(cert)
                     && closet.index == old(closet.index)[domain := EntryFor(cert, stored)]
      ensures !ok ==> closet.index == old(closet.index) && world.tlsa == old(world.tlsa)
      ensures world.ViewAt(domain).record == old(world.ViewAt(domain)).record
      ensures world.ViewAt(domain).pending == old(world.ViewAt(domain)).pending
      ensures ok ==> PublishedSimply(TermsOf(cfg), old(world.tlsa), world.tlsa, domain, cert)
      ensures world.reliable ==> ok
      ensures old(closet.Synced()) ==> closet.Synced()
    {
      ok := closet.StoreCertificate(cert);
      stored := world.now;
      if ok && cfg.dnsEnabled {
        if !IsWildcard(domain) && cert.leaf.Some? {
          OtherRRsetMayChange(cfg, domain, {cert.leaf.value.tlsa});
        }
        var _ := updater.UpdateDNS(domain, cert);
      }
    }

    /** Renewal without rollover: request, store, then replace the DNS records. */
    method RenewSimply(domain: string, cfg: RenewConfig, ghost lastFailure: map<string, Stamp>)
      returns (failed: bool, ghost cert: Option<Cert>, ghost stored: int)
      requires world.Valid() && Wired() && Suits(cfg, domain) && !UsesRollover(TermsOf(cfg), domain)
      requires world.Pc() == Idle
      modifies world`now, world`run, world`s3, world`tlsa, world`drawn
      modifies closet`index, closet`dirty, closet`stores, `requested
      ensures world.Valid() && world.Pc() == Idle && old(world.run) <= world.run
      ensures SimpleMade(TermsOf(cfg), old(Books(lastFailure)), Books(lastFailure), domain, cert, stored, failed)
      ensures old(closet.Synced()) ==> closet.Synced()
    {
      stored := 0;
      var issued := RequestCert(domain);
      cert := issued;
      if issued.None? { return true, cert, stored; }
      var ok;
      ok, stored := StoreAndPublish(domain, cfg, issued.value);
      failed := !ok;
    }

    /** A domain that is due: start a rollover if the configuration asks for one, else renew simply. */
    method RenewDomain(domain: string, base: string, cfg: RenewConfig, state: FailureState,
                       ghost a: Snapshot, ghost at: int, ghost lost: bool)
      returns (failed: bool, renewed: nat, ghost o: Outcome)
      requires world.Valid() && Wired() && Suits(cfg, domain) && base == BaseDomain(domain)
      requires world.Pc() == Idle
      requires NoRecord(TermsOf(cfg), a, domain) && Lapsed(a, Books(state.lastFailure), domain, at, lost)
      modifies world`now, world`run, world`s3, world`tlsa, world`drawn, closet`index
      modifies closet`dirty, closet`stores, `requested, state
      ensures world.Valid() && world.Pc() == Idle && old(world.run) <= world.run
      ensures failed == o.failed && renewed == Renewed(o)
      ensures Went(TermsOf(cfg), a, Books(state.lastFailure), domain, o)
      ensures "*." <= domain ==> o.kind.Simple? && world.tlsa == old(world.tlsa)
      ensures Asks(o) && old(world.now) <= world.now
      ensures old(closet.Synced()) ==> closet.Synced()
    {
      var enabled := Enabled(updater.keys, base);
      if cfg.dnsEnabled && cfg.rolloverEnabled && !IsWildcard(domain) && enabled {
        renewed := 0;
        failed, o := BeginRollover(domain, base, cfg, state, a, at, lost);
      } else {
        failed, o := RenewAndNote(domain, cfg, state, a, at, lost);
        renewed := if failed then 0 else 1;
      }
    }

    /** A start that has been made at b is noted if it failed. */
    method NoteStart(domain: string, cfg: RenewConfig, state: FailureState, failed: bool, ghost a: Snapshot,
                     ghost b: Snapshot, ghost at: int, ghost lost: bool, ghost prior: Hash, ghost next: Hash)
      returns (ghost o: Outcome)
      requires world.Valid() && Wired() && ProperName(domain) && world.Pc() == Idle
      requires UsesRollover(TermsOf(cfg), domain) && NoRecord(TermsOf(cfg), a, domain) && Lapsed(a, b, domain, at, lost)
      requires StartMade(TermsOf(cfg), b, Books(state.lastFailure), domain, prior, next, failed)
      modifies world`now, world`run, world`s3, state
      ensures world.Progress()
      ensures failed == o.failed && o.kind.Start? && Went(TermsOf(cfg), a, Books(state.lastFailure), domain, o)
      ensures old(closet.Synced()) ==> closet.Synced()
    {
      ghost var t, c := TermsOf(cfg), Books(state.lastFailure);
      ghost var noted := 0;
      if failed { noted := NoteFailure(state, domain, cfg); }
      o := Outcome(Start(at, lost, prior, next), failed, noted);
      StartTurn(t, a, b, c, Books(state.lastFailure), domain, o);
    }

    method BeginRollover(domain: string, base: string, cfg: RenewConfig, state: FailureState,
                         ghost a: Snapshot, ghost at: int, ghost lost: bool)
      returns (failed: bool, ghost o: Outcome)
      requires world.Valid() && Wired() && Suits(cfg, domain) && base == BaseDomain(domain)
      requires world.Pc() == Idle && UsesRollover(TermsOf(cfg), domain)
      requires NoRecord(TermsOf(cfg), a, domain) && Lapsed(a, Books(state.lastFailure), domain, at, lost)
      modifies world`now, world`run, world`s3, world`tlsa, world`drawn, state
      ensures world.Valid() && world.Pc() == Idle && old(world.run) <= world.run && old(world.now) <= world.now
      ensures failed == o.failed && o.kind.Start? && Went(TermsOf(cfg), a, Books(state.lastFailure), domain, o)
      ensures old(closet.Synced()) ==> closet.Synced()
    {
      ghost var b := Books(state.lastFailure);
      LapsedKeeps(a, b, domain, at, lost);
      ghost var prior, next;
      failed, prior, next := StartRollover(domain, base, cfg);
      OwnChange(b.s3, world.s3, domain);
      o := NoteStart(domain, cfg, state, failed, a, b, at, lost, prior, next);
    }

    method RenewAndNote(domain: string, cfg: RenewConfig, state: FailureState, ghost a: Snapshot, ghost at: int,
                        ghost lost: bool)
      returns (failed: bool, ghost o: Outcome)
      requires world.Valid() && Wired() && Suits(cfg, domain)
      requires world.Pc() == Idle && !UsesRollover(TermsOf(cfg), domain)
      requires NoRecord(TermsOf(cfg), a, domain) && Lapsed(a, Books(state.lastFailure), domain, at, lost)
      modifies world`now, world`run, world`s3, world`tlsa, world`drawn, closet`index
      modifies closet`dirty, closet`stores, `requested, state
      ensures world.Valid() && world.Pc() == Idle && old(world.run) <= world.run && old(world.now) <= world.now
      ensures failed == o.failed && o.kind.Simple? && Went(TermsOf(cfg), a, Books(state.lastFailure), domain, o)
      ensures old(closet.Synced()) ==> closet.Synced()
    {
      ghost var t, b := TermsOf(cfg), Books(state.lastFailure);
      ghost var cert, stored;
      failed, cert, stored := RenewSimply(domain, cfg, state.lastFailure);
      ghost var c := Books(state.lastFailure);
      ghost var noted := 0;
      if failed {
        noted := NoteFailure(state, domain, cfg);
      } else {
        NoteSuccess(state, domain, cfg);
      }
      o := Outcome(Simple(at, lost, cert, stored), failed, noted);
      SimpleTurn(t, a, b, c, Books(state.lastFailure), domain, o);
    }

    /** A current certificate ends the turn; otherwise the domain is renewed, after a pause if one is needed. */
    method RenewIfDue(domain: string, base: string, cfg: RenewConfig, state: FailureState, needDelay: bool)
      returns (failed: bool, renewed: nat, delayNext: bool, ghost o: Outcome)
      requires world.Valid() && Wired() && Suits(cfg, domain) && base == BaseDomain(domain)
      requires world.Pc() == Idle && NoRecord(TermsOf(cfg), Books(state.lastFailure), domain)
      modifies world`now, world`run, world`s3, world`tlsa, world`drawn, closet, `requested, state
      ensures world.Valid() && world.Pc() == Idle && old(world.run) <= world.run
      ensures failed == o.failed && renewed == Renewed(o)
      ensures Went(TermsOf(cfg), old(Books(state.lastFailure)), Books(state.lastFailure), domain, o)
      ensures delayNext == (needDelay || Asks(o))
      ensures needDelay && Asks(o) ==>
                world.now - old(world.now)
                >= (if cfg.requestDelaySeconds > 0 then cfg.requestDelaySeconds else 3) * SECOND
      ensures old(closet.Synced()) ==> closet.Synced()
    {
      failed, renewed, delayNext := false, 0, needDelay;
      ghost var a := Books(state.lastFailure);
      var current;
      ghost var at, lost, confirmed;
      current, at, lost, confirmed := IsCurrent(domain, cfg, state);
      o := Outcome(Current(at, confirmed), false, 0);
      if current { return; }
      if needDelay {
        world.Wait((if cfg.requestDelaySeconds <= 0 then 3 else cfg.requestDelaySeconds) * SECOND);
      }
      failed, renewed, o := RenewDomain(domain, base, cfg, state, a, at, lost);
      delayNext := true;
    }

    /**
      One domain's turn in the loop.  A domain in backoff is left alone; an existing rollover comes
      before everything else; a current certificate ends the turn; otherwise the domain is renewed.
     */
    method ProcessDomain(domain: string, cfg: RenewConfig, state: FailureState, needDelay: bool)
      returns (failed: bool, renewed: nat, delayNext: bool, ghost o: Outcome)
      requires world.Valid() && Wired() && Suits(cfg, domain)
      requires world.Pc() == Idle
      modifies world`now, world`run, world`s3, world`tlsa, world`drawn, closet, `requested, state
      ensures world.Valid() && world.Pc() == Idle && old(world.run) <= world.run
      ensures failed == o.failed && renewed == Renewed(o)
      ensures TurnOf(TermsOf(cfg), old(Books(state.lastFailure)), Books(state.lastFailure), domain, o)
      ensures delayNext == (needDelay || Asks(o))
      ensures needDelay && Asks(o) ==>
                world.now - old(world.now)
                >= (if cfg.requestDelaySeconds > 0 then cfg.requestDelaySeconds else 3) * SECOND
      ensures old(closet.Synced()) ==> closet.Synced()
    {
      failed, renewed, delayNext, o := false, 0, needDelay, Outcome(Shut, false, 0);
      ghost var a := Books(state.lastFailure);
      var base := BaseDomain(domain);
      if !cfg.forceRenewOnFailure && InBackoff(state.lastFailure, domain, cfg.failureBackoffMinutes, world.now) {
        return;
      }

      if !IsWildcard(domain) && cfg.dnsEnabled {
        var handled;
        handled, failed, renewed, o := ContinueRollover(domain, base, cfg, state);
        if handled { return; }
      }

      ghost var b := Books(state.lastFailure);
      failed, renewed, delayNext, o := RenewIfDue(domain, base, cfg, state, needDelay);
      WentEarlier(TermsOf(cfg), a, b, Books(state.lastFailure), domain, o);
    }

    // ---------------------------------------------------------------- the loop

    /** The turns of all domains, one after the other. */
    method TakeTurns(cfg: RenewConfig, domains: seq<string>, state: FailureState)
      returns (renewed: nat, failed: seq<string>, ghost outcomes: seq<Outcome>, ghost trace: seq<Snapshot>)
      requires world.Valid() && Wired() && world.Pc() == Idle
      requires forall d :: d in domains ==> Suits(cfg, d)
      modifies world, closet, this, state
      ensures world.Valid() && world.Pc() == Idle && old(world.run) <= world.run
      ensures Ledger(TermsOf(cfg), domains, outcomes, trace) && |outcomes| == |domains|
      ensures trace[0] == old(Books(state.lastFailure)) && trace[|domains|] == Books(state.lastFailure)
      ensures renewed == Total(outcomes) && failed == FailedAmong(domains, outcomes) && Paced(cfg, outcomes, trace)
      ensures old(closet.Synced()) ==> closet.Synced()
    {
      renewed, failed, outcomes, trace := 0, [], [], [Books(state.lastFailure)];
      var needDelay := false;
      for i := 0 to |domains|
        invariant world.Valid() && world.Pc() == Idle && old(world.run) <= world.run
        invariant Ledger(TermsOf(cfg), domains, outcomes, trace) && |outcomes| == i
        invariant trace[0] == old(Books(state.lastFailure)) && trace[i] == Books(state.lastFailure)
        invariant renewed == Total(outcomes) && failed == FailedAmong(domains, outcomes)
        invariant Paced(cfg, outcomes, trace) && (needDelay <==> exists p :: 0 <= p < i && Asks(outcomes[p]))
        invariant old(closet.Synced()) ==> closet.Synced()
      {
        var bad, more;
        ghost var o;
        ghost var asked := needDelay;
        bad, more, needDelay, o := ProcessDomain(domains[i], cfg, state, needDelay);
        PacedExtends(cfg, outcomes, trace, o, Books(state.lastFailure), asked);
        LedgerExtends(TermsOf(cfg), domains, outcomes, trace, o, Books(state.lastFailure));
        outcomes, trace := outcomes + [o], trace + [Books(state.lastFailure)];
        renewed := renewed + more;
        if bad { failed := failed + [domains[i]]; }
      }
    }

    /**
      One run over all domains, once the lock is held.  The run before it may have crashed anywhere;
      its process is gone.
     */
    method Renew(cfg: RenewConfig, domains: seq<string>) returns (renewed: nat, failed: seq<string>, ghost r: Run)
      requires world.Valid() && Wired() && Distinct(domains)
      requires forall d :: d in domains ==> Suits(cfg, d)
      modifies world, closet, this
      ensures world.Valid() && world.Pc() == Idle && old(world.run) <= world.run
      ensures RunOf(TermsOf(cfg), r) && r.domains == domains
      ensures r.start == old(Books(map[])) && r.end == Books(r.end.lastFailure)
      ensures renewed == Total(r.outcomes) == closet.stores - old(closet.stores)
      ensures failed == FailedAmong(domains, r.outcomes)
      ensures old(closet.Synced()) ==> closet.Synced()
    {
      ghost var start := Books(map[]);
      var state := OpenRun(cfg);
      ghost var outcomes, trace;
      renewed, failed, outcomes, trace := TakeTurns(cfg, domains, state);
      CloseRun(renewed, state.lastFailure);
      r := Run(domains, outcomes, trace, start, Books(state.lastFailure));
      StoresCounted(TermsOf(cfg), r, |domains|);
    }

    /** The failure times are loaded; a run goes on without them if that fails. */
    method OpenRun(cfg: RenewConfig) returns (state: FailureState)
      requires world.Valid() && Wired()
      modifies world`now, world`run
      ensures fresh(state) && world.Valid() && world.Pc() == Idle && old(world.run) <= world.run
      ensures Opens(TermsOf(cfg), old(Books(map[])), Books(state.lastFailure))
      ensures old(closet.Synced()) ==> closet.Synced()
    {
      world.Goto(world.focus, Idle);
      var loaded := closet.LoadFailureState();
      state := new FailureState(if loaded.Found? then loaded.value else map[]);
    }

    /** The index is saved if anything was renewed. */
    method CloseRun(renewed: nat, ghost lastFailure: map<string, Stamp>)
      requires world.Valid() && Wired() && world.Pc() == Idle
      modifies world`now, world`run, world`s3, closet`dirty, closet`saves
      ensures world.Valid() && world.Pc() == Idle && old(world.run) <= world.run
      ensures Closes(old(Books(lastFailure)), Books(lastFailure), renewed)
      ensures old(closet.Synced()) ==> closet.Synced()
    {
      if renewed > 0 {
        var _ := closet.SaveIndex();
      }
    }

    /** A run over what is configured: repeated and ignored domains count for nothing. */
    method RenewConfigured(cfg: RenewConfig, configured: seq<string>, ignoredDomains: seq<string>)
      returns (domains: seq<string>, renewed: nat, failed: seq<string>, ghost r: Run)
      requires world.Valid() && Wired()
      requires forall d :: d in configured && d !in ignoredDomains ==> Suits(cfg, d)
      modifies world, closet, this
      ensures world.Valid() && old(world.run) <= world.run
      ensures forall d :: d in domains <==> d in configured && d !in ignoredDomains
      ensures RunOf(TermsOf(cfg), r) && r.domains == domains
      ensures r.start == old(Books(map[])) && r.end == Books(r.end.lastFailure)
      ensures renewed == Total(r.outcomes) && failed == FailedAmong(domains, r.outcomes)
      ensures old(closet.Synced()) ==> closet.Synced()
    {
      domains := SelectDomains(configured, ignoredDomains);
      if domains == [] {
        ghost var a := Books(StoredFailures(world.s3));
        r := Run([], [], [a], Books(map[]), a);
        return domains, 0, [], r;
      }
      renewed, failed, r := Renew(cfg, domains);
    }
  }

  /** Each configured domain that is not ignored, once. */
  method SelectDomains(configured: seq<string>, ignoredDomains: seq<string>) returns (final: seq<string>)
    ensures Distinct(final)
    ensures forall d :: d in final <==> d in configured && d !in ignoredDomains
  {
    var unique: set<string> := {};
    for i := 0 to |configured|
      invariant forall d :: d in unique <==> d in configured[..i] && d !in ignoredDomains
    {
      if configured[i] !in ignoredDomains {
        unique := unique + {configured[i]};
      }
    }
    final := [];
    var todo := unique;
    while todo != {}
      invariant todo <= unique && Distinct(final)
      invariant forall d :: d in final <==> d in unique - todo
      decreases todo
    {
      var d :| d in todo;
      assert forall i :: 0 <= i < |final| ==> final[i] in final && final[i] != d;
      todo := todo - {d};
      final := final + [d];
    }
  }
}
