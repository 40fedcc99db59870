/** The effect of the DNS updates on the authoritative TLSA RRsets. */
module DnsUpdate {
  import opened Prelude
  import opened Names
  import opened DnsKeys
  import opened Cloud

  class Updater {
    const world: World
    const keys: KeyMap

    constructor (world: World, keys: KeyMap)
      ensures this.world == world && this.keys == keys
    {
      this.world, this.keys := world, keys;
    }

    /** Adds one association and leaves the others alone; without a signing key it does nothing. */
    method AddTLSA(domain: string, hash: Hash) returns (ok: bool)
      requires world.Valid()
      requires world.MayBecome(world.s3, world.tlsa[TlsaOwner(domain) := RRset(world.tlsa, domain) + {hash}])
      modifies world`tlsa, world`now, world`run
      ensures world.Progress()
      ensures !HasKey(keys, domain) ==> ok && world.tlsa == old(world.tlsa)
      ensures HasKey(keys, domain) ==>
                || world.ViewAt(domain) == old(world.ViewAt(domain)).(rrset := RRset(old(world.tlsa), domain) + {hash})
                || (!ok && world.tlsa == old(world.tlsa))
      ensures ZoneApart(world.tlsa, domain) == ZoneApart(old(world.tlsa), domain)
      ensures world.reliable || old(world.now) >= world.calm ==> ok
    {
      var enabled := Enabled(keys, domain);
      if !enabled { world.Wait(0); return true; }
      ok := world.SendUpdate(TlsaOwner(domain), RRset(world.tlsa, domain) + {hash});
    }

    /** Removes one association and leaves the others alone. */
    method RemoveTLSA(domain: string, hash: Hash) returns (ok: bool)
      requires world.Valid()
      requires hash != "" ==>
                world.MayBecome(world.s3, world.tlsa[TlsaOwner(domain) := RRset(world.tlsa, domain) - {hash}])
      modifies world`tlsa, world`now, world`run
      ensures world.Progress()
      ensures hash == "" || !HasKey(keys, domain) ==> ok && world.tlsa == old(world.tlsa)
      ensures hash != "" && HasKey(keys, domain) ==>
                || world.ViewAt(domain) == old(world.ViewAt(domain)).(rrset := RRset(old(world.tlsa), domain) - {hash})
                || (!ok && world.tlsa == old(world.tlsa))
      ensures ZoneApart(world.tlsa, domain) == ZoneApart(old(world.tlsa), domain)
      ensures world.reliable || old(world.now) >= world.calm ==> ok
    {
      if hash == "" { world.Wait(0); return true; }
      var enabled := Enabled(keys, domain);
      if !enabled { world.Wait(0); return true; }
      ok := world.SendUpdate(TlsaOwner(domain), RRset(world.tlsa, domain) - {hash});
    }

    /** Replaces the CAA records; no TLSA RRset is concerned. */
    method UpdateCAA(domain: string) returns (ok: bool)
      requires world.Valid()
      modifies world`now, world`run
      ensures world.Progress()
      ensures world.reliable ==> ok
    {
      world.Wait(0);
      ok := *;
      ok := ok || world.reliable;
    }

    /**
      Replaces, in one message, the CAA records and, unless the domain is a wildcard, the whole TLSA
      RRset by the certificate's own association.
     */
    method UpdateDNS(domain: string, cert: Cert) returns (ok: bool)
      requires world.Valid()
      requires !IsWildcard(domain) && HasKey(keys, domain) && cert.leaf.Some? ==>
                 world.MayBecome(world.s3, world.tlsa[TlsaOwner(domain) := {cert.leaf.value.tlsa}])
      modifies world`tlsa, world`now, world`run
      ensures world.Progress()
      ensures IsWildcard(domain) || !HasKey(keys, domain) || cert.leaf.None? ==> world.tlsa == old(world.tlsa)
      ensures !IsWildcard(domain) && HasKey(keys, domain) && cert.leaf.Some? ==>
                || world.ViewAt(domain) == old(world.ViewAt(domain)).(rrset := {cert.leaf.value.tlsa})
                || (!ok && world.tlsa == old(world.tlsa))
      ensures ZoneApart(world.tlsa, domain) == ZoneApart(old(world.tlsa), domain)
      ensures !IsWildcard(domain) && HasKey(keys, domain) && cert.leaf.None? ==> !ok
      ensures "*." <= domain ==> world.tlsa == old(world.tlsa)
      ensures world.reliable && (IsWildcard(domain) || !HasKey(keys, domain) || cert.leaf.Some?) ==> ok
    {
      var enabled := Enabled(keys, BaseDomain(domain));
      if !enabled { world.Wait(0); return true; }
      if IsWildcard(domain) {
        ok := UpdateCAA(domain);
        return;
      }
      if cert.leaf.None? { world.Wait(0); return false; }
      ok := world.SendUpdate(TlsaOwner(domain), {cert.leaf.value.tlsa});
    }
  }
}
