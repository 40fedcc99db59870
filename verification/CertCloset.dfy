/** The store of certificates and state in the bucket, with its write-back index. */
module CertCloset {
  import opened Prelude
  import opened Names
  import opened RolloverProtocol
  import opened Cloud

  const FALLBACK_LIFETIME := 89 * DAY

  datatype Retrieval = Retrieved(cert: Cert) | NotFound | Unretrievable

  datatype Loaded<T> = Found(value: T) | Nothing | Unloadable

  /** The index as the bucket keeps it; an absent object reads as an empty index. */
  function PersistedIndex(s3: Bucket): map<string, Entry> {
    if INDEX_KEY in s3 && s3[INDEX_KEY].IndexObject? then s3[INDEX_KEY].entries else map[]
  }

  /** The failure times as the bucket keeps them; an absent object reads as none. */
  function StoredFailures(s3: Bucket): map<string, Stamp> {
    if FAILURES_KEY in s3 && s3[FAILURES_KEY].FailuresObject? then s3[FAILURES_KEY].lastFailure else map[]
  }

  /** How long the pauses before the last of so many attempts are together. */
  function Paused(attempts: int): int {
    if attempts <= 1 then 0 else if attempts == 2 then 2 * SECOND else 6 * SECOND
  }

  class CertCloset {
    const world: World
    const pushPrivateKey: bool    // private keys are stored too, encrypted
    var index: map<string, Entry>
    var dirty: bool
    ghost var stores: nat         // certificates stored
    ghost var saves: nat          // attempts to save the index

    /** A clean index is the persisted one. */
    ghost predicate Synced()
      reads this, world
    {
      !dirty ==> index == PersistedIndex(world.s3)
    }

    constructor (world: World, pushPrivateKey: bool)
      ensures this.world == world && this.pushPrivateKey == pushPrivateKey
      ensures index == map[] && !dirty && stores == 0 && saves == 0
    {
      this.world, this.pushPrivateKey := world, pushPrivateKey;
      this.index, this.dirty, this.stores, this.saves := map[], false, 0, 0;
    }

    /**
      Decoding goes into the map that is already there, so a repeated refresh merges: entries that
      another process removed from the bucket survive in memory.
     */
    method RetrieveIndex() returns (ok: bool)
      requires world.Valid()
      modifies world`now, world`run, `index
      ensures world.Progress()
      ensures !ok ==> index == old(index)
      ensures ok ==> index == if INDEX_KEY in world.s3 then old(index) + PersistedIndex(world.s3) else map[]
      ensures ok && INDEX_KEY in world.s3 ==> world.s3[INDEX_KEY].IndexObject?
      ensures old(Synced()) ==> Synced()
      ensures world.reliable && (INDEX_KEY in world.s3 ==> world.s3[INDEX_KEY].IndexObject?) ==> ok
    {
      var r := world.GetObject(INDEX_KEY);
      match r
      case Fetched(IndexObject(entries)) =>
        index := index + entries;
        ok := true;
      case Fetched(_) =>
        ok := false;
      case Missing =>
        index := map[];
        ok := true;
      case FetchFailed =>
        ok := false;
    }

    /** One attempt, after which another one is allowed. */
    method PutOnce(key: string, obj: Object) returns (ok: bool)
      requires world.Valid() && world.MayBecome(world.s3[key := obj], world.tlsa)
      modifies world`s3, world`now, world`run
      ensures world.Progress() && world.MayBecome(world.s3[key := obj], world.tlsa)
      ensures world.s3[key := obj] == old(world.s3)[key := obj]
      ensures world.s3 == old(world.s3)[key := obj] || (!ok && world.s3 == old(world.s3))
      ensures world.reliable || old(world.now) >= world.calm ==> ok
    {
      ok := world.PutObject(key, obj);
      assert world.s3[key := obj] == old(world.s3)[key := obj];
    }

    /**
      Up to three attempts, two and four seconds apart; any of them may take effect, whatever is reported.
      An outage that ends within six seconds is survived.
     */
    method PutWithRetry(key: string, obj: Object) returns (ok: bool)
      requires world.Valid() && world.MayBecome(world.s3[key := obj], world.tlsa)
      modifies world`s3, world`now, world`run
      ensures world.Progress()
      ensures world.s3 == old(world.s3)[key := obj] || (!ok && world.s3 == old(world.s3))
      ensures world.reliable || old(world.now) + 6 * SECOND >= world.calm ==> ok
    {
      ok := false;
      var backoff := 2 * SECOND;
      var attempt := 0;
      while attempt < 3 && !ok
        invariant 0 <= attempt <= 3
        invariant backoff == (if attempt <= 1 then 2 else if attempt == 2 then 4 else 8) * SECOND
        invariant !ok ==> world.now >= old(world.now) + Paused(attempt)
        invariant world.Progress()
        invariant world.s3 == old(world.s3)[key := obj] || (!ok && world.s3 == old(world.s3))
        invariant world.MayBecome(world.s3[key := obj], world.tlsa)
        invariant world.reliable && attempt > 0 ==> ok
        invariant attempt == 3 && old(world.now) + 6 * SECOND >= world.calm ==> ok
        decreases 3 - attempt
      {
        if attempt > 0 {
          world.Wait(backoff);
          backoff := backoff * 2;
        }
        ok := PutOnce(key, obj);
        attempt := attempt + 1;
      }
    }

    method SaveIndex() returns (ok: bool)
      requires world.Valid()
      modifies world`s3, world`now, world`run, `dirty, `saves
      ensures world.Progress() && saves == old(saves) + 1
      ensures world.s3 - {INDEX_KEY} == old(world.s3) - {INDEX_KEY} && Unshared(world.s3) == Unshared(old(world.s3))
      ensures ok ==> !dirty
      ensures !ok ==> dirty
      ensures old(dirty) && ok ==> PersistedIndex(world.s3) == index
      ensures !old(dirty) ==> ok && world.s3 == old(world.s3)
      ensures old(Synced()) ==> Synced()
      ensures world.reliable || old(world.now) + 6 * SECOND >= world.calm ==> ok
    {
      saves := saves + 1;
      if !dirty { return true; }
      KeysApart(world.focus);
      world.OtherObjectMayChange(INDEX_KEY, IndexObject(index));
      ok := PutWithRetry(INDEX_KEY, IndexObject(index));
      if ok { dirty := false; }
    }

    method AddToIndex(entry: Entry)
      modifies `index, `dirty
      ensures index == old(index)[entry.domain := entry] && dirty && Synced()
    {
      index := index[entry.domain := entry];
      dirty := true;
    }

    method RemoveFromIndex(domain: string)
      modifies `index, `dirty
      ensures index == old(index) - {domain} && dirty && Synced()
    {
      index := index - {domain};
      dirty := true;
    }

    /**
      The encrypted private key, if private keys are to be stored: whether there is one, or nothing at all
      for want of randomness.
     */
    method EncryptPrivKey() returns (sealed: Option<bool>)
      requires world.Valid()
      modifies world`now, world`run
      ensures world.Progress()
      ensures sealed.Some? ==> sealed.value == pushPrivateKey
      ensures !pushPrivateKey || world.reliable ==> sealed.Some?
    {
      if !pushPrivateKey { world.Wait(0); return Some(false); }
      world.Wait(0);
      var ok: bool := *;
      sealed := if ok || world.reliable then Some(true) else None;
    }

    method PutCertificate(cert: Cert, sealed: bool) returns (ok: bool)
      requires world.Valid() && ProperName(cert.domain)
      requires cert.domain == world.focus ==> world.Pc().Switching? && CertHash(Some(cert)) == Some(world.Pc().issued)
      modifies world`s3, world`now, world`run
      ensures world.Progress() && Apart(world.s3, cert.domain) == Apart(old(world.s3), cert.domain)
      ensures PersistedIndex(world.s3) == PersistedIndex(old(world.s3))
      ensures || (HoldsCert(world.s3, cert, sealed)
                  && world.ViewAt(cert.domain) == old(world.ViewAt(cert.domain)).(cert := CertHash(Some(cert))))
              || (!ok && world.s3 == old(world.s3))
      ensures world.reliable || old(world.now) + 6 * SECOND >= world.calm ==> ok
    {
      KeysApart(cert.domain);
      world.CertMayChange(cert.domain, cert, sealed);
      ok := PutWithRetry(CertKey(cert.domain), CertObject(cert, sealed));
    }

    /** The certificate's object, with or without the private key. */
    ghost predicate HoldsCert(s3: Bucket, cert: Cert, sealed: bool) {
      CertKey(cert.domain) in s3 && s3[CertKey(cert.domain)] == CertObject(cert, sealed)
    }

    /** The certificate goes to the bucket first; only then does the index learn of it. */
    method StoreCertificate(cert: Cert) returns (ok: bool)
      requires world.Valid() && ProperName(cert.domain)
      requires cert.domain == world.focus ==> world.Pc().Switching? && CertHash(Some(cert)) == Some(world.Pc().issued)
      modifies world`s3, world`now, world`run, `index, `dirty, `stores
      ensures stores == old(stores) + if ok then 1 else 0
      ensures world.Progress() && Apart(world.s3, cert.domain) == Apart(old(world.s3), cert.domain)
      ensures || (CertAt(world.s3, cert.domain) == Some(cert) && HoldsCert(world.s3, cert, pushPrivateKey)
                  && world.ViewAt(cert.domain) == old(world.ViewAt(cert.domain)).(cert := CertHash(Some(cert))))
              || (!ok && world.s3 == old(world.s3))
      ensures !ok ==> index == old(index) && dirty == old(dirty)
      ensures ok ==> dirty && cert.domain in index && index == old(index)[cert.domain := index[cert.domain]]
      ensures ok ==> index[cert.domain].domain == cert.domain
      ensures ok && cert.leaf.Some? ==> index[cert.domain].expires == cert.leaf.value.notAfter
      ensures ok && cert.leaf.None? ==> index[cert.domain].expires == world.now + 89 * DAY
      ensures old(Synced()) ==> Synced()
      ensures world.reliable || (!pushPrivateKey && old(world.now) + 6 * SECOND >= world.calm) ==> ok
    {
      var sealed := EncryptPrivKey();
      if sealed.None? { return false; }
      ok := PutCertificate(cert, sealed.value);
      if ok {
        var expires := match cert.leaf case Some(leaf) => leaf.notAfter case None => world.now + FALLBACK_LIFETIME;
        index := index[cert.domain := Entry(cert.domain, expires)];
        dirty := true;
        stores := stores + 1;
      }
    }

    method RetrieveCertificate(domain: string) returns (r: Retrieval)
      requires world.Valid()
      modifies world`now, world`run
      ensures world.Progress()
      ensures r.Retrieved? ==>
                CertAt(world.s3, domain).Some? && r.cert == CertAt(world.s3, domain).value.(domain := domain)
      ensures r.Retrieved? ==> world.ViewAt(domain).cert == CertHash(Some(r.cert))
      ensures r.NotFound? ==> CertKey(domain) !in world.s3
      ensures world.reliable && r.Unretrievable? ==> CertKey(domain) in world.s3 && CertAt(world.s3, domain).None?
    {
      var f := world.GetObject(CertKey(domain));
      match f
      case Fetched(CertObject(cert, _)) =>
        var decrypted: bool := *;
        r := if pushPrivateKey && !decrypted && !world.reliable then Unretrievable
             else Retrieved(cert.(domain := domain));
      case Fetched(_) => r := Unretrievable;
      case Missing => r := NotFound;
      case FetchFailed => r := Unretrievable;
    }

    method CertificateExists(domain: string) returns (r: Presence)
      requires world.Valid()
      modifies world`now, world`run
      ensures world.Progress()
      ensures r.Present? ==> CertKey(domain) in world.s3
      ensures r.Absent? ==> CertKey(domain) !in world.s3
      ensures world.reliable ==> !r.HeadFailed?
    {
      r := world.HeadObject(CertKey(domain));
    }

    // ---------------------------------------------------------------- failure, rollover and key storage

    method LoadFailureState() returns (r: Loaded<map<string, Stamp>>)
      requires world.Valid()
      modifies world`now, world`run
      ensures world.Progress()
      ensures r.Found? ==> r.value == StoredFailures(world.s3)
      ensures !r.Nothing?
      ensures world.reliable && r.Unloadable? ==> StoredFailures(world.s3) == map[]
    {
      var f := world.GetObject(FAILURES_KEY);
      match f
      case Fetched(FailuresObject(last)) => r := Found(last);
      case Fetched(_) => r := Unloadable;
      case Missing => r := Found(map[]);
      case FetchFailed => r := Unloadable;
    }

    method StoreFailureState(last: map<string, Stamp>) returns (ok: bool)
      requires world.Valid()
      modifies world`s3, world`now, world`run
      ensures world.Progress()
      ensures world.s3 == old(world.s3)[FAILURES_KEY := FailuresObject(last)] || (!ok && world.s3 == old(world.s3))
      ensures Unshared(world.s3) == Unshared(old(world.s3))
      ensures world.s3 - {FAILURES_KEY} == old(world.s3) - {FAILURES_KEY}
      ensures world.reliable ==> ok
      ensures old(Synced()) ==> Synced()
    {
      KeysApart(world.focus);
      world.OtherObjectMayChange(FAILURES_KEY, FailuresObject(last));
      ok := world.PutObject(FAILURES_KEY, FailuresObject(last));
    }

    method LoadRolloverState(domain: string) returns (r: Loaded<RolloverState>)
      requires world.Valid()
      modifies world`now, world`run
      ensures world.Progress()
      ensures r.Found? ==> world.ViewAt(domain).record == Some(r.value)
      ensures r.Nothing? ==> world.ViewAt(domain).record.None?
      ensures world.reliable && RecordReadable(world.s3, domain) ==> !r.Unloadable?
    {
      var f := world.GetObject(RolloverKey(domain));
      match f
      case Fetched(RecordObject(rec)) => r := Found(rec);
      case Fetched(_) => r := Unloadable;
      case Missing => r := Nothing;
      case FetchFailed => r := Unloadable;
    }

    method StoreRolloverState(domain: string, rec: RolloverState) returns (ok: bool)
      requires world.Valid() && ProperName(domain)
      requires domain == world.focus ==> world.Pc() == Recording(rec) || world.Pc() == Advancing(rec)
      modifies world`s3, world`now, world`run
      ensures world.Progress() && Apart(world.s3, domain) == Apart(old(world.s3), domain)
      ensures || world.ViewAt(domain) == old(world.ViewAt(domain)).(record := Some(rec))
              || (!ok && world.ViewAt(domain) == old(world.ViewAt(domain)))
      ensures world.reliable ==> ok
    {
      KeysApart(domain);
      world.RecordMayChange(domain, rec);
      ok := world.PutObject(RolloverKey(domain), RecordObject(rec));
    }

    method DeleteRolloverState(domain: string) returns (ok: bool)
      requires world.Valid() && ProperName(domain)
      requires domain == world.focus ==> world.Pc().Resetting? || world.Pc().Closing?
      modifies world`s3, world`now, world`run
      ensures world.Progress() && Apart(world.s3, domain) == Apart(old(world.s3), domain)
      ensures || world.ViewAt(domain) == old(world.ViewAt(domain)).(record := None)
              || (!ok && world.ViewAt(domain) == old(world.ViewAt(domain)))
      ensures world.reliable ==> ok
    {
      KeysApart(domain);
      world.RecordMayGo(domain);
      ok := world.DeleteObject(RolloverKey(domain));
    }

    method StorePendingKey(domain: string, key: Key) returns (ok: bool)
      requires world.Valid() && ProperName(domain)
      requires domain == world.focus ==> world.Pc().KeepingKey? && world.Pc().next == key.tlsa
      modifies world`s3, world`now, world`run
      ensures world.Progress() && Apart(world.s3, domain) == Apart(old(world.s3), domain)
      ensures || (PendingAt(world.s3, domain) == Some(key)
                  && world.ViewAt(domain) == old(world.ViewAt(domain)).(pending := Some(key.tlsa)))
              || (!ok && world.s3 == old(world.s3))
      ensures world.reliable ==> ok
    {
      KeysApart(domain);
      world.PendingKeyMayChange(domain, key);
      ok := world.PutObject(PendingKey(domain), KeyObject(key));
    }

    /** A missing key and a key that cannot be read are the same error to the caller. */
    method LoadPendingKey(domain: string) returns (r: Option<Key>)
      requires world.Valid()
      modifies world`now, world`run
      ensures world.Progress()
      ensures r.Some? ==> PendingAt(world.s3, domain) == r && world.ViewAt(domain).pending == Some(r.value.tlsa)
      ensures world.reliable ==> (r.Some? <==> world.ViewAt(domain).pending.Some?)
    {
      var f := world.GetObject(PendingKey(domain));
      r := if f.Fetched? && f.obj.KeyObject? then Some(f.obj.key) else None;
    }

    method DeletePendingKey(domain: string) returns (ok: bool)
      requires world.Valid() && ProperName(domain)
      requires domain == world.focus ==> world.Pc().Cleaning?
      modifies world`s3, world`now, world`run
      ensures world.Progress() && Apart(world.s3, domain) == Apart(old(world.s3), domain)
      ensures || world.ViewAt(domain) == old(world.ViewAt(domain)).(pending := None)
              || (!ok && world.ViewAt(domain) == old(world.ViewAt(domain)))
      ensures world.reliable ==> ok
    {
      KeysApart(domain);
      world.PendingKeyMayGo(domain);
      ok := world.DeleteObject(PendingKey(domain));
    }
  }

  /** A new process has a closet only if it could read the index; its index is then the persisted one. */
  method NewCertCloset(world: World, pushPrivateKey: bool) returns (r: Option<CertCloset>)
    requires world.Valid()
    modifies world`now, world`run
    ensures world.Progress()
    ensures r.Some? ==> fresh(r.value) && r.value.world == world && !r.value.dirty && r.value.Synced()
    ensures r.Some? ==> r.value.index == PersistedIndex(world.s3)
    ensures world.reliable && (INDEX_KEY in world.s3 ==> world.s3[INDEX_KEY].IndexObject?) ==> r.Some?
  {
    var closet := new CertCloset(world, pushPrivateKey);
    var ok := closet.RetrieveIndex();
    r := if ok then Some(closet) else None;
  }
}
