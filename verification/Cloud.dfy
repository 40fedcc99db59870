/**
  The outside world of the renewing process: the S3 bucket, the authoritative TLSA RRsets, the clock
  and the source of fresh keys.

  Every call may fail, and a failed write may still have taken effect; which of these happens is
  chosen freely at each call.  A process that crashes between two calls is one whose remaining calls
  all fail without effect, so a contract that holds for all choices covers crashes as well.

  For one domain, the focus, the world also keeps a ghost run of the rollover protocol.  A write may
  change what the world holds for the focus only as the protocol allows.
 */
module Cloud {
  import opened Prelude
  import opened Names
  import opened RolloverProtocol

  /** A private key together with the TLSA hash of its public half. */
  datatype Key = Key(secret: nat, tlsa: Hash)

  /** What a parsed leaf certificate says; a PEM that does not parse has no leaf. */
  datatype Leaf = Leaf(tlsa: Hash, notAfter: int)

  datatype Cert = Cert(domain: string, leaf: Option<Leaf>)

  /** The time of a failure, in whole seconds as RFC 3339 text keeps it; Garbled does not parse. */
  datatype Stamp = At(seconds: int) | Garbled

  datatype Entry = Entry(domain: string, expires: int)

  datatype Object =
    | CertObject(cert: Cert, sealed: bool)   // sealed: the private key is in it too, encrypted
    | RecordObject(rec: RolloverState)
    | KeyObject(key: Key)
    | FailuresObject(lastFailure: map<string, Stamp>)
    | IndexObject(entries: map<string, Entry>)
    | Opaque

  type Bucket = map<string, Object>
  type Zone = map<string, set<Hash>>

  datatype Fetch = Fetched(obj: Object) | Missing | FetchFailed

  datatype Presence = Present | Absent | HeadFailed

  // ---------------------------------------------------------------- one domain's share of the world

  function RecordAt(s3: Bucket, d: string): Option<RolloverState> {
    if RolloverKey(d) in s3 && s3[RolloverKey(d)].RecordObject? then Some(s3[RolloverKey(d)].rec) else None
  }

  function PendingAt(s3: Bucket, d: string): Option<Key> {
    if PendingKey(d) in s3 && s3[PendingKey(d)].KeyObject? then Some(s3[PendingKey(d)].key) else None
  }

  function CertAt(s3: Bucket, d: string): Option<Cert> {
    if CertKey(d) in s3 && s3[CertKey(d)].CertObject? then Some(s3[CertKey(d)].cert) else None
  }

  function RRset(tlsa: Zone, d: string): set<Hash> {
    if TlsaOwner(d) in tlsa then tlsa[TlsaOwner(d)] else {}
  }

  function KeyHash(key: Option<Key>): Option<Hash> {
    if key.Some? then Some(key.value.tlsa) else None
  }

  function CertHash(cert: Option<Cert>): Option<Hash> {
    if cert.Some? && cert.value.leaf.Some? then Some(cert.value.leaf.value.tlsa) else None
  }

  /** The world as the rollover protocol of domain d sees it. */
  function ViewOf(s3: Bucket, tlsa: Zone, d: string): View {
    View(RecordAt(s3, d), KeyHash(PendingAt(s3, d)), CertHash(CertAt(s3, d)), RRset(tlsa, d))
  }

  /** A rollover record, when there is one, is readable. */
  predicate RecordReadable(s3: Bucket, d: string) {
    RolloverKey(d) in s3 ==> s3[RolloverKey(d)].RecordObject?
  }

  /** The bucket without the objects of one domain. */
  function Apart(s3: Bucket, d: string): Bucket {
    s3 - DomainKeys(d)
  }

  /** The bucket without the objects that all domains share. */
  function Unshared(s3: Bucket): Bucket {
    s3 - SharedKeys()
  }

  /** The zone without one base domain's TLSA RRset. */
  function ZoneApart(tlsa: Zone, d: string): Zone {
    tlsa - {TlsaOwner(d)}
  }

  /** A bucket that differs only elsewhere holds the same for domain d. */
  lemma ViewOfRest(a: Bucket, b: Bucket, tlsa: Zone, keys: set<string>, d: string)
    requires a - keys == b - keys && keys !! DomainKeys(d)
    ensures ViewOf(a, tlsa, d) == ViewOf(b, tlsa, d) && RecordReadable(a, d) == RecordReadable(b, d)
  {
    assert CertKey(d) in DomainKeys(d) && RolloverKey(d) in DomainKeys(d) && PendingKey(d) in DomainKeys(d);
    assert forall k :: k in DomainKeys(d) ==> (k in a <==> k in a - keys) && (k in b <==> k in b - keys);
    assert forall k :: k in DomainKeys(d) && k in a ==> a[k] == (a - keys)[k];
    assert forall k :: k in DomainKeys(d) && k in b ==> b[k] == (b - keys)[k];
  }

  class World {
    var s3: Bucket
    var tlsa: Zone
    var now: int
    var drawn: nat                  // how many keys have been generated
    const keyAt: nat -> Key
    const reliable: bool            // no call ever fails
    const calm: int                 // no write fails that begins at this instant or later
    ghost const focus: string
    ghost const timing: Timing
    ghost var run: seq<Moment>

    /** The run is one of the protocol, up to now, and keys to come are fresh. */
    ghost predicate Consistent()
      reads this
    {
      && ProperName(focus) && !IsWildcard(focus)
      && IsRun(timing, run)
      && Last(run).now == now && "" in Last(run).used
      && RecordReadable(s3, focus)
      && (forall i, j :: 0 <= i < j ==> keyAt(i).tlsa != keyAt(j).tlsa)
      && (forall i :: drawn <= i ==> keyAt(i).tlsa !in Last(run).used)
    }

    ghost predicate Valid()
      reads this
    {
      Consistent() && Last(run).view == ViewOf(s3, tlsa, focus)
    }

    /** What the world holds for domain d. */
    function ViewAt(d: string): View
      reads this
    {
      ViewOf(s3, tlsa, d)
    }

    ghost function Pc(): Pc
      reads this
      requires |run| > 0
    {
      Last(run).pc
    }

    /** The protocol lets bucket and zone become these, at this point of the focus's rollover. */
    ghost predicate MayBecome(s3': Bucket, tlsa': Zone)
      reads this
      requires |run| > 0
    {
      && RecordReadable(s3', focus)
      && (|| ViewOf(s3', tlsa', focus) == Last(run).view
          || Effect(Last(run).pc, Last(run).view, ViewOf(s3', tlsa', focus)))
    }

    /** Whatever calls were made and however they ended, the focus never suffered a DANE gap. */
    lemma FocusIsContinuous()
      requires Valid() && Patient(timing)
      ensures Continuous(timing, run) && forall k :: 0 < k <= |run| ==> Continuous(timing, run[..k])
    {
      forall k | 0 < k <= |run|
        ensures Continuous(timing, run[..k])
      {
        DaneContinuity(timing, run, k);
      }
      assert run[..|run|] == run;
    }

    /** Objects that are not the focus's own may always change. */
    lemma OtherObjectMayChange(key: string, obj: Object)
      requires Valid() && key !in DomainKeys(focus)
      ensures MayBecome(s3[key := obj], tlsa) && MayBecome(s3 - {key}, tlsa)
    {
      assert s3 - {key} == s3[key := obj] - {key} == s3 - {key} - {key};
      ViewOfRest(s3, s3[key := obj], tlsa, {key}, focus);
      ViewOfRest(s3, s3 - {key}, tlsa, {key}, focus);
    }

    /** What belongs to another domain than the focus may always change. */
    lemma OtherDomainMayChange(d: string, key: string, obj: Object)
      requires Valid() && ProperName(d) && d != focus && key in DomainKeys(d)
      ensures MayBecome(s3[key := obj], tlsa) && MayBecome(s3 - {key}, tlsa)
    {
      DomainsApart(d, focus);
      OtherObjectMayChange(key, obj);
    }

    lemma PendingKeyMayChange(d: string, key: Key)
      requires Valid() && ProperName(d)
      requires d == focus ==> Pc().KeepingKey? && Pc().next == key.tlsa
      ensures MayBecome(s3[PendingKey(d) := KeyObject(key)], tlsa)
    {
      KeysApart(d);
      if d != focus { OtherDomainMayChange(d, PendingKey(d), KeyObject(key)); }
    }

    lemma PendingKeyMayGo(d: string)
      requires Valid() && ProperName(d)
      requires d == focus ==> Pc().Cleaning?
      ensures MayBecome(s3 - {PendingKey(d)}, tlsa)
    {
      KeysApart(d);
      if d != focus { OtherDomainMayChange(d, PendingKey(d), Opaque); }
    }

    lemma RecordMayChange(d: string, rec: RolloverState)
      requires Valid() && ProperName(d)
      requires d == focus ==> Pc() == Recording(rec) || Pc() == Advancing(rec)
      ensures MayBecome(s3[RolloverKey(d) := RecordObject(rec)], tlsa)
    {
      KeysApart(d);
      if d != focus { OtherDomainMayChange(d, RolloverKey(d), RecordObject(rec)); }
    }

    lemma RecordMayGo(d: string)
      requires Valid() && ProperName(d)
      requires d == focus ==> Pc().Resetting? || Pc().Closing?
      ensures MayBecome(s3 - {RolloverKey(d)}, tlsa)
    {
      KeysApart(d);
      if d != focus { OtherDomainMayChange(d, RolloverKey(d), Opaque); }
    }

    lemma CertMayChange(d: string, cert: Cert, sealed: bool)
      requires Valid() && ProperName(d)
      requires d == focus ==> Pc().Switching? && CertHash(Some(cert)) == Some(Pc().issued)
      ensures MayBecome(s3[CertKey(d) := CertObject(cert, sealed)], tlsa)
    {
      KeysApart(d);
      if d != focus { OtherDomainMayChange(d, CertKey(d), CertObject(cert, sealed)); }
    }

    /** What every call leaves as it was, whatever its outcome. */
    twostate predicate Progress()
      reads this
      requires |old(run)| > 0
    {
      && Valid() && old(run) <= run
      && Pc() == old(Pc()) && Last(run).used == old(Last(run).used)
      && old(now) <= now && drawn == old(drawn)
    }

    /** The world as a run begins: the focus is at rest, its certificate published long ago. */
    constructor (s3: Bucket, tlsa: Zone, now: int,
                 keyAt: nat -> Key, reliable: bool, calm: int, ghost focus: string, ghost timing: Timing)
      requires ProperName(focus) && !IsWildcard(focus)
      requires RolloverKey(focus) !in s3
      requires CertHash(CertAt(s3, focus)).Some? ==> CertHash(CertAt(s3, focus)).value in RRset(tlsa, focus)
      requires forall i, j :: 0 <= i < j ==> keyAt(i).tlsa != keyAt(j).tlsa
      requires forall i :: 0 <= i ==> keyAt(i).tlsa != "" && CertHash(CertAt(s3, focus)) != Some(keyAt(i).tlsa)
      ensures Valid() && Pc() == Idle
      ensures this.s3 == s3 && this.tlsa == tlsa && this.now == now && this.focus == focus && this.timing == timing
    {
      this.s3, this.tlsa, this.now, this.drawn := s3, tlsa, now, 0;
      this.keyAt, this.reliable, this.calm, this.focus, this.timing := keyAt, reliable, calm, focus, timing;
      var c := CertHash(CertAt(s3, focus));
      this.run := [Moment(now, ViewOf(s3, tlsa, focus), Idle, if c.Some? then {"", c.value} else {""})];
    }

    /** Time passes. */
    method Wait(atLeast: nat)
      requires Valid()
      modifies `now, `run
      ensures Progress() && old(now) + atLeast <= now
    {
      var more: int := *;
      now := now + atLeast + if more < 0 then 0 else more;
      run := run + [Last(run).(now := now)];
    }

    /** Adds to the run what bucket and zone have just become. */
    ghost method Record()
      requires Consistent()
      requires || ViewOf(s3, tlsa, focus) == Last(run).view
               || Effect(Last(run).pc, Last(run).view, ViewOf(s3, tlsa, focus))
      modifies `run
      ensures Progress()
    {
      run := run + [Last(run).(view := ViewOf(s3, tlsa, focus))];
    }

    method GetObject(key: string) returns (r: Fetch)
      requires Valid()
      modifies `now, `run
      ensures Progress()
      ensures r.Fetched? ==> key in s3 && r.obj == s3[key]
      ensures r.Missing? ==> key !in s3
      ensures reliable ==> !r.FetchFailed?
    {
      Wait(0);
      var ok: bool := *;
      if !ok && !reliable {
        r := FetchFailed;
      } else if key in s3 {
        r := Fetched(s3[key]);
      } else {
        r := Missing;
      }
      Wait(0);
    }

    method HeadObject(key: string) returns (r: Presence)
      requires Valid()
      modifies `now, `run
      ensures Progress()
      ensures r.Present? ==> key in s3
      ensures r.Absent? ==> key !in s3
      ensures reliable ==> !r.HeadFailed?
    {
      Wait(0);
      var ok: bool := *;
      if !ok && !reliable {
        r := HeadFailed;
      } else if key in s3 {
        r := Present;
      } else {
        r := Absent;
      }
      Wait(0);
    }

    method PutObject(key: string, obj: Object) returns (ok: bool)
      requires Valid() && MayBecome(s3[key := obj], tlsa)
      modifies `s3, `now, `run
      ensures Progress()
      ensures s3 == old(s3)[key := obj] || (!ok && s3 == old(s3))
      ensures reliable || old(now) >= calm ==> ok
    {
      Wait(0);
      ok := *;
      ok := ok || reliable || now >= calm;
      var effect: bool := *;
      if ok || effect {
        s3 := s3[key := obj];
        Record();
      }
      Wait(0);
    }

    method DeleteObject(key: string) returns (ok: bool)
      requires Valid() && MayBecome(s3 - {key}, tlsa)
      modifies `s3, `now, `run
      ensures Progress()
      ensures s3 == old(s3) - {key} || (!ok && s3 == old(s3))
      ensures reliable || old(now) >= calm ==> ok
    {
      Wait(0);
      ok := *;
      ok := ok || reliable || now >= calm;
      var effect: bool := *;
      if ok || effect {
        s3 := s3 - {key};
        Record();
      }
      Wait(0);
    }

    /** One DNS UPDATE message that gives owner a new TLSA RRset. */
    method SendUpdate(owner: string, rrset: set<Hash>) returns (ok: bool)
      requires Valid() && MayBecome(s3, tlsa[owner := rrset])
      modifies `tlsa, `now, `run
      ensures Progress()
      ensures tlsa == old(tlsa)[owner := rrset] || (!ok && tlsa == old(tlsa))
      ensures reliable || old(now) >= calm ==> ok
    {
      Wait(0);
      ok := *;
      ok := ok || reliable || now >= calm;
      var effect: bool := *;
      if ok || effect {
        tlsa := tlsa[owner := rrset];
        Record();
      }
      Wait(0);
    }

    /** The key has been generated and has not been used for the focus. */
    ghost predicate Fresh(key: Key)
      reads this
      requires |run| > 0
    {
      key.tlsa !in Last(run).used && forall i :: drawn <= i ==> keyAt(i).tlsa != key.tlsa
    }

    /** A new key; its hash belongs to no key or certificate the focus ever had. */
    method GenerateKey() returns (key: Option<Key>)
      requires Valid()
      modifies `now, `run, `drawn
      ensures Valid() && old(run) <= run && old(now) <= now
      ensures Pc() == old(Pc()) && Last(run).used == old(Last(run).used)
      ensures key.Some? ==> Fresh(key.value)
      ensures reliable ==> key.Some?
    {
      Wait(0);
      var ok: bool := *;
      if !ok && !reliable { return None; }
      key := Some(keyAt(drawn));
      drawn := drawn + 1;
    }

    /** The process, busy with domain d, moves on; only the focus's protocol takes note. */
    ghost method Goto(d: string, pc: Pc)
      requires Valid()
      requires d == focus ==> Move(timing, Last(run), pc, Last(run).used)
      modifies `run
      ensures Valid() && old(run) <= run && Last(run) == old(Last(run)).(pc := if d == focus then pc else old(Pc()))
    {
      if d == focus {
        run := run + [Last(run).(pc := pc)];
      }
    }

    /** The process takes up a rollover with a key it has just generated. */
    ghost method GotoPublishing(d: string, prior: Hash, key: Key)
      requires Valid()
      requires Fresh(key)
      requires d == focus ==>
                Pc() == Idle && Begins(Last(run), Publishing(prior, key.tlsa), Last(run).used + {key.tlsa})
      modifies `run
      ensures Valid() && old(run) <= run && Last(run).now == old(Last(run).now) && Last(run).view == old(Last(run).view)
      ensures Pc() == if d == focus then Publishing(prior, key.tlsa) else old(Pc())
    {
      if d == focus {
        run := run + [Last(run).(pc := Publishing(prior, key.tlsa), used := Last(run).used + {key.tlsa})];
      }
    }
  }
}
