/**
  Bringing a web server's disk in line with the bucket: the remote index, the local index and the files
  are reconciled, while any retrieval, write, removal or save may fail.
 */
module Sync {
  import opened Prelude
  import opened Names
  import opened Cloud
  import opened LocalCloset
  import C = CertCloset

  /** The two indexes and the files, and the domains that have been reported as failed. */
  datatype Copy = Copy(remote: map<string, Entry>, local: map<string, Entry>, dirs: Dirs, failed: set<string>)

  /** Where fetching begins: what was retrieved and saved before, and whether the index was fresh and synced. */
  datatype Onset = Onset(copy: Copy, fetched: multiset<string>, indexFile: Option<map<string, Entry>>,
                         refreshed: bool, synced: bool)

  /** The object that the bucket holds for the domain, as the program reads it. */
  function Stored(certs: Bucket, d: string): Option<Cert> {
    var cert := CertAt(certs, d);
    if cert.Some? then Some(cert.value.(domain := d)) else None
  }

  /** Both files were written from the object in the bucket. */
  predicate IsCopy(dirs: Dirs, d: string, certs: Bucket) {
    Safe(d) && d in dirs && Stored(certs, d).Some? && dirs[d] == Files(Stored(certs, d), Stored(certs, d))
  }

  predicate Copied(a: Copy, b: Copy, d: string, certs: Bucket) {
    d in a.remote && SameEntry(a.remote, b.remote, d) && SameEntry(a.remote, b.local, d) && IsCopy(b.dirs, d, certs)
  }

  predicate Vanished(b: Copy, d: string, certs: Bucket) {
    d !in b.remote && d !in b.local && d !in certs && (d in b.dirs ==> d in b.failed)
  }

  predicate StillDiffers(a: Copy, b: Copy, d: string) {
    d in b.failed && SameEntry(a.remote, b.remote, d) && SameEntry(a.local, b.local, d)
  }

  /** What the fetching of one domain has come to. */
  predicate Handled(a: Copy, b: Copy, d: string, certs: Bucket) {
    Copied(a, b, d, certs) || Vanished(b, d, certs) || StillDiffers(a, b, d)
  }

  /** Only these domains have changed, and each has been handled. */
  ghost predicate Progressed(a: Copy, b: Copy, done: set<string>, certs: Bucket) {
    && b.remote - done == a.remote - done && b.local - done == a.local - done && b.dirs - done == a.dirs - done
    && a.failed <= b.failed <= a.failed + done
    && forall d :: d in done ==> Handled(a, b, d, certs)
  }

  lemma HandledElsewhere(a: Copy, b: Copy, c: Copy, d: string, e: string, certs: Bucket)
    requires Handled(a, b, d, certs) && Progressed(b, c, {e}, certs) && d != e
    ensures Handled(a, c, d, certs)
  {
    StaysThere(b.remote, c.remote, {e}, d);
    StaysThere(b.local, c.local, {e}, d);
    StaysThere(b.dirs, c.dirs, {e}, d);
  }

  lemma ProgressFurther(a: Copy, b: Copy, c: Copy, done: set<string>, e: string, certs: Bucket)
    requires Progressed(a, b, done, certs) && Progressed(b, c, {e}, certs) && e !in done
    ensures Progressed(a, c, done + {e}, certs)
  {
    assert c.remote - (done + {e}) == c.remote - {e} - done == b.remote - {e} - done
        == b.remote - done - {e} == a.remote - (done + {e});
    assert c.local - (done + {e}) == c.local - {e} - done == b.local - {e} - done
        == b.local - done - {e} == a.local - (done + {e});
    assert c.dirs - (done + {e}) == c.dirs - {e} - done == b.dirs - {e} - done
        == b.dirs - done - {e} == a.dirs - (done + {e});
    forall d | d in done + {e}
      ensures Handled(a, c, d, certs)
    {
      if d != e {
        HandledElsewhere(a, b, c, d, e, certs);
      } else {
        StaysThere(a.remote, b.remote, done, e);
        StaysThere(a.local, b.local, done, e);
      }
    }
  }

  lemma SafeIsUnshared(s3: Bucket, d: string)
    requires Safe(d) && d != INDEX_KEY
    ensures Stored(s3, d) == Stored(Unshared(s3), d) && (CertKey(d) in s3 <==> d in Unshared(s3))
  {
    KeysApart(d);
    assert CertKey(d) in DomainKeys(d);
  }

  /** A failure that no fault of a call explains. */
  predicate Hopeless(d: string, certs: Bucket) {
    !Safe(d) || d == INDEX_KEY || (d in certs && Stored(certs, d).None?)
  }

  /** A host name whose object is a certificate, or whose object is gone, gives no reason to fail. */
  lemma NotHopeless(d: string, certs: Bucket)
    requires d != "" && d != INDEX_KEY
    requires forall c :: c in d ==> 'a' <= c <= 'z' || 'A' <= c <= 'Z' || '0' <= c <= '9' || c in "-_*."
    requires forall i :: 0 <= i < |d| - 1 && d[i] == '.' ==> d[i + 1] != '.'
    requires d in certs ==> certs[d].CertObject?
    ensures !Hopeless(d, certs)
  {
    HostNamesAreSafe(d);
  }

  lemma OneVanished(a: Copy, b: Copy, d: string, certs: Bucket)
    requires b.remote == a.remote - {d} && b.local == a.local - {d} && b.dirs - {d} == a.dirs - {d}
    requires d !in certs && a.failed <= b.failed <= a.failed + {d} && (d in b.dirs ==> d in b.failed)
    ensures Progressed(a, b, {d}, certs)
    ensures Regular(a.remote) && Regular(a.local) ==> Regular(b.remote) && Regular(b.local)
  {
    assert a.remote - {d} - {d} == a.remote - {d} && a.local - {d} - {d} == a.local - {d};
  }

  lemma OneFailed(a: Copy, b: Copy, d: string, certs: Bucket)
    requires b.remote == a.remote && b.local == a.local && b.dirs - {d} == a.dirs - {d} && b.failed == a.failed + {d}
    ensures Progressed(a, b, {d}, certs)
  {
  }

  lemma OneCopied(a: Copy, b: Copy, d: string, certs: Bucket)
    requires Regular(a.remote) && Regular(a.local) && d in a.remote && b.remote == a.remote
    requires b.local == a.local[a.remote[d].domain := a.remote[d]]
    requires b.dirs - {d} == a.dirs - {d} && b.failed == a.failed
    requires IsCopy(b.dirs, d, certs)
    ensures Progressed(a, b, {d}, certs) && Regular(b.local)
  {
    assert b.local - {d} == a.local - {d};
  }

  /** The entries whose files are both there. */
  function Kept(index: map<string, Entry>, dirs: Dirs): map<string, Entry> {
    map d | d in index && Safe(d) && Intact(dirs, d) :: index[d]
  }

  function Reported(failed: seq<string>): set<string> {
    set d | d in failed
  }

  lemma ReportedMore(failed: seq<string>, d: string)
    ensures Reported(failed + [d]) == Reported(failed) + {d}
  {
  }

  lemma DomainsMore(entries: seq<Entry>, i: nat)
    requires i < |entries|
    ensures Domains(entries[..i + 1]) == Domains(entries[..i]) + {entries[i].domain}
  {
    assert entries[..i + 1] == entries[..i] + [entries[i]];
  }

  lemma ApartFromMore<V>(a: map<string, V>, b: map<string, V>, d: string, more: set<string>)
    requires a - {d} == b - {d} && d in more
    ensures a - more == b - more && a.Keys - {d} == b.Keys - {d}
  {
    assert (a - {d}).Keys == a.Keys - {d} && (b - {d}).Keys == b.Keys - {d};
    RemovalsMerge(a, b, {d}, more);
  }

  lemma NotYet(entries: seq<Entry>, i: nat)
    requires i < |entries| && forall j, k :: 0 <= j < k < |entries| ==> entries[j].domain != entries[k].domain
    ensures entries[i].domain !in Domains(entries[..i])
    ensures multiset(Domains(entries[..i]) + {entries[i].domain})
         == multiset(Domains(entries[..i])) + multiset{entries[i].domain}
  {
  }

  lemma AskedMore(diff: seq<Entry>, i: nat)
    requires i < |diff| && forall j, k :: 0 <= j < k < |diff| ==> diff[j].domain != diff[k].domain
    ensures multiset(Domains(diff[..i + 1])) == multiset(Domains(diff[..i])) + multiset{diff[i].domain}
  {
    DomainsMore(diff, i);
    NotYet(diff, i);
  }

  /** One more domain of the difference has been handled. */
  lemma ProgressNext(a: Copy, b: Copy, c: Copy, diff: seq<Entry>, i: nat, certs: Bucket)
    requires i < |diff| && Lists(a.remote, diff, Diff(a.remote, a.local))
    requires Progressed(a, b, Domains(diff[..i]), certs)
    requires diff[i].domain in b.remote ==> Progressed(b, c, {diff[i].domain}, certs)
    ensures diff[i].domain in b.remote && Progressed(a, c, Domains(diff[..i + 1]), certs)
  {
    DomainsMore(diff, i);
    NotYet(diff, i);
    assert diff[i].domain in Domains(diff);
    StaysThere(a.remote, b.remote, Domains(diff[..i]), diff[i].domain);
    ProgressFurther(a, b, c, Domains(diff[..i]), diff[i].domain, certs);
  }

  // ---------------------------------------------------------------- what a sync achieves

  /** The damaged entries are gone from the local index, and the stale ones as far as they could be removed. */
  ghost predicate Cleared(a: Copy, m: Copy, gone: set<string>) {
    var stale := Kept(a.local, a.dirs).Keys - a.remote.Keys;
    && m.remote == a.remote && m.local == Kept(a.local, a.dirs) - gone && gone <= stale
    && m.dirs - stale == a.dirs - stale && m.failed == stale - gone && forall d :: d in gone ==> d !in m.dirs
  }

  /** Before and after, with what lay between. */
  ghost predicate Reconciled(a: Copy, m: Copy, b: Copy, gone: set<string>, certs: Bucket) {
    Regular(a.remote) && Regular(a.local) && Cleared(a, m, gone) && Progressed(m, b, Diff(m.remote, m.local), certs)
  }

  /**
    The entry is not ahead of the files: it is new, and both files are copies of what the bucket holds;
    or it is what it was, and the files are there, or else the next sync will see to them.
   */
  predicate Backed(loaded: map<string, Entry>, b: Copy, d: string, certs: Bucket)
    requires d in b.local
  {
    || (d in b.remote && b.local[d] == b.remote[d] && IsCopy(b.dirs, d, certs))
    || (d in loaded && b.local[d] == loaded[d]
        && (Intact(b.dirs, d) || d !in b.remote || b.local[d].expires != b.remote[d].expires))
  }

  /** The disk has exactly what the remote index lists. */
  predicate Converged(c: Copy) {
    c.local == c.remote && forall d :: d in c.remote ==> Safe(d) && Intact(c.dirs, d)
  }

  lemma NeverAhead(a: Copy, m: Copy, b: Copy, gone: set<string>, certs: Bucket, d: string)
    requires Reconciled(a, m, b, gone, certs) && d in b.local
    ensures Backed(a.local, b, d, certs)
  {
    var done := Diff(m.remote, m.local);
    if d in done {
      assert Handled(m, b, d, certs);
    } else {
      StaysThere(m.local, b.local, done, d);
      StaysThere(m.remote, b.remote, done, d);
      StaysThere(m.dirs, b.dirs, done, d);
      if d in b.remote {
        StaysThere(a.dirs, m.dirs, Kept(a.local, a.dirs).Keys - a.remote.Keys, d);
      }
    }
  }

  lemma ConvergedAt(a: Copy, m: Copy, b: Copy, gone: set<string>, certs: Bucket, d: string)
    requires Reconciled(a, m, b, gone, certs) && HasExpiries(a.remote) && b.failed == {}
    ensures d in b.local <==> d in b.remote
    ensures d in b.remote ==> b.local[d] == b.remote[d] && Safe(d) && Intact(b.dirs, d)
  {
    var done := Diff(m.remote, m.local);
    if d in done {
      assert Handled(m, b, d, certs);
    } else {
      StaysThere(m.local, b.local, done, d);
      StaysThere(m.remote, b.remote, done, d);
      StaysThere(m.dirs, b.dirs, done, d);
      if d in a.remote {
        StaysThere(a.dirs, m.dirs, Kept(a.local, a.dirs).Keys - a.remote.Keys, d);
      } else {
        assert d in m.local ==> d in m.failed;
      }
    }
  }

  /** A sync that reports no failure leaves the disk with exactly what the remote index lists. */
  lemma Converges(a: Copy, m: Copy, b: Copy, gone: set<string>, certs: Bucket)
    requires Reconciled(a, m, b, gone, certs) && HasExpiries(a.remote) && b.failed == {}
    ensures Converged(b)
  {
    forall d
      ensures d in b.local <==> d in b.remote
      ensures d in b.remote ==> b.local[d] == b.remote[d] && Safe(d) && Intact(b.dirs, d)
    {
      ConvergedAt(a, m, b, gone, certs, d);
    }
  }

  /** What has converged needs nothing. */
  lemma NothingToDo(c: Copy)
    requires Converged(c)
    ensures Kept(c.local, c.dirs) == c.local && Diff(c.remote, c.local) == {} && c.local.Keys - c.remote.Keys == {}
  {
  }

  /** Entries that the remote index does not list make no difference. */
  lemma StaleMakeNoDiff(remote: map<string, Entry>, local: map<string, Entry>, gone: set<string>)
    requires gone !! remote.Keys
    ensures Diff(remote, local - gone) == Diff(remote, local)
  {
  }

  lemma NoDomains(entries: seq<Entry>)
    ensures Domains(entries) == {} <==> entries == []
  {
    if entries != [] { assert entries[0].domain in Domains(entries); }
  }

  lemma NoneReported(failed: seq<string>)
    ensures Reported(failed) == {} <==> failed == []
  {
    if failed != [] { assert failed[0] in Reported(failed); }
  }

  lemma ReportedBoth(failed: seq<string>, bad: seq<string>)
    ensures Reported(failed + bad) == Reported(failed) + Reported(bad)
  {
  }

  /** What one sync has come to. */
  ghost predicate Outcome(a: Copy, b: Copy, ok: bool, early: bool, certs: Bucket) {
    && (forall d :: d in b.local ==> Backed(a.local, b, d, certs))
    && (ok && !early ==> b.failed == {})
    && (ok ==> Diff(b.remote, Kept(b.local, b.dirs)) == {})
    && (ok && !early && HasExpiries(a.remote) ==> Converged(b))
    && (early ==> ok && b.local == a.local && b.remote == a.remote && Diff(b.remote, b.local) == {})
    && (early && HasExpiries(a.remote) ==> (b.local == b.remote <==> b.failed == {}))
    && (Converged(a) ==> early && b == a)
    // the remote index loses nothing but what the bucket does not hold
    && (forall d :: d in b.remote ==> d in a.remote && b.remote[d] == a.remote[d])
    && (forall d :: d in a.remote && d in certs ==> d in b.remote)
    // what either index listed and the remote one no longer does is off the disk, or reported
    && (forall d :: d in a.remote.Keys + Kept(a.local, a.dirs).Keys && d in b.dirs ==> d in b.remote || d in b.failed)
    && b.failed <= a.remote.Keys + a.local.Keys
    && (INDEX_KEY !in a.dirs ==> INDEX_KEY !in b.dirs)
  }

  lemma RemoteLosesLittle(a: Copy, m: Copy, b: Copy, gone: set<string>, certs: Bucket, d: string)
    requires Reconciled(a, m, b, gone, certs)
    ensures d in b.remote ==> d in a.remote && b.remote[d] == a.remote[d]
    ensures d in a.remote && d in certs ==> d in b.remote
    ensures d in a.remote.Keys + Kept(a.local, a.dirs).Keys && d in b.dirs ==> d in b.remote || d in b.failed
  {
    var done := Diff(m.remote, m.local);
    if d in done {
      assert Handled(m, b, d, certs);
    } else {
      StaysThere(m.remote, b.remote, done, d);
      StaysThere(m.dirs, b.dirs, done, d);
    }
  }

  /** With no failure, or nothing to fetch in the first place, nothing is left to fetch. */
  lemma NothingLeft(a: Copy, m: Copy, b: Copy, gone: set<string>, certs: Bucket, d: string)
    requires Reconciled(a, m, b, gone, certs) && (b.failed == {} || Diff(m.remote, m.local) == {})
    ensures d !in Diff(b.remote, Kept(b.local, b.dirs))
  {
    var done := Diff(m.remote, m.local);
    if d in done {
      assert Handled(m, b, d, certs);
    } else if d in b.remote {
      StaysThere(m.local, b.local, done, d);
      StaysThere(m.remote, b.remote, done, d);
      StaysThere(m.dirs, b.dirs, done, d);
      StaysThere(a.dirs, m.dirs, Kept(a.local, a.dirs).Keys - a.remote.Keys, d);
    }
  }

  lemma IndexFileApart(a: Copy, m: Copy, b: Copy, gone: set<string>, certs: Bucket)
    requires Reconciled(a, m, b, gone, certs) && INDEX_KEY !in a.dirs
    ensures INDEX_KEY !in b.dirs
  {
    StaysThere(a.dirs, m.dirs, Kept(a.local, a.dirs).Keys - a.remote.Keys, INDEX_KEY);
    StaysThere(m.dirs, b.dirs, Diff(m.remote, m.local), INDEX_KEY);
  }

  lemma Settled(a: Copy, m: Copy, b: Copy, gone: set<string>, early: bool, certs: Bucket)
    requires Reconciled(a, m, b, gone, certs) && a.failed == {}
    requires early <==> Diff(m.remote, m.local) == {} && m.local == a.local
    ensures Diff(m.remote, m.local) == Diff(a.remote, Kept(a.local, a.dirs))
    ensures Outcome(a, b, early || b.failed == {}, early, certs)
    ensures !early ==> Outcome(a, b, false, early, certs)
  {
    forall d | d in b.local
      ensures Backed(a.local, b, d, certs)
    {
      NeverAhead(a, m, b, gone, certs, d);
    }
    forall d
      ensures d in b.remote ==> d in a.remote && b.remote[d] == a.remote[d]
      ensures d in a.remote && d in certs ==> d in b.remote
      ensures d in a.remote.Keys + Kept(a.local, a.dirs).Keys && d in b.dirs ==> d in b.remote || d in b.failed
    {
      RemoteLosesLittle(a, m, b, gone, certs, d);
    }
    if INDEX_KEY !in a.dirs { IndexFileApart(a, m, b, gone, certs); }
    if HasExpiries(a.remote) && b.failed == {} { Converges(a, m, b, gone, certs); }
    if early || b.failed == {} {
      forall d
        ensures d !in Diff(b.remote, Kept(b.local, b.dirs))
      {
        NothingLeft(a, m, b, gone, certs, d);
      }
    }
    StaleMakeNoDiff(a.remote, Kept(a.local, a.dirs), gone);
    if early {
      EndsEarly(a, m, b, gone, certs);
    }
    if Converged(a) {
      NothingToDo(a);
      assert gone == {} && m.local == a.local;
      EndsEarly(a, m, b, gone, certs);
    }
  }

  /**
    So a failure can go unreported: whenever the only thing to do is to remove a stale domain and that
    fails, the sync ends early, without an error, and the indexes still differ.
   */
  lemma UnreportedFailure(d: string, expires: int, files: Files, certs: Bucket)
    requires Safe(d) && d != "." && d != INDEX_KEY && files.cert.Some? && files.key.Some?
    ensures var a := Copy(map[], map[d := Entry(d, expires)], map[d := files], {});
            var b := a.(failed := {d});
            Reconciled(a, b, b, {}, certs) && Diff(b.remote, b.local) == {} && b.local != b.remote
  {
    var a := Copy(map[], map[d := Entry(d, expires)], map[d := files], {});
    assert Kept(a.local, a.dirs) == a.local && Kept(a.local, a.dirs) - {} == a.local;
  }

  /** Ending early leaves everything as it was but the files of the stale domains whose removal failed. */
  lemma EndsEarly(a: Copy, m: Copy, b: Copy, gone: set<string>, certs: Bucket)
    requires Reconciled(a, m, b, gone, certs)
    requires Diff(m.remote, m.local) == {} && m.local == a.local
    ensures b.local == a.local && b.remote == a.remote && b.failed == a.local.Keys - a.remote.Keys
    ensures HasExpiries(a.remote) ==> (b.local == b.remote <==> b.failed == {})
    ensures b.failed == {} ==> b.dirs == a.dirs
  {
    assert b.local == b.local - {} && m.local == m.local - {} && b.remote == b.remote - {} && m.remote == m.remote - {};
    assert b.dirs == b.dirs - {} && m.dirs == m.dirs - {} && a.dirs == a.dirs - {};
    assert Kept(a.local, a.dirs) == a.local by {
      assert forall d :: d in a.local ==> d in Kept(a.local, a.dirs) - gone;
    }
    assert gone == {} by {
      assert forall d :: d in gone ==> d in Kept(a.local, a.dirs) && d !in m.local;
    }
    if HasExpiries(a.remote) { NoDiff(b.remote, b.local); }
  }

  class App {
    const closet: C.CertCloset
    const disk: Disk
    var fetched: multiset<string>    // retrievals asked of the bucket

    constructor (closet: C.CertCloset, disk: Disk)
      ensures this.closet == closet && this.disk == disk && fetched == multiset{}
    {
      this.closet, this.disk, this.fetched := closet, disk, multiset{};
    }

    /** The in-memory indexes and the files as they are. */
    function Now(local: LocalCertCloset, failed: set<string>): Copy
      reads closet, disk, local
    {
      Copy(closet.index, local.index, disk.dirs, failed)
    }

    predicate AllRegular(local: LocalCertCloset)
      reads closet, local
    {
      Regular(closet.index) && Regular(local.index)
    }

    /** A refresh adds the bucket's index to the one in memory. */
    function AfterRefresh(): map<string, Entry>
      reads closet, closet.world
    {
      if INDEX_KEY in closet.world.s3 then closet.index + C.PersistedIndex(closet.world.s3) else map[]
    }

    /** A refresh would find nothing new. */
    ghost predicate Refreshed()
      reads closet, closet.world
    {
      AfterRefresh() == closet.index
    }

    method WriteCertificate(cert: Cert) returns (ok: bool)
      modifies disk`dirs
      ensures disk.dirs - {cert.domain} == old(disk.dirs) - {cert.domain}
      ensures ok ==>
                Safe(cert.domain) && cert.domain in disk.dirs && disk.dirs[cert.domain] == Files(Some(cert), Some(cert))
      ensures disk.reliable && Safe(cert.domain) && cert.domain != INDEX_KEY ==> ok
    {
      if !Safe(cert.domain) { return false; }
      ok := disk.WriteFiles(cert.domain, cert);
    }

    /** A listed certificate that is not in the bucket is taken off both indexes and the disk. */
    method DropVanished(d: string, local: LocalCertCloset, ghost failed: set<string>) returns (bad: bool)
      requires closet.world.Valid() && local.disk == disk && CertKey(d) !in closet.world.s3
      modifies closet.world`s3, closet.world`now, closet.world`run, closet`index
      modifies closet`dirty, closet`saves, local`index, disk
      ensures closet.world.Progress() && Unshared(closet.world.s3) == Unshared(old(closet.world.s3))
      ensures old(AllRegular(local)) && d in old(closet.index) ==>
                && AllRegular(local) && disk.indexFile == old(disk.indexFile)
                && Progressed(old(Now(local, failed)), Now(local, failed + if bad then {d} else {}), {d},
                              Unshared(closet.world.s3))
      ensures d !in closet.index
      ensures closet.world.reliable && disk.reliable ==> (bad <==> !Safe(d))
      ensures !bad ==> Refreshed()
      ensures old(closet.Synced()) ==> closet.Synced()
    {
      ghost var a, regular := Now(local, failed), AllRegular(local) && d in closet.index;
      closet.RemoveFromIndex(d);
      var saved := closet.SaveIndex();
      bad := !saved;
      if Safe(d) {
        var removed := disk.RemoveAll(d);
        bad := bad || !removed;
      } else {
        bad := true;
      }
      local.Remove(d);
      if regular { OneVanished(a, Now(local, failed + if bad then {d} else {}), d, Unshared(closet.world.s3)); }
    }

    /** Writes a retrieved certificate; the local index learns of it only when both files are written. */
    method CopyOne(cert: Cert, local: LocalCertCloset, ghost failed: set<string>, ghost certs: Bucket)
      returns (ok: bool)
      requires local.disk == disk
      modifies local`index, disk`dirs
      ensures old(AllRegular(local)) && cert.domain in closet.index
              && (Safe(cert.domain) ==> Stored(certs, cert.domain) == Some(cert)) ==>
                && AllRegular(local)
                && Progressed(old(Now(local, failed)), Now(local, failed + if ok then {} else {cert.domain}),
                              {cert.domain}, certs)
      ensures !ok || cert.domain !in closet.index ==> local.index == old(local.index)
      ensures disk.reliable && Safe(cert.domain) && cert.domain != INDEX_KEY ==> ok
    {
      ghost var a := Now(local, failed);
      var d := cert.domain;
      ok := WriteCertificate(cert);
      if ok && d in closet.index {
        local.Add(closet.index[d]);
      }
      if !ok {
        OneFailed(a, Now(local, failed + {d}), d, certs);
      } else if Regular(a.remote) && Regular(a.local) && d in a.remote && Stored(certs, d) == Some(cert) {
        OneCopied(a, Now(local, failed), d, certs);
      }
    }

    /** One domain of the difference. */
    method FetchOne(d: string, local: LocalCertCloset, ghost failed: set<string>) returns (bad: bool, changed: bool)
      requires closet.world.Valid() && local.disk == disk
      modifies closet.world`s3, closet.world`now, closet.world`run, closet`index
      modifies closet`dirty, closet`saves, local`index, disk, `fetched
      ensures closet.world.Progress() && Unshared(closet.world.s3) == Unshared(old(closet.world.s3))
      ensures fetched == old(fetched) + multiset{d}
      ensures old(AllRegular(local)) && d in old(closet.index) ==>
                && AllRegular(local) && disk.indexFile == old(disk.indexFile)
                && Progressed(old(Now(local, failed)), Now(local, failed + if bad then {d} else {}), {d},
                              Unshared(closet.world.s3))
      ensures !changed ==> local.index == old(local.index) && (d in old(closet.index) ==> bad)
      ensures changed ==> d !in closet.index || !bad
      ensures closet.world.reliable && disk.reliable && bad ==> Hopeless(d, Unshared(closet.world.s3))
      ensures old(Refreshed()) && !bad ==> Refreshed()
      ensures old(closet.Synced()) ==> closet.Synced()
    {
      bad, changed := false, false;
      fetched := fetched + multiset{d};
      if Safe(d) && d != INDEX_KEY { SafeIsUnshared(closet.world.s3, d); }
      var r := closet.RetrieveCertificate(d);
      match r
      case NotFound =>
        bad := DropVanished(d, local, failed);
        changed := true;
      case Unretrievable =>
        bad := true;
        OneFailed(Now(local, failed), Now(local, failed + {d}), d, Unshared(closet.world.s3));
      case Retrieved(cert) =>
        var ok := CopyOne(cert, local, failed, Unshared(closet.world.s3));
        bad, changed := !ok, ok && d in closet.index;
    }

    /** Takes the entries with missing files off the local index. */
    method DropDamaged(local: LocalCertCloset) returns (changed: bool)
      requires local.disk == disk
      modifies local`index
      ensures Regular(old(local.index)) ==> Regular(local.index) && local.index == Kept(old(local.index), disk.dirs)
      ensures Regular(old(local.index)) ==> (changed <==> local.index != old(local.index))
    {
      var failed := local.CheckIntegrity();
      changed := false;
      var i := 0;
      while i < |failed|
        invariant 0 <= i <= |failed| && (changed <==> i > 0)
        invariant local.index == old(local.index) - Domains(failed[..i])
      {
        DomainsMore(failed, i);
        local.Remove(failed[i].domain);
        changed := true;
        i := i + 1;
      }
      assert failed[..|failed|] == failed;
      if Regular(old(local.index)) {
        assert local.index == Kept(old(local.index), disk.dirs);
        if changed {
          assert failed[0] in failed;
          assert failed[0].domain in old(local.index) && failed[0].domain !in local.index;
        }
      }
    }

    /** Removes what the remote index does not list, from the disk first. */
    method RemoveStale(local: LocalCertCloset) returns (failed: seq<string>, changed: bool, ghost gone: set<string>)
      requires local.disk == disk
      modifies local`index, disk
      ensures gone <= old(local.index).Keys - closet.index.Keys
      ensures local.index == old(local.index) - gone && (changed <==> gone != {}) && forall d :: d in gone ==> Safe(d)
      ensures Reported(failed) == old(local.index).Keys - closet.index.Keys - gone
      ensures Regular(old(local.index)) ==>
                && disk.dirs - (old(local.index).Keys - closet.index.Keys)
                   == old(disk.dirs) - (old(local.index).Keys - closet.index.Keys)
                && disk.indexFile == old(disk.indexFile) && forall d :: d in gone ==> d !in disk.dirs
      ensures disk.reliable ==> forall d :: d in failed ==> !Safe(d)
    {
      failed, changed, gone := [], false, {};
      ghost var stale := local.index.Keys - closet.index.Keys;
      var todo := local.index.Keys;
      while todo != {}
        invariant todo <= old(local.index).Keys && gone <= stale - todo
        invariant local.index == old(local.index) - gone && (changed <==> gone != {})
        invariant forall d :: d in gone ==> Safe(d)
        invariant Reported(failed) == stale - todo - gone
        invariant Regular(old(local.index)) ==>
                  disk.dirs - stale == old(disk.dirs) - stale && disk.indexFile == old(disk.indexFile)
        invariant Regular(old(local.index)) ==> forall d :: d in gone ==> d !in disk.dirs
        invariant disk.reliable ==> forall d :: d in failed ==> !Safe(d)
        decreases todo
      {
        var d :| d in todo;
        assert d !in gone;
        todo := todo - {d};
        if d in closet.index { continue; }
        ReportedMore(failed, d);
        if !Safe(d) {
          failed := failed + [d];
          continue;
        }
        ghost var dirs := disk.dirs;
        var removed := disk.RemoveAll(d);
        if d != "." {
          ApartFromMore(dirs, disk.dirs, d, stale);
          assert forall e :: e in gone && e in disk.dirs ==> e in disk.dirs.Keys - {d};
        }
        if !removed {
          failed := failed + [d];
          continue;
        }
        local.Remove(d);
        gone := gone + {d};
        changed := true;
      }
    }

    /** So far the first i domains of the difference have been handled. */
    ghost predicate Partway(start: Copy, diff: seq<Entry>, i: nat, local: LocalCertCloset, failed: set<string>)
      requires i <= |diff|
      reads closet, closet.world, disk, local
    {
      Regular(start.remote) && Regular(start.local) ==>
        AllRegular(local) && Progressed(start, Now(local, failed), Domains(diff[..i]), Unshared(closet.world.s3))
    }

    /** What was so at the beginning is still so: the index is synced, and fresh as long as nothing failed. */
    ghost predicate Tracked(bad: seq<string>, refreshed: bool, synced: bool)
      reads closet, closet.world
    {
      (refreshed && bad == [] ==> Refreshed()) && (synced ==> closet.Synced())
    }

    /** Where no call fails, only a hopeless domain fails. */
    ghost predicate Excused(bad: seq<string>)
      reads closet, closet.world
    {
      closet.world.reliable && disk.reliable ==> forall d :: d in bad ==> Hopeless(d, Unshared(closet.world.s3))
    }

    /** Each of the first i domains has been asked for once. */
    ghost predicate Asked(before: multiset<string>, diff: seq<Entry>, i: nat)
      requires i <= |diff|
      reads `fetched
    {
      fetched == before + multiset(Domains(diff[..i]))
    }

    /** How fetching the difference begins. */
    ghost function OnsetOf(local: LocalCertCloset, failed: set<string>): Onset
      reads this, closet, closet.world, disk, local
    {
      Onset(Now(local, failed), fetched, disk.indexFile, Refreshed(), closet.Synced())
    }

    /** What holds of a difference of which the first i domains have been handled. */
    ghost predicate Fetching(onset: Onset, diff: seq<Entry>, i: nat, local: LocalCertCloset, bad: seq<string>)
      requires i <= |diff|
      reads this, closet, closet.world, disk, local
    {
      && Partway(onset.copy, diff, i, local, onset.copy.failed + Reported(bad))
      && Asked(onset.fetched, diff, i) && Excused(bad) && Tracked(bad, onset.refreshed, onset.synced)
      && (Regular(onset.copy.remote) && Regular(onset.copy.local) ==> disk.indexFile == onset.indexFile)
    }

    /** Fetches one domain of the difference and notes it if that failed. */
    method FetchNext(diff: seq<Entry>, i: nat, local: LocalCertCloset, bad: seq<string>, ghost onset: Onset)
      returns (bad': seq<string>, changed: bool)
      requires closet.world.Valid() && local.disk == disk && i < |diff|
      requires Lists(onset.copy.remote, diff, Diff(onset.copy.remote, onset.copy.local))
      requires Fetching(onset, diff, i, local, bad)
      modifies closet.world`s3, closet.world`now, closet.world`run, closet`index
      modifies closet`dirty, closet`saves, local`index, disk, `fetched
      ensures closet.world.Progress() && Unshared(closet.world.s3) == Unshared(old(closet.world.s3))
      ensures Fetching(onset, diff, i + 1, local, bad')
      ensures !changed ==> local.index == old(local.index)
    {
      ghost var start := onset.copy;
      ghost var copy := Now(local, start.failed + Reported(bad));
      ghost var d := diff[i].domain;
      var failedHere;
      failedHere, changed := FetchOne(diff[i].domain, local, start.failed + Reported(bad));
      bad' := if failedHere then bad + [diff[i].domain] else bad;
      ReportedMore(bad, d);
      assert start.failed + Reported(bad') == start.failed + Reported(bad) + if failedHere then {d} else {};
      AskedMore(diff, i);
      if Regular(start.remote) && Regular(start.local) {
        ProgressNext(start, copy, Now(local, start.failed + Reported(bad')), diff, i, Unshared(closet.world.s3));
      }
    }

    /** Fetches the whole difference. */
    method FetchAll(diff: seq<Entry>, local: LocalCertCloset, ghost failed: set<string>)
      returns (bad: seq<string>, changed: bool)
      requires closet.world.Valid() && local.disk == disk && Lists(closet.index, diff, Diff(closet.index, local.index))
      modifies closet.world`s3, closet.world`now, closet.world`run, closet`index
      modifies closet`dirty, closet`saves, local`index, disk, `fetched
      ensures closet.world.Progress() && Unshared(closet.world.s3) == Unshared(old(closet.world.s3))
      ensures Fetching(old(OnsetOf(local, failed)), diff, |diff|, local, bad)
      ensures !changed ==> local.index == old(local.index)
    {
      bad, changed := [], false;
      ghost var onset := OnsetOf(local, failed);
      assert failed + Reported(bad) == failed;
      var i := 0;
      while i < |diff|
        invariant 0 <= i <= |diff| && closet.world.Progress()
        invariant Unshared(closet.world.s3) == Unshared(old(closet.world.s3))
        invariant Fetching(onset, diff, i, local, bad)
        invariant !changed ==> local.index == old(local.index)
      {
        var changedHere;
        bad, changedHere := FetchNext(diff, i, local, bad, onset);
        changed := changed || changedHere;
        i := i + 1;
      }
    }

    method Clear(local: LocalCertCloset) returns (failed: seq<string>, changed: bool, ghost gone: set<string>)
      requires local.disk == disk
      modifies local`index, disk
      ensures Regular(old(local.index)) ==>
                && Regular(local.index) && disk.indexFile == old(disk.indexFile)
                && Cleared(old(Now(local, {})), Now(local, Reported(failed)), gone)
                && (changed <==> local.index != old(local.index))
      ensures disk.reliable ==> forall d :: d in failed ==> !Safe(d)
    {
      var dropped := DropDamaged(local);
      ghost var kept := local.index;
      var removed;
      failed, removed, gone := RemoveStale(local);
      changed := dropped || removed;
      if Regular(old(local.index)) {
        assert removed ==> local.index != kept by {
          if removed { var d :| d in gone; assert d in kept && d !in local.index; }
        }
      }
    }

    /** The three passes.  With nothing changed and nothing to fetch it ends early, whatever has failed. */
    method Reconcile(local: LocalCertCloset)
      returns (failed: seq<string>, changed: bool, early: bool, ghost middle: Copy, ghost gone: set<string>)
      requires closet.world.Valid() && local.disk == disk
      modifies closet.world`s3, closet.world`now, closet.world`run, closet`index
      modifies closet`dirty, closet`saves, local`index, disk, `fetched
      ensures closet.world.Progress() && Unshared(closet.world.s3) == Unshared(old(closet.world.s3))
      ensures old(AllRegular(local)) ==>
                && AllRegular(local) && disk.indexFile == old(disk.indexFile)
                && Reconciled(old(Now(local, {})), middle, Now(local, Reported(failed)), gone,
                              Unshared(closet.world.s3))
                && fetched == old(fetched) + multiset(Diff(middle.remote, middle.local))
                && (early <==> Diff(middle.remote, middle.local) == {} && middle.local == old(local.index))
      ensures old(AllRegular(local)) && !changed ==> local.index == old(local.index)
      ensures early ==> !changed
      ensures Excused(failed)
      ensures old(Refreshed()) && (early || failed == []) ==> Refreshed()
      ensures old(closet.Synced()) ==> closet.Synced()
    {
      failed, changed, gone := Clear(local);
      middle := Now(local, Reported(failed));
      var diff := GetDiff(closet.index, local.index);
      NoDomains(diff);
      early := |diff| == 0 && !changed;
      if early { return; }
      var bad, synced := FetchAll(diff, local, middle.failed);
      assert diff[..|diff|] == diff;
      ReportedBoth(failed, bad);
      failed := failed + bad;
      changed := changed || synced;
    }

    ghost predicate Faultless(a: Copy, certs: Bucket)
      reads closet, closet.world
    {
      && closet.world.reliable && disk.reliable && INDEX_KEY !in a.dirs
      && forall d :: d in a.remote.Keys + a.local.Keys ==> !Hopeless(d, certs)
    }

    /** The passes and what they come to. */
    method Settle(local: LocalCertCloset)
      returns (failed: seq<string>, changed: bool, early: bool, ghost b: Copy)
      requires closet.world.Valid() && local.disk == disk
      modifies closet.world`s3, closet.world`now, closet.world`run, closet`index
      modifies closet`dirty, closet`saves, local`index, disk, `fetched
      ensures closet.world.Progress() && Unshared(closet.world.s3) == Unshared(old(closet.world.s3))
      ensures b == Now(local, Reported(failed))
      ensures old(AllRegular(local)) ==>
                && AllRegular(local) && disk.indexFile == old(disk.indexFile)
                && Outcome(old(Now(local, {})), b, early || b.failed == {}, early, Unshared(closet.world.s3))
                && (!early ==> Outcome(old(Now(local, {})), b, false, early, Unshared(closet.world.s3)))
                && fetched == old(fetched) + multiset(Diff(old(closet.index), Kept(old(local.index), old(disk.dirs))))
      ensures old(AllRegular(local)) && !changed ==> local.index == old(local.index)
      ensures early ==> !changed
      ensures Excused(failed)
      ensures old(Refreshed()) && (early || failed == []) ==> Refreshed()
      ensures old(closet.Synced()) ==> closet.Synced()
    {
      ghost var a := Now(local, {});
      ghost var middle, gone;
      failed, changed, early, middle, gone := Reconcile(local);
      b := Now(local, Reported(failed));
      if Regular(a.remote) && Regular(a.local) {
        Settled(a, middle, b, gone, early, Unshared(closet.world.s3));
      }
    }

    /** The passes, and then the local index is saved if it has changed. */
    method SyncWith(local: LocalCertCloset) returns (ok: bool, early: bool, ghost b: Copy)
      requires closet.world.Valid() && local.disk == disk && disk.indexFile == Some(local.index)
      modifies closet.world`s3, closet.world`now, closet.world`run, closet`index
      modifies closet`dirty, closet`saves, local`index, disk, `fetched
      ensures closet.world.Progress() && Unshared(closet.world.s3) == Unshared(old(closet.world.s3))
      ensures b.remote == closet.index && b.dirs == disk.dirs && b.local == local.index
      ensures old(AllRegular(local)) ==>
                && Outcome(old(Now(local, {})), b, ok, early, Unshared(closet.world.s3))
                && fetched == old(fetched) + multiset(Diff(old(closet.index), Kept(old(local.index), old(disk.dirs))))
                && (disk.indexFile == Some(b.local) || (!ok && disk.indexFile == old(disk.indexFile)))
      ensures closet.world.reliable && disk.reliable ==>
                forall d :: d in b.failed ==> Hopeless(d, Unshared(closet.world.s3))
      ensures closet.world.reliable && disk.reliable && INDEX_KEY !in disk.dirs && b.failed == {} ==> ok
      ensures old(AllRegular(local)) ==> AllRegular(local)
      ensures old(Refreshed()) && ok ==> Refreshed()
      ensures old(closet.Synced()) ==> closet.Synced()
    {
      var failed, changed;
      failed, changed, early, b := Settle(local);
      if early { return true, early, b; }
      var saved := true;
      if changed { saved := local.SaveIndex(); }
      ok := saved && failed == [];
      NoneReported(failed);
    }

    /** Nothing is in the way of reading the two indexes. */
    predicate CanOpen()
      reads closet, closet.world, disk
    {
      && closet.world.reliable && disk.reliable && INDEX_KEY !in disk.dirs
      && (INDEX_KEY in closet.world.s3 ==> closet.world.s3[INDEX_KEY].IndexObject?)
    }

    /** Refreshes the remote index and reads the local one. */
    method Open(local: LocalCertCloset) returns (ok: bool)
      requires closet.world.Valid() && local.disk == disk && local.index == map[]
      modifies closet.world`now, closet.world`run, closet`index, local, disk`indexFile
      ensures closet.world.Progress()
      ensures ok ==> closet.index == old(AfterRefresh()) && Refreshed() && disk.indexFile == Some(local.index)
      ensures ok ==> local.index == if old(disk.indexFile).Some? then old(disk.indexFile).value else map[]
      ensures CanOpen() ==> ok
      ensures old(closet.Synced()) ==> closet.Synced()
    {
      var refreshed := closet.RetrieveIndex();
      if !refreshed { return false; }
      ok := local.Open();
    }

    /** The index file, or none. */
    function LocalFile(): map<string, Entry>
      reads disk
    {
      if disk.indexFile.Some? then disk.indexFile.value else map[]
    }

    /** What a sync starts from if it can read both indexes. */
    ghost function Beginning(): Copy
      reads closet, closet.world, disk
    {
      Copy(AfterRefresh(), LocalFile(), disk.dirs, {})
    }

    /**
      One sync.  The local index never says more than the disk holds, whichever calls fail.  If it ends
      without an error after fetching or changing anything, disk and remote index agree; if it ends early
      they agree exactly when no removal failed.  Where they already agree it does nothing.
     */
    method SyncCerts() returns (ok: bool, early: bool, ghost begun: bool, ghost a: Copy, ghost b: Copy)
      requires closet.world.Valid()
      modifies closet.world`s3, closet.world`now, closet.world`run, closet`index
      modifies closet`dirty, closet`saves, disk, `fetched
      ensures closet.world.Progress() && Unshared(closet.world.s3) == Unshared(old(closet.world.s3))
      ensures !begun ==> !ok && disk.dirs == old(disk.dirs) && fetched == old(fetched)
      // what the sync starts from
      ensures begun ==> a == old(Beginning())
      ensures old(CanOpen()) ==> begun
      // what it comes to
      ensures begun ==> b.remote == closet.index && b.dirs == disk.dirs
      ensures begun && Regular(a.remote) && Regular(a.local) ==>
                && Outcome(a, b, ok, early, Unshared(closet.world.s3))
                && fetched == old(fetched) + multiset(Diff(a.remote, Kept(a.local, a.dirs)))
                && (disk.indexFile == Some(b.local) || (!ok && disk.indexFile == Some(a.local)))
      ensures begun && closet.world.reliable && disk.reliable ==>
                forall d :: d in b.failed ==> Hopeless(d, Unshared(closet.world.s3))
      // without faults, bad names and unreadable objects it succeeds
      ensures begun && Regular(a.remote) && Regular(a.local) && Faultless(a, Unshared(closet.world.s3)) ==>
                ok && b.failed == {}
      ensures begun && Regular(a.remote) && Regular(a.local) ==> Regular(b.remote) && Regular(b.local)
      // a further refresh would find the remote index as this sync leaves it
      ensures ok ==> begun && AfterRefresh() == b.remote
      ensures old(closet.Synced()) ==> closet.Synced()
    {
      ok, early, begun := false, false, false;
      a, b := Copy(map[], map[], map[], {}), Copy(map[], map[], map[], {});
      var local := new LocalCertCloset(disk);
      var isOpen := Open(local);
      if !isOpen { return; }
      begun, a := true, Now(local, {});
      ok, early, b := SyncWith(local);
    }

    /** Both indexes that a sync would start from are regular. */
    ghost predicate StartsRegular()
      reads closet, closet.world, disk
    {
      Regular(AfterRefresh()) && Regular(LocalFile())
    }

    /** A sync would find nothing to retrieve. */
    ghost predicate NothingToFetch()
      reads closet, closet.world, disk
    {
      StartsRegular() && Diff(AfterRefresh(), Kept(LocalFile(), disk.dirs)) == {}
    }

    /** Bucket, index file and disk agree. */
    ghost predicate InAgreement()
      reads closet, closet.world, disk
    {
      StartsRegular() && disk.indexFile.Some? && Converged(Beginning())
    }

    method SyncOnce() returns (ok: bool, early: bool, ghost b: Copy)
      requires closet.world.Valid()
      modifies closet.world`s3, closet.world`now, closet.world`run, closet`index
      modifies closet`dirty, closet`saves, disk, `fetched
      ensures closet.world.Valid() && Unshared(closet.world.s3) == Unshared(old(closet.world.s3))
      ensures old(StartsRegular()) && ok ==>
                && NothingToFetch() && Outcome(old(Beginning()), b, ok, early, Unshared(closet.world.s3))
                && fetched == old(fetched) + multiset(Diff(old(AfterRefresh()), Kept(old(LocalFile()), old(disk.dirs))))
                && disk.dirs == b.dirs && disk.indexFile == Some(b.local)
      ensures old(StartsRegular()) && ok && !early && HasExpiries(old(AfterRefresh())) ==> InAgreement()
    {
      ghost var begun, a;
      ok, early, begun, a, b := SyncCerts();
    }

    method SyncAgain() returns (ok: bool)
      requires closet.world.Valid()
      modifies closet.world`s3, closet.world`now, closet.world`run, closet`index
      modifies closet`dirty, closet`saves, disk, `fetched
      ensures Unshared(closet.world.s3) == Unshared(old(closet.world.s3))
      ensures old(NothingToFetch()) ==> fetched == old(fetched)
      ensures old(InAgreement()) ==> disk.dirs == old(disk.dirs) && (ok ==> disk.indexFile == old(disk.indexFile))
    {
      var early;
      ghost var begun, a, b;
      ok, early, begun, a, b := SyncCerts();
    }

    /**
      Once a sync has ended without an error, a second one against the same bucket retrieves nothing:
      both together have retrieved the difference once.  After a sync that did not end early it
      changes nothing on the disk either: both together come to an outcome of the first.
     */
    method SyncTwice() returns (ok: bool, early: bool, again: bool, ghost b: Copy)
      requires closet.world.Valid()
      modifies closet.world`s3, closet.world`now, closet.world`run, closet`index
      modifies closet`dirty, closet`saves, disk, `fetched
      ensures old(StartsRegular()) && ok ==>
                && fetched == old(fetched) + multiset(Diff(old(AfterRefresh()), Kept(old(LocalFile()), old(disk.dirs))))
                && Outcome(old(Beginning()), b, ok, early, Unshared(closet.world.s3))
      ensures old(StartsRegular()) && ok && !early && HasExpiries(old(AfterRefresh())) ==>
                disk.dirs == b.dirs && (again ==> disk.indexFile == Some(b.local))
    {
      ok, early, b := SyncOnce();
      again := SyncAgain();
    }
  }
}
