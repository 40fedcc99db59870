/** The copy of the certificates on a web server's disk, and its index. */
module LocalCloset {
  import opened Prelude
  import opened Names
  import opened Cloud

  /** The expiry that a missing entry reads as: the beginning of the year 1, in time since 1970. */
  const ZERO_TIME: int := -62_135_596_800 * SECOND

  /** The two files of one certificate; each holds the object it was written from. */
  datatype Files = Files(cert: Option<Cert>, key: Option<Cert>)

  type Dirs = map<string, Files>

  predicate IsControl(c: char) {
    c < ' ' || '\U{7F}' <= c <= '\U{9F}'
  }

  predicate NoDoubleDot(s: string) {
    forall i :: 0 <= i < |s| - 1 ==> !(s[i] == '.' && s[i + 1] == '.')
  }

  /** The name may stand for one directory below the store. */
  predicate Safe(domain: string) {
    && domain != "" && NoDoubleDot(domain) && '/' !in domain && '\\' !in domain
    && forall c :: c in domain ==> !IsControl(c)
  }

  /**
    Safe are the names that are not empty, have no two dots in a row and no slash of either kind, and
    none of whose characters is among the first 32 or from 127 to 159.
   */
  lemma SafeIff(domain: string)
    ensures Safe(domain) <==>
              && |domain| > 0 && (forall a, b :: domain != a + ".." + b)
              && forall c :: c in domain ==> c != '/' && c != '\\' && c as int >= 32 && !(127 <= c as int <= 159)
  {
    if i :| 0 <= i < |domain| - 1 && domain[i] == '.' && domain[i + 1] == '.' {
      assert domain == domain[..i] + ".." + domain[i + 2..];
    }
    if a, b :| domain == a + ".." + b {
      assert domain[|a|] == '.' && domain[|a| + 1] == '.';
    }
  }

  /** So the names of hosts are safe, wildcards among them. */
  lemma HostNamesAreSafe(domain: string)
    requires domain != ""
    requires forall c :: c in domain ==> 'a' <= c <= 'z' || 'A' <= c <= 'Z' || '0' <= c <= '9' || c in "-_*."
    requires forall i :: 0 <= i < |domain| - 1 && domain[i] == '.' ==> domain[i + 1] != '.'
    ensures Safe(domain)
  {
  }

  predicate Intact(dirs: Dirs, d: string) {
    d in dirs && dirs[d].cert.Some? && dirs[d].key.Some?
  }

  /** The directory of a domain, below the store; the file system takes "." for the store itself. */
  function PathOf(d: string): seq<string> {
    if d == "." then [] else [d]
  }

  /** A removal takes everything at or below its path. */
  function Remaining(dirs: Dirs, d: string): Dirs {
    map e | e in dirs && !(PathOf(d) <= PathOf(e)) :: dirs[e]
  }

  lemma RemainingOf(dirs: Dirs, d: string)
    ensures Remaining(dirs, d) == if d == "." then map[] else dirs - {d}
  {
    forall e | e in dirs
      ensures PathOf(d) <= PathOf(e) <==> d == "." || d == e
    {
      if d != "." && e != "." { assert [d] <= [e] <==> [d][0] == [e][0]; }
    }
  }

  /**
    Removing a domain spares all others, in every store that holds any, if and only if the domain is
    not named ".".
   */
  lemma RemovalSparesOthers(dirs: Dirs, d: string)
    requires dirs.Keys - {d} != {}
    ensures Remaining(dirs, d) - {d} == dirs - {d} <==> d != "."
  {
    RemainingOf(dirs, d);
    var e :| e in dirs.Keys - {d};
    assert e in dirs - {d};
    assert dirs - {d} - {d} == dirs - {d};
  }

  class Disk {
    var indexFile: Option<map<string, Entry>>
    var dirs: Dirs
    const reliable: bool    // no operation ever fails

    constructor (indexFile: Option<map<string, Entry>>, dirs: Dirs, reliable: bool)
      ensures this.indexFile == indexFile && this.dirs == dirs && this.reliable == reliable
    {
      this.indexFile, this.dirs, this.reliable := indexFile, dirs, reliable;
    }

    method WriteIndex(entries: map<string, Entry>) returns (ok: bool)
      modifies `indexFile
      ensures indexFile == if ok then Some(entries) else old(indexFile)
      ensures INDEX_KEY in dirs ==> !ok
      ensures reliable && INDEX_KEY !in dirs ==> ok
    {
      ok := *;
      ok := (ok || reliable) && INDEX_KEY !in dirs;
      if ok { indexFile := Some(entries); }
    }

    method ReadIndex() returns (r: Option<map<string, Entry>>)
      ensures r.Some? ==> r == indexFile
      ensures reliable ==> r == indexFile
    {
      var ok: bool := *;
      r := if ok || reliable then indexFile else None;
    }

    /** Each file is written beside the old one and then renamed, so it is old or new but never partial. */
    method WriteFiles(d: string, cert: Cert) returns (ok: bool)
      modifies `dirs
      ensures dirs - {d} == old(dirs) - {d}
      ensures ok ==> d in dirs && dirs[d] == Files(Some(cert), Some(cert))
      ensures d == INDEX_KEY && indexFile.Some? ==> !ok && dirs == old(dirs)
      // first the certificate, then the key
      ensures d !in old(dirs) ==>
                d !in dirs || dirs[d] in {Files(None, None), Files(Some(cert), None), Files(Some(cert), Some(cert))}
      ensures d in old(dirs) ==>
                d in dirs && dirs[d] in {old(dirs)[d], old(dirs)[d].(cert := Some(cert)), Files(Some(cert), Some(cert))}
      ensures reliable && d != INDEX_KEY ==> ok
    {
      // the index file is no directory
      if d == INDEX_KEY && indexFile.Some? { return false; }
      ok := *;
      if !ok && !reliable { return; }
      var was := if d in dirs then dirs[d] else Files(None, None);
      dirs := dirs[d := was];
      ok := *;
      if !ok && !reliable { return; }
      dirs := dirs[d := was.(cert := Some(cert))];
      ok := *;
      if !ok && !reliable { return; }
      dirs := dirs[d := was.(cert := Some(cert), key := Some(cert))];
      ok := true;
    }

    /** A removal that fails may have removed some of the files. */
    method RemoveAll(d: string) returns (ok: bool)
      modifies this
      ensures ok ==> dirs == Remaining(old(dirs), d)
      ensures d != "." ==> dirs - {d} == old(dirs) - {d}
      ensures d != "." && d != INDEX_KEY ==> indexFile == old(indexFile)
      ensures reliable ==> ok
    {
      ok := *;
      ok := ok || reliable;
      RemainingOf(dirs, d);
      if ok {
        dirs := Remaining(dirs, d);
        if d == "." || d == INDEX_KEY { indexFile := None; }
      } else if d == "." {
        dirs := *;
        indexFile := *;
      } else if d in dirs {
        var cert: bool, key: bool := *, *;
        dirs := dirs[d := Files(if cert then dirs[d].cert else None, if key then dirs[d].key else None)];
      }
    }
  }

  // ---------------------------------------------------------------- comparing indexes

  function Expires(index: map<string, Entry>, d: string): int {
    if d in index then index[d].expires else ZERO_TIME
  }

  /** The domains that have another expiry elsewhere. */
  function Diff(index: map<string, Entry>, other: map<string, Entry>): set<string> {
    set d | d in index && Expires(other, d) != index[d].expires
  }

  function Domains(entries: seq<Entry>): set<string> {
    set e | e in entries :: e.domain
  }

  /** The entries of these domains, each once. */
  ghost predicate Lists(index: map<string, Entry>, entries: seq<Entry>, domains: set<string>) {
    && Domains(entries) == domains
    && (forall i, j :: 0 <= i < j < |entries| ==> entries[i].domain != entries[j].domain)
    && forall e :: e in entries ==> e == Entry(e.domain, Expires(index, e.domain))
  }

  lemma ListsMore(index: map<string, Entry>, entries: seq<Entry>, domains: set<string>, d: string)
    requires Lists(index, entries, domains) && d !in domains
    ensures Lists(index, entries + [Entry(d, Expires(index, d))], domains + {d})
  {
    var more := entries + [Entry(d, Expires(index, d))];
    assert more[|entries|].domain == d;
    assert Domains(more) == Domains(entries) + {d};
  }

  lemma DiffStep(index: map<string, Entry>, other: map<string, Entry>, todo: set<string>, d: string)
    requires d in todo && todo <= index.Keys
    ensures var all := Diff(index, other);
            && all - (todo - {d}) == (all - todo) + (if Expires(other, d) != index[d].expires then {d} else {})
            && d !in all - todo
  {
  }

  method GetDiff(index: map<string, Entry>, other: map<string, Entry>) returns (diff: seq<Entry>)
    ensures Lists(index, diff, Diff(index, other))
  {
    diff := [];
    var todo := index.Keys;
    while todo != {}
      invariant todo <= index.Keys
      invariant Lists(index, diff, Diff(index, other) - todo)
      decreases todo
    {
      var d :| d in todo;
      DiffStep(index, other, todo, d);
      if Expires(other, d) != index[d].expires {
        ListsMore(index, diff, Diff(index, other) - todo, d);
        diff := diff + [Entry(d, index[d].expires)];
      }
      todo := todo - {d};
    }
    assert Diff(index, other) - todo == Diff(index, other);
  }

  /** Keys and names agree, and no name is one that the file system takes for something else. */
  predicate Regular(index: map<string, Entry>) {
    forall d :: d in index ==> index[d].domain == d && d != "." && d != INDEX_KEY
  }

  predicate HasExpiries(index: map<string, Entry>) {
    forall d :: d in index ==> index[d].expires != ZERO_TIME
  }

  /** Nothing to fetch: the local index has all the remote entries, and is equal if it has no others. */
  lemma NoDiff(remote: map<string, Entry>, local: map<string, Entry>)
    requires Regular(remote) && Regular(local) && HasExpiries(remote)
    ensures Diff(remote, local) == {} <==> forall d :: d in remote ==> d in local && local[d] == remote[d]
    ensures Diff(remote, local) == {} ==> (local == remote <==> local.Keys <= remote.Keys)
  {
    if Diff(remote, local) == {} {
      forall d | d in remote
        ensures d in local && local[d] == remote[d]
      {
        assert d !in Diff(remote, local);
      }
    }
  }

  /** An entry with the zero expiry is found different exactly from entries that have another one, never from none. */
  lemma ZeroExpiryIsNeverSynced(index: map<string, Entry>, other: map<string, Entry>, d: string)
    requires d in index && index[d].expires == ZERO_TIME
    ensures d in Diff(index, other) <==> d in other && other[d].expires != ZERO_TIME
  {
  }

  class LocalCertCloset {
    const disk: Disk
    var index: map<string, Entry>

    constructor (disk: Disk)
      ensures this.disk == disk && index == map[]
    {
      this.disk, this.index := disk, map[];
    }

    /** Opens the store: reads the index file, creating an empty one where there is none. */
    method Open() returns (ok: bool)
      requires index == map[]
      modifies this, disk`indexFile
      ensures disk.indexFile == old(disk.indexFile) || (old(disk.indexFile).None? && disk.indexFile == Some(map[]))
      ensures ok ==> disk.indexFile == Some(index)
      ensures disk.reliable && INDEX_KEY !in disk.dirs ==> ok
    {
      if disk.indexFile.None? {
        ok := SaveIndex();
        if !ok { return; }
      }
      var r := disk.ReadIndex();
      if r.None? { return false; }
      index := index + r.value;
      assert index == r.value;
      ok := true;
    }

    method SaveIndex() returns (ok: bool)
      modifies disk`indexFile
      ensures disk.indexFile == if ok then Some(index) else old(disk.indexFile)
      ensures disk.reliable && INDEX_KEY !in disk.dirs ==> ok
    {
      ok := disk.WriteIndex(index);
    }

    /** The files of an entry are not both there; below the index file nothing can be missing. */
    predicate Damaged(entry: Entry)
      reads disk
    {
      !Safe(entry.domain) || (!Intact(disk.dirs, entry.domain) && !(entry.domain == INDEX_KEY && disk.indexFile.Some?))
    }

    method CheckIntegrity() returns (failed: seq<Entry>)
      ensures forall e :: e in failed <==> (exists d :: d in index && index[d] == e && Damaged(e))
    {
      failed := [];
      var todo := index.Keys;
      while todo != {}
        invariant todo <= index.Keys
        invariant forall e :: e in failed <==> (exists d :: d in index && d !in todo && index[d] == e && Damaged(e))
        decreases todo
      {
        var d :| d in todo;
        todo := todo - {d};
        if Damaged(index[d]) { failed := failed + [index[d]]; }
      }
    }

    method Add(entry: Entry)
      modifies `index
      ensures index == old(index)[entry.domain := entry]
    {
      index := index[entry.domain := entry];
    }

    method Remove(domain: string)
      modifies `index
      ensures index == old(index) - {domain}
    {
      index := index - {domain};
    }
  }
}
