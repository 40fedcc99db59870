/** Which TSIG key, if any, signs the updates of a domain. */
module DnsKeys {
  import opened Prelude
  import opened Names

  datatype DomainKey = DomainKey(name: string, secret: string, algorithm: string, nameserver: string, zoneApex: string)

  type KeyMap = map<string, DomainKey>

  /** The name that is looked up: lower case, without the final dot. */
  function Query(domain: string): string {
    Lower(TrimDot(domain))
  }

  /** The part of d that starts at i is a suffix of whole labels. */
  predicate LabelStart(d: string, i: int) {
    0 <= i < |d| && (i == 0 || d[i - 1] == '.')
  }

  ghost predicate Matches(keys: KeyMap, d: string, i: int) {
    LabelStart(d, i) && d[i..] in keys
  }

  ghost predicate HasKey(keys: KeyMap, domain: string) {
    exists i :: Matches(keys, Query(domain), i)
  }

  /** Two names share a query exactly if they own the same RRset: neither case nor a final dot matters. */
  lemma OwnerOfQuery(d: string, e: string)
    ensures TlsaOwner(d) == Query(d) + "."
    ensures Query(d) == Query(e) <==> TlsaOwner(d) == TlsaOwner(e)
  {
    forall f | f in {d, e}
      ensures TlsaOwner(f) == Query(f) + "."
    {
      LowerAppend(TrimDot(f), ".");
      assert Lower(".") == ".";
      assert |f| > 0 && f[|f| - 1] == '.' ==> f == TrimDot(f) + ".";
    }
    assert (Query(d) + ".")[..|Query(d)|] == Query(d) && (Query(e) + ".")[..|Query(e)|] == Query(e);
  }

  /** A name in lower case is looked up as it is, also when it is written with a final dot. */
  lemma QueryOfPlain(d: string)
    requires PlainName(d)
    ensures Query(d) == d && Query(d + ".") == d
  {
    assert TrimDot(d) == d && TrimDot(d + ".") == d;
  }

  /** The name is that of a zone, or lies below it. */
  ghost predicate Within(name: string, zone: string) {
    name == zone || exists prefix :: name == prefix + "." + zone
  }

  /** There is a key exactly for the zones that have an entry and all that lies below them. */
  lemma HasKeyIff(keys: KeyMap, domain: string)
    ensures HasKey(keys, domain) <==> exists zone :: zone in keys && zone != "" && Within(Query(domain), zone)
  {
    var q := Query(domain);
    if i :| Matches(keys, q, i) {
      assert i > 0 ==> q == q[..i - 1] + "." + q[i..];
      assert Within(q, q[i..]);
    }
    if zone :| zone in keys && zone != "" && Within(q, zone) {
      if q != zone {
        var prefix :| q == prefix + "." + zone;
        assert q[|prefix| + 1..] == zone && q[|prefix|] == '.';
        assert Matches(keys, q, |prefix| + 1);
      } else {
        assert q[0..] == zone && Matches(keys, q, 0);
      }
    }
  }

  /** The walk towards the root finds the entry of the longest label suffix that has one. */
  method KeyFor(keys: KeyMap, domain: string) returns (found: Option<DomainKey>)
    ensures found.Some? <==> HasKey(keys, domain)
    ensures found.Some? ==>
              exists i :: Matches(keys, Query(domain), i) && found.value == keys[Query(domain)[i..]]
                          && forall j :: 0 <= j < i ==> !Matches(keys, Query(domain), j)
  {
    ghost var q := Query(domain);
    var d := Lower(TrimDot(domain));
    ghost var at := 0;
    while d != ""
      invariant 0 <= at <= |q| && d == q[at..]
      invariant d != "" ==> LabelStart(q, at)
      invariant forall j :: 0 <= j < at ==> !Matches(keys, q, j)
      decreases |d|
    {
      if d in keys {
        assert Matches(keys, q, at);
        return Some(keys[d]);
      }
      var dot := IndexOfDot(d);
      ghost var end := if dot < 0 then |d| else dot + 1;
      forall j | at <= j < at + end
        ensures !Matches(keys, q, j)
      {
        assert j > at ==> q[j - 1] == d[j - 1 - at];
      }
      if dot < 0 {
        return None;
      }
      d := d[dot + 1..];
      at := at + dot + 1;
    }
    return None;
  }

  /** The position of the first dot, or -1. */
  method IndexOfDot(d: string) returns (dot: int)
    ensures -1 <= dot < |d|
    ensures dot >= 0 ==> d[dot] == '.'
    ensures forall j :: 0 <= j < (if dot < 0 then |d| else dot) ==> d[j] != '.'
  {
    dot := 0;
    while dot < |d|
      invariant 0 <= dot <= |d|
      invariant forall j :: 0 <= j < dot ==> d[j] != '.'
    {
      if d[dot] == '.' { return; }
      dot := dot + 1;
    }
    dot := -1;
  }

  /** A domain with an entry of its own, or under a parent zone's entry, is enabled; no other is. */
  method Enabled(keys: KeyMap, domain: string) returns (ok: bool)
    ensures ok <==> HasKey(keys, domain)
  {
    var found := KeyFor(keys, domain);
    ok := found.Some?;
  }
}
