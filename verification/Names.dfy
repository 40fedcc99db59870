/** The names under which the program keeps things: S3 object keys and DNS owner names. */
module Names {

  const INDEX_KEY := "cert_index.json"
  const FAILURES_KEY := "state/failures.json"
  const LOCK_KEY := "state/lock.json"
  const ACME_USER_KEY := "state/acme_user.json.enc"

  /** A certificate is stored under the bare domain. */
  function CertKey(domain: string): string { domain }

  function RolloverKey(domain: string): string { "state/rollover/" + domain + ".json" }

  function PendingKey(domain: string): string { "state/pending/" + domain }

  /** Where other versions of the program look for the objects. */
  lemma KeysSpelled()
    ensures CertKey("a.example") == "a.example" && PendingKey("a.example") == "state/pending/a.example"
    ensures RolloverKey("a.example") == "state/rollover/a.example.json"
    ensures INDEX_KEY == "cert_index.json" && FAILURES_KEY == "state/failures.json"
    ensures LOCK_KEY == "state/lock.json" && ACME_USER_KEY == "state/acme_user.json.enc"
  {
  }

  /** The objects that belong to one domain. */
  function DomainKeys(domain: string): set<string> {
    {CertKey(domain), RolloverKey(domain), PendingKey(domain)}
  }

  /** The objects that all domains share. */
  function SharedKeys(): set<string> {
    {INDEX_KEY, FAILURES_KEY, LOCK_KEY, ACME_USER_KEY}
  }

  /** A domain name proper: no slash, and not the name of the index object. */
  predicate ProperName(domain: string) {
    '/' !in domain && domain != INDEX_KEY
  }

  lemma SlashAt(s: string, i: nat)
    requires i < |s| && s[i] == '/'
    ensures '/' in s
  {
  }

  lemma RolloverKeyInjective(d: string, e: string)
    requires RolloverKey(d) == RolloverKey(e)
    ensures d == e
  {
    var p, q := "state/rollover/", ".json";
    assert |RolloverKey(d)| == |p| + |d| + |q| && |RolloverKey(e)| == |p| + |e| + |q|;
    assert RolloverKey(d)[|p|..|p| + |d|] == d;
    assert RolloverKey(e)[|p|..|p| + |e|] == e;
  }

  lemma PendingKeyInjective(d: string, e: string)
    requires PendingKey(d) == PendingKey(e)
    ensures d == e
  {
    assert PendingKey(d)[14..] == d;
    assert PendingKey(e)[14..] == e;
  }

  /** Below the state folder the first character tells what is kept. */
  lemma StateKeys(d: string)
    ensures '/' in RolloverKey(d) && '/' in PendingKey(d)
    ensures RolloverKey(d)[0] == 's' == PendingKey(d)[0] && RolloverKey(d)[6] == 'r' && PendingKey(d)[6] == 'p'
  {
    SlashAt(RolloverKey(d), 5);
    SlashAt(PendingKey(d), 5);
  }

  lemma SharedStateKeys()
    ensures '/' in FAILURES_KEY && '/' in LOCK_KEY && '/' in ACME_USER_KEY && INDEX_KEY[0] == 'c'
    ensures FAILURES_KEY[6] == 'f' && LOCK_KEY[6] == 'l' && ACME_USER_KEY[6] == 'a'
  {
    SlashAt(FAILURES_KEY, 5);
    SlashAt(LOCK_KEY, 5);
    SlashAt(ACME_USER_KEY, 5);
  }

  /** Within one domain, and against the shared objects, all keys differ. */
  lemma KeysApart(d: string)
    requires ProperName(d)
    ensures CertKey(d) != RolloverKey(d) && CertKey(d) != PendingKey(d) && RolloverKey(d) != PendingKey(d)
    ensures DomainKeys(d) !! SharedKeys()
  {
    StateKeys(d);
    SharedStateKeys();
  }

  /** Different domains share no object. */
  lemma DomainsApart(d: string, e: string)
    requires ProperName(d) && ProperName(e) && d != e
    ensures DomainKeys(d) !! DomainKeys(e)
  {
    StateKeys(d);
    StateKeys(e);
    if RolloverKey(d) == RolloverKey(e) { RolloverKeyInjective(d, e); }
    if PendingKey(d) == PendingKey(e) { PendingKeyInjective(d, e); }
  }

  // ---------------------------------------------------------------- DNS names

  predicate IsWildcard(domain: string) {
    BaseDomain(domain) != domain
  }

  /** The domain without a leading "*.". */
  function BaseDomain(domain: string): string {
    if "*." <= domain then domain[2..] else domain
  }

  /** The wildcard names are those with the literal prefix, and only from them is anything taken off. */
  lemma WildcardsBegin(domain: string)
    ensures IsWildcard(domain) <==> |domain| >= 2 && domain[0] == '*' && domain[1] == '.'
    ensures !IsWildcard(domain) ==> BaseDomain(domain) == domain
  {
  }

  lemma WildcardOf(base: string)
    ensures IsWildcard("*." + base) && BaseDomain("*." + base) == base
  {
    assert ("*." + base)[..2] == "*." && ("*." + base)[2..] == base;
  }

  function LowerChar(c: char): char {
    if 'A' <= c <= 'Z' then c - 'A' + 'a' else c
  }

  function Lower(s: string): string {
    if s == "" then "" else [LowerChar(s[0])] + Lower(s[1..])
  }

  /** Of the ASCII characters the letters from 65 to 90 become those from 97 to 122; no other changes. */
  lemma LowerLetters(c: char)
    ensures if 65 <= c as int <= 90 then LowerChar(c) as int == c as int + 32 else LowerChar(c) == c
  {
  }

  lemma {:induction false} LowerAt(s: string, i: nat)
    requires i < |s|
    ensures |Lower(s)| == |s| && Lower(s)[i] == LowerChar(s[i])
  {
    if |s| > 1 { LowerAt(s[1..], if i == 0 then 0 else i - 1); }
  }

  function TrimDot(s: string): string {
    if |s| > 0 && s[|s| - 1] == '.' then s[..|s| - 1] else s
  }

  /**
    The owner of a base domain's TLSA RRset.  The port and protocol labels are the same for all
    domains; DNS ignores case, and a name is fully qualified by one final dot.
   */
  function TlsaOwner(base: string): string {
    Lower(if |base| > 0 && base[|base| - 1] == '.' then base else base + ".")
  }

  /** A name in lower case without the final dot, as configured domains usually are. */
  predicate PlainName(domain: string) {
    Lower(domain) == domain && (domain == "" || domain[|domain| - 1] != '.')
  }

  lemma Associates(a: string, b: string, c: string)
    ensures a + (b + c) == a + b + c
  {
  }

  lemma {:induction false} LowerAppend(a: string, b: string)
    ensures Lower(a + b) == Lower(a) + Lower(b)
  {
    if a == "" {
      assert a + b == b;
    } else {
      LowerAppend(a[1..], b);
      assert (a + b)[0] == a[0] && (a + b)[1..] == a[1..] + b;
      Associates([LowerChar(a[0])], Lower(a[1..]), Lower(b));
    }
  }

  /** Different plain names own different TLSA RRsets. */
  lemma OwnersDiffer(d: string, e: string)
    requires PlainName(d) && PlainName(e) && d != e
    ensures TlsaOwner(d) != TlsaOwner(e)
  {
    LowerAppend(d, ".");
    LowerAppend(e, ".");
    assert Lower(".") == ".";
    assert TlsaOwner(d) == d + "." && TlsaOwner(e) == e + ".";
    assert (d + ".")[..|d|] == d && (e + ".")[..|e|] == e;
  }
}
