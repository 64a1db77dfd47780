/** Local DNS records and CNAME resolution of pkg/localrecords. */
module LocalRecords {
  import opened Wrappers
  import opened Text

  datatype RecordType = A | AAAA | CNAME | Other

  datatype Record = Record(domain: string, kind: RecordType, target: string, ips: seq<string>, ttl: nat, enabled: bool)

  /** Exact records by normalised name, and wildcard records in insertion order. */
  datatype Table = Table(records: map<string, seq<Record>>, wildcards: seq<Record>)

  const DEFAULT_TTL: nat := 300
  const DEFAULT_DEPTH: nat := 10

  /** Lower case with a trailing dot. */
  function Normalize(domain: string): (r: string)
    ensures HasSuffix(r, ".")
    ensures forall t :: t == TrimSpace(domain) ==>
              && |r| == |t| + (if t != "" && t[|t| - 1] == '.' then 0 else 1) && r[|r| - 1] == '.'
              && forall i :: 0 <= i < |t| ==> r[i] as int == t[i] as int + if 'A' <= t[i] <= 'Z' then 32 else 0
  {
    var d := ToLower(TrimSpace(domain));
    if HasSuffix(d, ".") then d else d + "."
  }

  predicate MatchesWildcard(domain: string, pattern: string)
  {
    if HasPrefix(pattern, "*.") then
      var suffix := pattern[2..];
      && HasSuffix(domain, suffix) && domain != suffix
      && '.' !in TrimSuffix(domain[..|domain| - |suffix|], ".")
    else domain == pattern
  }

  // ---------------------------------------------------------------- single lookups

  function FirstCname(records: seq<Record>): Option<(string, nat)>
  {
    if records == [] then None
    else if records[0].kind == CNAME && records[0].enabled then Some((records[0].target, records[0].ttl))
    else FirstCname(records[1..])
  }

  function FirstWildcard(wildcards: seq<Record>, domain: string, kind: RecordType): Option<Record>
  {
    if wildcards == [] then None
    else if wildcards[0].kind == kind && wildcards[0].enabled && MatchesWildcard(domain, wildcards[0].domain)
    then Some(wildcards[0])
    else FirstWildcard(wildcards[1..], domain, kind)
  }

  /** Target and TTL of the CNAME of `domain`: an exact record first, then wildcards. */
  function LookupCname(t: Table, domain: string): Option<(string, nat)>
  {
    var d := Normalize(domain);
    var exact := if d in t.records then FirstCname(t.records[d]) else None;
    if exact.Some? then exact
    else match FirstWildcard(t.wildcards, d, CNAME)
         case None => None
         case Some(w) => Some((w.target, w.ttl))
  }

  /** All addresses of one type, with the TTL of the last such record that has one. */
  function ExtractIPs(records: seq<Record>, kind: RecordType): (seq<string>, nat)
  {
    if records == [] then ([], DEFAULT_TTL)
    else
      var last := |records| - 1;
      var (ips, ttl) := ExtractIPs(records[..last], kind);
      var r := records[last];
      if r.kind == kind && r.enabled then (ips + r.ips, if r.ttl > 0 then r.ttl else ttl) else (ips, ttl)
  }

  /** Addresses and TTL, None when there is no address; a name with exact records of any
      type is not matched against wildcards. */
  function LookupIPs(t: Table, domain: string, kind: RecordType): Option<(seq<string>, nat)>
  {
    var d := Normalize(domain);
    var (ips, ttl) :=
      if d in t.records then ExtractIPs(t.records[d], kind)
      else match FirstWildcard(t.wildcards, d, kind)
           case None => ([], 0)
           case Some(w) => (w.ips, w.ttl);
    if ips == [] then None else Some((ips, ttl))
  }

  /** IPv4 addresses, or else IPv6 addresses. */
  function Address(t: Table, domain: string): Option<(seq<string>, nat)>
  {
    if LookupIPs(t, domain, A).Some? then LookupIPs(t, domain, A) else LookupIPs(t, domain, AAAA)
  }

  function Min(a: nat, b: nat): nat { if b < a then b else a }

  // ---------------------------------------------------------------- what the lookups mean

  /** "*." and a suffix: the name is that suffix with something in front, in which only the
      last character may be a dot. */
  lemma WildcardMeans(domain: string, suffix: string)
    ensures MatchesWildcard(domain, "*." + suffix) <==>
            exists a :: domain == a + suffix && a != "" && forall i :: 0 <= i < |a| - 1 ==> a[i] != '.'
  {
    var pattern := "*." + suffix;
    assert pattern[..2] == "*." && pattern[2..] == suffix;
    if MatchesWildcard(domain, pattern) {
      var a := domain[..|domain| - |suffix|];
      OneLabel(a);
      assert domain == a + suffix;
    }
    if a :| domain == a + suffix && a != "" && forall i :: 0 <= i < |a| - 1 ==> a[i] != '.' {
      WildcardMatches(domain, suffix, a);
    }
  }

  lemma WildcardMatches(domain: string, suffix: string, a: string)
    requires domain == a + suffix && a != "" && forall i :: 0 <= i < |a| - 1 ==> a[i] != '.'
    ensures MatchesWildcard(domain, "*." + suffix)
  {
    var pattern := "*." + suffix;
    assert pattern[..2] == "*." && pattern[2..] == suffix;
    assert domain[|domain| - |suffix|..] == suffix && domain[..|domain| - |suffix|] == a;
    OneLabel(a);
  }

  lemma OneLabel(a: string)
    ensures '.' !in TrimSuffix(a, ".") <==> forall i :: 0 <= i < |a| - 1 ==> a[i] != '.'
  {
    var t := TrimSuffix(a, ".");
    if a != "" { assert a[|a| - 1..] == [a[|a| - 1]]; }
    assert HasSuffix(a, ".") <==> a != "" && a[|a| - 1] == '.';
    assert forall i :: 0 <= i < |t| ==> t[i] == a[i];
    if '.' !in t {
      forall i | 0 <= i < |a| - 1 ensures a[i] != '.' { assert a[i] == t[i] && t[i] in t; }
    }
  }

  type Test = Record -> bool

  /** Record `i` is the first that passes the test. */
  ghost predicate FirstOf(rs: seq<Record>, test: Test, i: nat)
  {
    i < |rs| && test(rs[i]) && forall j :: 0 <= j < i ==> !test(rs[j])
  }

  ghost predicate NoneOf(rs: seq<Record>, test: Test)
  {
    forall j :: 0 <= j < |rs| ==> !test(rs[j])
  }

  function EnabledOf(kind: RecordType): Test { (r: Record) => r.enabled && r.kind == kind }

  function WildcardOf(kind: RecordType, domain: string): Test
  {
    (r: Record) => r.enabled && r.kind == kind && MatchesWildcard(domain, r.domain)
  }

  lemma {:induction false} FirstCnameMeans(rs: seq<Record>)
    ensures FirstCname(rs) == None <==> NoneOf(rs, EnabledOf(CNAME))
    ensures forall i: nat :: FirstOf(rs, EnabledOf(CNAME), i) ==> FirstCname(rs) == Some((rs[i].target, rs[i].ttl))
  {
    if rs != [] && !EnabledOf(CNAME)(rs[0]) {
      FirstCnameMeans(rs[1..]);
      ShiftFirst(rs, EnabledOf(CNAME));
    } else if rs != [] {
      assert forall i: nat :: FirstOf(rs, EnabledOf(CNAME), i) ==> i == 0;
    }
  }

  lemma {:induction false} FirstWildcardMeans(rs: seq<Record>, domain: string, kind: RecordType)
    ensures FirstWildcard(rs, domain, kind) == None <==> NoneOf(rs, WildcardOf(kind, domain))
    ensures forall i: nat :: FirstOf(rs, WildcardOf(kind, domain), i) ==> FirstWildcard(rs, domain, kind) == Some(rs[i])
  {
    if rs != [] && !WildcardOf(kind, domain)(rs[0]) {
      FirstWildcardMeans(rs[1..], domain, kind);
      ShiftFirst(rs, WildcardOf(kind, domain));
    } else if rs != [] {
      assert forall i: nat :: FirstOf(rs, WildcardOf(kind, domain), i) ==> i == 0;
    }
  }

  /** Past a record that fails the test. */
  lemma ShiftFirst(rs: seq<Record>, test: Test)
    requires rs != [] && !test(rs[0])
    ensures NoneOf(rs, test) <==> NoneOf(rs[1..], test)
    ensures forall i: nat :: FirstOf(rs, test, i) ==> i > 0 && FirstOf(rs[1..], test, i - 1)
  {
    assert forall j :: 1 <= j < |rs| ==> rs[j] == rs[1..][j - 1];
    forall i: nat | FirstOf(rs, test, i) ensures i > 0 && FirstOf(rs[1..], test, i - 1) {
      assert forall j :: 0 <= j < i - 1 ==> rs[1..][j] == rs[j + 1];
    }
    if NoneOf(rs[1..], test) {
      forall j | 0 <= j < |rs| ensures !test(rs[j]) { assert j > 0 ==> rs[1..][j - 1] == rs[j]; }
    }
  }

  /** The exact records of a name. */
  function Exact(t: Table, domain: string): seq<Record>
  {
    var d := Normalize(domain);
    if d in t.records then t.records[d] else []
  }

  /** A CNAME is that of the first enabled exact record, or else of the first enabled wildcard
      that matches. */
  lemma LookupCnameMeans(t: Table, domain: string)
    ensures var exact, wild := EnabledOf(CNAME), WildcardOf(CNAME, Normalize(domain));
            && (forall i: nat :: FirstOf(Exact(t, domain), exact, i) ==>
                  LookupCname(t, domain) == Some((Exact(t, domain)[i].target, Exact(t, domain)[i].ttl)))
            && (NoneOf(Exact(t, domain), exact) ==> forall i: nat :: FirstOf(t.wildcards, wild, i) ==>
                  LookupCname(t, domain) == Some((t.wildcards[i].target, t.wildcards[i].ttl)))
            && (LookupCname(t, domain) == None <==> NoneOf(Exact(t, domain), exact) && NoneOf(t.wildcards, wild))
  {
    FirstCnameMeans(Exact(t, domain));
    FirstWildcardMeans(t.wildcards, Normalize(domain), CNAME);
  }

  /** The addresses of the enabled records of one type, in order. */
  function AddressesOf(rs: seq<Record>, test: Test): seq<string>
  {
    if rs == [] then [] else AddressesOf(rs[..|rs| - 1], test) + if test(rs[|rs| - 1]) then rs[|rs| - 1].ips else []
  }

  lemma {:induction false} ExtractsAddresses(rs: seq<Record>, kind: RecordType)
    ensures ExtractIPs(rs, kind).0 == AddressesOf(rs, EnabledOf(kind))
  {
    if rs != [] {
      var before := rs[..|rs| - 1];
      ExtractsAddresses(before, kind);
      assert AddressesOf(before, EnabledOf(kind)) + [] == AddressesOf(before, EnabledOf(kind));
    }
  }

  /** The TTL of the last record that passes the test and has one, found in one pass. */
  function TtlBy(rs: seq<Record>, test: Test): nat
  {
    if rs == [] then 300
    else
      var r := rs[|rs| - 1];
      if test(r) && r.ttl > 0 then r.ttl else TtlBy(rs[..|rs| - 1], test)
  }

  lemma {:induction false} TtlByMeans(rs: seq<Record>, test: Test)
    ensures TtlOf(rs, test, TtlBy(rs, test))
  {
    if rs != [] {
      TtlByMeans(rs[..|rs| - 1], test);
      TtlOfLast(rs, test, TtlBy(rs[..|rs| - 1], test));
    }
  }

  lemma {:induction false} ExtractsTtl(rs: seq<Record>, kind: RecordType)
    ensures ExtractIPs(rs, kind).1 == TtlBy(rs, EnabledOf(kind))
  {
    if rs != [] {
      ExtractsTtl(rs[..|rs| - 1], kind);
    }
  }

  lemma TtlOfLast(rs: seq<Record>, test: Test, ttl: nat)
    requires rs != [] && TtlOf(rs[..|rs| - 1], test, ttl)
    ensures var r := rs[|rs| - 1]; TtlOf(rs, test, if test(r) && r.ttl > 0 then r.ttl else ttl)
  {
    var before, r := rs[..|rs| - 1], rs[|rs| - 1];
    if NoTtl(rs, test) {
      NoTtlBefore(rs, test);
    }
    forall i: nat | LastWithTtl(rs, test, i) ensures rs[i].ttl == if test(r) && r.ttl > 0 then r.ttl else ttl {
      LastBefore(rs, test, i);
    }
  }

  lemma NoTtlBefore(rs: seq<Record>, test: Test)
    requires rs != [] && NoTtl(rs, test)
    ensures NoTtl(rs[..|rs| - 1], test)
  {
    var before := rs[..|rs| - 1];
    forall j | 0 <= j < |before| && test(before[j]) ensures before[j].ttl == 0 {
      assert before[j] == rs[j];
    }
  }

  lemma LastBefore(rs: seq<Record>, test: Test, i: nat)
    requires rs != [] && LastWithTtl(rs, test, i)
    ensures i < |rs| - 1 ==> LastWithTtl(rs[..|rs| - 1], test, i) && !(test(rs[|rs| - 1]) && rs[|rs| - 1].ttl > 0)
    ensures i < |rs| - 1 ==> rs[..|rs| - 1][i] == rs[i]
  {
    assert forall j :: 0 <= j < |rs| - 1 ==> rs[..|rs| - 1][j] == rs[j];
  }

  ghost predicate NoTtl(rs: seq<Record>, test: Test)
  {
    forall j :: 0 <= j < |rs| && test(rs[j]) ==> rs[j].ttl == 0
  }

  /** The TTL of the last such record that has one, or else 300. */
  ghost predicate TtlOf(rs: seq<Record>, test: Test, ttl: nat)
  {
    && (NoTtl(rs, test) ==> ttl == 300)
    && (forall i: nat :: LastWithTtl(rs, test, i) ==> ttl == rs[i].ttl)
  }

  /** Record `i` is the last that passes the test and has a TTL. */
  ghost predicate LastWithTtl(rs: seq<Record>, test: Test, i: nat)
  {
    i < |rs| && test(rs[i]) && rs[i].ttl > 0 && forall j :: i < j < |rs| && test(rs[j]) ==> rs[j].ttl == 0
  }

  /** A name with exact records of any kind answers from these alone; any other from the first
      enabled wildcard that matches. */
  lemma LookupIPsMeans(t: Table, domain: string, kind: RecordType)
    ensures var d, wild, r := Normalize(domain), WildcardOf(kind, Normalize(domain)), LookupIPs(t, domain, kind);
            && (r.Some? ==> r.value.0 != [])
            && (d in t.records ==>
                  var ips := AddressesOf(t.records[d], EnabledOf(kind));
                  if ips == [] then r == None
                  else r.Some? && r.value.0 == ips && TtlOf(t.records[d], EnabledOf(kind), r.value.1))
            && (d !in t.records && NoneOf(t.wildcards, wild) ==> r == None)
            && (d !in t.records ==> forall i: nat :: FirstOf(t.wildcards, wild, i) ==>
                  r == if t.wildcards[i].ips == [] then None else Some((t.wildcards[i].ips, t.wildcards[i].ttl)))
  {
    var d := Normalize(domain);
    if d in t.records {
      ExtractsAddresses(t.records[d], kind);
      ExtractsTtl(t.records[d], kind);
      TtlByMeans(t.records[d], EnabledOf(kind));
    }
    FirstWildcardMeans(t.wildcards, d, kind);
  }

  /** IPv4 addresses if there are any, and IPv6 addresses only if there are none. */
  lemma AddressPrefersIPv4(t: Table, domain: string)
    ensures LookupIPs(t, domain, A).Some? ==> Address(t, domain) == LookupIPs(t, domain, A)
    ensures LookupIPs(t, domain, A).None? ==> Address(t, domain) == LookupIPs(t, domain, AAAA)
  {
  }

  // ---------------------------------------------------------------- the chain

  /** What one table says about each name: its alias with TTL, and its addresses with TTL. */
  datatype View = View(alias: string -> Option<(string, nat)>, address: string -> Option<(seq<string>, nat)>)

  function ViewOf(t: Table): View
  {
    View(d => LookupCname(t, d), d => Address(t, d))
  }

  /** The name reached from `start` after following `k` aliases, if there are that many. */
  function Hop(v: View, start: string, k: nat): Option<string>
  {
    if k == 0 then Some(start)
    else
      match Hop(v, start, k - 1)
      case None => None
      case Some(d) => match v.alias(d) case None => None case Some((target, _)) => Some(target)
  }

  /** The least of 300 and the TTLs of the first `k` aliases. */
  function ChainTtl(v: View, start: string, k: nat): nat
  {
    if k == 0 then 300
    else
      var before := ChainTtl(v, start, k - 1);
      match Hop(v, start, k - 1)
      case None => before
      case Some(d) => match v.alias(d) case None => before case Some((_, ttl)) => Min(before, ttl)
  }

  /** The chain ends after exactly `k` aliases. */
  ghost predicate Ends(v: View, start: string, k: nat)
  {
    Hop(v, start, k).Some? && v.alias(Hop(v, start, k).value) == None
  }

  /** The chain ends after exactly `k` aliases at a name that has an address. */
  ghost predicate Resolves(v: View, start: string, k: nat)
  {
    Ends(v, start, k) && v.address(Hop(v, start, k).value).Some?
  }

  /** Past its end a chain has no further hops. */
  lemma {:induction false} NoHopPastEnd(v: View, start: string, k: nat, j: nat)
    requires Ends(v, start, k) && k < j
    ensures Hop(v, start, j) == None
  {
    if j > k + 1 {
      NoHopPastEnd(v, start, k, j - 1);
    }
  }

  lemma EndIsUnique(v: View, start: string, k: nat, j: nat)
    requires Ends(v, start, k) && Ends(v, start, j)
    ensures k == j
  {
    if k < j { NoHopPastEnd(v, start, k, j); }
    if j < k { NoHopPastEnd(v, start, j, k); }
  }

  /** Inside a set closed under following aliases, a chain never ends. */
  lemma {:induction false} ClosedNeverEnds(v: View, seen: set<string>, start: string, i: nat, j: nat)
    requires forall d :: d in seen ==> v.alias(d).Some? && v.alias(d).value.0 in seen
    requires Hop(v, start, i).Some? && Hop(v, start, i).value in seen && i <= j
    ensures Hop(v, start, j).Some? && Hop(v, start, j).value in seen
  {
    if i < j {
      ClosedNeverEnds(v, seen, start, i, j - 1);
    }
  }

  /** `ttl` is the least of 300, the TTLs of the first `k` aliases and `last`. */
  ghost predicate LeastTtl(v: View, start: string, k: nat, last: nat, ttl: nat)
  {
    && ttl <= 300 && ttl <= last
    && (forall j: nat :: j < k && AliasTtl(v, start, j).Some? ==> ttl <= AliasTtl(v, start, j).value)
    && (ttl == 300 || ttl == last || exists j: nat :: j < k && AliasTtl(v, start, j) == Some(ttl))
  }

  /** The TTL of alias number `j` of the chain. */
  function AliasTtl(v: View, start: string, j: nat): Option<nat>
  {
    match Hop(v, start, j)
    case None => None
    case Some(d) => match v.alias(d) case None => None case Some((_, ttl)) => Some(ttl)
  }

  lemma {:induction false} ChainTtlIsLeast(v: View, start: string, k: nat)
    ensures LeastTtl(v, start, k, 300, ChainTtl(v, start, k))
  {
    if k > 0 {
      ChainTtlIsLeast(v, start, k - 1);
      var before, ttl, alias := ChainTtl(v, start, k - 1), ChainTtl(v, start, k), AliasTtl(v, start, k - 1);
      assert ttl == if alias.Some? then Min(before, alias.value) else before;
      if ttl == before && before != 300 {
        var j: nat :| j < k - 1 && AliasTtl(v, start, j) == Some(before);
        assert j < k;
      } else if ttl != before {
        assert AliasTtl(v, start, k - 1) == Some(ttl);
      }
    }
  }

  lemma LeastWithLast(v: View, start: string, k: nat, last: nat)
    ensures LeastTtl(v, start, k, last, Min(ChainTtl(v, start, k), last))
  {
    ChainTtlIsLeast(v, start, k);
  }

  /** The answer for `start` within `bound` hops: what the plain chain says. */
  ghost predicate Answer(v: View, start: string, bound: nat, ips: seq<string>, ttl: nat, ok: bool)
  {
    && (ok <==> exists k: nat :: k < bound && Resolves(v, start, k))
    && (forall k: nat :: k < bound && Resolves(v, start, k) ==>
          var (addresses, last) := v.address(Hop(v, start, k).value).value;
          ips == addresses && LeastTtl(v, start, k, last, ttl))
    && (!ok ==> ips == [] && ttl == 0)
  }

  /** The loop of ResolveCNAME.  The walk with its visited set succeeds exactly when the
      plain chain reaches, in fewer hops than the bound, a name without alias and with an
      address; in particular the visited check never refuses such a chain. */
  method FollowChain(v: View, start: string, bound: nat) returns (ips: seq<string>, ttl: nat, ok: bool)
    ensures Answer(v, start, bound, ips, ttl, ok)
  {
    var domain := start;
    var visited: set<string> := {};
    var minTTL := DEFAULT_TTL;
    for depth := 0 to bound
      invariant Hop(v, start, depth) == Some(domain) && minTTL == ChainTtl(v, start, depth)
      invariant forall d :: d in visited ==>
                  v.alias(d).Some? && (v.alias(d).value.0 in visited || v.alias(d).value.0 == domain)
      invariant forall k: nat :: k < depth ==> !Ends(v, start, k)
    {
      if domain in visited {
        forall k: nat ensures !Ends(v, start, k) {
          if k >= depth { ClosedNeverEnds(v, visited, start, depth, k); }
        }
        return [], 0, false;
      }
      visited := visited + {domain};
      var cname := v.alias(domain);
      if cname.Some? {
        var (target, cnameTtl) := cname.value;
        if cnameTtl < minTTL {
          minTTL := cnameTtl;
        }
        domain := target;
        continue;
      }
      assert Ends(v, start, depth);
      forall k: nat | Ends(v, start, k) ensures k == depth { EndIsUnique(v, start, k, depth); }
      var address := v.address(domain);
      if address.Some? {
        assert Resolves(v, start, depth);
        LeastWithLast(v, start, depth, address.value.1);
        return address.value.0, Min(minTTL, address.value.1), true;
      }
      return [], 0, false;
    }
    return [], 0, false;
  }

  /** ResolveCNAME on a fixed table; a bound of zero or less means ten. */
  method ResolveCname(t: Table, name: string, maxDepth: int) returns (ips: seq<string>, ttl: nat, ok: bool)
    ensures Answer(ViewOf(t), Normalize(name), if maxDepth <= 0 then 10 else maxDepth, ips, ttl, ok)
  {
    ips, ttl, ok := FollowChain(ViewOf(t), Normalize(name), if maxDepth <= 0 then DEFAULT_DEPTH else maxDepth);
  }
}
