/** Source masks: one bit per configured list, decoded back into source names.
    Models downloadAndMerge, Match and sourcesFromMask of pkg/blocklist/manager.go. */
module Sources {
  import opened Wrappers
  import opened Bits
  import opened Text
  import opened FlatList
  import opened Merge
  import opened Downloads

  const MAX_TRACKED_SOURCES: nat := 64

  /** What was fetched for each configured URL. */
  type Fetched = seq<Scan>

  /** The list at configured position `j` was downloaded and holds `d`. */
  ghost predicate Holds(extract: string -> string, fetched: Fetched, j: nat, d: string)
  {
    j < |fetched| && !fetched[j].failed && HoldsName(extract, fetched[j].lines, d)
  }

  /** The configured positions whose list holds `d`. */
  ghost function HoldersOf(extract: string -> string, fetched: Fetched, d: string): iset<nat>
  {
    iset j: nat | Holds(extract, fetched, j, d)
  }

  /** `mask` has the bits of the holders among the first `n` positions that own a bit, and
      `listed` says whether there is a holder among the first `n` at all. */
  ghost predicate Encodes(holders: iset<nat>, n: nat, listed: bool, mask: nat)
  {
    && (listed <==> exists j :: j in holders && j < n)
    && (forall b: nat :: BitAt(mask, b) <==> b < n && b < 64 && b in holders)
    && mask < Pow2(WIDTH)
  }

  /** What the lists collected from the first `n` URLs say about `d`. */
  ghost predicate Tracks(extract: string -> string, fetched: Fetched, n: nat, lists: seq<SortedList>, d: string)
  {
    Encodes(HoldersOf(extract, fetched, d), n, InSome(lists, d), MaskOf(lists, d))
  }

  lemma EncodesNoMore(holders: iset<nat>, n: nat, listed: bool, mask: nat)
    requires Encodes(holders, n, listed, mask) && n !in holders
    ensures Encodes(holders, n + 1, listed, mask)
  {
  }

  lemma EncodesOneMore(holders: iset<nat>, n: nat, listed: bool, mask: nat)
    requires Encodes(holders, n, listed, mask) && n in holders
    ensures Encodes(holders, n + 1, true, Or(mask, if n < MAX_TRACKED_SOURCES then Pow2(n) else 0))
  {
    var bit := if n < MAX_TRACKED_SOURCES then Pow2(n) else 0;
    forall b: nat
      ensures BitAt(Or(mask, bit), b) <==> b < n + 1 && b < 64 && b in holders
    {
      BitOfOr(mask, bit, b);
      BitOfPow2(n, b);
      BitOfZero(b);
    }
    if n < MAX_TRACKED_SOURCES { Pow2Monotone(n, WIDTH); }
    OrStaysBelow(mask, bit, WIDTH);
  }

  lemma SkipTracks(extract: string -> string, fetched: Fetched, n: nat, lists: seq<SortedList>, d: string)
    requires Tracks(extract, fetched, n, lists, d) && !Holds(extract, fetched, n, d)
    ensures Tracks(extract, fetched, n + 1, lists, d)
  {
    EncodesNoMore(HoldersOf(extract, fetched, d), n, InSome(lists, d), MaskOf(lists, d));
  }

  lemma InSomeSnoc(lists: seq<SortedList>, l: SortedList, d: string)
    ensures InSome(lists + [l], d) <==> InSome(lists, d) || d in l.domains
    ensures MaskOf(lists + [l], d) == if d in l.domains then Or(MaskOf(lists, d), l.mask) else MaskOf(lists, d)
  {
    var all := lists + [l];
    assert all[..|lists|] == lists;
    if i :| 0 <= i < |lists| && d in lists[i].domains { assert d in all[i].domains; }
    if d in l.domains { assert d in all[|lists|].domains; }
  }

  lemma AppendTracks(extract: string -> string, fetched: Fetched, n: nat, lists: seq<SortedList>,
                     l: SortedList, d: string)
    requires Tracks(extract, fetched, n, lists, d)
    requires d in l.domains <==> Holds(extract, fetched, n, d)
    requires l.mask == if n < MAX_TRACKED_SOURCES then Pow2(n) else 0
    ensures Tracks(extract, fetched, n + 1, lists + [l], d)
  {
    InSomeSnoc(lists, l, d);
    if d in l.domains {
      EncodesOneMore(HoldersOf(extract, fetched, d), n, InSome(lists, d), MaskOf(lists, d));
    } else {
      EncodesNoMore(HoldersOf(extract, fetched, d), n, InSome(lists, d), MaskOf(lists, d));
    }
  }

  lemma NothingTracked(extract: string -> string, fetched: Fetched, d: string)
    ensures Tracks(extract, fetched, 0, [], d)
  {
    forall b: nat ensures !BitAt(0, b) { BitOfZero(b); }
  }

  /** `f` is the merge of lists that track every name over all URLs. */
  ghost predicate Updated(extract: string -> string, fetched: Fetched, f: FlatBlocklist)
  {
    exists lists :: Merged(lists, f) && TracksAll(extract, fetched, |fetched|, lists)
  }

  /** One turn of the loop: a failed download is skipped; list `idx` gets the bit 2^idx, none
      past the 64th. */
  method AddList(extract: string -> string, fetched: Fetched, idx: nat, lists: seq<SortedList>)
    returns (more: seq<SortedList>)
    requires idx < |fetched| && SortedInput(lists) && TracksAll(extract, fetched, idx, lists)
    ensures SortedInput(more) && TracksAll(extract, fetched, idx + 1, more)
  {
    var sorted := DownloadSorted(extract, fetched[idx]);
    if sorted == None {
      SkipAll(extract, fetched, idx, lists);
      return lists;
    }
    var mask := if idx < MAX_TRACKED_SOURCES then Pow2(idx) else 0;
    var l := SortedList(sorted.value, mask);
    AppendAll(extract, fetched, idx, lists, l);
    SortedInputOne(lists, l);
    return lists + [l];
  }

  /** Downloads every list. */
  method DownloadLists(extract: string -> string, fetched: Fetched) returns (lists: seq<SortedList>)
    ensures SortedInput(lists) && TracksAll(extract, fetched, |fetched|, lists)
  {
    lists := [];
    NoneTracked(extract, fetched);
    for idx := 0 to |fetched|
      invariant SortedInput(lists) && TracksAll(extract, fetched, idx, lists)
    {
      lists := AddList(extract, fetched, idx, lists);
    }
  }

  lemma NoneTracked(extract: string -> string, fetched: Fetched)
    ensures TracksAll(extract, fetched, 0, [])
  {
    forall d ensures Tracks(extract, fetched, 0, [], d) { NothingTracked(extract, fetched, d); }
  }

  /** Downloads the lists and merges them. */
  method DownloadAndMerge(extract: string -> string, fetched: Fetched) returns (f: FlatBlocklist)
    ensures Updated(extract, fetched, f)
  {
    var lists := DownloadLists(extract, fetched);
    f := BuildFromSortedLists(lists);
  }

  ghost predicate TracksAll(extract: string -> string, fetched: Fetched, n: nat, lists: seq<SortedList>)
  {
    forall d :: Tracks(extract, fetched, n, lists, d)
  }

  lemma SortedInputOne(lists: seq<SortedList>, l: SortedList)
    requires SortedInput(lists) && Increasing(l.domains) && "" !in l.domains
    ensures SortedInput(lists + [l])
  {
  }

  lemma SkipAll(extract: string -> string, fetched: Fetched, n: nat, lists: seq<SortedList>)
    requires TracksAll(extract, fetched, n, lists) && n < |fetched| && fetched[n].failed
    ensures TracksAll(extract, fetched, n + 1, lists)
  {
    var next := n + 1;
    forall d ensures Tracks(extract, fetched, next, lists, d) { SkipTracks(extract, fetched, n, lists, d); }
  }

  lemma AppendAll(extract: string -> string, fetched: Fetched, n: nat, lists: seq<SortedList>, l: SortedList)
    requires TracksAll(extract, fetched, n, lists) && n < |fetched| && !fetched[n].failed
    requires forall d :: d in l.domains <==> HoldsName(extract, fetched[n].lines, d)
    requires l.mask == if n < MAX_TRACKED_SOURCES then Pow2(n) else 0
    ensures TracksAll(extract, fetched, n + 1, lists + [l])
  {
    var next := n + 1;
    forall d ensures Tracks(extract, fetched, next, lists + [l], d) {
      AppendTracks(extract, fetched, n, lists, l, d);
    }
  }

  // ---------------------------------------------------------------- decoding

  /** The names whose bit is set, in order. */
  function Selected(names: seq<string>, mask: nat): seq<string>
  {
    if names == [] then []
    else
      var last := |names| - 1;
      Selected(names[..last], mask) + if BitAt(mask, last) then [names[last]] else []
  }

  /** What a mask reads as: its sources, or a placeholder for a mask without bits. */
  function Decoded(names: seq<string>, mask: nat): seq<string>
  {
    Selected(names, mask) + if mask == 0 && names != [] then ["additional sources"] else []
  }

  method SourcesFromMask(names: seq<string>, mask: nat) returns (result: seq<string>)
    ensures result == Decoded(Tracked(names), mask)
  {
    var overflow := mask == 0 && |names| > 0;
    if |names| == 0 && !overflow {
      return [];
    }
    var capacity := CountBits(mask);  // only sizes the result slice
    result := [];
    ghost var tracked := Tracked(names);
    var idx := 0;
    while idx < |names| && idx < MAX_TRACKED_SOURCES
      invariant idx <= |tracked| && result == Selected(tracked[..idx], mask)
    {
      assert tracked[..idx + 1][..idx] == tracked[..idx];
      if BitAt(mask, idx) {
        result := result + [names[idx]];
      }
      idx := idx + 1;
    }
    assert tracked[..idx] == tracked;
    if overflow {
      result := result + ["additional sources"];
    }
  }

  /** The URLs, in order, at the positions in `held`. */
  ghost function Holders(held: iset<nat>, urls: seq<string>): seq<string>
  {
    if urls == [] then []
    else
      var last := |urls| - 1;
      Holders(held, urls[..last]) + if last in held then [urls[last]] else []
  }

  /** The sources that own a mask bit. */
  function Tracked(urls: seq<string>): seq<string>
  {
    if |urls| > MAX_TRACKED_SOURCES then urls[..MAX_TRACKED_SOURCES] else urls
  }

  function NamedOrOther(holders: seq<string>, urls: seq<string>): seq<string>
  {
    if holders == [] && urls != [] then ["additional sources"] else holders
  }

  /** What should be reported for entry `d`: the holders among the first 64 sources, or
      a placeholder when none of those holds it. */
  ghost function Reported(extract: string -> string, fetched: Fetched, urls: seq<string>, d: string): seq<string>
  {
    NamedOrOther(Holders(HoldersOf(extract, fetched, d), if |urls| > 64 then urls[..64] else urls), urls)
  }

  lemma {:induction false} SelectedAreHolders(held: iset<nat>, urls: seq<string>, mask: nat)
    requires forall b: nat :: b < |urls| ==> (BitAt(mask, b) <==> b in held)
    ensures Selected(urls, mask) == Holders(held, urls)
    ensures Holders(held, urls) == [] <==> forall b: nat :: b < |urls| ==> b !in held
  {
    if urls != [] {
      SelectedAreHolders(held, urls[..|urls| - 1], mask);
    }
  }

  lemma DecodedHolders(held: iset<nat>, urls: seq<string>, mask: nat)
    requires mask < Pow2(WIDTH)
    requires forall b: nat :: BitAt(mask, b) <==> b < |Tracked(urls)| && b in held
    ensures Decoded(Tracked(urls), mask) == NamedOrOther(Holders(held, Tracked(urls)), urls)
  {
    SelectedAreHolders(held, Tracked(urls), mask);
    if mask == 0 {
      forall b: nat ensures !BitAt(mask, b) { BitOfZero(b); }
    } else {
      BitsBelow(mask, WIDTH);
    }
  }

  /** Decoding the mask of `d` names exactly the sources that hold `d`. */
  lemma DecodedIsReported(extract: string -> string, fetched: Fetched, urls: seq<string>, mask: nat, d: string)
    requires |urls| == |fetched| && mask < Pow2(WIDTH)
    requires forall b: nat :: BitAt(mask, b) <==>
               b < |fetched| && b < 64 && b in HoldersOf(extract, fetched, d)
    ensures Decoded(Tracked(urls), mask) == Reported(extract, fetched, urls, d)
  {
    DecodedHolders(HoldersOf(extract, fetched, d), urls, mask);
  }

  // ---------------------------------------------------------------- an update, then a query

  datatype MatchResult = MatchResult(blocked: bool, kind: string, pattern: string, sources: seq<string>)

  const NO_MATCH := MatchResult(false, "", "", [])

  /** The name actually searched for: lower case, with its trailing dot. */
  function Fqdn(domain: string): (r: string)
    requires domain != ""
    ensures |r| == |domain| + (if domain[|domain| - 1] == '.' then 0 else 1) && r[|r| - 1] == '.'
    ensures forall i :: 0 <= i < |domain| ==>
              r[i] as int == domain[i] as int + if 'A' <= domain[i] <= 'Z' then 32 else 0
  {
    var lower := ToLower(domain);
    if lower[|lower| - 1] != '.' then lower + "." else lower
  }

  /** The answer for `fqdn` when the names in `listed` are blocked and entry `e` is
      attributed to `sources(e)`. */
  ghost predicate Answers(listed: iset<string>, sources: string -> seq<string>,
                          matchPattern: string -> Option<(string, string)>, fqdn: string, r: MatchResult)
    requires fqdn != ""
  {
    if exists p: nat :: Hit(listed, fqdn, p) then
      exists p: nat :: FirstHit(listed, fqdn, p) &&
        r == MatchResult(true, if p == 0 then "exact" else "subdomain", "", sources(fqdn[p..]))
    else
      match matchPattern(fqdn[..|fqdn| - 1])
      case Some((kind, raw)) => r == MatchResult(true, kind, raw, ["pattern"])
      case None => r == MatchResult(false, "", "", [])
  }

  lemma AnswersCongruent(listed: iset<string>, s1: string -> seq<string>, s2: string -> seq<string>,
                         matchPattern: string -> Option<(string, string)>, fqdn: string, r: MatchResult)
    requires fqdn != "" && Answers(listed, s1, matchPattern, fqdn, r)
    requires forall e :: e in listed ==> s1(e) == s2(e)
    ensures Answers(listed, s2, matchPattern, fqdn, r)
  {
  }

  lemma AnswersByHit(listed: iset<string>, sources: string -> seq<string>,
                     matchPattern: string -> Option<(string, string)>, fqdn: string, p: nat, r: MatchResult)
    requires fqdn != "" && FirstHit(listed, fqdn, p)
    requires r == MatchResult(true, if p == 0 then "exact" else "subdomain", "", sources(fqdn[p..]))
    ensures Answers(listed, sources, matchPattern, fqdn, r)
  {
  }

  /** The sources a table attributes to an entry. */
  function Attributed(f: FlatBlocklist, names: seq<string>): string -> seq<string>
    requires |f.masks| == |f.offs|
  {
    e => match Find(f, e) case None => [] case Some(mask) => Decoded(names, mask)
  }

  /** `Match`; the pattern matcher enters as the function `matchPattern`. */
  method Match(f: FlatBlocklist, sourceNames: seq<string>, matchPattern: string -> Option<(string, string)>,
               domain: string)
    returns (r: MatchResult)
    requires |f.masks| == |f.offs|
    ensures domain == "" ==> r == NO_MATCH
    ensures domain != "" ==> Answers(Listed(f), Attributed(f, Tracked(sourceNames)), matchPattern, Fqdn(domain), r)
  {
    if domain == "" {
      return NO_MATCH;
    }
    var fqdn := Fqdn(domain);
    var short := fqdn[..|fqdn| - 1];
    var mask, kind, ok := LookupSubdomains(f, fqdn);
    if ok {
      var sources := SourcesFromMask(sourceNames, mask);
      r := MatchResult(true, kind, "", sources);
      AnswersByLookup(f, sourceNames, matchPattern, fqdn, mask, r);
      return;
    }
    match matchPattern(short) {
      case Some((k, raw)) => r := MatchResult(true, k, raw, ["pattern"]);
      case None => r := NO_MATCH;
    }
    AnswersByPattern(Listed(f), Attributed(f, Tracked(sourceNames)), matchPattern, fqdn, r);
  }

  lemma AnswersByLookup(f: FlatBlocklist, names: seq<string>, matchPattern: string -> Option<(string, string)>,
                        fqdn: string, mask: nat, r: MatchResult)
    requires fqdn != "" && |f.masks| == |f.offs|
    requires exists p: nat :: FirstHit(Listed(f), fqdn, p) && Find(f, fqdn[p..]) == Some(mask)
                              && r.kind == if p == 0 then "exact" else "subdomain"
    requires r.blocked && r.pattern == "" && r.sources == Decoded(Tracked(names), mask)
    ensures Answers(Listed(f), Attributed(f, Tracked(names)), matchPattern, fqdn, r)
  {
    var p: nat :| FirstHit(Listed(f), fqdn, p) && Find(f, fqdn[p..]) == Some(mask) &&
      r.kind == if p == 0 then "exact" else "subdomain";
    AnswersByHit(Listed(f), Attributed(f, Tracked(names)), matchPattern, fqdn, p, r);
  }

  lemma AnswersByPattern(listed: iset<string>, sources: string -> seq<string>,
                         matchPattern: string -> Option<(string, string)>, fqdn: string, r: MatchResult)
    requires fqdn != "" && NoHit(listed, fqdn)
    requires r == match matchPattern(fqdn[..|fqdn| - 1])
                  case Some((kind, raw)) => MatchResult(true, kind, raw, ["pattern"])
                  case None => NO_MATCH
    ensures Answers(listed, sources, matchPattern, fqdn, r)
  {
  }

  ghost predicate HeldBySome(extract: string -> string, fetched: Fetched, d: string)
  {
    exists j: nat :: Holds(extract, fetched, j, d)
  }

  /** The names of all downloaded lists. */
  ghost function Held(extract: string -> string, fetched: Fetched): iset<string>
  {
    iset d | HeldBySome(extract, fetched, d)
  }

  lemma TracksMeans(extract: string -> string, fetched: Fetched, lists: seq<SortedList>, d: string)
    requires Tracks(extract, fetched, |fetched|, lists, d)
    ensures InSome(lists, d) <==> HeldBySome(extract, fetched, d)
    ensures MaskOf(lists, d) < Pow2(WIDTH)
    ensures forall b: nat :: BitAt(MaskOf(lists, d), b) <==>
              b < |fetched| && b < 64 && b in HoldersOf(extract, fetched, d)
  {
    var holders := HoldersOf(extract, fetched, d);
    assert forall j: nat :: j in holders <==> Holds(extract, fetched, j, d);
  }

  lemma FindIsTracked(extract: string -> string, fetched: Fetched, f: FlatBlocklist, lists: seq<SortedList>, d: string)
    requires Merged(lists, f) && TracksAll(extract, fetched, |fetched|, lists) && |f.data| <= 4_294_967_296
    requires forall e :: HeldBySome(extract, fetched, e) ==> NulFree(e)
    ensures Find(f, d) == if HeldBySome(extract, fetched, d) then Some(MaskOf(lists, d)) else None
  {
    forall e | InSome(lists, e) ensures NulFree(e) {
      TracksMeans(extract, fetched, lists, e);
    }
    LookupAgreesWithMap(lists, f);
    TracksMeans(extract, fetched, lists, d);
    assert Find(f, d) == NaiveLookup(lists, d);
  }

  /** After an update over NUL-free names that fit the offsets, the listed names are
      those of the downloaded lists, and every entry decodes to its true holders. */
  lemma UpdateIsFaithful(extract: string -> string, fetched: Fetched, urls: seq<string>,
                         f: FlatBlocklist, d: string)
    requires |urls| == |fetched| && Updated(extract, fetched, f) && |f.data| <= 4_294_967_296
    requires forall e :: HeldBySome(extract, fetched, e) ==> NulFree(e)
    ensures d in Listed(f) <==> HeldBySome(extract, fetched, d)
    ensures d in Listed(f) ==> Attributed(f, Tracked(urls))(d) == Reported(extract, fetched, urls, d)
  {
    var lists :| Merged(lists, f) && TracksAll(extract, fetched, |fetched|, lists);
    FindIsTracked(extract, fetched, f, lists, d);
    TracksMeans(extract, fetched, lists, d);
    if HeldBySome(extract, fetched, d) {
      DecodedIsReported(extract, fetched, urls, MaskOf(lists, d), d);
    }
  }

  /** An update followed by a query: the name is reported blocked by its longest ancestor
      held by some downloaded list, together with exactly the lists that hold it. */
  method UpdateThenMatch(extract: string -> string, fetched: Fetched, urls: seq<string>,
                         matchPattern: string -> Option<(string, string)>, domain: string)
    returns (f: FlatBlocklist, r: MatchResult)
    requires |urls| == |fetched| && domain != ""
    requires forall e :: HeldBySome(extract, fetched, e) ==> NulFree(e)
    ensures |f.data| <= 4_294_967_296 ==>
              Answers(Held(extract, fetched), e => Reported(extract, fetched, urls, e), matchPattern, Fqdn(domain), r)
  {
    f := DownloadAndMerge(extract, fetched);
    r := Match(f, Tracked(urls), matchPattern, domain);
    assert Tracked(Tracked(urls)) == Tracked(urls);
    if |f.data| <= 4_294_967_296 {
      HeldIsListed(extract, fetched, urls, f);
      AnswersCongruent(Listed(f), Attributed(f, Tracked(urls)), e => Reported(extract, fetched, urls, e),
                       matchPattern, Fqdn(domain), r);
    }
  }

  lemma HeldIsListed(extract: string -> string, fetched: Fetched, urls: seq<string>, f: FlatBlocklist)
    requires |urls| == |fetched| && Updated(extract, fetched, f) && |f.data| <= 4_294_967_296
    requires forall e :: HeldBySome(extract, fetched, e) ==> NulFree(e)
    ensures Listed(f) == Held(extract, fetched)
    ensures forall e :: e in Listed(f) ==> Attributed(f, Tracked(urls))(e) == Reported(extract, fetched, urls, e)
  {
    forall d ensures d in Listed(f) <==> HeldBySome(extract, fetched, d)
             ensures d in Listed(f) ==> Attributed(f, Tracked(urls))(d) == Reported(extract, fetched, urls, d) {
      UpdateIsFaithful(extract, fetched, urls, f, d);
    }
  }

  // ---------------------------------------------------------------- upper case

  predicate HasUpper(s: string) { exists i :: 0 <= i < |s| && 'A' <= s[i] <= 'Z' }

  lemma FqdnIsLower(domain: string)
    requires domain != ""
    ensures !HasUpper(Fqdn(domain))
  {
    var lower := ToLower(domain);
    assert forall i :: 0 <= i < |lower| ==> lower[i] == LowerChar(domain[i]);
  }

  /** A query is blocked exactly if the name or an ancestor is listed, or a pattern matches. */
  lemma BlockedIff(listed: iset<string>, sources: string -> seq<string>,
                   matchPattern: string -> Option<(string, string)>, fqdn: string, r: MatchResult)
    requires fqdn != "" && Answers(listed, sources, matchPattern, fqdn, r)
    ensures r.blocked <==> (exists p: nat :: Hit(listed, fqdn, p)) || matchPattern(fqdn[..|fqdn| - 1]).Some?
  {
  }

  /** Queries are lower-cased but lists are not: a listed name blocks itself or a subdomain of
      it under some query if, and only if, it has no upper-case letter. */
  lemma EffectiveIffLower(listed: iset<string>, d: string)
    requires d in listed && HasSuffix(d, ".")
    ensures (exists domain, p: nat :: domain != "" && Hit(listed, Fqdn(domain), p) && Fqdn(domain)[p..] == d)
            <==> !HasUpper(d)
  {
    if domain, p: nat :| domain != "" && Hit(listed, Fqdn(domain), p) && Fqdn(domain)[p..] == d {
      FqdnIsLower(domain);
      assert forall i :: 0 <= i < |d| ==> d[i] == Fqdn(domain)[p + i];
    }
    if !HasUpper(d) {
      assert d[|d| - 1] == d[|d| - 1..][0] == '.';
      assert ToLower(d) == d;
      assert Fqdn(d) == d && d[0..] == d;
      assert Hit(listed, Fqdn(d), 0);
    }
  }
}
