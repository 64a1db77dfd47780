/** Building the compact blocklist: by k-way merge of sorted lists, and from a map.
    Models BuildFromSortedLists and BuildFlatBlocklist of pkg/blocklist/flatlist.go. */
module Merge {
  import opened Wrappers
  import opened Text
  import opened Bits
  import opened FlatList

  // ---------------------------------------------------------------- the naive reading

  ghost predicate InSome(lists: seq<SortedList>, d: string)
  {
    exists i :: 0 <= i < |lists| && d in lists[i].domains
  }

  /** The OR of the masks of the lists that hold `d`. */
  function MaskOf(lists: seq<SortedList>, d: string): nat
  {
    if lists == [] then 0
    else
      var last := |lists| - 1;
      var m := MaskOf(lists[..last], d);
      if d in lists[last].domains then Or(m, lists[last].mask) else m
  }

  /** The plain map the packed list stands for. */
  ghost function NaiveLookup(lists: seq<SortedList>, d: string): Option<nat>
  {
    if InSome(lists, d) then Some(MaskOf(lists, d)) else None
  }

  /** What the sort-and-deduplicate step delivers. */
  ghost predicate SortedInput(lists: seq<SortedList>)
  {
    forall i :: 0 <= i < |lists| ==> Increasing(lists[i].domains) && "" !in lists[i].domains
  }

  function MasksOf(lists: seq<SortedList>, names: seq<string>): (r: seq<nat>)
    ensures |r| == |names|
    ensures forall k :: 0 <= k < |names| ==> r[k] == MaskOf(lists, names[k])
  {
    seq(|names|, k requires 0 <= k < |names| => MaskOf(lists, names[k]))
  }

  // ---------------------------------------------------------------- cursors

  ghost predicate ValidCursors(lists: seq<SortedList>, cursors: seq<nat>)
  {
    |cursors| == |lists| && forall i :: 0 <= i < |lists| ==> cursors[i] <= |lists[i].domains|
  }

  /** The next name of list `i`, if it has one left. */
  ghost predicate Head(lists: seq<SortedList>, cursors: seq<nat>, i: nat, d: string)
    requires ValidCursors(lists, cursors)
  {
    i < |lists| && cursors[i] < |lists[i].domains| && lists[i].domains[cursors[i]] == d
  }

  /** `min` is the least head among the first `n` lists, or "" when they are exhausted. */
  ghost predicate LeastHead(lists: seq<SortedList>, cursors: seq<nat>, n: nat, min: string)
    requires ValidCursors(lists, cursors)
  {
    && (min != "" ==> exists i :: 0 <= i < n && Head(lists, cursors, i, min))
    && forall i, d :: 0 <= i < n && Head(lists, cursors, i, d) ==> min != "" && !Less(d, min)
  }

  method FindMin(lists: seq<SortedList>, cursors: seq<nat>) returns (minDomain: string)
    requires SortedInput(lists) && ValidCursors(lists, cursors)
    ensures LeastHead(lists, cursors, |lists|, minDomain)
  {
    minDomain := "";
    for i := 0 to |lists|
      invariant LeastHead(lists, cursors, i, minDomain)
    {
      if cursors[i] >= |lists[i].domains| {
        continue;
      }
      var d := lists[i].domains[cursors[i]];
      assert Head(lists, cursors, i, d) && d in lists[i].domains;
      if minDomain == "" || Less(d, minDomain) {
        forall j, e | 0 <= j < i && Head(lists, cursors, j, e) ensures !Less(e, d) {
          if Less(e, d) { LessTransitive(e, d, minDomain); }
        }
        LessIrreflexive(d);
        minDomain := d;
      }
    }
  }

  /** Advances every cursor that stands on `min` and collects the masks. */
  method TakeMin(lists: seq<SortedList>, cursors: seq<nat>, min: string)
    returns (mask: nat, next: seq<nat>)
    requires ValidCursors(lists, cursors)
    requires forall i :: 0 <= i < |lists| && min in lists[i].domains ==> Head(lists, cursors, i, min)
    ensures mask == MaskOf(lists, min)
    ensures |next| == |cursors|
    ensures forall i :: 0 <= i < |lists| ==>
              next[i] == if min in lists[i].domains then cursors[i] + 1 else cursors[i]
  {
    mask, next := 0, cursors;
    for i := 0 to |lists|
      invariant |next| == |cursors|
      invariant mask == MaskOf(lists[..i], min)
      invariant forall j :: 0 <= j < i ==>
                  next[j] == if min in lists[j].domains then cursors[j] + 1 else cursors[j]
      invariant forall j :: i <= j < |lists| ==> next[j] == cursors[j]
    {
      assert lists[..i + 1][..i] == lists[..i];
      if next[i] < |lists[i].domains| && lists[i].domains[next[i]] == min {
        mask := Or(mask, lists[i].mask);
        next := next[i := next[i] + 1];
      }
    }
    assert lists[..|lists|] == lists;
  }

  /** Everything emitted so far is exactly what the cursors have passed, and
      everything still ahead of a cursor is larger. */
  ghost predicate MergeInv(lists: seq<SortedList>, cursors: seq<nat>, names: seq<string>)
    requires ValidCursors(lists, cursors)
  {
    && Increasing(names)
    && (forall d :: d in names ==> InSome(lists, d))
    && (forall i, k :: 0 <= i < |lists| && 0 <= k < cursors[i] ==> lists[i].domains[k] in names)
    && (forall d, i, k :: d in names && 0 <= i < |lists| && cursors[i] <= k < |lists[i].domains| ==>
          Less(d, lists[i].domains[k]))
  }

  /** The least head is ahead of every name emitted, and only heads can equal it. */
  lemma LeastHeadFacts(lists: seq<SortedList>, cursors: seq<nat>, names: seq<string>, min: string)
    requires SortedInput(lists) && ValidCursors(lists, cursors) && MergeInv(lists, cursors, names)
    requires min != "" && LeastHead(lists, cursors, |lists|, min)
    ensures InSome(lists, min) && forall d :: d in names ==> Less(d, min)
    ensures forall i :: 0 <= i < |lists| && min in lists[i].domains ==> Head(lists, cursors, i, min)
  {
    var h :| 0 <= h < |lists| && Head(lists, cursors, h, min);
    assert min in lists[h].domains;
    forall i | 0 <= i < |lists| && min in lists[i].domains ensures Head(lists, cursors, i, min) {
      var k :| 0 <= k < |lists[i].domains| && lists[i].domains[k] == min;
      LessIrreflexive(min);
      assert k >= cursors[i];
      if k > cursors[i] {
        assert Head(lists, cursors, i, lists[i].domains[cursors[i]]);
      }
    }
  }

  lemma MergeStep(lists: seq<SortedList>, cursors: seq<nat>, names: seq<string>, min: string, next: seq<nat>)
    requires SortedInput(lists) && ValidCursors(lists, cursors) && MergeInv(lists, cursors, names)
    requires min != "" && LeastHead(lists, cursors, |lists|, min)
    requires |next| == |cursors|
    requires forall i :: 0 <= i < |lists| ==>
               next[i] == if min in lists[i].domains then cursors[i] + 1 else cursors[i]
    ensures ValidCursors(lists, next) && MergeInv(lists, next, names + [min])
  {
    LeastHeadFacts(lists, cursors, names, min);
    IncreasingSnoc(names, min);
    forall i, k | 0 <= i < |lists| && next[i] <= k < |lists[i].domains|
      ensures Less(min, lists[i].domains[k])
    {
      var head := lists[i].domains[cursors[i]];
      assert Head(lists, cursors, i, head);
      if min !in lists[i].domains {
        LessTrichotomy(min, head);
        if k > cursors[i] { LessTransitive(min, head, lists[i].domains[k]); }
      }
    }
  }

  ghost function Remaining(lists: seq<SortedList>, cursors: seq<nat>): nat
    requires ValidCursors(lists, cursors)
    decreases |lists|
  {
    if lists == [] then 0
    else
      var last := |lists| - 1;
      Remaining(lists[..last], cursors[..last]) + |lists[last].domains| - cursors[last]
  }

  lemma {:induction false} RemainingDecreases(lists: seq<SortedList>, cursors: seq<nat>, next: seq<nat>)
    requires ValidCursors(lists, cursors) && ValidCursors(lists, next)
    requires forall i :: 0 <= i < |lists| ==> cursors[i] <= next[i]
    ensures Remaining(lists, next) <= Remaining(lists, cursors)
    ensures cursors != next ==> Remaining(lists, next) < Remaining(lists, cursors)
  {
    if lists != [] {
      var last := |lists| - 1;
      RemainingDecreases(lists[..last], cursors[..last], next[..last]);
      assert cursors == cursors[..last] + [cursors[last]] && next == next[..last] + [next[last]];
    }
  }

  /** `names` are the names of all lists together, in increasing order. */
  ghost predicate MergedNames(lists: seq<SortedList>, names: seq<string>)
  {
    Increasing(names) && forall d :: d in names <==> InSome(lists, d)
  }

  /** The image of a list is extended by one name. */
  lemma PacksSnoc(f: FlatBlocklist, names: seq<string>, masks: seq<nat>, d: string, m: nat)
    requires Packs(f, names, masks)
    ensures Packs(FlatBlocklist(f.data + d + [NUL], f.offs + [|f.data| % OFFSET_RANGE], f.masks + [m]),
                  names + [d], masks + [m])
  {
    var names' := names + [d];
    assert names'[..|names|] == names;
    forall i | 0 <= i < |names| ensures names'[..i] == names[..i] {}
  }

  /** `f` packs the names of all lists in increasing order, each with the OR of the masks of
      the lists that hold it. */
  ghost predicate Merged(lists: seq<SortedList>, f: FlatBlocklist)
  {
    exists names :: MergedNames(lists, names) && Packs(f, names, MasksOf(lists, names))
  }

  method BuildFromSortedLists(lists: seq<SortedList>) returns (f: FlatBlocklist)
    requires SortedInput(lists)
    ensures Merged(lists, f)
  {
    ghost var names := [];
    var data: string, offs: seq<nat>, masks: seq<nat> := "", [], [];
    var cursors: seq<nat> := seq(|lists|, i => 0);
    while true
      invariant ValidCursors(lists, cursors) && MergeInv(lists, cursors, names)
      invariant Packs(FlatBlocklist(data, offs, masks), names, MasksOf(lists, names))
      decreases Remaining(lists, cursors)
    {
      var minDomain := FindMin(lists, cursors);
      if minDomain == "" {
        forall d | InSome(lists, d) ensures d in names {
          var i, k :| 0 <= i < |lists| && 0 <= k < |lists[i].domains| && lists[i].domains[k] == d;
          assert cursors[i] < |lists[i].domains| ==> Head(lists, cursors, i, lists[i].domains[cursors[i]]);
        }
        break;
      }
      LeastHeadFacts(lists, cursors, names, minDomain);
      var mask, next := TakeMin(lists, cursors, minDomain);
      MergeStep(lists, cursors, names, minDomain, next);
      RemainingDecreases(lists, cursors, next);
      PacksSnoc(FlatBlocklist(data, offs, masks), names, masks, minDomain, mask);
      assert MasksOf(lists, names) + [mask] == MasksOf(lists, names + [minDomain]);
      offs := offs + [|data| % OFFSET_RANGE];
      masks := masks + [mask];
      data := data + minDomain + [NUL];
      cursors := next;
      names := names + [minDomain];
    }
    f := FlatBlocklist(data, offs, masks);
  }

  // ---------------------------------------------------------------- what the merge means

  /** The packed list answers every lookup as the plain map does if, and only if,
      no name holds a NUL byte. */
  lemma LookupAgreesWithMap(lists: seq<SortedList>, f: FlatBlocklist)
    requires Merged(lists, f) && |f.data| <= 4_294_967_296
    ensures (forall d :: Find(f, d) == NaiveLookup(lists, d)) <==>
            (forall d :: InSome(lists, d) ==> NulFree(d))
  {
    var names :| MergedNames(lists, names) && Packs(f, names, MasksOf(lists, names));
    if forall d :: InSome(lists, d) ==> NulFree(d) {
      forall d ensures Find(f, d) == NaiveLookup(lists, d) {
        FindInPacked(f, names, MasksOf(lists, names), d);
        if d in names {
          var i :| 0 <= i < |names| && names[i] == d;
        }
      }
    } else {
      var d :| InSome(lists, d) && !NulFree(d);
      NulNameNeverFound(f, d);
      assert Find(f, d) != NaiveLookup(lists, d);
    }
  }

  /** Whatever its size and names, the packed list answers as the plain map does exactly if
      every name is read back from its stored offset. */
  lemma AgreesIffReadsBack(lists: seq<SortedList>, f: FlatBlocklist, names: seq<string>)
    requires MergedNames(lists, names) && Packs(f, names, MasksOf(lists, names))
    ensures (forall d :: Find(f, d) == NaiveLookup(lists, d)) <==> ReadsBack(f, names)
  {
    if ReadsBack(f, names) {
      forall d ensures Find(f, d) == NaiveLookup(lists, d) {
        FindReadBack(f, names, d);
        if d in names {
          var i :| 0 <= i < |names| && names[i] == d;
        }
      }
    }
    if forall d :: Find(f, d) == NaiveLookup(lists, d) {
      forall i | 0 <= i < |names| ensures Find(f, names[i]).Some? {
        assert names[i] in names;
        assert Find(f, names[i]) == NaiveLookup(lists, names[i]);
      }
      FoundInPlace(f, names);
    }
  }

  /** No name is the end of another. */
  ghost predicate SuffixFree(names: seq<string>)
  {
    forall i, j :: 0 <= i < |names| && 0 <= j < |names| && i != j ==> !HasSuffix(names[j], names[i])
  }

  /** A name whose offset does not fit in 32 bits is read as the end of an earlier one. */
  lemma WrappedIsMisread(f: FlatBlocklist, names: seq<string>, masks: seq<nat>, i: nat)
    requires Packs(f, names, masks) && i < |names| && SuffixFree(names)
    requires forall k :: 0 <= k < |names| ==> NulFree(names[k])
    requires |Pack(names[..i])| >= OFFSET_RANGE
    ensures Entry(f, i) != names[i]
  {
    PackGrows(names, i);
    var j := ReadsSuffix(names, f.offs[i]);
    assert f.offs[i] < |Pack(names[..i])|;
    assert j != i;
  }

  /** Offsets are 32 bits wide.  For NUL-free names of which none ends another, the packed
      list answers as the plain map does if, and only if, the last name still starts below
      2^32. */
  lemma AgreesIffOffsetsFit(lists: seq<SortedList>, f: FlatBlocklist, names: seq<string>)
    requires MergedNames(lists, names) && Packs(f, names, MasksOf(lists, names)) && names != []
    requires SuffixFree(names) && forall k :: 0 <= k < |names| ==> NulFree(names[k])
    ensures (forall d :: Find(f, d) == NaiveLookup(lists, d)) <==> |Pack(names[..|names| - 1])| < 4_294_967_296
  {
    var last := |names| - 1;
    AgreesIffReadsBack(lists, f, names);
    if |Pack(names[..last])| < OFFSET_RANGE {
      forall i | 0 <= i < |names| ensures Entry(f, i) == names[i] {
        assert names[..last][..i] == names[..i];
        PackGrows(names[..last], i);
        EntryOfPacked(f, names, MasksOf(lists, names), i);
      }
    } else {
      WrappedIsMisread(f, names, MasksOf(lists, names), last);
    }
  }

  ghost predicate NoDescent(s: seq<string>)
  {
    forall i, j :: 0 <= i < j < |s| ==> !Less(s[j], s[i])
  }

  /** `sort.Strings`: same elements with the same multiplicity, no descent. */
  function SortStrings(s: seq<string>): (r: seq<string>)
    ensures multiset(r) == multiset(s) && NoDescent(r)
  {
    if s == [] then []
    else
      assert s == [s[0]] + s[1..];
      var rest := SortStrings(s[1..]);
      InsertMultiset(s[0], rest);
      InsertNoDescent(s[0], rest);
      InsertSorted(s[0], rest)
  }

  function InsertSorted(d: string, s: seq<string>): seq<string>
  {
    if s == [] then [d]
    else if Less(s[0], d) then [s[0]] + InsertSorted(d, s[1..])
    else [d] + s
  }

  lemma {:induction false} InsertMultiset(d: string, s: seq<string>)
    ensures multiset(InsertSorted(d, s)) == multiset(s) + multiset{d}
  {
    if s != [] && Less(s[0], d) {
      InsertMultiset(d, s[1..]);
      assert s == [s[0]] + s[1..];
    }
  }

  lemma {:induction false} InsertMembers(d: string, s: seq<string>, e: string)
    requires e in InsertSorted(d, s)
    ensures e == d || e in s
  {
    if s != [] && Less(s[0], d) && e != s[0] {
      assert e in InsertSorted(d, s[1..]);
      InsertMembers(d, s[1..], e);
    }
  }

  lemma {:induction false} InsertNoDescent(d: string, s: seq<string>)
    requires NoDescent(s)
    ensures NoDescent(InsertSorted(d, s))
  {
    if s != [] {
      if Less(s[0], d) {
        var rest := InsertSorted(d, s[1..]);
        InsertNoDescent(d, s[1..]);
        Asymmetric(s[0], d);
        forall e | e in rest ensures !Less(e, s[0]) {
          InsertMembers(d, s[1..], e);
        }
        ConsNoDescent(s[0], rest);
      } else {
        NotLessThanAny(d, s);
        ConsNoDescent(d, s);
      }
    }
  }

  lemma ConsNoDescent(d: string, s: seq<string>)
    requires NoDescent(s) && forall e :: e in s ==> !Less(e, d)
    ensures NoDescent([d] + s)
  {
  }

  lemma NotLessThanAny(d: string, s: seq<string>)
    requires s != [] && !Less(s[0], d) && NoDescent(s)
    ensures forall k :: 0 <= k < |s| ==> !Less(s[k], d)
  {
    forall k | 0 <= k < |s| ensures !Less(s[k], d) {
      if k > 0 && Less(s[k], d) {
        LessTrichotomy(s[0], s[k]);
        if s[0] != s[k] { LessTransitive(s[0], s[k], d); }
      }
    }
  }

  /** Sorting distinct strings gives a strictly increasing list. */
  lemma SortDistinct(s: seq<string>)
    requires forall i, j :: 0 <= i < j < |s| ==> s[i] != s[j]
    ensures Increasing(SortStrings(s))
    ensures forall d :: d in SortStrings(s) <==> d in s
  {
    var r := SortStrings(s);
    MembersByMultiset(s, r);
    forall i, j | 0 <= i < j < |r| ensures Less(r[i], r[j]) {
      DistinctByMultiset(s, r, i, j);
      LessTrichotomy(r[i], r[j]);
    }
  }

  lemma MembersByMultiset(s: seq<string>, r: seq<string>)
    requires multiset(s) == multiset(r)
    ensures forall d :: d in r <==> d in s
  {
    assert forall d :: d in r <==> d in multiset(r);
    assert forall d :: d in s <==> d in multiset(s);
  }

  lemma DistinctByMultiset(s: seq<string>, r: seq<string>, i: nat, j: nat)
    requires multiset(s) == multiset(r) && i < j < |r|
    requires forall a, b :: 0 <= a < b < |s| ==> s[a] != s[b]
    ensures r[i] != r[j]
  {
    if r[i] == r[j] {
      var d := r[i];
      assert r == r[..i] + [d] + r[i + 1..j] + [d] + r[j + 1..];
      assert multiset(r)[d] >= 2;
      AtMostOnce(s, d);
    }
  }

  lemma {:induction false} AtMostOnce(s: seq<string>, d: string)
    requires forall a, b :: 0 <= a < b < |s| ==> s[a] != s[b]
    ensures multiset(s)[d] <= 1
  {
    if s != [] {
      assert s == [s[0]] + s[1..];
      AtMostOnce(s[1..], d);
      if s[0] == d {
        assert d !in s[1..];
        assert d !in multiset(s[1..]);
      }
    }
  }

  function MapMasks(m: map<string, nat>, names: seq<string>): (r: seq<nat>)
    requires forall d :: d in names ==> d in m
    ensures |r| == |names| && forall k :: 0 <= k < |names| ==> r[k] == m[names[k]]
  {
    seq(|names|, k requires 0 <= k < |names| => m[names[k]])
  }

  method CollectKeys(m: map<string, nat>) returns (keys: seq<string>)
    ensures forall d :: d in m <==> d in keys
    ensures forall i, j :: 0 <= i < j < |keys| ==> keys[i] != keys[j]
  {
    keys := [];
    var todo := m.Keys;
    while todo != {}
      invariant forall d :: d in m <==> d in todo || d in keys
      invariant forall d :: d in keys ==> d !in todo
      invariant forall i, j :: 0 <= i < j < |keys| ==> keys[i] != keys[j]
      decreases todo
    {
      var k :| k in todo;
      keys := keys + [k];
      todo := todo - {k};
    }
  }

  method PackNames(m: map<string, nat>, names: seq<string>) returns (f: FlatBlocklist)
    requires forall d :: d in names ==> d in m
    ensures Packs(f, names, MapMasks(m, names))
  {
    f := FlatBlocklist("", [], []);
    for i := 0 to |names|
      invariant Packs(f, names[..i], MapMasks(m, names[..i]))
    {
      var k := names[i];
      PacksSnoc(f, names[..i], f.masks, k, m[k]);
      assert names[..i + 1] == names[..i] + [k];
      assert MapMasks(m, names[..i + 1]) == MapMasks(m, names[..i]) + [m[k]];
      f := FlatBlocklist(f.data + k + [NUL], f.offs + [|f.data| % OFFSET_RANGE], f.masks + [m[k]]);
    }
    assert names[..|names|] == names;
  }

  /** `f` packs the keys of the map in increasing order, with their values as masks. */
  ghost predicate MapPacked(m: map<string, nat>, f: FlatBlocklist)
  {
    exists names :: KeysInOrder(m, names) && Packs(f, names, MapMasks(m, names))
  }

  ghost predicate KeysInOrder(m: map<string, nat>, names: seq<string>)
  {
    Increasing(names) && forall d :: d in names <==> d in m
  }

  /** The simple builder: collect the keys of a map, sort them, pack them. */
  method BuildFlatBlocklist(m: map<string, nat>) returns (f: FlatBlocklist)
    ensures MapPacked(m, f)
  {
    var keys := CollectKeys(m);
    SortDistinct(keys);
    var sorted := SortStrings(keys);
    assert KeysInOrder(m, sorted);
    f := PackNames(m, sorted);
  }

  /** Merging sorted lists and packing the merged map produce the same bytes. */
  lemma MergeEqualsMapBuild(lists: seq<SortedList>, m: map<string, nat>, f: FlatBlocklist, g: FlatBlocklist)
    requires Merged(lists, f) && MapPacked(m, g)
    requires forall d :: (if d in m then Some(m[d]) else None) == NaiveLookup(lists, d)
    ensures f == g
  {
    var names :| MergedNames(lists, names) && Packs(f, names, MasksOf(lists, names));
    var names' :| KeysInOrder(m, names') && Packs(g, names', MapMasks(m, names'));
    SameNames(lists, m, names, names');
    PackDetermines(names, MasksOf(lists, names), f, g);
  }

  lemma SameNames(lists: seq<SortedList>, m: map<string, nat>, names: seq<string>, names': seq<string>)
    requires MergedNames(lists, names) && KeysInOrder(m, names')
    requires forall d :: (if d in m then Some(m[d]) else None) == NaiveLookup(lists, d)
    ensures names == names' && MasksOf(lists, names) == MapMasks(m, names')
  {
    forall d ensures d in names <==> d in names' {
      assert (if d in m then Some(m[d]) else None) == NaiveLookup(lists, d);
    }
    IncreasingUnique(names, names');
    forall k | 0 <= k < |names| ensures MaskOf(lists, names[k]) == m[names[k]] {
      var d := names[k];
      assert d in names;
      assert (if d in m then Some(m[d]) else None) == NaiveLookup(lists, d);
    }
  }

  lemma PackDetermines(names: seq<string>, masks: seq<nat>, f: FlatBlocklist, g: FlatBlocklist)
    requires Packs(f, names, masks) && Packs(g, names, masks)
    ensures f == g
  {
    assert f.offs == g.offs;
  }

  // ---------------------------------------------------------------- subdomain walk

  /** Position of the first dot, or the length when there is none. */
  function IndexDot(s: string): (k: nat)
    ensures k <= |s| && (forall j :: 0 <= j < k ==> s[j] != '.') && (k < |s| ==> s[k] == '.')
  {
    if s == "" || s[0] == '.' then 0 else 1 + IndexDot(s[1..])
  }

  /** The name itself starts at 0, each of its parents right after a dot; the bare
      root "." is only ever looked up as itself. */
  predicate Boundary(fqdn: string, p: nat)
  {
    p == 0 || (p < |fqdn| && fqdn[p - 1] == '.' && fqdn[p..] != ".")
  }

  /** The suffix at `p` is a listed ancestor. */
  ghost predicate Hit(listed: iset<string>, fqdn: string, p: nat)
  {
    Boundary(fqdn, p) && p <= |fqdn| && fqdn[p..] in listed
  }

  /** The longest listed ancestor starts at `p`. */
  ghost predicate FirstHit(listed: iset<string>, fqdn: string, p: nat)
  {
    Hit(listed, fqdn, p) && forall p': nat :: Hit(listed, fqdn, p') ==> p <= p'
  }

  /** `e` is the name itself or one of its ancestors; the bare root only ever itself. */
  predicate Covers(e: string, fqdn: string)
  {
    e == fqdn || (e != "." && HasSuffix(fqdn, "." + e))
  }

  /** A naive scan of every entry finds a match exactly when some suffix is a hit. */
  lemma ScanFindsHits(listed: iset<string>, fqdn: string)
    requires "" !in listed
    ensures (exists e :: e in listed && Covers(e, fqdn)) <==> (exists p: nat :: Hit(listed, fqdn, p))
  {
    if e :| e in listed && Covers(e, fqdn) {
      var p := |fqdn| - |e|;
      if e == fqdn {
        assert fqdn[0..] == fqdn;
      } else {
        assert fqdn[p - 1..] == "." + e;
        assert fqdn[p..] == fqdn[p - 1..][1..] == e;
      }
      assert Hit(listed, fqdn, p);
    }
    if p: nat :| Hit(listed, fqdn, p) {
      var e := fqdn[p..];
      if p == 0 {
        assert e == fqdn;
      } else {
        assert fqdn[p - 1..] == "." + e;
      }
      assert e in listed && Covers(e, fqdn);
    }
  }

  /** Past a suffix that is not listed, the next boundary is after its first dot. */
  lemma NextBoundary(listed: iset<string>, fqdn: string, q: nat, parent: string)
    requires q <= |fqdn| && parent == fqdn[q..]
    requires forall p: nat :: Hit(listed, fqdn, p) ==> q < p
    ensures var k := IndexDot(parent);
            && (forall p: nat :: Hit(listed, fqdn, p) ==> q + k + 1 <= p < |fqdn| && fqdn[p..] != ".")
            && (k + 1 < |parent| ==> fqdn[q + k] == '.' && parent[k + 1..] == fqdn[q + k + 1..])
  {
    var k := IndexDot(parent);
    forall p: nat | Hit(listed, fqdn, p) ensures q + k + 1 <= p < |fqdn| && fqdn[p..] != "." {
      assert parent[p - 1 - q] == '.';
    }
  }

  ghost predicate NoHit(listed: iset<string>, fqdn: string)
  {
    forall p: nat :: !Hit(listed, fqdn, p)
  }

  ghost predicate HitsAfter(listed: iset<string>, fqdn: string, q: nat)
  {
    forall p: nat :: Hit(listed, fqdn, p) ==> q < p
  }

  /** One step of the walk: no further ancestor, ... */
  lemma WalkEnds(listed: iset<string>, fqdn: string, q: nat, parent: string)
    requires q <= |fqdn| && parent == fqdn[q..] && HitsAfter(listed, fqdn, q) && IndexDot(parent) + 1 >= |parent|
    ensures NoHit(listed, fqdn)
  {
    NextBoundary(listed, fqdn, q, parent);
  }

  /** ... or the next one, which is the longest listed one if it is listed. */
  lemma WalkOn(listed: iset<string>, fqdn: string, q: nat, parent: string, next: nat)
    requires q <= |fqdn| && parent == fqdn[q..] && HitsAfter(listed, fqdn, q)
    requires IndexDot(parent) + 1 < |parent| && next == q + IndexDot(parent) + 1
    ensures next <= |fqdn| && parent[IndexDot(parent) + 1..] == fqdn[next..]
    ensures fqdn[next..] == "." ==> NoHit(listed, fqdn)
    ensures fqdn[next..] != "." && fqdn[next..] in listed ==> FirstHit(listed, fqdn, next)
    ensures fqdn[next..] !in listed ==> HitsAfter(listed, fqdn, next)
  {
    NextBoundary(listed, fqdn, q, parent);
    HitsFrom(listed, fqdn, next);
  }

  lemma HitsFrom(listed: iset<string>, fqdn: string, next: nat)
    requires next > 0 && forall p: nat :: Hit(listed, fqdn, p) ==> next <= p < |fqdn| && fqdn[p..] != "."
    ensures next >= |fqdn| ==> NoHit(listed, fqdn)
    ensures next < |fqdn| && fqdn[next..] == "." ==> NoHit(listed, fqdn)
    ensures next < |fqdn| && fqdn[next..] !in listed ==> HitsAfter(listed, fqdn, next)
    ensures next < |fqdn| && fqdn[next - 1] == '.' && fqdn[next..] != "." && fqdn[next..] in listed ==>
              FirstHit(listed, fqdn, next)
  {
    if next < |fqdn| && fqdn[next..] == "." {
      assert |fqdn| == next + 1;
    }
  }

  /** The names a table answers for. */
  ghost function Listed(f: FlatBlocklist): iset<string>
    requires |f.masks| == |f.offs|
  {
    iset d | Find(f, d).Some?
  }

  /** The loop over the parents of a name that is not itself listed. */
  method WalkParents(f: FlatBlocklist, fqdn: string) returns (mask: nat, ok: bool, ghost at: nat)
    requires |f.masks| == |f.offs| && Find(f, fqdn) == None
    ensures ok ==> at > 0 && FirstHit(Listed(f), fqdn, at) && Find(f, fqdn[at..]) == Some(mask)
    ensures !ok ==> mask == 0 && NoHit(Listed(f), fqdn)
  {
    ghost var listed := Listed(f);
    var parent := fqdn;
    at := 0;
    assert fqdn[0..] == fqdn;
    while true
      invariant at <= |fqdn| && parent == fqdn[at..] && HitsAfter(listed, fqdn, at)
      decreases |parent|
    {
      var idx := IndexDot(parent);
      if idx >= |parent| || idx + 1 >= |parent| {
        WalkEnds(listed, fqdn, at, parent);
        break;
      }
      WalkOn(listed, fqdn, at, parent, at + idx + 1);
      parent := parent[idx + 1..];
      at := at + idx + 1;
      if parent == "." || parent == "" {
        break;
      }
      mask, ok := Lookup(f, parent);
      if ok {
        return;
      }
    }
    mask, ok := 0, false;
  }

  method LookupSubdomains(f: FlatBlocklist, fqdn: string) returns (mask: nat, kind: string, ok: bool)
    requires |f.masks| == |f.offs|
    ensures ok ==> exists p: nat :: FirstHit(Listed(f), fqdn, p) && Find(f, fqdn[p..]) == Some(mask)
                                    && kind == if p == 0 then "exact" else "subdomain"
    ensures !ok ==> mask == 0 && kind == "" && NoHit(Listed(f), fqdn)
  {
    if |f.offs| == 0 {
      return 0, "", false;
    }
    mask, ok := Lookup(f, fqdn);
    if ok {
      assert fqdn[0..] == fqdn;
      assert FirstHit(Listed(f), fqdn, 0);
      return mask, "exact", true;
    }
    ghost var at;
    mask, ok, at := WalkParents(f, fqdn);
    kind := if ok then "subdomain" else "";
  }

  /** Some downloaded list holds the name or an ancestor of it. */
  ghost predicate ScanMatches(lists: seq<SortedList>, fqdn: string)
  {
    exists e :: InSome(lists, e) && Covers(e, fqdn)
  }

  /** The fast path and the slow one: merge, pack and walk, or scan every list. */
  method MergeThenLookup(lists: seq<SortedList>, fqdn: string)
    returns (f: FlatBlocklist, mask: nat, kind: string, ok: bool)
    requires SortedInput(lists) && forall d :: InSome(lists, d) ==> NulFree(d)
    ensures |f.data| <= 4_294_967_296 ==> (ok <==> ScanMatches(lists, fqdn))
    ensures |f.data| <= 4_294_967_296 && ok ==>
              exists p: nat :: p <= |fqdn| && InSome(lists, fqdn[p..]) && mask == MaskOf(lists, fqdn[p..])
                               && Covers(fqdn[p..], fqdn)
                               && forall e :: InSome(lists, e) && Covers(e, fqdn) ==> |e| <= |fqdn| - p
  {
    f := BuildFromSortedLists(lists);
    mask, kind, ok := LookupSubdomains(f, fqdn);
    if |f.data| <= 4_294_967_296 {
      LookupAgreesWithMap(lists, f);
      assert forall d :: Find(f, d) == NaiveLookup(lists, d);
      ListedIsHeld(lists, f);
      ScanFindsHits(Listed(f), fqdn);
      if ok {
        ghost var p: nat :| FirstHit(Listed(f), fqdn, p) && Find(f, fqdn[p..]) == Some(mask);
        LongestCovers(Listed(f), fqdn, p);
      }
    }
  }

  lemma ListedIsHeld(lists: seq<SortedList>, f: FlatBlocklist)
    requires SortedInput(lists) && |f.masks| == |f.offs| && forall d :: Find(f, d) == NaiveLookup(lists, d)
    ensures forall d :: d in Listed(f) <==> InSome(lists, d)
    ensures "" !in Listed(f)
  {
    forall d ensures d in Listed(f) <==> InSome(lists, d) { assert Find(f, d) == NaiveLookup(lists, d); }
  }

  lemma LongestCovers(listed: iset<string>, fqdn: string, p: nat)
    requires "" !in listed && FirstHit(listed, fqdn, p)
    ensures Covers(fqdn[p..], fqdn) && forall e :: e in listed && Covers(e, fqdn) ==> |e| <= |fqdn| - p
  {
    assert p == 0 ==> fqdn[p..] == fqdn;
    assert p > 0 ==> fqdn[p - 1..] == "." + fqdn[p..];
    forall e | e in listed && Covers(e, fqdn) ensures |e| <= |fqdn| - p {
      var o := |fqdn| - |e|;
      assert e == fqdn ==> fqdn[o..] == e;
      assert e != fqdn ==> fqdn[o - 1..] == "." + e && fqdn[o..] == fqdn[o - 1..][1..];
      assert Hit(listed, fqdn, o);
    }
  }
}
