/** The compact blocklist of pkg/blocklist/flatlist.go: names packed into one
    NUL-terminated byte string, a table of 32-bit offsets and a table of source masks. */
module FlatList {
  import opened Wrappers
  import opened Text

  const NUL: char := '\0'
  const OFFSET_RANGE := 0x1_0000_0000

  datatype FlatBlocklist = FlatBlocklist(data: string, offs: seq<nat>, masks: seq<nat>)

  datatype SortedList = SortedList(domains: seq<string>, mask: nat)

  // ---------------------------------------------------------------- the packed image

  /** All names, each followed by its terminator. */
  function Pack(names: seq<string>): string
  {
    if names == [] then "" else Pack(names[..|names| - 1]) + names[|names| - 1] + [NUL]
  }

  /** `f` is the packed image of `names` and `masks`; offsets are stored modulo 2^32. */
  ghost predicate Packs(f: FlatBlocklist, names: seq<string>, masks: seq<nat>)
  {
    && |names| == |masks| == |f.offs|
    && f.masks == masks
    && f.data == Pack(names)
    && forall i :: 0 <= i < |names| ==> f.offs[i] == |Pack(names[..i])| % OFFSET_RANGE
  }

  lemma {:induction false} PackSplit(names: seq<string>, i: nat) returns (tail: string)
    requires i < |names|
    ensures Pack(names) == Pack(names[..i]) + names[i] + [NUL] + tail
  {
    var last := |names| - 1;
    tail := "";
    if i < last {
      var middle := PackSplit(names[..last], i);
      assert names[..last][..i] == names[..i];
      tail := middle + names[last] + [NUL];
    }
  }

  /** What a reader sees from `start`: the bytes up to the terminator or the end. */
  function ReadAt(data: string, start: nat): string
    decreases |data| - start
  {
    if start >= |data| || data[start] == NUL then "" else [data[start]] + ReadAt(data, start + 1)
  }

  predicate NulFree(s: string) { '\0' !in s }

  lemma {:induction false} ReadAtNulFree(data: string, start: nat)
    ensures NulFree(ReadAt(data, start))
    decreases |data| - start
  {
    if start < |data| && data[start] != NUL {
      ReadAtNulFree(data, start + 1);
    }
  }

  lemma {:induction false} ReadAtName(before: string, name: string, tail: string)
    requires NulFree(name)
    ensures ReadAt(before + name + [NUL] + tail, |before|) == name
    decreases |name|
  {
    var data := before + name + [NUL] + tail;
    if name != "" {
      assert before + [name[0]] + name[1..] + [NUL] + tail == data;
      ReadAtName(before + [name[0]], name[1..], tail);
      assert data[|before|] == name[0];
    }
  }

  /** The name stored at index `i`. */
  function Entry(f: FlatBlocklist, i: nat): string
    requires i < |f.offs|
  {
    ReadAt(f.data, f.offs[i])
  }

  /** A name without NUL whose offset fits is read back. */
  lemma EntryOfPacked(f: FlatBlocklist, names: seq<string>, masks: seq<nat>, i: nat)
    requires Packs(f, names, masks) && i < |names|
    requires NulFree(names[i]) && |Pack(names[..i])| < OFFSET_RANGE
    ensures Entry(f, i) == names[i]
  {
    var tail := PackSplit(names, i);
    ReadAtName(Pack(names[..i]), names[i], tail);
  }

  lemma {:induction false} PackGrows(names: seq<string>, i: nat)
    requires i <= |names|
    ensures |Pack(names[..i])| <= |Pack(names)|
    ensures i < |names| ==> |Pack(names[..i])| + |names[i]| < |Pack(names)|
  {
    if i == |names| {
      assert names[..i] == names;
    } else {
      var tail := PackSplit(names, i);
    }
  }

  /** Bytes past the next terminator do not matter. */
  lemma {:induction false} ReadAtLonger(data: string, more: string, start: nat)
    requires start < |data| && data[|data| - 1] == NUL
    ensures ReadAt(data + more, start) == ReadAt(data, start)
    decreases |data| - start
  {
    if data[start] != NUL {
      ReadAtLonger(data, more, start + 1);
    }
  }

  /** What is read at any position is the end of the name packed there. */
  lemma {:induction false} ReadsSuffix(names: seq<string>, start: nat) returns (j: nat)
    requires start < |Pack(names)| && forall i :: 0 <= i < |names| ==> NulFree(names[i])
    ensures j < |names| && |Pack(names[..j])| <= start && HasSuffix(names[j], ReadAt(Pack(names), start))
  {
    var last := |names| - 1;
    var before, name := Pack(names[..last]), names[last];
    if start < |before| {
      j := ReadsSuffix(names[..last], start);
      assert names[..last][..j] == names[..j];
      ReadAtLonger(before, name + [NUL], start);
      assert before + (name + [NUL]) == Pack(names);
    } else {
      j := last;
      var o := start - |before|;
      ReadAtName(before + name[..o], name[o..], "");
      assert before + name[..o] + name[o..] + [NUL] + "" == Pack(names);
    }
  }

  // ---------------------------------------------------------------- lookup

  /** Three-way comparison of the entry at `i` with `target`, byte by byte. */
  method CmpDomainAt(f: FlatBlocklist, i: nat, target: string) returns (c: int)
    requires i < |f.offs|
    ensures c < 0 <==> Less(Entry(f, i), target)
    ensures c == 0 <==> Entry(f, i) == target
    ensures c > 0 <==> Less(target, Entry(f, i))
  {
    var start := f.offs[i];
    ghost var entry := Entry(f, i);
    var pos := 0;
    LessIrreflexive(target);
    while pos < |target|
      invariant 0 <= pos <= |target| && pos <= |entry|
      invariant entry[..pos] == target[..pos]
      invariant entry[pos..] == ReadAt(f.data, start + pos)
    {
      var dataPos := start + pos;
      if dataPos >= |f.data| || f.data[dataPos] == NUL {
        assert entry == entry[..pos] == target[..pos];
        LessProperPrefix(entry, target);
        Asymmetric(entry, target);
        return -1;
      }
      var db := f.data[dataPos];
      var tb := target[pos];
      assert entry[pos] == entry[pos..][0] == db;
      if db != tb {
        LessAtDifference(entry, target, pos);
        LessAtDifference(target, entry, pos);
        if db < tb {
          return -1;
        }
        return 1;
      }
      assert entry[pos + 1..] == entry[pos..][1..];
      pos := pos + 1;
    }
    var endPos := start + pos;
    assert target == target[..pos];
    if endPos < |f.data| && f.data[endPos] != NUL {
      assert target < entry;
      LessProperPrefix(target, entry);
      Asymmetric(target, entry);
      return 1;
    }
    assert entry == entry[..pos] + entry[pos..] == target;
    return 0;
  }

  lemma Asymmetric(a: string, b: string)
    requires Less(a, b)
    ensures !Less(b, a) && a != b
  {
    LessIrreflexive(a);
    if Less(b, a) {
      LessTransitive(a, b, a);
    }
  }

  /** The index `sort.Search` returns on the half-open range [lo, hi). */
  function Search(f: FlatBlocklist, domain: string, lo: nat, hi: nat): (k: nat)
    requires lo <= hi <= |f.offs|
    ensures lo <= k <= hi
    decreases hi - lo
  {
    if lo == hi then lo
    else
      var mid := (lo + hi) / 2;
      if Less(Entry(f, mid), domain) then Search(f, domain, mid + 1, hi) else Search(f, domain, lo, mid)
  }

  /** What `Lookup` answers on any table, sorted or not. */
  function Find(f: FlatBlocklist, domain: string): Option<nat>
    requires |f.masks| == |f.offs|
  {
    var k := Search(f, domain, 0, |f.offs|);
    if k < |f.offs| && Entry(f, k) == domain then Some(f.masks[k]) else None
  }

  method Lookup(f: FlatBlocklist, domain: string) returns (mask: nat, ok: bool)
    requires |f.masks| == |f.offs|
    ensures ok == Find(f, domain).Some?
    ensures mask == (if ok then Find(f, domain).value else 0)
  {
    if |f.offs| == 0 {
      return 0, false;
    }
    var lo, hi := 0, |f.offs|;
    while lo < hi
      invariant 0 <= lo <= hi <= |f.offs|
      invariant Search(f, domain, lo, hi) == Search(f, domain, 0, |f.offs|)
    {
      var mid := (lo + hi) / 2;
      var c := CmpDomainAt(f, mid, domain);
      if c >= 0 {
        hi := mid;
      } else {
        lo := mid + 1;
      }
    }
    if lo < |f.offs| {
      var c := CmpDomainAt(f, lo, domain);
      if c == 0 {
        return f.masks[lo], true;
      }
    }
    return 0, false;
  }

  /** On an increasing table binary search finds an entry wherever it is. */
  lemma {:induction false} SearchFinds(f: FlatBlocklist, domain: string, lo: nat, hi: nat, i: nat)
    requires lo <= i < hi <= |f.offs| && Entry(f, i) == domain
    requires forall a, b :: 0 <= a < b < |f.offs| ==> Less(Entry(f, a), Entry(f, b))
    ensures Search(f, domain, lo, hi) == i
    decreases hi - lo
  {
    var mid := (lo + hi) / 2;
    LessIrreflexive(domain);
    if mid < i {
      SearchFinds(f, domain, mid + 1, hi, i);
    } else {
      if i < mid { Asymmetric(domain, Entry(f, mid)); }
      if i == mid {
        SearchStops(f, domain, lo, mid);
      } else {
        SearchFinds(f, domain, lo, mid, i);
      }
    }
  }

  lemma {:induction false} SearchStops(f: FlatBlocklist, domain: string, lo: nat, hi: nat)
    requires lo <= hi < |f.offs| && Entry(f, hi) == domain
    requires forall a, b :: 0 <= a < b < |f.offs| ==> Less(Entry(f, a), Entry(f, b))
    ensures Search(f, domain, lo, hi) == hi
    decreases hi - lo
  {
    if lo < hi {
      SearchStops(f, domain, (lo + hi) / 2 + 1, hi);
    }
  }

  /** Every name is read at its own index. */
  ghost predicate ReadsBack(f: FlatBlocklist, names: seq<string>)
  {
    |names| == |f.offs| && forall i :: 0 <= i < |names| ==> Entry(f, i) == names[i]
  }

  /** Lookup in a table that reads back an increasing list agrees with the list. */
  lemma FindReadBack(f: FlatBlocklist, names: seq<string>, domain: string)
    requires ReadsBack(f, names) && Increasing(names) && |f.masks| == |f.offs|
    ensures Find(f, domain).Some? <==> domain in names
    ensures forall i :: 0 <= i < |names| && names[i] == domain ==> Find(f, domain) == Some(f.masks[i])
  {
    if i :| 0 <= i < |names| && names[i] == domain {
      SearchFinds(f, domain, 0, |f.offs|, i);
      forall j | 0 <= j < |names| && names[j] == domain ensures j == i {
        LessIrreflexive(domain);
      }
    }
  }

  /** Lookup in the packed image of an increasing list agrees with the list. */
  lemma FindInPacked(f: FlatBlocklist, names: seq<string>, masks: seq<nat>, domain: string)
    requires Packs(f, names, masks) && Increasing(names) && |f.data| <= OFFSET_RANGE
    requires forall d :: d in names ==> NulFree(d)
    ensures Find(f, domain).Some? <==> domain in names
    ensures forall i :: 0 <= i < |names| && names[i] == domain ==> Find(f, domain) == Some(masks[i])
  {
    forall i | 0 <= i < |names| ensures Entry(f, i) == names[i] {
      PackGrows(names, i);
      EntryOfPacked(f, names, masks, i);
    }
    FindReadBack(f, names, domain);
  }

  /** On any table a larger name is searched no further to the left. */
  lemma {:induction false} SearchMonotone(f: FlatBlocklist, d: string, e: string, lo: nat, hi: nat)
    requires lo <= hi <= |f.offs| && Less(d, e)
    ensures Search(f, d, lo, hi) <= Search(f, e, lo, hi)
    decreases hi - lo
  {
    if lo < hi {
      var mid := (lo + hi) / 2;
      if Less(Entry(f, mid), d) {
        LessTransitive(Entry(f, mid), d, e);
        SearchMonotone(f, d, e, mid + 1, hi);
      } else if !Less(Entry(f, mid), e) {
        SearchMonotone(f, d, e, lo, mid);
      }
    }
  }

  ghost predicate AllFound(f: FlatBlocklist, names: seq<string>)
  {
    && |names| == |f.offs| == |f.masks| && Increasing(names)
    && forall i :: 0 <= i < |names| ==> Find(f, names[i]).Some?
  }

  ghost function PlaceOf(f: FlatBlocklist, names: seq<string>, i: nat): nat
    requires i < |names|
  {
    Search(f, names[i], 0, |f.offs|)
  }

  lemma PlacesIncrease(f: FlatBlocklist, names: seq<string>, i: nat)
    requires AllFound(f, names) && i + 1 < |names|
    ensures PlaceOf(f, names, i) < PlaceOf(f, names, i + 1) < |names|
  {
    SearchMonotone(f, names[i], names[i + 1], 0, |f.offs|);
    assert Find(f, names[i]).Some? && Find(f, names[i + 1]).Some?;
    LessIrreflexive(names[i]);
  }

  lemma {:induction false} PlaceAtLeast(f: FlatBlocklist, names: seq<string>, i: nat)
    requires AllFound(f, names) && i < |names|
    ensures PlaceOf(f, names, i) >= i
  {
    if i > 0 {
      PlaceAtLeast(f, names, i - 1);
      PlacesIncrease(f, names, i - 1);
    }
  }

  lemma {:induction false} PlaceAtMost(f: FlatBlocklist, names: seq<string>, i: nat)
    requires AllFound(f, names) && i < |names|
    ensures PlaceOf(f, names, i) <= i
    decreases |names| - i
  {
    if i + 1 < |names| {
      PlaceAtMost(f, names, i + 1);
      PlacesIncrease(f, names, i);
    } else {
      assert Find(f, names[i]).Some?;
    }
  }

  /** If as many names as there are entries are all found, each is read at its own index. */
  lemma FoundInPlace(f: FlatBlocklist, names: seq<string>)
    requires AllFound(f, names)
    ensures ReadsBack(f, names)
  {
    forall i | 0 <= i < |names| ensures Entry(f, i) == names[i] {
      PlaceAtLeast(f, names, i);
      PlaceAtMost(f, names, i);
      assert Find(f, names[i]).Some?;
    }
  }

  /** A name that holds a NUL is never found, whatever the table. */
  lemma NulNameNeverFound(f: FlatBlocklist, domain: string)
    requires |f.masks| == |f.offs| && !NulFree(domain)
    ensures Find(f, domain) == None
  {
    var k := Search(f, domain, 0, |f.offs|);
    if k < |f.offs| {
      ReadAtNulFree(f.data, f.offs[k]);
    }
  }
}
