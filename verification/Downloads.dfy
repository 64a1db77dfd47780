/** Turning a downloaded list into sorted, distinct names.
    Models parseToSlice, parseHostsFile and the sort-and-deduplicate step of
    DownloadSorted in pkg/blocklist/blocklist.go.  The format rules of extractDomain
    enter as the function `extract`: nothing below depends on what it returns. */
module Downloads {
  import opened Wrappers
  import opened Text
  import opened Merge
  import opened Lists

  /** What a download delivered: the lines read, and whether the request or the reading ended
      in an error. */
  datatype Scan = Scan(lines: seq<string>, failed: bool)

  // ---------------------------------------------------------------- what a list holds

  /** The line, trimmed, is not empty, not a comment, and has a name in it: `d`, which is that
      name with a dot added unless it ends in one. */
  ghost predicate Yields(extract: string -> string, text: string, d: string)
  {
    exists line :: Trimmed(text, line) && line != "" && line[0] != '#' && Completes(extract(line), d)
  }

  predicate Completes(name: string, d: string)
  {
    name != "" && d == if name[|name| - 1] == '.' then name else name + ['.']
  }

  /** The list holds `d`. */
  ghost predicate HoldsName(extract: string -> string, lines: seq<string>, d: string)
  {
    exists i :: 0 <= i < |lines| && Yields(extract, lines[i], d)
  }

  /** `domains` are the names of the lines in file order: `from` says which line each comes
      from, and no line with a name is missing. */
  ghost predicate NamesInOrder(extract: string -> string, lines: seq<string>, domains: seq<string>, from: seq<nat>)
  {
    Sourced(extract, lines, domains, from) && Covered(extract, lines, from)
  }

  ghost predicate Sourced(extract: string -> string, lines: seq<string>, domains: seq<string>, from: seq<nat>)
  {
    && |from| == |domains|
    && (forall k :: 0 <= k < |from| ==> from[k] < |lines| && Yields(extract, lines[from[k]], domains[k]))
    && (forall k, l :: 0 <= k < l < |from| ==> from[k] < from[l])
  }

  ghost predicate Covered(extract: string -> string, lines: seq<string>, from: seq<nat>)
  {
    forall i, d :: 0 <= i < |lines| && Yields(extract, lines[i], d) ==> i in from
  }

  /** A text has one trimmed form. */
  lemma TrimmedIsTrimSpace(text: string, line: string)
    requires Trimmed(text, line)
    ensures line == TrimSpace(text)
  {
    TrimmedUnique(text, line, TrimSpace(text));
  }

  lemma TrimmedUnique(s: string, r: string, t: string)
    requires Trimmed(s, r) && Trimmed(s, t)
    ensures r == t
  {
    var a, b :| s == a + r + b && AllSpace(a) && AllSpace(b);
    var c, d :| s == c + t + d && AllSpace(c) && AllSpace(d);
    if r == "" {
      BlankHasNoText(s, a, b, c, t, d);
    } else if t == "" {
      BlankHasNoText(s, c, d, a, r, b);
    } else {
      SameStart(s, a, r, b, c, t, d);
      SameStart(s, c, t, d, a, r, b);
      SamePart(s, a, r, b, c, t, d);
    }
  }

  lemma SamePart(s: string, a: string, r: string, b: string, c: string, t: string, d: string)
    requires s == a + r + b && s == c + t + d && |a| == |c| && |r| == |t|
    ensures r == t
  {
    assert s[|a|..][..|r|] == r && s[|c|..][..|t|] == t;
  }

  /** Blank text has nothing but blanks in it. */
  lemma BlankHasNoText(s: string, a: string, b: string, c: string, t: string, d: string)
    requires s == a + "" + b && AllSpace(a) && AllSpace(b) && s == c + t + d
    ensures AllSpace(t)
  {
    assert AllSpace(s) by {
      forall i | 0 <= i < |s| ensures Blank(s[i]) { assert s[i] == if i < |a| then a[i] else b[i - |a|]; }
    }
    assert forall i :: 0 <= i < |t| ==> s[|c| + i] == t[i];
  }

  /** Of two decompositions neither starts nor ends later than the other. */
  lemma SameStart(s: string, a: string, r: string, b: string, c: string, t: string, d: string)
    requires s == a + r + b && AllSpace(a) && AllSpace(b) && s == c + t + d
    requires r != "" && t != "" && !Blank(t[0]) && !Blank(t[|t| - 1])
    ensures |a| <= |c| && |c| + |t| <= |a| + |r|
  {
    assert s[|c|] == t[0] && s[|c| + |t| - 1] == t[|t| - 1];
    assert forall i :: 0 <= i < |a| ==> s[i] == a[i];
    assert forall i :: |a| + |r| <= i < |s| ==> s[i] == b[i - |a| - |r|];
  }

  // ---------------------------------------------------------------- parsing

  /** The name a line contributes, if any. */
  function NameOf(extract: string -> string, text: string): (r: Option<string>)
    ensures r.Some? ==> HasSuffix(r.value, ".")
  {
    var line := TrimSpace(text);
    if line == "" || HasPrefix(line, "#") then None
    else
      var domain := extract(line);
      if domain == "" then None
      else if HasSuffix(domain, ".") then Some(domain)
      else Some(domain + ".")
  }

  lemma NameOfMeans(extract: string -> string, text: string, d: string)
    ensures Yields(extract, text, d) <==> NameOf(extract, text) == Some(d)
  {
    var line := TrimSpace(text);
    if Yields(extract, text, d) {
      var l :| Trimmed(text, l) && l != "" && l[0] != '#' && Completes(extract(l), d);
      TrimmedIsTrimSpace(text, l);
    }
    if line != "" {
      assert line[..1] == [line[0]];
      var name := extract(line);
      if name != "" { assert name[|name| - 1..] == [name[|name| - 1]]; }
      assert Completes(name, d) ==> Yields(extract, text, d) || line[0] == '#';
    }
  }

  function HasName(extract: string -> string): string -> bool
  {
    text => NameOf(extract, text).Some?
  }

  function Name(extract: string -> string): string -> string
  {
    text => match NameOf(extract, text) case None => "" case Some(d) => d
  }

  /** The names of all lines in file order, duplicates included. */
  function NamesOf(extract: string -> string, lines: seq<string>): seq<string>
  {
    Collect(lines, HasName(extract), Name(extract))
  }

  lemma NamesOfOne(extract: string -> string, lines: seq<string>, i: nat)
    requires i < |lines|
    ensures var before := NamesOf(extract, lines[..i]);
            NamesOf(extract, lines[..i + 1]) ==
            match NameOf(extract, lines[i]) case None => before case Some(d) => before + [d]
  {
    CollectOne(lines[..i], lines[i], HasName(extract), Name(extract));
    assert lines[..i + 1] == lines[..i] + [lines[i]];
    assert NamesOf(extract, lines[..i]) + [] == NamesOf(extract, lines[..i]);
  }

  lemma NamesOfMeans(extract: string -> string, lines: seq<string>) returns (from: seq<nat>)
    ensures NamesInOrder(extract, lines, NamesOf(extract, lines), from)
  {
    from := CollectComesFrom(lines, HasName(extract), Name(extract));
    var names := NamesOf(extract, lines);
    forall k | 0 <= k < |from| ensures Yields(extract, lines[from[k]], names[k]) {
      NameOfMeans(extract, lines[from[k]], names[k]);
    }
    forall i, d | 0 <= i < |lines| && Yields(extract, lines[i], d) ensures i in from {
      NameOfMeans(extract, lines[i], d);
      assert HasName(extract)(lines[i]);
    }
  }

  /** The set of names, from the order of them. */
  lemma OrderHasAll(extract: string -> string, lines: seq<string>, domains: seq<string>, from: seq<nat>, d: string)
    requires NamesInOrder(extract, lines, domains, from)
    ensures d in domains <==> HoldsName(extract, lines, d)
  {
    if HoldsName(extract, lines, d) {
      var i :| 0 <= i < |lines| && Yields(extract, lines[i], d);
      var k :| 0 <= k < |from| && from[k] == i;
      NameOfMeans(extract, lines[i], d);
      NameOfMeans(extract, lines[i], domains[k]);
    }
    if k :| 0 <= k < |domains| && domains[k] == d {
      assert Yields(extract, lines[from[k]], d);
    }
  }

  method ParseToSlice(extract: string -> string, scan: Scan) returns (r: Option<seq<string>>)
    ensures r.None? <==> scan.failed
    ensures r.Some? ==> exists from :: NamesInOrder(extract, scan.lines, r.value, from)
    ensures r.Some? ==> forall d :: d in r.value <==> HoldsName(extract, scan.lines, d)
  {
    var lines, domains: seq<string> := scan.lines, [];
    for i := 0 to |lines|
      invariant domains == NamesOf(extract, lines[..i])
    {
      NamesOfOne(extract, lines, i);
      var line := TrimSpace(lines[i]);
      if line == "" || HasPrefix(line, "#") {
        continue;
      }
      var domain := extract(line);
      if domain == "" {
        continue;
      }
      if !HasSuffix(domain, ".") {
        domain := domain + ".";
      }
      domains := domains + [domain];
    }
    assert lines[..|lines|] == lines;
    ghost var from := NamesOfMeans(extract, lines);
    forall d ensures d in domains <==> HoldsName(extract, lines, d) { OrderHasAll(extract, lines, domains, from, d); }
    return if scan.failed then None else Some(domains);
  }

  /** The simple version: the same names, collected into a set. */
  method ParseHostsFile(extract: string -> string, scan: Scan) returns (r: Option<set<string>>)
    ensures r.None? <==> scan.failed
    ensures r.Some? ==> forall d :: d in r.value <==> HoldsName(extract, scan.lines, d)
  {
    var lines, domains: set<string> := scan.lines, {};
    for i := 0 to |lines|
      invariant forall d :: d in domains <==> d in NamesOf(extract, lines[..i])
    {
      NamesOfOne(extract, lines, i);
      var line := TrimSpace(lines[i]);
      if line == "" || HasPrefix(line, "#") {
        continue;
      }
      var domain := extract(line);
      if domain == "" {
        continue;
      }
      if !HasSuffix(domain, ".") {
        domain := domain + ".";
      }
      domains := domains + {domain};
    }
    assert lines[..|lines|] == lines;
    ghost var from := NamesOfMeans(extract, lines);
    forall d ensures d in domains <==> HoldsName(extract, lines, d) {
      OrderHasAll(extract, lines, NamesOf(extract, lines), from, d);
    }
    return if scan.failed then None else Some(domains);
  }

  /** The in-place deduplication of a sorted slice; the result is the first `w` cells. */
  method Dedup(domains: array<string>) returns (w: nat)
    requires NoDescent(domains[..])
    modifies domains
    ensures w <= domains.Length && Increasing(domains[..w])
    ensures forall d :: d in domains[..w] <==> d in old(domains[..])
  {
    ghost var was := domains[..];
    if domains.Length <= 1 {
      assert domains[..domains.Length] == was;
      return domains.Length;
    }
    w := 1;
    var r := 1;
    assert domains[..1] == was[..1];
    while r < domains.Length
      invariant 1 <= w <= r <= domains.Length
      invariant forall k :: r - 1 <= k < domains.Length ==> domains[k] == was[k]
      invariant domains[w - 1] == was[r - 1]
      invariant Increasing(domains[..w])
      invariant forall d :: d in domains[..w] <==> d in was[..r]
    {
      assert was[..r + 1] == was[..r] + [was[r]];
      assert was[r - 1] in was[..r];
      if domains[r] != domains[r - 1] {
        LessTrichotomy(was[r - 1], was[r]);
        DedupExtends(domains[..w], was[r]);
        domains[w] := domains[r];
        assert domains[..w + 1] == domains[..w] + [was[r]];
        w := w + 1;
      }
      r := r + 1;
    }
    assert was[..r] == was;
  }

  lemma DedupExtends(s: seq<string>, d: string)
    requires s != [] && Increasing(s) && Less(s[|s| - 1], d)
    ensures Increasing(s + [d])
  {
    forall e | e in s ensures Less(e, d) {
      var k :| 0 <= k < |s| && s[k] == e;
      if k < |s| - 1 { LessTransitive(e, s[|s| - 1], d); }
    }
    IncreasingSnoc(s, d);
  }

  lemma NoEmptyName(extract: string -> string, lines: seq<string>)
    ensures !HoldsName(extract, lines, "")
  {
  }

  /** Sorting and deduplicating keeps exactly the names of the map-based parser. */
  method DownloadSorted(extract: string -> string, scan: Scan) returns (r: Option<seq<string>>)
    ensures r.None? <==> scan.failed
    ensures r.Some? ==> Increasing(r.value) && "" !in r.value
    ensures r.Some? ==> forall d :: d in r.value <==> HoldsName(extract, scan.lines, d)
  {
    var parsed := ParseToSlice(extract, scan);
    if parsed == None {
      return None;
    }
    NoEmptyName(extract, scan.lines);
    var domains := SortAndDedup(parsed.value);
    return Some(domains);
  }

  /** The sort and the in-place deduplication together. */
  method SortAndDedup(names: seq<string>) returns (domains: seq<string>)
    ensures Increasing(domains) && forall d :: d in domains <==> d in names
  {
    var sorted := SortStrings(names);
    MembersByMultiset(names, sorted);
    var a := new string[|sorted|](i requires 0 <= i < |sorted| => sorted[i]);
    assert a[..] == sorted;
    var w := Dedup(a);
    return a[..w];
  }
}
