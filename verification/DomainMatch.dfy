/** The domain matchers of pkg/policy/engine.go, and what they mean on labels. */
module DomainMatch {
  import opened Text
  import opened Fields

  predicate Contains(s: string, t: string)
  {
    exists i :: 0 <= i <= |s| - |t| && s[i..][..|t|] == t
  }

  /** Lower case, without one trailing dot. */
  function Normal(s: string): string
  {
    ToLower(TrimSuffix(s, "."))
  }

  /** The comparisons of DomainMatches. */
  predicate Matches(d: string, p: string)
  {
    if d == p then true
    else if HasPrefix(p, ".") then d == p[1..] || HasSuffix(d, p)
    else if HasSuffix(d, "." + p) then true
    else !Contains(p, ".") && (HasPrefix(d, p + ".") || Contains(d, "." + p + ".") || HasSuffix(d, "." + p))
  }

  predicate DomainMatches(domain: string, pattern: string)
  {
    Matches(Normal(domain), Normal(pattern))
  }

  predicate DomainEndsWith(domain: string, suffix: string)
  {
    HasSuffix(ToLower(domain), ToLower(suffix))
  }

  /** The name ends in the suffix, in whatever case. */
  predicate FoldSuffix(name: string, suffix: string)
  {
    |suffix| <= |name| && FoldSame(name[|name| - |suffix|..], suffix)
  }

  lemma DomainEndsWithMeans(domain: string, suffix: string)
    ensures DomainEndsWith(domain, suffix) <==> FoldSuffix(domain, suffix)
  {
    if |suffix| <= |domain| {
      var tail := domain[|domain| - |suffix|..];
      FoldMeans(tail, suffix);
      assert ToLower(domain)[|domain| - |suffix|..] == ToLower(tail);
    }
  }

  // ---------------------------------------------------------------- on labels

  /** `r` is `s` in lower case, without one dot at its end. */
  ghost predicate NormalForm(s: string, r: string)
  {
    && |r| == |s| - (if s != "" && s[|s| - 1] == '.' then 1 else 0)
    && forall i :: 0 <= i < |r| ==> r[i] as int == s[i] as int + if 'A' <= s[i] <= 'Z' then 32 else 0
  }

  lemma NormalIsNormal(s: string, r: string)
    ensures NormalForm(s, r) <==> r == Normal(s)
  {
    assert HasSuffix(s, ".") <==> s != "" && s[|s| - 1] == '.' by {
      if s != "" { assert s[|s| - 1..] == [s[|s| - 1]]; }
    }
    if NormalForm(s, r) {
      forall i | 0 <= i < |r| ensures r[i] == Normal(s)[i] { assert r[i] as int == Normal(s)[i] as int; }
    }
  }

  function Labels(s: string): seq<string> { Split(s, '.') }

  predicate EndsWith(xs: seq<string>, ys: seq<string>)
  {
    |ys| <= |xs| && xs[|xs| - |ys|..] == ys
  }

  /** The pattern's labels, without a leading dot, end the domain's; or a pattern that is one
      bare label occurs among them. */
  predicate LabelsMatch(d: string, p: string)
  {
    if p != "" && p[0] == '.' then EndsWith(Labels(d), Labels(p[1..]))
    else EndsWith(Labels(d), Labels(p)) || ('.' !in p && p in Labels(d))
  }

  lemma SuffixOnLabels(d: string, p: string)
    requires HasSuffix(d, "." + p)
    ensures EndsWith(Labels(d), Labels(p))
  {
    var a := d[..|d| - |p| - 1];
    assert d == a + "." + p;
    SplitConcat(a, p, '.');
  }

  lemma LabelsOnSuffix(d: string, p: string)
    requires EndsWith(Labels(d), Labels(p))
    ensures d == p || HasSuffix(d, "." + p)
  {
    JoinSplit(d, '.');
    JoinSplit(p, '.');
    JoinedSuffix(Labels(d), Labels(p));
  }

  lemma JoinedSuffix(xs: seq<string>, ys: seq<string>)
    requires ys != [] && EndsWith(xs, ys)
    ensures Join(xs, '.') == Join(ys, '.') || HasSuffix(Join(xs, '.'), "." + Join(ys, '.'))
  {
    var front := xs[..|xs| - |ys|];
    assert xs == front + ys;
    if front != [] {
      JoinConcat(front, ys, '.');
    }
  }

  lemma LabelSuffix(d: string, p: string)
    ensures EndsWith(Labels(d), Labels(p)) <==> d == p || HasSuffix(d, "." + p)
  {
    if HasSuffix(d, "." + p) { SuffixOnLabels(d, p); }
    if EndsWith(Labels(d), Labels(p)) { LabelsOnSuffix(d, p); }
  }

  lemma ContainsSplits(s: string, t: string)
    ensures Contains(s, t) <==> exists a, b :: s == a + t + b
  {
    if Contains(s, t) {
      var i :| 0 <= i <= |s| - |t| && s[i..][..|t|] == t;
      assert s == s[..i] + t + s[i + |t|..];
    }
    if a, b :| s == a + t + b {
      assert s[|a|..][..|t|] == t;
    }
  }

  lemma ContainsDot(p: string)
    ensures Contains(p, ".") <==> '.' in p
  {
    if '.' in p {
      var i :| 0 <= i < |p| && p[i] == '.';
      assert p[i..][..1] == ".";
    }
    if Contains(p, ".") {
      var i :| 0 <= i <= |p| - 1 && p[i..][..1] == ".";
      assert p[i] == p[i..][0] == '.';
    }
  }

  /** One of the four places a label can be in. */
  predicate LabelPlaces(d: string, p: string)
  {
    d == p || HasPrefix(d, p + ".") || Contains(d, "." + p + ".") || HasSuffix(d, "." + p)
  }

  lemma FirstLabel(p: string, b: string)
    requires '.' !in p
    ensures p in Labels(p + "." + b)
  {
    SplitConcat(p, b, '.');
    SplitNone(p, '.');
  }

  lemma LaterLabel(a: string, p: string, rest: string)
    requires p in Labels(rest)
    ensures p in Labels(a + "." + rest)
  {
    SplitConcat(a, rest, '.');
  }

  lemma LabelBetween(a: string, p: string, b: string)
    requires '.' !in p
    ensures p in Labels(a + "." + (p + "." + b))
  {
    FirstLabel(p, b);
    LaterLabel(a, p, p + "." + b);
  }

  lemma Regroup(a: string, p: string, b: string)
    ensures a + ("." + p + ".") + b == a + "." + (p + "." + b)
  {
  }

  lemma MiddleLabel(d: string, p: string)
    requires '.' !in p && Contains(d, "." + p + ".")
    ensures p in Labels(d)
  {
    ContainsSplits(d, "." + p + ".");
    var a, b :| d == a + ("." + p + ".") + b;
    Regroup(a, p, b);
    LabelBetween(a, p, b);
  }

  lemma LastLabel(d: string, p: string)
    requires '.' !in p && HasSuffix(d, "." + p)
    ensures p in Labels(d)
  {
    var a := d[..|d| - |p| - 1];
    SplitNone(p, '.');
    LaterLabel(a, p, p);
    assert d == a + "." + p;
  }

  lemma LabelFound(d: string, p: string)
    requires '.' !in p && LabelPlaces(d, p)
    ensures p in Labels(d)
  {
    SplitNone(p, '.');
    if HasSuffix(d, "." + p) {
      LastLabel(d, p);
    } else if HasPrefix(d, p + ".") {
      assert d == p + "." + d[|p| + 1..];
      FirstLabel(p, d[|p| + 1..]);
    } else if Contains(d, "." + p + ".") {
      MiddleLabel(d, p);
    }
  }

  /** The label after the fields `xs` and before the fields `ys`. */
  lemma PlacedBetween(d: string, xs: seq<string>, p: string, ys: seq<string>)
    requires d == Join(xs + ([p] + ys), '.')
    ensures LabelPlaces(d, p)
  {
    var tail := Join([p] + ys, '.');
    if ys != [] { JoinConcat([p], ys, '.'); }
    assert tail == if ys == [] then p else p + "." + Join(ys, '.');
    if xs == [] {
      assert xs + ([p] + ys) == [p] + ys;
      assert ys != [] ==> HasPrefix(tail, p + ".");
    } else {
      JoinConcat(xs, [p] + ys, '.');
      AfterDot(d, Join(xs, '.'), p, tail);
    }
  }

  lemma AfterDot(d: string, a: string, p: string, tail: string)
    requires d == a + "." + tail && (tail == p || HasPrefix(tail, p + "."))
    ensures LabelPlaces(d, p)
  {
    if tail == p {
      assert HasSuffix(d, "." + p);
    } else {
      var b := tail[|p| + 1..];
      assert tail == p + "." + b;
      assert d == a + ("." + p + ".") + b;
      ContainsSplits(d, "." + p + ".");
    }
  }

  lemma LabelPlaced(d: string, p: string)
    requires p in Labels(d)
    ensures LabelPlaces(d, p)
  {
    JoinSplit(d, '.');
    var k :| 0 <= k < |Labels(d)| && Labels(d)[k] == p;
    var xs, ys := Labels(d)[..k], Labels(d)[k + 1..];
    assert Labels(d) == xs + ([p] + ys);
    PlacedBetween(d, xs, p, ys);
  }

  /** DomainMatches is the label match of the two normal forms, for all strings. */
  lemma DomainMatchesOnLabels(domain: string, pattern: string, d: string, p: string)
    requires NormalForm(domain, d) && NormalForm(pattern, p)
    ensures DomainMatches(domain, pattern) <==> LabelsMatch(d, p)
  {
    NormalIsNormal(domain, d);
    NormalIsNormal(pattern, p);
    MatchesOnLabels(d, p);
  }

  lemma MatchesOnLabels(d: string, p: string)
    ensures Matches(d, p) <==> LabelsMatch(d, p)
  {
    ContainsDot(p);
    if p != "" && p[0] == '.' {
      assert HasPrefix(p, ".");
      LabelSuffix(d, p[1..]);
      assert "." + p[1..] == p;
      LabelSuffix(d, p);
      assert d == p ==> HasSuffix(d, p);
    } else {
      assert !HasPrefix(p, ".");
      LabelSuffix(d, p);
      if '.' !in p {
        if LabelPlaces(d, p) { LabelFound(d, p); }
        if p in Labels(d) { LabelPlaced(d, p); }
      }
    }
  }
}
