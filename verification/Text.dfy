/** Strings as the program sees them.

    A Go string or byte slice is modelled as a `string` with one character per byte.
    The order on strings is the byte-wise one Go's `<` uses.  Case mapping is the
    ASCII one. */
module Text {

  /** Go's `a < b` on strings. */
  predicate Less(a: string, b: string)
  {
    b != "" && (a == "" || a[0] < b[0] || (a[0] == b[0] && Less(a[1..], b[1..])))
  }

  lemma {:induction false} LessIrreflexive(a: string)
    ensures !Less(a, a)
  {
    if a != "" {
      LessIrreflexive(a[1..]);
    }
  }

  lemma {:induction false} LessTrichotomy(a: string, b: string)
    ensures a == b || Less(a, b) || Less(b, a)
  {
    if a != "" && b != "" && a[0] == b[0] {
      LessTrichotomy(a[1..], b[1..]);
      assert a[1..] == b[1..] ==> a == [a[0]] + a[1..] == b;
    }
  }

  lemma {:induction false} LessTransitive(a: string, b: string, c: string)
    requires Less(a, b) && Less(b, c)
    ensures Less(a, c)
  {
    if a != "" && a[0] == b[0] == c[0] {
      LessTransitive(a[1..], b[1..], c[1..]);
    }
  }

  /** Where two strings first differ decides their order. */
  lemma {:induction false} LessAtDifference(a: string, b: string, k: nat)
    requires k < |a| && k < |b| && a[..k] == b[..k] && a[k] != b[k]
    ensures Less(a, b) == (a[k] < b[k])
  {
    if k > 0 {
      assert a[0] == a[..k][0] == b[..k][0] == b[0];
      assert a[1..][..k - 1] == a[..k][1..] == b[..k][1..] == b[1..][..k - 1];
      LessAtDifference(a[1..], b[1..], k - 1);
    }
  }

  /** A proper prefix comes first. */
  lemma {:induction false} LessProperPrefix(a: string, b: string)
    requires a < b
    ensures Less(a, b)
  {
    if a != "" {
      assert a[0] == b[0];
      assert a[1..] < b[1..];
      LessProperPrefix(a[1..], b[1..]);
    }
  }

  /** Strictly increasing: sorted, without duplicates. */
  ghost predicate Increasing(s: seq<string>)
  {
    forall i, j :: 0 <= i < j < |s| ==> Less(s[i], s[j])
  }

  /** A strictly increasing list is determined by the set of its elements. */
  lemma {:induction false} IncreasingUnique(s: seq<string>, t: seq<string>)
    requires Increasing(s) && Increasing(t)
    requires forall d :: d in s <==> d in t
    ensures s == t
  {
    assert s != [] ==> s[0] in s;
    assert t != [] ==> t[0] in t;
    if s != [] && t != [] {
      IncreasingHead(s, t);
      IncreasingHead(t, s);
      if s[0] != t[0] {
        LessTransitive(s[0], t[0], s[0]);
        LessIrreflexive(s[0]);
      }
      forall d ensures d in s[1..] <==> d in t[1..] {
        IncreasingTail(s, d);
        IncreasingTail(t, d);
      }
      IncreasingUnique(s[1..], t[1..]);
      assert s == [s[0]] + s[1..] && t == [t[0]] + t[1..];
    }
  }

  lemma IncreasingHead(s: seq<string>, t: seq<string>)
    requires Increasing(s) && s != [] && t != []
    requires forall d :: d in t ==> d in s
    ensures s[0] == t[0] || Less(s[0], t[0])
  {
    assert t[0] in s;
  }

  lemma IncreasingTail(s: seq<string>, d: string)
    requires Increasing(s) && s != []
    ensures d in s[1..] <==> d in s && d != s[0]
  {
    assert s == [s[0]] + s[1..];
    if k :| 0 <= k < |s[1..]| && s[1..][k] == d {
      assert Less(s[0], s[k + 1]);
      LessIrreflexive(d);
    }
  }

  /** Appending something larger than every element keeps a list increasing. */
  lemma IncreasingSnoc(s: seq<string>, d: string)
    requires Increasing(s) && (forall e :: e in s ==> Less(e, d))
    ensures Increasing(s + [d])
  {
  }

  function ToLower(s: string): (r: string)
    ensures |r| == |s|
    ensures forall i :: 0 <= i < |s| ==> r[i] == LowerChar(s[i])
  {
    seq(|s|, i requires 0 <= i < |s| => LowerChar(s[i]))
  }

  function LowerChar(c: char): (r: char)
    ensures r as int == c as int + if 'A' <= c <= 'Z' then 32 else 0
  {
    if 'A' <= c <= 'Z' then c + 'a' - 'A' else c
  }

  function ToUpper(s: string): (r: string)
    ensures |r| == |s|
    ensures forall i :: 0 <= i < |s| ==> r[i] == UpperChar(s[i])
  {
    seq(|s|, i requires 0 <= i < |s| => UpperChar(s[i]))
  }

  function UpperChar(c: char): (r: char)
    ensures r as int == c as int - if 'a' <= c <= 'z' then 32 else 0
  {
    if 'a' <= c <= 'z' then c + 'A' - 'a' else c
  }

  predicate HasPrefix(s: string, p: string)
  {
    |p| <= |s| && s[..|p|] == p
  }

  predicate HasSuffix(s: string, p: string)
  {
    |p| <= |s| && s[|s| - |p|..] == p
  }

  /** One occurrence of `p` removed from the end, as `strings.TrimSuffix` does. */
  function TrimSuffix(s: string, p: string): string
  {
    if HasSuffix(s, p) then s[..|s| - |p|] else s
  }

  predicate IsSpace(c: char)
  {
    c == ' ' || '\t' <= c <= '\r'
  }

  /** `r` is `s` without the white space around it. */
  ghost predicate Trimmed(s: string, r: string)
  {
    && (r == "" || (!Blank(r[0]) && !Blank(r[|r| - 1])))
    && exists a, b :: s == a + r + b && AllSpace(a) && AllSpace(b)
  }

  /** Space, tab, newline, vertical tab, form feed or carriage return. */
  predicate Blank(c: char) { c as int == 32 || 9 <= c as int <= 13 }

  predicate AllSpace(s: string)
  {
    forall i :: 0 <= i < |s| ==> Blank(s[i])
  }

  /** `strings.TrimSpace` on ASCII text. */
  function TrimSpace(s: string): (r: string)
    ensures Trimmed(s, r)
    ensures forall c :: c in r ==> c in s
  {
    if s == "" then
      assert s == "" + "" + "" && AllSpace("");
      ""
    else if IsSpace(s[0]) then
      TrimFirst(s, TrimSpace(s[1..]));
      TrimSpace(s[1..])
    else if IsSpace(s[|s| - 1]) then
      TrimLast(s, TrimSpace(s[..|s| - 1]));
      TrimSpace(s[..|s| - 1])
    else
      assert s == "" + s + "" && AllSpace("");
      s
  }

  lemma TrimFirst(s: string, r: string)
    requires s != "" && IsSpace(s[0]) && Trimmed(s[1..], r)
    ensures Trimmed(s, r)
  {
    var a, b :| s[1..] == a + r + b && AllSpace(a) && AllSpace(b);
    assert s == [s[0]] + s[1..] == ([s[0]] + a) + r + b;
    assert AllSpace([s[0]] + a);
  }

  lemma TrimLast(s: string, r: string)
    requires s != "" && IsSpace(s[|s| - 1]) && Trimmed(s[..|s| - 1], r)
    ensures Trimmed(s, r)
  {
    var last := |s| - 1;
    var a, b :| s[..last] == a + r + b && AllSpace(a) && AllSpace(b);
    assert s == s[..last] + [s[last]] == a + r + (b + [s[last]]);
    assert AllSpace(b + [s[last]]);
  }

  /** The same letter, in whatever case. */
  predicate FoldEq(a: char, b: char)
  {
    || a == b
    || ('A' <= a <= 'Z' && b as int == a as int + 32)
    || ('A' <= b <= 'Z' && a as int == b as int + 32)
  }

  /** The same text, in whatever case. */
  predicate FoldSame(s: string, t: string)
  {
    |s| == |t| && forall i :: 0 <= i < |s| ==> FoldEq(s[i], t[i])
  }

  lemma FoldMeans(s: string, t: string)
    ensures ToLower(s) == ToLower(t) <==> FoldSame(s, t)
    ensures ToUpper(s) == ToUpper(t) <==> FoldSame(s, t)
  {
    forall a, b ensures LowerChar(a) == LowerChar(b) <==> FoldEq(a, b)
                ensures UpperChar(a) == UpperChar(b) <==> FoldEq(a, b) {
      FoldChar(a, b);
    }
    if ToLower(s) == ToLower(t) || ToUpper(s) == ToUpper(t) {
      forall i | 0 <= i < |s| ensures FoldEq(s[i], t[i]) {
        assert ToLower(s) == ToLower(t) ==> ToLower(s)[i] == ToLower(t)[i];
        assert ToUpper(s) == ToUpper(t) ==> ToUpper(s)[i] == ToUpper(t)[i];
      }
    }
  }

  lemma FoldChar(a: char, b: char)
    ensures LowerChar(a) == LowerChar(b) <==> FoldEq(a, b)
    ensures UpperChar(a) == UpperChar(b) <==> FoldEq(a, b)
  {
    assert a as int == b as int <==> a == b;
    assert LowerChar(a) as int == LowerChar(b) as int <==> LowerChar(a) == LowerChar(b);
    assert UpperChar(a) as int == UpperChar(b) as int <==> UpperChar(a) == UpperChar(b);
  }
}
