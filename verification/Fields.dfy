/** `strings.Split` and `strings.Join` on a one-byte separator. */
module Fields {
  function Split(s: string, sep: char): (r: seq<string>)
    ensures r != [] && forall i :: 0 <= i < |r| ==> sep !in r[i]
  {
    if s == "" then [""]
    else
      var rest := Split(s[1..], sep);
      if s[0] == sep then [""] + rest else [[s[0]] + rest[0]] + rest[1..]
  }

  function Join(xs: seq<string>, sep: char): string
  {
    if xs == [] then "" else if |xs| == 1 then xs[0] else xs[0] + [sep] + Join(xs[1..], sep)
  }

  /** The first character goes to the first field. */
  lemma JoinPush(c: char, xs: seq<string>, sep: char)
    requires xs != []
    ensures Join([[c] + xs[0]] + xs[1..], sep) == [c] + Join(xs, sep)
  {
    var ys := [[c] + xs[0]] + xs[1..];
    assert ys[1..] == xs[1..];
    if |xs| > 1 {
      assert [c] + xs[0] + [sep] + Join(xs[1..], sep) == [c] + (xs[0] + [sep] + Join(xs[1..], sep));
    }
  }

  lemma JoinEmptyFirst(xs: seq<string>, sep: char)
    requires xs != []
    ensures Join([""] + xs, sep) == [sep] + Join(xs, sep)
  {
    assert ([""] + xs)[1..] == xs;
  }

  lemma {:induction false} JoinSplit(s: string, sep: char)
    ensures Join(Split(s, sep), sep) == s
  {
    if s != "" {
      var rest := Split(s[1..], sep);
      JoinSplit(s[1..], sep);
      if s[0] == sep { JoinEmptyFirst(rest, sep); } else { JoinPush(s[0], rest, sep); }
      assert s == [s[0]] + s[1..];
    }
  }

  lemma {:induction false} JoinConcat(xs: seq<string>, ys: seq<string>, sep: char)
    requires xs != [] && ys != []
    ensures Join(xs + ys, sep) == Join(xs, sep) + [sep] + Join(ys, sep)
  {
    if |xs| == 1 {
      assert (xs + ys)[1..] == ys;
    } else {
      JoinConcat(xs[1..], ys, sep);
      assert (xs + ys)[1..] == xs[1..] + ys;
      assert xs[0] + [sep] + (Join(xs[1..], sep) + [sep] + Join(ys, sep)) ==
             (xs[0] + [sep] + Join(xs[1..], sep)) + [sep] + Join(ys, sep);
    }
  }

  /** A string without separators is one field. */
  lemma {:induction false} SplitNone(s: string, sep: char)
    requires sep !in s
    ensures Split(s, sep) == [s]
  {
    if s != "" {
      SplitNone(s[1..], sep);
      assert s == [s[0]] + s[1..];
    }
  }

  /** Splitting cuts at every separator. */
  lemma {:induction false} SplitConcat(a: string, b: string, sep: char)
    ensures Split(a + [sep] + b, sep) == Split(a, sep) + Split(b, sep)
    decreases |a|
  {
    var s := a + [sep] + b;
    if a == "" {
      assert s[1..] == b;
    } else {
      SplitConcat(a[1..], b, sep);
      assert s[1..] == a[1..] + [sep] + b && s[0] == a[0];
      SplitPush(a[0], Split(a[1..], sep), Split(b, sep));
    }
  }

  lemma SplitPush(c: char, xs: seq<string>, ys: seq<string>)
    requires xs != []
    ensures [[c] + (xs + ys)[0]] + (xs + ys)[1..] == ([[c] + xs[0]] + xs[1..]) + ys
    ensures [""] + (xs + ys) == ([""] + xs) + ys
  {
  }

  /** Splitting undoes joining exactly for non-empty lists of separator-free fields. */
  lemma {:induction false} SplitJoin(xs: seq<string>, sep: char)
    ensures Split(Join(xs, sep), sep) == xs <==> xs != [] && forall i :: 0 <= i < |xs| ==> sep !in xs[i]
  {
    if xs != [] && forall i :: 0 <= i < |xs| ==> sep !in xs[i] {
      SplitNone(xs[0], sep);
      if |xs| > 1 {
        SplitJoin(xs[1..], sep);
        SplitConcat(xs[0], Join(xs[1..], sep), sep);
      }
    }
  }
}
