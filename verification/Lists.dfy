/** Filtering and converting a list in one pass, and folding one from the left. */
module Lists {
  function Collect<A, B>(xs: seq<A>, keep: A -> bool, f: A -> B): seq<B>
  {
    if xs == [] then []
    else
      var last := |xs| - 1;
      Collect(xs[..last], keep, f) + if keep(xs[last]) then [f(xs[last])] else []
  }

  lemma CollectOne<A, B>(xs: seq<A>, x: A, keep: A -> bool, f: A -> B)
    ensures Collect(xs + [x], keep, f) == Collect(xs, keep, f) + if keep(x) then [f(x)] else []
  {
    assert (xs + [x])[..|xs|] == xs;
  }

  lemma {:induction false} CollectHead<A, B>(x: A, xs: seq<A>, keep: A -> bool, f: A -> B)
    ensures Collect([x] + xs, keep, f) == (if keep(x) then [f(x)] else []) + Collect(xs, keep, f)
  {
    if xs == [] {
      assert [x] + xs == [x] && [x][..0] == [];
    } else {
      var before, y := xs[..|xs| - 1], xs[|xs| - 1];
      CollectHead(x, before, keep, f);
      assert ([x] + xs)[..|xs|] == [x] + before && ([x] + xs)[|xs|] == y;
    }
  }

  /** `from` names the element behind each result, in order. */
  ghost predicate ComesFrom<A, B>(ys: seq<B>, xs: seq<A>, keep: A -> bool, f: A -> B, from: seq<nat>)
  {
    && |from| == |ys|
    && (forall k :: 0 <= k < |from| ==> from[k] < |xs| && keep(xs[from[k]]) && ys[k] == f(xs[from[k]]))
    && (forall k, l :: 0 <= k < l < |from| ==> from[k] < from[l])
  }

  /** It misses none. */
  ghost predicate MissesNone<A>(xs: seq<A>, keep: A -> bool, from: seq<nat>)
  {
    forall i :: 0 <= i < |xs| && keep(xs[i]) ==> i in from
  }

  lemma ComesFromOne<A, B>(ys: seq<B>, xs: seq<A>, x: A, keep: A -> bool, f: A -> B, from: seq<nat>)
    requires ComesFrom(ys, xs, keep, f, from)
    ensures ComesFrom(ys, xs + [x], keep, f, from)
    ensures keep(x) ==> ComesFrom(ys + [f(x)], xs + [x], keep, f, from + [|xs|])
  {
    assert forall k :: 0 <= k < |xs| ==> (xs + [x])[k] == xs[k];
    assert (xs + [x])[|xs|] == x;
  }

  lemma MissesNoneOne<A>(xs: seq<A>, x: A, keep: A -> bool, from: seq<nat>)
    requires MissesNone(xs, keep, from)
    ensures MissesNone(xs + [x], keep, if keep(x) then from + [|xs|] else from)
  {
    var ys := xs + [x];
    forall i | 0 <= i < |ys| && keep(ys[i]) ensures i in if keep(x) then from + [|xs|] else from {
      assert i < |xs| ==> ys[i] == xs[i];
      assert (from + [|xs|])[|from|] == |xs|;
    }
  }

  lemma {:induction false} CollectComesFrom<A, B>(xs: seq<A>, keep: A -> bool, f: A -> B) returns (from: seq<nat>)
    ensures ComesFrom(Collect(xs, keep, f), xs, keep, f, from) && MissesNone(xs, keep, from)
  {
    from := [];
    if xs != [] {
      var before, x := xs[..|xs| - 1], xs[|xs| - 1];
      from := CollectComesFrom(before, keep, f);
      assert xs == before + [x];
      ComesFromOne(Collect(before, keep, f), before, x, keep, f, from);
      MissesNoneOne(before, x, keep, from);
      CollectOne(before, x, keep, f);
      if keep(x) {
        from := from + [|before|];
      } else {
        assert Collect(before, keep, f) + [] == Collect(before, keep, f);
      }
    }
  }

  ghost function Iterate<S, T>(next: (S, T) -> S, s: S, xs: seq<T>): S
  {
    if xs == [] then s else next(Iterate(next, s, xs[..|xs| - 1]), xs[|xs| - 1])
  }

  lemma IterateOne<S, T>(next: (S, T) -> S, s: S, x: T)
    ensures Iterate(next, s, [x]) == next(s, x)
  {
    assert [x][..0] == [];
  }

  lemma {:induction false} IterateFrom<S, T>(next: (S, T) -> S, s: S, xs: seq<T>, ys: seq<T>)
    ensures Iterate(next, s, xs + ys) == Iterate(next, Iterate(next, s, xs), ys)
  {
    if ys == [] {
      assert xs + ys == xs;
    } else {
      IterateFrom(next, s, xs, ys[..|ys| - 1]);
      assert (xs + ys)[..|xs + ys| - 1] == xs + ys[..|ys| - 1];
    }
  }
}
