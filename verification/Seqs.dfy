/** Mapping each element of a sequence to a sequence and joining the results, in order. */
module Seqs {
  function FlatMap<T, R>(f: T -> seq<R>, s: seq<T>): (r: seq<R>)
  {
    if s == [] then [] else FlatMap(f, s[..|s| - 1]) + f(s[|s| - 1])
  }

  lemma FlatMapStep<T, R>(f: T -> seq<R>, s: seq<T>, i: nat)
    requires i < |s|
    ensures FlatMap(f, s[..i + 1]) == FlatMap(f, s[..i]) + f(s[i])
  {
    assert s[..i + 1][..i] == s[..i];
  }

  lemma {:induction false} FlatMapJoined<T, R>(f: T -> seq<R>, a: seq<T>, b: seq<T>)
    ensures FlatMap(f, a + b) == FlatMap(f, a) + FlatMap(f, b)
  {
    if b == [] {
      assert a + b == a;
    } else {
      var init := b[..|b| - 1];
      FlatMapJoined(f, a, init);
      assert (a + b)[..|a + b| - 1] == a + init;
    }
  }

  lemma FlatMapAround<T, R>(f: T -> seq<R>, before: seq<T>, x: T, after: seq<T>)
    ensures FlatMap(f, before + [x] + after) == FlatMap(f, before) + f(x) + FlatMap(f, after)
  {
    FlatMapJoined(f, before + [x], after);
    assert (before + [x])[..|before|] == before;
  }

  lemma {:induction false} FlatMapSingletons<T, R>(f: T -> seq<R>, s: seq<T>, t: seq<R>)
    requires |s| == |t| && forall i :: 0 <= i < |s| ==> f(s[i]) == [t[i]]
    ensures FlatMap(f, s) == t
  {
    if s != [] {
      var n := |s| - 1;
      FlatMapSingletons(f, s[..n], t[..n]);
      assert f(s[n]) == [t[n]];
      assert t == t[..n] + [t[n]];
    }
  }
}
