/** Generic sequence helpers: Python's `list.extend` in a loop and
    consecutive slicing with `range(0, len(xs), size)`. */
module Seqs {

  /** Concatenation of the pieces in order. */
  function Flatten<T>(xss: seq<seq<T>>): seq<T> {
    if |xss| == 0 then [] else xss[0] + Flatten(xss[1..])
  }

  lemma {:induction false} FlattenAppend<T>(a: seq<seq<T>>, b: seq<seq<T>>)
    ensures Flatten(a + b) == Flatten(a) + Flatten(b)
    decreases |a|
  {
    if |a| == 0 {
      assert a + b == b;
    } else {
      assert (a + b)[1..] == a[1..] + b;
      FlattenAppend(a[1..], b);
    }
  }

  lemma FlattenSingle<T>(x: seq<T>)
    ensures Flatten([x]) == x
  {
    assert [x][1..] == [];
  }

  /** `f` applied to each element, the results concatenated in order. */
  function FlatMap<A, B>(xs: seq<A>, f: A -> seq<B>): seq<B> {
    if |xs| == 0 then [] else f(xs[0]) + FlatMap(xs[1..], f)
  }

  lemma {:induction false} FlatMapAppend<A, B>(a: seq<A>, b: seq<A>, f: A -> seq<B>)
    ensures FlatMap(a + b, f) == FlatMap(a, f) + FlatMap(b, f)
    decreases |a|
  {
    if |a| == 0 {
      assert a + b == b;
    } else {
      assert (a + b)[1..] == a[1..] + b;
      FlatMapAppend(a[1..], b, f);
    }
  }

  lemma FlatMapSingle<A, B>(x: A, f: A -> seq<B>)
    ensures FlatMap([x], f) == f(x)
  {
    assert [x][1..] == [];
  }

  /** A property every piece's elements have holds throughout the result. */
  lemma {:induction false} FlatMapEvery<A, B>(xs: seq<A>, f: A -> seq<B>, P: B -> bool)
    requires forall i, j :: 0 <= i < |xs| && 0 <= j < |f(xs[i])| ==> P(f(xs[i])[j])
    ensures forall k :: 0 <= k < |FlatMap(xs, f)| ==> P(FlatMap(xs, f)[k])
    decreases |xs|
  {
    if |xs| > 0 {
      FlatMapEvery(xs[1..], f, P);
      var head, rest := f(xs[0]), FlatMap(xs[1..], f);
      forall k | 0 <= k < |head + rest|
        ensures P((head + rest)[k])
      {
        if k < |head| {
          assert P(f(xs[0])[k]);
        } else {
          assert (head + rest)[k] == rest[k - |head|];
        }
      }
    }
  }

  /** Each of five joined pieces sits where the lengths before it say. */
  lemma FiveParts<T>(a: seq<T>, b: seq<T>, c: seq<T>, d: seq<T>, e: seq<T>)
    ensures var p := a + b + c + d + e;
      var k := |a| + |b|;
      && |p| == k + |c| + |d| + |e|
      && p[..|a|] == a
      && p[|a|..k] == b
      && p[k..k + |c|] == c
      && p[k + |c|..|p| - |e|] == d
      && p[|p| - |e|..] == e
  {
    assert a + b + c + d + e == a + (b + (c + (d + e)));
  }
}
