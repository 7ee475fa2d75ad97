/** How often a value occurs in a sequence. */
module Counting {

  function Count<T(==)>(xs: seq<T>, x: T): nat {
    if xs == [] then 0 else Count(xs[..|xs| - 1], x) + if xs[|xs| - 1] == x then 1 else 0
  }

  lemma CountOne<T>(xs: seq<T>, y: T, x: T)
    ensures Count(xs + [y], x) == Count(xs, x) + (if y == x then 1 else 0)
    ensures Count([y], x) == if y == x then 1 else 0
  {
    assert (xs + [y])[..|xs|] == xs && [y][..0] == [];
  }

  lemma {:induction false} CountAppend<T>(xs: seq<T>, ys: seq<T>, x: T)
    ensures Count(xs + ys, x) == Count(xs, x) + Count(ys, x)
    decreases |ys|
  {
    if ys == [] {
      assert xs + ys == xs;
    } else {
      var last := |ys| - 1;
      CountAppend(xs, ys[..last], x);
      assert (xs + ys)[..|xs + ys| - 1] == xs + ys[..last];
    }
  }

  lemma {:induction false} CountIn<T>(xs: seq<T>, x: T)
    ensures x in xs <==> Count(xs, x) > 0
  {
    if xs != [] {
      var last := |xs| - 1;
      CountIn(xs[..last], x);
      assert xs == xs[..last] + [xs[last]];
    }
  }
}
