/** Powers of two, bit masks and the circular view of a buffer (util/queue/deque.go). */
module RingMask {
  import opened Modulus

  function Pow2(k: nat): (p: int)
    ensures p >= 1
  {
    if k == 0 then 1 else 2 * Pow2(k - 1)
  }

  ghost predicate IsPow2(n: int) {
    exists k: nat :: n == Pow2(k)
  }

  /** Bitwise and of a two's complement integer with a non-negative mask. */
  function And(x: int, mask: int): int
    requires mask >= 0
    decreases mask
  {
    if mask == 0 then 0 else (x % 2) * (mask % 2) + 2 * And(x / 2, mask / 2)
  }

  lemma ModTwice(x: int, p: int)
    requires p >= 1
    ensures x % (2 * p) == x % 2 + 2 * ((x / 2) % p)
  {
    var q, r := x / 2 / p, (x / 2) % p;
    assert x == 2 * (x / 2) + x % 2;
    assert x / 2 == p * q + r;
    assert x == (2 * p) * q + (x % 2 + 2 * r) by {
      assert 2 * (p * q + r) == (2 * p) * q + 2 * r;
    }
    ModUnique(x, 2 * p, q, x % 2 + 2 * r);
  }

  /** Masking with a power of two less one is the modulus, for every integer. */
  lemma {:induction false} AndMask(x: int, k: nat)
    ensures And(x, Pow2(k) - 1) == x % Pow2(k)
    decreases k
  {
    if k > 0 {
      var p := Pow2(k - 1);
      assert (2 * p - 1) / 2 == p - 1 && (2 * p - 1) % 2 == 1;
      AndMask(x / 2, k - 1);
      ModTwice(x, p);
    }
  }

  lemma {:induction false} Pow2Gap(j: nat, k: nat)
    requires Pow2(j) < Pow2(k)
    ensures j < k && 2 * Pow2(j) <= Pow2(k)
  {
    if j == 0 {
    } else if k > 0 {
      Pow2Gap(j - 1, k - 1);
    }
  }

  lemma HalfPow2(n: int)
    requires IsPow2(n) && n > 1
    ensures n % 2 == 0 && IsPow2(n / 2)
  {
    var k: nat :| n == Pow2(k);
    assert n == 2 * Pow2(k - 1);
    assert n / 2 == Pow2(k - 1);
  }

  lemma TwicePow2(n: int)
    requires IsPow2(n)
    ensures IsPow2(2 * n)
  {
    var k: nat :| n == Pow2(k);
    assert 2 * n == Pow2(k + 1);
  }

  // ---- the circular view ----

  /** The position i places after head in a buffer of n. */
  function Slot(head: int, i: int, n: int): int {
    if head + i < 0 then head + i + n else if head + i < n then head + i else head + i - n
  }

  /** Masking gives the slot, also one place before the start. */
  lemma MaskSlot(head: int, i: int, n: int)
    requires IsPow2(n) && 0 <= head < n && -n <= i <= n
    ensures And(head + i, n - 1) == Slot(head, i, n) && 0 <= Slot(head, i, n) < n
  {
    var k: nat :| n == Pow2(k);
    AndMask(head + i, k);
    if head + i < 0 {
      ModUnique(head + i, n, -1, head + i + n);
    } else if head + i < n {
      ModUnique(head + i, n, 0, head + i);
    } else {
      ModUnique(head + i, n, 1, head + i - n);
    }
  }

  /** Element i of s is i places after head; the solver uses Holds only where this is mentioned. */
  ghost predicate HeldAt<T>(b: seq<T>, head: int, s: seq<T>, i: int) {
    0 <= i < |s| && 0 <= Slot(head, i, |b|) < |b| && s[i] == b[Slot(head, i, |b|)]
  }

  /** The buffer holds the elements of s from head on. */
  ghost predicate Holds<T>(b: seq<T>, head: int, s: seq<T>) {
    && |s| <= |b| && (0 <= head < |b| || |s| == 0)
    && forall i {:trigger HeldAt(b, head, s, i)} :: 0 <= i < |s| ==> HeldAt(b, head, s, i)
  }

  lemma HoldsWrite<T>(b: seq<T>, head: int, s: seq<T>, i: int, x: T)
    requires Holds(b, head, s) && 0 <= i < |s|
    ensures Holds(b[Slot(head, i, |b|) := x], head, s[i := x])
  {
    var c, h, t := b[Slot(head, i, |b|) := x], head, s[i := x];
    forall j | 0 <= j < |s|
      ensures HeldAt(c, h, t, j)
    {
      assert HeldAt(b, head, s, j);
    }
  }

  lemma HoldsPushBack<T>(b: seq<T>, head: int, s: seq<T>, x: T)
    requires Holds(b, head, s) && 0 <= head < |b| && |s| < |b|
    ensures Holds(b[Slot(head, |s|, |b|) := x], head, s + [x])
  {
    var c, h, t := b[Slot(head, |s|, |b|) := x], head, s + [x];
    forall j | 0 <= j < |s| + 1
      ensures HeldAt(c, h, t, j)
    {
      assert j < |s| ==> HeldAt(b, head, s, j);
    }
  }

  lemma HoldsPushFront<T>(b: seq<T>, head: int, s: seq<T>, x: T)
    requires Holds(b, head, s) && 0 <= head < |b| && |s| < |b|
    ensures Holds(b[Slot(head, -1, |b|) := x], Slot(head, -1, |b|), [x] + s)
  {
    var c, h, t := b[Slot(head, -1, |b|) := x], Slot(head, -1, |b|), [x] + s;
    forall j | 0 <= j < |s| + 1
      ensures HeldAt(c, h, t, j)
    {
      assert j > 0 ==> HeldAt(b, head, s, j - 1);
    }
  }

  lemma HoldsPopFront<T>(b: seq<T>, head: int, s: seq<T>, x: T)
    requires Holds(b, head, s) && |s| > 0
    ensures Holds(b[head := x], Slot(head, 1, |b|), s[1..])
  {
    var c, h, t := b[head := x], Slot(head, 1, |b|), s[1..];
    forall i | 0 <= i < |s| - 1
      ensures HeldAt(c, h, t, i)
    {
      assert HeldAt(b, head, s, i + 1);
    }
  }

  lemma HoldsPopBack<T>(b: seq<T>, head: int, s: seq<T>, x: T)
    requires Holds(b, head, s) && |s| > 0
    ensures Holds(b[Slot(head, |s| - 1, |b|) := x], head, s[..|s| - 1])
  {
    var c, h, t := b[Slot(head, |s| - 1, |b|) := x], head, s[..|s| - 1];
    forall i | 0 <= i < |s| - 1
      ensures HeldAt(c, h, t, i)
    {
      assert HeldAt(b, head, s, i);
    }
  }

  lemma HoldsSame<T>(b: seq<T>, head: int, s: seq<T>, b': seq<T>, head': int, s': seq<T>)
    requires Holds(b, head, s) && b' == b && head' == head && s' == s
    ensures Holds(b', head', s')
  {
  }

  lemma SlotStep(head: int, i: int, n: int)
    requires 0 <= head < n && 0 <= i < n
    ensures Slot(Slot(head, 1, n), i, n) == Slot(Slot(head, i, n), 1, n)
    ensures Slot(Slot(head, -1, n), i, n) == Slot(Slot(head, i, n), -1, n)
    ensures i > 0 ==> Slot(Slot(head, i, n), -1, n) == Slot(head, i - 1, n) != Slot(head, -1, n)
  {
  }

  /** The front element is taken round to the back. */
  lemma HoldsForward<T>(b: seq<T>, head: int, s: seq<T>, x: T)
    requires Holds(b, head, s) && 0 < |s| < |b|
    ensures Holds(b[head := x][Slot(head, |s|, |b|) := b[head]], Slot(head, 1, |b|), s[1..] + s[..1])
  {
    HoldsPopFront(b, head, s, x);
    HoldsPushBack(b[head := x], Slot(head, 1, |b|), s[1..], b[head]);
    assert HeldAt(b, head, s, 0);
    assert s[..1] == [b[head]];
  }

  /** The back element is taken round to the front. */
  lemma HoldsBackward<T>(b: seq<T>, head: int, s: seq<T>, x: T)
    requires Holds(b, head, s) && 0 < |s| < |b|
    ensures var last := Slot(head, |s| - 1, |b|);
            Holds(b[last := x][Slot(head, -1, |b|) := b[last]], Slot(head, -1, |b|), s[|s| - 1..] + s[..|s| - 1])
  {
    var last := Slot(head, |s| - 1, |b|);
    HoldsPopBack(b, head, s, x);
    HoldsPushFront(b[last := x], head, s[..|s| - 1], b[last]);
    assert HeldAt(b, head, s, |s| - 1);
    assert s[|s| - 1..] == [b[last]];
  }

  /** The two runs that make up the contents, in a buffer of any size. */
  lemma HoldsCopied<T>(b: seq<T>, head: int, s: seq<T>, c: seq<T>)
    requires Holds(b, head, s) && 0 < |s| <= |c|
    requires c[..|s|] == if head + |s| < |b| then b[head..head + |s|] else b[head..] + b[..head + |s| - |b|]
    ensures Holds(c, 0, s)
  {
    forall i | 0 <= i < |s|
      ensures HeldAt(c, 0, s, i)
    {
      assert HeldAt(b, head, s, i) && c[..|s|][i] == c[i];
    }
  }

  /** A full buffer is rotated by moving its head. */
  lemma HoldsFull<T>(b: seq<T>, head: int, s: seq<T>, n: int)
    requires Holds(b, head, s) && |s| == |b| > 0 && -|b| <= n <= |b|
    ensures var k := if n < 0 then n + |b| else n;
            Holds(b, Slot(head, n, |b|), s[k..] + s[..k])
  {
    var k := if n < 0 then n + |b| else n;
    var t, h := s[k..] + s[..k], Slot(head, n, |b|);
    forall i | 0 <= i < |t|
      ensures HeldAt(b, h, t, i)
    {
      var j := if i < |s| - k then k + i else i - (|s| - k);
      assert HeldAt(b, head, s, j) && t[i] == s[j];
    }
  }
}
