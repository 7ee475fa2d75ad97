/** The ring buffer of util/queue/deque.go, refining a sequence. */
module Deques {
  import opened Words
  import opened RingMask
  import opened Modulus

  const MIN_CAPACITY: int := 16

  function Turned<T>(s: seq<T>, k: int): seq<T>
    requires 0 <= k <= |s|
  {
    s[k..] + s[..k]
  }

  /** s after n steps front to back, or back to front for a negative n. */
  function Rotated<T>(s: seq<T>, n: int): seq<T> {
    if s == [] then [] else Turned(s, n % |s|)
  }

  lemma TurnedForward<T>(s: seq<T>, k: int)
    requires 0 <= k < |s|
    ensures Turned(s, k)[1..] + Turned(s, k)[..1] == Turned(s, if k + 1 < |s| then k + 1 else 0)
  {
    assert Turned(s, k) == [s[k]] + s[k + 1..] + s[..k];
    assert Turned(s, k)[1..] == s[k + 1..] + s[..k];
    assert s[..k] + [s[k]] == s[..k + 1];
    if k + 1 == |s| {
      assert s[..k + 1] == s && s[k + 1..] == [] && s[0..] == s && s[..0] == [];
    }
  }

  lemma FullTurn<T>(b: seq<T>, head: int, s: seq<T>, m: int, k: int)
    requires Holds(b, head, s) && IsPow2(|b|) && 0 <= head < |b| == |s| && -|b| < m < |b|
             && k == if m < 0 then m + |b| else m
    ensures var to := Slot(head, m, |b|);
            And(head + m, |b| - 1) == to && Holds(b, to, Turned(s, k)) && 0 <= to < |b| && Slot(to, |s|, |b|) == to
  {
    MaskSlot(head, m, |b|);
    HoldsFull(b, head, s, m);
  }

  lemma TurnedBack<T>(s: seq<T>, k: int)
    requires 0 < k <= |s|
    ensures Turned(s, k)[|s| - 1..] + Turned(s, k)[..|s| - 1] == Turned(s, k - 1)
  {
    TurnedBackward(s, if k < |s| then k else 0);
    assert Turned(s, |s|) == Turned(s, 0) == s;
  }

  lemma TurnedBackward<T>(s: seq<T>, k: int)
    requires 0 <= k < |s|
    ensures Turned(s, k)[|s| - 1..] + Turned(s, k)[..|s| - 1] == Turned(s, if k > 0 then k - 1 else |s| - 1)
  {
    var n := |s|;
    if k > 0 {
      assert Turned(s, k)[n - 1..] == [s[k - 1]] && Turned(s, k)[..n - 1] == s[k..] + s[..k - 1];
      assert [s[k - 1]] + s[k..] == s[k - 1..];
    } else {
      assert Turned(s, k) == s;
    }
  }

  /** One more step takes the first element to the back, one step less the last to the front. */
  lemma RotatedStep<T>(s: seq<T>, n: int)
    requires |s| > 0
    ensures |Rotated(s, n)| == |s| && Rotated(s, 0) == s
    ensures Rotated(s, n + 1) == Rotated(s, n)[1..] + Rotated(s, n)[..1]
    ensures Rotated(s, n - 1) == Rotated(s, n)[|s| - 1..] + Rotated(s, n)[..|s| - 1]
  {
    ModShift(n, |s|, 1);
    ModShift(n, |s|, -1);
    TurnedStep(s, n % |s|, (n + 1) % |s|, (n - 1) % |s|);
  }

  lemma TurnedStep<T>(s: seq<T>, k: int, up: int, down: int)
    requires 0 <= k < |s| && up == (if k + 1 < |s| then k + 1 else 0) && down == (if k > 0 then k - 1 else |s| - 1)
    ensures |Turned(s, k)| == |s|
    ensures Turned(s, up) == Turned(s, k)[1..] + Turned(s, k)[..1]
    ensures Turned(s, down) == Turned(s, k)[|s| - 1..] + Turned(s, k)[..|s| - 1]
  {
    TurnedForward(s, k);
    TurnedBackward(s, k);
  }

  lemma RotatedRem<T>(s: seq<T>, n: int)
    ensures |s| <= 1 ==> Rotated(s, n) == s
    ensures |s| > 1 ==>
              var m := Rem(n, |s|); m < |s| && 0 < m + |s| && Rotated(s, n) == Turned(s, if m < 0 then m + |s| else m)
  {
    if |s| > 1 {
      var m := Rem(n, |s|);
      RemMod(n, |s|);
      ModShift(0, |s|, m);
    } else if |s| == 1 {
      assert n % |s| == 0;
    }
  }

  predicate Zeroed<T(==)>(b: seq<T>, k: int, zero: T) {
    0 <= k < |b| && b[k] == zero
  }

  /** s with the element at index i moved up to index j. */
  function MovedUp<T>(s: seq<T>, i: int, j: int): seq<T>
    requires 0 <= i <= j < |s|
  {
    s[..i] + s[i + 1..j + 1] + [s[i]] + s[j + 1..]
  }

  /** s with the element at index i moved down to index j. */
  function MovedDown<T>(s: seq<T>, i: int, j: int): seq<T>
    requires 0 <= j <= i < |s|
  {
    s[..j] + [s[i]] + s[j..i] + s[i + 1..]
  }

  function Swapped<T>(s: seq<T>, i: int): seq<T>
    requires 0 <= i < |s| - 1
  {
    s[i := s[i + 1]][i + 1 := s[i]]
  }

  lemma MovedNowhere<T>(s: seq<T>, i: int)
    requires 0 <= i < |s|
    ensures MovedUp(s, i, i) == s == MovedDown(s, i, i)
  {
  }

  lemma MovedUpStep<T>(s: seq<T>, i: int, j: int)
    requires 0 <= i <= j < |s|
    ensures |MovedUp(s, i, j)| == |s|
    ensures j + 1 < |s| ==> Swapped(MovedUp(s, i, j), j) == MovedUp(s, i, j + 1)
  {
    if j + 1 < |s| {
      var m, u := MovedUp(s, i, j), MovedUp(s, i, j + 1);
      assert m[j] == s[i] && m[j + 1] == s[j + 1];
      forall k | 0 <= k < |s|
        ensures Swapped(m, j)[k] == u[k]
      {
      }
    }
  }

  lemma MovedDownStep<T>(s: seq<T>, i: int, j: int)
    requires 0 <= j <= i < |s|
    ensures |MovedDown(s, i, j)| == |s|
    ensures 0 < j ==> Swapped(MovedDown(s, i, j), j - 1) == MovedDown(s, i, j - 1)
  {
    if 0 < j {
      var m, d := MovedDown(s, i, j), MovedDown(s, i, j - 1);
      assert m[j] == s[i] && m[j - 1] == s[j - 1];
      forall k | 0 <= k < |s|
        ensures Swapped(m, j - 1)[k] == d[k]
      {
      }
    }
  }

  /** Inserting is pushing at an end and moving; removing is moving to an end and popping. */
  lemma MovedEnds<T>(s: seq<T>, x: T, at: int)
    ensures 0 <= at <= |s| ==> MovedUp([x] + s, 0, at) == s[..at] + [x] + s[at..] == MovedDown(s + [x], |s|, at)
    ensures 0 <= at < |s| ==> MovedDown(s, at, 0) == [s[at]] + (s[..at] + s[at + 1..])
    ensures 0 <= at < |s| ==> MovedUp(s, at, |s| - 1) == (s[..at] + s[at + 1..]) + [s[at]]
  {
    if 0 <= at <= |s| {
      assert ([x] + s)[1..at + 1] == s[..at] && ([x] + s)[at + 1..] == s[at..];
      assert (s + [x])[..at] == s[..at] && (s + [x])[at..|s|] == s[at..];
    }
  }

  class Deque<T> {
    const zero: T
    var buf: array<T>
    var head: int
    var tail: int
    var count: nat
    var minCap: int
    ghost var contents: seq<T>

    /** The capacity is zero or a power of two, and the tail is count places after the head. */
    ghost predicate Valid()
      reads this, buf
    {
      && count == |contents| && Holds(buf[..], head, contents)
      && (minCap == 0 || (minCap >= MIN_CAPACITY && IsPow2(minCap)))
      && (if buf.Length == 0 then head == tail == 0
          else minCap > 0 && IsPow2(buf.Length) && 0 <= head < buf.Length && tail == Slot(head, count, buf.Length))
    }

    /** New with a capacity and a minimum; both are rounded up to powers of two. */
    constructor (zero: T, capacity: int, minimum: int)
      ensures Valid() && fresh(buf) && contents == []
      ensures IsPow2(minCap) && minCap >= minimum && (minCap == MIN_CAPACITY || minCap < 2 * minimum)
      ensures if capacity == 0 then buf.Length == 0
              else IsPow2(buf.Length) && buf.Length >= capacity && (buf.Length == minCap || buf.Length < 2 * capacity)
    {
      MaskSlot0(0);
      var m := RoundUp(MIN_CAPACITY, minimum);
      var size := 0;
      if capacity != 0 {
        size := RoundUp(m, capacity);
      }
      this.zero := zero;
      buf := new T[size](_ => zero);
      head, tail, count, minCap, contents := 0, 0, 0, m, [];
      new;
      MaskSlot0(buf.Length);
    }

    static method RoundUp(from: int, least: int) returns (n: int)
      requires IsPow2(from) && from >= MIN_CAPACITY
      ensures IsPow2(n) && n >= from && n >= least && (n == from || n < 2 * least)
    {
      n := from;
      while n < least
        invariant IsPow2(n) && n >= from && (n == from || n < 2 * least)
        decreases least - n
      {
        TwicePow2(n);
        n := n * 2;
      }
    }

    static lemma MaskSlot0(n: int)
      ensures n > 0 ==> Slot(0, 0, n) == 0
      ensures IsPow2(MIN_CAPACITY)
    {
      assert MIN_CAPACITY == Pow2(4);
    }

    function Prev(i: int): (p: int)
      requires Valid() && 0 <= i < buf.Length
      reads this, buf
      ensures p == Slot(i, -1, buf.Length)
    {
      MaskSlot(i, -1, buf.Length);
      And(i - 1, buf.Length - 1)
    }

    function Next(i: int): (p: int)
      requires Valid() && 0 <= i < buf.Length
      reads this, buf
      ensures p == Slot(i, 1, buf.Length)
    {
      MaskSlot(i, 1, buf.Length);
      And(i + 1, buf.Length - 1)
    }

    // ---- capacity ----

    /** Room for twice the contents, which are copied in order. */
    method Resize()
      requires Valid() && count > 0 && IsPow2(2 * count)
      modifies this`buf, this`head, this`tail
      ensures Valid() && fresh(buf) && buf.Length == 2 * count && contents == old(contents)
    {
      ghost var was := buf[..];
      var newBuf := new T[2 * count](_ => zero);
      var b, n := buf, buf.Length;
      var part := if tail > head then tail - head else n - head;
      forall i | 0 <= i < part {
        newBuf[i] := b[head + i];
      }
      if tail <= head {
        forall i | 0 <= i < tail {
          newBuf[part + i] := b[i];
        }
      }
      assert b[..] == was;
      assert newBuf[..count] == if head + count < n then was[head..head + count]
                                else was[head..] + was[..head + count - n];
      assert newBuf[..][..count] == newBuf[..count];
      HoldsCopied(was, head, contents, newBuf[..]);
      head, tail, buf := 0, count, newBuf;
    }

    method GrowIfFull()
      requires Valid()
      modifies this`buf, this`head, this`tail, this`minCap
      ensures Valid() && count < buf.Length && contents == old(contents) && (buf == old(buf) || fresh(buf))
      ensures old(minCap) != 0 ==> minCap == old(minCap)
      ensures buf.Length == if count < old(buf.Length) then old(buf.Length)
                            else if old(buf.Length) == 0 then minCap else 2 * old(buf.Length)
    {
      if count != buf.Length {
        return;
      }
      if buf.Length == 0 {
        MaskSlot0(minCap);
        if minCap == 0 {
          minCap := MIN_CAPACITY;
        }
        buf := new T[minCap](_ => zero);
        return;
      }
      TwicePow2(count);
      Resize();
    }

    /** Shrinking never goes below the minimum capacity. */
    method ShrinkIfExcess()
      requires Valid()
      modifies this`buf, this`head, this`tail
      ensures Valid() && contents == old(contents) && (buf == old(buf) || fresh(buf))
      ensures buf.Length == if old(buf.Length) > minCap
              && count * 4 == old(buf.Length) then 2 * count else old(buf.Length)
      ensures buf.Length == old(buf.Length) || buf.Length >= minCap
    {
      if buf.Length > minCap && count * 4 == buf.Length {
        HalfPow2(buf.Length);
        assert buf.Length / 2 == 2 * count;
        ghost var j: nat :| minCap == Pow2(j);
        ghost var k: nat :| buf.Length == Pow2(k);
        Pow2Gap(j, k);
        Resize();
      }
    }

    /** 1 << exp is not positive for exponents from 63 on, so the minimum is then the least one. */
    method SetMinCapacity(exp: nat)
      requires Valid()
      modifies this`minCap
      ensures Valid() && contents == old(contents)
      ensures minCap == if exp < 63 && Pow2(exp) > MIN_CAPACITY then Pow2(exp) else MIN_CAPACITY
    {
      MaskSlot0(0);
      minCap := if exp < 63 && Pow2(exp) > MIN_CAPACITY then Pow2(exp) else MIN_CAPACITY;
    }

    // ---- the ends ----

    method PushBack(x: T)
      requires Valid()
      modifies this, buf
      ensures Valid() && contents == old(contents) + [x] && (buf == old(buf) || fresh(buf))
      ensures count == old(count) + 1
      ensures buf.Length == if old(count) < old(buf.Length) then old(buf.Length)
                            else if old(buf.Length) == 0 then minCap else 2 * old(buf.Length)
    {
      GrowIfFull();
      HoldsPushBack(buf[..], head, contents, x);
      ghost var b := buf[..];
      var next := Next(tail);
      buf[tail] := x;
      assert buf[..] == b[tail := x];
      tail := next;
      count := count + 1;
      contents := contents + [x];
    }

    method PushFront(x: T)
      requires Valid()
      modifies this, buf
      ensures Valid() && contents == [x] + old(contents) && (buf == old(buf) || fresh(buf))
      ensures count == old(count) + 1
      ensures buf.Length == if old(count) < old(buf.Length) then old(buf.Length)
                            else if old(buf.Length) == 0 then minCap else 2 * old(buf.Length)
    {
      GrowIfFull();
      HoldsPushFront(buf[..], head, contents, x);
      ghost var b := buf[..];
      head := Prev(head);
      buf[head] := x;
      assert buf[..] == b[head := x];
      count := count + 1;
      contents := [x] + contents;
    }

    method PopFront() returns (r: Option<T>)
      requires Valid()
      modifies this, buf
      ensures Valid() && (buf == old(buf) || fresh(buf))
      ensures if old(contents) == [] then r == None && contents == []
              else r == Some(old(contents)[0]) && contents == old(contents)[1..]
      ensures buf.Length == if old(contents) != [] && old(buf.Length) > minCap && count * 4 == old(buf.Length)
                            then 2 * count else old(buf.Length)
    {
      if count <= 0 {
        return None;
      }
      assert HeldAt(buf[..], head, contents, 0);
      HoldsPopFront(buf[..], head, contents, zero);
      ghost var b := buf[..];
      r := Some(buf[head]);
      var next := Next(head);
      buf[head] := zero;
      assert buf[..] == b[head := zero];
      head := next;
      count := count - 1;
      contents := contents[1..];
      ShrinkIfExcess();
    }

    method PopBack() returns (r: Option<T>)
      requires Valid()
      modifies this, buf
      ensures Valid() && (buf == old(buf) || fresh(buf))
      ensures if old(contents) == [] then r == None && contents == []
              else var s := old(contents); r == Some(s[|s| - 1]) && contents == s[..|s| - 1]
      ensures buf.Length == if old(contents) != [] && old(buf.Length) > minCap && count * 4 == old(buf.Length)
                            then 2 * count else old(buf.Length)
    {
      if count <= 0 {
        return None;
      }
      assert HeldAt(buf[..], head, contents, count - 1);
      HoldsPopBack(buf[..], head, contents, zero);
      ghost var b := buf[..];
      tail := Prev(tail);
      r := Some(buf[tail]);
      buf[tail] := zero;
      assert buf[..] == b[tail := zero];
      count := count - 1;
      contents := contents[..count];
      ShrinkIfExcess();
    }

    // ---- any position ----

    method At(i: int) returns (r: Option<T>)
      requires Valid()
      ensures r == if 0 <= i < |contents| then Some(contents[i]) else None
    {
      if i < 0 || i >= count {
        return None;
      }
      MaskSlot(head, i, buf.Length);
      assert HeldAt(buf[..], head, contents, i);
      r := Some(buf[And(head + i, buf.Length - 1)]);
    }

    method Front() returns (r: Option<T>)
      requires Valid()
      ensures r == if contents == [] then None else Some(contents[0])
    {
      assert count > 0 ==> HeldAt(buf[..], head, contents, 0);
      r := if count <= 0 then None else Some(buf[head]);
    }

    method Back() returns (r: Option<T>)
      requires Valid()
      ensures r == if contents == [] then None else Some(contents[|contents| - 1])
    {
      assert count > 0 ==> HeldAt(buf[..], head, contents, count - 1);
      r := if count <= 0 then None else Some(buf[Prev(tail)]);
    }

    method Set(i: int, x: T) returns (ok: bool)
      requires Valid()
      modifies this`contents, buf
      ensures Valid() && ok == (0 <= i < |old(contents)|)
      ensures contents == if ok then old(contents)[i := x] else old(contents)
    {
      if i < 0 || i >= count {
        return false;
      }
      MaskSlot(head, i, buf.Length);
      HoldsWrite(buf[..], head, contents, i, x);
      ghost var b := buf[..];
      buf[And(head + i, buf.Length - 1)] := x;
      assert buf[..] == b[Slot(head, i, |b|) := x];
      contents := contents[i := x];
      ok := true;
    }

    /** The first element that satisfies f. */
    method Index(f: T -> bool) returns (k: int)
      requires Valid()
      ensures -1 <= k < |contents| && (k >= 0 ==> f(contents[k]))
      ensures forall i :: 0 <= i < (if k < 0 then |contents| else k) ==> !f(contents[i])
    {
      for i := 0 to count
        invariant forall j :: 0 <= j < i ==> !f(contents[j])
      {
        MaskSlot(head, i, buf.Length);
        assert HeldAt(buf[..], head, contents, i);
        if f(buf[And(head + i, buf.Length - 1)]) {
          return i;
        }
      }
      k := -1;
    }

    /** The last element that satisfies f. */
    method RIndex(f: T -> bool) returns (k: int)
      requires Valid()
      ensures -1 <= k < |contents| && (k >= 0 ==> f(contents[k]))
      ensures forall i :: k < i < |contents| ==> !f(contents[i])
    {
      for i := count downto 0
        invariant forall j :: i <= j < count ==> !f(contents[j])
      {
        MaskSlot(head, i, buf.Length);
        assert HeldAt(buf[..], head, contents, i);
        if f(buf[And(head + i, buf.Length - 1)]) {
          return i;
        }
      }
      k := -1;
    }

    /** The slots in use are zeroed, except those of a full buffer. */
    method Clear()
      requires Valid()
      modifies this, buf
      ensures Valid() && contents == [] && buf == old(buf)
      ensures old(count) < buf.Length ==>
                forall i :: 0 <= i < old(count) ==> Zeroed(buf[..], Slot(old(head), i, buf.Length), zero)
      ensures old(count) == buf.Length ==> buf[..] == old(buf[..])
    {
      var h, n := head, 0;
      while h != tail
        invariant 0 <= n <= count && (buf.Length > 0 ==> h == Slot(head, n, buf.Length))
        invariant buf.Length == 0 ==> h == tail
        invariant head == old(head) && tail == old(tail) && count == old(count) && buf == old(buf)
                  && minCap == old(minCap)
        invariant forall i :: 0 <= i < n ==> Zeroed(buf[..], Slot(head, i, buf.Length), zero)
        invariant n == 0 ==> buf[..] == old(buf[..])
        invariant count == buf.Length ==> n == 0
        decreases count - n
      {
        MaskSlot(h, 1, buf.Length);
        buf[h] := zero;
        h := And(h + 1, buf.Length - 1);
        n := n + 1;
      }
      head, tail, count, contents := 0, 0, 0, [];
    }

    // ---- rotation ----

    method StepForward()
      requires Valid() && 0 < count < buf.Length
      modifies this`head, this`tail, this`contents, buf
      ensures Valid() && contents == old(contents)[1..] + old(contents)[..1]
    {
      ghost var b, n, h, s := buf[..], buf.Length, head, contents;
      ghost var turned := b[head := zero][tail := b[head]];
      HoldsForward(b, head, contents, zero);
      SlotStep(head, count, n);
      var nextHead, nextTail := Next(head), Next(tail);
      buf[tail] := buf[head];
      buf[head] := zero;
      assert buf[..] == turned;
      head, tail := nextHead, nextTail;
      contents := contents[1..] + contents[..1];
      HoldsSame(turned, Slot(h, 1, n), s[1..] + s[..1], buf[..], head, contents);
    }

    method StepBackward()
      requires Valid() && 0 < count < buf.Length
      modifies this`head, this`tail, this`contents, buf
      ensures Valid() && contents == old(contents)[|old(contents)| - 1..] + old(contents)[..|old(contents)| - 1]
    {
      ghost var b, n, h, s := buf[..], buf.Length, head, contents;
      ghost var last, first := Slot(h, count - 1, n), Slot(h, -1, n);
      ghost var turned := b[last := zero][first := b[last]];
      HoldsBackward(b, head, contents, zero);
      SlotStep(head, count, n);
      head, tail := Prev(head), Prev(tail);
      assert tail == last && head == first && last != first;
      buf[head] := buf[tail];
      buf[tail] := zero;
      assert buf[..] == turned;
      contents := contents[count - 1..] + contents[..count - 1];
      HoldsSame(turned, first, s[count - 1..] + s[..count - 1], buf[..], head, contents);
    }

    method RotateBackward(m: int)
      requires Valid() && 0 < count < buf.Length && 0 < m + count < count
      modifies this`head, this`tail, this`contents, buf
      ensures Valid() && contents == Turned(old(contents), m + count)
    {
      ghost var s := contents;
      assert Turned(s, |s|) == s;
      var k := m;
      while k < 0
        invariant m <= k <= 0
        invariant Valid() && 0 < count < buf.Length && |s| == count
        invariant contents == Turned(s, m - k + |s|)
      {
        TurnedBack(s, m - k + |s|);
        StepBackward();
        k := k + 1;
      }
    }

    method RotateForward(m: int)
      requires Valid() && 0 < m < count < buf.Length
      modifies this`head, this`tail, this`contents, buf
      ensures Valid() && contents == Turned(old(contents), m)
    {
      ghost var s := contents;
      var k := m;
      while k > 0
        invariant 0 <= k <= m
        invariant Valid() && m < count < buf.Length && |s| == count
        invariant contents == Turned(s, m - k)
      {
        TurnedForward(s, m - k);
        StepForward();
        k := k - 1;
      }
    }

    method RotateFull(m: int)
      requires Valid() && 0 < count == buf.Length && m < count && 0 < m + count
      modifies this`head, this`tail, this`contents
      ensures Valid() && contents == Turned(old(contents), if m < 0 then m + count else m)
    {
      ghost var k := if m < 0 then m + count else m;
      ghost var b, turned, to := buf[..], Turned(contents, k), Slot(head, m, buf.Length);
      FullTurn(b, head, contents, m, k);
      head := And(head + m, buf.Length - 1);
      tail := head;
      contents := turned;
      HoldsSame(b, to, turned, buf[..], head, contents);
    }

    /** Rotation by any number of steps, without resizing. */
    method Rotate(n: int)
      requires Valid()
      modifies this`head, this`tail, this`contents, buf
      ensures Valid() && contents == Rotated(old(contents), n)
    {
      RotatedRem(contents, n);
      if count <= 1 {
        return;
      }
      var m := Rem(n, count);
      if m == 0 {
        return;
      }
      if head == tail {
        RotateFull(m);
      } else if m < 0 {
        RotateBackward(m);
      } else {
        RotateForward(m);
      }
    }

    // ---- the middle ----

    /** Exchanges the elements at index i and i + 1, which are in slots p and q. */
    method Exchange(p: int, q: int, ghost i: int)
      requires Valid() && 0 <= i < count - 1 && p == Slot(head, i, buf.Length) && q == Slot(head, i + 1, buf.Length)
      modifies this`contents, buf
      ensures Valid() && contents == Swapped(old(contents), i)
    {
      ghost var b := buf[..];
      assert HeldAt(b, head, contents, i) && HeldAt(b, head, contents, i + 1);
      HoldsWrite(b, head, contents, i, b[q]);
      HoldsWrite(b[p := b[q]], head, contents[i := b[q]], i + 1, b[p]);
      buf[p], buf[q] := buf[q], buf[p];
      assert buf[..] == b[p := b[q]][q := b[p]];
      contents := Swapped(contents, i);
    }

    method ExchangeUp(p: int, ghost s: seq<T>, ghost i: int, ghost j: int) returns (q: int)
      requires Valid() && 0 <= i <= j < |s| - 1 && contents == MovedUp(s, i, j) && |s| == count
      requires p == Slot(head, j, buf.Length)
      modifies this`contents, buf
      ensures Valid() && contents == MovedUp(s, i, j + 1) && q == Slot(head, j + 1, buf.Length)
    {
      MovedUpStep(s, i, j);
      q := Next(p);
      Exchange(p, q, j);
    }

    method ExchangeDown(p: int, q: int, ghost s: seq<T>, ghost i: int, ghost j: int)
      requires Valid() && 0 < j <= i < |s| && contents == MovedDown(s, i, j) && |s| == count
      requires p == Slot(head, j - 1, buf.Length) && q == Slot(head, j, buf.Length)
      modifies this`contents, buf
      ensures Valid() && contents == MovedDown(s, i, j - 1)
    {
      MovedDownStep(s, i, j);
      Exchange(p, q, j - 1);
    }

    /** Moves the element in a slot, at index i, up by some steps to index j. */
    method MoveUp(slot: int, steps: nat, ghost i: int, ghost j: int)
      requires Valid() && 0 <= i <= j < count && j == i + steps && slot == Slot(head, i, buf.Length)
      modifies this`contents, buf
      ensures Valid() && contents == MovedUp(old(contents), i, j)
    {
      ghost var s, now := contents, i;
      var at := slot;
      MovedNowhere(s, i);
      for k := 0 to steps
        invariant Valid() && |s| == count && i <= now <= j && now == i + k && at == Slot(head, now, buf.Length)
        invariant contents == MovedUp(s, i, now)
      {
        at := ExchangeUp(at, s, i, now);
        now := now + 1;
      }
      assert now == j;
    }

    method MoveDown(slot: int, steps: nat, ghost i: int)
      requires Valid() && 0 <= i - steps && i < count && slot == Slot(head, i, buf.Length)
      modifies this`contents, buf
      ensures Valid() && contents == MovedDown(old(contents), i, i - steps)
    {
      ghost var s := contents;
      ghost var j := i;
      var at := slot;
      MovedNowhere(s, i);
      for k := 0 to steps
        invariant Valid() && |s| == count && j == i - k && at == Slot(head, j, buf.Length)
        invariant contents == MovedDown(s, i, j)
      {
        var prev := Prev(at);
        ExchangeDown(prev, at, s, i, j);
        at, j := prev, j - 1;
      }
      assert j == i - steps;
    }

    method InsertFromFront(at: int, x: T)
      requires Valid() && 0 <= at <= |contents|
      modifies this, buf
      ensures Valid() && (buf == old(buf) || fresh(buf)) && contents == old(contents)[..at] + [x] + old(contents)[at..]
    {
      MovedEnds(contents, x, at);
      PushFront(x);
      MoveUp(head, at, 0, at);
    }

    method InsertFromBack(at: int, x: T)
      requires Valid() && 0 <= at <= |contents|
      modifies this, buf
      ensures Valid() && (buf == old(buf) || fresh(buf)) && contents == old(contents)[..at] + [x] + old(contents)[at..]
    {
      MovedEnds(contents, x, at);
      var swaps := count - at;
      PushBack(x);
      MoveDown(Prev(tail), swaps, count - 1);
    }

    method Insert(at: int, x: T) returns (ok: bool)
      requires Valid()
      modifies this, buf
      ensures Valid() && (buf == old(buf) || fresh(buf)) && ok == (0 <= at <= |old(contents)|)
      ensures contents == if ok then old(contents)[..at] + [x] + old(contents)[at..] else old(contents)
    {
      if at < 0 || at > count {
        return false;
      }
      if at * 2 < count {
        InsertFromFront(at, x);
      } else {
        InsertFromBack(at, x);
      }
      ok := true;
    }

    method Remove(at: int) returns (r: Option<T>)
      requires Valid()
      modifies this, buf
      ensures Valid() && (buf == old(buf) || fresh(buf))
      ensures var s := old(contents);
              if 0 <= at < |s| then r == Some(s[at]) && contents == s[..at] + s[at + 1..]
              else r == None && contents == s
    {
      if at < 0 || at >= count {
        return None;
      }
      MovedEnds(contents, zero, at);
      MaskSlot(head, at, buf.Length);
      var rm := And(head + at, buf.Length - 1);
      if at * 2 < count {
        MoveDown(rm, at, at);
        r := PopFront();
      } else {
        MoveUp(rm, count - at - 1, at, count - 1);
        r := PopBack();
      }
    }
  }
}
