/** The indexable skip list (util/algorithms/skip): nodes with a random number of
    forward links, a width on every link, and scratch arrays that are kept between
    operations. */
module SkipList {
  import opened Words
  import opened SkipTowers

  class Node<T> {
    var forward: seq<Node?<T>>
    var widths: seq<u64>
    var preNode: Node?<T>
    var entry: Option<T>

    constructor (entry: Option<T>, maxLevels: nat)
      ensures this.entry == entry && preNode == null
      ensures |forward| == |widths| == maxLevels
      ensures forall l :: 0 <= l < maxLevels ==> forward[l] == null && widths[l] == 0
    {
      this.entry := entry;
      preNode := null;
      forward := seq(maxLevels, _ => null);
      widths := seq(maxLevels, _ => 0);
    }
  }

  /** Every node has links and widths for as many levels as its height says. */
  ghost predicate Sized<T>(ns: seq<Node<T>>, hs: seq<nat>)
    reads ns`forward, ns`widths
  {
    && |ns| == |hs|
    && forall i :: 0 <= i < |ns| ==> |ns[i].forward| == |ns[i].widths| == hs[i]
  }

  /** A link on level l leads to the next node at least that high and its width is the
      distance; the width beside a nil link is unconstrained. */
  ghost predicate LinkOk<T>(ns: seq<Node<T>>, hs: seq<nat>, i: nat, l: nat)
    requires |ns| == |hs| && i < |ns|
    reads ns`forward, ns`widths
  {
    var j := Nxt(hs, i, l);
    && l < |ns[i].forward| == |ns[i].widths|
    && ns[i].forward[l] == (if j < |ns| then ns[j] else null)
    && (j < |ns| ==> ns[i].widths[l] == j - i)
  }

  ghost predicate Links<T>(ns: seq<Node<T>>, hs: seq<nat>)
    reads ns`forward, ns`widths
  {
    && Sized(ns, hs)
    && forall i, l {:trigger LinkOk(ns, hs, i, l)} :: 0 <= i < |ns| && 0 <= l < hs[i] ==> LinkOk(ns, hs, i, l)
  }

  /** Halfway through a splice at p: on the first `done` levels the link of q[l] leads to the
      new node nn (of height h) or, above it, has grown by one. */
  ghost predicate SplicedAt<T>(ns: seq<Node<T>>, hs: seq<nat>, q: seq<nat>, p: nat, nn: Node<T>, h: nat, done: nat,
                               i: nat, l: nat)
    requires |ns| == |hs| && i < |ns|
    reads ns`forward, ns`widths
  {
    if l < done && l < |q| && q[l] == i then
      var j := Nxt(hs, i, l);
      && l < |ns[i].forward| == |ns[i].widths|
      && (l < h ==> ns[i].forward[l] == nn && ns[i].widths[l] == p - i)
      && (l >= h ==> ns[i].forward[l] == (if j < |ns| then ns[j] else null))
      && (l >= h && j < |ns| ==> ns[i].widths[l] == j - i + 1)
    else
      LinkOk(ns, hs, i, l)
  }

  ghost predicate Spliced<T>(ns: seq<Node<T>>, hs: seq<nat>, q: seq<nat>, p: nat, nn: Node<T>, h: nat, done: nat)
    reads ns`forward, ns`widths
  {
    && Sized(ns, hs)
    && forall i, l {:trigger SplicedAt(ns, hs, q, p, nn, h, done, i, l)} :: 0 <= i < |ns| && 0 <= l < hs[i] ==>
         SplicedAt(ns, hs, q, p, nn, h, done, i, l)
  }

  /** Link l of the new node: the former link of q[l]. */
  ghost predicate NewLink<T>(ns: seq<Node<T>>, hs: seq<nat>, q: seq<nat>, p: nat, nn: Node<T>, l: nat)
    requires |ns| == |hs| && l < |q| && q[l] < |ns|
    reads nn`forward, nn`widths
  {
    var j := Nxt(hs, q[l], l);
    && l < |nn.forward| == |nn.widths|
    && nn.forward[l] == (if j < |ns| then ns[j] else null)
    && (j < |ns| ==> nn.widths[l] == j + 1 - p)
  }

  ghost predicate NewLinks<T>(ns: seq<Node<T>>, hs: seq<nat>, q: seq<nat>, p: nat, nn: Node<T>, done: nat)
    reads nn`forward, nn`widths
  {
    && |ns| == |hs| && done <= |q| && AllPreds(hs, p, q)
    && forall l {:trigger NewLink(ns, hs, q, p, nn, l)} :: 0 <= l < done ==> NewLink(ns, hs, q, p, nn, l)
  }

  /** Splicing a node in keeps every link and every width right. */
  lemma InsertedLinks<T>(ns: seq<Node<T>>, hs: seq<nat>, q: seq<nat>, p: nat, nn: Node<T>, h: nat)
    requires 0 < p <= |ns| && h == |nn.forward| == |nn.widths| <= |q|
    requires Spliced(ns, hs, q, p, nn, h, |q|) && NewLinks(ns, hs, q, p, nn, h)
    ensures Links(Inserted(ns, p, nn), Inserted(hs, p, h))
  {
    var ns', hs' := Inserted(ns, p, nn), Inserted(hs, p, h);
    assert Sized(ns', hs');
    forall i, l | 0 <= i < |ns'| && 0 <= l < hs'[i]
      ensures LinkOk(ns', hs', i, l)
    {
      NxtInserted(hs, p, h, i, l);
      if i < p {
        assert SplicedAt(ns, hs, q, p, nn, h, |q|, i, l);
        if Nxt(hs, i, l) >= p && l < |q| { PredUnique(hs, p, l, q[l], i); }
      } else if i == p {
        assert NewLink(ns, hs, q, p, nn, l);
        NxtOver(hs, q[l], p - 1, l);
      } else {
        assert SplicedAt(ns, hs, q, p, nn, h, |q|, i - 1, l);
      }
    }
  }

  /** Halfway through unlinking node p: on the first `done` levels the link of q[l] has been
      taken over from node p or, above it, has shrunk by one. */
  ghost predicate UnlinkedAt<T>(ns: seq<Node<T>>, hs: seq<nat>, q: seq<nat>, p: nat, done: nat, i: nat, l: nat)
    requires |ns| == |hs| && i < |ns| && p < |hs|
    reads ns`forward, ns`widths
  {
    if l < done && l < |q| && q[l] == i then
      var j := if l < hs[p] then Nxt(hs, p, l) else Nxt(hs, i, l);
      && l < |ns[i].forward| == |ns[i].widths|
      && ns[i].forward[l] == (if j < |ns| then ns[j] else null)
      && (j < |ns| ==> ns[i].widths[l] == j - i - 1)
    else
      LinkOk(ns, hs, i, l)
  }

  ghost predicate Unlinked<T>(ns: seq<Node<T>>, hs: seq<nat>, q: seq<nat>, p: nat, done: nat)
    reads ns`forward, ns`widths
  {
    && Sized(ns, hs) && p < |hs|
    && forall i, l {:trigger UnlinkedAt(ns, hs, q, p, done, i, l)} :: 0 <= i < |ns| && 0 <= l < hs[i] ==>
         UnlinkedAt(ns, hs, q, p, done, i, l)
  }

  /** Unlinking a node keeps every link and every width right. */
  lemma RemovedLinks<T>(ns: seq<Node<T>>, hs: seq<nat>, q: seq<nat>, p: nat)
    requires 0 < p < |ns| && Unlinked(ns, hs, q, p, |q|) && AllPreds(hs, p, q)
    ensures Links(Removed(ns, p), Removed(hs, p))
  {
    var ns', hs' := Removed(ns, p), Removed(hs, p);
    assert Sized(ns', hs');
    forall i, l | 0 <= i < |ns'| && 0 <= l < hs'[i]
      ensures LinkOk(ns', hs', i, l)
    {
      NxtRemoved(hs, p, i, l);
      if i < p {
        assert UnlinkedAt(ns, hs, q, p, |q|, i, l);
        var j := Nxt(hs, i, l);
        if j >= p && l < |q| {
          PredUnique(hs, p, l, q[l], i);
          if l < hs[p] { NxtUnique(hs, i, l, p); }
        }
      } else {
        assert UnlinkedAt(ns, hs, q, p, |q|, i + 1, l);
      }
    }
  }

  /** Halfway through a cut: on the first `done` levels the link of q[l] is nil. */
  ghost predicate SeveredAt<T>(ns: seq<Node<T>>, hs: seq<nat>, q: seq<nat>, done: nat, i: nat, l: nat)
    requires |ns| == |hs| && i < |ns|
    reads ns`forward, ns`widths
  {
    if l < done && l < |q| && q[l] == i then
      l < |ns[i].forward| == |ns[i].widths| && ns[i].forward[l] == null
    else
      LinkOk(ns, hs, i, l)
  }

  ghost predicate Severed<T>(ns: seq<Node<T>>, hs: seq<nat>, q: seq<nat>, p: nat, done: nat)
    reads ns`forward, ns`widths
  {
    && Sized(ns, hs) && p < |hs| && AllPreds(hs, p, q)
    && forall i, l {:trigger SeveredAt(ns, hs, q, done, i, l)} :: 0 <= i < |ns| && 0 <= l < hs[i] ==>
         SeveredAt(ns, hs, q, done, i, l)
  }

  /** Link l of the right half's head, which stands at position `index` of the old list. */
  ghost predicate RightLink<T>(ns: seq<Node<T>>, hs: seq<nat>, q: seq<nat>, index: nat, rh: Node<T>, l: nat)
    requires |ns| == |hs| && l < |q| && q[l] < |ns|
    reads rh`forward, rh`widths
  {
    var j := Nxt(hs, q[l], l);
    && l < |rh.forward| == |rh.widths|
    && rh.forward[l] == (if j < |ns| then ns[j] else null)
    && (j < |ns| ==> rh.widths[l] == j - index)
  }

  ghost predicate RightLinks<T>(ns: seq<Node<T>>, hs: seq<nat>, q: seq<nat>, index: nat, rh: Node<T>, done: nat)
    reads rh`forward, rh`widths
  {
    && |ns| == |hs| && done <= |q| && AllPreds(hs, index + 1, q)
    && forall l {:trigger RightLink(ns, hs, q, index, rh, l)} :: 0 <= l < done ==> RightLink(ns, hs, q, index, rh, l)
  }

  /** The left part of a cut list is linked on its own. */
  lemma LeftLinks<T>(ns: seq<Node<T>>, hs: seq<nat>, q: seq<nat>, p: nat)
    requires 0 < p < |ns| && Severed(ns, hs, q, p, |q|)
    ensures Links(ns[..p], hs[..p])
  {
    assert Sized(ns[..p], hs[..p]);
    forall i, l | 0 <= i < p && 0 <= l < hs[i] ensures LinkOk(ns[..p], hs[..p], i, l) {
      NxtTake(hs, p, i, l);
      assert SeveredAt(ns, hs, q, |q|, i, l);
      if Nxt(hs, i, l) >= p && l < |q| { PredUnique(hs, p, l, q[l], i); }
    }
  }

  /** The right part of a cut list is linked behind its new head. */
  lemma RightPartLinks<T>(ns: seq<Node<T>>, hs: seq<nat>, q: seq<nat>, index: nat, rh: Node<T>, h: nat)
    requires index + 1 < |ns| && Severed(ns, hs, q, index + 1, |q|)
    requires RightLinks(ns, hs, q, index, rh, |q|) && |rh.forward| == |rh.widths| == h
    requires forall l :: |q| <= l < h ==> rh.forward[l] == null
    ensures Links([rh] + ns[index + 1..], [h] + hs[index + 1..])
  {
    var ns', hs' := [rh] + ns[index + 1..], [h] + hs[index + 1..];
    assert Sized(ns', hs') by {
      forall i | 0 <= i < |ns'| ensures |ns'[i].forward| == |ns'[i].widths| == hs'[i] {
        if i > 0 { assert ns'[i] == ns[index + i] && hs'[i] == hs[index + i]; }
      }
    }
    forall i, l | 0 <= i < |ns'| && 0 <= l < hs'[i] ensures LinkOk(ns', hs', i, l) {
      NxtDrop(hs, index, h, i, l);
      if i > 0 {
        assert SeveredAt(ns, hs, q, |q|, index + i, l);
        assert l < |q| ==> Pred(hs, index + 1, l, q[l]);
      } else if l < |q| {
        assert RightLink(ns, hs, q, index, rh, l) && Pred(hs, index + 1, l, q[l]);
        NxtOver(hs, q[l], index, l);
      }
    }
  }

  ghost function Pos<T>(ns: seq<Node<T>>, n: Node<T>): int {
    if n in ns then var i :| 0 <= i < |ns| && ns[i] == n; i else -1
  }

  /** No node occurs twice, stated through an inverse so that the solver can use it cheaply. */
  ghost predicate Distinct<T>(ns: seq<Node<T>>) {
    forall i {:trigger ns[i]} :: 0 <= i < |ns| ==> Pos(ns, ns[i]) == i
  }

  lemma DistinctPairs<T>(ns: seq<Node<T>>)
    ensures Distinct(ns) <==> forall i, j :: 0 <= i < j < |ns| ==> ns[i] != ns[j]
  {
  }

  ghost predicate Holds<T>(ns: seq<Node<T>>, s: seq<T>)
    reads ns`entry
  {
    && |ns| == |s| + 1 && ns[0].entry == None
    && forall i :: 0 < i < |ns| ==> ns[i].entry == Some(s[i - 1])
  }

  /** preNode inverts the level-0 links. */
  ghost predicate BackLinks<T>(ns: seq<Node<T>>)
    reads ns`preNode
  {
    && |ns| > 0 && ns[0].preNode == null
    && forall i {:trigger ns[i].preNode} :: 0 < i < |ns| ==> ns[i].preNode == ns[i - 1]
  }

  lemma InsertedDistinct<T>(ns: seq<Node<T>>, p: nat, nn: Node<T>)
    requires Distinct(ns) && p <= |ns| && nn !in ns
    ensures Distinct(Inserted(ns, p, nn))
  {
    DistinctPairs(ns);
    DistinctPairs(Inserted(ns, p, nn));
  }

  lemma RemovedDistinct<T>(ns: seq<Node<T>>, p: nat)
    requires Distinct(ns) && p < |ns|
    ensures Distinct(Removed(ns, p))
  {
    DistinctPairs(ns);
    DistinctPairs(Removed(ns, p));
  }

  lemma DividedNodes<T>(ns: seq<Node<T>>, s: seq<T>, p: nat, rh: Node<T>)
    requires Distinct(ns) && Holds(ns, s) && 0 < p < |ns| && rh !in ns && rh.entry == None
    ensures Distinct(ns[..p]) && Distinct([rh] + ns[p..])
    ensures Holds(ns[..p], s[..p - 1]) && Holds([rh] + ns[p..], s[p - 1..])
    ensures (set x | x in ns[..p]) !! (set x | x in [rh] + ns[p..])
  {
    DistinctPairs(ns);
    DistinctPairs(ns[..p]);
    var r := [rh] + ns[p..];
    assert forall i :: 0 < i < |r| ==> r[i] == ns[p + i - 1];
    DistinctPairs(r);
  }

  lemma InsertedHolds<T>(ns: seq<Node<T>>, s: seq<T>, p: nat, nn: Node<T>, c: T)
    requires Holds(ns, s) && 0 < p <= |ns| && nn.entry == Some(c)
    ensures Holds(Inserted(ns, p, nn), Inserted(s, p - 1, c))
  {
  }

  lemma RemovedHolds<T>(ns: seq<Node<T>>, s: seq<T>, p: nat)
    requires Holds(ns, s) && 0 < p < |ns|
    ensures Holds(Removed(ns, p), Removed(s, p - 1))
  {
  }

  lemma RemovedBackLinks<T>(ns: seq<Node<T>>, p: nat)
    requires 0 < p < |ns| && ns[0].preNode == null
    requires forall i {:trigger ns[i].preNode} :: 0 < i < |ns| && i != p ==>
      ns[i].preNode == if i == p + 1 then ns[p - 1] else ns[i - 1]
    ensures BackLinks(Removed(ns, p))
  {
  }

  lemma InsertedBackLinks<T>(ns: seq<Node<T>>, p: nat, nn: Node<T>)
    requires 0 < p <= |ns| && ns[0].preNode == null
    requires forall i {:trigger ns[i].preNode} :: 0 < i < |ns| ==> ns[i].preNode == if i == p then nn else ns[i - 1]
    requires nn.preNode == ns[p - 1]
    ensures BackLinks(Inserted(ns, p, nn))
  {
  }

  /** The first |q| scratch entries are the nodes at positions q. */
  ghost predicate Cached<T>(cache: seq<Node?<T>>, posCache: seq<u64>, ns: seq<Node<T>>, q: seq<nat>) {
    && |q| <= |cache| == |posCache|
    && forall l :: 0 <= l < |q| ==> q[l] < |ns| && cache[l] == ns[q[l]] && posCache[l] == q[l]
  }

  /** Entries below c come first: what a search for c relies on. */
  ghost predicate Cut<T>(cmp: (T, T) -> int, s: seq<T>, c: T) {
    forall i, j :: 0 <= i < j < |s| && cmp(s[j], c) < 0 ==> cmp(s[i], c) < 0
  }

  ghost predicate IsBelow<T>(cmp: (T, T) -> int, s: seq<T>, c: T, k: nat) {
    && k <= |s|
    && (forall i :: 0 <= i < k ==> cmp(s[i], c) < 0)
    && (k < |s| ==> cmp(s[k], c) >= 0)
  }

  lemma BelowExists<T>(cmp: (T, T) -> int, s: seq<T>, c: T)
    ensures exists k: nat :: IsBelow(cmp, s, c, k)
  {
    var k := 0;
    while k < |s| && cmp(s[k], c) < 0
      invariant k <= |s| && forall i :: 0 <= i < k ==> cmp(s[i], c) < 0
    {
      k := k + 1;
    }
    assert IsBelow(cmp, s, c, k);
  }

  /** The number of leading entries below c. */
  ghost function Below<T>(cmp: (T, T) -> int, s: seq<T>, c: T): (k: nat)
    ensures IsBelow(cmp, s, c, k)
  {
    BelowExists(cmp, s, c);
    var k: nat :| IsBelow(cmp, s, c, k);
    k
  }

  class SkipList<T> {
    const cmp: (T, T) -> int
    const maxLevel: nat
    const head: Node<T>
    var level: nat
    var num: u64
    var cache: seq<Node?<T>>
    var posCache: seq<u64>

    ghost var nodes: seq<Node<T>>      // the head, then the nodes in list order
    ghost var hs: seq<nat>             // their heights
    ghost var contents: seq<T>         // the entries of nodes[1..]
    ghost var repr: set<Node<T>>       // every node this list may write to

    ghost predicate Owned()
      reads this
    {
      forall i {:trigger nodes[i]} :: 0 <= i < |nodes| ==> nodes[i] in repr
    }

    /** Links, widths and entries; everything but the scratch arrays. */
    ghost predicate Structured()
      reads this, repr
    {
      && |nodes| == num + 1
      && nodes[0] == head && Distinct(nodes) && Owned()
      && Links(nodes, hs) && Holds(nodes, contents)
      && level < maxLevel == hs[0]
      && (forall i :: 0 < i < |nodes| ==> 1 <= hs[i] <= level)
    }

    /** What later operations rely on in the reused scratch arrays. */
    ghost predicate Scratch()
      reads this
    {
      && |cache| == |posCache| == maxLevel && level < maxLevel
      && (forall l :: level <= l < maxLevel ==> posCache[l] == 0)
      && (num == 0 ==> level == 0 || (level == 1 && cache[0] == head && posCache[0] == 0))
    }

    ghost predicate Valid()
      reads this, repr
    {
      && Structured() && Scratch()
      && (level > 1 ==> Nxt(hs, 0, level - 1) < |hs|)
    }

    /** Node n at position w is the last one before gap k+1 that is higher than level l. */
    ghost predicate PredAt(n: Node?<T>, w: u64, l: nat, k: nat)
      reads this
    {
      Pred(hs, k + 1, l, w) && w < |nodes| && n == nodes[w]
    }

    ghost predicate Preds(u: seq<Node?<T>>, ws: seq<u64>, k: nat)
      reads this
    {
      && |u| == |ws| == maxLevel && level < maxLevel
      && (forall l :: 0 <= l < level ==> PredAt(u[l], ws[l], l, k))
      && (forall l :: level <= l < maxLevel ==> ws[l] == 0)
      && (num > 0 ==> u[level] == head)
    }

    /** Preds for the top i levels, the ones a search has been through. */
    ghost predicate Partial(u: seq<Node?<T>>, ws: seq<u64>, i: nat, k: nat)
      reads this
    {
      && |u| == |ws| == maxLevel && i <= level + 1 <= maxLevel
      && (forall l :: level - i < l < level ==> PredAt(u[l], ws[l], l, k))
      && (forall l :: level <= l < maxLevel ==> ws[l] == 0)
      && (i > 0 ==> u[level] == head)
    }

    /** `init`: maxLevel is 8, 16, 32 or 64 by the width of the type parameter. */
    constructor (cmp: (T, T) -> int, maxLevel: nat)
      requires maxLevel in {8, 16, 32, 64}
      ensures Valid() && BackLinks(nodes) && contents == [] && this.cmp == cmp && this.maxLevel == maxLevel
      ensures fresh(repr)
    {
      var h := new Node<T>(None, maxLevel);
      this.cmp := cmp;
      this.maxLevel := maxLevel;
      head := h;
      level := 0;
      num := 0;
      cache := seq(maxLevel, _ => null);
      posCache := seq(maxLevel, _ => 0);
      nodes := [h];
      repr := {h};
      hs := [maxLevel];
      contents := [];
    }

    /** What the next link of a node says about c. */
    lemma NextBelow(c: T, i: nat, l: nat)
      requires Structured() && Cut(cmp, contents, c) && i < |nodes| && l < hs[i]
      ensures |nodes[i].forward| == |nodes[i].widths| == hs[i]
      ensures nodes[i].forward[l] == if Nxt(hs, i, l) < |nodes| then nodes[Nxt(hs, i, l)] else null
      ensures var f := nodes[i].forward[l]; f != null ==>
        && f != nodes[i] && f.entry.Some? && nodes[i].widths[l] == Nxt(hs, i, l) - i
        && (cmp(f.entry.value, c) < 0 <==> Nxt(hs, i, l) <= Below(cmp, contents, c))
    {
      assert LinkOk(nodes, hs, i, l);
    }

    /** The walk along one level of `search`: stop before the first node not below c. */
    method WalkBelow(c: T, n0: Node<T>, pos0: u64, offset: nat, alreadyChecked: Node?<T>)
      returns (n: Node<T>, pos: u64)
      requires Structured() && Cut(cmp, contents, c)
      requires pos0 <= Below(cmp, contents, c) && n0 == nodes[pos0] && hs[pos0] > offset
      requires alreadyChecked == null || alreadyChecked == n0
      ensures pos0 <= pos && PredAt(n, pos, offset, Below(cmp, contents, c))
    {
      n, pos := n0, pos0;
      ghost var k := Below(cmp, contents, c);
      NextBelow(c, pos, offset);
      while n.forward[offset] != null && n.forward[offset] != alreadyChecked
            && cmp(n.forward[offset].entry.value, c) < 0
        invariant pos0 <= pos <= k && n == nodes[pos] && hs[pos] > offset && offset < |n.forward| == |n.widths|
        invariant var j := Nxt(hs, pos, offset); n.forward[offset] == if j < |nodes| then nodes[j] else null
        invariant n.forward[offset] != null ==>
          && n.forward[offset] != alreadyChecked && n.forward[offset].entry.Some?
          && n.widths[offset] == Nxt(hs, pos, offset) - pos
          && (cmp(n.forward[offset].entry.value, c) < 0 <==> Nxt(hs, pos, offset) <= k)
        decreases k - pos
      {
        pos := pos + n.widths[offset];
        n := n.forward[offset];
        NextBelow(c, pos, offset);
      }
    }

    /** On level 0, where every node is linked, the predecessor of gap k+1 is at k. */
    lemma Ground(n: Node<T>, w: u64, k: nat)
      requires Structured() && PredAt(n, w, 0, k)
      ensures w == k && |n.forward| > 0 && n.forward[0] == if k < num then nodes[k + 1] else null
    {
      assert LinkOk(nodes, hs, w, 0);
      if w + 1 < |hs| { assert hs[w + 1] >= 1; }
    }

    lemma PartialStep(u: seq<Node?<T>>, ws: seq<u64>, i: nat, k: nat, n: Node<T>, w: u64)
      requires Structured() && i <= level && Partial(u, ws, i, k) && PredAt(n, w, level - i, k)
      ensures Partial(u[level - i := n], ws[level - i := w], i + 1, k)
    {
      assert i == 0 ==> w == 0;
    }

    lemma PartialDone(u: seq<Node?<T>>, ws: seq<u64>, k: nat)
      requires Partial(u, ws, level + 1, k)
      ensures Preds(u, ws, k)
    {
    }

    lemma EmptyPreds()
      requires Structured() && Scratch() && num == 0
      ensures Preds(cache, posCache, 0)
    {
    }

    /** `search`: update and ws are the caller's scratch arrays, or [] for none. */
    method Search(c: T, update: seq<Node?<T>>, ws: seq<u64>)
      returns (n: Node?<T>, at: u64, update': seq<Node?<T>>, ws': seq<u64>)
      requires Structured() && Scratch() && Cut(cmp, contents, c) && num + 1 < TWO64
      requires update == [] || (update == cache && ws == posCache)
      ensures var k := Below(cmp, contents, c);
        && at == k + 1
        && n == (if k < num then nodes[k + 1] else null)
        && (update != [] ==> Preds(update', ws', k))
    {
      if num == 0 {
        EmptyPreds();
        return null, 1, update, ws;
      }
      n, at, update', ws' := Descend(c, update, ws);
    }

    /** `search` in a list that has entries, level by level. */
    method Descend(c: T, update: seq<Node?<T>>, ws: seq<u64>)
      returns (n: Node?<T>, at: u64, update': seq<Node?<T>>, ws': seq<u64>)
      requires Structured() && Scratch() && Cut(cmp, contents, c) && num + 1 < TWO64 && num > 0
      requires update == [] || (update == cache && ws == posCache)
      ensures var k := Below(cmp, contents, c);
        && at == k + 1
        && n == (if k < num then nodes[k + 1] else null)
        && (update != [] ==> Preds(update', ws', k))
    {
      update', ws' := update, ws;
      ghost var k := Below(cmp, contents, c);
      var pos: u64 := 0;
      var alreadyChecked: Node?<T> := null;
      n := head;
      var i := 0;
      while i <= level
        invariant 0 <= i <= level + 1 && Structured() && Scratch() && Cut(cmp, contents, c)
        invariant if i == 0 then n == head && pos == 0 else PredAt(n, pos, level - i + 1, k)
        invariant alreadyChecked == null || alreadyChecked == n
        invariant update != [] ==> Partial(update', ws', i, k)
      {
        var offset := level - i;
        n, pos := WalkBelow(c, n, pos, offset, alreadyChecked);
        alreadyChecked := n;
        if update != [] {
          PartialStep(update', ws', i, k, n, pos);
          update' := update'[offset := n];
          ws' := ws'[offset := pos];
        }
        i := i + 1;
      }
      if update != [] { PartialDone(update', ws', k); }
      Ground(n, pos, k);
      return n.forward[0], pos + 1, update', ws';
    }

    lemma PredsScratch(u: seq<Node?<T>>, ws: seq<u64>, k: nat)
      requires Structured() && Scratch() && Preds(u, ws, k) && k <= num
      ensures num == 0 ==> level == 0 || (level == 1 && u[0] == head && ws[0] == 0)
    {
      if num == 0 && level == 1 { assert PredAt(u[0], ws[0], 0, k); }
    }

    /** `search` into the list's own scratch arrays. */
    method Locate(c: T) returns (n: Node?<T>, at: u64)
      requires Valid() && Cut(cmp, contents, c) && num + 1 < TWO64
      modifies `cache, `posCache
      ensures Valid() && Preds(cache, posCache, Below(cmp, contents, c))
      ensures at == Below(cmp, contents, c) + 1 && n == if at <= num then nodes[at] else null
      ensures n != null ==> n.entry == Some(contents[at - 1])
    {
      var u, ws;
      n, at, u, ws := Search(c, cache, posCache);
      PredsScratch(u, ws, at - 1);
      cache, posCache := u, ws;
    }

    /** The walk along one level of `searchByPosition`. */
    method WalkTo(position: u64, n0: Node<T>, pos0: u64, offset: nat) returns (n: Node<T>, pos: u64)
      requires Structured() && pos0 <= position <= num && n0 == nodes[pos0] && hs[pos0] > offset
      ensures pos0 <= pos && PredAt(n, pos, offset, position)
    {
      n, pos := n0, pos0;
      assert LinkOk(nodes, hs, pos, offset);
      while n.forward[offset] != null && pos + n.widths[offset] <= position
        invariant pos0 <= pos <= position && n == nodes[pos] && hs[pos] > offset && offset < |n.forward| == |n.widths|
        invariant LinkOk(nodes, hs, pos, offset)
        decreases position - pos
      {
        pos := pos + n.widths[offset];
        n := n.forward[offset];
        assert LinkOk(nodes, hs, pos, offset);
      }
    }

    /** `searchByPosition`: positions count the head as 0. */
    method SearchByPosition(position: u64, update: seq<Node?<T>>, ws: seq<u64>)
      returns (n: Node?<T>, at: u64, update': seq<Node?<T>>, ws': seq<u64>)
      requires Structured() && Scratch() && num + 1 < TWO64
      requires update == [] || (update == cache && ws == posCache)
      ensures n == if 0 < num && position <= num then nodes[position] else null
      ensures position <= num ==> at == position + 1
      ensures position <= num && update != [] ==> Preds(update', ws', position)
    {
      update', ws' := update, ws;
      if num == 0 {
        EmptyPreds();
        return null, 1, update', ws';
      }
      if position > num {
        return null, 1, update', ws';
      }
      var pos: u64 := 0;
      n := head;
      var i := 0;
      while i <= level
        invariant 0 <= i <= level + 1
        invariant if i == 0 then n == head && pos == 0 else PredAt(n, pos, level - i + 1, position)
        invariant update != [] ==> Partial(update', ws', i, position)
      {
        var offset := level - i;
        n, pos := WalkTo(position, n, pos, offset);
        if update != [] {
          PartialStep(update', ws', i, position, n, pos);
          update' := update'[offset := n];
          ws' := ws'[offset := pos];
        }
        i := i + 1;
      }
      if update != [] { PartialDone(update', ws', position); }
      Ground(n, pos, position);
      return n, pos + 1, update', ws';
    }

    // ---- insertNode ----

    /** Grow the list to `height` levels; the new levels are cached at the head. */
    method Raise(height: nat, ghost k: nat) returns (ghost q: seq<nat>)
      requires Structured() && Preds(cache, posCache, k) && k <= num && 1 <= height < maxLevel
      modifies `level, `cache
      ensures level == if height > old(level) then height else old(level)
      ensures |q| == level && Cached(cache, posCache, nodes, q) && AllPreds(hs, k + 1, q)
      ensures |cache| == old(|cache|)
    {
      ghost var was := level;
      ghost var oldCache := cache;
      if height > level {
        var i := level;
        while i < height
          invariant was <= i <= height && level == was && |cache| == maxLevel
          invariant forall l :: 0 <= l < was ==> cache[l] == oldCache[l]
          invariant forall l :: was <= l < i ==> cache[l] == head
        {
          cache := cache[i := head];
          i := i + 1;
        }
        level := height;
      }
      q := posCache[..level];
      forall l | 0 <= l < level ensures Pred(hs, k + 1, l, q[l]) && cache[l] == nodes[q[l]] {
        if l < was { assert PredAt(oldCache[l], posCache[l], l, k); }
      }
    }

    /** What the two loops of `insertNode` start from. */
    ghost predicate Insertable(pos: u64, q: seq<nat>)
      reads this
    {
      && Distinct(nodes) && Owned() && |nodes| == |hs|
      && 0 < pos <= |nodes| < TWO64 && AllPreds(hs, pos, q) && Cached(cache, posCache, nodes, q)
    }

    lemma CacheOwned(q: seq<nat>, l: nat)
      requires Owned() && Cached(cache, posCache, nodes, q) && l < |q|
      ensures cache[l] != null && cache[l] in repr
    {
    }

    /** One round of the splice loop: the new node takes over the cached node's link. */
    method TakeOver(c: Node<T>, nn: Node<T>, i: nat, pos: u64)
      requires c != nn && i < |c.forward| == |c.widths| && i < |nn.forward| == |nn.widths| && i < |posCache|
      requires posCache[i] < pos
      modifies nn`forward, nn`widths, c`forward, c`widths
      ensures c.forward == old(c.forward)[i := nn] && c.widths == old(c.widths)[i := pos - posCache[i]]
      ensures nn.forward == old(nn.forward)[i := old(c.forward[i])]
      ensures nn.widths ==
              old(nn.widths)[i := if old(c.widths[i]) == 0 then 0 else Wrap(posCache[i] + old(c.widths[i]) + 1 - pos)]
    {
      nn.forward := nn.forward[i := c.forward[i]];
      c.forward := c.forward[i := nn];
      var formerWidth := c.widths[i];
      if formerWidth == 0 {
        nn.widths := nn.widths[i := 0];
      } else {
        nn.widths := nn.widths[i := Wrap(posCache[i] + formerWidth + 1 - pos)];
      }
      if c.forward[i] != null {
        c.widths := c.widths[i := pos - posCache[i]];
      }
    }

    method SpliceCached(c: Node<T>, nn: Node<T>, h: nat, pos: u64, i: nat, ghost q: seq<nat>)
      requires Insertable(pos, q) && nn !in repr && i < h == |nn.forward| == |nn.widths| <= |q| && c == cache[i]
      requires Spliced(nodes, hs, q, pos, nn, h, i)
      modifies nn`forward, nn`widths, c`forward, c`widths
      ensures c == nodes[q[i]] && SplicedAt(nodes, hs, q, pos, nn, h, i + 1, q[i], i)
              && NewLink(nodes, hs, q, pos, nn, i)
      ensures nn.forward == old(nn.forward)[i := nn.forward[i]] && nn.widths == old(nn.widths)[i := nn.widths[i]]
      ensures |c.forward| == |old(c.forward)| && |c.widths| == |old(c.widths)|
      ensures forall l :: 0 <= l < |c.forward| && l != i ==> c.forward[l] == old(c.forward[l])
      ensures forall l :: 0 <= l < |c.widths| && l != i ==> c.widths[l] == old(c.widths[l])
    {
      assert SplicedAt(nodes, hs, q, pos, nn, h, i, q[i], i);
      TakeOver(c, nn, i, pos);
    }

    method SpliceOne(c: Node<T>, nn: Node<T>, h: nat, pos: u64, i: nat, ghost q: seq<nat>)
      requires Insertable(pos, q) && nn !in repr && i < h == |nn.forward| == |nn.widths| <= |q| && c == cache[i]
      requires Spliced(nodes, hs, q, pos, nn, h, i)
      modifies nn`forward, nn`widths, c`forward, c`widths
      ensures Spliced(nodes, hs, q, pos, nn, h, i + 1) && NewLink(nodes, hs, q, pos, nn, i)
      ensures nn.forward == old(nn.forward)[i := nn.forward[i]] && nn.widths == old(nn.widths)[i := nn.widths[i]]
    {
      SpliceCached(c, nn, h, pos, i, q);
      ghost var d, b := i + 1, q[i];
      forall a, l | 0 <= a < |nodes| && 0 <= l < hs[a] ensures SplicedAt(nodes, hs, q, pos, nn, h, d, a, l) {
        if a != b || l != i {
          assert old(SplicedAt(nodes, hs, q, pos, nn, h, i, a, l));
        }
      }
    }

    method SpliceLevel(c: Node<T>, nn: Node<T>, h: nat, pos: u64, i: nat, ghost q: seq<nat>)
      requires Insertable(pos, q) && nn !in repr && i < h == |nn.forward| == |nn.widths| <= |q| && c == cache[i]
      requires Spliced(nodes, hs, q, pos, nn, h, i) && NewLinks(nodes, hs, q, pos, nn, i)
      modifies nn`forward, nn`widths, c`forward, c`widths
      ensures Spliced(nodes, hs, q, pos, nn, h, i + 1) && NewLinks(nodes, hs, q, pos, nn, i + 1)
      ensures |nn.forward| == |nn.widths| == h
    {
      SpliceOne(c, nn, h, pos, i, q);
      forall l | 0 <= l < i + 1 ensures NewLink(nodes, hs, q, pos, nn, l) {
        if l < i { assert old(NewLink(nodes, hs, q, pos, nn, l)); }
      }
    }

    /** Levels above the new node: a non-nil link over it grows by one. */
    method GrowLevel(c: Node<T>, h: nat, pos: u64, i: nat, ghost nn: Node<T>, ghost q: seq<nat>)
      requires Insertable(pos, q) && h <= i < |q| && c == cache[i]
      requires Spliced(nodes, hs, q, pos, nn, h, i)
      modifies c`widths
      ensures Spliced(nodes, hs, q, pos, nn, h, i + 1)
    {
      assert SplicedAt(nodes, hs, q, pos, nn, h, i, q[i], i);
      if c.forward[i] != null {
        c.widths := c.widths[i := c.widths[i] + 1];
      }
      ghost var d := i + 1;
      forall a, l | 0 <= a < |nodes| && 0 <= l < hs[a] ensures SplicedAt(nodes, hs, q, pos, nn, h, d, a, l) {
        assert old(SplicedAt(nodes, hs, q, pos, nn, h, i, a, l));
      }
    }

    method GrowLevels(h: nat, pos: u64, ghost nn: Node<T>, ghost q: seq<nat>)
      requires Insertable(pos, q) && h <= |q| == level
      requires Spliced(nodes, hs, q, pos, nn, h, h)
      modifies repr`widths
      ensures Spliced(nodes, hs, q, pos, nn, h, |q|)
    {
      var i := h;
      while i < level
        invariant h <= i <= level && Spliced(nodes, hs, q, pos, nn, h, i)
      {
        CacheOwned(q, i);
        GrowLevel(cache[i], h, pos, i, nn, q);
        i := i + 1;
      }
    }

    /** The back links of the new node and of its level-0 successor. */
    method LinkBack(c: Node<T>, nn: Node<T>, pos: u64)
      requires Distinct(nodes) && Owned() && 0 < pos <= |nodes| && nn !in repr && c == nodes[pos - 1]
      requires |c.forward| > 0 && c.forward[0] == if pos < |nodes| then nodes[pos] else null
      modifies nn`preNode, repr`preNode
      ensures old(BackLinks(nodes)) ==> BackLinks(Inserted(nodes, pos, nn))
    {
      nn.preNode := c;
      if c.forward[0] != null {
        c.forward[0].preNode := nn;
      }
      if old(BackLinks(nodes)) { InsertedBackLinks(nodes, pos, nn); }
    }

    lemma SpliceStart(pos: u64, q: seq<nat>, nn: Node<T>)
      requires Insertable(pos, q) && Links(nodes, hs)
      ensures Spliced(nodes, hs, q, pos, nn, |nn.forward|, 0) && NewLinks(nodes, hs, q, pos, nn, 0)
    {
      forall a, l | 0 <= a < |nodes| && 0 <= l < hs[a] ensures SplicedAt(nodes, hs, q, pos, nn, |nn.forward|, 0, a, l) {
        assert LinkOk(nodes, hs, a, l);
      }
    }

    method SpliceLevels(nn: Node<T>, h: nat, pos: u64, ghost q: seq<nat>)
      requires Insertable(pos, q) && Links(nodes, hs) && nn !in repr && |nn.forward| == |nn.widths| == h <= |q|
      modifies nn`forward, nn`widths, repr`forward, repr`widths
      ensures Spliced(nodes, hs, q, pos, nn, h, h) && NewLinks(nodes, hs, q, pos, nn, h)
      ensures |nn.forward| == |nn.widths| == h
    {
      SpliceStart(pos, q, nn);
      var i := 0;
      while i < h
        invariant 0 <= i <= h && |nn.forward| == |nn.widths| == h
        invariant Spliced(nodes, hs, q, pos, nn, h, i) && NewLinks(nodes, hs, q, pos, nn, i)
      {
        CacheOwned(q, i);
        SpliceLevel(cache[i], nn, h, pos, i, q);
        i := i + 1;
      }
    }

    lemma TopInserted(p: nat, h: nat, was: nat)
      requires 0 < p <= |hs| && h <= level == (if h > was then h else was)
      requires was > 1 ==> Nxt(hs, 0, was - 1) < |hs|
      ensures level > 1 ==> Nxt(Inserted(hs, p, h), 0, level - 1) < |hs| + 1
    {
      if level > 1 { NxtInserted(hs, p, h, 0, level - 1); }
    }

    /** All pointer and width updates of one insertion. */
    method Wire(nn: Node<T>, h: nat, pos: u64, ghost q: seq<nat>)
      requires Insertable(pos, q) && Links(nodes, hs) && nn !in repr
               && 1 <= |nn.forward| == |nn.widths| == h <= |q| == level
      requires cache[0] == nodes[pos - 1] && |nodes[pos - 1].forward| > 0
      requires nodes[pos - 1].forward[0] == if pos < |nodes| then nodes[pos] else null
      modifies nn`forward, nn`widths, nn`preNode, repr`forward, repr`widths, repr`preNode
      ensures |nn.forward| == |nn.widths| == h && Links(Inserted(nodes, pos, nn), Inserted(hs, pos, h))
      ensures old(BackLinks(nodes)) ==> BackLinks(Inserted(nodes, pos, nn))
    {
      LinkBack(cache[0], nn, pos);
      SpliceLevels(nn, h, pos, q);
      GrowLevels(h, pos, nn, q);
      InsertedLinks(nodes, hs, q, pos, nn, h);
    }

    lemma InsertedHeights(hs0: seq<nat>, pos: nat, h: nat, top: nat)
      requires 0 < pos <= |hs0| && 1 <= h <= top && forall i :: 0 < i < |hs0| ==> 1 <= hs0[i] <= top
      ensures |Inserted(hs0, pos, h)| == |hs0| + 1 && Inserted(hs0, pos, h)[0] == hs0[0]
      ensures forall i :: 0 < i < |Inserted(hs0, pos, h)| ==> 1 <= Inserted(hs0, pos, h)[i] <= top
    {
    }

    /** Record the new node in the ghost state. */
    ghost method Seat(pos: u64, h: nat, nn: Node<T>, c: T)
      requires Distinct(nodes) && Owned() && Holds(nodes, contents) && nn !in repr && nn.entry == Some(c)
      requires 0 < pos <= |nodes| == |hs| == num && nodes[0] == head && 1 <= h <= level < maxLevel == hs[0]
      requires Links(Inserted(nodes, pos, nn), Inserted(hs, pos, h))
      requires forall i :: 0 < i < |nodes| ==> 1 <= hs[i] <= level
      modifies `nodes, `hs, `contents, `repr
      ensures repr == old(repr) + {nn}
      ensures Structured() && nodes == Inserted(old(nodes), pos, nn)
      ensures hs == Inserted(old(hs), pos, h) && contents == Inserted(old(contents), pos - 1, c)
    {
      assert nn !in nodes;
      InsertedDistinct(nodes, pos, nn);
      InsertedHolds(nodes, contents, pos, nn, c);
      InsertedHeights(hs, pos, h, level);
      nodes := Inserted(nodes, pos, nn);
      repr := repr + {nn};
      hs := Inserted(hs, pos, h);
      contents := Inserted(contents, pos - 1, c);
    }

    /** The list has been counted and grown for a node of height h at pos. */
    ghost predicate Ready(pos: u64, h: nat, q: seq<nat>, was: nat)
      reads this, repr`forward, repr`widths
    {
      && Insertable(pos, q) && Links(nodes, hs) && Scratch()
      && |nodes| == num && nodes[0] == head && hs[0] == maxLevel && 1 <= h <= |q| == level
      && (forall i :: 0 < i < |nodes| ==> 1 <= hs[i] <= level)
      && level == (if h > was then h else was) && (was > 1 ==> Nxt(hs, 0, was - 1) < |hs|)
    }

    lemma ReadyGround(pos: u64, h: nat, q: seq<nat>, was: nat)
      requires Ready(pos, h, q, was)
      ensures cache[0] == nodes[pos - 1] && |nodes[pos - 1].forward| > 0
      ensures nodes[pos - 1].forward[0] == if pos < |nodes| then nodes[pos] else null
    {
      assert Pred(hs, pos, 0, q[0]);
      var j := q[0] + 1;
      assert j < |hs| ==> hs[j] >= 1;
      assert LinkOk(nodes, hs, pos - 1, 0);
      assert pos < |hs| ==> hs[pos] >= 1;
    }

    method MakeRoom(pos: u64, h: nat) returns (ghost q: seq<nat>, ghost was: nat)
      requires Valid() && num + 1 < TWO64 && 1 <= pos <= num + 1 && Preds(cache, posCache, pos - 1)
      requires 1 <= h < maxLevel
      modifies `level, `cache, `num
      ensures Ready(pos, h, q, was) && Holds(nodes, contents)
    {
      was := level;
      q := Raise(h, pos - 1);
      num := num + 1;
    }

    /** From a grown list and a fresh node to a valid list with the node at pos. */
    method Place(c: T, pos: u64, h: nat, nn: Node<T>, ghost q: seq<nat>, ghost was: nat)
      requires Ready(pos, h, q, was) && Holds(nodes, contents)
      requires nn !in repr && nn.entry == Some(c) && |nn.forward| == |nn.widths| == h
      modifies `nodes, `hs, `contents, `repr, nn`forward, nn`widths, nn`preNode, repr`forward, repr`widths, repr`preNode
      ensures Valid() && contents == Inserted(old(contents), pos - 1, c) && repr == old(repr) + {nn}
      ensures old(BackLinks(nodes)) ==> BackLinks(nodes)
    {
      ReadyGround(pos, h, q, was);
      Wire(nn, h, pos, q);
      TopInserted(pos, h, was);
      Seat(pos, h, nn, c);
    }

    /** The inserting half of `insertNode`. */
    method AddNode(c: T, pos: u64, height: nat) returns (nn: Node<T>)
      requires Valid() && num + 1 < TWO64 && 1 <= pos <= num + 1 && Preds(cache, posCache, pos - 1)
      requires 1 <= height < maxLevel
      modifies this, repr
      ensures Valid() && contents == Inserted(old(contents), pos - 1, c)
      ensures fresh(nn) && repr == old(repr) + {nn}
      ensures old(BackLinks(nodes)) ==> BackLinks(nodes)
    {
      ghost var back, ns := BackLinks(nodes), nodes;
      ghost var q, was := MakeRoom(pos, height);
      nn := new Node<T>(Some(c), height);
      assert nodes == ns && (back ==> BackLinks(nodes));
      Place(c, pos, height, nn, q, was);
    }

    /** The simple update of `insertNode` and of `replaceAtPosition`. */
    method Overwrite(n: Node<T>, c: T, ghost pos: u64) returns (oldEntry: Option<T>)
      requires Valid() && 1 <= pos <= num && n == nodes[pos]
      modifies n`entry, `contents
      ensures Valid() && oldEntry == Some(old(contents)[pos - 1]) && contents == old(contents)[pos - 1 := c]
    {
      oldEntry := n.entry;
      n.entry := Some(c);
      contents := contents[pos - 1 := c];
      assert Holds(nodes, contents);
    }

    /** `insertNode`: overwrite an equal entry, or add a node of the given height at pos. */
    method InsertNode(n: Node?<T>, c: T, pos: u64, height: nat, allowDuplicate: bool) returns (overwritten: Option<T>)
      requires Valid() && num + 1 < TWO64 && 1 <= pos <= num + 1 && Preds(cache, posCache, pos - 1)
      requires 1 <= height < maxLevel
      requires !allowDuplicate ==> n == if pos <= num then nodes[pos] else null
      modifies this, repr
      ensures Valid() && (old(BackLinks(nodes)) ==> BackLinks(nodes))
      ensures if !allowDuplicate && pos <= old(num) && cmp(old(contents)[pos - 1], c) == 0
        then overwritten == Some(old(contents)[pos - 1]) && contents == old(contents)[pos - 1 := c]
        else overwritten == None && contents == Inserted(old(contents), pos - 1, c)
      ensures old(repr) <= repr && fresh(repr - old(repr))
    {
      if !allowDuplicate && n != null && cmp(n.entry.value, c) == 0 {
        overwritten := Overwrite(n, c, pos);
        return;
      }
      var nn := AddNode(c, pos, height);
      return None;
    }

    /** `insert`: the coin flips of `generateLevel` come in as the height. */
    method Insert(c: T, height: nat) returns (overwritten: Option<T>)
      requires Valid() && Cut(cmp, contents, c) && num + 1 < TWO64 && 1 <= height < maxLevel
      modifies this, repr
      ensures Valid() && (old(BackLinks(nodes)) ==> BackLinks(nodes))
      ensures var k := Below(cmp, old(contents), c);
        if k < |old(contents)| && cmp(old(contents)[k], c) == 0
        then overwritten == Some(old(contents)[k]) && contents == old(contents)[k := c]
        else overwritten == None && contents == Inserted(old(contents), k, c)
      ensures old(repr) <= repr && fresh(repr - old(repr))
    {
      var n, pos := Locate(c);
      overwritten := InsertNode(n, c, pos, height, false);
    }

    // ---- delete ----

    ghost predicate Deletable(p: nat, q: seq<nat>)
      reads this
    {
      && Distinct(nodes) && Owned() && |nodes| == |hs| && 0 < p < |nodes| < TWO64 && |q| == level + 1 <= maxLevel
      && AllPreds(hs, p, q) && Cached(cache, posCache, nodes, q)
    }

    /** One round of the unlinking loop of `delete`. */
    method Bypass(c: Node<T>, n: Node<T>, i: nat)
      requires i < |c.forward| == |c.widths| && (c.forward[i] == n ==> c != n && i < |n.forward| == |n.widths|)
      requires c.forward[i] != null ==> c.widths[i] > 0
      requires c.forward[i] == n && n.forward[i] != null ==> n.widths[i] > 0 && c.widths[i] + n.widths[i] <= TWO64
      modifies c`forward, c`widths
      ensures c.forward == old(c.forward)[i := if old(c.forward[i]) == n then n.forward[i] else old(c.forward[i])]
      ensures |c.widths| == |old(c.widths)| && c.widths == old(c.widths)[i := c.widths[i]]
      ensures c.forward[i] != null ==>
        c.widths[i] == old(c.widths[i]) - 1 + if old(c.forward[i]) == n then n.widths[i] else 0
    {
      if c.forward[i] != n {
        if c.forward[i] != null {
          c.widths := c.widths[i := c.widths[i] - 1];
        }
        return;
      }
      c.widths := c.widths[i := Wrap(c.widths[i] + Wrap(n.widths[i] as int - 1))];
      c.forward := c.forward[i := n.forward[i]];
    }

    lemma BypassReady(c: Node<T>, n: Node<T>, i: nat, p: nat, q: seq<nat>)
      requires Deletable(p, q) && i < |q| && c == cache[i] && n == nodes[p] && Unlinked(nodes, hs, q, p, i)
      ensures c == nodes[q[i]] && q[i] < p && hs[q[i]] > i && LinkOk(nodes, hs, q[i], i)
      ensures (c.forward[i] == n) == (i < hs[p])
      ensures i < hs[p] ==> LinkOk(nodes, hs, p, i) && Nxt(hs, q[i], i) == p
      ensures i >= hs[p] ==> Nxt(hs, q[i], i) > p
    {
      ghost var b := q[i];
      assert UnlinkedAt(nodes, hs, q, p, i, b, i);
      assert Pred(hs, p, i, b);
      if i < hs[p] {
        NxtUnique(hs, b, i, p);
        assert UnlinkedAt(nodes, hs, q, p, i, p, i);
      }
    }

    method UnlinkOne(c: Node<T>, n: Node<T>, i: nat, ghost p: nat, ghost q: seq<nat>)
      requires Deletable(p, q) && i < |q| && c == cache[i] && n == nodes[p]
      requires Unlinked(nodes, hs, q, p, i)
      modifies c`forward, c`widths
      ensures c == nodes[q[i]] && UnlinkedAt(nodes, hs, q, p, i + 1, q[i], i)
      ensures |c.forward| == |old(c.forward)| && |c.widths| == |old(c.widths)|
      ensures forall l :: 0 <= l < |c.forward| && l != i ==> c.forward[l] == old(c.forward[l])
      ensures forall l :: 0 <= l < |c.widths| && l != i ==> c.widths[l] == old(c.widths[l])
    {
      BypassReady(c, n, i, p, q);
      Bypass(c, n, i);
    }

    method UnlinkLevel(c: Node<T>, n: Node<T>, i: nat, ghost p: nat, ghost q: seq<nat>)
      requires Deletable(p, q) && i < |q| && c == cache[i] && n == nodes[p]
      requires Unlinked(nodes, hs, q, p, i)
      modifies c`forward, c`widths
      ensures Unlinked(nodes, hs, q, p, i + 1)
    {
      UnlinkOne(c, n, i, p, q);
      ghost var d, b := i + 1, q[i];
      forall a, l | 0 <= a < |nodes| && 0 <= l < hs[a] ensures UnlinkedAt(nodes, hs, q, p, d, a, l) {
        if a != b || l != i {
          assert old(UnlinkedAt(nodes, hs, q, p, i, a, l));
        }
      }
    }

    /** The back link of the removed node's level-0 successor. */
    method UnlinkBack(c: Node<T>, n: Node<T>, ghost p: nat)
      requires Distinct(nodes) && Owned() && 0 < p < |nodes| && n == nodes[p] && c == nodes[p - 1]
      requires |n.forward| > 0 && n.forward[0] == if p + 1 < |nodes| then nodes[p + 1] else null
      modifies repr`preNode
      ensures old(BackLinks(nodes)) ==> BackLinks(Removed(nodes, p))
    {
      if n.forward[0] != null {
        n.forward[0].preNode := c;
      }
      n.preNode := null;
      if old(BackLinks(nodes)) { RemovedBackLinks(nodes, p); }
    }

    lemma UnlinkStart(p: nat, q: seq<nat>)
      requires Deletable(p, q) && Links(nodes, hs)
      ensures Unlinked(nodes, hs, q, p, 0)
    {
      forall a, l | 0 <= a < |nodes| && 0 <= l < hs[a] ensures UnlinkedAt(nodes, hs, q, p, 0, a, l) {
        assert LinkOk(nodes, hs, a, l);
      }
    }

    method UnlinkLevels(n: Node<T>, ghost p: nat, ghost q: seq<nat>)
      requires Deletable(p, q) && Links(nodes, hs) && n == nodes[p]
      modifies repr`forward, repr`widths
      ensures Unlinked(nodes, hs, q, p, |q|)
    {
      UnlinkStart(p, q);
      var i := 0;
      while i <= level
        invariant 0 <= i <= level + 1 == |q| && Unlinked(nodes, hs, q, p, i)
      {
        CacheOwned(q, i);
        UnlinkLevel(cache[i], n, i, p, q);
        i := i + 1;
      }
    }

    /** All pointer and width updates of one deletion. */
    method Unwire(n: Node<T>, ghost p: nat, ghost q: seq<nat>)
      requires Deletable(p, q) && Links(nodes, hs) && n == nodes[p]
      requires cache[0] == nodes[p - 1]
      requires |n.forward| > 0 && n.forward[0] == if p + 1 < |nodes| then nodes[p + 1] else null
      modifies repr`forward, repr`widths, repr`preNode
      ensures Links(Removed(nodes, p), Removed(hs, p))
      ensures old(BackLinks(nodes)) ==> BackLinks(Removed(nodes, p))
    {
      UnlinkBack(cache[0], n, p);
      UnlinkLevels(n, p, q);
      RemovedLinks(nodes, hs, q, p);
    }

    /** After a search that stopped before node p, the scratch arrays name its predecessors. */
    lemma FoundPreds(p: nat) returns (q: seq<nat>)
      requires Structured() && 0 < p <= num && Preds(cache, posCache, p - 1) && num + 1 < TWO64
      ensures Deletable(p, q) && cache[0] == nodes[p - 1] && (forall l :: 0 <= l <= level ==> posCache[l] == q[l])
      ensures |nodes[p].forward| > 0 && nodes[p].forward[0] == if p < num then nodes[p + 1] else null
    {
      q := posCache[..level + 1];
      forall l | 0 <= l < |q| ensures Pred(hs, p, l, q[l]) && cache[l] == nodes[q[l]] {
        if l < level { assert PredAt(cache[l], posCache[l], l, p - 1); }
      }
      Ground(cache[0], posCache[0], p - 1);
      assert LinkOk(nodes, hs, p, 0);
      assert p + 1 < |hs| ==> hs[p + 1] >= 1;
    }

    /** A level no node reaches was cached at the head. */
    ghost predicate Idle()
      reads this
    {
      && |cache| == |posCache| == maxLevel && |hs| > 0
      && (forall l :: 0 <= l < maxLevel && Nxt(hs, 0, l) == |hs| ==> posCache[l] == 0)
      && (num == 0 && maxLevel > 0 ==> cache[0] == head)
    }

    /** One round of lowering the level: the top level is empty. */
    method DropLevel()
      requires Structured() && 1 < level && head.forward[level - 1] == null
      modifies `level, head`widths
      ensures Structured() && level == old(level) - 1
    {
      assert LinkOk(nodes, hs, 0, level - 1) && LinkOk(nodes, hs, 0, level);
      assert Nxt(hs, 0, level - 1) == |hs| == Nxt(hs, 0, level);
      assert forall i :: 0 < i < |nodes| ==> 1 <= hs[i] <= level - 1;
      head.widths := head.widths[level := 0];
      level := level - 1;
      forall i, l | 0 <= i < |nodes| && 0 <= l < hs[i] ensures LinkOk(nodes, hs, i, l) {
        assert old(LinkOk(nodes, hs, i, l));
      }
    }

    /** The last loop of `delete`. */
    method Lower()
      requires Structured() && Idle() && 1 <= level
      modifies `level, head`widths
      ensures Valid() && (old(BackLinks(nodes)) ==> BackLinks(nodes))
    {
      assert LinkOk(nodes, hs, 0, level - 1);
      while level > 1 && head.forward[level - 1] == null
        invariant Structured() && 1 <= level && LinkOk(nodes, hs, 0, level - 1)
        decreases level
      {
        DropLevel();
        assert LinkOk(nodes, hs, 0, level - 1);
      }
      forall l | level <= l < maxLevel ensures posCache[l] == 0 {
        assert Nxt(hs, 0, l) == |hs|;
      }
    }

    /** Record the removal of node p in the ghost state. */
    ghost method Unseat(p: nat)
      requires Distinct(nodes) && Owned() && Holds(nodes, contents) && 0 < p < |nodes| == |hs| && num == |nodes| - 2
      requires nodes[0] == head && level < maxLevel == hs[0]
      requires Links(Removed(nodes, p), Removed(hs, p))
      requires forall i :: 0 < i < |nodes| ==> 1 <= hs[i] <= level
      modifies `nodes, `hs, `contents
      ensures Structured() && nodes == Removed(old(nodes), p) && hs == Removed(old(hs), p)
      ensures contents == Removed(old(contents), p - 1)
      ensures old(0 < p < |nodes| && BackLinks(Removed(nodes, p))) ==> BackLinks(nodes)
    {
      RemovedDistinct(nodes, p);
      RemovedHolds(nodes, contents, p);
      nodes := Removed(nodes, p);
      hs := Removed(hs, p);
      contents := Removed(contents, p - 1);
    }

    lemma IdleRemoved(p: nat, q: seq<nat>, l: nat)
      requires 0 < p < |hs| && AllPreds(hs, p, q) && l < |q| && Nxt(Removed(hs, p), 0, l) == |hs| - 1
      ensures q[l] == 0
    {
      assert Pred(hs, p, l, q[l]);
      assert Removed(hs, p)[q[l]] > l;
    }

    lemma IdleAllRemoved(p: nat, q: seq<nat>)
      requires 0 < p < |hs| && AllPreds(hs, p, q) && |posCache| == maxLevel && |q| <= maxLevel
      requires forall l :: 0 <= l < |q| ==> posCache[l] == q[l]
      requires forall l :: |q| <= l < maxLevel ==> posCache[l] == 0
      ensures forall l :: 0 <= l < maxLevel && Nxt(Removed(hs, p), 0, l) == |hs| - 1 ==> posCache[l] == 0
    {
      forall l | 0 <= l < maxLevel && Nxt(Removed(hs, p), 0, l) == |hs| - 1 ensures posCache[l] == 0 {
        if l < |q| { IdleRemoved(p, q, l); }
      }
    }

    /** `delete`: remove the entry equal to c, if there is one. */
    method Delete(c: T) returns (deleted: Option<T>)
      requires Valid() && Cut(cmp, contents, c) && num + 1 < TWO64
      modifies this, repr
      ensures Valid() && (old(BackLinks(nodes)) ==> BackLinks(nodes)) && repr == old(repr)
      ensures var k := Below(cmp, old(contents), c);
        if k < |old(contents)| && cmp(old(contents)[k], c) == 0
        then deleted == Some(old(contents)[k]) && contents == Removed(old(contents), k)
        else deleted == None && contents == old(contents)
    {
      var n, pos := Locate(c);
      if n == null || cmp(n.entry.value, c) != 0 {
        return None;
      }
      deleted := n.entry;
      RemoveNode(n, pos);
    }

    method RemoveNode(n: Node<T>, ghost p: nat)
      requires Structured() && 0 < p <= num && num + 1 < TWO64 && n == nodes[p] && Preds(cache, posCache, p - 1)
      modifies `num, `nodes, `hs, `contents, `level, repr`forward, repr`widths, repr`preNode
      ensures Valid() && (old(BackLinks(nodes)) ==> BackLinks(nodes))
      ensures contents == Removed(old(contents), p - 1)
    {
      ghost var q := FoundPreds(p);
      ghost var back, rest := BackLinks(nodes), Removed(nodes, p);
      num := num - 1;
      Unwire(n, p, q);
      assert back ==> BackLinks(rest);
      IdleAllRemoved(p, q);
      Unseat(p);
      assert nodes == rest;
      Lower();
    }

    // ---- look-up by value and by position ----

    /** `Get` for one key. */
    method Get(c: T) returns (r: Option<T>)
      requires Valid() && Cut(cmp, contents, c) && num + 1 < TWO64
      ensures var k := Below(cmp, contents, c);
        r == if k < |contents| && cmp(contents[k], c) == 0 then Some(contents[k]) else None
    {
      var n, _, _, _ := Search(c, [], []);
      if n != null && cmp(n.entry.value, c) == 0 {
        return n.entry;
      }
      return None;
    }

    /** `GetWithPosition`: the first entry not below c, whether or not it equals c. */
    method GetWithPosition(c: T) returns (r: Option<T>, at: u64)
      requires Valid() && Cut(cmp, contents, c) && num + 1 < TWO64
      ensures var k := Below(cmp, contents, c);
        if k < |contents| then r == Some(contents[k]) && at == k else r == None && at == 0
    {
      var n, pos, _, _ := Search(c, [], []);
      if n == null {
        return None, 0;
      }
      return n.entry, pos - 1;
    }

    /** `ByPosition`, for every uint64: the successor of the largest one wraps to the head. */
    method ByPosition(position: u64) returns (r: Option<T>)
      requires Valid() && num + 1 < TWO64
      ensures r == if position < |contents| then Some(contents[position]) else None
    {
      var n, _, _, _ := SearchByPosition(Wrap(position + 1), [], []);
      if n == null {
        return None;
      }
      return n.entry;
    }

    /** `searchByPosition` into the list's own scratch arrays. */
    method LocatePosition(position: u64) returns (n: Node?<T>, at: u64)
      requires Valid() && num + 1 < TWO64 && position <= num
      modifies `cache, `posCache
      ensures Valid() && Preds(cache, posCache, position) && at == position + 1
    {
      var u, ws;
      n, at, u, ws := SearchByPosition(position, cache, posCache);
      PredsScratch(u, ws, position);
      cache, posCache := u, ws;
    }

    /** `InsertAtPosition`: no order is checked; a position past the end appends. */
    method InsertAtPosition(position0: u64, c: T, height: nat)
      requires Valid() && num + 1 < TWO64 && 1 <= height < maxLevel
      modifies this, repr
      ensures Valid() && (old(BackLinks(nodes)) ==> BackLinks(nodes))
      ensures contents == Inserted(old(contents), if position0 > old(num) then old(num) else position0, c)
      ensures old(repr) <= repr && fresh(repr - old(repr))
    {
      var position := position0;
      if position > num {
        position := num;
      }
      var n, pos := LocatePosition(position);
      var _ := InsertNode(n, c, pos, height, true);
    }

    /** `ReplaceAtPosition`: a position past the end does nothing, except that the largest
        uint64 wraps round to the head and overwrites the sentinel of a non-empty list. */
    method ReplaceAtPosition(position: u64, c: T)
      requires Valid() && num + 1 < TWO64
      modifies this, repr
      ensures nodes == old(nodes) && num == old(num)
      ensures Valid() <==> position + 1 < TWO64 || num == 0
      ensures contents == if position < |old(contents)| then old(contents)[position := c] else old(contents)
      ensures position + 1 == TWO64 && num > 0 ==> head.entry == Some(c)
    {
      var n, _, _, _ := SearchByPosition(Wrap(position + 1), [], []);
      if n == null {
        return;
      }
      if position + 1 == TWO64 {
        n.entry := Some(c);
      } else {
        var _ := Overwrite(n, c, position + 1);
      }
    }

    // ---- splitAt ----

    /** The empty right half that `splitAt` starts from. */
    constructor RightHalf(left: SkipList<T>)
      ensures cmp == left.cmp && maxLevel == left.maxLevel && level == left.level
      ensures |cache| == |posCache| == maxLevel && forall l :: 0 <= l < maxLevel ==> posCache[l] == 0
      ensures fresh(head) && |head.forward| == |head.widths| == maxLevel && head.entry == None
      ensures forall l :: 0 <= l < maxLevel ==> head.forward[l] == null
    {
      var h := new Node<T>(None, left.maxLevel);
      cmp := left.cmp;
      maxLevel := left.maxLevel;
      level := left.level;
      num := 0;
      cache := seq(left.maxLevel, _ => null);
      posCache := seq(left.maxLevel, _ => 0);
      head := h;
      nodes := [];
      hs := [];
      contents := [];
      repr := {};
    }

    /** One round of the cutting loop: the right head takes over the cached node's link. */
    method CutLink(c: Node<T>, rh: Node<T>, i: nat, index: u64)
      requires c != rh && i < |c.forward| == |c.widths| && i < |rh.forward| == |rh.widths| && i < |posCache|
      requires posCache[i] <= index && (c.forward[i] != null ==> index - posCache[i] <= c.widths[i])
      modifies c`forward, c`widths, rh`forward, rh`widths
      ensures c.forward == old(c.forward)[i := null] && c.widths == old(c.widths)[i := 0]
      ensures rh.forward == old(rh.forward)[i := old(c.forward[i])]
      ensures |rh.widths| == |old(rh.widths)| && rh.widths == old(rh.widths)[i := rh.widths[i]]
      ensures rh.forward[i] != null ==> rh.widths[i] == old(c.widths[i]) - (index - posCache[i])
    {
      rh.forward := rh.forward[i := c.forward[i]];
      if c.forward[i] != null {
        rh.widths := rh.widths[i := c.widths[i] - (index - posCache[i])];
      }
      c.widths := c.widths[i := 0];
      c.forward := c.forward[i := null];
    }

    method CutLevel(c: Node<T>, rh: Node<T>, i: nat, index: u64, ghost q: seq<nat>)
      requires Deletable(index + 1, q) && rh !in repr && i < |q| && c == cache[i]
               && |rh.forward| == |rh.widths| == maxLevel
      requires Severed(nodes, hs, q, index + 1, i) && RightLinks(nodes, hs, q, index, rh, i)
      modifies c`forward, c`widths, rh`forward, rh`widths
      ensures Severed(nodes, hs, q, index + 1, i + 1) && RightLinks(nodes, hs, q, index, rh, i + 1)
      ensures |rh.forward| == |rh.widths| == maxLevel
      ensures forall l :: i < l < maxLevel ==> rh.forward[l] == old(rh.forward[l])
    {
      assert SeveredAt(nodes, hs, q, i, q[i], i);
      assert Pred(hs, index + 1, i, q[i]);
      CutLink(c, rh, i, index);
      ghost var d := i + 1;
      forall a, l | 0 <= a < |nodes| && 0 <= l < hs[a] ensures SeveredAt(nodes, hs, q, d, a, l) {
        assert old(SeveredAt(nodes, hs, q, i, a, l));
      }
      forall l | 0 <= l < d ensures RightLink(nodes, hs, q, index, rh, l) {
        if l < i { assert old(RightLink(nodes, hs, q, index, rh, l)); }
      }
    }

    lemma CutStart(index: u64, q: seq<nat>, rh: Node<T>)
      requires Deletable(index + 1, q) && Links(nodes, hs)
      ensures Severed(nodes, hs, q, index + 1, 0) && RightLinks(nodes, hs, q, index, rh, 0)
    {
      forall a, l | 0 <= a < |nodes| && 0 <= l < hs[a] ensures SeveredAt(nodes, hs, q, 0, a, l) {
        assert LinkOk(nodes, hs, a, l);
      }
    }

    /** The cutting loop, with what it leaves alone. */
    method CutAll(rh: Node<T>, index: u64, ghost q: seq<nat>)
      requires Deletable(index + 1, q) && Links(nodes, hs) && rh !in repr && |rh.forward| == |rh.widths| == maxLevel
      requires forall l :: 0 <= l < maxLevel ==> rh.forward[l] == null
      requires Holds(nodes, contents) && rh.entry == None
      modifies repr`forward, repr`widths, rh`forward, rh`widths
      ensures Holds(nodes, contents) && rh.entry == None && Distinct(nodes) && Owned()
      ensures Links(nodes[..index + 1], hs[..index + 1])
      ensures Links([rh] + nodes[index + 1..], [maxLevel] + hs[index + 1..])
    {
      CutLevels(rh, index, q);
    }

    /** The cutting loop of `splitAt`. */
    method CutLevels(rh: Node<T>, index: u64, ghost q: seq<nat>)
      requires Deletable(index + 1, q) && Links(nodes, hs) && rh !in repr && |rh.forward| == |rh.widths| == maxLevel
      requires forall l :: 0 <= l < maxLevel ==> rh.forward[l] == null
      modifies repr`forward, repr`widths, rh`forward, rh`widths
      ensures Links(nodes[..index + 1], hs[..index + 1])
      ensures Links([rh] + nodes[index + 1..], [maxLevel] + hs[index + 1..])
    {
      CutStart(index, q, rh);
      var i := 0;
      while i <= level
        invariant 0 <= i <= level + 1 == |q| && |rh.forward| == |rh.widths| == maxLevel
        invariant Severed(nodes, hs, q, index + 1, i) && RightLinks(nodes, hs, q, index, rh, i)
        invariant forall l :: i <= l < maxLevel ==> rh.forward[l] == null
      {
        CacheOwned(q, i);
        CutLevel(cache[i], rh, i, index, q);
        i := i + 1;
      }
      LeftLinks(nodes, hs, q, index + 1);
      RightPartLinks(nodes, hs, q, index, rh, maxLevel);
    }

    /** `resetMaxLevel`. */
    method ResetMaxLevel()
      requires Structured() && Idle() && maxLevel > 1
      modifies `level
      ensures Valid()
    {
      if level < 1 {
        level := 1;
        return;
      }
      assert LinkOk(nodes, hs, 0, level - 1);
      while head.forward[level - 1] == null && level > 1
        invariant Structured() && 1 <= level && LinkOk(nodes, hs, 0, level - 1)
        decreases level
      {
        assert Nxt(hs, 0, level - 1) == |hs|;
        assert LinkOk(nodes, hs, 0, level - 2);
        level := level - 1;
      }
      forall l | level <= l < maxLevel ensures posCache[l] == 0 {
        assert Nxt(hs, 0, l) == |hs|;
      }
    }

    lemma IdleLeft(p: nat, q: seq<nat>, l: nat)
      requires 0 < p < |hs| && AllPreds(hs, p, q) && l < |q| && Nxt(hs[..p], 0, l) == p
      ensures q[l] == 0
    {
      assert Pred(hs, p, l, q[l]);
      assert hs[..p][q[l]] > l;
    }

    /** Make ns, with heights hs0 and entries s, the nodes of this list. */
    ghost method Adopt(ns: seq<Node<T>>, hs0: seq<nat>, s: seq<T>)
      requires |ns| == num + 1 && ns[0] == head && Distinct(ns) && Links(ns, hs0) && Holds(ns, s)
      requires level < maxLevel == hs0[0] && forall i :: 0 < i < |ns| ==> 1 <= hs0[i] <= level
      modifies `nodes, `hs, `contents, `repr
      ensures Structured() && nodes == ns && hs == hs0 && contents == s && repr == set x | x in ns
    {
      nodes := ns;
      hs := hs0;
      contents := s;
      repr := set x | x in ns;
    }

    /** The rest of `splitAt` for one half: count its nodes and lower its level. */
    method Settle(count: u64, ghost ns: seq<Node<T>>, ghost hs0: seq<nat>, ghost s: seq<T>)
      requires |ns| == count + 1 && ns[0] == head && Distinct(ns) && Links(ns, hs0) && Holds(ns, s)
      requires 1 < maxLevel && level < maxLevel == hs0[0] && forall i :: 0 < i < |ns| ==> 1 <= hs0[i] <= level
      requires |cache| == |posCache| == maxLevel
      requires forall l :: 0 <= l < maxLevel && Nxt(hs0, 0, l) == |hs0| ==> posCache[l] == 0
      requires count == 0 ==> cache[0] == head
      modifies `num, `level, `nodes, `hs, `contents, `repr
      ensures Valid() && nodes == ns && contents == s && repr == set x | x in ns
    {
      num := count;
      Adopt(ns, hs0, s);
      ResetMaxLevel();
    }

    /** The links have been cut after position index; both halves can settle. */
    ghost predicate Halved(rh: Node<T>, index: u64)
      reads this, repr, rh
    {
      && |nodes| == |hs| == num + 1 && nodes[0] == head && Distinct(nodes) && Owned() && Holds(nodes, contents)
      && index < num && 1 < maxLevel && level < maxLevel == hs[0] && rh !in repr && rh.entry == None
      && (forall i :: 0 < i < |nodes| ==> 1 <= hs[i] <= level)
      && Links(nodes[..index + 1], hs[..index + 1]) && Links([rh] + nodes[index + 1..], [maxLevel] + hs[index + 1..])
      && |cache| == |posCache| == maxLevel
      && (forall l :: 0 <= l < maxLevel && Nxt(hs[..index + 1], 0, l) == index + 1 ==> posCache[l] == 0)
      && (index == 0 ==> cache[0] == head)
    }

    /** All pointer and width updates of `splitAt`. */
    method Sever(rh: Node<T>, index: u64)
      requires Valid() && num + 1 < TWO64 && index < num && maxLevel > 1
      requires rh !in repr && |rh.forward| == |rh.widths| == maxLevel && forall l :: 0 <= l < maxLevel ==>
                 rh.forward[l] == null
      requires rh.entry == None
      modifies `cache, `posCache, repr`forward, repr`widths, rh`forward, rh`widths
      ensures Halved(rh, index)
    {
      var _, _ := LocatePosition(index);
      ghost var q := FoundPreds(index + 1);
      CutAll(rh, index, q);
      IdleAllLeft(index + 1, q);
    }

    lemma IdleAllLeft(p: nat, q: seq<nat>)
      requires 0 < p < |hs| && AllPreds(hs, p, q) && |posCache| == maxLevel && |q| <= maxLevel
      requires forall l :: 0 <= l < |q| ==> posCache[l] == q[l]
      requires forall l :: |q| <= l < maxLevel ==> posCache[l] == 0
      ensures forall l :: 0 <= l < maxLevel && Nxt(hs[..p], 0, l) == p ==> posCache[l] == 0
    {
      forall l | 0 <= l < maxLevel && Nxt(hs[..p], 0, l) == p ensures posCache[l] == 0 {
        if l < |q| { IdleLeft(p, q, l); }
      }
    }

    lemma DividedHeights(p: nat, rh: Node<T>)
      requires 0 < p < |hs| == |nodes| && Owned() && forall i :: 0 < i < |hs| ==> 1 <= hs[i] <= level
      ensures forall i :: 0 < i < p ==> 1 <= hs[..p][i] <= level
      ensures var r := [maxLevel] + hs[p..]; forall i :: 0 < i < |r| ==> 1 <= r[i] <= level
      ensures (set x | x in nodes[..p]) <= repr && (set x | x in [rh] + nodes[p..]) <= repr + {rh}
    {
    }

    method Halve(right: SkipList<T>, index: u64)
      requires right != this && Halved(right.head, index) && right.maxLevel == maxLevel && right.level == level
      requires |right.cache| == |right.posCache| == maxLevel && forall l :: 0 <= l < maxLevel ==> right.posCache[l] == 0
      modifies this, right
      ensures Valid() && right.Valid()
      ensures contents == old(contents)[..index] && right.contents == old(contents)[index..]
      ensures repr <= old(repr) && right.repr <= old(repr) + {right.head} && repr !! right.repr
    {
      ghost var p := index + 1;
      DividedNodes(nodes, contents, p, right.head);
      DividedHeights(p, right.head);
      ghost var ns, hs0, s := nodes, hs, contents;
      right.Settle(num - index, [right.head] + ns[p..], [maxLevel] + hs0[p..], s[index..]);
      Settle(index, ns[..p], hs0[..p], s[..index]);
    }

    /** `SplitAt`: the given index is that of the last entry of the left half; the largest
        uint64 wraps round and moves everything to the right half. */
    method SplitAt(index0: u64) returns (right: SkipList?<T>)
      requires Valid() && num + 1 < TWO64 && maxLevel > 1
      modifies this, repr
      ensures Valid() && repr <= old(repr)
      ensures right == null <==> Wrap(index0 + 1) >= old(num)
      ensures right == null ==> contents == old(contents)
      ensures right != null ==>
        && fresh(right) && right.Valid() && right.cmp == cmp && right.maxLevel == maxLevel
        && contents == old(contents)[..Wrap(index0 + 1)] && right.contents == old(contents)[Wrap(index0 + 1)..]
        && fresh(right.repr - old(repr)) && repr !! right.repr
    {
      var index := Wrap(index0 + 1);
      if index >= num {
        return null;
      }
      var r := new SkipList<T>.RightHalf(this);
      Sever(r.head, index);
      Halve(r, index);
      right := r;
    }
  }
}
