/** The expiry list of the discovery master (cluster/nodettl.go). */
module NodeTTL {

  /** An element of the list; its address is what the map keeps. */
  class Element {
    const nodeId: string
    var refreshTime: int

    constructor (nodeId: string, now: int)
      ensures this.nodeId == nodeId && refreshTime == now
    {
      this.nodeId := nodeId;
      refreshTime := now;
    }
  }

  datatype Entry = Entry(nodeId: string, time: int)

  /** Different nodes, the earlier refreshed not later. */
  ghost predicate Before(v: seq<Entry>, i: int, j: int)
    requires 0 <= i < j < |v|
  {
    v[i].nodeId != v[j].nodeId && v[i].time <= v[j].time
  }

  /** One entry per node, in order of refresh time, none later than now. */
  ghost predicate Ordered(v: seq<Entry>, now: int) {
    && (forall i, j {:trigger Before(v, i, j)} :: 0 <= i < j < |v| ==> Before(v, i, j))
    && forall i {:trigger Until(v, i, now)} :: 0 <= i < |v| ==> Until(v, i, now)
  }

  ghost predicate Until(v: seq<Entry>, i: int, now: int)
    requires 0 <= i < |v|
  {
    v[i].time <= now
  }

  function Ids(v: seq<Entry>): set<string> {
    set i | 0 <= i < |v| :: v[i].nodeId
  }

  /** The entries of all nodes but one. */
  function Without(v: seq<Entry>, nodeId: string): seq<Entry> {
    if v == [] then [] else (if v[0].nodeId == nodeId then [] else [v[0]]) + Without(v[1..], nodeId)
  }

  lemma {:induction false} WithoutNone(v: seq<Entry>, nodeId: string)
    requires nodeId !in Ids(v)
    ensures Without(v, nodeId) == v
  {
    if v != [] {
      assert forall i :: 0 <= i < |v| - 1 ==> v[1..][i] == v[i + 1];
      assert v[0].nodeId in Ids(v);
      WithoutNone(v[1..], nodeId);
    }
  }

  lemma OrderedTail(v: seq<Entry>, now: int)
    requires Ordered(v, now) && v != []
    ensures Ordered(v[1..], now) && v[0].nodeId !in Ids(v[1..])
  {
    var t := v[1..];
    forall i, j | 0 <= i < j < |t|
      ensures Before(t, i, j)
    {
      assert Before(v, i + 1, j + 1);
    }
    forall i | 0 <= i < |t|
      ensures Until(t, i, now) && t[i].nodeId != v[0].nodeId
    {
      assert Until(v, i + 1, now) && Before(v, 0, i + 1);
    }
  }

  lemma {:induction false} WithoutAt(v: seq<Entry>, k: int, now: int)
    requires Ordered(v, now) && 0 <= k < |v|
    ensures Without(v, v[k].nodeId) == v[..k] + v[k + 1..]
  {
    OrderedTail(v, now);
    if k == 0 {
      WithoutNone(v[1..], v[0].nodeId);
    } else {
      WithoutAt(v[1..], k - 1, now);
      assert v[1..][k - 1] == v[k] && Before(v, 0, k);
      assert v[..k] + v[k + 1..] == [v[0]] + (v[1..][..k - 1] + v[1..][k..]);
    }
  }

  lemma CutKeeps(v: seq<Entry>, k: int, now: int)
    requires Ordered(v, now) && 0 <= k < |v|
    ensures Ordered(v[..k] + v[k + 1..], now) && Ids(v[..k] + v[k + 1..]) == Ids(v) - {v[k].nodeId}
  {
    var w := v[..k] + v[k + 1..];
    assert forall i :: 0 <= i < |w| ==> w[i] == v[if i < k then i else i + 1];
    forall i, j | 0 <= i < j < |w|
      ensures Before(w, i, j)
    {
      assert Before(v, if i < k then i else i + 1, if j < k then j else j + 1);
    }
    forall i | 0 <= i < |w|
      ensures Until(w, i, now) && w[i].nodeId != v[k].nodeId
    {
      assert Until(v, if i < k then i else i + 1, now);
      assert if i < k then Before(v, i, k) else Before(v, k, i + 1);
    }
    forall n | n in Ids(v) && n != v[k].nodeId
      ensures n in Ids(w)
    {
      var i :| 0 <= i < |v| && v[i].nodeId == n;
      assert w[if i < k then i else i - 1] == v[i];
    }
  }

  lemma PushKeeps(v: seq<Entry>, nodeId: string, now: int, later: int)
    requires Ordered(v, now) && nodeId !in Ids(v) && now <= later
    ensures Ordered(v + [Entry(nodeId, later)], later) && Ids(v + [Entry(nodeId, later)]) == Ids(v) + {nodeId}
  {
    var w := v + [Entry(nodeId, later)];
    forall i, j | 0 <= i < j < |w|
      ensures Before(w, i, j)
    {
      assert Until(v, i, now) && v[i].nodeId in Ids(v);
      assert j < |v| ==> Before(v, i, j);
    }
    forall i | 0 <= i < |w|
      ensures Until(w, i, later)
    {
      assert i < |v| ==> Until(v, i, now);
    }
    assert w[|v|].nodeId == nodeId;
    assert forall i :: 0 <= i < |v| ==> w[i] == v[i];
  }

  /** The list has an element for each entry, and the map finds exactly these elements. */
  ghost predicate Linked(l: seq<Element>, m: map<string, Element>, v: seq<Entry>) {
    && |l| == |v|
    && (forall i :: 0 <= i < |l| ==> l[i].nodeId == v[i].nodeId && Maps(m, v[i].nodeId, l[i]))
    && forall n :: n in m ==> exists i :: 0 <= i < |l| && l[i] == m[n] && v[i].nodeId == n
  }

  ghost predicate Maps(m: map<string, Element>, n: string, e: Element) {
    n in m && m[n] == e
  }

  lemma LinkedCut(l: seq<Element>, m: map<string, Element>, v: seq<Entry>, k: int, now: int)
    requires Linked(l, m, v) && Ordered(v, now) && 0 <= k < |l|
    ensures Linked(l[..k] + l[k + 1..], m - {l[k].nodeId}, v[..k] + v[k + 1..])
  {
    var l', m', v' := l[..k] + l[k + 1..], m - {l[k].nodeId}, v[..k] + v[k + 1..];
    forall i | 0 <= i < |l'|
      ensures l'[i].nodeId == v'[i].nodeId && Maps(m', v'[i].nodeId, l'[i])
    {
      var j := if i < k then i else i + 1;
      assert l'[i] == l[j] && v'[i] == v[j];
      assert if j < k then Before(v, j, k) else Before(v, k, j);
    }
    forall n | n in m'
      ensures exists i :: 0 <= i < |l'| && l'[i] == m'[n] && v'[i].nodeId == n
    {
      var j :| 0 <= j < |l| && l[j] == m[n] && v[j].nodeId == n;
      var i := if j < k then j else j - 1;
      assert l'[i] == l[j] && v'[i] == v[j];
    }
  }

  lemma LinkedPush(l: seq<Element>, m: map<string, Element>, v: seq<Entry>, e: Element, time: int)
    requires Linked(l, m, v) && e.nodeId !in m
    ensures Linked(l + [e], m[e.nodeId := e], v + [Entry(e.nodeId, time)])
  {
    var l', m', v' := l + [e], m[e.nodeId := e], v + [Entry(e.nodeId, time)];
    forall n | n in m'
      ensures exists i :: 0 <= i < |l'| && l'[i] == m'[n] && v'[i].nodeId == n
    {
      if n == e.nodeId {
        assert l'[|l|] == e;
      } else {
        var j :| 0 <= j < |l| && l[j] == m[n] && v[j].nodeId == n;
        assert l'[j] == l[j] && v'[j] == v[j];
      }
    }
  }

  lemma LinkedIds(l: seq<Element>, m: map<string, Element>, v: seq<Entry>)
    requires Linked(l, m, v)
    ensures m.Keys == Ids(v)
  {
    forall n | n in Ids(v)
      ensures n in m
    {
      var i :| 0 <= i < |v| && v[i].nodeId == n;
      assert Maps(m, v[i].nodeId, l[i]);
    }
  }

  /** How far a scan from the front gets: the entries older than ttl at a time come first. */
  lemma FrontIsAll(v: seq<Entry>, k: int, t: int, ttl: int, now: int)
    requires Ordered(v, now) && 0 <= k <= |v|
    requires k > 0 ==> t - v[k - 1].time > ttl
    requires k < |v| ==> t - v[k].time <= ttl
    ensures forall i :: 0 <= i < |v| ==> (t - v[i].time > ttl <==> i < k)
  {
    forall i | 0 <= i < |v|
      ensures t - v[i].time > ttl <==> i < k
    {
      if i < k - 1 {
        assert Before(v, i, k - 1);
      } else if i > k {
        assert Before(v, k, i);
      }
    }
  }

  lemma MovedEntry(v: seq<Entry>, k: int, now: int, later: int)
    requires Ordered(v, now) && 0 <= k < |v| && now <= later
    ensures var w := v[..k] + v[k + 1..] + [Entry(v[k].nodeId, later)];
            && w == Without(v, v[k].nodeId) + [Entry(v[k].nodeId, later)]
            && Ids(w) == Ids(v) && Ordered(w, later)
  {
    WithoutAt(v, k, now);
    CutKeeps(v, k, now);
    PushKeeps(v[..k] + v[k + 1..], v[k].nodeId, now, later);
  }

  lemma OrderedLater(v: seq<Entry>, now: int, later: int)
    requires Ordered(v, now) && now <= later
    ensures Ordered(v, later)
  {
    forall i | 0 <= i < |v|
      ensures Until(v, i, later)
    {
      assert Until(v, i, now);
    }
  }

  class NodeSetTTL {
    var l: seq<Element>
    var mapElement: map<string, Element>
    var ttl: int
    /** The values of the list's elements, the latest reading of the clock, and the elements made. */
    ghost var view: seq<Entry>
    ghost var clock: int
    ghost var repr: set<Element>

    /** The list is ordered by refresh time and has one element per node, which the map finds. */
    ghost predicate Valid()
      reads this, repr
    {
      && Ordered(view, clock) && Linked(l, mapElement, view)
      && forall i :: 0 <= i < |l| ==> l[i] in repr && l[i].refreshTime == view[i].time
    }

    constructor (ttl: int, now: int)
      ensures Valid() && view == [] && this.ttl == ttl && clock == now && repr == {}
    {
      this.ttl := ttl;
      l, mapElement, view, clock, repr := [], map[], [], now, {};
    }

    method RemoveNode(nodeId: string)
      requires Valid()
      modifies this`l, this`mapElement, this`view
      ensures Valid() && view == Without(old(view), nodeId) && Ids(view) == Ids(old(view)) - {nodeId}
    {
      LinkedIds(l, mapElement, view);
      if nodeId !in mapElement {
        WithoutNone(view, nodeId);
        return;
      }
      var k :| 0 <= k < |l| && l[k] == mapElement[nodeId];
      CutKeeps(view, k, clock);
      WithoutAt(view, k, clock);
      RemoveAt(k);
    }

    /** Takes the element at place k off the list. */
    method RemoveAt(k: int)
      requires Valid() && 0 <= k < |l|
      modifies this`l, this`mapElement, this`view
      ensures Valid() && l == old(l)[..k] + old(l)[k + 1..] && view == old(view)[..k] + old(view)[k + 1..]
    {
      CutKeeps(view, k, clock);
      LinkedCut(l, mapElement, view, k, clock);
      mapElement := mapElement - {l[k].nodeId};
      l := l[..k] + l[k + 1..];
      view := view[..k] + view[k + 1..];
    }

    /** The node's entry is new and last, whether or not it had one. */
    method AddAndRefreshNode(nodeId: string, now: int)
      requires Valid() && clock <= now
      modifies this, repr
      ensures Valid() && clock == now && ttl == old(ttl) && fresh(repr - old(repr))
      ensures view == Without(old(view), nodeId) + [Entry(nodeId, now)] && Ids(view) == Ids(old(view)) + {nodeId}
    {
      LinkedIds(l, mapElement, view);
      if nodeId !in mapElement {
        WithoutNone(view, nodeId);
        PushKeeps(view, nodeId, clock, now);
        PushNew(nodeId, now);
        return;
      }
      var k :| 0 <= k < |l| && l[k] == mapElement[nodeId];
      MovedEntry(view, k, clock, now);
      MoveToBack(k, now);
    }

    method PushNew(nodeId: string, now: int)
      requires Valid() && clock <= now && nodeId !in mapElement && nodeId !in Ids(view)
      modifies this`l, this`mapElement, this`view, this`clock, this`repr
      ensures Valid() && clock == now && view == old(view) + [Entry(nodeId, now)] && fresh(repr - old(repr))
    {
      PushKeeps(view, nodeId, clock, now);
      var ele := new Element(nodeId, now);
      LinkedPush(l, mapElement, view, ele, now);
      l := l + [ele];
      mapElement := mapElement[nodeId := ele];
      view := view + [Entry(nodeId, now)];
      clock := now;
      repr := repr + {ele};
    }

    /** Refreshes the element at place k and moves it to the end of the list. */
    method MoveToBack(k: int, now: int)
      requires Valid() && 0 <= k < |l| && clock <= now
      modifies this`l, this`mapElement, this`view, this`clock, repr
      ensures Valid() && clock == now
      ensures view == old(view)[..k] + old(view)[k + 1..] + [Entry(old(view)[k].nodeId, now)]
    {
      var ele := l[k];
      CutKeeps(view, k, clock);
      RemoveAt(k);
      PushKeeps(view, ele.nodeId, clock, now);
      LinkedPush(l, mapElement, view, ele, now);
      ele.refreshTime := now;
      clock := now;
      l := l + [ele];
      mapElement := mapElement[ele.nodeId := ele];
      view := view + [Entry(ele.nodeId, now)];
    }

    /** One look at the front: an element that is too old at a reading is taken off. */
    method CheckFront(reading: int) returns (took: bool, id: string)
      requires Valid()
      modifies this`l, this`mapElement, this`view
      ensures Valid()
      ensures !took ==> view == old(view) && (view == [] || reading - view[0].time <= ttl)
      ensures took ==>
                && old(view) != [] && view == old(view)[1..] && id == old(view)[0].nodeId
                && reading - old(view)[0].time > ttl
    {
      if |l| == 0 || reading - l[0].refreshTime <= ttl {
        return false, "";
      }
      took, id := true, l[0].nodeId;
      RemoveAt(0);
      assert view == old(view)[1..];
    }

    method ScanFront(readings: nat -> int) returns (expired: seq<string>, ghost last: int)
      requires Valid() && clock <= readings(0)
      requires forall i: nat, j: nat :: i <= j ==> readings(i) <= readings(j)
      modifies this`l, this`mapElement, this`view
      ensures Valid() && clock <= last == readings(|expired|)
      ensures Scanned(old(view), expired, last, ttl) && view == old(view)[|expired|..]
      ensures view == [] || last - view[0].time <= ttl
      ensures |expired| == Overdue(old(view), readings, ttl, 0)
    {
      expired, last := [], readings(0);
      ghost var v := view;
      var more := true;
      while more
        invariant Valid() && clock <= last <= readings(|expired|) && (more || last == readings(|expired|))
        invariant clock == old(clock)
        invariant Scanned(v, expired, last, ttl) && view == v[|expired|..]
        invariant more || view == [] || last - view[0].time <= ttl
        invariant Overdue(v, readings, ttl, 0) == Overdue(v, readings, ttl, |expired|)
        decreases more, |view|
      {
        var reading := readings(|expired|);
        ScanLater(v, expired, last, reading, ttl);
        last := reading;
        var id;
        more, id := CheckFront(reading);
        if more {
          ScanNext(v, expired, id, last, ttl);
          expired := expired + [id];
        }
      }
    }

    /** Takes nodes off the front while they are too old by successive readings of a clock.  This
        finds exactly the nodes that a full scan would find too old at the last reading. */
    method CheckTTL(readings: nat -> int) returns (expired: seq<string>, ghost last: int)
      requires Valid() && clock <= readings(0)
      requires forall i: nat, j: nat :: i <= j ==> readings(i) <= readings(j)
      modifies this`l, this`mapElement, this`view, this`clock
      ensures Valid() && old(clock) <= last == clock == readings(|expired|)
      ensures |expired| == Overdue(old(view), readings, ttl, 0)
      ensures Expiry(old(view), last, ttl, expired) && view == old(view)[|expired|..]
    {
      ghost var v := view;
      expired, last := ScanFront(readings);
      ScanDone(v, expired, last, ttl, clock);
      OrderedLater(view, clock, last);
      clock := last;
    }
  }

  /** Where a scan from place k on stops: at the first entry that is not too old when its turn comes. */
  ghost function Overdue(v: seq<Entry>, readings: nat -> int, ttl: int, k: nat): (n: nat)
    requires k <= |v|
    ensures k <= n <= |v|
    decreases |v| - k
  {
    if k == |v| || readings(k) - v[k].time <= ttl then k else Overdue(v, readings, ttl, k + 1)
  }

  /** That is where the scan stops, and all entries before it were too old at their turn. */
  lemma {:induction false} OverdueMeaning(v: seq<Entry>, readings: nat -> int, ttl: int, k: nat)
    requires k <= |v|
    ensures var n := Overdue(v, readings, ttl, k);
            && (forall i :: k <= i < n ==> readings(i) - v[i].time > ttl)
            && (n < |v| ==> readings(n) - v[n].time <= ttl)
    decreases |v| - k
  {
    if k < |v| && readings(k) - v[k].time > ttl {
      OverdueMeaning(v, readings, ttl, k + 1);
    }
  }

  ghost predicate Scanned(v: seq<Entry>, expired: seq<string>, last: int, ttl: int) {
    && |expired| <= |v| && (expired != [] ==> last - v[|expired| - 1].time > ttl)
    && forall i :: 0 <= i < |expired| ==> expired[i] == v[i].nodeId
  }

  lemma ScanLater(v: seq<Entry>, expired: seq<string>, last: int, later: int, ttl: int)
    requires Scanned(v, expired, last, ttl) && last <= later
    ensures Scanned(v, expired, later, ttl)
  {
  }

  lemma ScanNext(v: seq<Entry>, expired: seq<string>, n: string, last: int, ttl: int)
    requires Scanned(v, expired, last, ttl) && |expired| < |v|
    requires v[|expired|..][0].nodeId == n && last - v[|expired|..][0].time > ttl
    ensures Scanned(v, expired + [n], last, ttl) && v[|expired|..][1..] == v[|expired| + 1..]
  {
  }

  lemma ScanDone(v: seq<Entry>, expired: seq<string>, last: int, ttl: int, now: int)
    requires Ordered(v, now) && Scanned(v, expired, last, ttl)
    requires |expired| < |v| ==> last - v[|expired|..][0].time <= ttl
    ensures Expiry(v, last, ttl, expired)
  {
    FrontIsAll(v, |expired|, last, ttl, now);
  }

  /** The nodes that are too old at a time are those at the front, in this order. */
  ghost predicate Expiry(v: seq<Entry>, t: int, ttl: int, expired: seq<string>) {
    && |expired| <= |v|
    && (forall i :: 0 <= i < |expired| ==> expired[i] == v[i].nodeId)
    && forall i :: 0 <= i < |v| ==> (t - v[i].time > ttl <==> i < |expired|)
  }
}
