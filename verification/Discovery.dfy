/** The registry of the discovery master (cluster/origindiscovery.go). */
module Discovery {
  import opened NodeTTL

  datatype NodeInfo = NodeInfo(nodeId: string, publicServices: seq<string>, retire: bool)

  function NodeIds(s: seq<NodeInfo>): set<string> {
    set i | 0 <= i < |s| :: s[i].nodeId
  }

  ghost predicate Differ(s: seq<NodeInfo>, i: int, j: int)
    requires 0 <= i < j < |s|
  {
    s[i].nodeId != s[j].nodeId
  }

  ghost predicate Unique(s: seq<NodeInfo>) {
    forall i, j {:trigger Differ(s, i, j)} :: 0 <= i < j < |s| ==> Differ(s, i, j)
  }

  /** The infos of all nodes that are not gone. */
  function Keep(s: seq<NodeInfo>, gone: set<string>): seq<NodeInfo> {
    if s == [] then [] else (if s[0].nodeId in gone then [] else [s[0]]) + Keep(s[1..], gone)
  }

  /** s with the info of its node replaced. */
  function Updated(s: seq<NodeInfo>, info: NodeInfo): seq<NodeInfo> {
    seq(|s|, i requires 0 <= i < |s| => if s[i].nodeId == info.nodeId then info else s[i])
  }

  lemma UniqueTail(s: seq<NodeInfo>)
    requires Unique(s) && s != []
    ensures Unique(s[1..]) && s[0].nodeId !in NodeIds(s[1..]) && NodeIds(s) == NodeIds(s[1..]) + {s[0].nodeId}
  {
    var t := s[1..];
    assert forall i :: 0 <= i < |t| ==> t[i] == s[i + 1];
    forall i, j | 0 <= i < j < |t|
      ensures Differ(t, i, j)
    {
      assert Differ(s, i + 1, j + 1);
    }
    forall i | 0 <= i < |t|
      ensures t[i].nodeId != s[0].nodeId
    {
      assert Differ(s, 0, i + 1);
    }
    forall n | n in NodeIds(s)
      ensures n == s[0].nodeId || n in NodeIds(t)
    {
      var i :| 0 <= i < |s| && s[i].nodeId == n;
      assert i > 0 ==> t[i - 1] == s[i];
    }
  }

  lemma UniquePush(s: seq<NodeInfo>, info: NodeInfo)
    requires Unique(s) && info.nodeId !in NodeIds(s)
    ensures Unique(s + [info]) && NodeIds(s + [info]) == NodeIds(s) + {info.nodeId}
  {
    var t := s + [info];
    forall i, j | 0 <= i < j < |t|
      ensures Differ(t, i, j)
    {
      assert s[i].nodeId in NodeIds(s);
      assert j < |s| ==> Differ(s, i, j);
    }
    assert t[|s|] == info && forall i :: 0 <= i < |s| ==> t[i] == s[i];
  }

  lemma UniqueCons(x: NodeInfo, s: seq<NodeInfo>)
    requires Unique(s) && x.nodeId !in NodeIds(s)
    ensures Unique([x] + s) && NodeIds([x] + s) == NodeIds(s) + {x.nodeId}
  {
    var t := [x] + s;
    assert forall i :: 0 <= i < |s| ==> t[i + 1] == s[i];
    forall i, j | 0 <= i < j < |t|
      ensures Differ(t, i, j)
    {
      if i > 0 { assert Differ(s, i - 1, j - 1); } else { assert s[j - 1].nodeId in NodeIds(s); }
    }
    assert t[0] == x;
  }

  lemma {:induction false} KeepKeeps(s: seq<NodeInfo>, gone: set<string>)
    requires Unique(s)
    ensures Unique(Keep(s, gone)) && NodeIds(Keep(s, gone)) == NodeIds(s) - gone
  {
    if s != [] {
      UniqueTail(s);
      KeepKeeps(s[1..], gone);
      if s[0].nodeId !in gone {
        UniqueCons(s[0], Keep(s[1..], gone));
      } else {
        assert [] + Keep(s[1..], gone) == Keep(s[1..], gone);
      }
    }
  }

  lemma {:induction false} KeepAll(s: seq<NodeInfo>, gone: set<string>)
    requires Unique(s) && NodeIds(s) !! gone
    ensures Keep(s, gone) == s
  {
    if s != [] {
      UniqueTail(s);
      KeepAll(s[1..], gone);
    }
  }

  lemma {:induction false} KeepAt(s: seq<NodeInfo>, k: int)
    requires Unique(s) && 0 <= k < |s|
    ensures Keep(s, {s[k].nodeId}) == s[..k] + s[k + 1..]
  {
    UniqueTail(s);
    if k == 0 {
      KeepAll(s[1..], {s[0].nodeId});
    } else {
      KeepAt(s[1..], k - 1);
      assert s[1..][k - 1] == s[k] && Differ(s, 0, k);
      assert s[..k] + s[k + 1..] == [s[0]] + (s[1..][..k - 1] + s[1..][k..]);
    }
  }

  lemma {:induction false} KeepTwice(s: seq<NodeInfo>, a: set<string>, b: set<string>)
    ensures Keep(Keep(s, a), b) == Keep(s, a + b)
  {
    if s != [] {
      KeepTwice(s[1..], a, b);
      var t := Keep(s[1..], a);
      if s[0].nodeId in a {
        assert Keep(s, a) == t;
      } else {
        assert ([s[0]] + t)[1..] == t;
      }
    }
  }

  lemma UpdatedKeeps(s: seq<NodeInfo>, info: NodeInfo, k: int)
    requires Unique(s) && 0 <= k < |s| && s[k].nodeId == info.nodeId
    ensures Updated(s, info) == s[k := info] && Unique(s[k := info]) && NodeIds(s[k := info]) == NodeIds(s)
  {
    var t := s[k := info];
    forall i | 0 <= i < |s|
      ensures i != k ==> s[i].nodeId != info.nodeId
      ensures t[i].nodeId == s[i].nodeId
    {
      if i < k { assert Differ(s, i, k); } else if i > k { assert Differ(s, k, i); }
    }
    forall i, j | 0 <= i < j < |t|
      ensures Differ(t, i, j)
    {
      assert Differ(s, i, j);
    }
    assert forall n :: n in NodeIds(s) ==> n in NodeIds(t) by {
      forall n | n in NodeIds(s)
        ensures n in NodeIds(t)
      {
        var i :| 0 <= i < |s| && s[i].nodeId == n;
        assert t[i].nodeId == n;
      }
    }
  }

  /** The nodes that a scan of all entries would find too old. */
  function TooOld(v: seq<Entry>, t: int, ttl: int): set<string> {
    set i | 0 <= i < |v| && t - v[i].time > ttl :: v[i].nodeId
  }

  class Master {
    const local: string
    const nsTTL: NodeSetTTL
    var mapNodeInfo: set<string>
    var nodeInfo: seq<NodeInfo>

    /** The id map and the slice agree. */
    ghost predicate Agree()
      reads this
    {
      Unique(nodeInfo) && NodeIds(nodeInfo) == mapNodeInfo
    }

    /** Every registered node but the master itself can expire. */
    ghost predicate Valid()
      reads this, nsTTL, nsTTL.repr
    {
      Agree() && nsTTL.Valid() && mapNodeInfo - {local} <= Ids(nsTTL.view)
    }

    constructor (local: string, ttl: int, now: int)
      ensures Valid() && this.local == local && nodeInfo == [] && fresh(nsTTL) && nsTTL.repr == {} && nsTTL.ttl == ttl
      ensures nsTTL.clock == now && nsTTL.view == []
    {
      this.local := local;
      nsTTL := new NodeSetTTL(ttl, now);
      mapNodeInfo, nodeInfo := {}, [];
    }

    method UpdateNodeInfo(info: NodeInfo)
      requires Agree()
      modifies this`nodeInfo
      ensures Agree() && nodeInfo == Updated(old(nodeInfo), info)
    {
      if info.nodeId !in mapNodeInfo {
        assert forall i :: 0 <= i < |nodeInfo| ==> nodeInfo[i].nodeId in NodeIds(nodeInfo);
        return;
      }
      var i := 0;
      while nodeInfo[i].nodeId != info.nodeId
        invariant 0 <= i < |nodeInfo| && forall j :: 0 <= j < i ==> nodeInfo[j].nodeId != info.nodeId
        decreases |nodeInfo| - i
      {
        i := i + 1;
      }
      UpdatedKeeps(nodeInfo, info, i);
      nodeInfo := nodeInfo[i := info];
    }

    method AddNodeInfo(info: NodeInfo)
      requires Agree()
      modifies this`nodeInfo, this`mapNodeInfo
      ensures Agree()
      ensures nodeInfo == if info.publicServices == [] || info.nodeId in old(mapNodeInfo) then old(nodeInfo)
                          else old(nodeInfo) + [info]
    {
      if |info.publicServices| == 0 || info.nodeId in mapNodeInfo {
        return;
      }
      UniquePush(nodeInfo, info);
      mapNodeInfo := mapNodeInfo + {info.nodeId};
      nodeInfo := nodeInfo + [info];
    }

    method RemoveNodeInfo(nodeId: string)
      requires Agree() && nsTTL.Valid()
      modifies this`nodeInfo, this`mapNodeInfo, nsTTL`l, nsTTL`mapElement, nsTTL`view
      ensures Agree() && nsTTL.Valid() && nodeInfo == Keep(old(nodeInfo), {nodeId})
      ensures nsTTL.view == if nodeId in old(mapNodeInfo) then Without(old(nsTTL.view), nodeId) else old(nsTTL.view)
      ensures Ids(nsTTL.view) == if nodeId in old(mapNodeInfo) then Ids(old(nsTTL.view)) - {nodeId}
                                 else Ids(old(nsTTL.view))
    {
      KeepKeeps(nodeInfo, {nodeId});
      if nodeId !in mapNodeInfo {
        KeepAll(nodeInfo, {nodeId});
        return;
      }
      var i := 0;
      while nodeInfo[i].nodeId != nodeId
        invariant 0 <= i < |nodeInfo| && forall j :: 0 <= j < i ==> nodeInfo[j].nodeId != nodeId
        decreases |nodeInfo| - i
      {
        i := i + 1;
      }
      KeepAt(nodeInfo, i);
      nodeInfo := nodeInfo[..i] + nodeInfo[i + 1..];
      nsTTL.RemoveNode(nodeId);
      mapNodeInfo := mapNodeInfo - {nodeId};
    }

    // ---- events ----

    method OnStart(info: NodeInfo)
      requires Valid() && info.nodeId == local
      modifies this`nodeInfo, this`mapNodeInfo
      ensures Valid()
      ensures nodeInfo == if info.publicServices == [] || local in old(mapNodeInfo) then old(nodeInfo)
                          else old(nodeInfo) + [info]
    {
      AddNodeInfo(info);
    }

    method OnNodeDisconnect(nodeId: string)
      requires Valid()
      modifies this`nodeInfo, this`mapNodeInfo, nsTTL`l, nsTTL`mapElement, nsTTL`view
      ensures Valid() && nodeInfo == Keep(old(nodeInfo), {nodeId})
      ensures nsTTL.view == if nodeId in old(mapNodeInfo) then Without(old(nsTTL.view), nodeId) else old(nsTTL.view)
    {
      if nodeId !in mapNodeInfo {
        KeepAll(nodeInfo, {nodeId});
        return;
      }
      KeepKeeps(nodeInfo, {nodeId});
      RemoveNodeInfo(nodeId);
    }

    method Ping(nodeId: string, now: int) returns (ok: bool)
      requires Valid() && nsTTL.clock <= now
      modifies nsTTL, nsTTL.repr
      ensures Valid() && fresh(nsTTL.repr - old(nsTTL.repr)) && nsTTL.ttl == old(nsTTL.ttl)
      ensures ok == (nodeId in mapNodeInfo) && nsTTL.clock == if ok then now else old(nsTTL.clock)
      ensures nsTTL.view == if ok then Without(old(nsTTL.view), nodeId) + [Entry(nodeId, now)] else old(nsTTL.view)
    {
      if nodeId !in mapNodeInfo {
        return false;
      }
      nsTTL.AddAndRefreshNode(nodeId, now);
      ok := true;
    }

    method NodeRetire(info: NodeInfo)
      requires Valid()
      modifies this`nodeInfo
      ensures Valid() && nodeInfo == Updated(old(nodeInfo), info)
    {
      UpdateNodeInfo(info);
    }

    method Register(info: NodeInfo, now: int)
      requires Valid() && nsTTL.clock <= now
      modifies this`nodeInfo, this`mapNodeInfo, nsTTL, nsTTL.repr
      ensures Valid() && fresh(nsTTL.repr - old(nsTTL.repr)) && nsTTL.ttl == old(nsTTL.ttl)
      ensures nodeInfo == if info.publicServices == [] || info.nodeId in old(mapNodeInfo) then old(nodeInfo)
                          else old(nodeInfo) + [info]
      ensures nsTTL.clock == if info.nodeId != local then now else old(nsTTL.clock)
      ensures nsTTL.view == if info.nodeId == local then old(nsTTL.view)
                            else Without(old(nsTTL.view), info.nodeId) + [Entry(info.nodeId, now)]
    {
      if info.nodeId != local {
        nsTTL.AddAndRefreshNode(info.nodeId, now);
      }
      AddNodeInfo(info);
      assert mapNodeInfo <= old(mapNodeInfo) + {info.nodeId} by {
        assert NodeIds(old(nodeInfo)) == old(mapNodeInfo);
        if nodeInfo != old(nodeInfo) { UniquePush(old(nodeInfo), info); }
      }
    }

    method Unregister(nodeId: string)
      requires Valid()
      modifies this`nodeInfo, this`mapNodeInfo, nsTTL`l, nsTTL`mapElement, nsTTL`view
      ensures Valid() && nodeInfo == Keep(old(nodeInfo), {nodeId})
      ensures nsTTL.view == if nodeId in old(mapNodeInfo) then Without(old(nsTTL.view), nodeId) else old(nsTTL.view)
    {
      OnNodeDisconnect(nodeId);
    }

    /** The tick of the expiry timer unregisters exactly the nodes that a full scan would find
        too old at the last reading of the clock. */
    method Tick(readings: nat -> int) returns (ghost last: int)
      requires Valid() && nsTTL.clock <= readings(0)
      requires forall i: nat, j: nat :: i <= j ==> readings(i) <= readings(j)
      modifies this`nodeInfo, this`mapNodeInfo, nsTTL`l, nsTTL`mapElement, nsTTL`view, nsTTL`clock
      ensures Valid() && nsTTL.ttl == old(nsTTL.ttl) && last == nsTTL.clock
      ensures var n := Overdue(old(nsTTL.view), readings, nsTTL.ttl, 0);
              && readings(0) <= last == readings(n) <= readings(|old(nsTTL.view)|) && nsTTL.view == old(nsTTL.view)[n..]
              && nodeInfo == Keep(old(nodeInfo), Ids(old(nsTTL.view)[..n]))
      ensures nodeInfo == Keep(old(nodeInfo), TooOld(old(nsTTL.view), last, nsTTL.ttl))
      ensures Ids(nsTTL.view) == Ids(old(nsTTL.view)) - TooOld(old(nsTTL.view), last, nsTTL.ttl)
    {
      ghost var v := nsTTL.view;
      var expired;
      expired, last := nsTTL.CheckTTL(readings);
      ExpiredIds(v, old(nsTTL.clock), last, nsTTL.ttl, expired);
      DisconnectAll(expired);
    }

    method DisconnectAll(expired: seq<string>)
      requires Agree() && nsTTL.Valid() && mapNodeInfo - {local} - Strings(expired) <= Ids(nsTTL.view)
      requires Strings(expired) !! Ids(nsTTL.view)
      modifies this`nodeInfo, this`mapNodeInfo, nsTTL`l, nsTTL`mapElement, nsTTL`view
      ensures Valid() && nsTTL.view == old(nsTTL.view) && nodeInfo == Keep(old(nodeInfo), Strings(expired))
    {
      ghost var s, v := nodeInfo, nsTTL.view;
      KeepAll(s, {});
      assert Strings(expired[..0]) == {};
      for i := 0 to |expired|
        invariant Agree() && nsTTL.Valid() && nsTTL.view == v
        invariant nodeInfo == Keep(s, Strings(expired[..i]))
      {
        KeepTwice(s, Strings(expired[..i]), {expired[i]});
        StringsSnoc(expired, i);
        WithoutNone(v, expired[i]);
        RemoveNodeInfo(expired[i]);
      }
      assert expired[..|expired|] == expired;
      KeepKeeps(s, Strings(expired));
    }
  }

  // ---- whole runs ----

  datatype Event =
    | Registering(info: NodeInfo)
    | Pinging(nodeId: string)
    | Unregistering(nodeId: string)
    | Retiring(info: NodeInfo)
    | Disconnecting(nodeId: string)
    | Ticking

  /** The registered nodes and the expiry entries, in order. */
  datatype Registry = Registry(nodes: seq<NodeInfo>, view: seq<Entry>)

  function Registered(nodes: seq<NodeInfo>, info: NodeInfo): seq<NodeInfo> {
    if info.publicServices == [] || info.nodeId in NodeIds(nodes) then nodes else nodes + [info]
  }

  function Refreshed(view: seq<Entry>, nodeId: string, now: int): seq<Entry> {
    Without(view, nodeId) + [Entry(nodeId, now)]
  }

  /** Successive readings of the clock from the k-th on. */
  function From(times: nat -> int, k: nat): nat -> int {
    (i: nat) => times(k + i)
  }

  /** What an event makes of the registry of a master, with the readings from the k-th on. */
  ghost function After(local: string, ttl: int, r: Registry, event: Event, times: nat -> int, k: nat): Registry {
    match event
    case Registering(info) =>
      Registry(Registered(r.nodes, info),
               if info.nodeId != local then Refreshed(r.view, info.nodeId, times(k)) else r.view)
    case Pinging(nodeId) =>
      if nodeId in NodeIds(r.nodes) then r.(view := Refreshed(r.view, nodeId, times(k))) else r
    case Unregistering(nodeId) => Dropped(r, nodeId)
    case Retiring(info) => r.(nodes := Updated(r.nodes, info))
    case Disconnecting(nodeId) => Dropped(r, nodeId)
    case Ticking =>
      var n := Overdue(r.view, From(times, k), ttl, 0);
      Registry(Keep(r.nodes, Ids(r.view[..n])), r.view[n..])
  }

  function Dropped(r: Registry, nodeId: string): Registry {
    if nodeId in NodeIds(r.nodes) then Registry(Keep(r.nodes, {nodeId}), Without(r.view, nodeId)) else r
  }

  /** The first reading that is left for the next event. */
  function Next(r: Registry, event: Event, k: nat): nat {
    if event.Ticking? then k + |r.view| + 1 else k + 1
  }

  ghost function Replay(local: string, ttl: int, r: Registry, events: seq<Event>, times: nat -> int, k: nat): Registry
    decreases |events|
  {
    if events == [] then r
    else Replay(local, ttl, After(local, ttl, r, events[0], times, k), events[1..], times, Next(r, events[0], k))
  }

  ghost predicate Steady(times: nat -> int) {
    forall i: nat, j: nat :: i <= j ==> times(i) <= times(j)
  }

  /** The master has this registry. */
  ghost predicate Has(m: Master, r: Registry, ttl: int)
    reads m, m.nsTTL, m.nsTTL.repr
  {
    m.Valid() && m.nodeInfo == r.nodes && m.nsTTL.view == r.view && m.nsTTL.ttl == ttl
  }

  /** One event, with the readings of the clock from the k-th on. */
  method Handle(m: Master, event: Event, times: nat -> int, k: nat, ghost r: Registry, ghost ttl: int)
    returns (next: nat)
    requires Has(m, r, ttl) && m.nsTTL.clock <= times(k) && Steady(times)
    modifies m, m.nsTTL, m.nsTTL.repr
    ensures next == Next(r, event, k) && Has(m, After(m.local, ttl, r, event, times, k), ttl)
    ensures m.nsTTL.clock <= times(next) && fresh(m.nsTTL.repr - old(m.nsTTL.repr))
  {
    next := k + 1;
    match event
    case Registering(info) => m.Register(info, times(k));
    case Pinging(nodeId) => var _ := m.Ping(nodeId, times(k));
    case Unregistering(nodeId) => Forget(m, nodeId, r, ttl);
    case Retiring(info) => m.NodeRetire(info);
    case Disconnecting(nodeId) => Forget(m, nodeId, r, ttl);
    case Ticking =>
      next := k + |m.nsTTL.l| + 1;
      var _ := m.Tick(From(times, k));
  }

  method Forget(m: Master, nodeId: string, ghost r: Registry, ghost ttl: int)
    requires Has(m, r, ttl)
    modifies m`nodeInfo, m`mapNodeInfo, m.nsTTL`l, m.nsTTL`mapElement, m.nsTTL`view
    ensures Has(m, Dropped(r, nodeId), ttl)
  {
    if nodeId !in m.mapNodeInfo {
      KeepAll(r.nodes, {nodeId});
    }
    m.OnNodeDisconnect(nodeId);
  }

  method HandleAll(m: Master, events: seq<Event>, times: nat -> int, k: nat, ghost r: Registry, ghost ttl: int)
    requires Has(m, r, ttl) && m.nsTTL.clock <= times(k) && Steady(times)
    modifies m, m.nsTTL, m.nsTTL.repr
    ensures Has(m, Replay(m.local, ttl, r, events, times, k), ttl)
    decreases |events|
  {
    if events != [] {
      var next := Handle(m, events[0], times, k, r, ttl);
      HandleAll(m, events[1..], times, next, After(m.local, ttl, r, events[0], times, k), ttl);
    }
  }

  ghost function Start(local: NodeInfo): Registry {
    Registry(Registered([], local), [])
  }

  /** Every run from the start of the master, under any clock that does not go back, leaves the
      nodes and the expiry entries that the events stand for; the id map, the slice, and the expiry
      list and map agree, with every registered node but the master itself on the expiry list. */
  method RunAll(local: NodeInfo, ttl: int, events: seq<Event>, times: nat -> int) returns (m: Master)
    requires Steady(times)
    ensures m.local == local.nodeId && m.Valid()
    ensures Has(m, Replay(local.nodeId, ttl, Start(local), events, times, 0), ttl)
    ensures local.publicServices != [] && (forall i :: 0 <= i < |events| ==> !TouchesOwn(local.nodeId, events[i])) ==>
              local.nodeId in m.mapNodeInfo
  {
    StartSafe(local, ttl, events, times);
    m := new Master(local.nodeId, ttl, times(0));
    m.OnStart(local);
    HandleAll(m, events, times, 0, Start(local), ttl);
  }

  // ---- the master's own entry ----

  /** A registered node stays registered if and only if the event does not name it as leaving, and
      is not a tick that finds it overdue. */
  lemma Stays(local: string, ttl: int, r: Registry, event: Event, times: nat -> int, k: nat, id: string)
    requires Unique(r.nodes) && id in NodeIds(r.nodes)
    ensures id in NodeIds(After(local, ttl, r, event, times, k).nodes) <==>
            && !((event.Unregistering? || event.Disconnecting?) && event.nodeId == id)
            && !(event.Ticking? && id in Ids(r.view[..Overdue(r.view, From(times, k), ttl, 0)]))
  {
    match event
    case Registering(info) => if info.nodeId !in NodeIds(r.nodes) { UniquePush(r.nodes, info); }
    case Pinging(nodeId) =>
    case Unregistering(nodeId) => KeepKeeps(r.nodes, {nodeId});
    case Retiring(info) => UpdatedIds(r.nodes, info);
    case Disconnecting(nodeId) => KeepKeeps(r.nodes, {nodeId});
    case Ticking => KeepKeeps(r.nodes, Ids(r.view[..Overdue(r.view, From(times, k), ttl, 0)]));
  }

  lemma {:induction false} KeepIs(s: seq<NodeInfo>, gone: set<string>, x: NodeInfo)
    ensures x in Keep(s, gone) <==> x in s && x.nodeId !in gone
  {
    if s != [] {
      KeepIs(s[1..], gone, x);
      assert s == [s[0]] + s[1..];
    }
  }

  lemma {:induction false} WithoutIs(v: seq<Entry>, nodeId: string, e: Entry)
    ensures e in Without(v, nodeId) <==> e in v && e.nodeId != nodeId
  {
    if v != [] {
      WithoutIs(v[1..], nodeId, e);
      assert v == [v[0]] + v[1..];
    }
  }

  lemma UpdatedIs(s: seq<NodeInfo>, info: NodeInfo, x: NodeInfo)
    ensures x in Updated(s, info) <==>
            (x in s && x.nodeId != info.nodeId) || (x == info && info.nodeId in NodeIds(s))
  {
    var u := Updated(s, info);
    if i :| 0 <= i < |s| && s[i] == x && x.nodeId != info.nodeId {
      assert u[i] == x;
    }
    if i :| 0 <= i < |s| && s[i].nodeId == info.nodeId {
      assert u[i] == info;
    }
    if i :| 0 <= i < |u| && u[i] == x {
      assert s[i].nodeId == x.nodeId && (x == s[i] || x == info);
    }
  }

  /** What an event does to the infos of the registered nodes: a node with services that is not yet
      registered comes in, one that leaves or is overdue goes, and one that retires is replaced. */
  lemma InfosAfter(local: string, ttl: int, r: Registry, event: Event, times: nat -> int, k: nat, x: NodeInfo)
    ensures x in After(local, ttl, r, event, times, k).nodes <==>
            if event.Registering? then
              x in r.nodes || (x == event.info && x.publicServices != [] && x.nodeId !in NodeIds(r.nodes))
            else if event.Unregistering? || event.Disconnecting? then x in r.nodes && x.nodeId != event.nodeId
            else if event.Retiring? then
              (x in r.nodes && x.nodeId != event.info.nodeId) || (x == event.info && x.nodeId in NodeIds(r.nodes))
            else if event.Ticking? then
              x in r.nodes && x.nodeId !in Ids(r.view[..Overdue(r.view, From(times, k), ttl, 0)])
            else x in r.nodes
  {
    if event.Unregistering? || event.Disconnecting? {
      KeepIs(r.nodes, {event.nodeId}, x);
      assert x in r.nodes ==> x.nodeId in NodeIds(r.nodes);
    } else if event.Retiring? {
      UpdatedIs(r.nodes, event.info, x);
    } else if event.Ticking? {
      KeepIs(r.nodes, Ids(r.view[..Overdue(r.view, From(times, k), ttl, 0)]), x);
    }
  }

  /** What an event does to the expiry entries: a node other than the master that registers, and a
      registered node that pings, get one with the reading of the clock in place of any old one, a
      registered node that leaves loses its own, and a tick drops the overdue ones at the front. */
  lemma EntriesAfter(local: string, ttl: int, r: Registry, event: Event, times: nat -> int, k: nat, e: Entry)
    ensures e in After(local, ttl, r, event, times, k).view <==>
            if event.Registering? && event.info.nodeId != local then
              e == Entry(event.info.nodeId, times(k)) || (e in r.view && e.nodeId != event.info.nodeId)
            else if event.Pinging? && event.nodeId in NodeIds(r.nodes) then
              e == Entry(event.nodeId, times(k)) || (e in r.view && e.nodeId != event.nodeId)
            else if (event.Unregistering? || event.Disconnecting?) && event.nodeId in NodeIds(r.nodes) then
              e in r.view && e.nodeId != event.nodeId
            else if event.Ticking? then e in r.view[Overdue(r.view, From(times, k), ttl, 0)..]
            else e in r.view
  {
    if event.Registering? {
      WithoutIs(r.view, event.info.nodeId, e);
    } else if event.Pinging? || event.Unregistering? || event.Disconnecting? {
      WithoutIs(r.view, event.nodeId, e);
    }
  }

  /** The event touches the master's own entry. */
  predicate TouchesOwn(local: string, event: Event) {
    || (event.Pinging? && event.nodeId == local) || (event.Unregistering? && event.nodeId == local)
    || (event.Disconnecting? && event.nodeId == local)
  }

  /** The master is registered and cannot expire. */
  ghost predicate Safe(local: string, r: Registry) {
    Unique(r.nodes) && local in NodeIds(r.nodes) && local !in Ids(r.view)
  }

  lemma {:induction false} WithoutIds(v: seq<Entry>, nodeId: string)
    ensures Ids(Without(v, nodeId)) == Ids(v) - {nodeId}
  {
    if v != [] {
      WithoutIds(v[1..], nodeId);
      var first := if v[0].nodeId == nodeId then [] else [v[0]];
      IdsAppend(first, Without(v[1..], nodeId));
      IdsAppend([v[0]], v[1..]);
      assert [v[0]] + v[1..] == v;
      assert Ids([v[0]]) == {v[0].nodeId} by { assert [v[0]][0].nodeId == v[0].nodeId; }
    }
  }

  lemma IdsAppend(a: seq<Entry>, b: seq<Entry>)
    ensures Ids(a + b) == Ids(a) + Ids(b)
  {
    var c := a + b;
    assert forall i :: 0 <= i < |a| ==> c[i] == a[i];
    assert forall i :: 0 <= i < |b| ==> c[|a| + i] == b[i];
    forall n | n in Ids(c)
      ensures n in Ids(a) + Ids(b)
    {
      var i :| 0 <= i < |c| && c[i].nodeId == n;
      if i < |a| { assert a[i].nodeId == n; } else { assert b[i - |a|].nodeId == n; }
    }
  }

  lemma SafeStep(local: string, ttl: int, r: Registry, event: Event, times: nat -> int, k: nat)
    requires Safe(local, r) && !TouchesOwn(local, event)
    ensures Safe(local, After(local, ttl, r, event, times, k))
  {
    match event
    case Registering(info) =>
      if info.nodeId !in NodeIds(r.nodes) { UniquePush(r.nodes, info); }
      WithoutIds(r.view, info.nodeId);
      IdsAppend(Without(r.view, info.nodeId), [Entry(info.nodeId, times(k))]);
    case Pinging(nodeId) =>
      WithoutIds(r.view, nodeId);
      IdsAppend(Without(r.view, nodeId), [Entry(nodeId, times(k))]);
    case Unregistering(nodeId) =>
      KeepKeeps(r.nodes, {nodeId});
      WithoutIds(r.view, nodeId);
    case Retiring(info) =>
      UpdatedIds(r.nodes, info);
    case Disconnecting(nodeId) =>
      KeepKeeps(r.nodes, {nodeId});
      WithoutIds(r.view, nodeId);
    case Ticking =>
      var n := Overdue(r.view, From(times, k), ttl, 0);
      KeepKeeps(r.nodes, Ids(r.view[..n]));
      IdsAppend(r.view[..n], r.view[n..]);
      assert r.view[..n] + r.view[n..] == r.view;
  }

  lemma UpdatedIds(s: seq<NodeInfo>, info: NodeInfo)
    requires Unique(s)
    ensures Unique(Updated(s, info)) && NodeIds(Updated(s, info)) == NodeIds(s)
  {
    var t := Updated(s, info);
    assert forall i :: 0 <= i < |s| ==> t[i].nodeId == s[i].nodeId;
    forall i, j | 0 <= i < j < |t|
      ensures Differ(t, i, j)
    {
      assert Differ(s, i, j);
    }
    forall n | n in NodeIds(s)
      ensures n in NodeIds(t)
    {
      var i :| 0 <= i < |s| && s[i].nodeId == n;
      assert t[i].nodeId == n;
    }
  }

  lemma {:induction false} SafeReplay(local: string, ttl: int, r: Registry, events: seq<Event>, times: nat -> int,
                                      k: nat)
    requires Safe(local, r) && forall i :: 0 <= i < |events| ==> !TouchesOwn(local, events[i])
    ensures Safe(local, Replay(local, ttl, r, events, times, k))
    decreases |events|
  {
    if events != [] {
      SafeStep(local, ttl, r, events[0], times, k);
      SafeReplay(local, ttl, After(local, ttl, r, events[0], times, k), events[1..], times, Next(r, events[0], k));
    }
  }

  lemma StartSafe(local: NodeInfo, ttl: int, events: seq<Event>, times: nat -> int)
    ensures local.publicServices != [] && (forall i :: 0 <= i < |events| ==> !TouchesOwn(local.nodeId, events[i])) ==>
              local.nodeId in NodeIds(Replay(local.nodeId, ttl, Start(local), events, times, 0).nodes)
  {
    if local.publicServices != [] && forall i :: 0 <= i < |events| ==> !TouchesOwn(local.nodeId, events[i]) {
      var r := Start(local);
      assert r.nodes[0].nodeId == local.nodeId;
      SafeReplay(local.nodeId, ttl, r, events, times, 0);
    }
  }

  /** A master that pings itself gets an expiry entry, and a later tick removes it from its own registry. */
  method LosesItself() returns (m: Master)
    ensures m.Valid() && m.mapNodeInfo == {} && m.local == "master"
  {
    var local := NodeInfo("master", ["S"], false);
    var times := (i: nat) => if i == 0 then 0 else 1000;
    ghost var r := Start(local);
    ghost var r1 := Registry([local], [Entry("master", 0)]);
    assert r.nodes == [local];
    assert r.nodes[0].nodeId in NodeIds(r.nodes);
    assert After("master", 5, r, Pinging("master"), times, 0) == r1;
    assert Overdue(r1.view, From(times, 1), 5, 0) == 1 by {
      assert Overdue(r1.view, From(times, 1), 5, 1) == 1;
      assert From(times, 1)(0) == 1000;
    }
    assert r1.view[..1] == r1.view && Ids(r1.view) == {"master"} by { assert r1.view[0].nodeId == "master"; }
    assert Keep(r1.nodes, {"master"}) == [] + Keep([], {"master"});
    ghost var events := [Pinging("master"), Ticking];
    assert events[1..] == [Ticking] && [Ticking][1..] == [];
    m := RunAll(local, 5, [Pinging("master"), Ticking], times);
  }

  function Strings(s: seq<string>): set<string> {
    set i | 0 <= i < |s| :: s[i]
  }

  lemma StringsSnoc(s: seq<string>, i: int)
    requires 0 <= i < |s|
    ensures Strings(s[..i + 1]) == Strings(s[..i]) + {s[i]} && s[i] in Strings(s)
  {
    var a, b := s[..i], s[..i + 1];
    assert b[i] == s[i] && forall j :: 0 <= j < i ==> a[j] == b[j];
  }

  lemma ExpiredIds(v: seq<Entry>, now: int, t: int, ttl: int, expired: seq<string>)
    requires Ordered(v, now) && Expiry(v, t, ttl, expired)
    ensures Strings(expired) == TooOld(v, t, ttl) == Ids(v[..|expired|])
    ensures Ids(v[|expired|..]) == Ids(v) - TooOld(v, t, ttl)
  {
    var rest := v[|expired|..];
    assert forall i :: 0 <= i < |rest| ==> rest[i] == v[i + |expired|];
    forall i, j | 0 <= i < |expired| && 0 <= j < |rest|
      ensures expired[i] != rest[j].nodeId
    {
      assert Before(v, i, j + |expired|);
    }
    forall n | n in Ids(v) && n !in Strings(expired)
      ensures n in Ids(rest)
    {
      var i :| 0 <= i < |v| && v[i].nodeId == n;
      assert rest[i - |expired|] == v[i];
    }
    forall n | n in TooOld(v, t, ttl)
      ensures n in Strings(expired)
    {
      var i :| 0 <= i < |v| && t - v[i].time > ttl && v[i].nodeId == n;
      assert expired[i] == n;
    }
  }
}
