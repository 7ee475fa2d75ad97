/** Pending RPC calls (rpc/callset.go): a map of calls and the timer heap that must agree with
    it. Every method is one critical section of the source's lock. */
module CallSet {
  import opened Words
  import opened BinaryHeap
  import opened CallTimerHeap

  datatype Call = Call(seqNo: u64, timeOut: int)

  /** How a call left the set: to its response handler, by timeout, or on disconnect. */
  datatype Outcome = Responded | TimedOut | Disconnected

  datatype HandOut = HandOut(call: Call, outcome: Outcome)

  class CallSet {
    var startSeq: u64
    var pending: map<u64, Call>
    const timers: CallTimerHeap

    ghost var reserved: set<u64>      // generated, not yet added
    ghost var issued: set<u64>        // ever added
    ghost var handed: seq<HandOut>    // every call that has been handed out, in order

    ghost predicate Agree()
      reads this, timers
    {
      && timers.Valid()
      && (forall k :: k in pending <==> k in timers.mapSeqIndex)
      && (forall k :: k in pending ==> pending[k].seqNo == k)
    }

    /** Each issued number is pending, or was handed out once, and never both. */
    ghost predicate Once()
      reads this
    {
      && (forall k :: k in issued <==> k in pending || exists i :: 0 <= i < |handed| && handed[i].call.seqNo == k)
      && (forall i :: 0 <= i < |handed| ==> handed[i].call.seqNo !in pending)
      && (forall i, j :: 0 <= i < j < |handed| ==> handed[i].call.seqNo != handed[j].call.seqNo)
    }

    ghost predicate Fresh()
      reads this
    {
      && reserved !! issued
      && forall k :: k in reserved || k in issued ==> 0 < k <= startSeq
    }

    ghost predicate Valid()
      reads this, timers
    {
      Agree() && Once() && Fresh()
    }

    constructor ()
      ensures Valid() && pending == map[] && handed == [] && startSeq == 0 && reserved == {}
      ensures fresh(timers) && timers.callTimer == []
    {
      startSeq := 0;
      pending := map[];
      timers := new CallTimerHeap();
      reserved, issued, handed := {}, {}, [];
    }

    /** `generateSeq`: a number never given out before, until the counter wraps to 0. */
    method GenerateSeq() returns (k: u64)
      requires Valid()
      modifies `startSeq, `reserved
      ensures Agree() && Once() && k == startSeq == (old(startSeq) + 1) % TWO64
      ensures old(startSeq) + 1 < TWO64 ==>
                && Valid() && k != 0 && k !in old(reserved) && k !in issued && reserved == old(reserved) + {k}
                && startSeq == old(startSeq) + 1
      ensures old(startSeq) + 1 == TWO64 ==> k == 0 && reserved == old(reserved)
    {
      startSeq := (startSeq + 1) % TWO64;
      k := startSeq;
      if k != 0 {
        reserved := reserved + {k};
      }
    }

    lemma NotPendingZero()
      requires Valid()
      ensures 0 !in pending && 0 !in timers.mapSeqIndex
    {
    }

    /** `AddPending`: number 0 is refused; any other comes from GenerateSeq and is used once. */
    method AddPending(call: Call, now: int)
      requires Valid() && (call.seqNo == 0 || call.seqNo in reserved)
      modifies this, timers
      ensures Valid() && startSeq == old(startSeq) && handed == old(handed) && reserved == old(reserved) - {call.seqNo}
      ensures call.seqNo == 0 ==> pending == old(pending) && timers.callTimer == old(timers.callTimer)
      ensures call.seqNo != 0 ==>
        && pending == old(pending)[call.seqNo := call]
        && (forall x :: x in timers.callTimer <==>
              x in old(timers.callTimer) || x == Item(call.seqNo, now + call.timeOut))
    {
      if call.seqNo == 0 {
        return;
      }
      assert call.seqNo !in pending;
      pending := pending[call.seqNo := call];
      IndexedKeys(timers.callTimer, timers.mapSeqIndex);
      ghost var was := timers.callTimer;
      timers.AddTimer(call.seqNo, now, call.timeOut);
      IndexedKeys(timers.callTimer, timers.mapSeqIndex);
      assert Item(call.seqNo, now + call.timeOut) in timers.callTimer;
      forall k ensures k in pending <==> k in timers.mapSeqIndex {
        if k in old(pending) {
          var x :| x in was && x.key == k;
          assert x in timers.callTimer;
        }
      }
      reserved := reserved - {call.seqNo};
      issued := issued + {call.seqNo};
    }

    /** Take call k out of the map once its timer is gone. */
    method HandOver(k: u64, outcome: Outcome)
      requires timers.Valid() && k in pending && Once() && Fresh() && pending[k].seqNo == k
      requires forall j :: j in pending && j != k <==> j in timers.mapSeqIndex
      requires forall j :: j in pending ==> pending[j].seqNo == j
      modifies `pending, `handed
      ensures Valid() && pending == old(pending) - {k} && handed == old(handed) + [HandOut(old(pending)[k], outcome)]
    {
      handed := handed + [HandOut(pending[k], outcome)];
      pending := pending - {k};
      assert handed[|handed| - 1].call.seqNo == k;
      assert Once() by { OnceMore(old(pending), old(handed), k); }
    }

    lemma OnceMore(p: map<u64, Call>, h: seq<HandOut>, k: u64)
      requires k in p && pending == p - {k} && |handed| == |h| + 1 && handed[..|h|] == h && handed[|h|].call.seqNo == k
      requires forall j :: j in issued <==> j in p || exists i :: 0 <= i < |h| && h[i].call.seqNo == j
      requires forall i :: 0 <= i < |h| ==> h[i].call.seqNo !in p
      requires forall i, j :: 0 <= i < j < |h| ==> h[i].call.seqNo != h[j].call.seqNo
      ensures Once()
    {
      assert forall i :: 0 <= i < |h| ==> handed[i] == h[i];
      forall j ensures j in issued <==> j in pending || exists i :: 0 <= i < |handed| && handed[i].call.seqNo == j {
        if j in issued && j !in p {
          var i :| 0 <= i < |h| && h[i].call.seqNo == j;
          assert handed[i].call.seqNo == j;
        }
      }
    }

    /** `RemovePending`: the call, if it is still pending. */
    method RemovePending(k: u64) returns (r: Option<Call>)
      requires Valid()
      modifies this, timers
      ensures Valid() && startSeq == old(startSeq) && reserved == old(reserved)
      ensures r == if k in old(pending) then Some(old(pending)[k]) else None
      ensures r.None? ==> pending == old(pending) && handed == old(handed) && timers.callTimer == old(timers.callTimer)
      ensures r.Some? ==> forall y :: y in timers.callTimer <==> y in old(timers.callTimer) && y.key != k
      ensures r.Some? ==> pending == old(pending) - {k} && handed == old(handed) + [HandOut(r.value, Responded)]
    {
      NotPendingZero();
      if k == 0 {
        return None;
      }
      if k !in pending {
        return None;
      }
      r := Some(pending[k]);
      IndexedKeys(timers.callTimer, timers.mapSeqIndex);
      var found := timers.Cancel(k);
      IndexedKeys(timers.callTimer, timers.mapSeqIndex);
      HandOver(k, Responded);
    }

    /** One round of `checkRpcCallTimeout`: the earliest call, if it is due. The branch for a
        timer without a call cannot be taken. */
    method CheckTimeout(now: int) returns (more: bool, ghost x: Item)
      requires Valid()
      modifies this, timers
      ensures Valid() && startSeq == old(startSeq) && reserved == old(reserved)
      ensures !more ==> forall y :: y in timers.callTimer ==> y.time > now
      ensures !more ==> pending == old(pending) && handed == old(handed) && timers.callTimer == old(timers.callTimer)
      ensures more ==>
        && x in old(timers.callTimer) && x.time <= now && x.key in old(pending)
        && (forall y :: y in old(timers.callTimer) ==> x.time <= y.time)
        && (forall y :: y in timers.callTimer <==> y in old(timers.callTimer) && y != x)
        && pending == old(pending) - {x.key}
        && handed == old(handed) + [HandOut(old(pending)[x.key], TimedOut)]
    {
      NotPendingZero();
      IndexedKeys(timers.callTimer, timers.mapSeqIndex);
      ghost var was := timers.callTimer;
      IndexedDistinct(was, timers.mapSeqIndex);
      var k;
      ghost var popped;
      k, x, popped := timers.PopTimeout(now);
      if k == 0 {
        return false, x;
      }
      IndexedKeys(timers.callTimer, timers.mapSeqIndex);
      OneOwner(was, x);
      assert k in pending;
      HandOver(k, TimedOut);
      return true, x;
    }

    /** One round of `cleanPending`: the earliest call, due or not. */
    method CleanOne() returns (more: bool, ghost x: Item)
      requires Valid()
      modifies this, timers
      ensures Valid() && startSeq == old(startSeq) && reserved == old(reserved)
      ensures more <==> old(timers.callTimer) != []
      ensures !more ==> pending == old(pending) == map[] && handed == old(handed) && timers.callTimer == []
      ensures more ==>
        && x in old(timers.callTimer) && x.key in old(pending)
        && (forall y :: y in old(timers.callTimer) ==> x.time <= y.time)
        && (forall y :: y in timers.callTimer <==> y in old(timers.callTimer) && y != x)
        && pending == old(pending) - {x.key}
        && handed == old(handed) + [HandOut(old(pending)[x.key], Disconnected)]
    {
      NotPendingZero();
      IndexedKeys(timers.callTimer, timers.mapSeqIndex);
      ghost var was := timers.callTimer;
      IndexedDistinct(was, timers.mapSeqIndex);
      var k;
      ghost var popped;
      k, x, popped := timers.PopFirst();
      IndexedKeys(timers.callTimer, timers.mapSeqIndex);
      if k == 0 {
        assert pending.Keys == {};
        return false, x;
      }
      OneOwner(was, x);
      assert k in pending;
      HandOver(k, Disconnected);
      return true, x;
    }

    /** A whole sweep of `checkRpcCallTimeout`, undisturbed; clock[i] is the reading in round i. */
    method Sweep(clock: seq<int>) returns (ghost out: seq<Item>)
      requires Valid()
      modifies this, timers
      ensures Valid() && Due(out, clock) && startSeq == old(startSeq) && reserved == old(reserved)
      ensures Drained(old(timers.callTimer), old(pending), old(handed), timers.callTimer, pending, handed, out,
                      TimedOut)
      ensures |out| < |clock| ==> forall y :: y in timers.callTimer ==> y.time > clock[|out|]
    {
      out := [];
      var i := 0;
      while i < |clock|
        invariant Valid() && i == |out| && Due(out, clock) && startSeq == old(startSeq) && reserved == old(reserved)
        invariant Drained(old(timers.callTimer), old(pending), old(handed), timers.callTimer, pending, handed, out,
                          TimedOut)
      {
        ghost var s, p, h := timers.callTimer, pending, handed;
        var more;
        ghost var x;
        more, x := CheckTimeout(clock[i]);
        if !more {
          return;
        }
        DrainedMore(old(timers.callTimer), old(pending), old(handed), s, p, h, out, TimedOut, x, timers.callTimer);
        DueMore(out, x, clock);
        out := out + [x];
        i := i + 1;
      }
    }

    /** `cleanPending`: everything pending is handed out, in fire order. */
    method CleanPending() returns (ghost out: seq<Item>)
      requires Valid()
      modifies this, timers
      ensures Valid() && pending == map[] && timers.callTimer == [] && startSeq == old(startSeq)
              && reserved == old(reserved)
      ensures Drained(old(timers.callTimer), old(pending), old(handed), [], map[], handed, out, Disconnected)
    {
      out := [];
      var more := true;
      while more
        invariant Valid() && (!more ==> pending == map[] && timers.callTimer == []) && startSeq == old(startSeq)
                  && reserved == old(reserved)
        invariant Drained(old(timers.callTimer), old(pending), old(handed), timers.callTimer, pending, handed, out,
                          Disconnected)
        decreases more, pending.Keys
      {
        ghost var s, p, h := timers.callTimer, pending, handed;
        ghost var x;
        more, x := CleanOne();
        if more {
          DrainedMore(old(timers.callTimer), old(pending), old(handed), s, p, h, out, Disconnected, x,
                      timers.callTimer);
          out := out + [x];
        }
      }
    }
  }

  /** From timers s0, calls p0 and log h0 to s, p and h, exactly the timers `out` were taken,
      earliest first, and each of their calls was handed out with the given outcome. */
  ghost predicate Drained(s0: seq<Item>, p0: map<u64, Call>, h0: seq<HandOut>,
                          s: seq<Item>, p: map<u64, Call>, h: seq<HandOut>, out: seq<Item>, outcome: Outcome)
  {
    && (forall y :: y in s0 <==> y in s || y in out) && (forall y :: y in s ==> y !in out)
    && InFireOrder(out) && (out != [] ==> forall y :: y in s ==> out[|out| - 1].time <= y.time)
    && (forall k :: k in p ==> k in p0 && p[k] == p0[k])
    && |h| == |h0| + |out| && h0 <= h
    && forall i :: 0 <= i < |out| ==> out[i].key in p0 && h[|h0| + i] == HandOut(p0[out[i].key], outcome)
  }

  lemma DrainedMore(s0: seq<Item>, p0: map<u64, Call>, h0: seq<HandOut>, s: seq<Item>, p: map<u64, Call>,
                    h: seq<HandOut>, out: seq<Item>, outcome: Outcome, x: Item, s': seq<Item>)
    requires Drained(s0, p0, h0, s, p, h, out, outcome) && x in s && x.key in p
    requires forall y :: y in s' <==> y in s && y != x
    requires forall y :: y in s ==> x.time <= y.time
    ensures Drained(s0, p0, h0, s', p - {x.key}, h + [HandOut(p[x.key], outcome)], out + [x], outcome)
  {
  }

  /** Round i took a timer that had fired by its clock reading. */
  ghost predicate Due(out: seq<Item>, clock: seq<int>) {
    |out| <= |clock| && forall i :: 0 <= i < |out| ==> out[i].time <= clock[i]
  }

  lemma DueMore(out: seq<Item>, x: Item, clock: seq<int>)
    requires Due(out, clock) && |out| < |clock| && x.time <= clock[|out|]
    ensures Due(out + [x], clock)
  {
  }

  ghost predicate InFireOrder(out: seq<Item>) {
    forall i, j :: 0 <= i < j < |out| ==> out[i].time <= out[j].time
  }

  lemma OneOwner(s: seq<Item>, x: Item)
    requires DistinctKeys(s) && x in s
    ensures forall y :: y in s && y.key == x.key ==> y == x
  {
  }

  // ---- whole runs ----

  /** What callers, responses, the timeout check and a disconnect do to the set. */
  datatype Op =
    | Generate
    | Add(seqNo: u64, timeOut: int, now: int)
    | Respond(seqNo: u64)
    | CheckTimeouts(clock: seq<int>)
    | Disconnect

  /** The state of the set: the last number given, the numbers given and not yet used, the pending
      calls, their timers, and the calls handed out. */
  datatype Snap = Snap(startSeq: u64, reserved: set<u64>, pending: map<u64, Call>, timers: seq<Item>,
                       handed: seq<HandOut>)

  /** Exactly the pending calls have timers. */
  ghost predicate Timed(a: Snap) {
    forall k :: k in a.pending <==> exists y :: y in a.timers && y.key == k
  }

  ghost predicate GenerateDoes(a: Snap, b: Snap) {
    b == a.(startSeq := b.startSeq, reserved := a.reserved + {b.startSeq}) && b.startSeq == a.startSeq + 1
  }

  /** Only a number that was given and not yet used gets a call. */
  ghost predicate AddDoes(call: Call, now: int, a: Snap, b: Snap) {
    if call.seqNo == 0 || call.seqNo !in a.reserved then b == a
    else
      && b == a.(reserved := a.reserved - {call.seqNo}, pending := a.pending[call.seqNo := call], timers := b.timers)
      && forall y :: y in b.timers <==> y in a.timers || y == Item(call.seqNo, now + call.timeOut)
  }

  ghost predicate RespondDoes(k: u64, a: Snap, b: Snap) {
    if k !in a.pending then b == a
    else
      && b == a.(pending := a.pending - {k}, timers := b.timers,
                 handed := a.handed + [HandOut(a.pending[k], Responded)])
      && forall y :: y in b.timers <==> y in a.timers && y.key != k
  }

  /** Exactly the timers `out` were taken, earliest first, and their calls handed out. */
  ghost predicate DrainDoes(out: seq<Item>, outcome: Outcome, a: Snap, b: Snap) {
    && b == a.(pending := b.pending, timers := b.timers, handed := b.handed)
    && Drained(a.timers, a.pending, a.handed, b.timers, b.pending, b.handed, out, outcome)
  }

  ghost predicate SweepDoes(clock: seq<int>, a: Snap, b: Snap) {
    exists out :: DrainDoes(out, TimedOut, a, b) && Due(out, clock)
      && (|out| < |clock| ==> forall y :: y in b.timers ==> y.time > clock[|out|])
  }

  ghost predicate DisconnectDoes(a: Snap, b: Snap) {
    b.pending == map[] && b.timers == [] && exists out :: DrainDoes(out, Disconnected, a, b)
  }

  ghost predicate OpDoes(op: Op, a: Snap, b: Snap) {
    if op.Generate? then GenerateDoes(a, b)
    else if op.Add? then AddDoes(Call(op.seqNo, op.timeOut), op.now, a, b)
    else if op.Respond? then RespondDoes(op.seqNo, a, b)
    else if op.CheckTimeouts? then SweepDoes(op.clock, a, b)
    else DisconnectDoes(a, b)
  }

  /** The states of a run so far, from a to z: each operation has made its state of the one before,
      and in each exactly the pending calls have timers. */
  ghost predicate Linked(ops: seq<Op>, snaps: seq<Snap>, a: Snap, z: Snap) {
    var n := |snaps| - 1;
    && 0 <= n <= |ops| && snaps[n] == z && Timed(z)
    && if n == 0 then a == z else OpDoes(ops[n - 1], snaps[n - 1], z) && Linked(ops, snaps[..n], a, snaps[n - 1])
  }

  lemma LinkedNext(ops: seq<Op>, snaps: seq<Snap>, a: Snap, y: Snap, z: Snap)
    requires Linked(ops, snaps, a, y) && |snaps| <= |ops| && OpDoes(ops[|snaps| - 1], y, z) && Timed(z)
    ensures Linked(ops, snaps + [z], a, z)
  {
    var all := snaps + [z];
    assert all[..|snaps|] == snaps && all[|snaps|] == z && all[|snaps| - 1] == y;
  }

  /** Call k of state a is still pending in z, or has been handed out since; nothing handed out is lost. */
  ghost predicate Accounted(k: u64, a: Snap, z: Snap) {
    && a.handed <= z.handed
    && (k in a.pending && (k !in z.pending || z.pending[k] != a.pending[k]) ==>
          exists i :: |a.handed| <= i < |z.handed| && z.handed[i].call == a.pending[k])
  }

  lemma DrainAccounts(k: u64, out: seq<Item>, outcome: Outcome, a: Snap, b: Snap)
    requires DrainDoes(out, outcome, a, b) && Timed(a) && Timed(b)
    ensures Accounted(k, a, b)
  {
    if k in a.pending && k !in b.pending {
      var y :| y in a.timers && y.key == k;
      var i :| 0 <= i < |out| && out[i] == y;
      assert b.handed[|a.handed| + i].call == a.pending[k];
    }
  }

  lemma StepAccounts(k: u64, op: Op, a: Snap, b: Snap)
    requires OpDoes(op, a, b) && Timed(a) && Timed(b) && Unused(a)
    ensures Accounted(k, a, b)
  {
    if op.CheckTimeouts? {
      var out :| DrainDoes(out, TimedOut, a, b);
      DrainAccounts(k, out, TimedOut, a, b);
    } else if op.Disconnect? {
      var out :| DrainDoes(out, Disconnected, a, b);
      DrainAccounts(k, out, Disconnected, a, b);
    } else if op.Respond? && op.seqNo in a.pending {
      assert b.handed[|a.handed|].call == a.pending[op.seqNo];
    }
  }

  lemma AccountedOn(k: u64, a: Snap, b: Snap, c: Snap)
    requires Accounted(k, a, b) && Accounted(k, b, c)
    ensures Accounted(k, a, c)
  {
    if k in a.pending && (k !in b.pending || b.pending[k] != a.pending[k]) {
      var i :| |a.handed| <= i < |b.handed| && b.handed[i].call == a.pending[k];
      assert c.handed[i] == b.handed[i];
    }
  }

  /** No number given and not yet used is pending. */
  ghost predicate Unused(a: Snap) {
    && (forall j :: j in a.reserved ==> j !in a.pending && j <= a.startSeq)
    && (forall j :: j in a.pending ==> j <= a.startSeq)
  }

  lemma StepUnused(op: Op, a: Snap, b: Snap)
    requires OpDoes(op, a, b) && Unused(a)
    ensures Unused(b)
  {
    if op.CheckTimeouts? {
      var out :| DrainDoes(out, TimedOut, a, b);
    }
  }

  lemma {:induction false} LinkedUnused(ops: seq<Op>, snaps: seq<Snap>, a: Snap, z: Snap)
    requires Linked(ops, snaps, a, z) && Unused(a)
    ensures Unused(z) && Timed(z)
  {
    var n := |snaps| - 1;
    if n > 0 {
      LinkedUnused(ops, snaps[..n], a, snaps[n - 1]);
      StepUnused(ops[n - 1], snaps[n - 1], z);
    }
  }

  /** Every call that is pending at any point of a run is still pending at its end, or has been
      handed out since. */
  lemma {:induction false} NoneLost(ops: seq<Op>, snaps: seq<Snap>, a: Snap, z: Snap, j: nat, k: u64)
    requires Linked(ops, snaps, a, z) && Unused(a) && j < |snaps|
    ensures Accounted(k, snaps[j], z)
  {
    var n := |snaps| - 1;
    if j < n {
      NoneLost(ops, snaps[..n], a, snaps[n - 1], j, k);
      LinkedUnused(ops, snaps[..n], a, snaps[n - 1]);
      StepAccounts(k, ops[n - 1], snaps[n - 1], z);
      AccountedOn(k, snaps[j], snaps[n - 1], z);
    }
  }

  ghost function SnapOf(cs: CallSet): Snap
    reads cs, cs.timers
  {
    Snap(cs.startSeq, cs.reserved, cs.pending, cs.timers.callTimer, cs.handed)
  }

  /** One operation; tickets are the numbers that callers have been given and not yet used, and
      a caller adds a call only under such a number or under 0. */
  method Apply(cs: CallSet, op: Op, tickets: set<u64>) returns (left: set<u64>)
    requires cs.Valid() && cs.reserved == tickets && cs.startSeq + 1 < TWO64
    modifies cs, cs.timers
    ensures cs.Valid() && cs.reserved == left && cs.startSeq <= old(cs.startSeq) + 1
    ensures OpDoes(op, old(SnapOf(cs)), SnapOf(cs))
  {
    left := tickets;
    ghost var a := SnapOf(cs);
    match op
    case Generate =>
      var k := cs.GenerateSeq();
      left := tickets + {k};
    case Add(seqNo, timeOut, now) =>
      if seqNo == 0 || seqNo in tickets {
        cs.AddPending(Call(seqNo, timeOut), now);
        left := tickets - {seqNo};
      }
    case Respond(seqNo) => var _ := cs.RemovePending(seqNo);
    case CheckTimeouts(clock) =>
      ghost var out := cs.Sweep(clock);
      assert DrainDoes(out, TimedOut, a, SnapOf(cs));
    case Disconnect =>
      ghost var out := cs.CleanPending();
      assert DrainDoes(out, Disconnected, a, SnapOf(cs));
  }

  lemma ValidTimed(cs: CallSet)
    requires cs.Valid()
    ensures Timed(SnapOf(cs))
  {
    IndexedKeys(cs.timers.callTimer, cs.timers.mapSeqIndex);
  }

  /** In every reachable state the map, the timers and their index agree, and every call that was
      added is pending or has been handed out exactly once; each operation has done to the set
      what it should, and no call that was ever pending is lost. */
  method RunAll(ops: seq<Op>) returns (cs: CallSet, ghost snaps: seq<Snap>)
    requires |ops| + 1 < TWO64
    ensures cs.Valid() && |snaps| == |ops| + 1 && Linked(ops, snaps, Snap(0, {}, map[], [], []), SnapOf(cs))
    ensures forall j, k :: 0 <= j < |snaps| && k in snaps[j].pending ==> Accounted(k, snaps[j], SnapOf(cs))
  {
    cs := new CallSet();
    var tickets: set<u64> := {};
    ghost var none := SnapOf(cs);
    ValidTimed(cs);
    snaps := [none];
    for i := 0 to |ops|
      invariant fresh(cs) && fresh(cs.timers) && cs.Valid() && cs.reserved == tickets && cs.startSeq <= i
      invariant |snaps| == i + 1 && Linked(ops, snaps, none, SnapOf(cs))
    {
      ghost var y := SnapOf(cs);
      tickets := Apply(cs, ops[i], tickets);
      ValidTimed(cs);
      LinkedNext(ops, snaps, none, y, SnapOf(cs));
      snaps := snaps + [SnapOf(cs)];
    }
    forall j, k | 0 <= j < |snaps| && k in snaps[j].pending
      ensures Accounted(k, snaps[j], SnapOf(cs))
    {
      NoneLost(ops, snaps, none, SnapOf(cs), j, k);
    }
  }
}
