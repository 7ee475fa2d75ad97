/** The write/close protocol of a TCP connection (network/conn.go) as a step relation: callers
    of Write, Close and Destroy behind one lock, and the writer goroutine. The check of the
    channel length and the send that follows it are separate steps. */
module NetConn {
  import opened Counting

  /** What travels on writeChan: a caller's buffer, or the nil that asks the writer to stop. */
  datatype Msg = Buf(b: nat) | Stop

  /** Who holds the lock, and how far it has got. */
  datatype Holder =
    | Free
    | WriteCheck(b: nat)      // Write: before the tests of closeFlag and channel length
    | WriteSend(b: nat)       // doWrite: the channel was not full
    | CloseCheck              // Close: before its tests
    | CloseSend               // doWrite(nil): the channel was not full
    | CloseFlag               // Close: before it sets closeFlag
    | Drain                   // the writer goroutine, in freeChannel

  /** Where the writer goroutine is. */
  datatype Writer = Receiving | Sending(b: nat) | Ending | Draining | Done

  datatype State = State(
    queue: seq<Msg>,          // the buffered writeChan
    chanClosed: bool,
    flag: bool,               // closeFlag
    holder: Holder,
    writer: Writer,
    accepted: seq<nat>,       // history: buffers sent on the channel, in order
    refused: seq<nat>,        // history: buffers Write gave back without sending
    attempted: seq<nat>,      // history: buffers the writer has handed to the socket, in order
    drained: seq<nat>,        // history: buffers taken out by freeChannel
    released: seq<nat>)       // history: buffers returned to the pool, in order

  datatype Step =
    | BeginWrite(b: nat) | TestWrite | SendBuffer
    | BeginClose | TestClose | SendStop | SetFlag
    | Destroy
    | Receive | SocketWrite(ok: bool) | LockForDrain | DrainOne | FinishDrain

  function Init(): State {
    State([], false, false, Free, Receiving, [], [], [], [], [])
  }

  predicate Known(s: State, b: nat) {
    b in s.accepted || b in s.refused || s.holder == WriteCheck(b) || s.holder == WriteSend(b)
  }

  predicate Enabled(s: State, step: Step) {
    match step
    case BeginWrite(b) => s.holder.Free? && !Known(s, b)
    case TestWrite => s.holder.WriteCheck?
    case SendBuffer => s.holder.WriteSend?
    case BeginClose => s.holder.Free?
    case TestClose => s.holder.CloseCheck?
    case SendStop => s.holder.CloseSend?
    case SetFlag => s.holder.CloseFlag?
    case Destroy => s.holder.Free?
    case Receive => s.writer.Receiving? && (s.queue != [] || s.chanClosed)
    case SocketWrite(_) => s.writer.Sending?
    case LockForDrain => s.writer.Ending? && s.holder.Free?
    case DrainOne => s.writer.Draining? && s.queue != []
    case FinishDrain => s.writer.Draining? && s.queue == []
  }

  /** The step does not close a closed channel, send on one, or block while holding the lock. */
  predicate Safe(s: State, cap: nat, step: Step) {
    && (step.SendBuffer? || step.SendStop? ==> !s.chanClosed && |s.queue| < cap)
    && (step.Destroy? && !s.flag ==> !s.chanClosed)
    && (step.TestWrite? && !s.flag && |s.queue| == cap ==> !s.chanClosed)
    && (step.TestClose? && !s.flag && |s.queue| == cap ==> !s.chanClosed)
  }

  /** `doDestroy` when closeFlag is clear. */
  function Destroyed(s: State): State {
    s.(chanClosed := true, flag := true, holder := Free)
  }

  function GiveBack(s: State, b: nat): State {
    s.(refused := s.refused + [b], released := s.released + [b])
  }

  function Do(s: State, cap: nat, step: Step): State
    requires Enabled(s, step)
  {
    match step
    case BeginWrite(b) => s.(holder := WriteCheck(b))
    case TestWrite =>
      if s.flag then GiveBack(s, s.holder.b).(holder := Free)
      else if |s.queue| == cap then Destroyed(GiveBack(s, s.holder.b))
      else s.(holder := WriteSend(s.holder.b))
    case SendBuffer =>
      s.(queue := s.queue + [Buf(s.holder.b)], accepted := s.accepted + [s.holder.b], holder := Free)
    case BeginClose => s.(holder := CloseCheck)
    case TestClose =>
      if s.flag then s.(holder := Free)
      else if |s.queue| == cap then Destroyed(s)
      else s.(holder := CloseSend)
    case SendStop => s.(queue := s.queue + [Stop], holder := CloseFlag)
    case SetFlag => s.(flag := true, holder := Free)
    case Destroy => if s.flag then s else Destroyed(s)
    case Receive =>
      if s.queue == [] then s.(writer := Ending)
      else if s.queue[0].Stop? then s.(queue := s.queue[1..], writer := Ending)
      else s.(queue := s.queue[1..], writer := Sending(s.queue[0].b), attempted := s.attempted + [s.queue[0].b])
    case SocketWrite(ok) =>
      s.(released := s.released + [s.writer.b], writer := if ok then Receiving else Ending)
    case LockForDrain => s.(writer := Draining, holder := Drain)
    case DrainOne =>
      var s' := s.(queue := s.queue[1..]);
      if s.queue[0].Stop? then s'
      else s'.(drained := s.drained + [s.queue[0].b], released := s.released + [s.queue[0].b])
    case FinishDrain => s.(writer := Done, flag := true, holder := Free)
  }

  /** The buffers among some messages, in order. */
  function Buffers(ms: seq<Msg>): seq<nat> {
    if ms == [] then [] else (if ms[0].Buf? then [ms[0].b] else []) + Buffers(ms[1..])
  }

  lemma {:induction false} BuffersAppend(ms: seq<Msg>, m: Msg)
    ensures Buffers(ms + [m]) == Buffers(ms) + (if m.Buf? then [m.b] else [])
  {
    if ms == [] {
      assert ms + [m] == [m] && [m][1..] == [];
    } else {
      var first, last := if ms[0].Buf? then [ms[0].b] else [], if m.Buf? then [m.b] else [];
      assert (ms + [m])[1..] == ms[1..] + [m];
      BuffersAppend(ms[1..], m);
      assert first + (Buffers(ms[1..]) + last) == (first + Buffers(ms[1..])) + last;
    }
  }

  // ---- what every step keeps ----

  /** The lock, the flag and the channel. */
  ghost predicate Locked(s: State, cap: nat) {
    && (s.chanClosed ==> s.flag)
    && |s.queue| <= cap
    && (s.holder.WriteSend? || s.holder.CloseSend? ==> !s.flag && |s.queue| < cap)
    && (s.holder.CloseFlag? ==> !s.flag)
    && (s.holder.Drain? <==> s.writer.Draining?)
    && (s.writer.Done? ==> s.flag && s.queue == [])
  }

  /** Accepted buffers go to the socket in order, then to freeChannel, and the rest wait. */
  ghost predicate Ordered(s: State) {
    && s.accepted == s.attempted + s.drained + Buffers(s.queue)
    && (s.drained != [] ==> s.writer.Draining? || s.writer.Done?)
    && (s.writer.Sending? ==> s.attempted != [] && s.attempted[|s.attempted| - 1] == s.writer.b)
  }

  /** The buffer the writer is handing to the socket. */
  ghost function InFlight(s: State): seq<nat> {
    if s.writer.Sending? then [s.writer.b] else []
  }

  /** Each buffer: released or in flight as often as refused, attempted or drained. */
  ghost predicate Tally(s: State, b: nat) {
    Count(s.released, b) + Count(InFlight(s), b) == Count(s.refused, b) + Count(s.attempted, b) + Count(s.drained, b)
  }

  ghost predicate ReleasedOk(s: State) {
    forall b :: Tally(s, b)
  }

  /** No buffer comes twice. */
  ghost predicate Distinct(s: State) {
    && (forall b :: Count(s.accepted, b) + Count(s.refused, b) <= 1)
    && (s.holder.WriteCheck? || s.holder.WriteSend? ==> s.holder.b !in s.accepted && s.holder.b !in s.refused)
  }

  ghost predicate Inv(s: State, cap: nat) {
    Locked(s, cap) && Ordered(s) && ReleasedOk(s) && Distinct(s)
  }

  lemma LockedStep(s: State, cap: nat, step: Step)
    requires Locked(s, cap) && Enabled(s, step)
    ensures Safe(s, cap, step) && Locked(Do(s, cap, step), cap)
  {
  }

  lemma OrderedStep(s: State, cap: nat, step: Step)
    requires Ordered(s) && Locked(s, cap) && Enabled(s, step)
    ensures Ordered(Do(s, cap, step))
  {
    match step
    case SendBuffer =>
      BuffersAppend(s.queue, Buf(s.holder.b));
      assert s.attempted + s.drained + Buffers(s.queue) + [s.holder.b] ==
             s.attempted + s.drained + (Buffers(s.queue) + [s.holder.b]);
    case SendStop => BuffersAppend(s.queue, Stop);
    case Receive =>
      if s.queue != [] && s.queue[0].Buf? {
        MoveOne(s.attempted, [], s.queue[0].b, Buffers(s.queue[1..]));
      }
    case DrainOne =>
      if s.queue[0].Buf? { MoveOne(s.attempted, s.drained, s.queue[0].b, Buffers(s.queue[1..])); }
    case _ =>
  }

  lemma MoveOne(a: seq<nat>, d: seq<nat>, b: nat, rest: seq<nat>)
    ensures a + d + ([b] + rest) == a + (d + [b]) + rest
    ensures a + [] + ([b] + rest) == (a + [b]) + [] + rest
  {
  }

  lemma TallyReleased(s: State, s': State, b: nat, x: nat)
    requires Tally(s, b) && s'.attempted == s.attempted && s'.released == s.released + [x]
    requires || (s'.refused == s.refused + [x] && s'.drained == s.drained && InFlight(s') == InFlight(s))
             || (s'.refused == s.refused && s'.drained == s.drained + [x] && InFlight(s') == InFlight(s))
             || (s'.refused == s.refused && s'.drained == s.drained && InFlight(s) == [x] && InFlight(s') == [])
    ensures Tally(s', b)
  {
    CountOne(s.released, x, b);
    CountOne(s.refused, x, b);
    CountOne(s.drained, x, b);
  }

  lemma TallyAttempted(s: State, s': State, b: nat, x: nat)
    requires Tally(s, b) && s'.attempted == s.attempted + [x] && InFlight(s) == [] && InFlight(s') == [x]
    requires s'.released == s.released && s'.refused == s.refused && s'.drained == s.drained
    ensures Tally(s', b)
  {
    CountOne(s.attempted, x, b);
  }

  lemma TallySame(s: State, s': State, b: nat)
    requires Tally(s, b) && s'.released == s.released && s'.refused == s.refused && s'.attempted == s.attempted
    requires s'.drained == s.drained && InFlight(s') == InFlight(s)
    ensures Tally(s', b)
  {
  }

  lemma TallyStep(s: State, cap: nat, step: Step, b: nat)
    requires Tally(s, b) && Enabled(s, step)
    ensures Tally(Do(s, cap, step), b)
  {
    var s' := Do(s, cap, step);
    if step.TestWrite? && (s.flag || |s.queue| == cap) {
      TallyReleased(s, s', b, s.holder.b);
    } else if step.Receive? && s.queue != [] && s.queue[0].Buf? {
      TallyAttempted(s, s', b, s.queue[0].b);
    } else if step.SocketWrite? {
      TallyReleased(s, s', b, s.writer.b);
    } else if step.DrainOne? && s.queue[0].Buf? {
      TallyReleased(s, s', b, s.queue[0].b);
    } else {
      TallySame(s, s', b);
    }
  }

  lemma ReleasedStep(s: State, cap: nat, step: Step)
    requires ReleasedOk(s) && Enabled(s, step)
    ensures ReleasedOk(Do(s, cap, step))
  {
    forall b
      ensures Tally(Do(s, cap, step), b)
    {
      TallyStep(s, cap, step, b);
    }
  }

  lemma DistinctStep(s: State, cap: nat, step: Step)
    requires Distinct(s) && Enabled(s, step)
    ensures Distinct(Do(s, cap, step))
  {
    if step.SendBuffer? || step.TestWrite? {
      var x := s.holder.b;
      CountIn(s.accepted, x);
      CountIn(s.refused, x);
      forall b
        ensures Count(s.accepted + [x], b) + Count(s.refused, b) <= 1
        ensures Count(s.accepted, b) + Count(s.refused + [x], b) <= 1
      {
        CountOne(s.accepted, x, b);
        CountOne(s.refused, x, b);
      }
    }
  }

  // ---- whole runs ----

  datatype Outcome = At(s: State) | Impossible | Broken

  ghost function Run(cap: nat, steps: seq<Step>): Outcome {
    if steps == [] then At(Init())
    else
      var before := Run(cap, steps[..|steps| - 1]);
      var step := steps[|steps| - 1];
      if !before.At? then before
      else if !Enabled(before.s, step) then Impossible
      else if !Safe(before.s, cap, step) then Broken
      else At(Do(before.s, cap, step))
  }

  /** Under every interleaving nobody sends on a closed channel, closes it twice, or blocks on a
      send under the lock. */
  lemma {:induction false} AllRuns(cap: nat, steps: seq<Step>)
    ensures !Run(cap, steps).Broken?
    ensures Run(cap, steps).At? ==> Inv(Run(cap, steps).s, cap)
    decreases |steps|
  {
    if steps != [] {
      var step := steps[|steps| - 1];
      AllRuns(cap, steps[..|steps| - 1]);
      var before := Run(cap, steps[..|steps| - 1]);
      if before.At? && Enabled(before.s, step) {
        LockedStep(before.s, cap, step);
        OrderedStep(before.s, cap, step);
        ReleasedStep(before.s, cap, step);
        DistinctStep(before.s, cap, step);
      }
    }
  }

  /** In every reachable state the buffers handed to the socket are a prefix of those accepted. */
  lemma SocketSeesPrefix(cap: nat, steps: seq<Step>)
    requires Run(cap, steps).At?
    ensures Run(cap, steps).s.attempted <= Run(cap, steps).s.accepted
  {
    AllRuns(cap, steps);
  }

  /** No buffer is ever released twice; once the writer has exited, every buffer that was
      accepted or refused has been released exactly once. */
  lemma ReleasedOnce(cap: nat, steps: seq<Step>, b: nat)
    requires Run(cap, steps).At?
    ensures var s := Run(cap, steps).s;
      && Count(s.released, b) <= 1
      && (s.writer.Done? ==> Count(s.released, b) == (if b in s.accepted || b in s.refused then 1 else 0))
  {
    AllRuns(cap, steps);
    var s := Run(cap, steps).s;
    assert Tally(s, b);
    CountAppend(s.attempted + s.drained, Buffers(s.queue), b);
    CountAppend(s.attempted, s.drained, b);
    CountIn(s.accepted, b);
    CountIn(s.refused, b);
  }

  lemma RunMore(cap: nat, steps: seq<Step>, step: Step)
    requires Run(cap, steps).At? && Enabled(Run(cap, steps).s, step)
    ensures Run(cap, steps + [step]) == At(Do(Run(cap, steps).s, cap, step))
    ensures Inv(Run(cap, steps).s, cap) && Inv(Run(cap, steps + [step]).s, cap)
  {
    AllRuns(cap, steps);
    AllRuns(cap, steps + [step]);
    LockedStep(Run(cap, steps).s, cap, step);
    assert (steps + [step])[..|steps|] == steps;
  }

  // ---- what a call does ----

  /** With the lock free any call can begin, a Write with any buffer not given to Write before. */
  lemma CallsBegin(cap: nat, steps: seq<Step>, b: nat)
    requires Run(cap, steps).At? && Run(cap, steps).s.holder.Free?
    ensures var s := Run(cap, steps).s;
            && Run(cap, steps + [BeginClose]) == At(s.(holder := CloseCheck))
            && (b !in s.accepted && b !in s.refused ==>
                  Run(cap, steps + [BeginWrite(b)]) == At(s.(holder := WriteCheck(b))))
  {
    RunMore(cap, steps, BeginClose);
    if b !in Run(cap, steps).s.accepted && b !in Run(cap, steps).s.refused {
      RunMore(cap, steps, BeginWrite(b));
    }
  }

  /** A Write that finds closeFlag clear and room in the channel puts its buffer behind everything
      accepted; with closeFlag set it only gives the buffer back; with the channel full it gives the
      buffer back and closes the connection. */
  lemma WriteDoes(cap: nat, steps: seq<Step>, b: nat)
    requires Run(cap, steps).At? && Run(cap, steps).s.holder == WriteCheck(b)
    ensures var s := Run(cap, steps).s;
            var back := s.(refused := s.refused + [b], released := s.released + [b], holder := Free);
            if s.flag then Run(cap, steps + [TestWrite]) == At(back)
            else if |s.queue| < cap then
              Run(cap, steps + [TestWrite] + [SendBuffer]) ==
              At(s.(accepted := s.accepted + [b], queue := s.queue + [Buf(b)], holder := Free))
            else Run(cap, steps + [TestWrite]) == At(back.(flag := true, chanClosed := true))
  {
    var s := Run(cap, steps).s;
    RunMore(cap, steps, TestWrite);
    if !s.flag && |s.queue| < cap {
      RunMore(cap, steps + [TestWrite], SendBuffer);
    }
  }

  /** A Close that finds closeFlag clear and room in the channel puts the nil behind everything
      accepted and sets closeFlag; with closeFlag set it changes nothing; with the channel full it
      closes the channel. */
  lemma CloseDoes(cap: nat, steps: seq<Step>)
    requires Run(cap, steps).At? && Run(cap, steps).s.holder.CloseCheck?
    ensures var s := Run(cap, steps).s;
            if s.flag then Run(cap, steps + [TestClose]) == At(s.(holder := Free))
            else if |s.queue| < cap then
              Run(cap, steps + [TestClose] + [SendStop] + [SetFlag]) ==
              At(s.(queue := s.queue + [Stop], flag := true, holder := Free))
            else Run(cap, steps + [TestClose]) == At(s.(flag := true, chanClosed := true, holder := Free))
  {
    var s := Run(cap, steps).s;
    RunMore(cap, steps, TestClose);
    if !s.flag && |s.queue| < cap {
      RunMore(cap, steps + [TestClose], SendStop);
      RunMore(cap, steps + [TestClose] + [SendStop], SetFlag);
    }
  }

  /** A Destroy closes the channel and sets closeFlag, or changes nothing if the flag is set. */
  lemma DestroyDoes(cap: nat, steps: seq<Step>)
    requires Run(cap, steps).At? && Run(cap, steps).s.holder.Free?
    ensures var s := Run(cap, steps).s;
            Run(cap, steps + [Destroy]) == At(if s.flag then s else s.(flag := true, chanClosed := true))
  {
    RunMore(cap, steps, Destroy);
  }

  /** A writer at its loop hands the first buffer of the channel to the socket and gives it back, and
      goes on exactly if the socket took it. */
  lemma WriterSends(cap: nat, steps: seq<Step>, b: nat, ok: bool)
    requires Run(cap, steps).At?
    requires var s := Run(cap, steps).s; s.writer.Receiving? && s.queue != [] && s.queue[0] == Buf(b)
    ensures var s := Run(cap, steps).s;
            Run(cap, steps + [Receive] + [SocketWrite(ok)]) ==
            At(s.(queue := s.queue[1..], attempted := s.attempted + [b], released := s.released + [b],
                  writer := if ok then Receiving else Ending))
  {
    RunMore(cap, steps, Receive);
    RunMore(cap, steps + [Receive], SocketWrite(ok));
  }

  // ---- what a run has done, told from its steps ----

  /** The state before the last of the steps. */
  ghost function Before(cap: nat, steps: seq<Step>): State
    requires steps != [] && Run(cap, steps).At?
  {
    Run(cap, steps[..|steps| - 1]).s
  }

  /** The tests of Write and Close that let a message pass, and the message. */
  function Passes(s: State, cap: nat, step: Step): seq<Msg>
    requires Enabled(s, step)
  {
    if s.flag || |s.queue| >= cap then []
    else if step.TestWrite? then [Buf(s.holder.b)]
    else if step.TestClose? then [Stop]
    else []
  }

  function Refuses(s: State, cap: nat, step: Step): seq<nat>
    requires Enabled(s, step)
  {
    if step.TestWrite? && (s.flag || |s.queue| >= cap) then [s.holder.b] else []
  }

  /** What the step takes out of the channel. */
  function Takes(s: State, step: Step): seq<Msg>
    requires Enabled(s, step)
  {
    if (step.Receive? && s.queue != []) || step.DrainOne? then s.queue[..1] else []
  }

  ghost function Passed(cap: nat, steps: seq<Step>): seq<Msg>
    requires Run(cap, steps).At?
  {
    if steps == [] then [] else Passed(cap, steps[..|steps| - 1]) + Passes(Before(cap, steps), cap, steps[|steps| - 1])
  }

  ghost function Refused(cap: nat, steps: seq<Step>): seq<nat>
    requires Run(cap, steps).At?
  {
    if steps == [] then []
    else Refused(cap, steps[..|steps| - 1]) + Refuses(Before(cap, steps), cap, steps[|steps| - 1])
  }

  ghost function Taken(cap: nat, steps: seq<Step>): seq<Msg>
    requires Run(cap, steps).At?
  {
    if steps == [] then [] else Taken(cap, steps[..|steps| - 1]) + Takes(Before(cap, steps), steps[|steps| - 1])
  }

  /** The message that has passed the test and is not yet in the channel. */
  function AboutToSend(s: State): seq<Msg> {
    if s.holder.WriteSend? then [Buf(s.holder.b)] else if s.holder.CloseSend? then [Stop] else []
  }

  lemma ChannelStep(s: State, cap: nat, step: Step)
    requires Locked(s, cap) && Enabled(s, step)
    ensures var s' := Do(s, cap, step);
            s.queue + AboutToSend(s) + Passes(s, cap, step) == Takes(s, step) + s'.queue + AboutToSend(s')
  {
    if Takes(s, step) != [] {
      assert s.queue == s.queue[..1] + s.queue[1..];
    }
  }

  lemma Regroup(taken: seq<Msg>, q: seq<Msg>, hand: seq<Msg>, pass: seq<Msg>, take: seq<Msg>, q': seq<Msg>,
                hand': seq<Msg>)
    requires q + hand + pass == take + q' + hand'
    ensures (taken + q + hand) + pass == (taken + take) + q' + hand'
  {
    assert (taken + q + hand) + pass == taken + (q + hand + pass);
    assert taken + (take + q' + hand') == (taken + take) + q' + hand';
  }

  /** Under every interleaving the channel is first in, first out: what has passed the tests of Write
      and Close is, in that order, what was taken, what waits, and what is about to be sent. */
  lemma {:induction false} ChannelTold(cap: nat, steps: seq<Step>)
    requires Run(cap, steps).At?
    ensures var s := Run(cap, steps).s; Passed(cap, steps) == Taken(cap, steps) + s.queue + AboutToSend(s)
    decreases |steps|
  {
    if steps != [] {
      var front, step := steps[..|steps| - 1], steps[|steps| - 1];
      var s, s' := Before(cap, steps), Run(cap, steps).s;
      AllRuns(cap, front);
      ChannelTold(cap, front);
      ChannelStep(s, cap, step);
      Regroup(Taken(cap, front), s.queue, AboutToSend(s), Passes(s, cap, step), Takes(s, step), s'.queue,
              AboutToSend(s'));
    }
  }

  lemma WritesStep(s: State, cap: nat, step: Step)
    requires Locked(s, cap) && Enabled(s, step)
    ensures Do(s, cap, step).refused == s.refused + Refuses(s, cap, step)
    ensures var s' := Do(s, cap, step);
            s.accepted + Buffers(AboutToSend(s)) + Buffers(Passes(s, cap, step)) ==
            s'.accepted + Buffers(AboutToSend(s'))
  {
  }

  /** A buffer is refused exactly when its Write found closeFlag set or the channel full. */
  lemma {:induction false} RefusedTold(cap: nat, steps: seq<Step>)
    requires Run(cap, steps).At?
    ensures Run(cap, steps).s.refused == Refused(cap, steps)
    decreases |steps|
  {
    if steps != [] {
      AllRuns(cap, steps[..|steps| - 1]);
      RefusedTold(cap, steps[..|steps| - 1]);
      WritesStep(Before(cap, steps), cap, steps[|steps| - 1]);
    }
  }

  lemma BuffersMore(ms: seq<Msg>, more: seq<Msg>)
    requires |more| <= 1
    ensures Buffers(ms + more) == Buffers(ms) + Buffers(more)
  {
    if more == [] {
      assert ms + more == ms;
    } else {
      BuffersAppend(ms, more[0]);
      assert more == [more[0]];
    }
  }

  /** The buffers that passed the test are those accepted, and the one about to be sent. */
  lemma {:induction false} AcceptedTold(cap: nat, steps: seq<Step>)
    requires Run(cap, steps).At?
    ensures var s := Run(cap, steps).s;
            Buffers(Passed(cap, steps)) == s.accepted + Buffers(AboutToSend(s))
    decreases |steps|
  {
    if steps != [] {
      var front, step := steps[..|steps| - 1], steps[|steps| - 1];
      var s := Before(cap, steps);
      AllRuns(cap, front);
      AcceptedTold(cap, front);
      WritesStep(s, cap, step);
      BuffersMore(Passed(cap, front), Passes(s, cap, step));
    }
  }

  // ---- an orderly end ----

  /** Steps of the writer goroutine and of a caller that has the lock: all but the calls. */
  predicate Inner(step: Step) {
    !step.BeginWrite? && !step.BeginClose? && !step.Destroy?
  }

  predicate Ended(w: Writer) {
    w.Ending? || w.Draining? || w.Done?
  }

  /** Nothing stands behind the nil, and closeFlag is set, or about to be, from then on; with the
      flag set the writer has something to end its loop. */
  ghost predicate Closed(s: State) {
    && (forall i :: 0 <= i < |s.queue| && s.queue[i] == Stop ==> i == |s.queue| - 1 && (s.flag || s.holder.CloseFlag?))
    && (s.flag || s.holder.CloseFlag? ==> s.chanClosed || Stop in s.queue || Ended(s.writer))
  }

  /** Unless the socket has failed, the writer leaves its loop with the channel empty for good. */
  ghost predicate Delivered(s: State) {
    s.drained == [] && (Ended(s.writer) ==> s.queue == [] && (s.flag || s.holder.CloseFlag?))
  }

  lemma ClosedStep(s: State, cap: nat, step: Step)
    requires Locked(s, cap) && Closed(s) && Enabled(s, step)
    ensures Closed(Do(s, cap, step))
  {
    if (step.Receive? || step.DrainOne?) && s.queue != [] {
      assert s.queue == s.queue[..1] + s.queue[1..];
    }
  }

  lemma DeliveredStep(s: State, cap: nat, step: Step)
    requires Locked(s, cap) && Closed(s) && Delivered(s) && Enabled(s, step) && step != SocketWrite(false)
    ensures Delivered(Do(s, cap, step))
  {
    if step.Receive? && s.queue != [] && s.queue[0].Stop? {
      assert |s.queue| == 1;
    }
  }

  lemma {:induction false} AllClosed(cap: nat, steps: seq<Step>)
    requires Run(cap, steps).At?
    ensures Closed(Run(cap, steps).s)
    ensures SocketWrite(false) !in steps ==> Delivered(Run(cap, steps).s)
    decreases |steps|
  {
    if steps != [] {
      var front, step := steps[..|steps| - 1], steps[|steps| - 1];
      AllRuns(cap, front);
      AllClosed(cap, front);
      ClosedStep(Before(cap, steps), cap, step);
      if SocketWrite(false) !in steps {
        DeliveredStep(Before(cap, steps), cap, step);
      }
    }
  }

  /** Closing loses nothing by itself: unless a socket write has failed, as writes do once Destroy has
      closed the socket, a writer that has left its loop has handed every accepted buffer to the
      socket, and no buffer will be accepted any more. */
  lemma NothingLost(cap: nat, steps: seq<Step>)
    requires Run(cap, steps).At? && SocketWrite(false) !in steps && Ended(Run(cap, steps).s.writer)
    ensures var s := Run(cap, steps).s; s.attempted == s.accepted && (s.flag || s.holder.CloseFlag?)
  {
    AllRuns(cap, steps);
    AllClosed(cap, steps);
  }

  /** Once closeFlag is set nothing more is accepted, whatever the calls that follow. */
  lemma {:induction false} ClosedForGood(cap: nat, steps: seq<Step>, more: seq<Step>)
    requires Run(cap, steps + more).At? && Run(cap, steps).At? && Run(cap, steps).s.flag
    ensures Run(cap, steps + more).s.flag && Run(cap, steps + more).s.accepted == Run(cap, steps).s.accepted
    decreases |more|
  {
    if more == [] {
      assert steps + more == steps;
    } else {
      var front := more[..|more| - 1];
      assert (steps + more)[..|steps + more| - 1] == steps + front;
      ClosedForGood(cap, steps, front);
      AllRuns(cap, steps + front);
    }
  }

  /** A bound on the steps to come while no further call begins. */
  function Work(s: State): nat {
    3 * |s.queue|
    + (match s.holder
       case Free => 0
       case WriteCheck(_) => 5
       case WriteSend(_) => 4
       case CloseCheck => 6
       case CloseSend => 5
       case CloseFlag => 1
       case Drain => 0)
    + (match s.writer
       case Receiving => 3
       case Sending(_) => 4
       case Ending => 2
       case Draining => 1
       case Done => 0)
  }

  /** The lock is free and the writer has exited, or waits at an open and empty channel. */
  predicate Resting(s: State) {
    s.holder.Free? && (s.writer.Done? || (s.writer.Receiving? && s.queue == [] && !s.chanClosed))
  }

  lemma WorkStep(s: State, cap: nat, step: Step)
    requires Enabled(s, step) && Inner(step)
    ensures Work(Do(s, cap, step)) < Work(s)
  {
  }

  /** Whoever is to move next, if anybody. */
  function Mover(s: State): Step {
    match s.holder
    case WriteCheck(_) => TestWrite
    case WriteSend(_) => SendBuffer
    case CloseCheck => TestClose
    case CloseSend => SendStop
    case CloseFlag => SetFlag
    case Drain => if s.queue == [] then FinishDrain else DrainOne
    case Free => if s.writer.Ending? then LockForDrain else if s.writer.Sending? then SocketWrite(true) else Receive
  }

  /** Nobody waits for ever: a state in which no goroutine can move is at rest, and with closeFlag set
      the writer has then exited. */
  lemma NoDeadlock(cap: nat, steps: seq<Step>)
    requires Run(cap, steps).At?
    ensures var s := Run(cap, steps).s;
            && (Resting(s) <==> forall step :: Inner(step) ==> !Enabled(s, step))
            && (Resting(s) && s.flag ==> s.writer.Done?)
  {
    AllRuns(cap, steps);
    AllClosed(cap, steps);
    var s := Run(cap, steps).s;
    if !Resting(s) {
      assert Inner(Mover(s)) && Enabled(s, Mover(s));
    }
  }

  /** While no further call begins, the goroutines take at most `Work` steps. With closeFlag set, a run
      that goes on as long as one of them can move ends with the writer gone and every buffer, accepted
      or refused, released once. */
  lemma {:induction false} Finishes(cap: nat, steps: seq<Step>, more: seq<Step>)
    requires Run(cap, steps).At? && Run(cap, steps + more).At? && forall step :: step in more ==> Inner(step)
    ensures |more| + Work(Run(cap, steps + more).s) <= Work(Run(cap, steps).s)
    ensures var s := Run(cap, steps + more).s;
            Run(cap, steps).s.flag && (forall step :: Inner(step) ==> !Enabled(s, step)) ==>
              && s.writer.Done? && s.accepted == Run(cap, steps).s.accepted
              && forall b :: Count(s.released, b) == if b in s.accepted || b in s.refused then 1 else 0
    decreases |more|
  {
    if more == [] {
      assert steps + more == steps;
    } else {
      var front := more[..|more| - 1];
      assert (steps + more)[..|steps + more| - 1] == steps + front;
      assert more[|more| - 1] in more;
      Finishes(cap, steps, front);
      WorkStep(Run(cap, steps + front).s, cap, more[|more| - 1]);
    }
    NoDeadlock(cap, steps + more);
    if Run(cap, steps).s.flag && Resting(Run(cap, steps + more).s) {
      ClosedForGood(cap, steps, more);
      forall b
        ensures Count(Run(cap, steps + more).s.released, b) ==
                if b in Run(cap, steps + more).s.accepted || b in Run(cap, steps + more).s.refused then 1 else 0
      {
        ReleasedOnce(cap, steps + more, b);
      }
    }
  }
}
