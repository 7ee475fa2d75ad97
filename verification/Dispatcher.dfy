/** The concurrent task dispatcher (concurrent/dispatch.go, worker.go, concurrent.go) as a
    step relation: one dispatcher goroutine, a growing pool of workers, submitters, and the
    closing handshake. Each step is what one goroutine does between two points where another
    one can observe it. */
module Dispatcher {
  import opened Words
  import opened Modulus
  import opened Counting

  // ---- queue ids ----

  const MAX_TASK_QUEUE_SESSION_ID: int := 10000

  /** The folding of queue ids in `AsyncDoByQueue`; 0 means no queue. */
  function Fold(queueId: int): int {
    if queueId != 0 then Rem(queueId, MAX_TASK_QUEUE_SESSION_ID) + 1 else queueId
  }

  /** The queue ids that folding leaves. */
  predicate Folded(q: int) {
    -10000 < q - 1 < 10000
  }

  /** A positive id names the queue that is its remainder and one more; a negative one that of its
      positive counterpart, mirrored at one; and exactly the ids congruent to -1 lose theirs. */
  lemma FoldQueues(queueId: int)
    ensures queueId > 0 ==> Fold(queueId) == queueId % 10000 + 1 && 1 <= Fold(queueId) <= MAX_TASK_QUEUE_SESSION_ID
    ensures queueId < 0 ==> Fold(queueId) == 1 - -queueId % 10000
    ensures Fold(queueId) == 0 <==> queueId == 0 || (queueId < 0 && (queueId + 1) % MAX_TASK_QUEUE_SESSION_ID == 0)
    ensures Folded(Fold(queueId))
  {
    if queueId < 0 {
      var n := MAX_TASK_QUEUE_SESSION_ID;
      var k, m := (-queueId) / n, (-queueId) % n;
      if m <= 1 {
        ModUnique(queueId + 1, n, -k, 1 - m);
      } else {
        ModUnique(queueId + 1, n, -k - 1, n + 1 - m);
      }
    }
  }

  // ---- states ----

  datatype Task = Task(id: nat, queueId: int)

  /** Where a worker goroutine is: in fn, about to push the callback, about to push the finish
      event, at its select, told to exit, or returned. */
  datatype Worker = Running(t: Task) | Reporting(t: Task) | Notifying(t: Task) | Waiting | Leaving | Gone

  /** Where the dispatcher is: at the select for finish events only; at the one for everything, having
      seen no finish event; in executeTask, with a PushBack to follow or not; between the hand-off and
      the PushBack; waiting for the workers; or returned. */
  datatype Pc = Select | Choosing | Executing(t: Task, push: bool) | Pushing(t: Task) | Closing | Exited

  datatype Callback = OfTask(id: nat) | OfSubmitter | Nil

  datatype State = State(
    pc: Pc,
    tasks: seq<Task>,                    // the task channel
    sessions: map<int, seq<Task>>,       // mapTaskQueueSession
    workers: map<nat, Worker>,
    events: seq<int>,                    // queueIdChannel
    callbacks: seq<Callback>,            // cbChannel
    workerNum: int,
    closing: bool,                       // minConcurrentNum == -1
    accepted: seq<Task>,                 // history: accepted submissions, in order
    started: seq<Task>,                  // history: tasks handed to a worker, in order
    done: seq<Task>,                     // history: tasks that a worker has let go of, in order
    pushed: seq<Callback>)               // history: everything ever sent on cbChannel

  datatype Limits = Limits(maxConcurrentNum: nat, channelCap: nat)

  datatype Step =
    | Submit(t: Task)
    | SubmitterCallback
    | Look
    | Tick
    | TakeTask
    | HandOver(w: nat)
    | Spawn(w: nat)
    | PushBack
    | FnReturns(w: nat, callback: bool)
    | PushCallback(w: nat)
    | PushEvent(w: nat)
    | TakeEvent
    | TellToExit(w: nat)
    | WorkerExits(w: nat)
    | Close
    | StartWaiting
    | SendNil
    | TakeCallback

  function Session(s: State, q: int): seq<Task> {
    if q in s.sessions then s.sessions[q] else []
  }

  predicate Live(w: Worker) {
    !w.Leaving? && !w.Gone?
  }

  predicate AtSelect(pc: Pc) {
    pc.Select? || pc.Choosing?
  }

  /** The task a worker is working on or has not yet reported as finished. */
  predicate Holds(w: Worker, t: Task) {
    (w.Running? || w.Reporting? || w.Notifying?) && w.t == t
  }

  function Init(): State {
    State(Select, [], map[], map[], [], [], 0, false, [], [], [], [])
  }

  // ---- steps ----

  predicate Enabled(s: State, c: Limits, step: Step) {
    match step
    case Submit(t) => |s.tasks| < c.channelCap && forall u :: u in s.accepted ==> u.id != t.id
    case SubmitterCallback => |s.callbacks| < c.channelCap
    case Look => s.pc.Select? && s.events == []
    case Tick => s.pc.Choosing?
    case TakeTask => s.pc.Choosing? && s.tasks != []
    case HandOver(w) => s.pc.Executing? && w in s.workers && s.workers[w].Waiting?
    case Spawn(w) => s.pc.Executing? && s.workerNum < c.maxConcurrentNum && w !in s.workers
    case PushBack => s.pc.Pushing?
    case FnReturns(w, _) => w in s.workers && s.workers[w].Running?
    case PushCallback(w) => w in s.workers && s.workers[w].Reporting? && |s.callbacks| < c.channelCap
    case PushEvent(w) => w in s.workers && s.workers[w].Notifying? && |s.events| < c.channelCap
    case TakeEvent => AtSelect(s.pc) && s.events != []
    case TellToExit(w) => AtSelect(s.pc) && w in s.workers && s.workers[w].Waiting?
    case WorkerExits(w) => w in s.workers && s.workers[w].Leaving?
    case Close => true
    case StartWaiting => s.pc.Select? && s.closing && s.workerNum == 0
    case SendNil => s.pc.Closing? && |s.callbacks| < c.channelCap && forall w :: w in s.workers ==> s.workers[w].Gone?
    case TakeCallback => s.callbacks != []
  }

  /** The task in the dispatcher's hand goes to worker w. */
  function Start(s: State, w: nat, t: Task): State {
    s.(workers := s.workers[w := Running(t)], started := s.started + [t])
  }

  function AfterHandOff(pc: Pc): Pc
    requires pc.Executing?
  {
    if pc.push then Pushing(pc.t) else Select
  }

  /** Worker w lets go of its task. */
  function LetGo(s: State, w: nat, t: Task): State {
    s.(workers := s.workers[w := Waiting], done := s.done + [t])
  }

  /** The end of `endCallFun`: only queued tasks send a finish event. */
  function EndCall(s: State, w: nat, t: Task): State {
    if t.queueId != 0 then s.(workers := s.workers[w := Notifying(t)]) else LetGo(s, w, t)
  }

  /** `processTask` up to `executeTask`. */
  function ProcessTask(s: State, t: Task): State {
    if t.queueId == 0 then s.(pc := Executing(t, false))
    else if Session(s, t.queueId) == [] then
      s.(pc := Executing(t, true), sessions := s.sessions[t.queueId := []])
    else s.(pc := Select, sessions := s.sessions[t.queueId := Session(s, t.queueId) + [t]])
  }

  /** `processQueueEvent` up to `executeTask`; PopFront on an empty session would panic. */
  function ProcessEvent(s: State, q: int): State
    requires q in s.sessions ==> s.sessions[q] != []
  {
    if q !in s.sessions then s.(pc := Select)
    else
      var rest := s.sessions[q][1..];
      s.(sessions := s.sessions[q := rest], pc := if rest == [] then Select else Executing(rest[0], false))
  }

  /** No `PopFront` on an empty session: what TakeEvent needs. */
  predicate Safe(s: State, step: Step) {
    step.TakeEvent? && s.events != [] && s.events[0] in s.sessions ==> s.sessions[s.events[0]] != []
  }

  function Do(s: State, c: Limits, step: Step): State
    requires Enabled(s, c, step) && Safe(s, step)
  {
    match step
    case Submit(t) => s.(tasks := s.tasks + [t], accepted := s.accepted + [t])
    case SubmitterCallback => s.(callbacks := s.callbacks + [OfSubmitter], pushed := s.pushed + [OfSubmitter])
    case Look => s.(pc := Choosing)
    case Tick => s.(pc := Select)
    case TakeTask => ProcessTask(s.(tasks := s.tasks[1..]), s.tasks[0])
    case HandOver(w) => Start(s, w, s.pc.t).(pc := AfterHandOff(s.pc))
    case Spawn(w) => Start(s, w, s.pc.t).(pc := AfterHandOff(s.pc), workerNum := s.workerNum + 1)
    case PushBack =>
      s.(pc := Select, sessions := s.sessions[s.pc.t.queueId := Session(s, s.pc.t.queueId) + [s.pc.t]])
    case FnReturns(w, callback) =>
      var t := s.workers[w].t;
      if callback then s.(workers := s.workers[w := Reporting(t)]) else EndCall(s, w, t)
    case PushCallback(w) =>
      var t := s.workers[w].t;
      EndCall(s.(callbacks := s.callbacks + [OfTask(t.id)], pushed := s.pushed + [OfTask(t.id)]), w, t)
    case PushEvent(w) => LetGo(s, w, s.workers[w].t).(events := s.events + [s.workers[w].t.queueId])
    case TakeEvent => ProcessEvent(s.(events := s.events[1..]), s.events[0])
    case TellToExit(w) => s.(pc := Select, workers := s.workers[w := Leaving], workerNum := s.workerNum - 1)
    case WorkerExits(w) => s.(workers := s.workers[w := Gone])
    case Close => s.(closing := true)
    case StartWaiting => s.(pc := Closing)
    case SendNil => s.(pc := Exited, callbacks := s.callbacks + [Nil], pushed := s.pushed + [Nil])
    case TakeCallback => s.(callbacks := s.callbacks[1..])
  }

  // ---- what every step keeps ----

  /** The queue a worker is busy with, or 0. */
  function Busy(w: Worker): int {
    if w.Running? || w.Reporting? || w.Notifying? then w.t.queueId else 0
  }

  /** Nobody is running, or has finished unseen, a task of queue q. */
  ghost predicate Quiet(s: State, q: int) {
    q !in s.events && forall w :: w in s.workers ==> Busy(s.workers[w]) != q
  }

  /** Per queue at most one worker or one finish event, and never both. */
  ghost predicate OneActive(s: State) {
    && (forall v, w :: v in s.workers && w in s.workers && v != w && Busy(s.workers[v]) != 0 ==>
          Busy(s.workers[v]) != Busy(s.workers[w]))
    && (forall i, j :: 0 <= i < j < |s.events| ==> s.events[i] != s.events[j])
    && (forall q :: q in s.events ==> q != 0 && forall w :: w in s.workers ==> Busy(s.workers[w]) != q)
  }

  /** Sessions hold tasks of their own queue. */
  ghost predicate OwnSessions(s: State) {
    forall q :: q in s.sessions ==> q != 0 && forall t :: t in s.sessions[q] ==> t.queueId == q
  }

  /** The active task of a queue is the front of its session, or is about to be pushed there. */
  ghost predicate ActiveInFront(s: State) {
    && (forall w :: w in s.workers && Busy(s.workers[w]) != 0 ==>
          var t := s.workers[w].t;
          s.pc == Pushing(t) || (Session(s, t.queueId) != [] && Session(s, t.queueId)[0] == t))
    && (forall q :: q in s.events ==> (s.pc.Pushing? && s.pc.t.queueId == q) || Session(s, q) != [])
  }

  /** What the dispatcher has in hand. */
  ghost predicate HandOk(s: State) {
    match s.pc
    case Executing(t, push) =>
      (push ==> t.queueId != 0) && (t.queueId != 0 ==>
        && Quiet(s, t.queueId)
        && (if push then Session(s, t.queueId) == []
            else Session(s, t.queueId) != [] && Session(s, t.queueId)[0] == t))
    case Pushing(t) => t.queueId != 0 && Session(s, t.queueId) == []
    case _ => true
  }

  ghost predicate Serial(s: State) {
    OneActive(s) && OwnSessions(s) && ActiveInFront(s) && HandOk(s)
  }

  /** A finish event always finds its session non-empty. */
  lemma SerialSafe(s: State, step: Step)
    requires Serial(s) && (step.TakeEvent? ==> AtSelect(s.pc) && s.events != [])
    ensures Safe(s, step)
  {
    if step.TakeEvent? {
      var q := s.events[0];
      assert q in s.events;
      assert ActiveInFront(s);
      assert Session(s, q) != [];
    }
  }

  lemma SerialTakeTask(s: State, c: Limits)
    requires Serial(s) && Enabled(s, c, TakeTask)
    ensures Serial(Do(s, c, TakeTask))
  {
    var t, s' := s.tasks[0], Do(s, c, TakeTask);
    assert forall q :: q != t.queueId ==> Session(s', q) == Session(s, q);
    if t.queueId != 0 && Session(s, t.queueId) == [] {
      assert Quiet(s, t.queueId);
    }
  }

  lemma ActiveStart(s: State, s': State, w: nat, t: Task)
    requires OneActive(s) && (t.queueId != 0 ==> Quiet(s, t.queueId))
    requires s'.workers == s.workers[w := Running(t)] && s'.events == s.events
    ensures OneActive(s')
  {
    assert forall v :: v in s'.workers && v != w ==> v in s.workers && s'.workers[v] == s.workers[v];
  }

  lemma SerialStart(s: State, c: Limits, step: Step)
    requires Serial(s) && (step.HandOver? || step.Spawn?) && Enabled(s, c, step)
    ensures Serial(Do(s, c, step))
  {
    var s' := Do(s, c, step);
    ActiveStart(s, s', step.w, s.pc.t);
    assert forall w :: w in s'.workers && w != step.w ==> w in s.workers && s'.workers[w] == s.workers[w];
    assert forall q :: Session(s', q) == Session(s, q);
  }

  lemma SerialPushBack(s: State, c: Limits)
    requires Serial(s) && Enabled(s, c, PushBack)
    ensures Serial(Do(s, c, PushBack))
  {
    var t, s' := s.pc.t, Do(s, c, PushBack);
    assert forall q :: q != t.queueId ==> Session(s', q) == Session(s, q);
    assert Session(s', t.queueId) == [t];
  }

  lemma ActivePushEvent(s: State, s': State, w: nat, q: int)
    requires OneActive(s) && w in s.workers && Busy(s.workers[w]) == q && q != 0
    requires s'.events == s.events + [q] && s'.workers == s.workers[w := Waiting]
    ensures OneActive(s')
  {
    assert q !in s.events;
    assert forall i :: 0 <= i < |s.events| ==> s'.events[i] == s.events[i] && s.events[i] in s.events;
    assert forall p :: p in s'.events <==> p in s.events || p == q;
    assert forall v :: v in s'.workers && v != w ==> v in s.workers && s'.workers[v] == s.workers[v];
  }

  lemma SerialPushEvent(s: State, c: Limits, w: nat)
    requires Serial(s) && Enabled(s, c, PushEvent(w))
    requires s.workers[w].t.queueId != 0
    ensures Serial(Do(s, c, PushEvent(w)))
  {
    var q, s' := s.workers[w].t.queueId, Do(s, c, PushEvent(w));
    ActivePushEvent(s, s', w, q);
    assert forall p :: p in s'.events <==> p in s.events || p == q;
    assert forall v :: v in s'.workers && v != w ==> v in s.workers && s'.workers[v] == s.workers[v];
    assert forall p :: Session(s', p) == Session(s, p);
    assert Busy(s.workers[w]) == q;
  }

  lemma SerialTakeEvent(s: State, c: Limits)
    requires Serial(s) && Enabled(s, c, TakeEvent) && Safe(s, TakeEvent)
    ensures Serial(Do(s, c, TakeEvent))
  {
    var q, s' := s.events[0], Do(s, c, TakeEvent);
    assert q in s.events;
    assert s.events == [q] + s.events[1..];
    assert q !in s'.events && forall p :: p in s'.events ==> p in s.events && p != q;
    assert forall p :: p != q ==> Session(s', p) == Session(s, p);
    assert Quiet(s', q);
    assert forall t :: t in s.sessions[q][1..] ==> t in s.sessions[q];
  }

  /** Steps that leave the dispatcher's pc, the sessions, the events and each worker's task alone. */
  lemma SerialSame(s: State, s': State)
    requires Serial(s) && s'.sessions == s.sessions && s'.events == s.events && s'.workers.Keys == s.workers.Keys
    requires || s'.pc == s.pc || (AtSelect(s.pc) && (AtSelect(s'.pc) || s'.pc.Closing?))
             || (s'.pc.Exited? && s.pc.Closing?)
    requires forall w :: w in s.workers ==> Busy(s'.workers[w]) == Busy(s.workers[w])
    requires forall w :: w in s.workers && Busy(s.workers[w]) != 0 && Busy(s'.workers[w]) != 0 ==>
               s'.workers[w].t == s.workers[w].t
    ensures Serial(s')
  {
    assert forall p :: Session(s', p) == Session(s, p);
  }

  /** Only queued tasks send finish events. */
  ghost predicate Queued(s: State) {
    forall w :: w in s.workers && s.workers[w].Notifying? ==> s.workers[w].t.queueId != 0
  }

  lemma QueuedStep(s: State, c: Limits, step: Step)
    requires Queued(s) && Enabled(s, c, step) && Safe(s, step)
    ensures Queued(Do(s, c, step))
  {
  }

  lemma SerialStep(s: State, c: Limits, step: Step)
    requires Serial(s) && Queued(s) && Enabled(s, c, step)
    ensures Safe(s, step) && Serial(Do(s, c, step))
  {
    SerialSafe(s, step);
    if step.TakeTask? {
      SerialTakeTask(s, c);
    } else if step.HandOver? || step.Spawn? {
      SerialStart(s, c, step);
    } else if step.PushBack? {
      SerialPushBack(s, c);
    } else if step.PushEvent? {
      SerialPushEvent(s, c, step.w);
    } else if step.TakeEvent? {
      SerialTakeEvent(s, c);
    } else {
      SerialSame(s, Do(s, c, step));
    }
  }

  // ---- submission order ----

  /** The tasks of queue q, in order. */
  ghost function Of(ts: seq<Task>, q: int): seq<Task> {
    if ts == [] then [] else (if ts[0].queueId == q then [ts[0]] else []) + Of(ts[1..], q)
  }

  lemma {:induction false} OfConcat(a: seq<Task>, b: seq<Task>, q: int)
    ensures Of(a + b, q) == Of(a, q) + Of(b, q)
  {
    if a == [] {
      assert a + b == b;
    } else {
      var first := if a[0].queueId == q then [a[0]] else [];
      assert (a + b)[1..] == a[1..] + b;
      OfConcat(a[1..], b, q);
      assert first + (Of(a[1..], q) + Of(b, q)) == (first + Of(a[1..], q)) + Of(b, q);
    }
  }

  lemma OfAppend(a: seq<Task>, t: Task, q: int)
    ensures Of(a + [t], q) == Of(a, q) + (if t.queueId == q then [t] else [])
  {
    OfConcat(a, [t], q);
    assert Of([t], q) == if t.queueId == q then [t] else [];
  }

  ghost function Tail(ts: seq<Task>): seq<Task> {
    if ts == [] then [] else ts[1..]
  }

  /** Accepted tasks of queue q that have left the channel and have not started. */
  ghost function InHand(s: State, q: int): seq<Task> {
    if s.pc.Executing? && s.pc.t.queueId == q then
      (if s.pc.push || q == 0 then [s.pc.t] else Session(s, q))
    else Tail(Session(s, q))
  }

  /** Accepted, not started: in hand or session tail first, then in the channel. */
  ghost function Pending(s: State, q: int): seq<Task> {
    InHand(s, q) + Of(s.tasks, q)
  }

  /** Of every queue, exactly the pending tasks have not started, and the others started in
      submission order. */
  ghost predicate InOrder(s: State, q: int) {
    Of(s.accepted, q) == Of(s.started, q) + Pending(s, q)
  }

  /** The task moves from the pending side to the started side. */
  lemma MoveOver(a: seq<Task>, started: seq<Task>, t: seq<Task>, hand: seq<Task>, rest: seq<Task>)
    requires a == started + ((t + hand) + rest)
    ensures a == (started + t) + (hand + rest)
  {
  }

  lemma MoveIn(a: seq<Task>, started: seq<Task>, hand: seq<Task>, t: seq<Task>, rest: seq<Task>)
    requires a == started + (hand + (t + rest))
    ensures a == started + ((hand + t) + rest)
  {
  }

  lemma MoveEnd(a: seq<Task>, started: seq<Task>, hand: seq<Task>, rest: seq<Task>, x: seq<Task>)
    requires a == started + (hand + rest)
    ensures a + x == started + (hand + (rest + x))
  {
  }

  lemma InHandTakeTask(s: State, c: Limits, q: int)
    requires OwnSessions(s) && Enabled(s, c, TakeTask)
    ensures InHand(Do(s, c, TakeTask), q) == InHand(s, q) + (if s.tasks[0].queueId == q then [s.tasks[0]] else [])
  {
    var t, s' := s.tasks[0], Do(s, c, TakeTask);
    assert t.queueId != q ==> Session(s', q) == Session(s, q);
  }

  lemma OrderTakeTask(s: State, c: Limits, q: int)
    requires OwnSessions(s) && Enabled(s, c, TakeTask) && InOrder(s, q)
    ensures InOrder(Do(s, c, TakeTask), q)
  {
    var t := if s.tasks[0].queueId == q then [s.tasks[0]] else [];
    InHandTakeTask(s, c, q);
    assert Do(s, c, TakeTask).tasks == s.tasks[1..];
    MoveIn(Of(s.accepted, q), Of(s.started, q), InHand(s, q), t, Of(s.tasks[1..], q));
  }

  lemma InHandStart(s: State, c: Limits, step: Step, q: int)
    requires OwnSessions(s) && HandOk(s) && (step.HandOver? || step.Spawn?) && Enabled(s, c, step)
    ensures InHand(s, q) == (if s.pc.t.queueId == q then [s.pc.t] else []) + InHand(Do(s, c, step), q)
  {
    assert Session(Do(s, c, step), q) == Session(s, q);
  }

  lemma OrderStart(s: State, c: Limits, step: Step, q: int)
    requires OwnSessions(s) && HandOk(s) && (step.HandOver? || step.Spawn?) && Enabled(s, c, step) && InOrder(s, q)
    ensures InOrder(Do(s, c, step), q)
  {
    var t := if s.pc.t.queueId == q then [s.pc.t] else [];
    InHandStart(s, c, step, q);
    OfAppend(s.started, s.pc.t, q);
    MoveOver(Of(s.accepted, q), Of(s.started, q), t, InHand(Do(s, c, step), q), Of(s.tasks, q));
  }

  lemma OrderSubmit(s: State, c: Limits, t: Task, q: int)
    requires Enabled(s, c, Submit(t)) && InOrder(s, q)
    ensures InOrder(Do(s, c, Submit(t)), q)
  {
    var s', x := Do(s, c, Submit(t)), if t.queueId == q then [t] else [];
    OfAppend(s.accepted, t, q);
    OfAppend(s.tasks, t, q);
    assert InHand(s', q) == InHand(s, q);
    MoveEnd(Of(s.accepted, q), Of(s.started, q), InHand(s, q), Of(s.tasks, q), x);
  }

  lemma OrderPushBack(s: State, c: Limits, q: int)
    requires HandOk(s) && Enabled(s, c, PushBack) && InOrder(s, q)
    ensures InOrder(Do(s, c, PushBack), q)
  {
    assert InHand(Do(s, c, PushBack), q) == InHand(s, q);
  }

  lemma OrderTakeEvent(s: State, c: Limits, q: int)
    requires Serial(s) && Enabled(s, c, TakeEvent) && Safe(s, TakeEvent) && InOrder(s, q)
    ensures InOrder(Do(s, c, TakeEvent), q)
  {
    var e, s' := s.events[0], Do(s, c, TakeEvent);
    assert e in s.events;
    assert forall p :: p != e ==> Session(s', p) == Session(s, p);
    assert InHand(s', q) == InHand(s, q);
  }

  lemma OrderSame(s: State, s': State, q: int)
    requires InOrder(s, q) && s'.accepted == s.accepted && s'.started == s.started && s'.tasks == s.tasks
    requires s'.sessions == s.sessions && (s'.pc == s.pc || (!s'.pc.Executing? && !s.pc.Executing?))
    ensures InOrder(s', q)
  {
    assert InHand(s', q) == InHand(s, q);
  }

  /** Steps that leave the channel, the sessions and the histories of tasks alone. */
  predicate Elsewhere(step: Step) {
    || step.SubmitterCallback? || step.Look? || step.Tick? || step.FnReturns? || step.PushCallback?
    || step.PushEvent? || step.TellToExit? || step.WorkerExits? || step.Close? || step.StartWaiting?
    || step.SendNil? || step.TakeCallback?
  }

  lemma ElsewhereSame(s: State, c: Limits, step: Step)
    requires Enabled(s, c, step) && Safe(s, step) && Elsewhere(step)
    ensures var s' := Do(s, c, step);
            && s'.accepted == s.accepted && s'.started == s.started && s'.tasks == s.tasks && s'.sessions == s.sessions
            && (s'.pc == s.pc || (!s'.pc.Executing? && !s.pc.Executing?))
  {
  }

  lemma OrderStep(s: State, c: Limits, step: Step, q: int)
    requires Serial(s) && Enabled(s, c, step) && Safe(s, step) && InOrder(s, q)
    ensures InOrder(Do(s, c, step), q)
  {
    if step.TakeTask? {
      OrderTakeTask(s, c, q);
    } else if step.HandOver? || step.Spawn? {
      OrderStart(s, c, step, q);
    } else if step.TakeEvent? {
      OrderTakeEvent(s, c, q);
    } else if step.Submit? {
      OrderSubmit(s, c, step.t, q);
    } else if step.PushBack? {
      OrderPushBack(s, c, q);
    } else {
      ElsewhereSame(s, c, step);
      OrderSame(s, Do(s, c, step), q);
    }
  }

  // ---- at most one run ----

  ghost predicate UniqueIds(ts: seq<Task>) {
    forall i, j :: 0 <= i < j < |ts| ==> ts[i].id != ts[j].id
  }

  lemma {:induction false} OfCount(ts: seq<Task>, t: Task)
    ensures Count(Of(ts, t.queueId), t) == Count(ts, t)
  {
    if ts != [] {
      var front, last := ts[..|ts| - 1], ts[|ts| - 1];
      OfCount(front, t);
      OfAppend(front, last, t.queueId);
      assert front + [last] == ts;
      CountOne(Of(front, t.queueId), last, t);
      assert Of(front, t.queueId) + [] == Of(front, t.queueId);
    }
  }

  lemma {:induction false} UniqueCount(ts: seq<Task>, t: Task)
    requires UniqueIds(ts)
    ensures Count(ts, t) <= 1
  {
    if ts != [] {
      var last := |ts| - 1;
      UniqueCount(ts[..last], t);
      CountIn(ts[..last], t);
      forall i | 0 <= i < last
        ensures ts[..last][i] != ts[last]
      {
        assert ts[i].id != ts[last].id;
      }
      assert ts[last] !in ts[..last];
    }
  }

  /** The task in the dispatcher's hand, before a worker has it. */
  ghost function Hand(s: State, q: int): seq<Task> {
    if s.pc.Executing? && s.pc.t.queueId == q then [s.pc.t] else []
  }

  lemma HandAndTail(s: State, q: int)
    requires OwnSessions(s) && HandOk(s)
    ensures InHand(s, q) == Hand(s, q) + Tail(Session(s, q))
  {
  }

  /** The workers that hold t. */
  ghost function Holders(s: State, t: Task): set<nat> {
    set w | w in s.workers && Holds(s.workers[w], t)
  }

  /** What was started is held by one worker or done. */
  ghost predicate HeldOrDone(s: State, t: Task) {
    Count(s.started, t) == |Holders(s, t)| + Count(s.done, t)
  }

  lemma HeldStart(s: State, s': State, w: nat, x: Task, t: Task)
    requires HeldOrDone(s, t) && (w in s.workers ==> s.workers[w].Waiting?)
    requires s'.started == s.started + [x] && s'.done == s.done && s'.workers == s.workers[w := Running(x)]
    ensures HeldOrDone(s', t)
  {
    CountOne(s.started, x, t);
    assert Holders(s', t) == if x == t then Holders(s, t) + {w} else Holders(s, t);
  }

  lemma HeldLetGo(s: State, s': State, w: nat, x: Task, t: Task)
    requires HeldOrDone(s, t) && w in s.workers && Holds(s.workers[w], x)
    requires s'.started == s.started && s'.done == s.done + [x] && s'.workers == s.workers[w := Waiting]
    ensures HeldOrDone(s', t)
  {
    CountOne(s.done, x, t);
    assert Holders(s', t) == Holders(s, t) - {w};
    assert w in Holders(s, t) <==> x == t;
  }

  lemma HeldSame(s: State, s': State, t: Task)
    requires HeldOrDone(s, t) && s'.started == s.started && s'.done == s.done && s'.workers.Keys == s.workers.Keys
    requires forall w :: w in s.workers ==> (Holds(s'.workers[w], t) <==> Holds(s.workers[w], t))
    ensures HeldOrDone(s', t)
  {
    assert Holders(s', t) == Holders(s, t);
  }

  /** Steps in which no worker takes part. */
  predicate Apart(step: Step) {
    || step.Submit? || step.SubmitterCallback? || step.Look? || step.Tick? || step.TakeTask? || step.PushBack?
    || step.TakeEvent? || step.Close? || step.StartWaiting? || step.SendNil? || step.TakeCallback?
  }

  lemma ApartSame(s: State, c: Limits, step: Step)
    requires Enabled(s, c, step) && Safe(s, step) && Apart(step)
    ensures var s' := Do(s, c, step);
            s'.workers == s.workers && s'.started == s.started && s'.done == s.done && s'.workerNum == s.workerNum
  {
  }

  lemma HeldWorker(s: State, c: Limits, step: Step, t: Task)
    requires HeldOrDone(s, t) && Enabled(s, c, step) && !Apart(step)
    ensures HeldOrDone(Do(s, c, step), t)
  {
    var s' := Do(s, c, step);
    if step.HandOver? || step.Spawn? {
      HeldStart(s, s', step.w, s.pc.t, t);
    } else if step.FnReturns? || step.PushCallback? {
      HeldEndCall(s, s', step.w, s.workers[step.w].t, t);
    } else if step.PushEvent? {
      HeldLetGo(s, s', step.w, s.workers[step.w].t, t);
    } else {
      HeldSame(s, s', t);
    }
  }

  lemma HeldStep(s: State, c: Limits, step: Step, t: Task)
    requires HeldOrDone(s, t) && Enabled(s, c, step) && Safe(s, step)
    ensures HeldOrDone(Do(s, c, step), t)
  {
    if Apart(step) {
      ApartSame(s, c, step);
      HeldSame(s, Do(s, c, step), t);
    } else {
      HeldWorker(s, c, step, t);
    }
  }

  lemma HeldEndCall(s: State, s': State, w: nat, x: Task, t: Task)
    requires HeldOrDone(s, t) && w in s.workers && Holds(s.workers[w], x) && s'.started == s.started
    requires || (s'.done == s.done + [x] && s'.workers == s.workers[w := Waiting])
             || (s'.done == s.done && s'.workers == s.workers[w := Reporting(x)])
             || (s'.done == s.done && s'.workers == s.workers[w := Notifying(x)])
    ensures HeldOrDone(s', t)
  {
    if s'.workers[w].Waiting? { HeldLetGo(s, s', w, x, t); } else { HeldSame(s, s', t); }
  }

  /** How often t is in the task channel, in the dispatcher's hand, in the tail of its session,
      with a worker, and done. */
  ghost function Places(s: State, t: Task): seq<nat> {
    [Count(s.tasks, t), if s.pc.Executing? && s.pc.t == t then 1 else 0, Count(Tail(Session(s, t.queueId)), t),
     |Holders(s, t)|, Count(s.done, t)]
  }

  /** An accepted task is in exactly one place, and any other task in none. */
  lemma Partition(s: State, t: Task)
    requires OwnSessions(s) && HandOk(s) && InOrder(s, t.queueId) && UniqueIds(s.accepted) && HeldOrDone(s, t)
    ensures var p := Places(s, t);
            p[0] + p[1] + p[2] + p[3] + p[4] == if t in s.accepted then 1 else 0
    ensures Count(s.started, t) <= 1
  {
    var q := t.queueId;
    OfCount(s.accepted, t);
    OfCount(s.started, t);
    OfCount(s.tasks, t);
    UniqueCount(s.accepted, t);
    CountIn(s.accepted, t);
    HandAndTail(s, q);
    CountAppend(Of(s.started, q), Pending(s, q), t);
    CountAppend(InHand(s, q), Of(s.tasks, q), t);
    CountAppend(Hand(s, q), Tail(Session(s, q)), t);
    CountOne([], if s.pc.Executing? then s.pc.t else t, t);
  }

  // ---- no lost wake-up ----

  /** Some worker is busy with queue q, or its finish event is on the way. */
  ghost predicate Active(s: State, q: int) {
    q in s.events || exists w :: w in s.workers && Busy(s.workers[w]) == q
  }

  /** The front of every non-empty session is active or in the dispatcher's hand, so each
      waiting task has a finish event to come. */
  ghost predicate NoneLost(s: State) {
    && (forall q :: q in s.sessions && s.sessions[q] != [] ==>
          Active(s, q) || s.pc == Executing(s.sessions[q][0], false))
    && (s.pc.Pushing? ==> Active(s, s.pc.t.queueId))
  }

  lemma ActiveKept(s: State, s': State, q: int)
    requires Active(s, q) && q != 0
    requires forall p :: p in s.events ==> p in s'.events || p != q
    requires forall w :: w in s.workers && Busy(s.workers[w]) == q ==>
      (w in s'.workers && Busy(s'.workers[w]) == q) || q in s'.events
    ensures Active(s', q)
  {
    if q !in s.events {
      var w :| w in s.workers && Busy(s.workers[w]) == q;
      assert q in s'.events || (w in s'.workers && Busy(s'.workers[w]) == q);
    }
  }

  lemma LostTakeTask(s: State, c: Limits)
    requires Serial(s) && NoneLost(s) && Enabled(s, c, TakeTask)
    ensures NoneLost(Do(s, c, TakeTask))
  {
    var s' := Do(s, c, TakeTask);
    forall q | q in s'.sessions && s'.sessions[q] != [] ensures Active(s', q) {
      assert q in s.sessions && s.sessions[q] != [];
      ActiveKept(s, s', q);
    }
  }

  lemma LostStart(s: State, c: Limits, step: Step)
    requires Serial(s) && NoneLost(s) && (step.HandOver? || step.Spawn?) && Enabled(s, c, step)
    ensures NoneLost(Do(s, c, step))
  {
    var s', t := Do(s, c, step), s.pc.t;
    assert step.w in s'.workers && Busy(s'.workers[step.w]) == t.queueId;
    forall q | q in s'.sessions && s'.sessions[q] != [] ensures Active(s', q) {
      if s.pc == Executing(s.sessions[q][0], false) {
        assert s.sessions[q][0] in s.sessions[q];
      } else {
        ActiveKept(s, s', q);
      }
    }
  }

  lemma LostPushEvent(s: State, c: Limits, w: nat)
    requires Serial(s) && Queued(s) && NoneLost(s) && Enabled(s, c, PushEvent(w))
    ensures NoneLost(Do(s, c, PushEvent(w)))
  {
    var s', p := Do(s, c, PushEvent(w)), s.workers[w].t.queueId;
    assert s'.events[|s.events|] == p;
    forall q | q != 0 && Active(s, q) ensures Active(s', q) {
      assert forall e :: e in s.events ==> e in s'.events;
      ActiveKept(s, s', q);
    }
    assert Busy(s.workers[w]) == p;
  }

  lemma LostTakeEvent(s: State, c: Limits)
    requires Serial(s) && NoneLost(s) && Enabled(s, c, TakeEvent) && Safe(s, TakeEvent)
    ensures NoneLost(Do(s, c, TakeEvent))
  {
    var s', e := Do(s, c, TakeEvent), s.events[0];
    forall q | q in s'.sessions && s'.sessions[q] != [] && q != e ensures Active(s', q) {
      assert s.sessions[q] == s'.sessions[q];
      assert s.events == [e] + s.events[1..];
      ActiveKept(s, s', q);
    }
  }

  lemma LostPushBack(s: State, c: Limits)
    requires Serial(s) && NoneLost(s) && Enabled(s, c, PushBack)
    ensures NoneLost(Do(s, c, PushBack))
  {
    var s' := Do(s, c, PushBack);
    forall q | q in s'.sessions && s'.sessions[q] != [] ensures Active(s', q) {
      ActiveKept(s, s', q);
    }
  }

  lemma LostSame(s: State, s': State)
    requires Serial(s) && NoneLost(s) && s'.sessions == s.sessions && s'.events == s.events
             && s.workers.Keys == s'.workers.Keys
    requires forall w :: w in s.workers ==> Busy(s'.workers[w]) == Busy(s.workers[w])
    requires s'.pc == s.pc || (!s'.pc.Pushing? && !s.pc.Executing?)
    ensures NoneLost(s')
  {
    forall q | q != 0 && Active(s, q) ensures Active(s', q) { ActiveKept(s, s', q); }
  }

  lemma LostStep(s: State, c: Limits, step: Step)
    requires Serial(s) && Queued(s) && NoneLost(s) && Enabled(s, c, step) && Safe(s, step)
    ensures NoneLost(Do(s, c, step))
  {
    match step
    case TakeTask => LostTakeTask(s, c);
    case HandOver(w) => LostStart(s, c, step);
    case Spawn(w) => LostStart(s, c, step);
    case PushBack => LostPushBack(s, c);
    case PushEvent(w) => LostPushEvent(s, c, w);
    case TakeEvent => LostTakeEvent(s, c);
    case _ => LostSame(s, Do(s, c, step));
  }

  // ---- the worker count and the closing handshake ----

  ghost function LiveSet(s: State): set<nat> {
    set w | w in s.workers && Live(s.workers[w])
  }

  ghost predicate Counted(s: State, c: Limits) {
    s.workerNum == |LiveSet(s)| <= c.maxConcurrentNum
  }

  /** Once the dispatcher waits for its workers, none is live; once it has returned, all are gone. */
  ghost predicate Winding(s: State) {
    && (s.pc.Closing? || s.pc.Exited? ==> forall w :: w in s.workers ==> !Live(s.workers[w]))
    && (s.pc.Exited? ==> forall w :: w in s.workers ==> s.workers[w].Gone?)
  }

  /** Nil is sent once, by a dispatcher that returns, and no worker's callback comes after it. */
  ghost predicate NilLast(s: State) {
    && (Nil in s.pushed ==> s.pc.Exited?)
    && (forall i, j :: 0 <= i < j < |s.pushed| && s.pushed[i] == Nil ==> s.pushed[j] == OfSubmitter)
  }

  /** One worker changes; whether it is live decides the count. */
  lemma LiveChange(s: State, s': State, w: nat, v: Worker)
    requires s'.workers == s.workers[w := v]
    ensures LiveSet(s') == if Live(v) then LiveSet(s) + {w} else LiveSet(s) - {w}
    ensures w in LiveSet(s) <==> w in s.workers && Live(s.workers[w])
  {
  }

  lemma LiveMore(s: State, s': State, w: nat, v: Worker)
    requires s'.workers == s.workers[w := v]
    ensures var was := w in s.workers && Live(s.workers[w]);
            |LiveSet(s')| - |LiveSet(s)| == if was && !Live(v) then -1 else if !was && Live(v) then 1 else 0
  {
    LiveChange(s, s', w, v);
    assert w in LiveSet(s) ==> LiveSet(s) + {w} == LiveSet(s);
    assert w !in LiveSet(s) ==> LiveSet(s) - {w} == LiveSet(s);
  }

  lemma CountedWorker(s: State, c: Limits, step: Step)
    requires Counted(s, c) && Enabled(s, c, step) && !Apart(step)
    ensures Counted(Do(s, c, step), c)
  {
    var s' := Do(s, c, step);
    LiveMore(s, s', step.w, s'.workers[step.w]);
  }

  lemma CountedStep(s: State, c: Limits, step: Step)
    requires Counted(s, c) && Enabled(s, c, step) && Safe(s, step)
    ensures Counted(Do(s, c, step), c)
  {
    if Apart(step) {
      ApartSame(s, c, step);
      assert LiveSet(Do(s, c, step)) == LiveSet(s);
    } else {
      CountedWorker(s, c, step);
    }
  }

  lemma WindingStep(s: State, c: Limits, step: Step)
    requires Counted(s, c) && Winding(s) && Enabled(s, c, step) && Safe(s, step)
    ensures Winding(Do(s, c, step))
  {
    if step.StartWaiting? {
      assert LiveSet(s) == {};
      forall w | w in s.workers ensures !Live(s.workers[w]) { assert w !in LiveSet(s); }
    }
  }

  lemma NilMore(s: State, s': State, x: Callback)
    requires NilLast(s) && s'.pushed == s.pushed + [x] && (s.pc.Exited? ==> s'.pc.Exited? && x == OfSubmitter)
    requires x == Nil ==> s'.pc.Exited? && !s.pc.Exited?
    ensures NilLast(s')
  {
    assert forall i :: 0 <= i < |s.pushed| ==> s'.pushed[i] == s.pushed[i] && s.pushed[i] in s.pushed;
  }

  lemma NilStep(s: State, c: Limits, step: Step)
    requires Winding(s) && NilLast(s) && Enabled(s, c, step) && Safe(s, step)
    ensures NilLast(Do(s, c, step))
  {
    var s' := Do(s, c, step);
    match step
    case SubmitterCallback => NilMore(s, s', OfSubmitter);
    case PushCallback(w) => NilMore(s, s', OfTask(s.workers[w].t.id));
    case SendNil => NilMore(s, s', Nil);
    case _ => assert s'.pushed == s.pushed && (s.pc.Exited? ==> s'.pc.Exited?);
  }

  // ---- whole runs ----

  /** A run that took all its steps, one that asked for a step that cannot happen, or one in
      which the dispatcher panicked. */
  datatype Outcome = At(s: State) | Impossible | Panicked

  ghost function Run(c: Limits, steps: seq<Step>): Outcome {
    if steps == [] then At(Init())
    else
      var before := Run(c, steps[..|steps| - 1]);
      var step := steps[|steps| - 1];
      if !before.At? then before
      else if !Enabled(before.s, c, step) then Impossible
      else if !Safe(before.s, step) then Panicked
      else At(Do(before.s, c, step))
  }

  ghost predicate Inv(s: State, c: Limits) {
    && Serial(s) && Queued(s) && NoneLost(s) && Counted(s, c) && Winding(s) && NilLast(s) && UniqueIds(s.accepted)
    && (forall q :: InOrder(s, q)) && forall t :: HeldOrDone(s, t)
  }

  lemma InvInit(c: Limits)
    ensures Inv(Init(), c)
  {
    assert LiveSet(Init()) == {};
    forall q ensures InOrder(Init(), q) {}
    forall t ensures HeldOrDone(Init(), t) { assert Holders(Init(), t) == {}; }
  }

  lemma UniqueStep(s: State, c: Limits, step: Step)
    requires UniqueIds(s.accepted) && Enabled(s, c, step) && Safe(s, step)
    ensures UniqueIds(Do(s, c, step).accepted)
  {
    if step.Submit? {
      assert forall i :: 0 <= i < |s.accepted| ==> s.accepted[i] in s.accepted;
    } else {
      assert Do(s, c, step).accepted == s.accepted;
    }
  }

  lemma InvStep(s: State, c: Limits, step: Step)
    requires Inv(s, c) && Enabled(s, c, step)
    ensures Safe(s, step) && Inv(Do(s, c, step), c)
  {
    SerialStep(s, c, step);
    QueuedStep(s, c, step);
    LostStep(s, c, step);
    CountedStep(s, c, step);
    WindingStep(s, c, step);
    NilStep(s, c, step);
    UniqueStep(s, c, step);
    var s' := Do(s, c, step);
    forall q ensures InOrder(s', q) { OrderStep(s, c, step, q); }
    forall t ensures HeldOrDone(s', t) { HeldStep(s, c, step, t); }
  }

  /** In every run, under every interleaving, the dispatcher never pops an empty session and
      every state reached satisfies the invariants. */
  lemma {:induction false} AllRuns(c: Limits, steps: seq<Step>)
    ensures !Run(c, steps).Panicked?
    ensures Run(c, steps).At? ==> Inv(Run(c, steps).s, c)
    decreases |steps|
  {
    if steps == [] {
      InvInit(c);
    } else {
      var before := Run(c, steps[..|steps| - 1]);
      AllRuns(c, steps[..|steps| - 1]);
      if before.At? && Enabled(before.s, c, steps[|steps| - 1]) { InvStep(before.s, c, steps[|steps| - 1]); }
    }
  }

  /** In every reachable state: at most one worker runs or has just finished a task of a given
      queue, and that task stands at the front of its session or is about to be pushed. */
  lemma OneAtATime(c: Limits, steps: seq<Step>, v: nat, w: nat)
    requires Run(c, steps).At?
    ensures var s := Run(c, steps).s;
      v in s.workers && w in s.workers && Busy(s.workers[v]) != 0 ==>
        && (v != w ==> Busy(s.workers[v]) != Busy(s.workers[w]))
        && Busy(s.workers[v]) !in s.events
        && var t := s.workers[v].t;
           s.pc == Pushing(t) || (Session(s, t.queueId) != [] && Session(s, t.queueId)[0] == t)
  {
    AllRuns(c, steps);
  }

  /** In every reachable state the tasks of a queue have started in the order they were
      accepted, and every accepted task is in exactly one of the task channel, the dispatcher's
      hand, the tail of its session, a worker and the done tasks; so it runs at most once. */
  lemma StartedInOrder(c: Limits, steps: seq<Step>, t: Task)
    requires Run(c, steps).At?
    ensures var s := Run(c, steps).s;
      && Of(s.started, t.queueId) <= Of(s.accepted, t.queueId)
      && Count(s.started, t) == |Holders(s, t)| + Count(s.done, t) <= 1
      && var p := Places(s, t); p[0] + p[1] + p[2] + p[3] + p[4] == if t in s.accepted then 1 else 0
  {
    AllRuns(c, steps);
    Partition(Run(c, steps).s, t);
  }

  /** No callback of a worker is sent after the nil that `close` waits for, and that nil is sent
      only when every worker has returned. */
  lemma NilAfterWorkers(c: Limits, steps: seq<Step>, i: nat, j: nat)
    requires Run(c, steps).At? && i < j < |Run(c, steps).s.pushed| && Run(c, steps).s.pushed[i] == Nil
    ensures var s := Run(c, steps).s;
      s.pushed[j] == OfSubmitter && s.workerNum == 0 && forall w :: w in s.workers ==> s.workers[w].Gone?
  {
    AllRuns(c, steps);
    var s := Run(c, steps).s;
    assert s.pushed[i] in s.pushed;
    assert LiveSet(s) == {};
  }

  // ---- what a run has done, told from its steps ----

  /** The tasks that the steps submit. */
  function Submitted(steps: seq<Step>): seq<Task> {
    if steps == [] then [] else Submitted(steps[..|steps| - 1]) + Submits(steps[|steps| - 1])
  }

  /** How many of the steps take something from a channel. */
  function Taken(steps: seq<Step>, taking: Step): nat {
    if steps == [] then 0 else Taken(steps[..|steps| - 1], taking) + if steps[|steps| - 1] == taking then 1 else 0
  }

  /** The state before the last of the steps. */
  ghost function Before(c: Limits, steps: seq<Step>): State
    requires steps != [] && Run(c, steps).At?
  {
    Run(c, steps[..|steps| - 1]).s
  }

  /** The task of a worker that has one. */
  function TaskOf(s: State, w: nat): Task
    requires w in s.workers && (s.workers[w].Running? || s.workers[w].Reporting? || s.workers[w].Notifying?)
  {
    s.workers[w].t
  }

  // What one step adds.

  function Submits(step: Step): seq<Task> {
    if step.Submit? then [step.t] else []
  }

  function Asks(s: State, c: Limits, step: Step): seq<nat>
    requires Enabled(s, c, step)
  {
    if step.FnReturns? && step.callback then [TaskOf(s, step.w).id] else []
  }

  function Sends(s: State, c: Limits, step: Step): seq<Callback>
    requires Enabled(s, c, step)
  {
    if step.SubmitterCallback? then [OfSubmitter]
    else if step.PushCallback? then [OfTask(TaskOf(s, step.w).id)]
    else if step.SendNil? then [Nil]
    else []
  }

  function Finishes(s: State, c: Limits, step: Step): seq<int>
    requires Enabled(s, c, step)
  {
    if step.PushEvent? then [TaskOf(s, step.w).queueId] else []
  }

  function Hands(s: State, c: Limits, step: Step): seq<Task>
    requires Enabled(s, c, step)
  {
    if step.HandOver? || step.Spawn? then [s.pc.t] else []
  }

  /** A worker lets go of its task with the last step for it: the finish event of a queued task,
      and otherwise the callback or, without one, the end of fn. */
  function Releases(s: State, c: Limits, step: Step): seq<Task>
    requires Enabled(s, c, step)
  {
    if step.PushEvent? then [TaskOf(s, step.w)]
    else if (step.PushCallback? || (step.FnReturns? && !step.callback)) && TaskOf(s, step.w).queueId == 0
      then [TaskOf(s, step.w)]
    else []
  }

  /** The ids of the tasks whose fn has asked for the callback. */
  ghost function Asked(c: Limits, steps: seq<Step>): seq<nat>
    requires Run(c, steps).At?
  {
    if steps == [] then []
    else Asked(c, steps[..|steps| - 1]) + Asks(Before(c, steps), c, steps[|steps| - 1])
  }

  /** What was sent on the callback channel. */
  ghost function Sent(c: Limits, steps: seq<Step>): seq<Callback>
    requires Run(c, steps).At?
  {
    if steps == [] then []
    else Sent(c, steps[..|steps| - 1]) + Sends(Before(c, steps), c, steps[|steps| - 1])
  }

  /** The queues of the finish events that were sent. */
  ghost function Finished(c: Limits, steps: seq<Step>): seq<int>
    requires Run(c, steps).At?
  {
    if steps == [] then []
    else Finished(c, steps[..|steps| - 1]) + Finishes(Before(c, steps), c, steps[|steps| - 1])
  }

  /** The tasks that were handed to a worker. */
  ghost function Handed(c: Limits, steps: seq<Step>): seq<Task>
    requires Run(c, steps).At?
  {
    if steps == [] then []
    else Handed(c, steps[..|steps| - 1]) + Hands(Before(c, steps), c, steps[|steps| - 1])
  }

  /** The tasks that a worker has let go of. */
  ghost function Released(c: Limits, steps: seq<Step>): seq<Task>
    requires Run(c, steps).At?
  {
    if steps == [] then []
    else Released(c, steps[..|steps| - 1]) + Releases(Before(c, steps), c, steps[|steps| - 1])
  }

  /** What a step does to the histories. */
  lemma StepAdds(s: State, c: Limits, step: Step)
    requires Enabled(s, c, step) && Safe(s, step)
    ensures var s' := Do(s, c, step);
            && s'.accepted == s.accepted + Submits(step) && s'.pushed == s.pushed + Sends(s, c, step)
            && s'.started == s.started + Hands(s, c, step) && s'.done == s.done + Releases(s, c, step)
            && (s'.closing <==> s.closing || step.Close?)
  {
  }

  /** What a step does to the channels. */
  lemma StepMoves(s: State, c: Limits, step: Step)
    requires Enabled(s, c, step) && Safe(s, step)
    ensures var s' := Do(s, c, step);
            && s'.tasks == (if step.TakeTask? then s.tasks[1..] else s.tasks + Submits(step))
            && s'.events == (if step.TakeEvent? then s.events[1..] else s.events + Finishes(s, c, step))
            && s'.callbacks == (if step.TakeCallback? then s.callbacks[1..] else s.callbacks + Sends(s, c, step))
  {
  }

  lemma TookOne<T>(all: seq<T>, n: nat, more: seq<T>, left: seq<T>, left': seq<T>, took: bool)
    requires n <= |all| && left == all[n..]
    requires if took then left != [] && left' == left[1..] && more == [] else left' == left + more
    ensures var n' := if took then n + 1 else n; n' <= |all + more| && left' == (all + more)[n'..]
  {
    assert !took ==> (all + more)[n..] == all[n..] + more;
    assert took ==> all[n..][1..] == all[n + 1..] && all + more == all;
  }

  /** Exactly what the steps submit is accepted. */
  lemma {:induction false} AcceptedTold(c: Limits, steps: seq<Step>)
    requires Run(c, steps).At?
    ensures Run(c, steps).s.accepted == Submitted(steps)
    decreases |steps|
  {
    if steps != [] {
      AcceptedTold(c, steps[..|steps| - 1]);
      StepAdds(Before(c, steps), c, steps[|steps| - 1]);
    }
  }

  /** Exactly what the steps send is sent on the callback channel. */
  lemma {:induction false} PushedTold(c: Limits, steps: seq<Step>)
    requires Run(c, steps).At?
    ensures Run(c, steps).s.pushed == Sent(c, steps)
    decreases |steps|
  {
    if steps != [] {
      PushedTold(c, steps[..|steps| - 1]);
      StepAdds(Before(c, steps), c, steps[|steps| - 1]);
    }
  }

  /** Exactly what the steps hand over has started. */
  lemma {:induction false} StartedTold(c: Limits, steps: seq<Step>)
    requires Run(c, steps).At?
    ensures Run(c, steps).s.started == Handed(c, steps)
    decreases |steps|
  {
    if steps != [] {
      StartedTold(c, steps[..|steps| - 1]);
      StepAdds(Before(c, steps), c, steps[|steps| - 1]);
    }
  }

  /** Exactly what the steps let go of is done. */
  lemma {:induction false} DoneTold(c: Limits, steps: seq<Step>)
    requires Run(c, steps).At?
    ensures Run(c, steps).s.done == Released(c, steps)
    decreases |steps|
  {
    if steps != [] {
      DoneTold(c, steps[..|steps| - 1]);
      StepAdds(Before(c, steps), c, steps[|steps| - 1]);
    }
  }

  /** The dispatcher is closing from the first Close on. */
  lemma {:induction false} ClosingTold(c: Limits, steps: seq<Step>)
    requires Run(c, steps).At?
    ensures Run(c, steps).s.closing <==> Taken(steps, Close) > 0
    decreases |steps|
  {
    if steps != [] {
      ClosingTold(c, steps[..|steps| - 1]);
      StepAdds(Before(c, steps), c, steps[|steps| - 1]);
    }
  }

  /** The task channel holds what was submitted and not yet taken, in that order. */
  lemma {:induction false} TasksTold(c: Limits, steps: seq<Step>)
    requires Run(c, steps).At?
    ensures Taken(steps, TakeTask) <= |Submitted(steps)|
    ensures Run(c, steps).s.tasks == Submitted(steps)[Taken(steps, TakeTask)..]
    decreases |steps|
  {
    if steps != [] {
      TasksTold(c, steps[..|steps| - 1]);
      StepMoves(Before(c, steps), c, steps[|steps| - 1]);
      TookOne(Submitted(steps[..|steps| - 1]), Taken(steps[..|steps| - 1], TakeTask), Submits(steps[|steps| - 1]),
              Before(c, steps).tasks, Run(c, steps).s.tasks, steps[|steps| - 1].TakeTask?);
    }
  }

  /** The event channel holds the finish events sent and not yet taken, in that order. */
  lemma {:induction false} EventsTold(c: Limits, steps: seq<Step>)
    requires Run(c, steps).At?
    ensures Taken(steps, TakeEvent) <= |Finished(c, steps)|
    ensures Run(c, steps).s.events == Finished(c, steps)[Taken(steps, TakeEvent)..]
    decreases |steps|
  {
    if steps != [] {
      EventsTold(c, steps[..|steps| - 1]);
      StepMoves(Before(c, steps), c, steps[|steps| - 1]);
      TookOne(Finished(c, steps[..|steps| - 1]), Taken(steps[..|steps| - 1], TakeEvent),
              Finishes(Before(c, steps), c, steps[|steps| - 1]),
              Before(c, steps).events, Run(c, steps).s.events, steps[|steps| - 1].TakeEvent?);
    }
  }

  /** The callback channel holds the callbacks sent and not yet taken, in that order. */
  lemma {:induction false} CallbacksTold(c: Limits, steps: seq<Step>)
    requires Run(c, steps).At?
    ensures Taken(steps, TakeCallback) <= |Sent(c, steps)|
    ensures Run(c, steps).s.callbacks == Sent(c, steps)[Taken(steps, TakeCallback)..]
    decreases |steps|
  {
    if steps != [] {
      CallbacksTold(c, steps[..|steps| - 1]);
      StepMoves(Before(c, steps), c, steps[|steps| - 1]);
      TookOne(Sent(c, steps[..|steps| - 1]), Taken(steps[..|steps| - 1], TakeCallback),
              Sends(Before(c, steps), c, steps[|steps| - 1]),
              Before(c, steps).callbacks, Run(c, steps).s.callbacks, steps[|steps| - 1].TakeCallback?);
    }
  }

  // ---- callbacks ----

  /** The workers that are about to send the callback of the task with an id. */
  ghost function Reporters(s: State, id: nat): set<nat> {
    set w | w in s.workers && s.workers[w].Reporting? && s.workers[w].t.id == id
  }

  lemma ReportersStep(s: State, c: Limits, step: Step, id: nat)
    requires Enabled(s, c, step) && Safe(s, step)
    ensures var s' := Do(s, c, step);
            Reporters(s', id) ==
            if step.FnReturns? && step.callback && s.workers[step.w].t.id == id then Reporters(s, id) + {step.w}
            else if step.PushCallback? then Reporters(s, id) - {step.w}
            else Reporters(s, id)
    ensures step.FnReturns? ==> step.w !in Reporters(s, id)
    ensures step.PushCallback? ==> (step.w in Reporters(s, id) <==> s.workers[step.w].t.id == id)
  {
    var s' := Do(s, c, step);
    if Apart(step) {
      ApartSame(s, c, step);
    } else {
      assert forall w :: w in s'.workers && w != step.w ==> w in s.workers && s'.workers[w] == s.workers[w];
      assert forall w :: w in s.workers && w != step.w ==> w in s'.workers;
    }
  }

  lemma CallbackStep(s: State, c: Limits, step: Step, id: nat)
    requires Enabled(s, c, step) && Safe(s, step)
    ensures Count(Sends(s, c, step), OfTask(id)) + |Reporters(Do(s, c, step), id)| ==
            |Reporters(s, id)| + Count(Asks(s, c, step), id)
  {
    ReportersStep(s, c, step, id);
    if step.FnReturns? && step.callback {
      CountOne([], TaskOf(s, step.w).id, id);
    } else if step.PushCallback? {
      CountOne([], OfTask(TaskOf(s, step.w).id), OfTask(id));
    } else if step.SubmitterCallback? {
      CountOne([], OfSubmitter, OfTask(id));
    } else if step.SendNil? {
      CountOne([], Nil, OfTask(id));
    }
  }

  /** The callback of a task has been sent, or a worker is about to send it, exactly as often as its
      fn has asked for it. */
  lemma {:induction false} CallbacksSent(c: Limits, steps: seq<Step>, id: nat)
    requires Run(c, steps).At?
    ensures Count(Run(c, steps).s.pushed, OfTask(id)) + |Reporters(Run(c, steps).s, id)| == Count(Asked(c, steps), id)
    decreases |steps|
  {
    if steps == [] {
      assert Reporters(Init(), id) == {};
    } else {
      var front, step := steps[..|steps| - 1], steps[|steps| - 1];
      var s := Before(c, steps);
      CallbacksSent(c, front, id);
      CallbackStep(s, c, step, id);
      StepAdds(s, c, step);
      CountAppend(s.pushed, Sends(s, c, step), OfTask(id));
      CountAppend(Asked(c, front), Asks(s, c, step), id);
    }
  }

  /** A done task has sent its callback as often as its fn has asked for it, and so has one whose
      finish event is still to be sent: the callback goes first. */
  lemma CallbackFirst(c: Limits, steps: seq<Step>, t: Task)
    requires Run(c, steps).At? && t in Run(c, steps).s.accepted
    requires var s := Run(c, steps).s; t in s.done || exists w :: w in s.workers && s.workers[w] == Notifying(t)
    ensures Count(Run(c, steps).s.pushed, OfTask(t.id)) == Count(Asked(c, steps), t.id)
  {
    var s := Run(c, steps).s;
    CallbacksSent(c, steps, t.id);
    NoReporter(c, steps, t);
  }

  lemma NoReporter(c: Limits, steps: seq<Step>, t: Task)
    requires Run(c, steps).At? && t in Run(c, steps).s.accepted
    requires var s := Run(c, steps).s; t in s.done || exists w :: w in s.workers && s.workers[w] == Notifying(t)
    ensures Reporters(Run(c, steps).s, t.id) == {}
  {
    var s := Run(c, steps).s;
    AllRuns(c, steps);
    StartedInOrder(c, steps, t);
    forall v | v in Reporters(s, t.id)
      ensures false
    {
      var u := s.workers[v].t;
      StartedInOrder(c, steps, u);
      assert v in Holders(s, u);
      assert Holders(s, u) != {};
      SameId(s.accepted, t, u);
      CountIn(s.done, t);
    }
  }

  lemma SameId(ts: seq<Task>, t: Task, u: Task)
    requires UniqueIds(ts) && t in ts && u in ts && t.id == u.id
    ensures t == u
  {
    var i :| 0 <= i < |ts| && ts[i] == t;
    var j :| 0 <= j < |ts| && ts[j] == u;
  }

  // ---- fn runs ----

  /** The workers that are in the fn of a task. */
  ghost function Runners(s: State, t: Task): set<nat> {
    set w | w in s.workers && s.workers[w] == Running(t)
  }

  function Returns(s: State, c: Limits, step: Step): seq<Task>
    requires Enabled(s, c, step)
  {
    if step.FnReturns? then [TaskOf(s, step.w)] else []
  }

  /** The tasks whose fn has returned. */
  ghost function Returned(c: Limits, steps: seq<Step>): seq<Task>
    requires Run(c, steps).At?
  {
    if steps == [] then []
    else Returned(c, steps[..|steps| - 1]) + Returns(Before(c, steps), c, steps[|steps| - 1])
  }

  /** One worker changes; whether it runs t then decides about it. */
  lemma RunnersChange(s: State, s': State, w: nat, v: Worker, t: Task)
    requires s'.workers == s.workers[w := v]
    ensures Runners(s', t) == if v == Running(t) then Runners(s, t) + {w} else Runners(s, t) - {w}
    ensures w in Runners(s, t) <==> w in s.workers && s.workers[w] == Running(t)
  {
  }

  lemma RunnersStep(s: State, c: Limits, step: Step, t: Task)
    requires Enabled(s, c, step) && Safe(s, step)
    ensures Count(Returns(s, c, step), t) + |Runners(Do(s, c, step), t)| ==
            |Runners(s, t)| + Count(Hands(s, c, step), t)
  {
    if Apart(step) {
      ApartSame(s, c, step);
      assert Runners(Do(s, c, step), t) == Runners(s, t);
    } else {
      RunnersWorker(s, c, step, t);
    }
  }

  lemma RunnersWorker(s: State, c: Limits, step: Step, t: Task)
    requires Enabled(s, c, step) && !Apart(step)
    ensures Count(Returns(s, c, step), t) + |Runners(Do(s, c, step), t)| ==
            |Runners(s, t)| + Count(Hands(s, c, step), t)
  {
    var s' := Do(s, c, step);
    RunnersChange(s, s', step.w, s'.workers[step.w], t);
    if step.HandOver? || step.Spawn? {
      CountOne([], s.pc.t, t);
    } else if step.FnReturns? {
      CountOne([], TaskOf(s, step.w), t);
    }
  }

  /** The fn of a task has run to its end, or is running, exactly as often as the task has started; so
      the fn of a done task has run to its end. */
  lemma {:induction false} FnRuns(c: Limits, steps: seq<Step>, t: Task)
    requires Run(c, steps).At?
    ensures Count(Returned(c, steps), t) + |Runners(Run(c, steps).s, t)| == Count(Run(c, steps).s.started, t)
    decreases |steps|
  {
    if steps == [] {
      assert Runners(Init(), t) == {};
    } else {
      var front, step := steps[..|steps| - 1], steps[|steps| - 1];
      var s := Before(c, steps);
      FnRuns(c, front, t);
      RunnersStep(s, c, step, t);
      StepAdds(s, c, step);
      CountAppend(s.started, Hands(s, c, step), t);
      CountAppend(Returned(c, front), Returns(s, c, step), t);
    }
  }

  lemma FinishesStep(s: State, c: Limits, step: Step, q: int)
    requires Queued(s) && Enabled(s, c, step) && q != 0
    ensures |Of(Releases(s, c, step), q)| == Count(Finishes(s, c, step), q)
  {
    if step.PushEvent? {
      CountOne([], TaskOf(s, step.w).queueId, q);
      OfAppend([], TaskOf(s, step.w), q);
    } else if Releases(s, c, step) != [] {
      OfAppend([], TaskOf(s, step.w), q);
    }
  }

  /** A queue has had one finish event for each of its done tasks. */
  lemma {:induction false} FinishOnce(c: Limits, steps: seq<Step>, q: int)
    requires Run(c, steps).At? && q != 0
    ensures Count(Finished(c, steps), q) == |Of(Run(c, steps).s.done, q)|
    decreases |steps|
  {
    if steps != [] {
      var front, step := steps[..|steps| - 1], steps[|steps| - 1];
      var s := Before(c, steps);
      AllRuns(c, front);
      FinishOnce(c, front, q);
      FinishesStep(s, c, step, q);
      StepAdds(s, c, step);
      CountAppend(Finished(c, front), Finishes(s, c, step), q);
      OfConcat(s.done, Releases(s, c, step), q);
    }
  }

  predicate Stopped(pc: Pc) {
    pc.Closing? || pc.Exited?
  }

  lemma StopStep(s: State, c: Limits, step: Step)
    requires Enabled(s, c, step) && Safe(s, step) && Stopped(Do(s, c, step).pc) && !Stopped(s.pc)
    ensures s.closing
  {
  }

  /** The dispatcher stops only when it was told to close. */
  lemma {:induction false} StopsWhenTold(c: Limits, steps: seq<Step>)
    requires Run(c, steps).At? && Stopped(Run(c, steps).s.pc)
    ensures Close in steps
    decreases |steps|
  {
    if steps != [] {
      var front := steps[..|steps| - 1];
      if Stopped(Before(c, steps).pc) {
        StopsWhenTold(c, front);
      } else {
        StopStep(Before(c, steps), c, steps[|steps| - 1]);
        ClosingTold(c, front);
        TakenIn(front, Close);
      }
    }
  }

  lemma {:induction false} TakenIn(steps: seq<Step>, step: Step)
    ensures Taken(steps, step) > 0 ==> step in steps
    decreases |steps|
  {
    if steps != [] {
      TakenIn(steps[..|steps| - 1], step);
    }
  }

  // ---- somebody can move ----

  /** The steps of the workers and of the dispatcher, without its timer. */
  predicate Inner(step: Step) {
    && !step.Submit? && !step.SubmitterCallback? && !step.TakeCallback? && !step.Close? && !step.TellToExit?
    && !step.Tick?
  }

  ghost predicate Stuck(s: State, c: Limits) {
    forall step :: Inner(step) ==> !Enabled(s, c, step)
  }

  /** A dispatcher that may need a worker has seen the event channel with room, so that the first
      worker to fill it up is free. */
  ghost predicate Roomy(s: State, c: Limits) {
    && |s.events| <= c.channelCap
    && (s.pc.Choosing? || s.pc.Executing? ==>
          |s.events| < c.channelCap || exists w :: w in s.workers && s.workers[w].Waiting?)
  }

  lemma RoomyWorker(s: State, s': State, c: Limits, w: nat, v: Worker)
    requires Roomy(s, c) && s'.workers == s.workers[w := v] && |s'.events| <= c.channelCap
    requires v.Waiting? || (|s'.events| == |s.events| && (w in s.workers ==> !s.workers[w].Waiting?))
    requires s'.pc == s.pc
    ensures Roomy(s', c)
  {
    assert w in s'.workers;
    if u :| u in s.workers && s.workers[u].Waiting? {
      assert u in s'.workers && s'.workers[u].Waiting?;
    }
  }

  lemma RoomyStep(s: State, c: Limits, step: Step)
    requires Roomy(s, c) && Enabled(s, c, step) && Safe(s, step) && c.channelCap > 0
    ensures Roomy(Do(s, c, step), c)
  {
    var s' := Do(s, c, step);
    StepMoves(s, c, step);
    if step.FnReturns? || step.PushCallback? || step.PushEvent? || step.WorkerExits? {
      RoomyWorker(s, s', c, step.w, s'.workers[step.w]);
    } else if Apart(step) {
      ApartSame(s, c, step);
    }
  }

  lemma {:induction false} AllRoomy(c: Limits, steps: seq<Step>)
    requires Run(c, steps).At? && c.channelCap > 0
    ensures Roomy(Run(c, steps).s, c)
    decreases |steps|
  {
    if steps != [] {
      AllRoomy(c, steps[..|steps| - 1]);
      RoomyStep(Before(c, steps), c, steps[|steps| - 1]);
    }
  }

  lemma Moves(s: State, c: Limits, step: Step)
    requires Inner(step) && Enabled(s, c, step)
    ensures !Stuck(s, c)
  {
  }

  /** A worker that is neither waiting nor gone can move, except for want of room for its event. */
  lemma WorkerMoves(s: State, c: Limits, w: nat)
    requires w in s.workers && |s.callbacks| < c.channelCap && !s.workers[w].Waiting? && !s.workers[w].Gone?
    requires s.workers[w].Notifying? ==> |s.events| < c.channelCap
    ensures !Stuck(s, c)
  {
    Moves(s, c, match s.workers[w]
                case Running(_) => FnReturns(w, true)
                case Reporting(_) => PushCallback(w)
                case Notifying(_) => PushEvent(w)
                case _ => WorkerExits(w));
  }

  lemma FreshNumber(ws: set<nat>) returns (w: nat)
    ensures forall v :: v in ws ==> v < w
    decreases ws
  {
    if ws == {} {
      w := 0;
    } else {
      var v :| v in ws;
      var m := FreshNumber(ws - {v});
      w := if v < m then m else v + 1;
      assert forall u :: u in ws ==> u == v || u in ws - {v};
    }
  }

  lemma ExecutingMoves(s: State, c: Limits)
    requires Counted(s, c) && Roomy(s, c) && s.pc.Executing?
    requires |s.callbacks| < c.channelCap && c.maxConcurrentNum > 0
    ensures !Stuck(s, c)
  {
    if w :| w in s.workers && s.workers[w].Waiting? {
      Moves(s, c, HandOver(w));
    } else if s.workerNum < c.maxConcurrentNum {
      var w := FreshNumber(s.workers.Keys);
      Moves(s, c, Spawn(w));
    } else if w :| w in s.workers && !s.workers[w].Gone? {
      WorkerMoves(s, c, w);
    } else {
      NoneLive(s);
    }
  }

  lemma NoneLive(s: State)
    requires forall w :: w in s.workers ==> !Live(s.workers[w])
    ensures LiveSet(s) == {}
  {
  }

  /** An accepted task that is not done is in the task channel or the dispatcher's hand, or a worker
      is at it or at another one of its queue, or a finish event of its queue is on the way. */
  lemma WhereItIs(s: State, c: Limits, t: Task)
    requires Inv(s, c) && t in s.accepted && t !in s.done
    ensures || t in s.tasks || s.pc.Executing? || t.queueId in s.events
            || exists w :: w in s.workers
                           && (Holds(s.workers[w], t) || (t.queueId != 0 && Busy(s.workers[w]) == t.queueId))
  {
    Partition(s, t);
    CountIn(s.tasks, t);
    CountIn(s.done, t);
    CountIn(Tail(Session(s, t.queueId)), t);
    if w :| w in Holders(s, t) {
      assert w in s.workers && Holds(s.workers[w], t);
    } else if t !in s.tasks && !s.pc.Executing? {
      assert t in Tail(Session(s, t.queueId));
      assert Active(s, t.queueId);
    }
  }

  /** Nobody waits for ever, however short the channels are: while an accepted task is not done and the
      dispatcher has not stopped, a worker or the dispatcher can move as soon as the callback channel
      has room. */
  lemma NeverStuck(c: Limits, steps: seq<Step>, t: Task)
    requires Run(c, steps).At? && c.maxConcurrentNum > 0
    requires var s := Run(c, steps).s;
             t in s.accepted && t !in s.done && !Stopped(s.pc) && |s.callbacks| < c.channelCap
    ensures !Stuck(Run(c, steps).s, c)
  {
    AllRuns(c, steps);
    AllRoomy(c, steps);
    var s := Run(c, steps).s;
    if s.pc.Executing? {
      ExecutingMoves(s, c);
    } else if s.pc.Pushing? {
      Moves(s, c, PushBack);
    } else if s.events != [] {
      Moves(s, c, TakeEvent);
    } else if s.pc.Select? {
      Moves(s, c, Look);
    } else if s.tasks != [] {
      Moves(s, c, TakeTask);
    } else {
      WhereItIs(s, c, t);
      var w :| w in s.workers && (Holds(s.workers[w], t) || (t.queueId != 0 && Busy(s.workers[w]) == t.queueId));
      WorkerMoves(s, c, w);
    }
  }

  lemma RunMore(c: Limits, steps: seq<Step>, step: Step)
    requires Run(c, steps).At? && Enabled(Run(c, steps).s, c, step)
    ensures Safe(Run(c, steps).s, step) && Run(c, steps + [step]) == At(Do(Run(c, steps).s, c, step))
  {
    AllRuns(c, steps + [step]);
    assert (steps + [step])[..|steps|] == steps;
  }

  /** A dispatcher that is closing and has no live worker left goes on to the nil: it waits for its
      workers, and while it waits one of them returns or the nil can be sent. */
  lemma CloseGoesOn(c: Limits, steps: seq<Step>)
    requires Run(c, steps).At?
    ensures var s := Run(c, steps).s;
            && (s.pc.Choosing? && s.closing && s.workerNum == 0 ==>
                  Run(c, steps + [Tick] + [StartWaiting]) == At(s.(pc := Closing)))
            && (s.pc.Select? && s.closing && s.workerNum == 0 ==>
                  Run(c, steps + [StartWaiting]) == At(s.(pc := Closing)))
            && (s.pc.Closing? && |s.callbacks| < c.channelCap ==>
                  (exists w :: Enabled(s, c, WorkerExits(w)))
                  || Run(c, steps + [SendNil]) ==
                     At(s.(pc := Exited, callbacks := s.callbacks + [Nil], pushed := s.pushed + [Nil])))
  {
    AllRuns(c, steps);
    var s := Run(c, steps).s;
    if s.pc.Closing? && |s.callbacks| < c.channelCap {
      if w :| w in s.workers && !s.workers[w].Gone? {
        assert Enabled(s, c, WorkerExits(w));
      } else {
        RunMore(c, steps, SendNil);
      }
    } else if s.pc.Select? && s.closing && s.workerNum == 0 {
      RunMore(c, steps, StartWaiting);
    } else if s.pc.Choosing? && s.closing && s.workerNum == 0 {
      RunMore(c, steps, Tick);
      RunMore(c, steps + [Tick], StartWaiting);
    }
  }

  /** What callers and the timer can always do: submit while the task channel has room, send and take
      callbacks, close, and tell a waiting worker to exit. */
  lemma CallsGoOn(c: Limits, steps: seq<Step>, t: Task, w: nat)
    requires Run(c, steps).At?
    ensures var s := Run(c, steps).s;
            && (|s.tasks| < c.channelCap && (forall u :: u in s.accepted ==> u.id != t.id) ==>
                  Run(c, steps + [Submit(t)]).At?)
            && (|s.callbacks| < c.channelCap ==> Run(c, steps + [SubmitterCallback]).At?)
            && (s.callbacks != [] ==> Run(c, steps + [TakeCallback]).At?)
            && Run(c, steps + [Close]).At?
            && ((s.pc.Select? || s.pc.Choosing?) && w in s.workers && s.workers[w].Waiting? ==>
                  && Run(c, steps + [TellToExit(w)]).At?
                  && Run(c, steps + [TellToExit(w)]).s.workers[w].Leaving?)
  {
    var s := Run(c, steps).s;
    RunMore(c, steps, Close);
    if |s.tasks| < c.channelCap && forall u :: u in s.accepted ==> u.id != t.id {
      RunMore(c, steps, Submit(t));
    }
    if |s.callbacks| < c.channelCap {
      RunMore(c, steps, SubmitterCallback);
    }
    if s.callbacks != [] {
      RunMore(c, steps, TakeCallback);
    }
    if (s.pc.Select? || s.pc.Choosing?) && w in s.workers && s.workers[w].Waiting? {
      RunMore(c, steps, TellToExit(w));
    }
  }
}
