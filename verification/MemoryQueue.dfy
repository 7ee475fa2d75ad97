/**
 * The in-memory tail of a topic's messages (sysservice/messagequeueservice/MemoryQueue.go) and
 * the numbering of messages (sysservice/messagequeueservice/TopicRoom.go).
 */
module MemoryQueues {
  import opened Words
  import BiSearch
  import opened Modulus

  datatype TopicData = TopicData(number: int, raw: seq<int>)

  const INT32_MAX: int := 0x7FFF_FFFF

  /** Slicing may panic: an end that overflows, or lies before the start. */
  datatype Found = Found(data: seq<TopicData>, ok: bool) | Panics

  ghost predicate Increasing(h: seq<TopicData>) {
    forall i, j :: 0 <= i < j < |h| ==> h[i].number < h[j].number
  }

  /** k is the index of the first message numbered start or more, or the length. */
  ghost predicate IsFirst(h: seq<TopicData>, start: int, k: int) {
    0 <= k <= |h| && (forall i :: 0 <= i < k ==> h[i].number < start) && (k < |h| ==> h[k].number >= start)
  }

  lemma FirstUnique(h: seq<TopicData>, start: int, k: int, m: int)
    requires IsFirst(h, start, k) && IsFirst(h, start, m)
    ensures k == m
  {
  }

  function Numbers(h: seq<TopicData>): (s: seq<int>)
    ensures |s| == |h| && forall i :: 0 <= i < |s| ==> s[i] == h[i].number
  {
    seq(|h|, i requires 0 <= i < |h| => h[i].number)
  }

  /** What a search of messages from..to of the history answers, when message from is stored at a position. */
  ghost predicate Answers(h: seq<TopicData>, from: int, to: int, position: int, start: int, limit: int, r: Found) {
    && 0 <= from <= to <= |h|
    && if from == to || h[from].number > start || h[to - 1].number < start then r == Found([], false)
       else exists k :: from <= k < to && IsFirst(h, start, k)
                        && r == if limit < 0 || position + (k - from) + limit > INT32_MAX then Panics
                                else Found(h[k..Min(k + limit, to)], true)
  }

  /** The history index of the message at position p of a ring of n. */
  function IndexAt(p: int, n: int, tail: int, lap: int): int {
    if p <= tail then lap + p - 1 else lap - n + p - 1
  }

  /** The ring holds the latest messages of the history; lap counts the positions passed in
      the laps before the current one. */
  ghost predicate Stored(q: seq<TopicData>, head: int, tail: int, lap: int, h: seq<TopicData>) {
    && 1 <= |q| <= INT32_MAX && 0 <= tail < |q|
    && |h| == lap + tail && (lap == 0 || lap >= |q|)
    && head == (if lap == 0 || tail + 1 == |q| then 0 else tail + 1)
    && forall p :: 0 <= p < |q| && p != head && (p <= tail || lap > 0) ==> q[p] == At(h, IndexAt(p, |q|, tail, lap))
  }

  function At(h: seq<TopicData>, i: int): TopicData {
    if 0 <= i < |h| then h[i] else TopicData(0, [])
  }

  lemma NextPosition(p: int, n: int)
    requires 0 <= p < n
    ensures (p + 1) % n == if p + 1 < n then p + 1 else 0
  {
    if p + 1 < n {
      ModUnique(p + 1, n, 0, p + 1);
    } else {
      ModUnique(p + 1, n, 1, 0);
    }
  }

  lemma StoredPush(q: seq<TopicData>, head: int, tail: int, lap: int, h: seq<TopicData>, d: TopicData)
    requires Stored(q, head, tail, lap, h)
    ensures var next := if tail + 1 < |q| then tail + 1 else 0;
            var head' := if next != head then head else if next + 1 < |q| then next + 1 else 0;
            Stored(q[next := d], head', next, if next == 0 then lap + |q| else lap, h + [d])
  {
    var next := if tail + 1 < |q| then tail + 1 else 0;
    var head' := if next != head then head else if next + 1 < |q| then next + 1 else 0;
    var lap' := if next == 0 then lap + |q| else lap;
    var q', h' := q[next := d], h + [d];
    forall p | 0 <= p < |q| && p != head' && (p <= next || lap' > 0)
      ensures q'[p] == At(h', IndexAt(p, |q|, next, lap'))
    {
      if p != next {
        assert IndexAt(p, |q|, next, lap') == IndexAt(p, |q|, tail, lap);
        assert q[p] == At(h, IndexAt(p, |q|, tail, lap));
      }
    }
  }

  function EndOf(startPos: int, tail: int, n: int): int {
    if startPos <= tail then tail + 1 else n
  }

  function Offset(startPos: int, tail: int, n: int, lap: int): int {
    if startPos <= tail then lap - 1 else lap - n - 1
  }

  /** A start of one of the two segments that a search looks at. */
  predicate SegmentStart(startPos: int, head: int, tail: int) {
    head != tail && (startPos == head + 1 || (startPos == 0 && head > tail))
  }

  lemma SegmentStored(q: seq<TopicData>, head: int, tail: int, lap: int, h: seq<TopicData>, startPos: int)
    requires Stored(q, head, tail, lap, h) && SegmentStart(startPos, head, tail)
    ensures var end, off := EndOf(startPos, tail, |q|), Offset(startPos, tail, |q|, lap);
            && 0 <= startPos + off <= end + off <= |h| && 0 <= startPos <= end <= |q|
            && q[startPos..end] == h[startPos + off..end + off]
  {
    var end, off := EndOf(startPos, tail, |q|), Offset(startPos, tail, |q|, lap);
    forall p | startPos <= p < end
      ensures q[p] == h[p + off]
    {
      assert IndexAt(p, |q|, tail, lap) == p + off;
    }
  }

  /** A match within a segment whose first message is not too new is the first match of all. */
  lemma FirstInSegment(h: seq<TopicData>, from: int, to: int, start: int, pos: int)
    requires Increasing(h) && 0 <= from < to <= |h| && h[from].number <= start
    requires BiSearch.Matches(Numbers(h[from..to]), start, 1, pos)
    ensures pos == -1 ==> h[to - 1].number < start
    ensures pos != -1 ==> 0 <= pos < to - from && IsFirst(h, start, from + pos) && h[to - 1].number >= start
  {
    var s := Numbers(h[from..to]);
    assert forall i :: 0 <= i < |s| ==> s[i] == h[from + i].number;
    if pos == -1 {
      assert s[to - from - 1] < start;
    } else {
      assert s[pos] == h[from + pos].number;
      forall i | 0 <= i < from + pos
        ensures h[i].number < start
      {
        if from <= i { assert s[i - from] == h[i].number; }
      }
    }
  }

  // ---- what a search of the whole ring answers ----

  /** The index of the oldest message that a ring of n positions still has. */
  function Oldest(h: seq<TopicData>, n: int): int {
    |h| - Min(|h|, n - 1)
  }

  /** The index of the message at position 0, where the ring is folded. */
  function Fold(h: seq<TopicData>, tail: int): int {
    |h| - tail - 1
  }

  /** The ring can answer: start is not older than all it has, not newer, and does not fall
      between the numbers of the last message before the fold and the first after it. */
  ghost predicate Answerable(h: seq<TopicData>, n: int, tail: int, start: int) {
    var o, f := Oldest(h, n), Fold(h, tail);
    && 0 <= o < |h| && h[o].number <= start <= h[|h| - 1].number
    && !(o < f < |h| && h[f - 1].number < start < h[f].number)
  }

  /** The position of message k in a ring of n. */
  function PositionOf(h: seq<TopicData>, n: int, tail: int, k: int): int {
    if k >= Fold(h, tail) then k - Fold(h, tail) else k - Fold(h, tail) + n
  }

  ghost predicate Correct(h: seq<TopicData>, n: int, tail: int, start: int, limit: int, r: Found) {
    if !Answerable(h, n, tail, start) then r == Found([], false)
    else exists k :: IsFirst(h, start, k) && k < |h|
                     && if limit < 0 || PositionOf(h, n, tail, k) + limit > INT32_MAX then r == Panics
                        else r == Found(h[k..Min(k + limit, SegmentEnd(h, tail, k))], true)
  }

  /** Where the answer that starts at message k ends at the latest: at the fold of the ring if it
      starts before it, and otherwise with the last message. */
  function SegmentEnd(h: seq<TopicData>, tail: int, k: int): int {
    if k < Fold(h, tail) <= |h| then Fold(h, tail) else |h|
  }

  lemma CorrectSingle(h: seq<TopicData>, n: int, tail: int, start: int, limit: int, r: Found)
    requires Increasing(h) && 1 <= tail < n && (|h| == tail || (tail == n - 1 && |h| >= tail + n))
    requires Answers(h, |h| - tail, |h|, 1, start, limit, r)
    ensures Correct(h, n, tail, start, limit, r)
  {
  }

  lemma CorrectFolded(h: seq<TopicData>, n: int, tail: int, start: int, limit: int, r1: Found, r2: Found)
    requires Increasing(h) && 0 <= tail < n - 1 && |h| >= tail + n
    requires Answers(h, Oldest(h, n), Fold(h, tail), tail + 2, start, limit, r1)
    requires r1 == Found([], false) ==> Answers(h, Fold(h, tail), |h|, 0, start, limit, r2)
    ensures Correct(h, n, tail, start, limit, if r1 == Found([], false) then r2 else r1)
  {
    var o, f := Oldest(h, n), Fold(h, tail);
    if r1 == Found([], false) && o < f && h[o].number > start {
      assert h[f].number > start;
    }
  }

  class MemoryQueue {
    var topicQueue: array<TopicData>
    var head: int
    var tail: int
    ghost var history: seq<TopicData>
    ghost var lap: int

    ghost predicate Valid()
      reads this, topicQueue
    {
      Stored(topicQueue[..], head, tail, lap, history)
    }

    constructor (cap: int, blank: TopicData)
      requires 0 <= cap < INT32_MAX
      ensures Valid() && fresh(topicQueue) && topicQueue.Length == cap + 1 && history == []
    {
      topicQueue := new TopicData[cap + 1](_ => blank);
      head, tail, history, lap := 0, 0, [], 0;
    }

    /** Appends a message and forgets the oldest one when the ring is full. */
    method Push(d: TopicData)
      requires Valid()
      modifies this`head, this`tail, this`history, this`lap, topicQueue
      ensures Valid() && history == old(history) + [d]
    {
      ghost var q := topicQueue[..];
      StoredPush(q, head, tail, lap, history, d);
      NextPosition(tail, topicQueue.Length);
      var nextPos := (tail + 1) % topicQueue.Length;
      if nextPos == head {
        NextPosition(head, topicQueue.Length);
        head := head + 1;
        head := head % topicQueue.Length;
      }
      tail := nextPos;
      topicQueue[tail] := d;
      assert topicQueue[..] == q[nextPos := d];
      lap := if nextPos == 0 then lap + |q| else lap;
      history := history + [d];
    }

    /** The messages in the positions from startPos to the tail or to the end of the ring. */
    method FindSegment(startPos: int, start: int, limit: int) returns (r: Found)
      requires Valid() && Increasing(history) && limit <= INT32_MAX && SegmentStart(startPos, head, tail)
      ensures var n := topicQueue.Length;
              var end, off := EndOf(startPos, tail, n), Offset(startPos, tail, n, lap);
              Answers(history, startPos + off, end + off, startPos, start, limit, r)
    {
      ghost var q := topicQueue[..];
      SegmentStored(q, head, tail, lap, history, startPos);
      var end := EndOf(startPos, tail, topicQueue.Length);
      ghost var from := startPos + Offset(startPos, tail, |q|, lap);
      var part := topicQueue[startPos..end];
      assert part == q[startPos..end];
      r := SearchPart(part, startPos, start, limit, history, from);
    }

    method FindUpper(start: int, limit: int) returns (r: Found)
      requires Valid() && Increasing(history) && limit <= INT32_MAX && head != tail
      ensures head < tail ==> Correct(history, topicQueue.Length, tail, start, limit, r)
      ensures head > tail ==>
                Answers(history, Oldest(history, topicQueue.Length), Fold(history, tail), tail + 2, start, limit, r)
    {
      r := FindSegment(head + 1, start, limit);
      if head < tail {
        CorrectSingle(history, topicQueue.Length, tail, start, limit, r);
      }
    }

    method FindLower(start: int, limit: int) returns (r: Found)
      requires Valid() && Increasing(history) && limit <= INT32_MAX && head > tail
      ensures Answers(history, Fold(history, tail), |history|, 0, start, limit, r)
    {
      r := FindSegment(0, start, limit);
    }

    /** Looks into one or two segments of the ring. */
    method FindData(start: int, limit: int) returns (r: Found)
      requires Valid() && Increasing(history) && limit <= INT32_MAX
      ensures Correct(history, topicQueue.Length, tail, start, limit, r)
    {
      if head == tail {
        return Found([], false);
      }
      r := FindUpper(start, limit);
      if head < tail {
        return;
      }
      ghost var upper := r;
      if r == Found([], false) {
        r := FindLower(start, limit);
      }
      CorrectFolded(history, topicQueue.Length, tail, start, limit, upper, r);
    }
  }

  method SearchPart(part: seq<TopicData>, position: int, start: int, limit: int, ghost h: seq<TopicData>,
                    ghost from: int)
    returns (r: Found)
    requires Increasing(h) && limit <= INT32_MAX
    requires 0 <= from <= from + |part| <= |h| && part == h[from..from + |part|]
    ensures Answers(h, from, from + |part|, position, start, limit, r)
  {
    if |part| == 0 || part[0].number > start {
      return Found([], false);
    }
    var pos := BiSearch.Search(Numbers(part), start, 1);
    FirstInSegment(h, from, from + |part|, start, pos);
    if pos == -1 {
      return Found([], false);
    }
    var endPos := limit + position + pos;
    if limit < 0 || endPos > INT32_MAX {
      return Panics;
    }
    var count := Min(limit, |part| - pos);
    r := Found(part[pos..pos + count], true);
    SliceOfSlice(h, from, from + |part|, pos, pos + count);
  }

  lemma SliceOfSlice(h: seq<TopicData>, a: int, b: int, i: int, j: int)
    requires 0 <= a <= b <= |h| && 0 <= i <= j <= b - a
    ensures h[a..b][i..j] == h[a + i..a + j]
  {
    assert |h[a..b][i..j]| == |h[a + i..a + j]|;
    forall k | 0 <= k < j - i
      ensures h[a..b][i..j][k] == h[a + i..a + j][k]
    {
    }
  }

  // ---- consumers ----

  /** One answer: the ring's history when it was asked, and the data it gave. */
  datatype Answer = Answer(history: seq<TopicData>, data: seq<TopicData>)

  /** The data are the messages of the history from index k on, one after the other. */
  ghost predicate IsRun(h: seq<TopicData>, k: int, data: seq<TopicData>) {
    0 <= k && k + |data| <= |h| && data == h[k..k + |data|]
  }

  ghost predicate Answered(a: Answer, start: int) {
    Increasing(a.history) && a.data != [] && exists k :: IsFirst(a.history, start, k) && IsRun(a.history, k, a.data)
  }

  /** What FindData says with a positive limit is such an answer. */
  lemma FoundAnswers(h: seq<TopicData>, n: int, tail: int, start: int, limit: int, r: Found)
    requires Increasing(h) && limit > 0 && Correct(h, n, tail, start, limit, r) && r.Found? && r.ok
    ensures Answered(Answer(h, r.data), start)
  {
    var k :| IsFirst(h, start, k) && k < |h| && r == Found(h[k..Min(k + limit, SegmentEnd(h, tail, k))], true);
    assert IsRun(h, k, r.data);
  }

  function NextStart(a: Answer): int
    requires a.data != []
  {
    a.data[|a.data| - 1].number + 1
  }

  /** The answers to a consumer that first asks for start and then always for one more than the
      last number it got, while the history grows. */
  ghost predicate Consumed(answers: seq<Answer>, start: int) {
    answers != [] ==> (
      && Answered(answers[0], start)
      && (|answers| > 1 ==> answers[0].history <= answers[1].history)
      && Consumed(answers[1..], NextStart(answers[0])))
  }

  function Received(answers: seq<Answer>): seq<TopicData> {
    if answers == [] then [] else answers[0].data + Received(answers[1..])
  }

  /** After a run of messages the one to ask for is the next. */
  lemma NextFirst(a: Answer, h: seq<TopicData>, k: int)
    requires IsRun(a.history, k, a.data) && a.data != [] && a.history <= h && Increasing(h)
    ensures IsFirst(h, NextStart(a), k + |a.data|)
  {
    var m := k + |a.data|;
    assert a.data[|a.data| - 1] == a.history[m - 1] == h[m - 1];
  }

  lemma Glue(a: Answer, h: seq<TopicData>, k: int, got: seq<TopicData>)
    requires IsRun(a.history, k, a.data) && a.history <= h && IsRun(h, k + |a.data|, got)
    ensures IsRun(h, k, a.data + got)
  {
  }

  lemma AnswerRun(a: Answer, start: int, k: int)
    requires Answered(a, start) && IsFirst(a.history, start, k)
    ensures IsRun(a.history, k, a.data)
  {
    var j :| IsFirst(a.history, start, j) && IsRun(a.history, j, a.data);
    FirstUnique(a.history, start, k, j);
  }

  /** A consumer gets every message from its first one on exactly once and in order, whatever was
      pushed and evicted in between. */
  lemma {:induction false} NoGapNoDuplicate(answers: seq<Answer>, start: int, k: int)
    requires Consumed(answers, start) && answers != [] && IsFirst(answers[0].history, start, k)
    ensures var h := answers[|answers| - 1].history;
            IsRun(h, k, Received(answers)) && answers[0].history <= h
    decreases |answers|
  {
    var a, rest := answers[0], answers[1..];
    AnswerRun(a, start, k);
    if rest != [] {
      NextFirst(a, rest[0].history, k);
      NoGapNoDuplicate(rest, NextStart(a), k + |a.data|);
      Glue(a, rest[|rest| - 1].history, k, Received(rest));
    } else {
      assert Received(rest) == [] && a.data + [] == a.data;
    }
  }

  /** One round of a consumer: what is pushed before it asks, and how many messages it asks for. */
  datatype Round = Round(pushed: seq<TopicData>, limit: int)

  function AllPushed(rounds: seq<Round>): seq<TopicData> {
    if rounds == [] then [] else rounds[0].pushed + AllPushed(rounds[1..])
  }

  lemma IncreasingFront(h: seq<TopicData>, more: seq<TopicData>)
    requires Increasing(h + more)
    ensures Increasing(h)
  {
    assert forall i :: 0 <= i < |h| ==> (h + more)[i] == h[i];
  }

  method PushAll(queue: MemoryQueue, data: seq<TopicData>)
    requires queue.Valid()
    modifies queue, queue.topicQueue
    ensures queue.Valid() && queue.topicQueue == old(queue.topicQueue) && queue.history == old(queue.history) + data
  {
    ghost var h := queue.history;
    for i := 0 to |data|
      invariant queue.Valid() && queue.topicQueue == old(queue.topicQueue) && queue.history == h + data[..i]
    {
      queue.Push(data[i]);
      assert h + data[..i] + [data[i]] == h + data[..i + 1];
    }
    assert data[..|data|] == data;
  }

  /** What a consumer that began at start has got so far is the history from index k on, and next is
      the number to ask for. */
  ghost predicate Consuming(h: seq<TopicData>, start: int, k: int, got: seq<TopicData>, next: int) {
    if got == [] then next == start
    else IsFirst(h, start, k) && IsRun(h, k, got) && next == got[|got| - 1].number + 1
  }

  lemma ConsumingGrows(h: seq<TopicData>, more: seq<TopicData>, start: int, k: int, got: seq<TopicData>, next: int)
    requires Consuming(h, start, k, got, next)
    ensures Consuming(h + more, start, k, got, next)
  {
    if got != [] {
      assert k < |h|;
      assert (h + more)[k..k + |got|] == h[k..k + |got|];
    }
  }

  lemma ConsumingMore(h: seq<TopicData>, start: int, k: int, got: seq<TopicData>, next: int, data: seq<TopicData>)
    returns (k': int)
    requires Increasing(h) && Consuming(h, start, k, got, next) && Answered(Answer(h, data), next)
    ensures Consuming(h, start, k', got + data, data[|data| - 1].number + 1)
  {
    if got == [] {
      k' :| IsFirst(h, start, k') && IsRun(h, k', data);
      assert got + data == data;
    } else {
      k' := k;
      var a := Answer(h, got);
      NextFirst(a, h, k);
      AnswerRun(Answer(h, data), next, k + |got|);
      Glue(a, h, k, data);
    }
  }

  /** One question: where the ring's last message was, the number asked for, and the answer. */
  datatype Asked = Asked(tail: int, next: int, r: Found)

  function DataOf(r: Found): seq<TopicData> {
    if r.Found? && r.ok then r.data else []
  }

  /** The number to ask for after an answer. */
  function After(next: int, r: Found): int {
    if DataOf(r) == [] then next else DataOf(r)[|DataOf(r)| - 1].number + 1
  }

  /** In each round the ring of n positions, with its history grown by what was pushed, has answered
      what it should to a consumer that first asks for next and then for one more than the last
      number it got. */
  ghost predicate AskedAll(n: int, h: seq<TopicData>, next: int, rounds: seq<Round>, asked: seq<Asked>)
    decreases |rounds|
  {
    |asked| == |rounds| && (rounds != [] ==> (
      var h' := h + rounds[0].pushed;
      && asked[0].next == next && Correct(h', n, asked[0].tail, next, rounds[0].limit, asked[0].r)
      && AskedAll(n, h', After(next, asked[0].r), rounds[1..], asked[1..])))
  }

  function AllData(asked: seq<Asked>): seq<TopicData> {
    if asked == [] then [] else DataOf(asked[0].r) + AllData(asked[1..])
  }

  /** A consumer over any number of rounds, between which anything may be pushed and evicted: it
      gets what the ring answers in each round, and all in all the history from its first message
      on, each message once and in order.  A round that the ring cannot answer gives it nothing. */
  method Consume(queue: MemoryQueue, start: int, rounds: seq<Round>)
    returns (got: seq<TopicData>, ghost k: int, ghost asked: seq<Asked>)
    requires queue.Valid() && Increasing(queue.history + AllPushed(rounds))
    requires forall i :: 0 <= i < |rounds| ==> rounds[i].limit <= INT32_MAX
    modifies queue, queue.topicQueue
    ensures queue.Valid() && queue.history == old(queue.history) + AllPushed(rounds)
    ensures AskedAll(queue.topicQueue.Length, old(queue.history), start, rounds, asked) && got == AllData(asked)
    ensures got != [] ==> IsFirst(queue.history, start, k) && IsRun(queue.history, k, got)
  {
    assert Consuming(queue.history, start, 0, [], start);
    got, k, asked := ConsumeOn(queue, start, rounds, [], start, 0);
    assert [] + AllData(asked) == AllData(asked);
  }

  method ConsumeOn(queue: MemoryQueue, next: int, rounds: seq<Round>, before: seq<TopicData>, ghost start: int,
                   ghost k0: int)
    returns (got: seq<TopicData>, ghost k: int, ghost asked: seq<Asked>)
    requires queue.Valid() && Increasing(queue.history + AllPushed(rounds))
    requires forall i :: 0 <= i < |rounds| ==> rounds[i].limit <= INT32_MAX
    requires Consuming(queue.history, start, k0, before, next)
    modifies queue, queue.topicQueue
    ensures queue.Valid() && queue.history == old(queue.history) + AllPushed(rounds)
    ensures queue.topicQueue == old(queue.topicQueue)
    ensures AskedAll(queue.topicQueue.Length, old(queue.history), next, rounds, asked)
    ensures got == before + AllData(asked)
    ensures got != [] ==> IsFirst(queue.history, start, k) && IsRun(queue.history, k, got)
    decreases |rounds|
  {
    ghost var h := queue.history;
    if |rounds| == 0 {
      assert h + [] == h && before + [] == before;
      return before, k0, [];
    }
    ghost var rest, first, later := AllPushed(rounds[1..]), Asked(0, 0, Panics), [];
    assert h + AllPushed(rounds) == (h + rounds[0].pushed) + rest;
    var r;
    r, k, first := ConsumeRound(queue, next, rounds[0], before, start, k0, rest);
    got, k, later := ConsumeOn(queue, After(next, r), rounds[1..], before + DataOf(r), start, k);
    asked := [first] + later;
    AskedFirst(queue.topicQueue.Length, h, next, rounds, first, later);
    DataFirst(first, later, before);
  }

  lemma {:induction false} AskedFirst(n: int, h: seq<TopicData>, next: int, rounds: seq<Round>, first: Asked,
                                      later: seq<Asked>)
    requires rounds != [] && first.next == next
    requires Correct(h + rounds[0].pushed, n, first.tail, next, rounds[0].limit, first.r)
    requires AskedAll(n, h + rounds[0].pushed, After(next, first.r), rounds[1..], later)
    ensures AskedAll(n, h, next, rounds, [first] + later)
  {
    assert ([first] + later)[1..] == later;
  }

  lemma DataFirst(first: Asked, later: seq<Asked>, before: seq<TopicData>)
    ensures before + DataOf(first.r) + AllData(later) == before + AllData([first] + later)
  {
    assert ([first] + later)[1..] == later;
    assert before + DataOf(first.r) + AllData(later) == before + (DataOf(first.r) + AllData(later));
  }

  /** One round: what is pushed, and a question. */
  method ConsumeRound(queue: MemoryQueue, next: int, round: Round, ghost before: seq<TopicData>, ghost start: int,
                      ghost k0: int, ghost rest: seq<TopicData>)
    returns (r: Found, ghost k: int, ghost first: Asked)
    requires queue.Valid() && Increasing(queue.history + round.pushed + rest) && round.limit <= INT32_MAX
    requires Consuming(queue.history, start, k0, before, next)
    modifies queue, queue.topicQueue
    ensures queue.Valid() && queue.topicQueue == old(queue.topicQueue)
    ensures queue.history == old(queue.history) + round.pushed
    ensures first.next == next && first.r == r
    ensures Correct(queue.history, queue.topicQueue.Length, first.tail, next, round.limit, r)
    ensures Consuming(queue.history, start, k, before + DataOf(r), After(next, r))
  {
    ghost var h := queue.history;
    PushAll(queue, round.pushed);
    IncreasingFront(queue.history, rest);
    ConsumingGrows(h, round.pushed, start, k0, before, next);
    ghost var tail := queue.tail;
    r := Ask(queue, next, round.limit);
    k := Took(queue.history, queue.topicQueue.Length, tail, next, round.limit, r, before, start, k0);
    first := Asked(tail, next, r);
  }

  method Ask(queue: MemoryQueue, next: int, limit: int) returns (r: Found)
    requires queue.Valid() && Increasing(queue.history) && limit <= INT32_MAX
    ensures queue.Valid() && queue.history == old(queue.history) && queue.topicQueue == old(queue.topicQueue)
    ensures Correct(queue.history, queue.topicQueue.Length, old(queue.tail), next, limit, r)
  {
    r := queue.FindData(next, limit);
  }

  /** What comes back goes on where the consumer stopped. */
  lemma Took(h: seq<TopicData>, n: int, tail: int, next: int, limit: int, r: Found, before: seq<TopicData>, start: int,
             k0: int)
    returns (k: int)
    requires Increasing(h) && Correct(h, n, tail, next, limit, r) && Consuming(h, start, k0, before, next)
    ensures Consuming(h, start, k, before + DataOf(r), After(next, r))
  {
    k := k0;
    if DataOf(r) != [] {
      RunAnswers(h, n, tail, next, limit, r);
      k := ConsumingMore(h, start, k0, before, next, r.data);
    } else {
      assert before + DataOf(r) == before;
    }
  }

  lemma RunAnswers(h: seq<TopicData>, n: int, tail: int, start: int, limit: int, r: Found)
    requires Increasing(h) && Correct(h, n, tail, start, limit, r) && r.Found? && r.ok && r.data != []
    ensures Answered(Answer(h, r.data), start)
  {
    var k :| IsFirst(h, start, k) && k < |h| && r == Found(h[k..Min(k + limit, SegmentEnd(h, tail, k))], true);
    assert IsRun(h, k, r.data);
  }

  // ---- numbering ----

  /** The second of the last message, and how many there were in it. */
  datatype Clock = Clock(lastTime: int, count: int)

  /** nowSec << 32 | seq on 64 bits. */
  function NumberOf(c: Clock): int
    requires 0 <= c.count < TWO32
  {
    c.lastTime % TWO32 * TWO32 + c.count
  }

  class TopicRoom {
    var seqInSecond: int
    var lastTime: int

    ghost function Now(): Clock
      reads this
    {
      Clock(lastTime, seqInSecond)
    }

    method NextSeq(nowSec: int) returns (r: int)
      requires 0 <= seqInSecond < TWO32
      modifies this
      ensures Now() == Tick(old(Now()), nowSec) && 0 <= seqInSecond < TWO32 && r == NumberOf(Now())
    {
      if nowSec != lastTime {
        seqInSecond := 0;
        lastTime := nowSec;
      }
      seqInSecond := (seqInSecond + 1) % TWO32;
      r := nowSec % TWO32 * TWO32 + seqInSecond;
    }
  }

  function Tick(c: Clock, now: int): (r: Clock)
    requires 0 <= c.count < TWO32
    ensures 0 <= r.count < TWO32
  {
    if now != c.lastTime then Clock(now, 1) else Clock(now, (c.count + 1) % TWO32)
  }

  /** A number is greater than the one before it if and only if the clock has moved on, or the
      second has not used up its 2^32 numbers. */
  lemma NextGreater(c: Clock, now: int)
    requires 0 <= c.count < TWO32 && 0 <= c.lastTime <= now < TWO32
    ensures NumberOf(Tick(c, now)) > NumberOf(c) <==> now > c.lastTime || c.count + 1 < TWO32
  {
    if now > c.lastTime {
      assert now * TWO32 >= (c.lastTime + 1) * TWO32;
    }
  }

  /** A number has the second in its upper half and the count within the second in its lower half. */
  lemma NumberParts(c: Clock)
    requires 0 <= c.count < TWO32
    ensures NumberOf(c) % TWO32 == c.count && NumberOf(c) / TWO32 == c.lastTime % TWO32
  {
    ModUnique(NumberOf(c), TWO32, c.lastTime % TWO32, c.count);
  }

  /** The messages of one second are counted from 1 on, or on from the count so far, going round
      after 2^32. */
  lemma {:induction false} CountsUp(c: Clock, now: int, k: nat, j: nat)
    requires 0 <= c.count < TWO32 && j < k
    ensures |NumbersOf(c, seq(k, _ => now))| == k
    ensures var base := if now == c.lastTime then c.count else 0;
            NumbersOf(c, seq(k, _ => now))[j] == now % TWO32 * TWO32 + (base + j + 1) % TWO32
    decreases k
  {
    var times, d := seq(k, _ => now), Tick(c, now);
    assert times[1..] == seq(k - 1, _ => now);
    var base := if now == c.lastTime then c.count else 0;
    if k > 1 {
      CountsUp(d, now, k - 1, if j > 0 then j - 1 else 0);
      ModStep(base + 1, j);
    } else {
      assert NumbersOf(d, times[1..]) == [];
    }
  }

  lemma ModStep(a: int, j: int)
    requires 0 < a <= TWO32 && 0 <= j
    ensures (a % TWO32 + j) % TWO32 == (a + j) % TWO32
  {
    if a == TWO32 {
      ModUnique(a, TWO32, 1, 0);
      var q, r := j / TWO32, j % TWO32;
      ModUnique(a + j, TWO32, q + 1, r);
    } else {
      ModUnique(a, TWO32, 0, a);
    }
  }

  function Occurrences(times: seq<int>, t: int): nat {
    if times == [] then 0 else (if times[0] == t then 1 else 0) + Occurrences(times[1..], t)
  }

  function NumbersOf(c: Clock, times: seq<int>): seq<int>
    requires 0 <= c.count < TWO32
    decreases |times|
  {
    if times == [] then [] else [NumberOf(Tick(c, times[0]))] + NumbersOf(Tick(c, times[0]), times[1..])
  }

  ghost predicate Steady(c: Clock, times: seq<int>) {
    && (forall i :: 0 <= i < |times| ==> 0 <= c.lastTime <= times[i] < TWO32)
    && forall i, j :: 0 <= i < j < |times| ==> times[i] <= times[j]
  }

  lemma {:induction false} AllGreater(c: Clock, times: seq<int>)
    requires 0 <= c.count < TWO32 && Steady(c, times)
    requires forall t :: Occurrences(times, t) + (if t == c.lastTime then c.count else 0) < TWO32
    ensures |NumbersOf(c, times)| == |times|
    ensures forall i :: 0 <= i < |times| ==> NumbersOf(c, times)[i] > NumberOf(c)
    ensures forall i, j :: 0 <= i < j < |times| ==> NumbersOf(c, times)[i] < NumbersOf(c, times)[j]
    decreases |times|
  {
    if times != [] {
      var now, rest := times[0], times[1..];
      var d := Tick(c, now);
      assert Occurrences(times, now) == 1 + Occurrences(rest, now);
      NextGreater(c, now);
      forall t
        ensures Occurrences(rest, t) + (if t == d.lastTime then d.count else 0) < TWO32
      {
        assert Occurrences(times, t) == (if now == t then 1 else 0) + Occurrences(rest, t);
      }
      AllGreater(d, rest);
      assert forall i :: 0 < i < |times| ==> NumbersOf(c, times)[i] == NumbersOf(d, rest)[i - 1];
    }
  }

  // ---- publishing ----

  function Raws(h: seq<TopicData>): (s: seq<seq<int>>)
    ensures |s| == |h| && forall i :: 0 <= i < |s| ==> s[i] == h[i].raw
  {
    seq(|h|, i requires 0 <= i < |h| => h[i].raw)
  }

  /** Messages numbered one after the other as the clock reads, and pushed in that order. */
  method Number(room: TopicRoom, queue: MemoryQueue, times: seq<int>, data: seq<seq<int>>)
    requires |times| == |data| && queue.Valid() && 0 <= room.seqInSecond < TWO32
    modifies room, queue, queue.topicQueue
    ensures queue.Valid() && queue.topicQueue == old(queue.topicQueue) && 0 <= room.seqInSecond < TWO32
    ensures Numbers(queue.history) == Numbers(old(queue.history)) + NumbersOf(old(room.Now()), times)
    ensures Raws(queue.history) == Raws(old(queue.history)) + data
    decreases |times|
  {
    ghost var h, c := queue.history, room.Now();
    if |times| == 0 {
      assert Numbers(h) + [] == Numbers(h) && Raws(h) + data == Raws(h);
      return;
    }
    var number := room.NextSeq(times[0]);
    queue.Push(TopicData(number, data[0]));
    assert Numbers(queue.history) == Numbers(h) + [number] && Raws(queue.history) == Raws(h) + [data[0]];
    Number(room, queue, times[1..], data[1..]);
    assert Numbers(h) + [number] + NumbersOf(Tick(c, times[0]), times[1..]) == Numbers(h) + NumbersOf(c, times);
    assert Raws(h) + [data[0]] + data[1..] == Raws(h) + data;
  }

  lemma NumbersIncrease(h: seq<TopicData>, h': seq<TopicData>, c: Clock, times: seq<int>)
    requires 0 <= c.count < TWO32 && Steady(c, times)
    requires forall t :: Occurrences(times, t) + (if t == c.lastTime then c.count else 0) < TWO32
    requires Increasing(h) && (forall i :: 0 <= i < |h| ==> h[i].number <= NumberOf(c))
    requires Numbers(h') == Numbers(h) + NumbersOf(c, times)
    ensures Increasing(h')
  {
    AllGreater(c, times);
    var n, more := |h|, NumbersOf(c, times);
    assert |Numbers(h')| == |h'| == n + |more|;
    forall i, j | 0 <= i < j < |h'|
      ensures h'[i].number < h'[j].number
    {
      assert Numbers(h')[i] == if i < n then h[i].number else more[i - n];
      assert Numbers(h')[j] == if j < n then h[j].number else more[j - n];
    }
  }

  /** Under a clock that does not go back and fewer than 2^32 messages a second the history that
      publishing makes is increasing, as `FindData` needs it. */
  method Publish(room: TopicRoom, queue: MemoryQueue, times: seq<int>, data: seq<seq<int>>)
    requires |times| == |data| && queue.Valid() && 0 <= room.seqInSecond < TWO32 && Steady(room.Now(), times)
    requires forall t :: Occurrences(times, t) + (if t == room.lastTime then room.seqInSecond else 0) < TWO32
    requires Increasing(queue.history) && forall i :: 0 <= i < |queue.history| ==>
               queue.history[i].number <= NumberOf(room.Now())
    modifies room, queue, queue.topicQueue
    ensures queue.Valid() && queue.topicQueue == old(queue.topicQueue) && Increasing(queue.history)
    ensures Numbers(queue.history) == Numbers(old(queue.history)) + NumbersOf(old(room.Now()), times)
    ensures Raws(queue.history) == Raws(old(queue.history)) + data
  {
    ghost var h, c := queue.history, room.Now();
    Number(room, queue, times, data);
    NumbersIncrease(h, queue.history, c, times);
  }
}
