// The playback queue of AndroidAudioOutput and AndroidAudioMIO
// (android_audio_output.cpp, android_audio_mio.cpp): buffers written by the
// peer wait in a request queue, the audio thread plays them, and their ids go
// back through a response queue.  A step is what one thread does between two
// points where the other can interfere.  Semaphore waits are not modelled: a
// waiting thread may go on at any time, so the runs here include every run of
// the code.
//
// `State` and `Step` are the machine and carry the theorems; the class holds
// the queues as fields and its methods are proved to take those steps.
module AudioPlayback {
  import opened Counting

  type Id = nat

  datatype Req = Req(len: nat, id: Id, timestamp: nat)

  datatype Clock = Running | ClockPaused | ClockStopped

  datatype Playing = Idle | Stopped | Started | Paused

  // Where the audio thread is in its loop: at the clock test, the queue, the
  // end-of-stream test (with the answer the queue gave), the return test, the
  // exit test, the output, or past the loop.
  datatype Pc = AtClock | AtQueue | AtEos(empty: bool) | AtReturn | AtExit | AtOutput | Done

  // The thread's locals: `len` bytes of the `total` of request `cmdid` are
  // still to be written, `avail` bytes are left in the sink's buffer.
  datatype Thread = Thread(pc: Pc, len: nat, total: nat, cmdid: Id, avail: nat, playing: Playing)

  // How much of one dequeued buffer went to the sink, and whether it was
  // answered because it was finished.
  datatype Play = Play(id: Id, total: nat, written: nat, finished: bool)

  datatype State = State(
    queue: seq<Req>,             // iOSSRequestQueue
    dataQueued: int,             // iDataQueued
    responses: seq<Id>,          // iWriteResponseQueue
    capacity: nat,               // and the room its vector has
    nextId: Id,                  // iCommandCounter
    exit: bool,                  // iExitAudioThread
    returnBuffers: bool,         // iReturnBuffers
    flushPending: bool,          // iFlushPending
    clock: Clock,
    th: Thread,
    // history
    completed: seq<Id>,          // writeComplete calls to the peer
    resent: seq<Id>,             // answers nothing was taken from the queue for
    overflowed: seq<Id>,         // responses dropped because the queue was full
    unanswered: seq<Id>,         // end of stream met on the way out
    plays: seq<Play>,
    sink: seq<(Id, nat)>,        // the bytes written, as (buffer, index) pairs
    sinceFlush: nat)

  datatype Action =
    | Write(len: nat, timestamp: nat)    // data, or end of stream when len is 0
    | WriteOther                         // anything answered at once
    | Cancel(id: Id)
    | ReturnAll
    | Discard(before: nat)
    | Respond
    | RequestExit
    | SetClock(clock: Clock)
    | Play_(written: nat)                // one step of the audio thread

  const NEW_THREAD := Thread(AtClock, 0, 0, 0, 0, Idle)

  function Initial(capacity: nat): State
  {
    State([], 0, [], capacity, 0, false, false, false, ClockStopped, NEW_THREAD, [], [], [], [], [], [], 0)
  }

  // ------------------------------------------------------------ operations

  function Sum(q: seq<Req>): nat
  {
    if q == [] then 0 else q[0].len + Sum(q[1..])
  }

  function Ids(q: seq<Req>): seq<Id>
  {
    if q == [] then [] else [q[0].id] + Ids(q[1..])
  }

  function Kept(q: seq<Req>, before: nat): seq<Req>
  {
    if q == [] then []
    else if q[0].timestamp < before then Kept(q[1..], before)
    else [q[0]] + Kept(q[1..], before)
  }

  // Ids of the discarded requests, last first: the order of the code's loop.
  function Discarded(q: seq<Req>, before: nat): seq<Id>
  {
    if q == [] then []
    else Discarded(q[1..], before) + (if q[0].timestamp < before then [q[0].id] else [])
  }

  // Oscl_Vector::push_back doubles a full vector.
  function Grow(capacity: nat, size: nat): nat
  {
    if size < capacity then capacity else if capacity == 0 then 2 else 2 * capacity
  }

  function GrowFor(capacity: nat, size: nat, more: nat): nat
    decreases more
  {
    if more == 0 then capacity else GrowFor(Grow(capacity, size), size + 1, more - 1)
  }

  // The state after sendResponse.
  function Responded(s: State, id: Id): State
  {
    if |s.responses| < s.capacity then s.(responses := s.responses + [id])
    else s.(overflowed := s.overflowed + [id])
  }

  function Bytes(id: Id, from: nat, n: nat): seq<(Id, nat)>
  {
    seq(n, i requires 0 <= i < n => (id, from + i))
  }

  // Ends the buffer in hand: its id is answered and what was played recorded.
  function Answer(s: State, finished: bool): State
    requires s.th.len <= s.th.total
  {
    Responded(s.(plays := s.plays + [Play(s.th.cmdid, s.th.total, s.th.total - s.th.len, finished)]), s.th.cmdid)
      .(th := s.th.(len := 0, total := 0))
  }

  function At(s: State, pc: Pc): State
  {
    s.(th := s.th.(pc := pc))
  }

  // --------------------------------------------------------- audio thread

  function FlushStep(s: State): State
    requires s.th.len <= s.th.total
  {
    if !s.flushPending then s
    else
      var f := s.(flushPending := false, sinceFlush := 0, th := s.th.(avail := 0));
      if f.th.len > 0 then Answer(f, false) else f
  }

  // With the clock running and the sink not started, a pending flush first;
  // then the sink is started if there is anything to play.
  function Flushed(s: State): State
    requires s.th.len <= s.th.total
  {
    if s.clock.Running? && !s.th.playing.Started? then FlushStep(s) else s
  }

  function ClockPlaying(s: State, f: State): Playing
  {
    if !s.clock.Running? then Paused
    else if s.th.playing.Started? || f.dataQueued != 0 || f.th.len > 0 then Started
    else s.th.playing
  }

  function ClockStep(s: State): State
    requires s.th.len <= s.th.total
  {
    var f := Flushed(s);
    f.(th := f.th.(playing := ClockPlaying(s, f), pc := AtQueue))
  }

  function QueueStep(s: State): State
  {
    if s.th.len != 0 then At(s, AtReturn)
    else if s.queue == [] then At(s, AtEos(true))
    else
      var r := s.queue[0];
      var pc := if r.len > 0 then AtReturn else AtEos(false);
      s.(queue := s.queue[1..], dataQueued := s.dataQueued - r.len,
         th := s.th.(pc := pc, len := r.len, total := r.len, cmdid := r.id))
  }

  // Sends the end-of-stream answer; with an empty queue the thread only gets
  // here to return its buffers or to exit, and the id is the previous one.
  function EosStep(s: State): State
    requires s.th.pc.AtEos?
  {
    var empty := s.th.pc.empty;
    var done := At(s, AtReturn);
    if empty && !s.exit && !s.returnBuffers then done
    else
      var stopped := done.(th := done.th.(playing := Stopped));
      if !s.exit then
        Responded(if empty then stopped.(resent := s.resent + [s.th.cmdid]) else stopped, s.th.cmdid)
      else if empty then stopped
      else stopped.(unanswered := s.unanswered + [s.th.cmdid])
  }

  function ReturnStep(s: State): State
    requires s.th.len <= s.th.total
  {
    var r := if s.returnBuffers && s.th.len > 0 then Answer(s, false) else s;
    At(r.(returnBuffers := false), AtExit)
  }

  function ExitStep(s: State): State
    requires s.th.len <= s.th.total
  {
    if !s.exit then At(s, AtOutput)
    else At(if s.th.len > 0 then Answer(s, false) else s, Done)
  }

  function Room(s: State, sinkBuffer: nat): nat
  {
    if s.th.avail == 0 then sinkBuffer else s.th.avail
  }

  // Bytes offered to the sink, never past the end of its current buffer.
  function ToWrite(s: State, sinkBuffer: nat): nat
  {
    if Room(s, sinkBuffer) > s.th.len then s.th.len else Room(s, sinkBuffer)
  }

  function Written(s: State, written: nat, sinkBuffer: nat): State
    requires s.th.len <= s.th.total && written <= ToWrite(s, sinkBuffer)
  {
    s.(sink := s.sink + Bytes(s.th.cmdid, s.th.total - s.th.len, written),
       sinceFlush := s.sinceFlush + written,
       th := s.th.(len := s.th.len - written, avail := Room(s, sinkBuffer) - written))
  }

  function OutputStep(s: State, written: nat, sinkBuffer: nat): State
    requires s.th.len <= s.th.total && written <= ToWrite(s, sinkBuffer)
  {
    if !(s.th.len > 0 && s.th.playing.Started? && !s.exit) then At(s, AtClock)
    else
      var w := Written(s, written, sinkBuffer);
      At(if w.th.len == 0 then Answer(w, true) else w, AtClock)
  }

  // One step of the audio thread; the sink takes any part of what it is offered.
  function ThreadStep(s: State, written: nat, sinkBuffer: nat): Option<State>
  {
    if s.th.len > s.th.total then None
    else
      match s.th.pc
      case AtClock => Some(ClockStep(s))
      case AtQueue => Some(QueueStep(s))
      case AtEos(_) => Some(EosStep(s))
      case AtReturn => Some(ReturnStep(s))
      case AtExit => Some(ExitStep(s))
      case AtOutput => if written <= ToWrite(s, sinkBuffer) then Some(OutputStep(s, written, sinkBuffer)) else None
      case Done => None
  }

  function Step(s: State, a: Action, sinkBuffer: nat): Option<State>
  {
    match a
    case Write(len, timestamp) =>
      Some(s.(queue := s.queue + [Req(len, s.nextId, timestamp)], dataQueued := s.dataQueued + len,
              nextId := s.nextId + 1))
    case WriteOther =>
      Some(s.(responses := s.responses + [s.nextId], capacity := Grow(s.capacity, |s.responses|),
              nextId := s.nextId + 1))
    case Cancel(id) =>
      var i := Find(Ids(s.queue), id);
      if i >= |s.queue| then Some(s)
      else Some(s.(queue := s.queue[..i] + s.queue[i + 1..], dataQueued := s.dataQueued - s.queue[i].len,
                   completed := s.completed + [id]))
    case ReturnAll =>
      Some(s.(queue := [], dataQueued := s.dataQueued - Sum(s.queue), completed := s.completed + Ids(s.queue),
              returnBuffers := true))
    case Discard(before) =>
      Some(s.(queue := Kept(s.queue, before),
              dataQueued := s.dataQueued - (Sum(s.queue) - Sum(Kept(s.queue, before))),
              responses := s.responses + Discarded(s.queue, before),
              capacity := GrowFor(s.capacity, |s.responses|, |Discarded(s.queue, before)|),
              flushPending := true))
    case Respond =>
      if s.responses == [] then Some(s)
      else Some(s.(responses := s.responses[1..], completed := s.completed + [s.responses[0]]))
    case RequestExit => Some(s.(exit := true))
    case SetClock(clock) => Some(s.(clock := clock))
    case Play_(written) => ThreadStep(s, written, sinkBuffer)
  }

  // ---------------------------------------------------------------- ledger

  // The buffer or end of stream the thread has taken and not yet answered.
  predicate Holds(th: Thread)
  {
    th.len > 0 || th.pc == AtEos(false)
  }

  function Held(th: Thread, x: Id): nat
  {
    if Holds(th) && th.cmdid == x then 1 else 0
  }

  // All the places an accepted id can be.
  function Places(s: State, x: Id): nat
  {
    Count(Ids(s.queue), x) + Held(s.th, x) + Count(s.responses, x) + Count(s.completed, x)
    + Count(s.overflowed, x) + Count(s.unanswered, x)
  }

  function Accepted(s: State, x: Id): nat
  {
    if x < s.nextId then 1 else 0
  }

  lemma {:induction false} IdsAppend(a: seq<Req>, b: seq<Req>)
    ensures Ids(a + b) == Ids(a) + Ids(b) && Sum(a + b) == Sum(a) + Sum(b)
  {
    if a == [] {
      assert a + b == b;
    } else {
      IdsAppend(a[1..], b);
      assert (a + b)[1..] == a[1..] + b && (a + b)[0] == a[0];
      assert Ids(a + b) == [a[0].id] + (Ids(a[1..]) + Ids(b));
    }
  }

  lemma {:induction false} IdsAt(q: seq<Req>)
    ensures |Ids(q)| == |q| && forall i :: 0 <= i < |q| ==> Ids(q)[i] == q[i].id
  {
    if q != [] {
      IdsAt(q[1..]);
      forall i | 0 <= i < |q| ensures Ids(q)[i] == q[i].id {
        if i > 0 { assert Ids(q)[i] == Ids(q[1..])[i - 1]; }
      }
    }
  }

  lemma IdsOne(r: Req)
    ensures Ids([r]) == [r.id] && Sum([r]) == r.len
  {
    assert [r][1..] == [];
  }

  // Discarding splits the queue: nothing lost, nothing invented.
  lemma {:induction false} DiscardSplits(q: seq<Req>, before: nat, x: Id)
    ensures Count(Ids(q), x) == Count(Ids(Kept(q, before)), x) + Count(Discarded(q, before), x)
    ensures Sum(Kept(q, before)) <= Sum(q)
    ensures |q| == |Kept(q, before)| + |Discarded(q, before)|
  {
    if q != [] {
      DiscardSplits(q[1..], before, x);
      CountAppend([q[0].id], Ids(q[1..]), x);
      CountOne(q[0].id, x);
      if q[0].timestamp < before {
        CountPush(Discarded(q[1..], before), q[0].id, x);
      } else {
        assert Discarded(q, before) == Discarded(q[1..], before);
        assert ([q[0]] + Kept(q[1..], before))[1..] == Kept(q[1..], before);
        CountAppend([q[0].id], Ids(Kept(q[1..], before)), x);
      }
    }
  }

  // Exactly the requests at or after the timestamp stay, in their order.
  lemma {:induction false} KeptMeans(q: seq<Req>, before: nat)
    ensures forall i :: 0 <= i < |Kept(q, before)| ==> Kept(q, before)[i].timestamp >= before
    ensures forall r :: r in q && r.timestamp >= before ==> r in Kept(q, before)
  {
    if q != [] { KeptMeans(q[1..], before); }
  }

  lemma {:induction false} KeptAppend(a: seq<Req>, b: seq<Req>, before: nat)
    ensures Kept(a + b, before) == Kept(a, before) + Kept(b, before)
  {
    if a == [] {
      assert a + b == b;
    } else {
      var c := a + b;
      KeptAppend(a[1..], b, before);
      assert c[1..] == a[1..] + b && c[0] == a[0];
      var head := if a[0].timestamp < before then [] else [a[0]];
      assert Kept(c, before) == head + Kept(c[1..], before);
      assert Kept(a, before) == head + Kept(a[1..], before);
      hide Kept;
    }
  }

  // -------------------------------------------------- every step's balance

  predicate Shape(s: State)
  {
    && s.th.len <= s.th.total
    && (s.th.len == 0 ==> s.th.total == 0)
    && (s.th.pc.AtEos? || s.th.pc.Done? ==> s.th.len == 0)
    && (!s.exit ==> s.unanswered == [])
  }

  // What is in the ledger beyond the accepted ids was answered out of turn.
  predicate Balanced(s: State, x: Id)
  {
    Places(s, x) == Accepted(s, x) + Count(s.resent, x)
  }

  // Answering touches the response side, the plays and the thread only.
  lemma AnswerFrame(s: State, finished: bool)
    requires s.th.len <= s.th.total
    ensures var r := Answer(s, finished);
      && r.th == s.th.(len := 0, total := 0)
      && r.plays == s.plays + [Play(s.th.cmdid, s.th.total, s.th.total - s.th.len, finished)]
      && (if |s.responses| < s.capacity then r.responses == s.responses + [s.th.cmdid] && r.overflowed == s.overflowed
          else r.responses == s.responses && r.overflowed == s.overflowed + [s.th.cmdid])
      && r == s.(th := r.th, plays := r.plays, responses := r.responses, overflowed := r.overflowed)
  {
  }

  lemma AnswerPlaces(s: State, finished: bool, x: Id)
    requires s.th.len <= s.th.total && s.th.pc != AtEos(false)
    ensures Places(Answer(s, finished), x) + Held(s.th, x) == Places(s, x) + (if s.th.cmdid == x then 1 else 0)
  {
    AnswerFrame(s, finished);
    CountPush(s.responses, s.th.cmdid, x);
    CountPush(s.overflowed, s.th.cmdid, x);
    hide Count, Ids, Answer;
  }

  lemma FlushBalance(s: State, x: Id)
    requires Shape(s) && s.th.pc.AtClock?
    ensures var f := FlushStep(s);
      Places(f, x) == Places(s, x) && f.th.pc.AtClock? && f.nextId == s.nextId && f.resent == s.resent
  {
    hide Count, Ids, Answer;
    if s.flushPending && s.th.len > 0 {
      var f := s.(flushPending := false, sinceFlush := 0, th := s.th.(avail := 0));
      AnswerFrame(f, false);
      AnswerPlaces(f, false, x);
    }
  }

  // A new thread state moves the ledger by what it holds.
  lemma ThreadMoves(s: State, th: Thread, x: Id)
    requires Held(th, x) == Held(s.th, x)
    ensures Places(s.(th := th), x) == Places(s, x)
  {
  }

  lemma ClockBalance(s: State, x: Id)
    requires Shape(s) && s.th.pc.AtClock? && Balanced(s, x)
    ensures Balanced(ClockStep(s), x)
  {
    FlushBalance(s, x);
    hide FlushStep, Count, Ids;
    var f := Flushed(s);
    ThreadMoves(f, ClockStep(s).th, x);
  }

  lemma QueueBalance(s: State, x: Id)
    requires Shape(s) && s.th.pc.AtQueue? && Balanced(s, x)
    ensures Balanced(QueueStep(s), x)
  {
    if s.queue != [] {
      assert ([s.queue[0].id] + Ids(s.queue[1..]))[1..] == Ids(s.queue[1..]);
    }
  }

  lemma RespondedPlaces(s: State, id: Id, x: Id)
    ensures Places(Responded(s, id), x) == Places(s, x) + (if id == x then 1 else 0)
    ensures Responded(s, id).th == s.th && Responded(s, id).resent == s.resent && Responded(s, id).nextId == s.nextId
  {
    CountPush(s.responses, id, x);
    CountPush(s.overflowed, id, x);
    hide Count, Ids;
  }

  lemma EosAnswered(s: State, x: Id)
    requires Shape(s) && s.th.pc.AtEos? && Balanced(s, x) && !s.exit
    ensures Balanced(EosStep(s), x)
  {
    CountPush(s.resent, s.th.cmdid, x);
    var done := At(s, AtReturn);
    var stopped := done.(th := done.th.(playing := Stopped));
    RespondedPlaces(stopped, s.th.cmdid, x);
    RespondedPlaces(stopped.(resent := s.resent + [s.th.cmdid]), s.th.cmdid, x);
    hide Count, Ids, Responded;
  }

  lemma EosBalance(s: State, x: Id)
    requires Shape(s) && s.th.pc.AtEos? && Balanced(s, x)
    ensures Balanced(EosStep(s), x)
  {
    if s.exit {
      CountPush(s.unanswered, s.th.cmdid, x);
      hide Count, Ids;
    } else {
      EosAnswered(s, x);
    }
  }

  lemma ReturnBalance(s: State, x: Id)
    requires Shape(s) && s.th.pc.AtReturn? && Balanced(s, x)
    ensures Balanced(ReturnStep(s), x)
  {
    hide Count, Ids, Answer;
    if s.th.len > 0 {
      AnswerFrame(s, false);
      AnswerPlaces(s, false, x);
    }
  }

  lemma ExitBalance(s: State, x: Id)
    requires Shape(s) && s.th.pc.AtExit? && Balanced(s, x)
    ensures Balanced(ExitStep(s), x)
  {
    hide Count, Ids, Answer;
    if s.th.len > 0 {
      AnswerFrame(s, false);
      AnswerPlaces(s, false, x);
    }
  }

  lemma OutputBalance(s: State, written: nat, sinkBuffer: nat, x: Id)
    requires Shape(s) && s.th.pc.AtOutput? && written <= ToWrite(s, sinkBuffer) && Balanced(s, x)
    ensures Balanced(OutputStep(s, written, sinkBuffer), x)
  {
    hide Count, Ids, Answer, Bytes;
    if s.th.len > 0 && s.th.playing.Started? && !s.exit {
      var w := Written(s, written, sinkBuffer);
      if w.th.len == 0 {
        AnswerFrame(w, true);
        AnswerPlaces(w, true, x);
      }
    }
  }

  lemma ThreadBalance(s: State, written: nat, sinkBuffer: nat, x: Id)
    requires Shape(s) && ThreadStep(s, written, sinkBuffer).Some? && Balanced(s, x)
    ensures Balanced(ThreadStep(s, written, sinkBuffer).value, x)
  {
    hide Places, Count, Balanced, ClockStep, QueueStep, EosStep, ReturnStep, ExitStep, OutputStep;
    match s.th.pc {
      case AtClock => ClockBalance(s, x);
      case AtQueue => QueueBalance(s, x);
      case AtEos(_) => EosBalance(s, x);
      case AtReturn => ReturnBalance(s, x);
      case AtExit => ExitBalance(s, x);
      case AtOutput => OutputBalance(s, written, sinkBuffer, x);
      case Done =>
    }
  }

  lemma Found(q: seq<Req>, i: nat, x: Id)
    requires i < |q|
    ensures Count(Ids(q), x) == Count(Ids(q[..i] + q[i + 1..]), x) + (if q[i].id == x then 1 else 0)
    ensures Sum(q) == Sum(q[..i] + q[i + 1..]) + q[i].len
  {
    var a, b := q[..i], q[i + 1..];
    assert q == a + ([q[i]] + b);
    IdsAppend(a, [q[i]] + b);
    IdsAppend([q[i]], b);
    IdsAppend(a, b);
    IdsOne(q[i]);
    CountAppend(Ids(a), [q[i].id] + Ids(b), x);
    CountAppend([q[i].id], Ids(b), x);
    CountAppend(Ids(a), Ids(b), x);
    CountOne(q[i].id, x);
    hide Ids, Sum, Count;
  }

  lemma CancelBalance(s: State, id: Id, x: Id, sinkBuffer: nat)
    ensures Places(Step(s, Cancel(id), sinkBuffer).value, x) == Places(s, x)
    ensures Sum(Step(s, Cancel(id), sinkBuffer).value.queue)
            == Sum(s.queue) - (s.dataQueued - Step(s, Cancel(id), sinkBuffer).value.dataQueued)
  {
    var i := Find(Ids(s.queue), id);
    IdsAt(s.queue);
    if i < |s.queue| {
      Found(s.queue, i, x);
      CountPush(s.completed, id, x);
    }
    hide Ids, Sum, Count;
  }

  lemma MioBalance(s: State, a: Action, x: Id, sinkBuffer: nat)
    requires !a.Play_? && Step(s, a, sinkBuffer).Some? && Balanced(s, x)
    ensures Balanced(Step(s, a, sinkBuffer).value, x)
  {
    match a {
      case Write(len, timestamp) =>
        IdsAppend(s.queue, [Req(len, s.nextId, timestamp)]);
        IdsOne(Req(len, s.nextId, timestamp));
        CountPush(Ids(s.queue), s.nextId, x);
      case WriteOther => CountPush(s.responses, s.nextId, x);
      case Cancel(id) => CancelBalance(s, id, x, sinkBuffer);
      case ReturnAll => CountAppend(s.completed, Ids(s.queue), x);
      case Discard(before) =>
        DiscardSplits(s.queue, before, x);
        CountAppend(s.responses, Discarded(s.queue, before), x);
      case Respond => if s.responses != [] { CountPush(s.completed, s.responses[0], x); }
      case _ =>
    }
  }

  // ------------------------------------------------------- byte accounting

  function Flat(plays: seq<Play>): seq<(Id, nat)>
  {
    if plays == [] then []
    else Flat(plays[..|plays| - 1]) + Bytes(plays[|plays| - 1].id, 0, plays[|plays| - 1].written)
  }

  predicate PlaysOk(plays: seq<Play>)
  {
    forall i :: 0 <= i < |plays| ==>
      plays[i].written <= plays[i].total && (plays[i].finished ==> plays[i].written == plays[i].total)
  }

  // Every id accounted for in number, which bounds the response queue.
  predicate Counted(s: State)
  {
    |s.queue| + (if Holds(s.th) then 1 else 0) + |s.responses| + |s.completed| + |s.overflowed| + |s.unanswered|
    == s.nextId + |s.resent|
  }

  // The sink has received, buffer after buffer, the first bytes of each.
  predicate SinkOk(s: State)
    requires s.th.len <= s.th.total
  {
    s.sink == Flat(s.plays) + Bytes(s.th.cmdid, 0, s.th.total - s.th.len) && PlaysOk(s.plays)
  }

  // The thread's place in the sink's buffer is its place since the last flush.
  predicate Aligned(s: State, sinkBuffer: nat)
    requires sinkBuffer > 0
  {
    s.th.avail <= sinkBuffer && (s.sinceFlush + s.th.avail) % sinkBuffer == 0
  }

  predicate Tallied(s: State, sinkBuffer: nat)
    requires sinkBuffer > 0
  {
    Shape(s) && s.dataQueued == Sum(s.queue) && Counted(s) && SinkOk(s) && Aligned(s, sinkBuffer)
  }

  lemma AnswerTallied(s: State, finished: bool, sinkBuffer: nat)
    requires sinkBuffer > 0 && s.th.len <= s.th.total && s.th.pc != AtEos(false)
    requires SinkOk(s) && Aligned(s, sinkBuffer) && (finished ==> s.th.len == 0)
    ensures var r := Answer(s, finished);
      && r.th == s.th.(len := 0, total := 0)
      && SinkOk(r) && Aligned(r, sinkBuffer)
      && r.queue == s.queue && r.dataQueued == s.dataQueued && r.unanswered == s.unanswered && r.exit == s.exit
      && |r.responses| + |r.overflowed| == |s.responses| + |s.overflowed| + 1
      && r.completed == s.completed && r.resent == s.resent && r.nextId == s.nextId
  {
    AnswerFrame(s, finished);
    var r := Answer(s, finished);
    hide Answer, Bytes;
    assert r.plays[..|s.plays|] == s.plays;
    NoBytes(s.th.cmdid);
  }

  lemma NoBytes(id: Id)
    ensures Bytes(id, 0, 0) == []
  {
  }

  lemma FlushTallied(s: State, sinkBuffer: nat)
    requires sinkBuffer > 0 && Tallied(s, sinkBuffer) && s.th.pc.AtClock?
    ensures Tallied(FlushStep(s), sinkBuffer) && FlushStep(s).th.pc.AtClock?
  {
    hide Answer, Bytes, Sum, Flat, PlaysOk;
    if s.flushPending {
      var f := s.(flushPending := false, sinceFlush := 0, th := s.th.(avail := 0));
      assert Aligned(f, sinkBuffer);
      if s.th.len > 0 { AnswerTallied(f, false, sinkBuffer); }
    }
  }

  lemma MoveTallied(s: State, th: Thread, sinkBuffer: nat)
    requires sinkBuffer > 0 && Tallied(s, sinkBuffer)
    requires th == s.th.(pc := th.pc, playing := th.playing) && th.pc.AtQueue? && s.th.pc.AtClock?
    ensures Tallied(s.(th := th), sinkBuffer)
  {
    hide Bytes, Sum, Flat, PlaysOk;
  }

  lemma ClockTallied(s: State, sinkBuffer: nat)
    requires sinkBuffer > 0 && Tallied(s, sinkBuffer) && s.th.pc.AtClock?
    ensures Tallied(ClockStep(s), sinkBuffer)
  {
    FlushTallied(s, sinkBuffer);
    MoveTallied(Flushed(s), ClockStep(s).th, sinkBuffer);
    hide FlushStep, Tallied;
  }

  lemma QueueTallied(s: State, sinkBuffer: nat)
    requires sinkBuffer > 0 && Tallied(s, sinkBuffer) && s.th.pc.AtQueue?
    ensures Tallied(QueueStep(s), sinkBuffer)
  {
    hide Flat, PlaysOk;
    NoBytes(s.th.cmdid);
    if s.th.len == 0 && s.queue != [] { NoBytes(s.queue[0].id); }
    hide Bytes;
  }

  lemma EosTallied(s: State, sinkBuffer: nat)
    requires sinkBuffer > 0 && Tallied(s, sinkBuffer) && s.th.pc.AtEos?
    ensures Tallied(EosStep(s), sinkBuffer)
  {
    hide Bytes, Sum, Flat, PlaysOk;
  }

  lemma ReturnTallied(s: State, sinkBuffer: nat)
    requires sinkBuffer > 0 && Tallied(s, sinkBuffer) && s.th.pc.AtReturn?
    ensures Tallied(ReturnStep(s), sinkBuffer)
  {
    hide Answer, Bytes, Sum, Flat, PlaysOk;
    if s.th.len > 0 { AnswerTallied(s, false, sinkBuffer); }
  }

  lemma ExitTallied(s: State, sinkBuffer: nat)
    requires sinkBuffer > 0 && Tallied(s, sinkBuffer) && s.th.pc.AtExit?
    ensures Tallied(ExitStep(s), sinkBuffer)
  {
    hide Answer, Bytes, Sum, Flat, PlaysOk;
    if s.th.len > 0 { AnswerTallied(s, false, sinkBuffer); }
  }

  lemma AlignedAdd(since: nat, avail: nat, sinkBuffer: nat, room: nat, written: nat)
    requires sinkBuffer > 0 && avail <= sinkBuffer && (since + avail) % sinkBuffer == 0
    requires room == if avail == 0 then sinkBuffer else avail
    requires written <= room
    ensures (since + written + (room - written)) % sinkBuffer == 0
    ensures written > 0 ==> since / sinkBuffer == (since + written - 1) / sinkBuffer
  {
    var k := (since + avail) / sinkBuffer;
    assert since + avail == k * sinkBuffer;
    if avail == 0 {
      Within(since, k, 0, sinkBuffer);
      Within(since + sinkBuffer, k + 1, 0, sinkBuffer);
      if written > 0 { Within(since + written - 1, k, written - 1, sinkBuffer); }
    } else {
      Within(since, k - 1, sinkBuffer - avail, sinkBuffer);
      if written > 0 { Within(since + written - 1, k - 1, sinkBuffer - avail + written - 1, sinkBuffer); }
    }
  }

  lemma Multiples(a: nat, b: nat, d: nat)
    requires a <= b
    ensures a * d <= b * d && (a > 0 ==> a * d == (a - 1) * d + d)
  {
  }

  lemma Within(n: nat, q: nat, r: nat, d: nat)
    requires r < d && n == q * d + r
    ensures n / d == q && n % d == r
  {
    var k := n / d;
    assert n == k * d + n % d;
    if k < q {
      Multiples(k + 1, q, d);
    } else if k > q {
      Multiples(q + 1, k, d);
    }
  }

  lemma BytesAppend(id: Id, n: nat, m: nat)
    ensures Bytes(id, 0, n + m) == Bytes(id, 0, n) + Bytes(id, n, m)
  {
  }

  lemma WrittenTallied(s: State, written: nat, sinkBuffer: nat)
    requires sinkBuffer > 0 && Tallied(s, sinkBuffer) && written <= ToWrite(s, sinkBuffer)
    ensures SinkOk(Written(s, written, sinkBuffer)) && Aligned(Written(s, written, sinkBuffer), sinkBuffer)
  {
    AlignedAdd(s.sinceFlush, s.th.avail, sinkBuffer, Room(s, sinkBuffer), written);
    BytesAppend(s.th.cmdid, s.th.total - s.th.len, written);
    hide Bytes, Flat, PlaysOk, Sum;
  }

  lemma AtTallied(s: State, pc: Pc, sinkBuffer: nat)
    requires sinkBuffer > 0 && s.th.len <= s.th.total
    ensures SinkOk(At(s, pc)) == SinkOk(s) && Aligned(At(s, pc), sinkBuffer) == Aligned(s, sinkBuffer)
  {
  }

  lemma FinishTallied(s: State, written: nat, sinkBuffer: nat)
    requires sinkBuffer > 0 && Tallied(s, sinkBuffer) && s.th.pc.AtOutput? && written <= ToWrite(s, sinkBuffer)
    requires s.th.len == written > 0
    ensures Tallied(At(Answer(Written(s, written, sinkBuffer), true), AtClock), sinkBuffer)
  {
    WrittenTallied(s, written, sinkBuffer);
    var w := Written(s, written, sinkBuffer);
    AnswerTallied(w, true, sinkBuffer);
    AtTallied(Answer(w, true), AtClock, sinkBuffer);
    hide Answer, Bytes, Sum, SinkOk, Aligned;
  }

  lemma OutputTallied(s: State, written: nat, sinkBuffer: nat)
    requires sinkBuffer > 0 && Tallied(s, sinkBuffer) && s.th.pc.AtOutput? && written <= ToWrite(s, sinkBuffer)
    ensures Tallied(OutputStep(s, written, sinkBuffer), sinkBuffer)
  {
    WrittenTallied(s, written, sinkBuffer);
    AtTallied(s, AtClock, sinkBuffer);
    AtTallied(Written(s, written, sinkBuffer), AtClock, sinkBuffer);
    hide Answer, Bytes, Sum, SinkOk, Aligned;
    if s.th.len > 0 && s.th.len == written {
      FinishTallied(s, written, sinkBuffer);
      hide Tallied;
    }
  }

  lemma ThreadTallied(s: State, written: nat, sinkBuffer: nat)
    requires sinkBuffer > 0 && Tallied(s, sinkBuffer) && ThreadStep(s, written, sinkBuffer).Some?
    ensures Tallied(ThreadStep(s, written, sinkBuffer).value, sinkBuffer)
  {
    hide Tallied, ClockStep, QueueStep, EosStep, ReturnStep, ExitStep, OutputStep;
    match s.th.pc {
      case AtClock => ClockTallied(s, sinkBuffer);
      case AtQueue => QueueTallied(s, sinkBuffer);
      case AtEos(_) => EosTallied(s, sinkBuffer);
      case AtReturn => ReturnTallied(s, sinkBuffer);
      case AtExit => ExitTallied(s, sinkBuffer);
      case AtOutput => OutputTallied(s, written, sinkBuffer);
      case Done =>
    }
  }

  lemma {:induction false} IdsLength(q: seq<Req>)
    ensures |Ids(q)| == |q|
  {
    if q != [] { IdsLength(q[1..]); }
  }

  // Queue operations leave the thread and the sink alone.
  lemma QueueOnly(s: State, s': State, sinkBuffer: nat)
    requires sinkBuffer > 0 && Tallied(s, sinkBuffer)
    requires s'.th == s.th && s'.plays == s.plays && s'.sink == s.sink && s'.sinceFlush == s.sinceFlush
    requires s'.unanswered == s.unanswered && (s.exit ==> s'.exit)
    requires s'.dataQueued == Sum(s'.queue) && Counted(s')
    ensures Tallied(s', sinkBuffer)
  {
    hide Bytes, Flat, PlaysOk, Sum;
  }

  lemma WriteTallied(s: State, len: nat, timestamp: nat, sinkBuffer: nat)
    requires sinkBuffer > 0 && Tallied(s, sinkBuffer)
    ensures Tallied(Step(s, Write(len, timestamp), sinkBuffer).value, sinkBuffer)
  {
    IdsAppend(s.queue, [Req(len, s.nextId, timestamp)]);
    IdsOne(Req(len, s.nextId, timestamp));
    hide SinkOk, Aligned, Sum;
    QueueOnly(s, Step(s, Write(len, timestamp), sinkBuffer).value, sinkBuffer);
  }

  lemma ErasedTallied(s: State, i: nat, id: Id, sinkBuffer: nat)
    requires sinkBuffer > 0 && Tallied(s, sinkBuffer) && i < |s.queue|
    ensures Tallied(s.(queue := s.queue[..i] + s.queue[i + 1..], dataQueued := s.dataQueued - s.queue[i].len,
                       completed := s.completed + [id]), sinkBuffer)
  {
    Found(s.queue, i, 0);
    hide SinkOk, Aligned, Sum, Count, Ids;
    QueueOnly(s, s.(queue := s.queue[..i] + s.queue[i + 1..], dataQueued := s.dataQueued - s.queue[i].len,
                    completed := s.completed + [id]), sinkBuffer);
  }

  lemma CancelTallied(s: State, id: Id, sinkBuffer: nat)
    requires sinkBuffer > 0 && Tallied(s, sinkBuffer)
    ensures Tallied(Step(s, Cancel(id), sinkBuffer).value, sinkBuffer)
  {
    IdsAt(s.queue);
    var i := Find(Ids(s.queue), id);
    if i < |s.queue| { ErasedTallied(s, i, id, sinkBuffer); }
    hide Tallied, Ids, Find;
  }

  lemma ReturnTwoTallied(s: State, a: Action, sinkBuffer: nat)
    requires sinkBuffer > 0 && Tallied(s, sinkBuffer) && (a.ReturnAll? || a.Discard?)
    ensures Tallied(Step(s, a, sinkBuffer).value, sinkBuffer)
  {
    IdsLength(s.queue);
    if a.Discard? { DiscardSplits(s.queue, a.before, 0); }
    assert Sum([]) == 0;
    hide SinkOk, Aligned, Sum, Kept, Discarded, Ids, Count;
    QueueOnly(s, Step(s, a, sinkBuffer).value, sinkBuffer);
  }

  lemma MioTallied(s: State, a: Action, sinkBuffer: nat)
    requires sinkBuffer > 0 && Tallied(s, sinkBuffer) && !a.Play_?
    ensures Tallied(Step(s, a, sinkBuffer).value, sinkBuffer)
  {
    hide Sum, SinkOk, Aligned;
    match a {
      case Write(len, timestamp) => WriteTallied(s, len, timestamp, sinkBuffer);
      case Cancel(id) => CancelTallied(s, id, sinkBuffer);
      case ReturnAll => ReturnTwoTallied(s, a, sinkBuffer);
      case Discard(before) => ReturnTwoTallied(s, a, sinkBuffer);
      case WriteOther => QueueOnly(s, Step(s, a, sinkBuffer).value, sinkBuffer);
      case Respond => QueueOnly(s, Step(s, a, sinkBuffer).value, sinkBuffer);
      case RequestExit => QueueOnly(s, Step(s, a, sinkBuffer).value, sinkBuffer);
      case SetClock(_) => QueueOnly(s, Step(s, a, sinkBuffer).value, sinkBuffer);
    }
  }

  // ------------------------------------------------------------------ runs

  function Run(s: State, actions: seq<Action>, sinkBuffer: nat): Option<State>
    decreases |actions|
  {
    if actions == [] then Some(s)
    else
      var s' := Step(s, actions[0], sinkBuffer);
      if s'.None? then None else Run(s'.value, actions[1..], sinkBuffer)
  }

  ghost predicate Inv(s: State, sinkBuffer: nat)
    requires sinkBuffer > 0
  {
    Tallied(s, sinkBuffer) && forall x: Id :: Balanced(s, x)
  }

  lemma StepKeepsInv(s: State, a: Action, sinkBuffer: nat)
    requires sinkBuffer > 0 && Inv(s, sinkBuffer) && Step(s, a, sinkBuffer).Some?
    ensures Inv(Step(s, a, sinkBuffer).value, sinkBuffer)
  {
    assert Shape(s);
    hide Tallied, Balanced, Shape, ThreadStep;
    var s' := Step(s, a, sinkBuffer).value;
    if a.Play_? {
      ThreadTallied(s, a.written, sinkBuffer);
      forall x: Id ensures Balanced(s', x) { ThreadBalance(s, a.written, sinkBuffer, x); }
    } else {
      MioTallied(s, a, sinkBuffer);
      forall x: Id ensures Balanced(s', x) { MioBalance(s, a, x, sinkBuffer); }
    }
  }

  lemma {:induction false} RunKeepsInv(s: State, actions: seq<Action>, sinkBuffer: nat)
    requires sinkBuffer > 0 && Inv(s, sinkBuffer) && Run(s, actions, sinkBuffer).Some?
    ensures Inv(Run(s, actions, sinkBuffer).value, sinkBuffer)
    decreases |actions|
  {
    hide Inv, Step;
    if actions != [] {
      StepKeepsInv(s, actions[0], sinkBuffer);
      RunKeepsInv(Step(s, actions[0], sinkBuffer).value, actions[1..], sinkBuffer);
    }
  }

  // In every interleaving each accepted id is in exactly one place, and every
  // answer out of turn shows up once more.
  lemma Conservation(actions: seq<Action>, capacity: nat, sinkBuffer: nat, x: Id)
    requires sinkBuffer > 0 && Run(Initial(capacity), actions, sinkBuffer).Some?
    ensures var s := Run(Initial(capacity), actions, sinkBuffer).value;
      Places(s, x) == (if x < s.nextId then 1 else 0) + Count(s.resent, x)
  {
    InitialInv(capacity, sinkBuffer);
    RunKeepsInv(Initial(capacity), actions, sinkBuffer);
    assert Balanced(Run(Initial(capacity), actions, sinkBuffer).value, x);
  }

  lemma InitialInv(capacity: nat, sinkBuffer: nat)
    requires sinkBuffer > 0
    ensures Inv(Initial(capacity), sinkBuffer)
  {
    NoBytes(0);
  }

  // While the exit flag is clear and no response had to be dropped, a write
  // that was accepted is queued, held by the thread, waiting as a response, or
  // completed.
  lemma NeverLost(actions: seq<Action>, capacity: nat, sinkBuffer: nat, x: Id)
    requires sinkBuffer > 0 && Run(Initial(capacity), actions, sinkBuffer).Some?
    requires var s := Run(Initial(capacity), actions, sinkBuffer).value;
      x < s.nextId && !s.exit && s.overflowed == []
    ensures var s := Run(Initial(capacity), actions, sinkBuffer).value;
      x in Ids(s.queue) || (Holds(s.th) && s.th.cmdid == x) || x in s.responses || x in s.completed
  {
    Conservation(actions, capacity, sinkBuffer, x);
    InitialInv(capacity, sinkBuffer);
    RunKeepsInv(Initial(capacity), actions, sinkBuffer);
    var s := Run(Initial(capacity), actions, sinkBuffer).value;
    hide Run, Ids;
    CountAbsent(Ids(s.queue), x);
    CountAbsent(s.responses, x);
    CountAbsent(s.completed, x);
  }

  // The byte count never drifts and never underflows, and the sink holds, in
  // order, the first bytes of every buffer taken: all of them where the buffer
  // was answered for being finished.
  lemma Accounting(actions: seq<Action>, capacity: nat, sinkBuffer: nat)
    requires sinkBuffer > 0 && Run(Initial(capacity), actions, sinkBuffer).Some?
    ensures var s := Run(Initial(capacity), actions, sinkBuffer).value;
      && s.dataQueued == Sum(s.queue) >= 0
      && s.th.len <= s.th.total
      && s.sink == Flat(s.plays) + Bytes(s.th.cmdid, 0, s.th.total - s.th.len)
      && PlaysOk(s.plays)
  {
    InitialInv(capacity, sinkBuffer);
    RunKeepsInv(Initial(capacity), actions, sinkBuffer);
    hide Run;
  }

  // Between flushes no write to the sink straddles a multiple of its buffer.
  lemma NoStraddle(actions: seq<Action>, capacity: nat, sinkBuffer: nat, written: nat)
    requires sinkBuffer > 0 && Run(Initial(capacity), actions, sinkBuffer).Some?
    requires var s := Run(Initial(capacity), actions, sinkBuffer).value;
      s.th.pc.AtOutput? && s.th.len <= s.th.total && 0 < written <= ToWrite(s, sinkBuffer)
    ensures var s := Run(Initial(capacity), actions, sinkBuffer).value;
      s.sinceFlush / sinkBuffer == (s.sinceFlush + written - 1) / sinkBuffer
  {
    InitialInv(capacity, sinkBuffer);
    RunKeepsInv(Initial(capacity), actions, sinkBuffer);
    var s := Run(Initial(capacity), actions, sinkBuffer).value;
    hide Run, Balanced, SinkOk, Counted;
    AlignedAdd(s.sinceFlush, s.th.avail, sinkBuffer, Room(s, sinkBuffer), written);
  }

  // ------------------------------------------------- answers out of turn

  // The one step that answers though nothing was taken from the queue: buffers
  // are asked back and the end-of-stream branch finds the queue empty.
  predicate Repeats(s: State, a: Action)
  {
    a.Play_? && s.th.len <= s.th.total && s.th.pc == AtEos(true) && s.returnBuffers && !s.exit
  }

  lemma ThreadRepeats(s: State, written: nat, sinkBuffer: nat)
    requires ThreadStep(s, written, sinkBuffer).Some? && Shape(s)
    ensures var t := ThreadStep(s, written, sinkBuffer).value;
      && t.resent == s.resent + (if Repeats(s, Play_(written)) then [s.th.cmdid] else [])
      && t.nextId == s.nextId && (t.queue == s.queue || (s.queue != [] && t.queue == s.queue[1..]))
      && (t.th.cmdid == s.th.cmdid || (s.queue != [] && t.th.cmdid == s.queue[0].id))
  {
    AnswerKeepsIds(s);
    match s.th.pc
    case AtClock => FlushKeepsIds(s); hide FlushStep, Answer;
    case AtOutput => OutputKeepsIds(s, written, sinkBuffer); hide OutputStep, Answer;
    case AtEos(_) => hide Answer;
    case _ => hide Answer;
  }

  lemma AnswerKeepsIds(s: State)
    requires s.th.len <= s.th.total
    ensures forall finished :: var r := Answer(s, finished);
      r.resent == s.resent && r.nextId == s.nextId && r.queue == s.queue && r.th.cmdid == s.th.cmdid
  {
    forall finished
      ensures var r := Answer(s, finished);
        r.resent == s.resent && r.nextId == s.nextId && r.queue == s.queue && r.th.cmdid == s.th.cmdid
    {
      AnswerFrame(s, finished);
    }
    hide Answer;
  }

  lemma FlushKeepsIds(s: State)
    requires s.th.len <= s.th.total
    ensures var r := FlushStep(s);
      r.resent == s.resent && r.nextId == s.nextId && r.queue == s.queue && r.th.cmdid == s.th.cmdid
  {
    AnswerFrame(s.(flushPending := false, sinceFlush := 0, th := s.th.(avail := 0)), false);
    hide Answer;
  }

  lemma OutputKeepsIds(s: State, written: nat, sinkBuffer: nat)
    requires s.th.len <= s.th.total && written <= ToWrite(s, sinkBuffer)
    ensures var r := OutputStep(s, written, sinkBuffer);
      r.resent == s.resent && r.nextId == s.nextId && r.queue == s.queue && r.th.cmdid == s.th.cmdid
  {
    AnswerFrame(Written(s, written, sinkBuffer), true);
    hide Answer, Bytes;
  }

  lemma MioRepeatsNot(s: State, a: Action, sinkBuffer: nat)
    requires !a.Play_?
    ensures Step(s, a, sinkBuffer).value.resent == s.resent
  {}

  lemma RepeatsExactly(s: State, a: Action, sinkBuffer: nat)
    requires Step(s, a, sinkBuffer).Some? && Shape(s)
    ensures Step(s, a, sinkBuffer).value.resent == s.resent + (if Repeats(s, a) then [s.th.cmdid] else [])
  {
    if a.Play_? { ThreadRepeats(s, a.written, sinkBuffer); } else { MioRepeatsNot(s, a, sinkBuffer); }
    hide ThreadStep;
  }

  // No step of a run answers out of turn.
  predicate Quiet(s: State, actions: seq<Action>, sinkBuffer: nat)
    requires Run(s, actions, sinkBuffer).Some?
    decreases |actions|
  {
    actions == [] || (!Repeats(s, actions[0]) && Quiet(Step(s, actions[0], sinkBuffer).value, actions[1..], sinkBuffer))
  }

  lemma {:induction false} QuietRuns(s: State, actions: seq<Action>, sinkBuffer: nat)
    requires sinkBuffer > 0 && Inv(s, sinkBuffer) && Run(s, actions, sinkBuffer).Some?
    ensures |Run(s, actions, sinkBuffer).value.resent| >= |s.resent|
    ensures |Run(s, actions, sinkBuffer).value.resent| == |s.resent| <==> Quiet(s, actions, sinkBuffer)
    decreases |actions|
  {
    if actions != [] {
      StepKeepsInv(s, actions[0], sinkBuffer);
      RepeatsExactly(s, actions[0], sinkBuffer);
      hide Step, Repeats, Inv;
      QuietRuns(Step(s, actions[0], sinkBuffer).value, actions[1..], sinkBuffer);
    }
  }

  // Every id is in exactly one place if it was accepted, and in none if it was
  // not, just in the runs without such a step.
  lemma ExactlyOnce(actions: seq<Action>, capacity: nat, sinkBuffer: nat)
    requires sinkBuffer > 0 && Run(Initial(capacity), actions, sinkBuffer).Some?
    ensures var s := Run(Initial(capacity), actions, sinkBuffer).value;
      (forall x: Id :: Places(s, x) == if x < s.nextId then 1 else 0) <==> Quiet(Initial(capacity), actions, sinkBuffer)
  {
    var s := Run(Initial(capacity), actions, sinkBuffer).value;
    InitialInv(capacity, sinkBuffer);
    QuietRuns(Initial(capacity), actions, sinkBuffer);
    forall x: Id ensures Places(s, x) == (if x < s.nextId then 1 else 0) + Count(s.resent, x) {
      Conservation(actions, capacity, sinkBuffer, x);
    }
    if s.resent != [] { CountAbsent(s.resent, s.resent[0]); }
    hide Run, Places;
  }

  // Ids are given out in order and the thread starts with id 0, so an answer
  // out of turn is for a command accepted before, or for 0.
  ghost predicate Known(s: State)
  {
    && (forall i :: 0 <= i < |s.queue| ==> s.queue[i].id < s.nextId)
    && (s.th.cmdid < s.nextId || s.th.cmdid == 0)
    && (forall x :: x in s.resent ==> x < s.nextId || x == 0)
  }

  lemma {:induction false} KeptFrom(q: seq<Req>, before: nat, n: nat)
    requires forall i :: 0 <= i < |q| ==> q[i].id < n
    ensures forall i :: 0 <= i < |Kept(q, before)| ==> Kept(q, before)[i].id < n
  {
    if q != [] { KeptFrom(q[1..], before, n); }
  }

  lemma MioKeepsKnown(s: State, a: Action, sinkBuffer: nat)
    requires Known(s) && !a.Play_?
    ensures Known(Step(s, a, sinkBuffer).value)
  {
    MioRepeatsNot(s, a, sinkBuffer);
    if a.Discard? { KeptFrom(s.queue, a.before, s.nextId); }
    hide Kept, Discarded, Ids, Sum, GrowFor, Find;
  }

  lemma StepKeepsKnown(s: State, a: Action, sinkBuffer: nat)
    requires Known(s) && Shape(s) && Step(s, a, sinkBuffer).Some?
    ensures Known(Step(s, a, sinkBuffer).value)
  {
    if a.Play_? { ThreadRepeats(s, a.written, sinkBuffer); } else { MioKeepsKnown(s, a, sinkBuffer); }
    hide ThreadStep;
  }

  lemma {:induction false} RunKeepsKnown(s: State, actions: seq<Action>, sinkBuffer: nat)
    requires sinkBuffer > 0 && Inv(s, sinkBuffer) && Known(s) && Run(s, actions, sinkBuffer).Some?
    ensures Known(Run(s, actions, sinkBuffer).value)
    decreases |actions|
  {
    if actions != [] {
      StepKeepsInv(s, actions[0], sinkBuffer);
      StepKeepsKnown(s, actions[0], sinkBuffer);
      hide Step, Known, Inv;
      RunKeepsKnown(Step(s, actions[0], sinkBuffer).value, actions[1..], sinkBuffer);
    }
  }

  lemma OnlyZeroUnknown(actions: seq<Action>, capacity: nat, sinkBuffer: nat, x: Id)
    requires sinkBuffer > 0 && Run(Initial(capacity), actions, sinkBuffer).Some?
    requires x > 0 && x >= Run(Initial(capacity), actions, sinkBuffer).value.nextId
    ensures Places(Run(Initial(capacity), actions, sinkBuffer).value, x) == 0
  {
    Conservation(actions, capacity, sinkBuffer, x);
    InitialInv(capacity, sinkBuffer);
    RunKeepsKnown(Initial(capacity), actions, sinkBuffer);
    CountAbsent(Run(Initial(capacity), actions, sinkBuffer).value.resent, x);
    hide Run, Places;
  }

  // ------------------------------------------------------- order of playing

  // The requests the peer's writes ask for: ids are given out in turn, to
  // writes and to everything else that is written.
  function Submits(next: Id, a: Action): seq<Req>
  {
    if a.Write? then [Req(a.len, next, a.timestamp)] else []
  }

  function NextAfter(next: Id, a: Action): Id
  {
    if a.Write? || a.WriteOther? then next + 1 else next
  }

  function Submitted(next: Id, actions: seq<Action>): seq<Req>
    decreases |actions|
  {
    if actions == [] then []
    else Submits(next, actions[0]) + Submitted(NextAfter(next, actions[0]), actions[1..])
  }

  // What the audio thread takes from the queue in one step, and over a run.
  function Takes(s: State, a: Action): seq<Req>
  {
    if a.Play_? && s.th.pc.AtQueue? && s.th.len == 0 && s.queue != [] then [s.queue[0]] else []
  }

  function Taken(s: State, actions: seq<Action>, sinkBuffer: nat): seq<Req>
    requires Run(s, actions, sinkBuffer).Some?
    decreases |actions|
  {
    if actions == [] then []
    else Takes(s, actions[0]) + Taken(Step(s, actions[0], sinkBuffer).value, actions[1..], sinkBuffer)
  }

  // Buffers with something to play, by id and length.
  function Sized(q: seq<Req>): seq<(Id, nat)>
  {
    if q == [] then []
    else Sized(q[..|q| - 1]) + (if q[|q| - 1].len > 0 then [(q[|q| - 1].id, q[|q| - 1].len)] else [])
  }

  function Played(plays: seq<Play>): seq<(Id, nat)>
  {
    seq(|plays|, i requires 0 <= i < |plays| => (plays[i].id, plays[i].total))
  }

  function InHand(th: Thread): seq<(Id, nat)>
  {
    if th.len > 0 then [(th.cmdid, th.total)] else []
  }

  ghost predicate Increasing(q: seq<Req>)
  {
    forall i, j :: 0 <= i < j < |q| ==> q[i].id < q[j].id
  }

  ghost predicate Among(q: seq<Req>, all: seq<Req>)
  {
    forall i :: 0 <= i < |q| ==> q[i] in all
  }

  // After the requests `all` were submitted and `taken` were taken.
  ghost predicate InOrder(s: State, all: seq<Req>, taken: seq<Req>)
  {
    && Increasing(taken + s.queue) && Among(taken + s.queue, all)
    && (forall i :: 0 <= i < |all| ==> all[i].id < s.nextId)
    && Played(s.plays) + InHand(s.th) == Sized(taken)
  }

  lemma SizedOne(q: seq<Req>, r: Req)
    ensures Sized(q + [r]) == Sized(q) + (if r.len > 0 then [(r.id, r.len)] else [])
  {
    assert (q + [r])[..|q|] == q;
  }

  lemma AnswerPlays(s: State, finished: bool)
    requires s.th.len <= s.th.total
    ensures var r := Answer(s, finished);
      && Played(r.plays) == Played(s.plays) + [(s.th.cmdid, s.th.total)] && InHand(r.th) == []
      && r.queue == s.queue && r.nextId == s.nextId
  {
    AnswerFrame(s, finished);
    hide Answer;
  }

  lemma FlushPlays(s: State)
    requires Shape(s)
    ensures var r := FlushStep(s);
      && Played(r.plays) + InHand(r.th) == Played(s.plays) + InHand(s.th)
      && r.queue == s.queue && r.nextId == s.nextId
  {
    AnswerPlays(s.(flushPending := false, sinceFlush := 0, th := s.th.(avail := 0)), false);
    hide Answer, Played;
  }

  lemma ClockPlays(s: State)
    requires Shape(s)
    ensures var r := ClockStep(s);
      && Played(r.plays) + InHand(r.th) == Played(s.plays) + InHand(s.th)
      && r.queue == s.queue && r.nextId == s.nextId
  {
    FlushPlays(s);
    hide FlushStep, Played;
  }

  lemma OutputPlays(s: State, written: nat, sinkBuffer: nat)
    requires Shape(s) && written <= ToWrite(s, sinkBuffer)
    ensures var r := OutputStep(s, written, sinkBuffer);
      && Played(r.plays) + InHand(r.th) == Played(s.plays) + InHand(s.th)
      && r.queue == s.queue && r.nextId == s.nextId
  {
    AnswerPlays(Written(s, written, sinkBuffer), true);
    hide Answer, Played, Bytes;
  }

  lemma QueuePlays(s: State)
    requires Shape(s) && s.th.pc.AtQueue?
    ensures var r, takes := QueueStep(s), Takes(s, Play_(0));
      && s.queue == takes + r.queue && r.nextId == s.nextId && r.plays == s.plays
      && InHand(r.th) == InHand(s.th)
           + (if takes != [] && takes[0].len > 0 then [(takes[0].id, takes[0].len)] else [])
  {
    if s.th.len == 0 && s.queue != [] { assert s.queue == [s.queue[0]] + s.queue[1..]; }
  }

  lemma EosPlays(s: State)
    requires Shape(s) && s.th.pc.AtEos?
    ensures var r := EosStep(s);
      r.plays == s.plays && InHand(r.th) == InHand(s.th) && r.queue == s.queue && r.nextId == s.nextId
  {}

  lemma HandOverPlays(s: State)
    requires Shape(s) && (s.th.pc.AtReturn? || s.th.pc.AtExit?)
    ensures var r := if s.th.pc.AtReturn? then ReturnStep(s) else ExitStep(s);
      && Played(r.plays) + InHand(r.th) == Played(s.plays) + InHand(s.th)
      && r.queue == s.queue && r.nextId == s.nextId
  {
    AnswerPlays(s, false);
    hide Answer, Played;
  }

  lemma ThreadPlays(s: State, written: nat, sinkBuffer: nat)
    requires Shape(s) && ThreadStep(s, written, sinkBuffer).Some?
    ensures var t, takes := ThreadStep(s, written, sinkBuffer).value, Takes(s, Play_(written));
      && s.queue == takes + t.queue && t.nextId == s.nextId
      && Played(t.plays) + InHand(t.th) == Played(s.plays) + InHand(s.th)
           + (if takes != [] && takes[0].len > 0 then [(takes[0].id, takes[0].len)] else [])
  {
    hide FlushStep, QueueStep, EosStep, ReturnStep, ExitStep, OutputStep, Played, InHand;
    match s.th.pc {
      case AtClock => ClockPlays(s); hide ClockStep;
      case AtQueue => QueuePlays(s);
      case AtEos(_) => EosPlays(s);
      case AtOutput => OutputPlays(s, written, sinkBuffer);
      case _ => HandOverPlays(s);
    }
  }

  lemma TakenKeepsOrder(s: State, t: State, takes: seq<Req>, all: seq<Req>, taken: seq<Req>)
    requires InOrder(s, all, taken) && |takes| <= 1 && s.queue == takes + t.queue && t.nextId == s.nextId
    requires Played(t.plays) + InHand(t.th) == Played(s.plays) + InHand(s.th)
               + (if takes != [] && takes[0].len > 0 then [(takes[0].id, takes[0].len)] else [])
    ensures InOrder(t, all, taken + takes)
  {
    hide Played, InHand;
    assert (taken + takes) + t.queue == taken + s.queue;
    if takes == [] {
      assert taken + takes == taken;
    } else {
      SizedOne(taken, takes[0]);
      assert takes == [takes[0]];
    }
    hide Sized, Increasing, Among;
  }

  lemma ThreadKeepsOrder(s: State, written: nat, all: seq<Req>, taken: seq<Req>, sinkBuffer: nat)
    requires Shape(s) && ThreadStep(s, written, sinkBuffer).Some? && InOrder(s, all, taken)
    ensures InOrder(ThreadStep(s, written, sinkBuffer).value, all, taken + Takes(s, Play_(written)))
  {
    ThreadPlays(s, written, sinkBuffer);
    hide ThreadStep, InOrder, Played, InHand, Shape;
    TakenKeepsOrder(s, ThreadStep(s, written, sinkBuffer).value, Takes(s, Play_(written)), all, taken);
  }

  // Taking a request out of the queue keeps the rest in order.
  lemma ThinnedKeepsOrder(a: seq<Req>, r: Req, b: seq<Req>, all: seq<Req>)
    requires Increasing(a + ([r] + b)) && Among(a + ([r] + b), all)
    ensures Increasing(a + b) && Among(a + b, all)
  {
    var q, p := a + ([r] + b), a + b;
    forall i | 0 <= i < |p| ensures p[i] == q[if i < |a| then i else i + 1] {}
  }

  lemma PrefixKeepsOrder(a: seq<Req>, b: seq<Req>, all: seq<Req>)
    requires Increasing(a + b) && Among(a + b, all)
    ensures Increasing(a) && Among(a, all)
  {
    forall i | 0 <= i < |a| ensures a[i] == (a + b)[i] {}
  }

  lemma {:induction false} KeptKeepsOrder(a: seq<Req>, q: seq<Req>, before: nat, all: seq<Req>)
    requires Increasing(a + q) && Among(a + q, all)
    ensures Increasing(a + Kept(q, before)) && Among(a + Kept(q, before), all)
    decreases |q|
  {
    if q != [] {
      assert q == [q[0]] + q[1..];
      if q[0].timestamp < before {
        ThinnedKeepsOrder(a, q[0], q[1..], all);
        KeptKeepsOrder(a, q[1..], before, all);
      } else {
        assert a + q == (a + [q[0]]) + q[1..];
        KeptKeepsOrder(a + [q[0]], q[1..], before, all);
        assert a + Kept(q, before) == (a + [q[0]]) + Kept(q[1..], before);
      }
    }
  }

  lemma NewestKeepsOrder(q: seq<Req>, r: Req, all: seq<Req>)
    requires Increasing(q) && Among(q, all) && (forall i :: 0 <= i < |all| ==> all[i].id < r.id)
    ensures Increasing(q + [r]) && Among(q + [r], all + [r])
  {
    forall i | 0 <= i < |q| ensures q[i].id < r.id { assert q[i] in all; }
  }

  lemma CancelKeepsOrder(q: seq<Req>, i: nat, all: seq<Req>, taken: seq<Req>)
    requires i < |q| && Increasing(taken + q) && Among(taken + q, all)
    ensures Increasing(taken + (q[..i] + q[i + 1..])) && Among(taken + (q[..i] + q[i + 1..]), all)
  {
    assert taken + q == (taken + q[..i]) + ([q[i]] + q[i + 1..]);
    ThinnedKeepsOrder(taken + q[..i], q[i], q[i + 1..], all);
    assert taken + (q[..i] + q[i + 1..]) == (taken + q[..i]) + q[i + 1..];
  }

  // What the writes and the other calls of the peer do to the queue.
  lemma QueueKeepsOrder(s: State, a: Action, all: seq<Req>, taken: seq<Req>, sinkBuffer: nat)
    requires InOrder(s, all, taken) && !a.Play_?
    ensures var q := Step(s, a, sinkBuffer).value.queue; var all' := all + Submits(s.nextId, a);
      Increasing(taken + q) && Among(taken + q, all')
  {
    hide Kept, Discarded, Ids, Sum, GrowFor, Find, Played, InHand, Sized;
    assert all + [] == all;
    match a
    case Write(len, timestamp) =>
      var r := Req(len, s.nextId, timestamp);
      NewestKeepsOrder(taken + s.queue, r, all);
      assert taken + (s.queue + [r]) == (taken + s.queue) + [r];
    case Cancel(id) =>
      var i := Find(Ids(s.queue), id);
      if i < |s.queue| { CancelKeepsOrder(s.queue, i, all, taken); }
    case ReturnAll => PrefixKeepsOrder(taken, s.queue, all); assert taken + [] == taken;
    case Discard(before) => KeptKeepsOrder(taken, s.queue, before, all);
    case _ =>
  }

  lemma MioIds(s: State, a: Action, sinkBuffer: nat)
    requires !a.Play_?
    ensures var t := Step(s, a, sinkBuffer).value;
      t.nextId == NextAfter(s.nextId, a) && t.plays == s.plays && t.th == s.th
  {}

  lemma StepKeepsOrder(s: State, a: Action, all: seq<Req>, taken: seq<Req>, sinkBuffer: nat)
    requires Shape(s) && Step(s, a, sinkBuffer).Some? && InOrder(s, all, taken)
    ensures InOrder(Step(s, a, sinkBuffer).value, all + Submits(s.nextId, a), taken + Takes(s, a))
  {
    if a.Play_? {
      ThreadKeepsOrder(s, a.written, all, taken, sinkBuffer);
      assert all + Submits(s.nextId, a) == all;
      hide InOrder, ThreadStep;
    } else {
      QueueKeepsOrder(s, a, all, taken, sinkBuffer);
      MioIds(s, a, sinkBuffer);
      assert taken + Takes(s, a) == taken;
      hide Step, Played, InHand, Sized, Increasing, Among;
    }
  }

  lemma StepIds(s: State, a: Action, sinkBuffer: nat)
    requires Shape(s) && Step(s, a, sinkBuffer).Some?
    ensures Step(s, a, sinkBuffer).value.nextId == NextAfter(s.nextId, a)
  {
    if a.Play_? { ThreadPlays(s, a.written, sinkBuffer); } else { MioIds(s, a, sinkBuffer); }
    hide ThreadStep;
  }

  lemma {:induction false} RunKeepsOrder(s: State, actions: seq<Action>, all: seq<Req>, taken: seq<Req>,
                                         sinkBuffer: nat)
    requires sinkBuffer > 0 && Inv(s, sinkBuffer) && InOrder(s, all, taken) && Run(s, actions, sinkBuffer).Some?
    ensures InOrder(Run(s, actions, sinkBuffer).value, all + Submitted(s.nextId, actions),
                    taken + Taken(s, actions, sinkBuffer))
    decreases |actions|
  {
    hide Step, InOrder, Inv, Takes, Submits, NextAfter, Shape;
    if actions == [] {
      assert all + [] == all && taken + [] == taken;
    } else {
      var a := actions[0];
      var t := Step(s, a, sinkBuffer).value;
      InvShape(s, sinkBuffer);
      StepKeepsInv(s, a, sinkBuffer);
      StepIds(s, a, sinkBuffer);
      StepKeepsOrder(s, a, all, taken, sinkBuffer);
      RunKeepsOrder(t, actions[1..], all + Submits(s.nextId, a), taken + Takes(s, a), sinkBuffer);
      Associates(all, Submits(s.nextId, a), Submitted(t.nextId, actions[1..]));
      Associates(taken, Takes(s, a), Taken(t, actions[1..], sinkBuffer));
    }
  }

  lemma InvShape(s: State, sinkBuffer: nat)
    requires sinkBuffer > 0 && Inv(s, sinkBuffer)
    ensures Shape(s)
  {
    hide Shape;
  }

  lemma Associates<T>(a: seq<T>, b: seq<T>, c: seq<T>)
    ensures (a + b) + c == a + (b + c)
  {}

  lemma InitialInOrder(capacity: nat)
    ensures InOrder(Initial(capacity), [], [])
  {}

  lemma RunInOrder(actions: seq<Action>, capacity: nat, sinkBuffer: nat)
    requires sinkBuffer > 0 && Run(Initial(capacity), actions, sinkBuffer).Some?
    ensures InOrder(Run(Initial(capacity), actions, sinkBuffer).value, Submitted(0, actions),
                    Taken(Initial(capacity), actions, sinkBuffer))
  {
    hide Run, Taken, InOrder, Inv, Submitted, Tallied, Balanced;
    InitialInv(capacity, sinkBuffer);
    InitialInOrder(capacity);
    RunKeepsOrder(Initial(capacity), actions, [], [], sinkBuffer);
    var all, taken := Submitted(0, actions), Taken(Initial(capacity), actions, sinkBuffer);
    assert [] + all == all && [] + taken == taken;
  }

  // Whatever is cancelled, discarded or asked back, the buffers the thread
  // takes, and after them those in the queue, are in the order they were
  // written, each with the length and timestamp it was written with; and the
  // buffers recorded as played, with the one in hand, are those taken.
  lemma PlayedInOrder(actions: seq<Action>, capacity: nat, sinkBuffer: nat)
    requires sinkBuffer > 0 && Run(Initial(capacity), actions, sinkBuffer).Some?
    ensures var s := Run(Initial(capacity), actions, sinkBuffer).value;
            var taken := Taken(Initial(capacity), actions, sinkBuffer);
      && Increasing(taken + s.queue)
      && Among(taken + s.queue, Submitted(0, actions))
      && Played(s.plays) + InHand(s.th) == Sized(taken)
  {
    RunInOrder(actions, capacity, sinkBuffer);
    hide Run, Taken, Increasing, Among, Played, InHand, Sized, Submitted;
  }

  // Answers reach the peer in the order they were queued.
  function Delivers(s: State, a: Action): seq<Id>
  {
    if a.Respond? && s.responses != [] then [s.responses[0]] else []
  }

  function Delivered(s: State, actions: seq<Action>, sinkBuffer: nat): seq<Id>
    requires Run(s, actions, sinkBuffer).Some?
    decreases |actions|
  {
    if actions == [] then []
    else Delivers(s, actions[0]) + Delivered(Step(s, actions[0], sinkBuffer).value, actions[1..], sinkBuffer)
  }

  // The thread's answers go behind those that are waiting.
  lemma ThreadQueuesAnswers(s: State, written: nat, sinkBuffer: nat)
    requires ThreadStep(s, written, sinkBuffer).Some?
    ensures s.responses <= ThreadStep(s, written, sinkBuffer).value.responses
  {
    hide Bytes;
    match s.th.pc
    case AtOutput => OutputQueuesAnswers(s, written, sinkBuffer); hide OutputStep;
    case _ =>
  }

  lemma OutputQueuesAnswers(s: State, written: nat, sinkBuffer: nat)
    requires s.th.len <= s.th.total && written <= ToWrite(s, sinkBuffer)
    ensures s.responses <= OutputStep(s, written, sinkBuffer).responses
  {
    hide Bytes;
  }

  lemma StepQueuesAnswers(s: State, a: Action, sinkBuffer: nat)
    requires Step(s, a, sinkBuffer).Some? && !a.Respond?
    ensures s.responses <= Step(s, a, sinkBuffer).value.responses
  {
    if a.Play_? { ThreadQueuesAnswers(s, a.written, sinkBuffer); }
    hide ThreadStep, Discarded, Kept, Ids, Sum, GrowFor, Find;
  }

  lemma RespondDelivers(s: State, sinkBuffer: nat)
    ensures var t := Step(s, Respond, sinkBuffer).value;
      t.completed == s.completed + Delivers(s, Respond) && Delivers(s, Respond) + t.responses == s.responses
  {}

  lemma AnyStepQueuesAnswers(s: State, a: Action, sinkBuffer: nat)
    requires Step(s, a, sinkBuffer).Some?
    ensures s.responses <= Delivers(s, a) + Step(s, a, sinkBuffer).value.responses
  {
    if a.Respond? {
      RespondDelivers(s, sinkBuffer);
    } else {
      StepQueuesAnswers(s, a, sinkBuffer);
    }
    hide Step;
  }

  lemma {:induction false} DeliveredInOrder(s: State, actions: seq<Action>, sinkBuffer: nat)
    requires Run(s, actions, sinkBuffer).Some?
    ensures s.responses <= Delivered(s, actions, sinkBuffer) + Run(s, actions, sinkBuffer).value.responses
    decreases |actions|
  {
    hide Step, Delivers;
    if actions != [] {
      var t := Step(s, actions[0], sinkBuffer).value;
      AnyStepQueuesAnswers(s, actions[0], sinkBuffer);
      DeliveredInOrder(t, actions[1..], sinkBuffer);
      PrefixThrough(s.responses, Delivers(s, actions[0]), t.responses, Delivered(t, actions[1..], sinkBuffer),
                    Run(s, actions, sinkBuffer).value.responses);
    }
  }

  lemma PrefixThrough(a: seq<Id>, b: seq<Id>, c: seq<Id>, d: seq<Id>, e: seq<Id>)
    requires a <= b + c && c <= d + e
    ensures a <= (b + d) + e
  {
    assert (b + d) + e == b + (d + e);
    assert b + c <= b + (d + e);
  }

  // Nothing the peer was told is taken back, or told out of order.
  lemma MioCompletes(s: State, a: Action, sinkBuffer: nat)
    requires !a.Play_?
    ensures s.completed <= Step(s, a, sinkBuffer).value.completed
  {
    hide Discarded, Kept, Ids, Sum, GrowFor, Find;
  }

  lemma ThreadCompletes(s: State, written: nat, sinkBuffer: nat)
    requires ThreadStep(s, written, sinkBuffer).Some?
    ensures s.completed == ThreadStep(s, written, sinkBuffer).value.completed
  {
    hide Bytes;
    match s.th.pc
    case AtOutput => OutputCompletes(s, written, sinkBuffer); hide OutputStep;
    case _ =>
  }

  lemma OutputCompletes(s: State, written: nat, sinkBuffer: nat)
    requires s.th.len <= s.th.total && written <= ToWrite(s, sinkBuffer)
    ensures OutputStep(s, written, sinkBuffer).completed == s.completed
  {
    hide Bytes;
  }

  lemma {:induction false} CompletedGrows(s: State, actions: seq<Action>, sinkBuffer: nat)
    requires Run(s, actions, sinkBuffer).Some?
    ensures s.completed <= Run(s, actions, sinkBuffer).value.completed
    decreases |actions|
  {
    if actions != [] {
      if actions[0].Play_? { ThreadCompletes(s, actions[0].written, sinkBuffer); }
      else { MioCompletes(s, actions[0], sinkBuffer); }
      var t := Step(s, actions[0], sinkBuffer).value;
      assert s.completed <= t.completed;
      hide Step;
      CompletedGrows(t, actions[1..], sinkBuffer);
    }
  }

  // ------------------------------------------------------------- progress

  // The buffer the thread will play from next: its id, how much of it has been
  // played and how much has not.
  function Front(s: State): (Id, nat, nat)
    requires s.th.len <= s.th.total && (s.th.len > 0 || s.queue != [])
  {
    if s.th.len > 0 then (s.th.cmdid, s.th.total - s.th.len, s.th.len) else (s.queue[0].id, 0, s.queue[0].len)
  }

  predicate ReadyToPlay(s: State)
  {
    && s.th.pc.AtClock? && Shape(s) && s.clock.Running? && !s.exit && !s.returnBuffers && !s.flushPending
    && s.dataQueued == Sum(s.queue) && (s.th.len > 0 || (s.queue != [] && s.queue[0].len > 0))
  }

  lemma ReachesOutput(s: State, sinkBuffer: nat) returns (t: State)
    requires ReadyToPlay(s)
    ensures Run(s, [Play_(0)] + [Play_(0)] + [Play_(0)] + [Play_(0)], sinkBuffer) == Some(t)
    ensures t.th.pc.AtOutput? && t.th.playing.Started? && !t.exit && t.sink == s.sink && t.th.avail == s.th.avail
    ensures t.th.len <= t.th.total && (t.th.cmdid, t.th.total - t.th.len, t.th.len) == Front(s)
  {
    hide Run;
    var p := Play_(0);
    var c := ClockStep(s);
    RunOne(s, p, sinkBuffer);
    assert Step(s, p, sinkBuffer) == Some(c);
    assert c.th.playing.Started? && c.queue == s.queue;
    t := RunThen(s, [p], p, sinkBuffer);
    t := RunThen(s, [p] + [p], p, sinkBuffer);
    t := RunThen(s, [p] + [p] + [p], p, sinkBuffer);
  }

  // While the clock runs and nothing else is asked of the thread, one turn of
  // its loop hands the sink the next bytes of that buffer, as many as fit the
  // sink's buffer, and answers it when those were its last.
  lemma NextIsPlayed(s: State, sinkBuffer: nat) returns (t: State)
    requires ReadyToPlay(s)
    ensures var (id, from, len) := Front(s); var n := if len <= Room(s, sinkBuffer) then len else Room(s, sinkBuffer);
      && Run(s, [Play_(0)] + [Play_(0)] + [Play_(0)] + [Play_(0)] + [Play_(n)], sinkBuffer) == Some(t)
      && t.sink == s.sink + Bytes(id, from, n) && t.th.len == len - n && t.th.pc.AtClock?
      && (n == len ==> t.plays != [] && t.plays[|t.plays| - 1] == Play(id, from + len, from + len, true))
  {
    var u := ReachesOutput(s, sinkBuffer);
    var (id, from, len) := Front(s);
    var n := if len <= Room(s, sinkBuffer) then len else Room(s, sinkBuffer);
    hide Run, Bytes, Front, ReadyToPlay, OutputStep;
    OutputGives(u, sinkBuffer);
    t := RunThen(s, [Play_(0)] + [Play_(0)] + [Play_(0)] + [Play_(0)], Play_(n), sinkBuffer);
  }

  lemma OutputGives(u: State, sinkBuffer: nat)
    requires u.th.pc.AtOutput? && u.th.playing.Started? && !u.exit && 0 < u.th.len <= u.th.total
    ensures var n := ToWrite(u, sinkBuffer); var t := OutputStep(u, n, sinkBuffer);
      && t.sink == u.sink + Bytes(u.th.cmdid, u.th.total - u.th.len, n) && t.th.len == u.th.len - n && t.th.pc.AtClock?
      && (n == u.th.len ==> t.plays == u.plays + [Play(u.th.cmdid, u.th.total, u.th.total, true)])
  {
    hide Bytes;
    AnswerFrame(Written(u, ToWrite(u, sinkBuffer), sinkBuffer), true);
    hide Answer;
  }

  // The thread's clock test finds the clock running.
  predicate Ticks(s: State, a: Action)
  {
    a.Play_? && s.th.pc.AtClock? && s.clock.Running?
  }

  predicate NeverTicks(s: State, actions: seq<Action>, sinkBuffer: nat)
    requires Run(s, actions, sinkBuffer).Some?
    decreases |actions|
  {
    actions == [] ||
    (!Ticks(s, actions[0]) && NeverTicks(Step(s, actions[0], sinkBuffer).value, actions[1..], sinkBuffer))
  }

  // The sink stands still, or the clock will be tested before it is written to.
  predicate Still(s: State)
  {
    !s.th.playing.Started? || s.th.pc.AtClock?
  }

  lemma StillOutput(s: State, written: nat, sinkBuffer: nat)
    requires s.th.len <= s.th.total && written <= ToWrite(s, sinkBuffer) && Still(s) && s.th.pc.AtOutput?
    ensures OutputStep(s, written, sinkBuffer) == At(s, AtClock)
  {
    hide Answer, Bytes;
  }

  lemma ThreadStill(s: State, written: nat, sinkBuffer: nat)
    requires Still(s) && !Ticks(s, Play_(written)) && ThreadStep(s, written, sinkBuffer).Some?
    ensures var t := ThreadStep(s, written, sinkBuffer).value; Still(t) && t.sink == s.sink
  {
    match s.th.pc
    case AtOutput => StillOutput(s, written, sinkBuffer); hide OutputStep;
    case AtReturn => AnswerFrame(s, false); hide Answer;
    case AtExit => AnswerFrame(s, false); hide Answer;
    case _ =>
  }

  lemma MioStill(s: State, a: Action, sinkBuffer: nat)
    requires !a.Play_?
    ensures var t := Step(s, a, sinkBuffer).value; t.th == s.th && t.sink == s.sink
  {}

  // Nothing is played unless the thread finds the clock running.
  lemma {:induction false} SilentUnlessTicking(s: State, actions: seq<Action>, sinkBuffer: nat)
    requires Still(s) && Run(s, actions, sinkBuffer).Some? && NeverTicks(s, actions, sinkBuffer)
    ensures Run(s, actions, sinkBuffer).value.sink == s.sink
    decreases |actions|
  {
    if actions != [] {
      if actions[0].Play_? { ThreadStill(s, actions[0].written, sinkBuffer); }
      else { MioStill(s, actions[0], sinkBuffer); }
      var t := Step(s, actions[0], sinkBuffer).value;
      assert Still(t) && t.sink == s.sink;
      hide Step, Still, Ticks;
      SilentUnlessTicking(t, actions[1..], sinkBuffer);
    }
  }

  // Data discarded while the sink stood still: once the clock runs the buffer
  // in hand is given up, answered, and the sink's buffer begun afresh.
  lemma FlushGivesUp(s: State, written: nat, sinkBuffer: nat)
    requires s.th.pc.AtClock? && Shape(s) && s.clock.Running? && !s.th.playing.Started? && s.flushPending
    ensures ThreadStep(s, written, sinkBuffer).Some?
    ensures var t := ThreadStep(s, written, sinkBuffer).value;
      && !t.flushPending && t.th.len == 0 && t.th.avail == 0 && t.sinceFlush == 0 && t.sink == s.sink
      && t.plays == s.plays + (if s.th.len == 0 then []
                               else [Play(s.th.cmdid, s.th.total, s.th.total - s.th.len, false)])
      && |t.responses| + |t.overflowed| == |s.responses| + |s.overflowed| + |InHand(s.th)|
  {
    hide Bytes;
  }

  // A discard asks for that, and nothing else takes the request back.
  lemma FlushWaits(s: State, a: Action, sinkBuffer: nat)
    requires Step(s, a, sinkBuffer).Some? && (s.flushPending || a.Discard?)
    ensures Step(s, a, sinkBuffer).value.flushPending <==>
            !(a.Play_? && s.th.pc.AtClock? && s.clock.Running? && !s.th.playing.Started?)
  {
    if a.Play_? { ThreadFlush(s, a.written, sinkBuffer); }
    hide ThreadStep, Discarded, Kept, Ids, Sum, GrowFor, Find;
  }

  lemma ThreadFlush(s: State, written: nat, sinkBuffer: nat)
    requires ThreadStep(s, written, sinkBuffer).Some? && s.flushPending
    ensures ThreadStep(s, written, sinkBuffer).value.flushPending <==>
            !(s.th.pc.AtClock? && s.clock.Running? && !s.th.playing.Started?)
  {
    hide Bytes;
    match s.th.pc
    case AtOutput => OutputFlush(s, written, sinkBuffer); hide OutputStep;
    case _ =>
  }

  lemma OutputFlush(s: State, written: nat, sinkBuffer: nat)
    requires s.th.len <= s.th.total && written <= ToWrite(s, sinkBuffer)
    ensures OutputStep(s, written, sinkBuffer).flushPending == s.flushPending
  {
    hide Bytes;
  }

  // The least doubling of a capacity that has room.
  function Doubled(capacity: nat, need: nat): nat
    requires capacity > 0
    decreases need - capacity
  {
    if need <= capacity then capacity else Doubled(2 * capacity, need)
  }

  lemma {:induction false} GrowDoubles(capacity: nat, size: nat, more: nat)
    requires 0 < capacity && size <= capacity
    ensures GrowFor(capacity, size, more) == Doubled(capacity, size + more)
    decreases more
  {
    if more > 0 {
      GrowDoubles(Grow(capacity, size), size + 1, more - 1);
      assert size + 1 + (more - 1) == size + more;
    }
  }

  // The response queue never outgrows its vector.
  lemma GrowMakesRoom(capacity: nat, size: nat, more: nat)
    requires size <= capacity
    ensures size + more <= GrowFor(capacity, size, more)
    decreases more
  {
    if more > 0 { GrowMakesRoom(Grow(capacity, size), size + 1, more - 1); }
  }

  lemma ThreadFits(s: State, written: nat, sinkBuffer: nat)
    requires ThreadStep(s, written, sinkBuffer).Some? && |s.responses| <= s.capacity
    ensures var t := ThreadStep(s, written, sinkBuffer).value; |t.responses| <= t.capacity
  {
    hide Bytes;
    match s.th.pc
    case AtOutput => OutputFits(s, written, sinkBuffer); hide OutputStep;
    case _ =>
  }

  lemma OutputFits(s: State, written: nat, sinkBuffer: nat)
    requires s.th.len <= s.th.total && written <= ToWrite(s, sinkBuffer) && |s.responses| <= s.capacity
    ensures var t := OutputStep(s, written, sinkBuffer); |t.responses| <= t.capacity
  {
    hide Bytes;
  }

  lemma StepFits(s: State, a: Action, sinkBuffer: nat)
    requires Step(s, a, sinkBuffer).Some? && |s.responses| <= s.capacity
    ensures var t := Step(s, a, sinkBuffer).value; |t.responses| <= t.capacity
  {
    if a.Play_? { ThreadFits(s, a.written, sinkBuffer); }
    if a.Discard? { GrowMakesRoom(s.capacity, |s.responses|, |Discarded(s.queue, a.before)|); }
    hide ThreadStep, Discarded, Kept, Ids, Sum, GrowFor, Find;
  }

  lemma {:induction false} AlwaysFits(s: State, actions: seq<Action>, sinkBuffer: nat)
    requires Run(s, actions, sinkBuffer).Some? && |s.responses| <= s.capacity
    ensures var t := Run(s, actions, sinkBuffer).value; |t.responses| <= t.capacity
    decreases |actions|
  {
    if actions != [] {
      StepFits(s, actions[0], sinkBuffer);
      hide Step;
      AlwaysFits(Step(s, actions[0], sinkBuffer).value, actions[1..], sinkBuffer);
    }
  }

  // ------------------------------------------------------ asking back buffers

  // What the audio thread does once buffers are asked back, up to the step that
  // hands them over.  The media I/O thread waits for that, so the queue stays
  // empty; written holds what the sink takes.
  function UntilReturned(s: State, written: seq<nat>, sinkBuffer: nat): Option<State>
    decreases |written|
  {
    if !s.returnBuffers then Some(s)
    else if written == [] then None
    else
      var t := ThreadStep(s, written[0], sinkBuffer);
      if t.None? then None else UntilReturned(t.value, written[1..], sinkBuffer)
  }

  // The thread has nothing in hand and will look at the queue before it tests
  // for the return.
  predicate WillLook(th: Thread)
  {
    th.len == 0 && (th.pc.AtClock? || th.pc.AtQueue? || th.pc == AtEos(true) || th.pc.AtExit? || th.pc.AtOutput?)
  }

  // The thread is at the return test, or will be there with what it has.
  predicate WillHandOver(th: Thread)
  {
    th.pc.AtReturn? || th.pc == AtEos(false) || (th.pc.AtQueue? && th.len > 0)
  }

  lemma LookStep(s: State, written: nat, sinkBuffer: nat)
    requires s.returnBuffers && !s.exit && s.queue == [] && ThreadStep(s, written, sinkBuffer).Some? && WillLook(s.th)
    ensures var t := ThreadStep(s, written, sinkBuffer).value;
      && t.returnBuffers && !t.exit && t.queue == [] && t.th.cmdid == s.th.cmdid
      && (if s.th.pc == AtEos(true) then WillHandOver(t.th) && t.resent == s.resent + [s.th.cmdid]
          else WillLook(t.th) && t.resent == s.resent)
  {}

  lemma HandOverStep(s: State, written: nat, sinkBuffer: nat)
    requires s.returnBuffers && !s.exit && s.queue == []
    requires ThreadStep(s, written, sinkBuffer).Some? && WillHandOver(s.th)
    ensures var t := ThreadStep(s, written, sinkBuffer).value;
      && !t.exit && t.queue == [] && t.resent == s.resent && (t.returnBuffers ==> WillHandOver(t.th))
  {}

  lemma {:induction false} HandsOver(s: State, written: seq<nat>, sinkBuffer: nat)
    requires !s.exit && s.queue == [] && (s.returnBuffers ==> WillHandOver(s.th))
    requires UntilReturned(s, written, sinkBuffer).Some?
    ensures UntilReturned(s, written, sinkBuffer).value.resent == s.resent
    decreases |written|
  {
    if s.returnBuffers {
      HandOverStep(s, written[0], sinkBuffer);
      hide ThreadStep;
      HandsOver(ThreadStep(s, written[0], sinkBuffer).value, written[1..], sinkBuffer);
    }
  }

  // Asking buffers back from a thread with nothing in hand, not yet at the
  // return test, always makes it answer its last command once more.
  lemma {:induction false} LooksAndRepeats(s: State, written: seq<nat>, sinkBuffer: nat)
    requires s.returnBuffers && !s.exit && s.queue == [] && WillLook(s.th)
    requires UntilReturned(s, written, sinkBuffer).Some?
    ensures UntilReturned(s, written, sinkBuffer).value.resent == s.resent + [s.th.cmdid]
    decreases |written|
  {
    LookStep(s, written[0], sinkBuffer);
    hide ThreadStep;
    var t := ThreadStep(s, written[0], sinkBuffer).value;
    if s.th.pc == AtEos(true) {
      HandsOver(t, written[1..], sinkBuffer);
    } else {
      LooksAndRepeats(t, written[1..], sinkBuffer);
    }
  }

  // A thread with a buffer in hand that is not yet at its queue may still lose
  // it, finished or flushed, on the way there; that decides.
  lemma {:induction false} ReturnRepeats(s: State, written: seq<nat>, sinkBuffer: nat)
    requires s.returnBuffers && !s.exit && s.queue == [] && Shape(s)
    requires UntilReturned(s, written, sinkBuffer).Some?
    ensures UntilReturned(s, written, sinkBuffer).value.resent
         == s.resent + if ComesEmpty(s, written, sinkBuffer) then [s.th.cmdid] else []
    decreases |written|
  {
    if WillLook(s.th) {
      LooksAndRepeats(s, written, sinkBuffer);
    } else if WillHandOver(s.th) {
      HandsOver(s, written, sinkBuffer);
    } else {
      BusyStep(s, written[0], sinkBuffer);
      hide ThreadStep, Shape;
      ReturnRepeats(ThreadStep(s, written[0], sinkBuffer).value, written[1..], sinkBuffer);
    }
  }

  // Once it has handed over, the thread holds nothing: what it held was answered.
  lemma {:induction false} HandsOverAll(s: State, written: seq<nat>, sinkBuffer: nat)
    requires s.returnBuffers && UntilReturned(s, written, sinkBuffer).Some?
    ensures var t := UntilReturned(s, written, sinkBuffer).value;
      t.th.len == 0 && t.th.pc.AtExit? && !t.returnBuffers
    decreases |written|
  {
    OnlyReturnClears(s, written[0], sinkBuffer);
    hide ThreadStep;
    var t := ThreadStep(s, written[0], sinkBuffer).value;
    if t.returnBuffers { HandsOverAll(t, written[1..], sinkBuffer); }
  }

  lemma OnlyReturnClears(s: State, written: nat, sinkBuffer: nat)
    requires s.returnBuffers && ThreadStep(s, written, sinkBuffer).Some?
    ensures var t := ThreadStep(s, written, sinkBuffer).value;
      !t.returnBuffers <==> s.th.pc.AtReturn?
    ensures var t := ThreadStep(s, written, sinkBuffer).value;
      s.th.pc.AtReturn? ==> t.th.len == 0 && t.th.pc.AtExit?
  {
    hide Bytes;
    match s.th.pc
    case AtOutput => AnswerFrame(s, true); hide Answer;
    case _ =>
  }

  // The thread comes to its queue with nothing in hand before the return test.
  predicate ComesEmpty(s: State, written: seq<nat>, sinkBuffer: nat)
    decreases |written|
  {
    if WillLook(s.th) then true
    else if WillHandOver(s.th) || written == [] then false
    else
      var t := ThreadStep(s, written[0], sinkBuffer);
      t.Some? && ComesEmpty(t.value, written[1..], sinkBuffer)
  }

  lemma BusyStep(s: State, written: nat, sinkBuffer: nat)
    requires s.returnBuffers && !s.exit && s.queue == [] && Shape(s)
    requires ThreadStep(s, written, sinkBuffer).Some? && !WillLook(s.th) && !WillHandOver(s.th)
    ensures var t := ThreadStep(s, written, sinkBuffer).value;
      t.returnBuffers && !t.exit && t.queue == [] && Shape(t) && t.resent == s.resent && t.th.cmdid == s.th.cmdid
  {
    hide Bytes;
  }

  // ------------------------------------------------------ dropped responses

  // How many commands the peer is waiting for, counting answers out of turn.
  function Outstanding(s: State): int
  {
    s.nextId + |s.resent| - |s.completed|
  }

  // The steps of the thread that answer: a flush or a return with a buffer in
  // hand, an end of stream, an exit with a buffer in hand, and a buffer played
  // to its end.
  predicate Answers(s: State, written: nat)
  {
    match s.th.pc
    case AtClock => s.clock.Running? && !s.th.playing.Started? && s.flushPending && s.th.len > 0
    case AtEos(empty) => !s.exit && (!empty || s.returnBuffers)
    case AtReturn => s.returnBuffers && s.th.len > 0
    case AtExit => s.exit && s.th.len > 0
    case AtOutput => s.th.len > 0 && s.th.playing.Started? && !s.exit && written == s.th.len
    case _ => false
  }

  predicate Drops(s: State, a: Action)
  {
    a.Play_? && Answers(s, a.written) && |s.responses| >= s.capacity
  }

  // Just those steps drop a response, when the response queue is full.
  lemma ThreadDrops(s: State, written: nat, sinkBuffer: nat)
    requires ThreadStep(s, written, sinkBuffer).Some?
    ensures ThreadStep(s, written, sinkBuffer).value.overflowed
         == s.overflowed + (if Drops(s, Play_(written)) then [s.th.cmdid] else [])
  {
    hide Bytes;
    match s.th.pc
    case AtOutput => WriteDrops(s, written, sinkBuffer); hide OutputStep;
    case _ =>
  }

  lemma WriteDrops(s: State, written: nat, sinkBuffer: nat)
    requires s.th.len <= s.th.total && written <= ToWrite(s, sinkBuffer) && s.th.pc.AtOutput?
    ensures OutputStep(s, written, sinkBuffer).overflowed
         == s.overflowed + (if Drops(s, Play_(written)) then [s.th.cmdid] else [])
  {
    hide Bytes;
  }

  // A response is dropped only when more commands are outstanding than the
  // response queue has room for, or out of turn.
  lemma OverflowNeedsCrowd(s: State, written: nat, sinkBuffer: nat)
    requires sinkBuffer > 0 && Tallied(s, sinkBuffer) && ThreadStep(s, written, sinkBuffer).Some?
    ensures var s' := ThreadStep(s, written, sinkBuffer).value;
      s'.overflowed != s.overflowed ==> Outstanding(s) > s.capacity || s'.resent != s.resent
  {
    ThreadDrops(s, written, sinkBuffer);
    ThreadRepeats(s, written, sinkBuffer);
    hide ThreadStep, SinkOk, Aligned, Sum;
  }

  lemma StepDrops(s: State, a: Action, sinkBuffer: nat)
    requires Step(s, a, sinkBuffer).Some?
    ensures Step(s, a, sinkBuffer).value.overflowed == s.overflowed + (if Drops(s, a) then [s.th.cmdid] else [])
  {
    if a.Play_? { ThreadDrops(s, a.written, sinkBuffer); } else { MioKeepsOverflowed(s, a, sinkBuffer); }
    hide ThreadStep, Answers;
  }

  lemma MioKeepsOverflowed(s: State, a: Action, sinkBuffer: nat)
    requires !a.Play_?
    ensures Step(s, a, sinkBuffer).value.overflowed == s.overflowed
  {}

  predicate NoDrop(s: State, actions: seq<Action>, sinkBuffer: nat)
    requires Run(s, actions, sinkBuffer).Some?
    decreases |actions|
  {
    actions == [] || (!Drops(s, actions[0]) && NoDrop(Step(s, actions[0], sinkBuffer).value, actions[1..], sinkBuffer))
  }

  lemma {:induction false} DropsExactly(s: State, actions: seq<Action>, sinkBuffer: nat)
    requires Run(s, actions, sinkBuffer).Some?
    ensures |Run(s, actions, sinkBuffer).value.overflowed| >= |s.overflowed|
    ensures |Run(s, actions, sinkBuffer).value.overflowed| == |s.overflowed| <==> NoDrop(s, actions, sinkBuffer)
    decreases |actions|
  {
    if actions != [] {
      StepDrops(s, actions[0], sinkBuffer);
      hide Step, Drops;
      DropsExactly(Step(s, actions[0], sinkBuffer).value, actions[1..], sinkBuffer);
    }
  }

  // Over runs: no response is dropped exactly if no answering step finds the
  // response queue full.
  lemma NothingDroppedExactly(actions: seq<Action>, capacity: nat, sinkBuffer: nat)
    requires Run(Initial(capacity), actions, sinkBuffer).Some?
    ensures Run(Initial(capacity), actions, sinkBuffer).value.overflowed == []
            <==> NoDrop(Initial(capacity), actions, sinkBuffer)
  {
    DropsExactly(Initial(capacity), actions, sinkBuffer);
    hide Run, NoDrop;
  }

  // At no step are more commands outstanding than there is room for.
  predicate Uncrowded(s: State, actions: seq<Action>, sinkBuffer: nat)
    requires Run(s, actions, sinkBuffer).Some?
    decreases |actions|
  {
    actions == [] ||
    (Outstanding(s) <= s.capacity && Uncrowded(Step(s, actions[0], sinkBuffer).value, actions[1..], sinkBuffer))
  }

  lemma {:induction false} NothingDropped(s: State, actions: seq<Action>, sinkBuffer: nat)
    requires sinkBuffer > 0 && Inv(s, sinkBuffer) && Run(s, actions, sinkBuffer).Some?
    requires Quiet(s, actions, sinkBuffer) && Uncrowded(s, actions, sinkBuffer)
    ensures Run(s, actions, sinkBuffer).value.overflowed == s.overflowed
    decreases |actions|
  {
    if actions != [] {
      var a := actions[0];
      StepKeepsInv(s, a, sinkBuffer);
      RepeatsExactly(s, a, sinkBuffer);
      if a.Play_? { OverflowNeedsCrowd(s, a.written, sinkBuffer); } else { MioKeepsOverflowed(s, a, sinkBuffer); }
      assert Step(s, a, sinkBuffer).value.overflowed == s.overflowed;
      hide Step, Inv, Repeats, Outstanding;
      NothingDropped(Step(s, a, sinkBuffer).value, actions[1..], sinkBuffer);
    }
  }

  // So a peer that keeps within the response queue's room loses nothing, as
  // long as nothing is answered out of turn.
  lemma NothingLost(actions: seq<Action>, capacity: nat, sinkBuffer: nat, x: Id)
    requires sinkBuffer > 0 && Run(Initial(capacity), actions, sinkBuffer).Some?
    requires Quiet(Initial(capacity), actions, sinkBuffer) && Uncrowded(Initial(capacity), actions, sinkBuffer)
    requires var s := Run(Initial(capacity), actions, sinkBuffer).value; x < s.nextId && !s.exit
    ensures var s := Run(Initial(capacity), actions, sinkBuffer).value;
      x in Ids(s.queue) || (Holds(s.th) && s.th.cmdid == x) || x in s.responses || x in s.completed
  {
    InitialInv(capacity, sinkBuffer);
    NothingDropped(Initial(capacity), actions, sinkBuffer);
    NeverLost(actions, capacity, sinkBuffer, x);
  }

  lemma {:induction false} RunAppend(s: State, a: seq<Action>, b: seq<Action>, sinkBuffer: nat)
    requires Run(s, a, sinkBuffer).Some?
    ensures Run(s, a + b, sinkBuffer) == Run(Run(s, a, sinkBuffer).value, b, sinkBuffer)
    decreases |a|
  {
    hide Step;
    if a == [] {
      assert a + b == b;
    } else {
      assert (a + b)[1..] == a[1..] + b;
      RunAppend(Step(s, a[0], sinkBuffer).value, a[1..], b, sinkBuffer);
    }
  }

  lemma RunOne(s: State, a: Action, sinkBuffer: nat)
    ensures Run(s, [a], sinkBuffer) == Step(s, a, sinkBuffer)
  {
    hide Step;
    assert [a][1..] == [];
  }

  // Adds one step at the end of a known run.
  lemma RunThen(s: State, actions: seq<Action>, a: Action, sinkBuffer: nat) returns (t: State)
    requires Run(s, actions, sinkBuffer).Some?
    requires Step(Run(s, actions, sinkBuffer).value, a, sinkBuffer).Some?
    ensures Step(Run(s, actions, sinkBuffer).value, a, sinkBuffer) == Some(t)
    ensures Run(s, actions + [a], sinkBuffer) == Some(t)
  {
    hide Step, Run;
    RunAppend(s, actions, [a], sinkBuffer);
    RunOne(Run(s, actions, sinkBuffer).value, a, sinkBuffer);
    t := Step(Run(s, actions, sinkBuffer).value, a, sinkBuffer).value;
  }

  // One end of stream, answered, and the thread back at its queue.
  lemma EosServed(sinkBuffer: nat) returns (actions: seq<Action>)
    requires sinkBuffer > 0
    ensures Run(Initial(5), actions, sinkBuffer) ==
            Some(Initial(5).(nextId := 1, responses := [0], th := Thread(AtQueue, 0, 0, 0, 0, Paused)))
  {
    hide Run;
    var p, s := Play_(0), Initial(5);
    RunOne(s, Write(0, 0), sinkBuffer);
    var t := RunThen(s, [Write(0, 0)], p, sinkBuffer);
    actions := [Write(0, 0)] + [p];
    t := RunThen(s, actions, p, sinkBuffer);
    actions := actions + [p];
    t := RunThen(s, actions, p, sinkBuffer);
    actions := actions + [p];
    t := RunThen(s, actions, p, sinkBuffer);
    actions := actions + [p];
    t := RunThen(s, actions, p, sinkBuffer);
    actions := actions + [p];
    t := RunThen(s, actions, p, sinkBuffer);
    actions := actions + [p];
    t := RunThen(s, actions, p, sinkBuffer);
    actions := actions + [p];
    assert t.queue == [] && t.responses == [0];
    assert t == Initial(5).(nextId := 1, responses := [0], th := Thread(AtQueue, 0, 0, 0, 0, Paused));
  }

  // So a command can be answered twice.
  lemma AnsweredTwice(sinkBuffer: nat)
    requires sinkBuffer > 0
    ensures exists actions :: Run(Initial(5), actions, sinkBuffer).Some?
                              && Run(Initial(5), actions, sinkBuffer).value.responses == [0, 0]
  {
    hide Run;
    var actions := EosServed(sinkBuffer);
    var t := RunThen(Initial(5), actions, ReturnAll, sinkBuffer);
    t := RunThen(Initial(5), actions + [ReturnAll], Play_(0), sinkBuffer);
    t := RunThen(Initial(5), actions + [ReturnAll] + [Play_(0)], Play_(0), sinkBuffer);
    assert t.responses == [0, 0];
  }

  // And an id that was never accepted can be answered: buffers asked back
  // before the first write make the thread answer the 0 it started with.
  lemma AnsweredUnasked(sinkBuffer: nat)
    requires sinkBuffer > 0
    ensures exists actions :: Run(Initial(5), actions, sinkBuffer).Some?
                              && Run(Initial(5), actions, sinkBuffer).value.nextId == 0
                              && Run(Initial(5), actions, sinkBuffer).value.responses == [0]
  {
    hide Run;
    var p, s := Play_(0), Initial(5);
    RunOne(s, ReturnAll, sinkBuffer);
    var t := RunThen(s, [ReturnAll], p, sinkBuffer);
    t := RunThen(s, [ReturnAll] + [p], p, sinkBuffer);
    t := RunThen(s, [ReturnAll] + [p] + [p], p, sinkBuffer);
    assert t.nextId == 0 && t.responses == [0];
  }

  // ----------------------------------------------------------------- class

  lemma {:induction false} GrowMore(capacity: nat, size: nat, more: nat)
    ensures GrowFor(capacity, size, more + 1) == Grow(GrowFor(capacity, size, more), size + more)
    decreases more
  {
    if more > 0 {
      GrowMore(Grow(capacity, size), size + 1, more - 1);
      assert more + 1 - 1 == more && size + 1 + (more - 1) == size + more;
    }
  }

  lemma GrowNone(capacity: nat, size: nat)
    ensures GrowFor(capacity, size, 0) == capacity
  {
  }

  lemma FoundAt(q: seq<Req>, id: Id, i: nat)
    requires i <= |q| && (i < |q| ==> q[i].id == id) && forall j :: 0 <= j < i ==> q[j].id != id
    ensures Find(Ids(q), id) == i
  {
    IdsAt(q);
    FindIs(Ids(q), id, i);
  }

  lemma Erase(q: seq<Req>, i: nat, kept: seq<Req>)
    requires i < |q|
    ensures var all := q[..i + 1] + kept;
      all[i] == q[i] && all == (q[..i] + [q[i]]) + kept && all == q[..i] + ([q[i]] + kept)
      && all[..i] + all[i + 1..] == q[..i] + kept
  {
  }

  // One turn of the discarding loop, from position i + 1 of the queue to i.
  lemma DiscardTurn(q: seq<Req>, i: nat, before: nat)
    requires i < |q|
    ensures Sum(q[i..]) == q[i].len + Sum(q[i + 1..])
    ensures var discard := q[i].timestamp < before;
      && Kept(q[i..], before) == (if discard then [] else [q[i]]) + Kept(q[i + 1..], before)
      && Discarded(q[i..], before) == Discarded(q[i + 1..], before) + (if discard then [q[i].id] else [])
      && Sum(Kept(q[i..], before)) == (if discard then 0 else q[i].len) + Sum(Kept(q[i + 1..], before))
  {
    assert q[i..][1..] == q[i + 1..] && q[i..][0] == q[i];
    if q[i].timestamp >= before {
      assert ([q[i]] + Kept(q[i + 1..], before))[1..] == Kept(q[i + 1..], before);
    }
  }

  // The queues as the code holds and updates them.
  class AndroidAudioOutput {
    var queue: seq<Req>
    var dataQueued: int
    var responses: seq<Id>
    var capacity: nat
    var nextId: Id
    var exit: bool
    var returnBuffers: bool
    var flushPending: bool
    var clock: Clock
    var th: Thread
    ghost var completed: seq<Id>
    ghost var resent: seq<Id>
    ghost var overflowed: seq<Id>
    ghost var unanswered: seq<Id>
    ghost var plays: seq<Play>
    ghost var sink: seq<(Id, nat)>
    ghost var sinceFlush: nat

    ghost function View(): State
      reads this
    {
      State(queue, dataQueued, responses, capacity, nextId, exit, returnBuffers, flushPending, clock, th,
            completed, resent, overflowed, unanswered, plays, sink, sinceFlush)
    }

    constructor (room: nat)
      ensures View() == Initial(room)
    {
      queue, dataQueued, responses, capacity, nextId := [], 0, [], room, 0;
      exit, returnBuffers, flushPending, clock, th := false, false, false, ClockStopped, NEW_THREAD;
      completed, resent, overflowed, unanswered, plays, sink, sinceFlush := [], [], [], [], [], [], 0;
    }

    method WriteAudioBuffer(dataLen: nat, timestamp: nat) returns (cmdId: Id)
      modifies this
      ensures cmdId == old(nextId)
      ensures Some(View()) == Step(old(View()), Write(dataLen, timestamp), 1)
      ensures queue == old(queue) + [Req(dataLen, cmdId, timestamp)]
    {
      cmdId := nextId;
      nextId := nextId + 1;
      queue := queue + [Req(dataLen, cmdId, timestamp)];
      dataQueued := dataQueued + dataLen;
    }

    method CancelCommand(id: Id)
      modifies this
      ensures Some(View()) == Step(old(View()), Cancel(id), 1)
    {
      hide Ids, Find;
      var i := 0;
      while i < |queue|
        invariant 0 <= i <= |queue| && View() == old(View())
        invariant forall j :: 0 <= j < i ==> queue[j].id != id
      {
        if queue[i].id == id {
          FoundAt(queue, id, i);
          dataQueued := dataQueued - queue[i].len;
          completed := completed + [id];
          queue := queue[..i] + queue[i + 1..];
          return;
        }
        i := i + 1;
      }
      FoundAt(queue, id, i);
    }

    method ReturnAllBuffers()
      modifies this
      ensures Some(View()) == Step(old(View()), ReturnAll, 1)
    {
      CompleteQueue();
      returnBuffers := true;
    }

    method CompleteQueue()
      modifies this`queue, this`dataQueued, this`completed
      ensures queue == [] && dataQueued == old(dataQueued) - Sum(old(queue))
      ensures completed == old(completed) + Ids(old(queue))
    {
      while |queue| > 0
        invariant dataQueued - Sum(queue) == old(dataQueued) - Sum(old(queue))
        invariant completed + Ids(queue) == old(completed) + Ids(old(queue))
      {
        assert Ids(queue) == [queue[0].id] + Ids(queue[1..]);
        dataQueued := dataQueued - queue[0].len;
        completed := completed + [queue[0].id];
        queue := queue[1..];
      }
      assert completed == completed + Ids([]);
    }

    // Walks the queue from its end, as erasing shifts what follows.
    method DiscardData(before: nat)
      modifies this
      ensures Some(View()) == Step(old(View()), Discard(before), 1)
    {
      DiscardLoop(before);
      flushPending := true;
    }

    method DiscardLoop(before: nat)
      modifies this`queue, this`responses, this`capacity, this`dataQueued
      ensures queue == Kept(old(queue), before)
      ensures responses == old(responses) + Discarded(old(queue), before)
      ensures capacity == GrowFor(old(capacity), |old(responses)|, |Discarded(old(queue), before)|)
      ensures dataQueued == old(dataQueued) - (Sum(old(queue)) - Sum(Kept(old(queue), before)))
    {
      ghost var q, c, n := queue, capacity, |responses|;
      var i := |queue|;
      assert q[i..] == [] && q[..i] == q;
      assert Kept([], before) == [] && Discarded([], before) == [] && Sum([]) == 0;
      GrowNone(c, n);
      hide Kept, Discarded, Sum, Grow, GrowFor;
      while i > 0
        invariant 0 <= i <= |q| && queue == q[..i] + Kept(q[i..], before)
        invariant responses == old(responses) + Discarded(q[i..], before)
        invariant capacity == GrowFor(c, n, |Discarded(q[i..], before)|)
        invariant dataQueued == old(dataQueued) - (Sum(q[i..]) - Sum(Kept(q[i..], before)))
      {
        i := i - 1;
        DiscardTurn(q, i, before);
        Erase(q, i, Kept(q[i + 1..], before));
        GrowMore(c, n, |Discarded(q[i + 1..], before)|);
        DiscardOne(i, before);
      }
      assert q[0..] == q;
    }

    method DiscardOne(i: nat, before: nat)
      requires i < |queue|
      modifies this`queue, this`responses, this`capacity, this`dataQueued
      ensures old(queue)[i].timestamp < before ==>
        && queue == old(queue)[..i] + old(queue)[i + 1..]
        && responses == old(responses) + [old(queue)[i].id]
        && capacity == Grow(old(capacity), |old(responses)|)
        && dataQueued == old(dataQueued) - old(queue)[i].len
      ensures old(queue)[i].timestamp >= before ==>
        queue == old(queue) && responses == old(responses) && capacity == old(capacity)
        && dataQueued == old(dataQueued)
    {
      if queue[i].timestamp < before {
        dataQueued := dataQueued - queue[i].len;
        capacity := Grow(capacity, |responses|);
        responses := responses + [queue[i].id];
        queue := queue[..i] + queue[i + 1..];
      }
    }

    method ProcessWriteResponseQueue()
      modifies this
      ensures View() == old(View()).(responses := [], completed := old(completed) + old(responses))
    {
      while responses != []
        invariant View() == old(View()).(responses := responses, completed := completed)
        invariant completed + responses == old(completed) + old(responses)
        decreases |responses|
      {
        completed := completed + [responses[0]];
        responses := responses[1..];
      }
    }

    method SendResponse(id: Id)
      modifies this`responses, this`overflowed
      ensures View() == Responded(old(View()), id)
    {
      if |responses| < capacity {
        responses := responses + [id];
      } else {
        overflowed := overflowed + [id];
      }
    }

    // The audio thread, out of data, looks at the queue.
    method NextBuffer()
      requires th.pc.AtQueue?
      modifies this
      ensures View() == QueueStep(old(View()))
    {
      if th.len != 0 {
        th := th.(pc := AtReturn);
        return;
      }
      var empty := queue == [];
      if !empty {
        var front := queue[0];
        th := th.(len := front.len, total := front.len, cmdid := front.id);
        dataQueued := dataQueued - front.len;
        queue := queue[1..];
      }
      th := th.(pc := if !empty && th.len > 0 then AtReturn else AtEos(empty));
    }

    // The answer to the buffer in hand, finished or given up.
    method AnswerBuffer(finished: bool)
      requires th.len <= th.total
      modifies this`plays, this`responses, this`overflowed, this`th
      ensures View() == Answer(old(View()), finished) && th.playing == old(th.playing)
    {
      plays := plays + [Play(th.cmdid, th.total, th.total - th.len, finished)];
      SendResponse(th.cmdid);
      th := th.(len := 0, total := 0);
    }

    method Flush()
      requires th.len <= th.total
      modifies this`flushPending, this`sinceFlush, this`plays, this`responses, this`overflowed, this`th
      ensures View() == FlushStep(old(View())) && th.playing == old(th.playing)
    {
      if !flushPending { return; }
      flushPending, sinceFlush := false, 0;
      th := th.(avail := 0);
      hide Answer;
      if th.len > 0 { AnswerBuffer(false); }
    }

    // The test of the clock at the head of the loop.
    method TestClock()
      requires th.pc.AtClock? && th.len <= th.total
      modifies this`flushPending, this`sinceFlush, this`plays, this`responses, this`overflowed, this`th
      ensures View() == ClockStep(old(View()))
    {
      hide FlushStep;
      if clock.Running? {
        if !th.playing.Started? {
          Flush();
          if dataQueued != 0 || th.len > 0 { th := th.(playing := Started); }
        }
      } else {
        th := th.(playing := Paused);
      }
      th := th.(pc := AtQueue);
    }

    method TestEndOfStream()
      requires th.pc.AtEos?
      modifies this`th, this`resent, this`responses, this`overflowed, this`unanswered
      ensures View() == EosStep(old(View()))
    {
      var empty := th.pc.empty;
      th := th.(pc := AtReturn);
      if empty && !exit && !returnBuffers { return; }
      th := th.(playing := Stopped);
      if exit {
        if !empty { unanswered := unanswered + [th.cmdid]; }
        return;
      }
      if empty { resent := resent + [th.cmdid]; }
      SendResponse(th.cmdid);
    }

    method TestReturn()
      requires th.pc.AtReturn? && th.len <= th.total
      modifies this`plays, this`responses, this`overflowed, this`th, this`returnBuffers
      ensures View() == ReturnStep(old(View()))
    {
      hide Answer;
      if returnBuffers {
        if th.len > 0 { AnswerBuffer(false); }
        returnBuffers := false;
      }
      th := th.(pc := AtExit);
    }

    method TestExit()
      requires th.pc.AtExit? && th.len <= th.total
      modifies this`plays, this`responses, this`overflowed, this`th
      ensures View() == ExitStep(old(View()))
    {
      hide Answer;
      if exit {
        if th.len > 0 { AnswerBuffer(false); }
        th := th.(pc := Done);
      } else {
        th := th.(pc := AtOutput);
      }
    }

    // The sink takes `written` of the bytes it is offered.
    method WriteToSink(written: nat, sinkBuffer: nat)
      requires th.len <= th.total && written <= ToWrite(View(), sinkBuffer)
      modifies this`sink, this`sinceFlush, this`th
      ensures View() == Written(old(View()), written, sinkBuffer)
    {
      if th.avail == 0 { th := th.(avail := sinkBuffer); }
      hide Bytes;
      sink := sink + Bytes(th.cmdid, th.total - th.len, written);
      sinceFlush := sinceFlush + written;
      th := th.(len := th.len - written, avail := th.avail - written);
    }

    method Output(written: nat, sinkBuffer: nat)
      requires th.pc.AtOutput? && th.len <= th.total && written <= ToWrite(View(), sinkBuffer)
      modifies this`sink, this`sinceFlush, this`plays, this`responses, this`overflowed, this`th
      ensures View() == OutputStep(old(View()), written, sinkBuffer)
    {
      hide Answer, Bytes;
      if th.len > 0 && th.playing.Started? && !exit {
        WriteToSink(written, sinkBuffer);
        if th.len == 0 { AnswerBuffer(true); }
      }
      th := th.(pc := AtClock);
    }

    // One turn of the loop's next part.
    method LoopPart(written: nat, sinkBuffer: nat)
      requires ThreadStep(View(), written, sinkBuffer).Some?
      modifies this
      ensures Some(View()) == ThreadStep(old(View()), written, sinkBuffer)
    {
      hide ClockStep, QueueStep, EosStep, ReturnStep, ExitStep, OutputStep;
      match th.pc
      case AtClock => TestClock();
      case AtQueue => NextBuffer();
      case AtEos(_) => TestEndOfStream();
      case AtReturn => TestReturn();
      case AtExit => TestExit();
      case AtOutput => Output(written, sinkBuffer);
    }
  }
}
