// Ownership of the four capture buffers of AndroidAudioInput
// (android_audio_input.cpp): the media I/O thread and the capture threads it
// starts hand chunks of one pool round through two locked queues.  Each step
// below is what one thread does between two points where the other can
// interfere, so a run of the machine is an interleaving of the real code.
//
// `State` and `Step` are the machine and carry the theorems; the class holds
// the same queues as fields and its methods are proved to take those steps.
module AudioCapture {
  import opened Counting

  type Chunk = nat

  const POOL_CHUNKS: nat := 4
  const BUFFER_SIZE: nat := 2048

  // One captured buffer: its place in the pool, its size, and its time.
  datatype MicData = MicData(chunk: Chunk, bytes: nat, timestamp: nat, duration: nat)

  datatype Sent = Sent(id: nat, chunk: Chunk)

  // A capture thread: about to test the exit flag, past that test and about to
  // lock the request queue, reading into a chunk, without a recorder and about
  // to signal its end, or ended.
  datatype Thread = AtTop | Armed | Holding(chunk: Chunk) | Failed | Ended

  // How DoStart goes: the thread's recorder starts, it does not, or there is no
  // thread.
  datatype Start = Works | NoRecorder | NoThread

  datatype Mio = Initialized | Started | Paused | Stopped | Idle

  // The media I/O thread blocks in DoStop and DoReset until a thread ends.
  datatype Joining = NotJoining | ForStop | ForReset

  datatype State = State(
    free: seq<Chunk>,            // iMediaBufferMemPool, last freed first
    requests: seq<Chunk>,        // iOSSRequestQueue
    threads: seq<Thread>,
    responses: seq<MicData>,     // iWriteResponseQueue
    sent: seq<Sent>,             // iSentMediaData
    exit: bool,                  // iExitAudioThread
    mio: Mio,
    joining: Joining,
    threadStarted: bool,         // iAudioThreadStarted
    ended: nat,                  // count of iAudioThreadTermSem
    timeStamp: nat,              // iTimeStamp
    // history
    lost: seq<Chunk>,
    captured: seq<MicData>,
    delivered: seq<MicData>,
    dropped: seq<MicData>,
    frames: nat)

  datatype Format = Format(rate: nat, channels: nat)

  datatype Action =
    | DoStart(start: Start) | DoPause | DoStop | DoReset | Join
    | DoRead
    | SendMicData(accepted: bool, id: nat)
    | WriteComplete(success: bool, id: nat)
    | Gone(thread: nat)
    | CheckExit(thread: nat)
    | Take(thread: nat)
    | ReadFails(thread: nat)
    | ReadGives(thread: nat, bytes: nat)

  // After DoInit: a fresh pool and no thread yet.
  const INITIAL := State([0, 1, 2, 3], [], [], [], [], false, Initialized, NotJoining, false, 0, 0, [], [], [], [], 0)

  function ReturnQueues(s: State): State
  {
    s.(free := s.free + s.requests + Chunks(s.responses), requests := [],
       dropped := s.dropped + s.responses, responses := [], mio := Idle)
  }

  function SentIds(sent: seq<Sent>): (r: seq<nat>)
    ensures |r| == |sent| && forall i :: 0 <= i < |sent| ==> r[i] == sent[i].id
  {
    if sent == [] then [] else [sent[0].id] + SentIds(sent[1..])
  }

  function Frames(bytes: nat, f: Format): nat
  {
    if f.channels == 0 then 0 else bytes / 2 / f.channels
  }

  function Duration(bytes: nat, f: Format): nat
  {
    if f.rate == 0 then 0 else Frames(bytes, f) * 1000 / f.rate
  }

  // A buffer read: stamped, and on its way to the peer.
  function Captured(s: State, t: nat, bytes: nat, f: Format): State
    requires t < |s.threads| && s.threads[t].Holding?
  {
    var d := MicData(s.threads[t].chunk, bytes, s.timeStamp, Duration(bytes, f));
    s.(threads := s.threads[t := AtTop], responses := s.responses + [d], captured := s.captured + [d],
       timeStamp := s.timeStamp + d.duration, frames := s.frames + Frames(bytes, f))
  }

  // One step of one thread; None when that step cannot happen now.
  function Step(s: State, a: Action, f: Format): Option<State>
  {
    match a
    case Gone(t) =>
      if !(t < |s.threads| && s.threads[t].Failed?) then None
      else Some(s.(threads := s.threads[t := Ended], ended := s.ended + 1))
    case CheckExit(t) =>
      if !(t < |s.threads| && s.threads[t].AtTop?) then None
      else if s.exit then Some(s.(threads := s.threads[t := Ended], ended := s.ended + 1))
      else Some(s.(threads := s.threads[t := Armed]))
    case Take(t) =>
      if !(t < |s.threads| && s.threads[t].Armed?) then None
      else if s.requests == [] then Some(s.(threads := s.threads[t := AtTop]))
      else Some(s.(threads := s.threads[t := Holding(s.requests[0])], requests := s.requests[1..]))
    case ReadFails(t) =>
      if !(t < |s.threads| && s.threads[t].Holding?) then None
      else Some(s.(threads := s.threads[t := Ended], ended := s.ended + 1, lost := s.lost + [s.threads[t].chunk]))
    case ReadGives(t, bytes) =>
      if !(t < |s.threads| && s.threads[t].Holding? && 0 < bytes <= BUFFER_SIZE) then None
      else Some(Captured(s, t, bytes, f))
    case Join =>
      if s.joining.NotJoining? || s.ended == 0 then None
      else
        var done := s.(ended := s.ended - 1, threadStarted := false, joining := NotJoining);
        Some(if s.joining.ForReset? then ReturnQueues(done) else done)
    case _ =>
      if s.joining.NotJoining? then MioStep(s, a) else None
  }

  // The steps of the media I/O thread while it is not waiting for a thread.
  function MioStep(s: State, a: Action): Option<State>
  {
    match a
    case DoStart(start) =>
      if !(s.mio.Initialized? || s.mio.Paused?) then None
      else if start.Works? then Some(s.(threads := s.threads + [AtTop], threadStarted := true, mio := Started))
      else if start.NoRecorder? then Some(s.(threads := s.threads + [Failed], threadStarted := true))
      else Some(s.(threadStarted := false))
    case DoPause =>
      if !s.mio.Started? then None else Some(s.(exit := true, mio := Paused))
    case DoStop =>
      if !(s.mio.Started? || s.mio.Paused?) then None
      else Some(s.(exit := true, mio := Stopped, joining := if s.threadStarted then ForStop else NotJoining))
    case DoReset =>
      if s.threadStarted then Some(s.(exit := true, joining := ForReset))
      else Some(ReturnQueues(s.(exit := true)))
    case DoRead =>
      if !s.mio.Started? || s.free == [] then Some(s)
      else Some(s.(free := s.free[..|s.free| - 1], requests := s.requests + [s.free[|s.free| - 1]]))
    case SendMicData(accepted, id) =>
      if !s.mio.Started? || s.responses == [] || !accepted then Some(s)
      else Some(s.(responses := s.responses[1..], sent := s.sent + [Sent(id, s.responses[0].chunk)],
                   delivered := s.delivered + [s.responses[0]]))
    case WriteComplete(success, id) =>
      var i := Find(SentIds(s.sent), id);
      if !success || i == |s.sent| then Some(s)
      else Some(s.(sent := s.sent[..i] + s.sent[i + 1..], free := s.free + [s.sent[i].chunk]))
    case _ => None
  }

  // ------------------------------------------------------------- ownership

  function Chunks(r: seq<MicData>): seq<Chunk>
  {
    if r == [] then [] else [r[0].chunk] + Chunks(r[1..])
  }

  function CountMic(r: seq<MicData>, c: Chunk): nat
  {
    if r == [] then 0 else (if r[0].chunk == c then 1 else 0) + CountMic(r[1..], c)
  }

  function CountSent(r: seq<Sent>, c: Chunk): nat
  {
    if r == [] then 0 else (if r[0].chunk == c then 1 else 0) + CountSent(r[1..], c)
  }

  function HeldBy(t: Thread, c: Chunk): nat
  {
    if t.Holding? && t.chunk == c then 1 else 0
  }

  function CountHeld(threads: seq<Thread>, c: Chunk): nat
  {
    if threads == [] then 0 else HeldBy(threads[0], c) + CountHeld(threads[1..], c)
  }

  // In how many places a chunk is, over all the places a chunk can be.
  function Places(s: State, c: Chunk): nat
  {
    Count(s.free, c) + Count(s.requests, c) + CountHeld(s.threads, c) + CountMic(s.responses, c)
    + CountSent(s.sent, c) + Count(s.lost, c)
  }

  lemma {:induction false} CountMicAppend(a: seq<MicData>, d: MicData, c: Chunk)
    ensures CountMic(a + [d], c) == CountMic(a, c) + (if d.chunk == c then 1 else 0)
  {
    if a == [] {
      assert a + [d] == [d] && CountMic([], c) == 0;
    } else {
      CountMicAppend(a[1..], d, c);
      assert (a + [d])[1..] == a[1..] + [d];
    }
  }

  lemma {:induction false} CountChunks(r: seq<MicData>, c: Chunk)
    ensures Count(Chunks(r), c) == CountMic(r, c)
  {
    if r != [] {
      CountChunks(r[1..], c);
      assert ([r[0].chunk] + Chunks(r[1..]))[1..] == Chunks(r[1..]);
    }
  }

  lemma {:induction false} CountSentAppend(a: seq<Sent>, b: seq<Sent>, c: Chunk)
    ensures CountSent(a + b, c) == CountSent(a, c) + CountSent(b, c)
  {
    if a == [] {
      assert a + b == b;
    } else {
      CountSentAppend(a[1..], b, c);
      assert (a + b)[1..] == a[1..] + b;
    }
  }

  lemma {:induction false} HeldUpdate(threads: seq<Thread>, i: nat, t: Thread, c: Chunk)
    requires i < |threads|
    ensures CountHeld(threads[i := t], c) + HeldBy(threads[i], c) == CountHeld(threads, c) + HeldBy(t, c)
  {
    var after := threads[i := t];
    if i == 0 {
      assert after[1..] == threads[1..];
    } else {
      HeldUpdate(threads[1..], i - 1, t, c);
      assert after[1..] == threads[1..][i - 1 := t];
    }
  }

  lemma {:induction false} HeldAppend(threads: seq<Thread>, t: Thread, c: Chunk)
    requires !t.Holding?
    ensures CountHeld(threads + [t], c) == CountHeld(threads, c)
  {
    if threads == [] {
      assert (threads + [t])[1..] == [];
    } else {
      HeldAppend(threads[1..], t, c);
      assert (threads + [t])[1..] == threads[1..] + [t];
    }
  }

  lemma TakeKeepsPlaces(s: State, t: nat, f: Format, c: Chunk)
    requires Step(s, Take(t), f).Some?
    ensures Places(Step(s, Take(t), f).value, c) == Places(s, c)
  {
    var s' := Step(s, Take(t), f).value;
    HeldUpdate(s.threads, t, s'.threads[t], c);
  }

  lemma ReadKeepsPlaces(s: State, a: Action, f: Format, c: Chunk)
    requires a.Gone? || a.CheckExit? || a.ReadFails? || a.ReadGives?
    requires Step(s, a, f).Some?
    ensures Places(Step(s, a, f).value, c) == Places(s, c)
  {
    var s' := Step(s, a, f).value;
    HeldUpdate(s.threads, a.thread, s'.threads[a.thread], c);
    match a {
      case ReadGives(t, bytes) => CountMicAppend(s.responses, s'.responses[|s.responses|], c);
      case ReadFails(t) =>
        CountAppend(s.lost, [s.threads[t].chunk], c);
        CountOne(s.threads[t].chunk, c);
      case _ =>
    }
  }

  lemma ReturnKeepsPlaces(s: State, c: Chunk)
    ensures Places(ReturnQueues(s), c) == Places(s, c)
  {
    CountAppend(s.free + s.requests, Chunks(s.responses), c);
    CountAppend(s.free, s.requests, c);
    CountChunks(s.responses, c);
  }

  lemma CompleteKeepsPlaces(s: State, success: bool, id: nat, c: Chunk)
    ensures Places(MioStep(s, WriteComplete(success, id)).value, c) == Places(s, c)
  {
    var i := Find(SentIds(s.sent), id);
    if success && i < |s.sent| {
      var before, after := s.sent[..i], s.sent[i + 1..];
      assert s.sent == before + ([s.sent[i]] + after);
      CountSentAppend(before, [s.sent[i]] + after, c);
      CountSentAppend(before, after, c);
      assert ([s.sent[i]] + after)[1..] == after;
      CountAppend(s.free, [s.sent[i].chunk], c);
      CountOne(s.sent[i].chunk, c);
    }
  }

  lemma SendKeepsPlaces(s: State, accepted: bool, id: nat, c: Chunk)
    ensures Places(MioStep(s, SendMicData(accepted, id)).value, c) == Places(s, c)
  {
    if s.responses != [] {
      var entry := Sent(id, s.responses[0].chunk);
      CountSentAppend(s.sent, [entry], c);
      assert [entry][1..] == [];
    }
  }

  lemma ReadRequestKeepsPlaces(s: State, c: Chunk)
    ensures Places(MioStep(s, DoRead).value, c) == Places(s, c)
  {
    if s.free != [] {
      var last := s.free[|s.free| - 1];
      assert s.free == s.free[..|s.free| - 1] + [last];
      CountAppend(s.free[..|s.free| - 1], [last], c);
      CountAppend(s.requests, [last], c);
    }
  }

  lemma MioStepKeepsPlaces(s: State, a: Action, c: Chunk)
    requires MioStep(s, a).Some?
    ensures Places(MioStep(s, a).value, c) == Places(s, c)
  {
    match a {
      case DoStart(start) => HeldAppend(s.threads, if start.Works? then AtTop else Failed, c);
      case DoReset => ReturnKeepsPlaces(s.(exit := true), c);
      case DoRead => ReadRequestKeepsPlaces(s, c);
      case SendMicData(accepted, id) => SendKeepsPlaces(s, accepted, id, c);
      case WriteComplete(success, id) => CompleteKeepsPlaces(s, success, id, c);
      case _ =>
    }
  }

  lemma StepKeepsPlaces(s: State, a: Action, f: Format, c: Chunk)
    requires Step(s, a, f).Some?
    ensures Places(Step(s, a, f).value, c) == Places(s, c)
  {
    match a {
      case Gone(_) => ReadKeepsPlaces(s, a, f, c);
      case CheckExit(_) => ReadKeepsPlaces(s, a, f, c);
      case Take(t) => TakeKeepsPlaces(s, t, f, c);
      case ReadFails(_) => ReadKeepsPlaces(s, a, f, c);
      case ReadGives(_, _) => ReadKeepsPlaces(s, a, f, c);
      case Join =>
        ReturnKeepsPlaces(s.(ended := s.ended - 1, threadStarted := false, joining := NotJoining), c);
      case _ => MioStepKeepsPlaces(s, a, c);
    }
  }

  // ------------------------------------------------------ order and history

  predicate Live(t: Thread)
  {
    t.AtTop? || t.Armed? || t.Holding?
  }

  predicate Capturing(t: Thread)
  {
    t.Armed? || t.Holding?
  }

  ghost predicate OneLive(threads: seq<Thread>)
  {
    forall t, u :: 0 <= t < u < |threads| ==> !(Live(threads[t]) && Live(threads[u]))
  }

  ghost predicate OneCapturing(threads: seq<Thread>)
  {
    forall t, u :: 0 <= t < u < |threads| ==> !(Capturing(threads[t]) && Capturing(threads[u]))
  }

  ghost predicate NoneLive(threads: seq<Thread>)
  {
    forall t :: 0 <= t < |threads| ==> !Live(threads[t])
  }

  ghost predicate NoneCapturing(threads: seq<Thread>)
  {
    forall t :: 0 <= t < |threads| ==> !Capturing(threads[t])
  }

  // At most one thread is past its exit test, however many starts there were
  // and whether they worked: while the flag is clear only one thread is live,
  // since a start is refused unless the ones before failed, and nothing clears
  // the flag.  A thread that lost its chunk is not followed by another capturer.
  ghost predicate OneCapturer(s: State)
  {
    && OneCapturing(s.threads)
    && (!s.exit ==> OneLive(s.threads))
    && (s.mio.Initialized? ==> NoneLive(s.threads))
    && (s.mio.Paused? || s.mio.Stopped? || s.mio.Idle? || !s.joining.NotJoining? ==> s.exit)
    && |s.lost| <= 1
    && (s.lost != [] ==> !s.mio.Initialized? && NoneCapturing(s.threads) && (!s.exit ==> NoneLive(s.threads)))
  }

  // Captured buffers leave in order; what a reset returned to the pool unsent
  // comes after everything delivered, and nothing is delivered after it.
  predicate InOrder(s: State)
  {
    && s.captured == s.delivered + s.dropped + s.responses
    && (s.dropped != [] ==> s.mio.Idle?)
  }

  function Total(r: seq<MicData>): nat
  {
    if r == [] then 0 else Total(r[..|r| - 1]) + r[|r| - 1].duration
  }

  ghost predicate Contiguous(r: seq<MicData>)
  {
    forall k :: 0 <= k < |r| ==> r[k].timestamp == Total(r[..k])
  }

  // Each timestamp is the sum of the durations before it, and the rounding of
  // the durations keeps the clock behind the frames captured, by less than a
  // millisecond a buffer.
  ghost predicate OnTime(s: State, f: Format)
    requires f.rate > 0
  {
    && Contiguous(s.captured)
    && s.timeStamp == Total(s.captured)
    && Lag(s.timeStamp, s.frames, |s.captured|, f.rate)
  }

  ghost predicate Lag(time: nat, frames: nat, buffers: nat, rate: nat)
    requires rate > 0
  {
    time * rate <= frames * 1000 <= time * rate + buffers * (rate - 1)
  }

  lemma ContiguousAppend(r: seq<MicData>, d: MicData)
    requires Contiguous(r) && d.timestamp == Total(r)
    ensures Contiguous(r + [d]) && Total(r + [d]) == Total(r) + d.duration
  {
    var r' := r + [d];
    assert r'[..|r|] == r;
    forall k | 0 <= k < |r'| ensures r'[k].timestamp == Total(r'[..k]) {
      if k < |r| { assert r'[..k] == r[..k]; }
    }
  }

  // A thread that moves on without coming to life, or to capture, anew.
  lemma ThreadMoves(threads: seq<Thread>, t: nat, x: Thread)
    requires t < |threads| && (Live(x) ==> Live(threads[t]))
    requires Capturing(x) ==> Capturing(threads[t]) || OneLive(threads)
    ensures OneLive(threads) ==> OneLive(threads[t := x])
    ensures OneCapturing(threads) ==> OneCapturing(threads[t := x])
    ensures NoneLive(threads) ==> NoneLive(threads[t := x])
    ensures NoneCapturing(threads) && !Capturing(x) ==> NoneCapturing(threads[t := x])
  {
    if OneLive(threads) && Live(x) {
      assert forall u :: 0 <= u < |threads| && u != t ==> !Live(threads[u]);
    }
  }

  // The one that captured is the only one that did.
  lemma LastCapturer(threads: seq<Thread>, t: nat, x: Thread)
    requires t < |threads| && Capturing(threads[t]) && OneCapturing(threads) && !Live(x)
    ensures NoneCapturing(threads[t := x]) && (OneLive(threads) ==> NoneLive(threads[t := x]))
  {}

  lemma ThreadAdded(threads: seq<Thread>, x: Thread)
    requires !Capturing(x)
    ensures OneCapturing(threads) ==> OneCapturing(threads + [x])
    ensures NoneCapturing(threads) ==> NoneCapturing(threads + [x])
    ensures NoneLive(threads) ==> OneLive(threads + [x])
    ensures NoneLive(threads) && !Live(x) ==> NoneLive(threads + [x])
  {}

  lemma ThreadKeepsOneCapturer(s: State, a: Action, f: Format)
    requires OneCapturer(s) && Step(s, a, f).Some?
    requires a.Gone? || a.CheckExit? || a.Take? || a.ReadFails? || a.ReadGives?
    ensures OneCapturer(Step(s, a, f).value)
  {
    var x := Step(s, a, f).value.threads[a.thread];
    if a.ReadFails? { LastCapturer(s.threads, a.thread, x); }
    ThreadMoves(s.threads, a.thread, x);
    assert NoneCapturing(s.threads) ==> !Capturing(s.threads[a.thread]);
    assert NoneLive(s.threads) ==> !Live(s.threads[a.thread]);
    hide OneLive, OneCapturing, NoneLive, NoneCapturing;
  }

  lemma StepKeepsOneCapturer(s: State, a: Action, f: Format)
    requires OneCapturer(s) && Step(s, a, f).Some?
    ensures OneCapturer(Step(s, a, f).value)
  {
    if a.DoStart? { ThreadAdded(s.threads, if a.start.Works? then AtTop else Failed); }
    if a.Gone? || a.CheckExit? || a.Take? || a.ReadFails? || a.ReadGives? {
      ThreadKeepsOneCapturer(s, a, f);
    } else {
      hide OneLive, OneCapturing, NoneLive, NoneCapturing;
    }
  }

  lemma CaptureKeepsOrder(s: State, t: nat, bytes: nat, f: Format)
    requires InOrder(s) && t < |s.threads| && s.threads[t].Holding?
    ensures InOrder(Captured(s, t, bytes, f))
  {
    var d := Captured(s, t, bytes, f).responses[|s.responses|];
    assert s.delivered + s.dropped + (s.responses + [d]) == (s.delivered + s.dropped + s.responses) + [d];
  }

  lemma SendKeepsOrder(s: State, accepted: bool, id: nat)
    requires InOrder(s)
    ensures InOrder(MioStep(s, SendMicData(accepted, id)).value)
  {
    if s.mio.Started? && s.responses != [] && accepted {
      var d := s.responses[0];
      assert s.responses == [d] + s.responses[1..] && s.dropped == [];
      assert s.delivered + [] + s.responses == (s.delivered + [d]) + [] + s.responses[1..];
    }
  }

  lemma ReturnKeepsOrder(s: State)
    requires InOrder(s)
    ensures InOrder(ReturnQueues(s))
  {
    assert s.delivered + s.dropped + s.responses == s.delivered + (s.dropped + s.responses) + [];
  }

  lemma StepKeepsOrder(s: State, a: Action, f: Format)
    requires InOrder(s) && Step(s, a, f).Some?
    ensures InOrder(Step(s, a, f).value)
  {
    match a {
      case ReadGives(t, bytes) => CaptureKeepsOrder(s, t, bytes, f); hide Captured, ReturnQueues;
      case SendMicData(accepted, id) => SendKeepsOrder(s, accepted, id); hide MioStep, ReturnQueues, Captured;
      case Join =>
        ReturnKeepsOrder(s.(ended := s.ended - 1, threadStarted := false, joining := NotJoining));
        hide ReturnQueues, MioStep, Captured;
      case DoReset => ReturnKeepsOrder(s.(exit := true)); hide ReturnQueues, Captured;
      case _ => hide ReturnQueues, Captured;
    }
  }

  lemma Product(a: nat, b: nat, c: nat)
    ensures (a + b) * c == a * c + b * c
  {
  }

  lemma CaptureKeepsTime(s: State, t: nat, bytes: nat, f: Format)
    requires f.rate > 0 && OnTime(s, f) && t < |s.threads| && s.threads[t].Holding?
    ensures OnTime(Captured(s, t, bytes, f), f)
  {
    ContiguousAppend(s.captured, MicData(s.threads[t].chunk, bytes, s.timeStamp, Duration(bytes, f)));
    Rounding(s.timeStamp, s.frames, |s.captured|, Frames(bytes, f), f.rate);
    hide Lag, Contiguous, Total, Frames;
  }

  lemma StepKeepsTime(s: State, a: Action, f: Format)
    requires f.rate > 0 && OnTime(s, f) && Step(s, a, f).Some?
    ensures OnTime(Step(s, a, f).value, f)
  {
    if a.ReadGives? { CaptureKeepsTime(s, a.thread, a.bytes, f); }
    hide Lag, Contiguous, Total, Captured;
  }

  lemma Rounding(time: nat, frames: nat, n: nat, more: nat, rate: nat)
    requires rate > 0 && Lag(time, frames, n, rate)
    ensures Lag(time + more * 1000 / rate, frames + more, n + 1, rate)
  {
    var d := more * 1000 / rate;
    var rest := more * 1000 % rate;
    assert more * 1000 == d * rate + rest;
    Product(time, d, rate);
    Product(n, 1, rate - 1);
  }

  // ------------------------------------------------------------------ runs

  function Run(s: State, actions: seq<Action>, f: Format): Option<State>
    decreases |actions|
  {
    if actions == [] then Some(s)
    else
      var s' := Step(s, actions[0], f);
      if s'.None? then None else Run(s'.value, actions[1..], f)
  }

  ghost predicate Inv(s: State, f: Format)
    requires f.rate > 0
  {
    && OneCapturer(s) && InOrder(s) && OnTime(s, f)
    && (forall c: Chunk :: Places(s, c) == if c < POOL_CHUNKS then 1 else 0)
  }

  lemma {:induction false} RunKeepsInv(s: State, actions: seq<Action>, f: Format)
    requires f.rate > 0 && Inv(s, f) && Run(s, actions, f).Some?
    ensures Inv(Run(s, actions, f).value, f)
    decreases |actions|
  {
    if actions != [] {
      var s' := Step(s, actions[0], f).value;
      StepKeepsOneCapturer(s, actions[0], f);
      StepKeepsOrder(s, actions[0], f);
      StepKeepsTime(s, actions[0], f);
      forall c: Chunk ensures Places(s', c) == if c < POOL_CHUNKS then 1 else 0 {
        StepKeepsPlaces(s, actions[0], f, c);
      }
      hide Step, OneCapturer, InOrder, OnTime, Places;
      RunKeepsInv(s', actions[1..], f);
    }
  }

  // Each chunk of the pool is in exactly one place and no other chunk is
  // anywhere, so no chunk is ever freed twice; at most one chunk is ever lost
  // to a failed read; the peer has received a prefix of what was captured, in
  // order; and the timestamps are on time.
  ghost predicate Safe(s: State, f: Format)
    requires f.rate > 0
  {
    && (forall c: Chunk :: Places(s, c) == if c < POOL_CHUNKS then 1 else 0)
    && |s.lost| <= 1
    && s.delivered <= s.captured
    && (!s.mio.Idle? ==> s.captured == s.delivered + s.responses)
    && OnTime(s, f)
  }

  lemma InvIsSafe(s: State, f: Format)
    requires f.rate > 0 && Inv(s, f)
    ensures Safe(s, f)
  {
    hide Places, OnTime;
    assert s.delivered + s.dropped + s.responses == s.delivered + (s.dropped + s.responses);
  }

  // In every interleaving.
  lemma Ownership(actions: seq<Action>, f: Format)
    requires f.rate > 0 && Run(INITIAL, actions, f).Some?
    ensures Safe(Run(INITIAL, actions, f).value, f)
  {
    hide Step, Places, OnTime, Inv, Safe;
    InitialInv(f);
    RunKeepsInv(INITIAL, actions, f);
    InvIsSafe(Run(INITIAL, actions, f).value, f);
  }

  lemma InitialInv(f: Format)
    requires f.rate > 0
    ensures Inv(INITIAL, f)
  {
    forall c: Chunk ensures Places(INITIAL, c) == if c < POOL_CHUNKS then 1 else 0 {
      CountAppend([0] + [1], [2] + [3], c);
      CountAppend([0], [1], c);
      CountAppend([2], [3], c);
      CountOne(0, c);
      CountOne(1, c);
      CountOne(2, c);
      CountOne(3, c);
      assert INITIAL.free == ([0] + [1]) + ([2] + [3]);
    }
  }

  // ------------------------------------------------------ time and bytes read

  // A frame is two bytes for each channel; what is left over is not counted.
  lemma FramesMean(bytes: nat, f: Format)
    requires f.channels > 0
    ensures 2 * f.channels * Frames(bytes, f) <= bytes < 2 * f.channels * (Frames(bytes, f) + 1)
  {
    var half, n := bytes / 2, Frames(bytes, f);
    assert half == n * f.channels + half % f.channels;
    assert f.channels * (n + 1) == n * f.channels + f.channels;
  }

  // A duration is the frames' time in whole milliseconds.
  lemma DurationMeans(bytes: nat, f: Format)
    requires f.rate > 0
    ensures Duration(bytes, f) * f.rate <= Frames(bytes, f) * 1000 < (Duration(bytes, f) + 1) * f.rate
  {
    var all, d := Frames(bytes, f) * 1000, Duration(bytes, f);
    assert all == d * f.rate + all % f.rate;
    Product(d, 1, f.rate);
  }

  // Bytes of one second.
  function ByteRate(f: Format): nat
  {
    2 * f.channels * f.rate
  }

  // What the two roundings can take off one buffer, in thousandths of a byte:
  // less than a frame, and less than a millisecond.
  function Slack(f: Format): nat
    requires f.rate > 0 && f.channels > 0
  {
    1000 * (2 * f.channels - 1) + 2 * f.channels * (f.rate - 1)
  }

  ghost predicate Lasts(duration: nat, bytes: nat, buffers: nat, f: Format)
    requires f.rate > 0 && f.channels > 0
  {
    duration * ByteRate(f) <= 1000 * bytes <= duration * ByteRate(f) + buffers * Slack(f)
  }

  lemma Scale(k: nat, a: nat, b: nat)
    requires a <= b
    ensures k * a <= k * b
  {}

  lemma Regroup(k: nat, d: nat, rate: nat)
    ensures k * (d * rate) == d * (k * rate)
  {}

  lemma Thousandfold(k: nat, n: nat)
    ensures k * (1000 * n) == 1000 * (k * n)
  {}

  lemma Spread(k: nat, a: nat, b: nat)
    ensures k * (a + b) == k * a + k * b
  {}

  // n frames of k bytes lasting d milliseconds.
  lemma BothRoundings(k: nat, n: nat, d: nat, rate: nat)
    requires d * rate <= 1000 * n <= d * rate + (rate - 1) && rate > 0
    ensures d * (k * rate) <= 1000 * (k * n) <= d * (k * rate) + k * (rate - 1)
  {
    var q := d * rate;
    Scale(k, q, 1000 * n);
    Scale(k, 1000 * n, q + (rate - 1));
    Spread(k, q, rate - 1);
    Thousandfold(k, n);
    Regroup(k, d, rate);
  }

  lemma BufferLasts(bytes: nat, f: Format)
    requires f.rate > 0 && f.channels > 0
    ensures Lasts(Duration(bytes, f), bytes, 1, f)
  {
    FramesMean(bytes, f);
    DurationMeans(bytes, f);
    var k, n, d := 2 * f.channels, Frames(bytes, f), Duration(bytes, f);
    hide Frames, Duration;
    Product(d, 1, f.rate);
    BothRoundings(k, n, d, f.rate);
    Spread(k, n, 1);
    LastsIf(d, bytes, k * n, k * (f.rate - 1), f);
  }

  lemma LastsIf(d: nat, bytes: nat, whole: nat, late: nat, f: Format)
    requires f.rate > 0 && f.channels > 0 && whole <= bytes <= whole + (2 * f.channels - 1)
    requires late == 2 * f.channels * (f.rate - 1)
    requires d * ByteRate(f) <= 1000 * whole <= d * ByteRate(f) + late
    ensures Lasts(d, bytes, 1, f)
  {
    hide ByteRate;
  }

  lemma LastsAdd(d: nat, bytes: nat, n: nat, e: nat, more: nat, f: Format)
    requires f.rate > 0 && f.channels > 0 && Lasts(d, bytes, n, f) && Lasts(e, more, 1, f)
    ensures Lasts(d + e, bytes + more, n + 1, f)
  {
    Product(d, e, ByteRate(f));
    Product(n, 1, Slack(f));
    hide ByteRate, Slack;
  }

  // The counts that reading the device gave in the steps of a run.
  function BytesRead(actions: seq<Action>): seq<nat>
  {
    if actions == [] then [] else Reads(actions[0]) + BytesRead(actions[1..])
  }

  function Reads(a: Action): seq<nat>
  {
    if a.ReadGives? then [a.bytes] else []
  }

  function Add(counts: seq<nat>): nat
  {
    if counts == [] then 0 else Add(counts[..|counts| - 1]) + counts[|counts| - 1]
  }

  // The buffers captured are the reads, and each, and the clock, lasts as long
  // as its bytes do.
  ghost predicate Timed(s: State, read: seq<nat>, f: Format)
    requires f.rate > 0 && f.channels > 0
  {
    && |s.captured| == |read|
    && (forall k :: 0 <= k < |read| ==>
          s.captured[k].bytes == read[k] && Lasts(s.captured[k].duration, read[k], 1, f))
    && Lasts(s.timeStamp, Add(read), |read|, f)
  }

  lemma CaptureTimed(s: State, t: nat, bytes: nat, read: seq<nat>, f: Format)
    requires f.rate > 0 && f.channels > 0 && t < |s.threads| && s.threads[t].Holding? && Timed(s, read, f)
    ensures Timed(Captured(s, t, bytes, f), read + [bytes], f)
  {
    BufferLasts(bytes, f);
    LastsAdd(s.timeStamp, Add(read), |read|, Duration(bytes, f), bytes, f);
    assert (read + [bytes])[..|read|] == read;
    hide Lasts, Duration, Frames;
  }

  lemma StepTimed(s: State, a: Action, read: seq<nat>, f: Format)
    requires f.rate > 0 && f.channels > 0 && Timed(s, read, f) && Step(s, a, f).Some?
    ensures Timed(Step(s, a, f).value, read + Reads(a), f)
  {
    hide Lasts, Captured;
    if a.ReadGives? { CaptureTimed(s, a.thread, a.bytes, read, f); } else { assert read + Reads(a) == read; }
  }

  lemma {:induction false} RunTimed(s: State, actions: seq<Action>, read: seq<nat>, f: Format)
    requires f.rate > 0 && f.channels > 0 && Timed(s, read, f) && Run(s, actions, f).Some?
    ensures Timed(Run(s, actions, f).value, read + BytesRead(actions), f)
    decreases |actions|
  {
    hide Step, Timed, Reads;
    if actions == [] {
      assert read + [] == read;
    } else {
      StepTimed(s, actions[0], read, f);
      RunTimed(Step(s, actions[0], f).value, actions[1..], read + Reads(actions[0]), f);
      assert (read + Reads(actions[0])) + BytesRead(actions[1..]) == read + BytesRead(actions);
    }
  }

  // Over every run: one captured buffer for each read, of its size, and the
  // clock behind the bytes read, by less than a frame and a millisecond each.
  lemma ClockFollowsBytes(actions: seq<Action>, f: Format)
    requires f.rate > 0 && f.channels > 0 && Run(INITIAL, actions, f).Some?
    ensures var s, read := Run(INITIAL, actions, f).value, BytesRead(actions);
      && |s.captured| == |read|
      && (forall k :: 0 <= k < |read| ==>
            s.captured[k].bytes == read[k] && Lasts(s.captured[k].duration, read[k], 1, f))
      && Lasts(s.timeStamp, Add(read), |read|, f)
  {
    assert Timed(INITIAL, [], f);
    RunTimed(INITIAL, actions, [], f);
    assert [] + BytesRead(actions) == BytesRead(actions);
    hide Run, Lasts, Add, BytesRead;
  }

  // Nothing ever clears the exit flag: once it is set, at most the buffer a
  // thread is already committed to is still captured, and that is the end of
  // capture for this object, whatever is started later.
  function Committed(threads: seq<Thread>): nat
  {
    if threads == [] then 0 else (if Capturing(threads[0]) then 1 else 0) + Committed(threads[1..])
  }

  lemma {:induction false} CommittedMoves(threads: seq<Thread>, t: nat, x: Thread)
    requires t < |threads|
    ensures Committed(threads[t := x]) + (if Capturing(threads[t]) then 1 else 0)
         == Committed(threads) + (if Capturing(x) then 1 else 0)
  {
    if t > 0 {
      CommittedMoves(threads[1..], t - 1, x);
      assert threads[t := x][1..] == threads[1..][t - 1 := x];
    } else {
      assert threads[t := x][1..] == threads[1..];
    }
  }

  lemma {:induction false} CommittedAdded(threads: seq<Thread>, x: Thread)
    requires !Capturing(x)
    ensures Committed(threads + [x]) == Committed(threads)
  {
    if threads == [] {
      assert (threads + [x])[1..] == [];
    } else {
      assert (threads + [x])[1..] == threads[1..] + [x];
      CommittedAdded(threads[1..], x);
    }
  }

  lemma {:induction false} CommittedNone(threads: seq<Thread>)
    ensures NoneCapturing(threads) ==> Committed(threads) == 0
    ensures OneCapturing(threads) ==> Committed(threads) <= 1
  {
    if threads != [] {
      CommittedNone(threads[1..]);
      if OneCapturing(threads) && Capturing(threads[0]) {
        forall t | 0 <= t < |threads| - 1 ensures !Capturing(threads[1..][t]) {
          assert threads[1..][t] == threads[t + 1];
        }
      }
    }
  }

  lemma StepAfterExit(s: State, a: Action, f: Format)
    requires s.exit && Step(s, a, f).Some?
    ensures var e := Step(s, a, f).value;
      e.exit && |e.captured| + Committed(e.threads) <= |s.captured| + Committed(s.threads)
  {
    if a.DoStart? { CommittedAdded(s.threads, if a.start.Works? then AtTop else Failed); }
    if a.Gone? || a.CheckExit? || a.Take? || a.ReadFails? || a.ReadGives? {
      CommittedMoves(s.threads, a.thread, Step(s, a, f).value.threads[a.thread]);
    }
    hide Committed;
  }

  lemma {:induction false} CaptureEnds(s: State, actions: seq<Action>, f: Format)
    requires s.exit && Run(s, actions, f).Some?
    ensures var e := Run(s, actions, f).value;
      e.exit && |e.captured| + Committed(e.threads) <= |s.captured| + Committed(s.threads)
    decreases |actions|
  {
    if actions != [] {
      StepAfterExit(s, actions[0], f);
      hide Step, Committed;
      CaptureEnds(Step(s, actions[0], f).value, actions[1..], f);
    }
  }

  // Over runs: after a pause, stop or reset at most one more buffer is ever
  // captured.
  lemma ExitIsFinal(before: seq<Action>, after: seq<Action>, f: Format)
    requires f.rate > 0 && Run(INITIAL, before, f).Some? && Run(INITIAL, before, f).value.exit
    requires Run(Run(INITIAL, before, f).value, after, f).Some?
    ensures |Run(Run(INITIAL, before, f).value, after, f).value.captured|
         <= |Run(INITIAL, before, f).value.captured| + 1
  {
    InitialInv(f);
    RunKeepsInv(INITIAL, before, f);
    var s := Run(INITIAL, before, f).value;
    CommittedNone(s.threads);
    CaptureEnds(s, after, f);
    hide Run, Committed;
  }

  // After a stop nothing more is delivered either, whatever has been captured.
  lemma {:induction false} NothingDelivered(s: State, actions: seq<Action>, f: Format)
    requires (s.mio.Stopped? || s.mio.Idle?) && Run(s, actions, f).Some?
    ensures Run(s, actions, f).value.delivered == s.delivered
    decreases |actions|
  {
    if actions != [] {
      SilentStep(s, actions[0], f);
      hide Step;
      NothingDelivered(Step(s, actions[0], f).value, actions[1..], f);
    }
  }

  lemma SilentStep(s: State, a: Action, f: Format)
    requires (s.mio.Stopped? || s.mio.Idle?) && Step(s, a, f).Some?
    ensures var t := Step(s, a, f).value; t.delivered == s.delivered && (t.mio.Stopped? || t.mio.Idle?)
  {
    hide Duration, Frames, Chunks, SentIds, Find;
  }

  // A stop can be asked for from capture and from a pause.
  lemma StopIsFinal(s: State, actions: seq<Action>, f: Format)
    requires s.joining.NotJoining? && (s.mio.Started? || s.mio.Paused?)
    ensures Step(s, DoStop, f).Some?
    ensures Run(Step(s, DoStop, f).value, actions, f).Some? ==>
              Run(Step(s, DoStop, f).value, actions, f).value.delivered == s.delivered
  {
    var t := Step(s, DoStop, f).value;
    if Run(t, actions, f).Some? { NothingDelivered(t, actions, f); }
  }

  // Until then the peer gets the oldest buffer whenever it takes one, under the
  // id it gave, and nothing when it does not.
  lemma PeerIsServed(s: State, accepted: bool, id: nat, f: Format)
    requires s.joining.NotJoining? && s.mio.Started?
    ensures var t := Step(s, SendMicData(accepted, id), f);
      && t.Some?
      && (accepted && s.responses != [] ==>
            && t.value.delivered == s.delivered + [s.responses[0]]
            && s.responses == [s.responses[0]] + t.value.responses
            && t.value.sent == s.sent + [Sent(id, s.responses[0].chunk)])
      && (!accepted || s.responses == [] ==> t.value == s)
  {}

  // The chunk given back last is the first to be filled again.
  lemma LastFreedFirst(s: State, i: nat, f: Format)
    requires s.joining.NotJoining? && s.mio.Started? && i < |s.sent|
    requires forall j :: 0 <= j < i ==> s.sent[j].id != s.sent[i].id
    ensures var t := Step(s, WriteComplete(true, s.sent[i].id), f);
      t.Some? && Step(t.value, DoRead, f).Some?
      && Step(t.value, DoRead, f).value.requests == s.requests + [s.sent[i].chunk]
      && Step(t.value, DoRead, f).value.free == s.free
  {
    FindIs(SentIds(s.sent), s.sent[i].id, i);
    var t := Step(s, WriteComplete(true, s.sent[i].id), f).value;
    assert t.free == s.free + [s.sent[i].chunk];
    assert t.free[..|t.free| - 1] == s.free;
  }

  // Chunks are filled in the order they were asked for.
  function Asks(s: State, a: Action): seq<Chunk>
  {
    if a.DoRead? && s.joining.NotJoining? && s.mio.Started? && s.free != [] then [s.free[|s.free| - 1]] else []
  }

  function Takes(s: State, a: Action): seq<Chunk>
  {
    if a.Take? && s.requests != [] then [s.requests[0]] else []
  }

  function Asked(s: State, actions: seq<Action>, f: Format): seq<Chunk>
    requires Run(s, actions, f).Some?
    decreases |actions|
  {
    if actions == [] then []
    else Asks(s, actions[0]) + Asked(Step(s, actions[0], f).value, actions[1..], f)
  }

  function Taken(s: State, actions: seq<Action>, f: Format): seq<Chunk>
    requires Run(s, actions, f).Some?
    decreases |actions|
  {
    if actions == [] then []
    else Takes(s, actions[0]) + Taken(Step(s, actions[0], f).value, actions[1..], f)
  }

  // What was asked for is what was taken, and then what waits, if it was not
  // returned by a reset.
  predicate Requested(s: State, asked: seq<Chunk>, taken: seq<Chunk>)
  {
    if s.mio.Idle? then s.requests == [] && taken <= asked else asked == taken + s.requests
  }

  lemma StepRequested(s: State, a: Action, f: Format, asked: seq<Chunk>, taken: seq<Chunk>)
    requires Requested(s, asked, taken) && Step(s, a, f).Some?
    ensures Requested(Step(s, a, f).value, asked + Asks(s, a), taken + Takes(s, a))
  {
    hide Duration, Frames, Chunks, SentIds, Find;
    assert asked + [] == asked && taken + [] == taken;
    if a.Take? && s.requests != [] {
      assert taken + s.requests == (taken + [s.requests[0]]) + s.requests[1..];
    }
    if a.DoRead? && Asks(s, a) != [] {
      assert (taken + s.requests) + Asks(s, a) == taken + (s.requests + Asks(s, a));
    }
  }

  lemma {:induction false} RunRequested(s: State, actions: seq<Action>, f: Format, asked: seq<Chunk>, taken: seq<Chunk>)
    requires Requested(s, asked, taken) && Run(s, actions, f).Some?
    ensures Requested(Run(s, actions, f).value, asked + Asked(s, actions, f), taken + Taken(s, actions, f))
    decreases |actions|
  {
    hide Step, Requested, Asks, Takes;
    if actions == [] {
      assert asked + [] == asked && taken + [] == taken;
    } else {
      var a, t := actions[0], Step(s, actions[0], f).value;
      StepRequested(s, a, f, asked, taken);
      RunRequested(t, actions[1..], f, asked + Asks(s, a), taken + Takes(s, a));
      assert (asked + Asks(s, a)) + Asked(t, actions[1..], f) == asked + Asked(s, actions, f);
      assert (taken + Takes(s, a)) + Taken(t, actions[1..], f) == taken + Taken(s, actions, f);
    }
  }

  lemma RequestsInOrder(actions: seq<Action>, f: Format)
    requires Run(INITIAL, actions, f).Some?
    ensures Requested(Run(INITIAL, actions, f).value, Asked(INITIAL, actions, f), Taken(INITIAL, actions, f))
  {
    RunRequested(INITIAL, actions, f, [], []);
    var asked, taken := Asked(INITIAL, actions, f), Taken(INITIAL, actions, f);
    assert [] + asked == asked && [] + taken == taken;
    hide Run, Asked, Taken;
  }

  // ------------------------------------------------- signals and the started

  function Joins(actions: seq<Action>): nat
  {
    if actions == [] then 0 else (if actions[0].Join? then 1 else 0) + Joins(actions[1..])
  }

  function CountEnded(threads: seq<Thread>): nat
  {
    if threads == [] then 0 else (if threads[0].Ended? then 1 else 0) + CountEnded(threads[1..])
  }

  lemma {:induction false} EndedUpdate(threads: seq<Thread>, i: nat, x: Thread)
    requires i < |threads| && !threads[i].Ended?
    ensures CountEnded(threads[i := x]) == CountEnded(threads) + (if x.Ended? then 1 else 0)
  {
    if i == 0 {
      assert threads[i := x][1..] == threads[1..];
    } else {
      EndedUpdate(threads[1..], i - 1, x);
      assert threads[i := x][1..] == threads[1..][i - 1 := x];
    }
  }

  lemma {:induction false} EndedAppend(threads: seq<Thread>, x: Thread)
    requires !x.Ended?
    ensures CountEnded(threads + [x]) == CountEnded(threads)
  {
    if threads == [] {
      assert (threads + [x])[1..] == [];
    } else {
      EndedAppend(threads[1..], x);
      assert (threads + [x])[1..] == threads[1..] + [x];
    }
  }

  lemma StepSignals(s: State, a: Action, f: Format)
    requires Step(s, a, f).Some?
    ensures var t := Step(s, a, f).value;
      t.ended + (if a.Join? then 1 else 0) + CountEnded(s.threads) == s.ended + CountEnded(t.threads)
  {
    if a.DoStart? { EndedAppend(s.threads, if a.start.Works? then AtTop else Failed); }
    if a.Gone? || a.CheckExit? || a.Take? || a.ReadFails? || a.ReadGives? {
      EndedUpdate(s.threads, a.thread, Step(s, a, f).value.threads[a.thread]);
    }
    hide CountEnded, Duration, Frames, Chunks, SentIds, Find;
  }

  lemma {:induction false} RunSignals(s: State, actions: seq<Action>, f: Format)
    requires Run(s, actions, f).Some?
    ensures var t := Run(s, actions, f).value;
      t.ended + Joins(actions) + CountEnded(s.threads) == s.ended + CountEnded(t.threads)
    decreases |actions|
  {
    if actions != [] {
      StepSignals(s, actions[0], f);
      hide Step, CountEnded;
      RunSignals(Step(s, actions[0], f).value, actions[1..], f);
    }
  }

  // Over runs: each thread that has ended gave one signal, and each wait that
  // has ended took one.
  lemma OneSignalEach(actions: seq<Action>, f: Format)
    requires Run(INITIAL, actions, f).Some?
    ensures var s := Run(INITIAL, actions, f).value; s.ended + Joins(actions) == CountEnded(s.threads)
  {
    RunSignals(INITIAL, actions, f);
    assert CountEnded([]) == 0;
    hide Run, CountEnded;
  }

  // The latest start made a thread, working or not, and no wait has ended since.
  predicate StillStarted(actions: seq<Action>)
  {
    actions != [] &&
    match actions[|actions| - 1]
    case DoStart(start) => !start.NoThread?
    case Join => false
    case _ => StillStarted(actions[..|actions| - 1])
  }

  lemma StepStarted(s: State, a: Action, f: Format)
    requires Step(s, a, f).Some?
    ensures Step(s, a, f).value.threadStarted <==>
            if a.DoStart? then !a.start.NoThread? else s.threadStarted && !a.Join?
  {
    hide Duration, Frames, Chunks, SentIds, Find;
  }

  lemma {:induction false} RunStarted(s: State, before: seq<Action>, actions: seq<Action>, f: Format)
    requires Run(s, actions, f).Some? && (s.threadStarted <==> StillStarted(before))
    ensures Run(s, actions, f).value.threadStarted <==> StillStarted(before + actions)
    decreases |actions|
  {
    if actions == [] {
      assert before + actions == before;
    } else {
      var a := actions[0];
      StepStarted(s, a, f);
      hide Step;
      assert (before + [a])[..|before|] == before;
      RunStarted(Step(s, a, f).value, before + [a], actions[1..], f);
      assert (before + [a]) + actions[1..] == before + actions;
    }
  }

  // That is when a stop or reset waits.
  lemma WaitsIfStarted(actions: seq<Action>, a: Action, f: Format)
    requires Run(INITIAL, actions, f).Some? && (a.DoStop? || a.DoReset?)
    requires Step(Run(INITIAL, actions, f).value, a, f).Some?
    ensures !Step(Run(INITIAL, actions, f).value, a, f).value.joining.NotJoining? <==> StillStarted(actions)
  {
    RunStarted(INITIAL, [], actions, f);
    assert [] + actions == actions;
    hide Run, StillStarted;
  }

  // ---------------------------------------------------- waiting for the end

  // The steps from where a stop or reset waits, up to and with the end of the
  // wait; none if it does not wait at all.
  predicate Returns(s: State, more: seq<Action>, f: Format)
    decreases |more|
  {
    if s.joining.NotJoining? then more == []
    else more != [] && Step(s, more[0], f).Some? && Returns(Step(s, more[0], f).value, more[1..], f)
  }

  // The threads that are not capturing have ended.
  ghost predicate OthersEnded(threads: seq<Thread>)
  {
    forall t :: 0 <= t < |threads| ==> Capturing(threads[t]) || threads[t].Ended?
  }

  // No signal is there for the wait to take, and none will be before the
  // capturing thread's own.
  ghost predicate NoOtherSignal(s: State)
  {
    s.ended == 0 && OthersEnded(s.threads)
  }

  ghost predicate SafeWait(s: State)
  {
    NoneCapturing(s.threads) || (!s.joining.NotJoining? && NoOtherSignal(s))
  }

  lemma EndedMoves(threads: seq<Thread>, t: nat, x: Thread)
    requires t < |threads| && OthersEnded(threads) && Capturing(threads[t]) && Capturing(x)
    ensures OthersEnded(threads[t := x])
  {}

  lemma WaitStep(s: State, a: Action, f: Format)
    requires OneCapturer(s) && !s.joining.NotJoining? && SafeWait(s) && Step(s, a, f).Some?
    ensures SafeWait(Step(s, a, f).value)
  {
    if a.Gone? || a.CheckExit? || a.Take? || a.ReadFails? || a.ReadGives? {
      var t, x := a.thread, Step(s, a, f).value.threads[a.thread];
      ThreadMoves(s.threads, t, x);
      if !NoneCapturing(s.threads) {
        assert Capturing(s.threads[t]);
        if Capturing(x) { EndedMoves(s.threads, t, x); } else { OnlyCapturer(s.threads, t, x); }
      }
    }
    hide OneLive, OneCapturing, NoneLive, NoneCapturing, OthersEnded;
  }

  lemma OnlyCapturer(threads: seq<Thread>, t: nat, x: Thread)
    requires t < |threads| && Capturing(threads[t]) && OneCapturing(threads) && !Capturing(x)
    ensures NoneCapturing(threads[t := x])
  {}

  lemma {:induction false} SafeWaits(s: State, more: seq<Action>, f: Format)
    requires OneCapturer(s) && SafeWait(s) && Returns(s, more, f)
    ensures Run(s, more, f).Some? && NoneCapturing(Run(s, more, f).value.threads)
    decreases |more|
  {
    if !s.joining.NotJoining? {
      WaitStep(s, more[0], f);
      StepKeepsOneCapturer(s, more[0], f);
      hide Step, OneCapturer, SafeWait, NoneCapturing;
      SafeWaits(Step(s, more[0], f).value, more[1..], f);
    }
  }

  // Otherwise another signal is there or can come first, and ends the wait.
  lemma UnsafeWait(s: State, c: nat, f: Format) returns (more: seq<Action>)
    requires !s.joining.NotJoining? && s.exit && c < |s.threads| && Capturing(s.threads[c]) && !NoOtherSignal(s)
    ensures Returns(s, more, f) && Run(s, more, f).Some?
    ensures var threads := Run(s, more, f).value.threads; c < |threads| && Capturing(threads[c])
  {
    if s.ended > 0 {
      more := JoinNow(s, f);
    } else {
      var u :| 0 <= u < |s.threads| && !Capturing(s.threads[u]) && !s.threads[u].Ended?;
      var a := if s.threads[u].AtTop? then CheckExit(u) else Gone(u);
      var t := Step(s, a, f).value;
      var rest := JoinNow(t, f);
      more := [a] + rest;
      assert more[1..] == rest;
    }
  }

  lemma JoinNow(s: State, f: Format) returns (more: seq<Action>)
    requires !s.joining.NotJoining? && s.ended > 0
    ensures Returns(s, more, f) && Run(s, more, f).Some? && Run(s, more, f).value.threads == s.threads
  {
    more := [Join];
    var t := Step(s, Join, f).value;
    assert more[1..] == [] && Returns(t, [], f) && Run(t, [], f) == Some(t);
  }

  // A wait, for a stop or a reset, always ends with nobody capturing exactly if
  // nobody is when it begins, or no signal is left over and no other thread has
  // one still to give.
  lemma WaitsExactly(s: State, f: Format)
    requires OneCapturer(s) && !s.joining.NotJoining?
    ensures (forall more :: Returns(s, more, f) ==>
               Run(s, more, f).Some? && NoneCapturing(Run(s, more, f).value.threads))
            <==> NoneCapturing(s.threads) || NoOtherSignal(s)
  {
    if NoneCapturing(s.threads) || NoOtherSignal(s) {
      forall more | Returns(s, more, f)
        ensures Run(s, more, f).Some? && NoneCapturing(Run(s, more, f).value.threads)
      {
        SafeWaits(s, more, f);
      }
    } else {
      var c :| 0 <= c < |s.threads| && Capturing(s.threads[c]);
      var more := UnsafeWait(s, c, f);
      StillThere(s, more, c, f);
    }
  }

  lemma StillThere(s: State, more: seq<Action>, c: nat, f: Format)
    requires Run(s, more, f).Some? && c < |Run(s, more, f).value.threads| && Capturing(Run(s, more, f).value.threads[c])
    ensures !NoneCapturing(Run(s, more, f).value.threads)
  {
    hide Run;
  }

  lemma NoWait(s: State, f: Format)
    requires s.joining.NotJoining?
    ensures (forall more :: Returns(s, more, f) ==>
               Run(s, more, f).Some? && NoneCapturing(Run(s, more, f).value.threads))
            <==> NoneCapturing(s.threads)
  {
    assert Returns(s, [], f) && Run(s, [], f) == Some(s);
    if NoneCapturing(s.threads) {
      forall more | Returns(s, more, f)
        ensures Run(s, more, f).Some? && NoneCapturing(Run(s, more, f).value.threads)
      {
        assert more == [];
      }
    }
  }

  // Over runs, from the state in which the call is made: one that finds no
  // thread started does not wait at all.
  lemma ResetWaitsExactly(actions: seq<Action>, a: Action, f: Format)
    requires f.rate > 0 && Run(INITIAL, actions, f).Some? && (a.DoStop? || a.DoReset?)
    requires Step(Run(INITIAL, actions, f).value, a, f).Some?
    ensures var s := Run(INITIAL, actions, f).value;
            var t := Step(s, a, f).value;
            (forall more :: Returns(t, more, f) ==>
               Run(t, more, f).Some? && NoneCapturing(Run(t, more, f).value.threads))
            <==> NoneCapturing(s.threads) || (s.threadStarted && NoOtherSignal(s))
  {
    InitialInv(f);
    RunKeepsInv(INITIAL, actions, f);
    var s := Run(INITIAL, actions, f).value;
    var t := Step(s, a, f).value;
    StepKeepsOneCapturer(s, a, f);
    hide OneCapturer, NoneCapturing, OthersEnded;
    if s.threadStarted { WaitsExactly(t, f); } else { NoWait(t, f); }
    hide Run, Returns;
  }

  // A signal left over: the thread of a failed start gave it.
  lemma ResetDoesNotWait(f: Format)
    ensures exists actions :: Run(INITIAL, actions, f).Some?
              && Run(INITIAL, actions, f).value.mio.Idle?
              && Run(INITIAL, actions, f).value.threads == [Ended, Holding(3)]
  {
    hide Run;
    var all, s := SecondStart(f);
    s := RunThen(INITIAL, all, CheckExit(1), f); all := all + [CheckExit(1)];
    s := RunThen(INITIAL, all, Take(1), f); all := all + [Take(1)];
    s := RunThen(INITIAL, all, DoReset, f); all := all + [DoReset];
    s := RunThen(INITIAL, all, Join, f); all := all + [Join];
    assert s.mio.Idle? && s.threads == [Ended, Holding(3)];
  }

  // Or no start failed: a start after a pause makes a thread that ends at once.
  lemma RestartEndsWait(f: Format)
    ensures exists actions :: Run(INITIAL, actions, f).Some?
              && Run(INITIAL, actions, f).value.mio.Idle?
              && Run(INITIAL, actions, f).value.threads == [Holding(3), Ended]
  {
    hide Run;
    var all, s := FirstRead(f);
    s := RunThen(INITIAL, all, DoPause, f); all := all + [DoPause];
    s := RunThen(INITIAL, all, DoStart(Works), f); all := all + [DoStart(Works)];
    s := RunThen(INITIAL, all, CheckExit(1), f); all := all + [CheckExit(1)];
    s := RunThen(INITIAL, all, DoReset, f); all := all + [DoReset];
    s := RunThen(INITIAL, all, Join, f); all := all + [Join];
    assert s.mio.Idle? && s.threads == [Holding(3), Ended];
  }

  // A start, and its thread reading into the first chunk.
  lemma FirstRead(f: Format) returns (all: seq<Action>, s: State)
    ensures Run(INITIAL, all, f) == Some(s)
    ensures s == INITIAL.(free := [0, 1, 2], threads := [Holding(3)], mio := Started, threadStarted := true)
  {
    all, s := [], INITIAL;
    assert Run(INITIAL, [], f) == Some(INITIAL);
    hide Run;
    s := RunThen(INITIAL, all, DoStart(Works), f); all := all + [DoStart(Works)];
    s := RunThen(INITIAL, all, DoRead, f); all := all + [DoRead];
    s := RunThen(INITIAL, all, CheckExit(0), f); all := all + [CheckExit(0)];
    s := RunThen(INITIAL, all, Take(0), f); all := all + [Take(0)];
    assert s.requests == [] && s.threads == [Holding(3)] && s.free == [0, 1, 2];
  }

  // A start that fails, one that works, and a chunk asked for.
  lemma SecondStart(f: Format) returns (all: seq<Action>, s: State)
    ensures Run(INITIAL, all, f) == Some(s)
    ensures s == INITIAL.(free := [0, 1, 2], requests := [3], threads := [Ended, AtTop], mio := Started,
                          threadStarted := true, ended := 1)
  {
    all, s := [], INITIAL;
    assert Run(INITIAL, [], f) == Some(INITIAL);
    hide Run;
    s := RunThen(INITIAL, all, DoStart(NoRecorder), f); all := all + [DoStart(NoRecorder)];
    s := RunThen(INITIAL, all, Gone(0), f); all := all + [Gone(0)];
    s := RunThen(INITIAL, all, DoStart(Works), f); all := all + [DoStart(Works)];
    s := RunThen(INITIAL, all, DoRead, f); all := all + [DoRead];
    assert s.requests == [3] && s.threads == [Ended, AtTop];
  }

  lemma {:induction false} RunThen(s: State, actions: seq<Action>, a: Action, f: Format) returns (t: State)
    requires Run(s, actions, f).Some? && Step(Run(s, actions, f).value, a, f).Some?
    ensures Run(s, actions + [a], f).Some?
    ensures t == Run(s, actions + [a], f).value == Step(Run(s, actions, f).value, a, f).value
    decreases |actions|
  {
    if actions == [] {
      assert actions + [a] == [a] && [a][1..] == [];
      t := Step(s, a, f).value;
      assert Run(t, [], f) == Some(t);
    } else {
      assert (actions + [a])[1..] == actions[1..] + [a];
      t := RunThen(Step(s, actions[0], f).value, actions[1..], a, f);
    }
  }

  // ----------------------------------------------------------------- class

  lemma SentAt(sent: seq<Sent>, id: nat, i: nat)
    requires i <= |sent| && (i < |sent| ==> sent[i].id == id) && forall j :: 0 <= j < i ==> sent[j].id != id
    ensures Find(SentIds(sent), id) == i
  {
    FindIs(SentIds(sent), id, i);
  }

  // The queues as the code holds and updates them.
  class AndroidAudioInput {
    var free: seq<Chunk>
    var requests: seq<Chunk>
    var responses: seq<MicData>
    var sent: seq<Sent>
    var exit: bool
    var mio: Mio
    var joining: Joining
    var threadStarted: bool
    var ended: nat
    var timeStamp: nat
    var threads: seq<Thread>
    const format: Format
    ghost var lost: seq<Chunk>
    ghost var captured: seq<MicData>
    ghost var delivered: seq<MicData>
    ghost var dropped: seq<MicData>
    ghost var frames: nat

    ghost function View(): State
      reads this
    {
      State(free, requests, threads, responses, sent, exit, mio, joining, threadStarted, ended, timeStamp,
            lost, captured, delivered, dropped, frames)
    }

    constructor (f: Format)
      ensures View() == INITIAL && format == f
    {
      free, requests, responses, sent := [0, 1, 2, 3], [], [], [];
      exit, mio, joining, threadStarted, ended, timeStamp := false, Initialized, NotJoining, false, 0, 0;
      threads, lost, captured, delivered, dropped, frames := [], [], [], [], [], 0;
      format := f;
    }

    method DoStart(start: Start)
      requires joining.NotJoining? && (mio.Initialized? || mio.Paused?)
      modifies this
      ensures Some(View()) == Step(old(View()), Action.DoStart(start), format)
    {
      threadStarted := false;
      if start.NoThread? { return; }
      threads := threads + [if start.Works? then AtTop else Failed];
      threadStarted := true;
      if start.NoRecorder? { return; }
      mio := Started;
    }

    method DoPause()
      requires joining.NotJoining? && mio.Started?
      modifies this
      ensures Some(View()) == Step(old(View()), Action.DoPause, format)
    {
      exit := true;
      mio := Paused;
    }

    // Up to the wait, if there is one.
    method DoStop()
      requires joining.NotJoining? && (mio.Started? || mio.Paused?)
      modifies this
      ensures Some(View()) == Step(old(View()), Action.DoStop, format)
    {
      exit := true;
      mio := Stopped;
      if threadStarted { joining := ForStop; }
    }

    // Up to the wait; without one the queues are cleared at once.
    method DoReset()
      requires joining.NotJoining?
      modifies this
      ensures Some(View()) == Step(old(View()), Action.DoReset, format)
    {
      exit := true;
      if threadStarted {
        joining := ForReset;
      } else {
        hide ReturnQueues;
        ClearQueues();
      }
    }

    method DoRead()
      requires joining.NotJoining?
      modifies this
      ensures Some(View()) == Step(old(View()), Action.DoRead, format)
    {
      if mio != Started { return; }
      if free == [] { return; }
      var data := free[|free| - 1];
      free := free[..|free| - 1];
      requests := requests + [data];
    }

    // The capture thread's locked section.
    method Take(t: nat)
      requires t < |threads| && threads[t].Armed?
      modifies this
      ensures Some(View()) == Step(old(View()), Action.Take(t), format)
    {
      if requests == [] {
        threads := threads[t := AtTop];
        return;
      }
      var data := requests[0];
      requests := requests[1..];
      threads := threads[t := Holding(data)];
    }

    // What the thread does with the count that reading the device gave it.
    method AfterRead(t: nat, numOfBytes: int)
      requires t < |threads| && threads[t].Holding? && numOfBytes <= BUFFER_SIZE
      modifies this
      ensures Some(View()) ==
        Step(old(View()), if numOfBytes <= 0 then ReadFails(t) else ReadGives(t, numOfBytes), format)
    {
      if numOfBytes <= 0 {
        lost := lost + [threads[t].chunk];
        threads := threads[t := Ended];
        ended := ended + 1;
        return;
      }
      hide Captured;
      QueueMicData(t, numOfBytes);
    }

    method QueueMicData(t: nat, bytes: nat)
      requires t < |threads| && threads[t].Holding?
      modifies this`responses, this`captured, this`timeStamp, this`frames, this`threads
      ensures View() == Captured(old(View()), t, bytes, format)
    {
      var dataDuration := Duration(bytes, format);
      var micdata := MicData(threads[t].chunk, bytes, timeStamp, dataDuration);
      hide Duration;
      responses := responses + [micdata];
      captured := captured + [micdata];
      timeStamp := timeStamp + dataDuration;
      frames := frames + Frames(bytes, format);
      threads := threads[t := AtTop];
    }

    method SendMicData(accepted: bool, id: nat)
      requires joining.NotJoining?
      modifies this
      ensures Some(View()) == Step(old(View()), Action.SendMicData(accepted, id), format)
    {
      if mio != Started { return; }
      if responses == [] { return; }
      var data := responses[0];
      if !accepted { return; }
      delivered := delivered + [data];
      responses := responses[1..];
      sent := sent + [Sent(id, data.chunk)];
    }

    method WriteComplete(success: bool, id: nat)
      requires joining.NotJoining?
      modifies this
      ensures Some(View()) == Step(old(View()), Action.WriteComplete(success, id), format)
    {
      hide SentIds, Find;
      if !success { return; }
      var it := 0;
      while it < |sent|
        invariant 0 <= it <= |sent| && View() == old(View())
        invariant forall j :: 0 <= j < it ==> sent[j].id != id
      {
        if sent[it].id == id {
          SentAt(sent, id, it);
          free := free + [sent[it].chunk];
          sent := sent[..it] + sent[it + 1..];
          return;
        }
        it := it + 1;
      }
      SentAt(sent, id, it);
    }

    // The end of DoReset, once no thread needs to be waited for.
    method ClearQueues()
      modifies this
      ensures View() == ReturnQueues(old(View()))
    {
      ReturnRequests();
      ReturnResponses();
      mio := Idle;
    }

    method ReturnRequests()
      modifies this
      ensures View() == old(View()).(free := old(free) + old(requests), requests := [])
    {
      while requests != []
        invariant View() == old(View()).(free := free, requests := requests)
        invariant free + requests == old(free) + old(requests)
        decreases |requests|
      {
        var data := requests[0];
        free := free + [data];
        requests := requests[1..];
      }
    }

    method ReturnResponses()
      modifies this
      ensures View() == old(View()).(free := old(free) + Chunks(old(responses)), responses := [],
                                     dropped := old(dropped) + old(responses))
    {
      while responses != []
        invariant View() == old(View()).(free := free, responses := responses, dropped := dropped)
        invariant free + Chunks(responses) == old(free) + Chunks(old(responses))
        invariant dropped + responses == old(dropped) + old(responses)
        decreases |responses|
      {
        var micdata := responses[0];
        assert Chunks(responses) == [micdata.chunk] + Chunks(responses[1..]);
        free := free + [micdata.chunk];
        dropped := dropped + [micdata];
        responses := responses[1..];
      }
    }
  }
}
