// Ownership of the camera's frames in AndroidCameraInput
// (android_camera_input.cpp).  The camera's callback thread stamps frames and
// queues them; the media I/O thread writes queued frames to the peer and gives
// them back to the camera when the peer is done.  A frame the callback has
// tested but not queued yet is held, since the queue's lock is taken only then.
module CameraFrames {
  import opened Counting

  datatype Frame = Frame(id: nat, heap: nat)

  // A queued frame with its sequence number and timestamp.
  datatype MediaData = MediaData(frame: Frame, seqNum: nat, timestamp: nat)

  // What was stamped since the last stop: the stamp of the first queued frame,
  // the times of the frames stamped after it, the stamps of those queued, and
  // how many were stranded since the last of them.
  datatype Recording = Recording(first: nat, times: seq<nat>, stamps: seq<nat>, gap: nat)

  const NO_FRAMES := Recording(0, [], [], 0)

  datatype State = State(
    queue: seq<MediaData>,       // iFrameQueue
    sent: seq<MediaData>,        // iSentMediaData
    held: Option<MediaData>,
    frameRefCount: int,          // mFrameRefCount
    heap: Option<nat>,           // mHeap
    counter: nat,                // iDataEventCounter
    timeStamp: nat,              // iTimeStamp
    firstTs: nat,                // iAudioFirstFrameTs
    busy: bool,                  // iWriteState == EWriteBusy
    // history
    given: seq<Frame>,
    released: seq<Frame>,
    stranded: seq<Frame>,
    recording: Recording)

  // What the peer's writeAsync does: takes the buffer, leaves with the busy
  // error, or fails in another way (as does a null pointer).
  datatype Outcome = Accepted | Busy | Failed

  // ready: there is a peer, the recorder is starting or started, and the
  // author clock runs.
  datatype Action =
    | Post(frame: Frame, ts: nat, ready: bool)
    | Push
    | Write(outcome: Outcome)
    | WriteComplete
    | Start
    | Stop
    | ClearBusy
    | ClockRuns(now: nat)

  const START := State([], [], None, 0, None, 0, 0, 0, false, [], [], [], NO_FRAMES)

  // The stamp after one of value prev for a frame taken at time ts.
  function Stamp(prev: nat, ts: nat): nat
  {
    if prev != ts then ts else (prev + 1) % 0x1_0000_0000
  }

  function Frames(d: seq<MediaData>): (r: seq<Frame>)
    ensures |r| == |d|
  {
    if d == [] then [] else [d[0].frame] + Frames(d[1..])
  }

  // postWriteAsync up to taking the lock.
  function Posted(s: State, f: Frame, ts: nat, ready: bool): State
  {
    var r := s.(given := s.given + [f]);
    if !ready || s.busy then r.(released := s.released + [f])
    else
      var t := r.(firstTs := if s.firstTs == 0 then ts else s.firstTs);
      if ts < t.firstTs then t.(released := s.released + [f])
      else Admitted(t, f, ts - t.firstTs)
  }

  // A frame in time is stamped and its heap compared.
  function Admitted(s: State, f: Frame, offset: nat): State
  {
    var stamp := if s.counter != 0 then Stamp(s.timeStamp, offset) else s.timeStamp;
    var r := if s.counter != 0 then s.recording.(times := s.recording.times + [offset]) else s.recording;
    var t := s.(timeStamp := stamp);
    if s.heap.Some? && s.heap.value != f.heap then
      t.(stranded := s.stranded + [f], recording := r.(gap := r.gap + 1))
    else
      t.(heap := Some(f.heap), counter := s.counter + 1, held := Some(MediaData(f, s.counter, stamp)),
         recording := r.(first := if s.counter != 0 then r.first else stamp, stamps := r.stamps + [stamp], gap := 0))
  }

  // One frame from the head of the queue.
  function Written(s: State, outcome: Outcome): State
    requires s.queue != []
  {
    var t := s.(queue := s.queue[1..]);
    if outcome.Accepted? then t.(sent := s.sent + [s.queue[0]], frameRefCount := s.frameRefCount + 1)
    else t.(released := s.released + [s.queue[0].frame], busy := s.busy || outcome.Busy?)
  }

  function Completed(s: State): State
  {
    if s.sent == [] then s else
      var n := if s.frameRefCount != 0 then s.frameRefCount - 1 else 0;
      s.(sent := s.sent[1..], released := s.released + [s.sent[0].frame],
         frameRefCount := if n <= 0 then 0 else n, heap := if n <= 0 then None else s.heap)
  }

  function Step(s: State, a: Action): Option<State>
  {
    match a
    case Post(f, ts, ready) =>
      if s.held.Some? || f in s.given then None else Some(Posted(s, f, ts, ready))
    case Push =>
      if s.held.None? then None else Some(s.(queue := s.queue + [s.held.value], held := None))
    case Write(outcome) =>
      if s.queue == [] then None else Some(Written(s, outcome))
    case WriteComplete =>
      Some(Completed(s))
    case Start =>
      Some(s.(firstTs := 0, busy := false))
    case Stop =>
      Some(s.(counter := 0, busy := false, queue := [], released := s.released + Frames(s.queue),
              recording := NO_FRAMES))
    case ClearBusy =>
      Some(s.(busy := false))
    case ClockRuns(now) =>
      Some(if s.firstTs == 0 then s.(firstTs := now) else s)
  }

  function Run(s: State, actions: seq<Action>): Option<State>
    decreases |actions|
  {
    if actions == [] then Some(s) else
      var t := Step(s, actions[0]);
      if t.None? then None else Run(t.value, actions[1..])
  }

  // ------------------------------------------------------------ conservation

  lemma {:induction false} FramesPush(d: seq<MediaData>, e: MediaData)
    ensures Frames(d + [e]) == Frames(d) + [e.frame]
  {
    if d == [] {
      assert d + [e] == [e];
    } else {
      assert (d + [e])[1..] == d[1..] + [e];
      FramesPush(d[1..], e);
    }
  }

  lemma CountFirst(d: seq<MediaData>, f: Frame)
    requires d != []
    ensures Count(Frames(d), f) == Count(Frames(d[1..]), f) + if d[0].frame == f then 1 else 0
  {
    assert Frames(d)[1..] == Frames(d[1..]);
  }

  // How often a frame is somewhere.
  function Places(s: State, f: Frame): nat
  {
    Count(Frames(s.queue), f) + Count(Frames(s.sent), f) + (if s.held.Some? && s.held.value.frame == f then 1 else 0)
    + Count(s.released, f) + Count(s.stranded, f)
  }

  ghost predicate Kept(s: State, f: Frame)
  {
    Count(s.given, f) == Places(s, f)
  }

  lemma PostKeeps(s: State, g: Frame, ts: nat, ready: bool, f: Frame)
    requires Kept(s, f) && s.held.None?
    ensures Kept(Posted(s, g, ts, ready), f)
  {
    CountPush(s.given, g, f);
    CountPush(s.released, g, f);
    CountPush(s.stranded, g, f);
    hide Count, Frames, Stamp;
  }

  lemma WriteKeeps(s: State, outcome: Outcome, f: Frame)
    requires Kept(s, f) && s.queue != []
    ensures Kept(Written(s, outcome), f)
  {
    CountFirst(s.queue, f);
    CountPush(s.released, s.queue[0].frame, f);
    FramesPush(s.sent, s.queue[0]);
    CountPush(Frames(s.sent), s.queue[0].frame, f);
    hide Count, Frames;
  }

  lemma CompleteKeeps(s: State, f: Frame)
    requires Kept(s, f)
    ensures Kept(Completed(s), f)
  {
    if s.sent != [] {
      CountFirst(s.sent, f);
      CountPush(s.released, s.sent[0].frame, f);
    }
    hide Count, Frames;
  }

  lemma StepKeeps(s: State, a: Action, f: Frame)
    requires Kept(s, f) && Step(s, a).Some?
    ensures Kept(Step(s, a).value, f)
  {
    match a
    case Post(g, ts, ready) => PostKeeps(s, g, ts, ready, f);
    case Push =>
      FramesPush(s.queue, s.held.value);
      CountPush(Frames(s.queue), s.held.value.frame, f);
      hide Count, Frames;
    case Write(outcome) => WriteKeeps(s, outcome, f);
    case WriteComplete => CompleteKeeps(s, f);
    case Stop =>
      CountAppend(s.released, Frames(s.queue), f);
      assert Frames([]) == [];
    case _ =>
      hide Count, Frames;
  }

  ghost predicate Inv(s: State)
  {
    && (forall f :: Kept(s, f))
    && (forall f :: Count(s.given, f) <= 1)
    && s.frameRefCount == |s.sent|
  }

  lemma StepKeepsOnce(s: State, a: Action, f: Frame)
    requires Count(s.given, f) <= 1 && Step(s, a).Some?
    ensures Count(Step(s, a).value.given, f) <= 1
  {
    if a.Post? {
      CountPush(s.given, a.frame, f);
      CountAbsent(s.given, f);
    }
    hide Count;
  }

  lemma StepKeepsRefCount(s: State, a: Action)
    requires s.frameRefCount == |s.sent| && Step(s, a).Some?
    ensures var t := Step(s, a).value; t.frameRefCount == |t.sent|
  {}

  lemma {:induction false} RunKeepsInv(s: State, actions: seq<Action>)
    requires Inv(s) && Run(s, actions).Some?
    ensures Inv(Run(s, actions).value)
    decreases |actions|
  {
    if actions != [] {
      var a := actions[0];
      var t := Step(s, a).value;
      StepKeepsRefCount(s, a);
      forall f ensures Kept(t, f) && Count(t.given, f) <= 1 {
        StepKeeps(s, a, f);
        StepKeepsOnce(s, a, f);
      }
      hide Step, Kept, Count;
      RunKeepsInv(t, actions[1..]);
    }
  }

  // However the two threads interleave, a frame the camera handed over is in
  // exactly one place, is given back at most once, and the reference count is
  // the number of frames the peer has.
  lemma Conservation(actions: seq<Action>, f: Frame)
    requires Run(START, actions).Some?
    ensures var s := Run(START, actions).value;
            && Places(s, f) == (if f in s.given then 1 else 0)
            && Count(s.released, f) <= 1
            && s.frameRefCount == |s.sent|
  {
    RunKeepsInv(START, actions);
    var s := Run(START, actions).value;
    assert Kept(s, f);
    CountAbsent(s.given, f);
    hide Run, Count, Frames;
  }

  // Nothing is left with the driver once queue and peer are empty, except what
  // a change of heap stranded.
  lemma AllBack(actions: seq<Action>, f: Frame)
    requires Run(START, actions).Some?
    requires var s := Run(START, actions).value; s.queue == [] && s.sent == [] && s.held.None? && f in s.given
    ensures var s := Run(START, actions).value; Count(s.released, f) + Count(s.stranded, f) == 1
  {
    Conservation(actions, f);
    assert Frames([]) == [];
    hide Run, Frames;
  }

  // ------------------------------------------------------------- timestamps

  // The stamps of a recording's frames after the first, taken at these times.
  function Stamps(prev: nat, times: seq<nat>): (r: seq<nat>)
    ensures |r| == |times|
    decreases |times|
  {
    if times == [] then [] else
      var stamp := Stamp(prev, times[0]);
      [stamp] + Stamps(stamp, times[1..])
  }

  ghost predicate Increasing(q: seq<nat>)
  {
    forall i :: 0 <= i < |q| - 1 ==> q[i] < q[i + 1]
  }

  // No two frames that follow each other have the same stamp.
  lemma {:induction false} StampsDiffer(prev: nat, times: seq<nat>)
    ensures forall i :: 0 <= i < |times| ==> ([prev] + Stamps(prev, times))[i] != Stamps(prev, times)[i]
    decreases |times|
  {
    if times != [] {
      var stamp := Stamp(prev, times[0]);
      StampsDiffer(stamp, times[1..]);
      assert [prev] + Stamps(prev, times) == [prev] + ([stamp] + Stamps(stamp, times[1..]));
    }
  }

  // They grow exactly when each time is at least the stamp before.
  lemma {:induction false} StampsIncrease(prev: nat, times: seq<nat>)
    requires prev < 0xFFFF_FFFF && forall i :: 0 <= i < |times| ==> times[i] < 0xFFFF_FFFF - |times|
    requires prev + |times| < 0xFFFF_FFFF
    ensures Increasing([prev] + Stamps(prev, times)) <==>
            forall i :: 0 <= i < |times| ==> times[i] >= ([prev] + Stamps(prev, times))[i]
    decreases |times|
  {
    if times != [] {
      var stamp := Stamp(prev, times[0]);
      var tail := [stamp] + Stamps(stamp, times[1..]);
      StampsIncrease(stamp, times[1..]);
      assert Stamps(prev, times) == tail;
      IncreasingFrom(prev, tail);
      NotBefore(prev, times);
    }
  }

  lemma IncreasingFrom(prev: nat, tail: seq<nat>)
    requires tail != []
    ensures Increasing([prev] + tail) <==> prev < tail[0] && Increasing(tail)
  {
    var all := [prev] + tail;
    assert all[1..] == tail;
    if Increasing(all) {
      assert all[0] < all[1];
      forall i | 0 <= i < |tail| - 1 ensures tail[i] < tail[i + 1] { assert all[i + 1] < all[i + 2]; }
    }
  }

  lemma NotBefore(prev: nat, times: seq<nat>)
    requires times != []
    ensures var stamp := Stamp(prev, times[0]);
            (forall i :: 0 <= i < |times| ==> times[i] >= ([prev] + Stamps(prev, times))[i]) <==>
            times[0] >= prev &&
            forall i :: 0 <= i < |times| - 1 ==> times[1..][i] >= ([stamp] + Stamps(stamp, times[1..]))[i]
  {
    var stamp := Stamp(prev, times[0]);
    var all, tail := [prev] + Stamps(prev, times), [stamp] + Stamps(stamp, times[1..]);
    assert forall i :: 0 <= i < |tail| ==> tail[i] == all[i + 1];
    assert all[0] == prev;
    if forall i :: 0 <= i < |times| ==> times[i] >= all[i] {
      forall i | 0 <= i < |times| - 1 ensures times[1..][i] >= tail[i] { assert times[i + 1] >= all[i + 1]; }
    }
    if times[0] >= prev && forall i :: 0 <= i < |times| - 1 ==> times[1..][i] >= tail[i] {
      forall i | 0 <= i < |times| ensures times[i] >= all[i] {
        if i > 0 { assert times[1..][i - 1] >= tail[i - 1]; }
      }
    }
  }

  // A time that repeats the one before it pushes its stamp a millisecond ahead,
  // and it stays ahead until the times take a step of two.
  predicate Repeat(q: seq<nat>, i: nat)
  {
    i + 1 < |q| && q[i] == q[i + 1]
  }

  predicate Jump(q: seq<nat>, i: nat)
  {
    i + 1 < |q| && q[i] + 2 <= q[i + 1]
  }

  ghost predicate NeverBack(q: seq<nat>)
  {
    forall i :: 0 <= i < |q| - 1 ==> q[i] <= q[i + 1]
  }

  ghost predicate JumpsBetween(q: seq<nat>)
  {
    forall i: nat, j: nat :: i < j && Repeat(q, i) && Repeat(q, j) ==> exists k: nat :: i < k < j && Jump(q, k)
  }

  // The times never go back, and between two repeats there is a step of two.
  ghost predicate Spaced(q: seq<nat>)
  {
    NeverBack(q) && JumpsBetween(q)
  }

  // The same, one time after the other; ahead says that the last stamp is a
  // millisecond ahead of its time.
  predicate Rises(last: nat, ahead: bool, times: seq<nat>)
    decreases |times|
  {
    times == [] ||
    var stamp := if ahead then last + 1 else last;
    times[0] >= stamp && Rises(times[0], times[0] == stamp, times[1..])
  }

  lemma {:induction false} RisesIncrease(last: nat, ahead: bool, times: seq<nat>)
    requires (if ahead then last + 1 else last) + |times| < 0xFFFF_FFFF
    requires forall i :: 0 <= i < |times| ==> times[i] + |times| < 0xFFFF_FFFF
    ensures var stamp := if ahead then last + 1 else last;
            Rises(last, ahead, times) <==> Increasing([stamp] + Stamps(stamp, times))
    decreases |times|
  {
    if times != [] {
      var stamp := if ahead then last + 1 else last;
      var next := Stamp(stamp, times[0]);
      IncreasingFrom(stamp, [next] + Stamps(next, times[1..]));
      assert next > stamp <==> times[0] >= stamp;
      if times[0] >= stamp { RisesIncrease(times[0], times[0] == stamp, times[1..]); }
    }
  }

  lemma BackBehind(q: seq<nat>)
    requires |q| >= 2
    ensures NeverBack(q) <==> q[0] <= q[1] && NeverBack(q[1..])
  {
    if NeverBack(q) {
      forall i | 0 <= i < |q| - 2 ensures q[1..][i] <= q[1..][i + 1] { assert q[i + 1] <= q[i + 2]; }
    }
    if q[0] <= q[1] && NeverBack(q[1..]) {
      forall i | 0 <= i < |q| - 1 ensures q[i] <= q[i + 1] {
        if i > 0 { assert q[1..][i - 1] <= q[1..][i]; }
      }
    }
  }

  // Of n times in front, a repeat, if there is one, is answered by a jump.
  lemma JumpsBehind(q: seq<nat>, n: nat)
    requires 0 < n < |q| && n <= 2
    requires if n == 1 then !Repeat(q, 0) else !Repeat(q, 1) && Jump(q, 1)
    ensures JumpsBetween(q) <==> JumpsBetween(q[n..])
  {
    var t := q[n..];
    assert forall i: nat :: Repeat(t, i) <==> Repeat(q, i + n);
    assert forall i: nat :: Jump(t, i) <==> Jump(q, i + n);
    if JumpsBetween(q) {
      forall i: nat, j: nat | i < j && Repeat(t, i) && Repeat(t, j) ensures exists k: nat :: i < k < j && Jump(t, k) {
        assert Repeat(q, i + n) && Repeat(q, j + n);
        var k: nat :| i + n < k < j + n && Jump(q, k);
        assert Jump(t, k - n);
      }
    }
    if JumpsBetween(t) {
      forall i: nat, j: nat | i < j && Repeat(q, i) && Repeat(q, j) ensures exists k: nat :: i < k < j && Jump(q, k) {
        if i < n {
          assert i == 0 && n == 2 && j > 1;
        } else {
          assert Repeat(t, i - n) && Repeat(t, j - n);
          var k: nat :| i - n < k < j - n && Jump(t, k);
          assert Jump(q, k + n);
        }
      }
    }
  }

  // A repeat and a step of one are as good as a repeat one later.
  lemma RepeatMovesOn(p: nat, r: seq<nat>)
    ensures Spaced([p, p, p + 1] + r) <==> Spaced([p + 1, p + 1] + r)
  {
    var q, b := [p, p, p + 1] + r, [p + 1, p + 1] + r;
    assert q[1..][1..] == [p + 1] + r && b[1..] == [p + 1] + r;
    BackBehind(q);
    BackBehind(q[1..]);
    BackBehind(b);
    RepeatsMove(p, r);
    hide NeverBack, JumpsBetween;
  }

  lemma RepeatsMove(p: nat, r: seq<nat>)
    ensures JumpsBetween([p, p, p + 1] + r) <==> JumpsBetween([p + 1, p + 1] + r)
  {
    var q, b := [p, p, p + 1] + r, [p + 1, p + 1] + r;
    assert forall i: nat :: i >= 1 ==> (Repeat(b, i) <==> Repeat(q, i + 1));
    assert forall i: nat :: i >= 1 ==> (Jump(b, i) <==> Jump(q, i + 1));
    assert Repeat(q, 0) && !Repeat(q, 1) && !Jump(q, 0) && !Jump(q, 1) && Repeat(b, 0) && !Jump(b, 0);
    hide Repeat, Jump;
    if JumpsBetween(q) {
      forall i: nat, j: nat | i < j && Repeat(b, i) && Repeat(b, j) ensures exists k: nat :: i < k < j && Jump(b, k) {
        assert Repeat(q, j + 1) && Repeat(q, if i == 0 then 0 else i + 1);
        var k: nat :| (if i == 0 then 0 else i + 1) < k < j + 1 && Jump(q, k);
        assert k >= 2 && Jump(b, k - 1);
      }
    }
    if JumpsBetween(b) {
      forall i: nat, j: nat | i < j && Repeat(q, i) && Repeat(q, j) ensures exists k: nat :: i < k < j && Jump(q, k) {
        assert j >= 2 && Repeat(b, j - 1) && Repeat(b, if i == 0 then 0 else i - 1);
        var k: nat :| (if i == 0 then 0 else i - 1) < k < j - 1 && Jump(b, k);
        assert k >= 1 && Jump(q, k + 1);
      }
    }
  }

  lemma TwoRepeats(p: nat, r: seq<nat>)
    ensures !Spaced([p, p, p] + r)
  {
    var q := [p, p, p] + r;
    assert Repeat(q, 0) && Repeat(q, 1);
  }

  lemma Shorter(p: nat, x: nat, r: seq<nat>)
    ensures x < p ==> !Spaced([p, x] + r)
    ensures x > p ==> (Spaced([p, x] + r) <==> Spaced([x] + r))
    ensures x >= p + 2 ==> (Spaced([p, p, x] + r) <==> Spaced([x] + r))
    ensures x < p ==> !Spaced([p, p, x] + r)
  {
    var q, t := [p, x] + r, [p, p, x] + r;
    assert q[1..] == [x] + r && t[2..] == [x] + r && t[1..] == q;
    BackBehind(q);
    BackBehind(t);
    if x > p { JumpsBehind(q, 1); }
    if x >= p + 2 { JumpsBehind(t, 2); }
    hide NeverBack, JumpsBetween;
  }

  lemma {:induction false} RisesSpaced(last: nat, ahead: bool, times: seq<nat>)
    ensures Rises(last, ahead, times) <==> Spaced((if ahead then [last, last] else [last]) + times)
    decreases |times|
  {
    if times == [] {
      assert [last, last] + times == [last, last] && [last] + times == [last];
    } else {
      var x, r := times[0], times[1..];
      assert times == [x] + r;
      assert [last] + times == [last, x] + r && [last, last] + times == [last, last, x] + r;
      Shorter(last, x, r);
      if x == last && ahead { TwoRepeats(last, r); }
      if x == last + 1 && ahead { RepeatMovesOn(last, r); }
      var stamp := if ahead then last + 1 else last;
      if x >= stamp { RisesSpaced(x, x == stamp, r); }
      hide Spaced;
    }
  }

  lemma StrictIsSpaced(prev: nat, times: seq<nat>)
    requires Increasing(times) && (times != [] ==> times[0] >= prev)
    ensures Spaced([prev] + times)
  {
    var q := [prev] + times;
    forall i | 0 <= i < |q| - 1 ensures q[i] <= q[i + 1] && (i > 0 ==> q[i] < q[i + 1]) {
      if i > 0 { assert times[i - 1] < times[i]; }
    }
  }

  // The condition on the times alone.
  lemma SpacedIncrease(prev: nat, times: seq<nat>)
    requires prev + |times| < 0xFFFF_FFFF && forall i :: 0 <= i < |times| ==> times[i] + |times| < 0xFFFF_FFFF
    ensures Increasing([prev] + Stamps(prev, times)) <==> Spaced([prev] + times)
  {
    RisesIncrease(prev, false, times);
    RisesSpaced(prev, false, times);
    hide Spaced, Increasing, Stamps, Rises;
  }

  lemma {:induction false} StampsPush(prev: nat, times: seq<nat>, x: nat)
    ensures Stamps(prev, times + [x]) == Stamps(prev, times) + [Stamp(([prev] + Stamps(prev, times))[|times|], x)]
    decreases |times|
  {
    if times == [] {
      assert times + [x] == [x] && [x][1..] == [];
      assert Stamps(Stamp(prev, x), []) == [];
    } else {
      var stamp := Stamp(prev, times[0]);
      assert (times + [x])[1..] == times[1..] + [x] && (times + [x])[0] == times[0];
      StampsPush(stamp, times[1..], x);
      assert ([prev] + Stamps(prev, times))[|times|] == ([stamp] + Stamps(stamp, times[1..]))[|times| - 1];
    }
  }

  // The machine's stamps, frames stranded or not, are Stamps of the capture
  // times; those queued are all of them as long as none is stranded.
  ghost predicate Tracked(s: State)
  {
    var r := s.recording;
    && |r.stamps| == s.counter
    && |r.stamps| <= |r.times| + 1
    && (s.counter == 0 ==> r.times == [])
    && (s.counter > 0 ==> s.timeStamp == ([r.first] + Stamps(r.first, r.times))[|r.times|])
    && (s.counter > 0 && r.gap == 0 ==> s.timeStamp == r.stamps[|r.stamps| - 1])
    && (s.counter > 0 && |r.stamps| == |r.times| + 1 ==> r.stamps == [r.first] + Stamps(r.first, r.times) && r.gap == 0)
    && (s.stranded == [] && s.counter > 0 ==> |r.stamps| == |r.times| + 1)
  }

  lemma AdmitKeepsTracked(s: State, f: Frame, offset: nat)
    requires Tracked(s)
    ensures Tracked(Admitted(s, f, offset))
  {
    var r := s.recording;
    if s.counter > 0 {
      StampsPush(r.first, r.times, offset);
      var all := [r.first] + Stamps(r.first, r.times);
      assert [r.first] + Stamps(r.first, r.times + [offset]) == all + [Stamp(all[|r.times|], offset)];
    } else {
      assert Stamps(s.timeStamp, []) == [];
    }
    hide Stamps, Stamp;
  }

  lemma StepKeepsTracked(s: State, a: Action)
    requires Tracked(s) && Step(s, a).Some?
    ensures Tracked(Step(s, a).value)
  {
    if a.Post? {
      var first := if s.firstTs == 0 then a.ts else s.firstTs;
      if a.ready && !s.busy && a.ts >= first {
        AdmitKeepsTracked(s.(given := s.given + [a.frame], firstTs := first), a.frame, a.ts - first);
      }
    }
    hide Frames, Stamps, Admitted;
  }

  lemma {:induction false} RunKeepsTracked(s: State, actions: seq<Action>)
    requires Tracked(s) && Run(s, actions).Some?
    ensures Tracked(Run(s, actions).value)
    decreases |actions|
  {
    if actions != [] {
      StepKeepsTracked(s, actions[0]);
      hide Step, Tracked;
      RunKeepsTracked(Step(s, actions[0]).value, actions[1..]);
    }
  }

  lemma MachineStamps(actions: seq<Action>)
    requires Run(START, actions).Some?
    ensures var s := Run(START, actions).value; var r := s.recording;
            && |r.stamps| <= |r.times| + 1
            && (s.stranded == [] && r.stamps != [] ==> |r.stamps| == |r.times| + 1)
            && (|r.stamps| == |r.times| + 1 ==> r.stamps == [r.first] + Stamps(r.first, r.times))
  {
    RunKeepsTracked(START, actions);
    hide Run, Stamps;
  }

  // ------------------------------------------------- what the frames carry

  // The frames on their way to the peer, oldest first.
  function Line(s: State): seq<MediaData>
  {
    s.queue + (if s.held.Some? then [s.held.value] else [])
  }

  // The frames that leave the queue, written or given back.
  function Leaves(s: State, a: Action): seq<MediaData>
  {
    match a
    case Write(_) => if s.queue != [] then [s.queue[0]] else []
    case Stop => s.queue
    case _ => []
  }

  function Left(s: State, actions: seq<Action>): seq<MediaData>
    requires Run(s, actions).Some?
    decreases |actions|
  {
    if actions == [] then [] else Leaves(s, actions[0]) + Left(Step(s, actions[0]).value, actions[1..])
  }

  // The last of them are those admitted since the last stop, numbered from 0,
  // each with the stamp it was given.
  ghost predicate Carries(all: seq<MediaData>, stamps: seq<nat>)
  {
    |stamps| <= |all| && forall k :: 0 <= k < |stamps| ==> CarriesAt(all, stamps, k)
  }

  predicate CarriesAt(all: seq<MediaData>, stamps: seq<nat>, k: nat)
    requires k < |stamps| <= |all|
  {
    var d := all[|all| - |stamps| + k];
    d.seqNum == k && d.timestamp == stamps[k]
  }

  // Of the frames from before the stop, only the one held then is still there.
  ghost predicate Carrying(s: State, left: seq<MediaData>)
  {
    && Carries(left + Line(s), s.recording.stamps)
    && |Line(s)| <= |s.recording.stamps| + 1
    && |s.recording.stamps| == s.counter
  }

  lemma CarriesPush(all: seq<MediaData>, stamps: seq<nat>, d: MediaData)
    requires Carries(all, stamps) && d.seqNum == |stamps|
    ensures Carries(all + [d], stamps + [d.timestamp])
  {
    forall k | 0 <= k < |stamps| ensures CarriesAt(all + [d], stamps + [d.timestamp], k) {
      assert CarriesAt(all, stamps, k);
    }
  }

  lemma AdmitCarries(s: State, f: Frame, offset: nat, left: seq<MediaData>)
    requires Carrying(s, left) && s.held.None?
    ensures Carrying(Admitted(s, f, offset), left)
  {
    var t := Admitted(s, f, offset);
    hide Stamp;
    if t.held.Some? {
      CarriesPush(left + Line(s), s.recording.stamps, t.held.value);
      assert left + Line(t) == (left + Line(s)) + [t.held.value];
    }
    hide Carries;
  }

  lemma PostCarries(s: State, f: Frame, ts: nat, ready: bool, left: seq<MediaData>)
    requires Carrying(s, left) && s.held.None?
    ensures Carrying(Posted(s, f, ts, ready), left)
  {
    var first := if s.firstTs == 0 then ts else s.firstTs;
    if ready && !s.busy && ts >= first {
      AdmitCarries(s.(given := s.given + [f], firstTs := first), f, ts - first, left);
    }
    hide Admitted, Carries;
  }

  lemma StepCarries(s: State, a: Action, left: seq<MediaData>)
    requires Carrying(s, left) && Step(s, a).Some?
    ensures Carrying(Step(s, a).value, left + Leaves(s, a))
  {
    var t := Step(s, a).value;
    hide Posted, Completed, Frames;
    assert left + [] == left;
    match a
    case Post(f, ts, ready) => PostCarries(s, f, ts, ready, left);
    case Write(_) => assert (left + Leaves(s, a)) + Line(t) == left + Line(s); hide Carries;
    case Push => assert Line(t) == Line(s); hide Carries;
    case Stop =>
    case WriteComplete => CompletedKeepsLine(s); hide Carries;
    case _ => hide Carries;
  }

  lemma CompletedKeepsLine(s: State)
    ensures var t := Completed(s); Line(t) == Line(s) && t.recording == s.recording && t.counter == s.counter
  {}

  lemma {:induction false} RunCarries(s: State, actions: seq<Action>, left: seq<MediaData>)
    requires Carrying(s, left) && Run(s, actions).Some?
    ensures Carrying(Run(s, actions).value, left + Left(s, actions))
    decreases |actions|
  {
    hide Step, Carrying, Leaves;
    if actions == [] {
      assert left + [] == left;
    } else {
      StepCarries(s, actions[0], left);
      var t := Step(s, actions[0]).value;
      RunCarries(t, actions[1..], left + Leaves(s, actions[0]));
      assert (left + Leaves(s, actions[0])) + Left(t, actions[1..]) == left + Left(s, actions);
    }
  }

  // Over every run: the frames that left the queue, then those in it and the
  // one held, are in the order they were stamped, and those admitted since the
  // last stop carry their numbers and the stamps of the recording.
  lemma FramesCarryStamps(actions: seq<Action>)
    requires Run(START, actions).Some?
    ensures var s := Run(START, actions).value;
            Carries(Left(START, actions) + Line(s), s.recording.stamps) && |Line(s)| <= |s.recording.stamps| + 1
  {
    RunCarries(START, actions, []);
    assert [] + Left(START, actions) == Left(START, actions);
    hide Run, Carries;
  }

  // Two neighbours of the line are neighbours of the recording, unless a stop
  // came between them and the second is the first of a new recording.
  lemma Neighbours(actions: seq<Action>, i: nat)
    requires Run(START, actions).Some?
    requires var line := Line(Run(START, actions).value); i + 1 < |line| && line[i + 1].seqNum > 0
    ensures var s := Run(START, actions).value; var line, stamps := Line(s), s.recording.stamps;
      && line[i].seqNum + 1 == line[i + 1].seqNum < |stamps|
      && line[i].timestamp == stamps[line[i].seqNum] && line[i + 1].timestamp == stamps[line[i + 1].seqNum]
  {
    FramesCarryStamps(actions);
    var s := Run(START, actions).value;
    hide Run, Left;
    InLine(Left(START, actions), Line(s), s.recording.stamps, i);
  }

  lemma InLine(left: seq<MediaData>, line: seq<MediaData>, stamps: seq<nat>, i: nat)
    requires Carries(left + line, stamps) && |line| <= |stamps| + 1 && i + 1 < |line| && line[i + 1].seqNum > 0
    ensures line[i].seqNum + 1 == line[i + 1].seqNum < |stamps|
    ensures line[i].timestamp == stamps[line[i].seqNum] && line[i + 1].timestamp == stamps[line[i + 1].seqNum]
  {
    var all := left + line;
    var k := |left| + i + 1 - (|all| - |stamps|);
    assert all[|left| + i] == line[i] && all[|left| + i + 1] == line[i + 1];
    assert CarriesAt(all, stamps, k);
    assert CarriesAt(all, stamps, k - 1);
  }

  // As long as no frame has been stranded since the first of a recording, no
  // two frames that follow each other in it carry the same stamp,
  lemma QueuedStampsDiffer(actions: seq<Action>, i: nat)
    requires Run(START, actions).Some?
    requires var s := Run(START, actions).value;
             s.stranded == [] || |s.recording.stamps| == |s.recording.times| + 1
    requires var line := Line(Run(START, actions).value); i + 1 < |line| && line[i + 1].seqNum > 0
    ensures var line := Line(Run(START, actions).value); line[i].timestamp != line[i + 1].timestamp
  {
    MachineStamps(actions);
    Neighbours(actions, i);
    var s := Run(START, actions).value;
    var r := s.recording;
    StampsDiffer(r.first, r.times);
    hide Run, Stamps, Line;
  }

  // and the stamps grow exactly when each capture time is at least the stamp
  // before it; in terms of the times alone, when from the first stamp on they
  // never go back and take a step of two between any two repeats.
  lemma QueuedStampsIncrease(actions: seq<Action>)
    requires Run(START, actions).Some?
    requires var r := Run(START, actions).value.recording;
             && |r.stamps| == |r.times| + 1 && r.first + |r.times| < 0xFFFF_FFFF
             && forall i :: 0 <= i < |r.times| ==> r.times[i] < 0xFFFF_FFFF - |r.times|
    ensures var r := Run(START, actions).value.recording;
            && (Increasing(r.stamps) <==> forall i :: 0 <= i < |r.times| ==> r.times[i] >= r.stamps[i])
            && (Increasing(r.stamps) <==> Spaced([r.first] + r.times))
            && (Increasing(r.times) && (r.times != [] ==> r.times[0] >= r.first) ==> Increasing(r.stamps))
  {
    MachineStamps(actions);
    var r := Run(START, actions).value.recording;
    hide Run;
    StampsIncrease(r.first, r.times);
    SpacedIncrease(r.first, r.times);
    if Increasing(r.times) && (r.times != [] ==> r.times[0] >= r.first) { StrictIsSpaced(r.first, r.times); }
    hide Spaced, Increasing;
  }

  // And the frames on their way grow with them.
  lemma LineIncreases(actions: seq<Action>, i: nat)
    requires Run(START, actions).Some? && Increasing(Run(START, actions).value.recording.stamps)
    requires var line := Line(Run(START, actions).value); i + 1 < |line| && line[i + 1].seqNum > 0
    ensures var line := Line(Run(START, actions).value); line[i].timestamp < line[i + 1].timestamp
  {
    Neighbours(actions, i);
    var s := Run(START, actions).value;
    var stamps, k := s.recording.stamps, Line(s)[i].seqNum;
    hide Run, Line;
    assert stamps[k] < stamps[k + 1];
  }

  // The peer is done with frames in the order it took them.
  function Accepts(s: State, a: Action): seq<MediaData>
  {
    if a == Write(Accepted) then Leaves(s, a) else []
  }

  function Returns(s: State, a: Action): seq<MediaData>
  {
    if a.WriteComplete? && s.sent != [] then [s.sent[0]] else []
  }

  function AllAccepted(s: State, actions: seq<Action>): seq<MediaData>
    requires Run(s, actions).Some?
    decreases |actions|
  {
    if actions == [] then [] else Accepts(s, actions[0]) + AllAccepted(Step(s, actions[0]).value, actions[1..])
  }

  function AllReturned(s: State, actions: seq<Action>): seq<MediaData>
    requires Run(s, actions).Some?
    decreases |actions|
  {
    if actions == [] then [] else Returns(s, actions[0]) + AllReturned(Step(s, actions[0]).value, actions[1..])
  }

  lemma StepSends(s: State, a: Action)
    requires Step(s, a).Some?
    ensures Returns(s, a) + Step(s, a).value.sent == s.sent + Accepts(s, a)
  {
    if a.Post? { PostSends(s, a.frame, a.ts, a.ready); }
    if a.WriteComplete? && s.sent != [] { assert [s.sent[0]] + s.sent[1..] == s.sent; }
    assert s.sent + [] == s.sent;
    hide Frames, Posted;
  }

  lemma PostSends(s: State, f: Frame, ts: nat, ready: bool)
    ensures Posted(s, f, ts, ready).sent == s.sent
  {}

  lemma Chained(r: seq<MediaData>, rs: seq<MediaData>, sent: seq<MediaData>, t: seq<MediaData>, u: seq<MediaData>,
                a: seq<MediaData>, more: seq<MediaData>)
    requires r + t == sent + a && rs + u == t + more
    ensures (r + rs) + u == sent + (a + more)
  {
    assert (r + rs) + u == r + (rs + u);
    assert r + (t + more) == (r + t) + more;
    assert (sent + a) + more == sent + (a + more);
  }

  lemma {:induction false} SentInOrder(s: State, actions: seq<Action>)
    requires Run(s, actions).Some?
    ensures AllReturned(s, actions) + Run(s, actions).value.sent == s.sent + AllAccepted(s, actions)
    decreases |actions|
  {
    hide Step, Returns, Accepts;
    if actions != [] {
      var t := Step(s, actions[0]).value;
      StepSends(s, actions[0]);
      SentInOrder(t, actions[1..]);
      Chained(Returns(s, actions[0]), AllReturned(t, actions[1..]), s.sent, t.sent, Run(t, actions[1..]).value.sent,
              Accepts(s, actions[0]), AllAccepted(t, actions[1..]));
    }
  }

  // ------------------------------------------------------- repeated stamps

  ghost predicate Distinct(q: seq<nat>)
  {
    forall i :: 0 <= i < |q| - 1 ==> q[i] != q[i + 1]
  }

  // A frame about to be queued, not the first of its recording, taken when its
  // time is the last queued stamp and the clock of stamps is not, or when its
  // time is where that clock is and the last queued stamp just ahead of it.
  predicate Coincides(s: State, a: Action)
  {
    && a.Post? && a.ready && !s.busy && s.counter > 0 && s.recording.stamps != []
    && (s.heap == None || s.heap == Some(a.frame.heap))
    && var first := if s.firstTs == 0 then a.ts else s.firstTs;
    && a.ts >= first
    && var offset, last := a.ts - first, s.recording.stamps[|s.recording.stamps| - 1];
    || (offset == last && s.timeStamp != last)
    || (offset == s.timeStamp && (s.timeStamp + 1) % 0x1_0000_0000 == last)
  }

  lemma DistinctPush(q: seq<nat>, x: nat)
    requires Distinct(q)
    ensures Distinct(q + [x]) <==> q == [] || q[|q| - 1] != x
  {
    var all := q + [x];
    if q != [] && Distinct(all) { assert all[|q| - 1] != all[|q|]; }
  }

  // Just that step queues a frame with the stamp of the one before, and only
  // after a frame was stranded between the two.
  lemma CoincidesExactly(s: State, a: Action)
    requires Tracked(s) && Distinct(s.recording.stamps) && Step(s, a).Some?
    ensures Distinct(Step(s, a).value.recording.stamps) <==> !Coincides(s, a)
    ensures Coincides(s, a) ==> s.recording.gap > 0
  {
    hide Stamps, Distinct;
    if a.Post? {
      PostCoincides(s, a.frame, a.ts, a.ready);
      hide Posted, Coincides, Tracked;
    } else {
      DistinctNone();
      hide Frames, Tracked;
    }
  }

  lemma PostCoincides(s: State, f: Frame, ts: nat, ready: bool)
    requires Tracked(s) && Distinct(s.recording.stamps) && s.held.None?
    ensures Distinct(Posted(s, f, ts, ready).recording.stamps) <==> !Coincides(s, Post(f, ts, ready))
    ensures Coincides(s, Post(f, ts, ready)) ==> s.recording.gap > 0
  {
    hide Stamps, Distinct;
    var first := if s.firstTs == 0 then ts else s.firstTs;
    if ts >= first {
      DistinctPush(s.recording.stamps, if s.counter != 0 then Stamp(s.timeStamp, ts - first) else s.timeStamp);
    }
  }

  lemma DistinctNone()
    ensures Distinct([])
  {}

  predicate NoCoincidence(s: State, actions: seq<Action>)
    requires Run(s, actions).Some?
    decreases |actions|
  {
    actions == [] || (!Coincides(s, actions[0]) && NoCoincidence(Step(s, actions[0]).value, actions[1..]))
  }

  ghost predicate AlwaysDistinct(s: State, actions: seq<Action>)
    requires Run(s, actions).Some?
    decreases |actions|
  {
    Distinct(s.recording.stamps) && (actions == [] || AlwaysDistinct(Step(s, actions[0]).value, actions[1..]))
  }

  lemma {:induction false} DistinctExactly(s: State, actions: seq<Action>)
    requires Tracked(s) && Distinct(s.recording.stamps) && Run(s, actions).Some?
    ensures AlwaysDistinct(s, actions) <==> NoCoincidence(s, actions)
    decreases |actions|
  {
    if actions != [] {
      var t := Step(s, actions[0]).value;
      CoincidesExactly(s, actions[0]);
      StepKeepsTracked(s, actions[0]);
      hide Step, Tracked, Distinct, Coincides;
      if Distinct(t.recording.stamps) { DistinctExactly(t, actions[1..]); }
    }
  }

  // Over runs: frames queued one after the other carry different stamps all
  // along exactly if no such step is taken.
  lemma StampsNeverRepeat(actions: seq<Action>)
    requires Run(START, actions).Some?
    ensures AlwaysDistinct(START, actions) <==> NoCoincidence(START, actions)
  {
    DistinctExactly(START, actions);
  }

  // Three frames at one time, none stranded: the third gets the first one's
  // stamp again.
  lemma StampsFallBack()
    ensures exists actions :: Run(START, actions).Some? && Run(START, actions).value.stranded == []
                              && Run(START, actions).value.recording.stamps == [0, 5, 6, 5]
  {
    var all, t := FirstTwo();
    hide Run;
    all, t := QueueOne(START, all, Frame(2, 1), 105);
    all, t := QueueOne(START, all, Frame(3, 1), 105);
    assert t.recording.stamps == [0, 5, 6, 5];
  }

  // Two frames of one heap, the second five milliseconds after the first.
  lemma FirstTwo() returns (all: seq<Action>, t: State)
    ensures Run(START, all) == Some(t) && t.recording == Recording(0, [5], [0, 5], 0)
    ensures t.held == None && t.heap == Some(1) && t.counter == 2 && t.timeStamp == 5 && t.firstTs == 100
    ensures !t.busy && t.given == [Frame(0, 1), Frame(1, 1)] && t.stranded == []
  {
    assert Run(START, []) == Some(START);
    hide Run;
    all, t := QueueOne(START, [], Frame(0, 1), 100);
    all, t := QueueOne(START, all, Frame(1, 1), 105);
    assert t.recording.stamps == [0, 5] && t.recording.times == [5] && t.given == [Frame(0, 1), Frame(1, 1)];
  }

  lemma QueueOne(s: State, actions: seq<Action>, f: Frame, ts: nat) returns (all: seq<Action>, t: State)
    requires Run(s, actions).Some?
    requires var u := Run(s, actions).value; u.held.None? && f !in u.given
    requires var u := Run(s, actions).value; Posted(u, f, ts, true).held.Some?
    ensures Run(s, all) == Some(t)
    ensures var u := Posted(Run(s, actions).value, f, ts, true);
            t == u.(queue := u.queue + [u.held.value], held := None)
  {
    hide Run, Posted;
    t := RunThen(s, actions, Post(f, ts, true));
    all := actions + [Post(f, ts, true)];
    t := RunThen(s, all, Push);
    all := all + [Push];
  }

  // A stranded frame moves the clock of stamps without being queued, so the
  // frames before and after it can carry the same stamp.
  lemma StrandedStampRepeats()
    ensures exists actions :: Run(START, actions).Some? && Run(START, actions).value.recording.stamps == [0, 5, 5]
  {
    var all, t := FirstTwo();
    hide Run;
    var c, d := Post(Frame(2, 2), 106, true), Post(Frame(3, 1), 105, true);
    t := RunThen(START, all, c);
    t := RunThen(START, all + [c], d);
    assert t.recording.stamps == [0, 5, 5];
  }

  lemma {:induction false} RunThen(s: State, actions: seq<Action>, a: Action) returns (t: State)
    requires Run(s, actions).Some? && Step(Run(s, actions).value, a).Some?
    ensures Run(s, actions + [a]).Some? && t == Run(s, actions + [a]).value == Step(Run(s, actions).value, a).value
    decreases |actions|
  {
    if actions == [] {
      assert actions + [a] == [a] && [a][1..] == [];
      t := Step(s, a).value;
      assert Run(t, []) == Some(t);
    } else {
      assert (actions + [a])[1..] == actions[1..] + [a];
      t := RunThen(Step(s, actions[0]).value, actions[1..], a);
    }
  }

  // ------------------------------------------------------- one heap at a time

  // Every frame that is waiting or with the peer lies on the heap remembered.
  ghost predicate Guarded(s: State)
  {
    && (forall i :: 0 <= i < |s.queue| ==> s.heap == Some(s.queue[i].frame.heap))
    && (forall i :: 0 <= i < |s.sent| ==> s.heap == Some(s.sent[i].frame.heap))
    && (s.held.Some? ==> s.heap == Some(s.held.value.frame.heap))
  }

  // The peer gives its last frame back while others wait.
  predicate Forgets(s: State, a: Action)
  {
    a.WriteComplete? && |s.sent| == 1 && Line(s) != []
  }

  lemma AdmitGuarded(s: State, f: Frame, offset: nat)
    requires Guarded(s)
    ensures Guarded(Admitted(s, f, offset))
  {
    hide Stamp;
  }

  lemma PostGuarded(s: State, f: Frame, ts: nat, ready: bool)
    requires Guarded(s)
    ensures Guarded(Posted(s, f, ts, ready))
  {
    var first := if s.firstTs == 0 then ts else s.firstTs;
    if ready && !s.busy && ts >= first {
      AdmitGuarded(s.(given := s.given + [f], firstTs := first), f, ts - first);
    }
    hide Admitted;
  }

  lemma WriteGuarded(s: State, outcome: Outcome)
    requires Guarded(s) && s.queue != []
    ensures Guarded(Written(s, outcome))
  {
    var t := Written(s, outcome);
    forall i | 0 <= i < |t.queue| ensures s.heap == Some(t.queue[i].frame.heap) { assert t.queue[i] == s.queue[i + 1]; }
  }

  lemma CompleteGuarded(s: State)
    requires Guarded(s) && s.frameRefCount == |s.sent|
    ensures Guarded(Completed(s)) <==> !Forgets(s, WriteComplete)
  {
    var t := Completed(s);
    if s.sent != [] {
      forall i | 0 <= i < |t.sent| ensures s.heap == Some(t.sent[i].frame.heap) { assert t.sent[i] == s.sent[i + 1]; }
    }
    if Forgets(s, WriteComplete) && s.held.None? {
      assert t.heap == None && t.queue != [] && t.heap != Some(t.queue[0].frame.heap);
    }
  }

  // Just that step breaks it: the heap is forgotten with frames of it still
  // to come.
  lemma ForgetsExactly(s: State, a: Action)
    requires Guarded(s) && s.frameRefCount == |s.sent| && Step(s, a).Some?
    ensures Guarded(Step(s, a).value) <==> !Forgets(s, a)
  {
    hide Posted, Written, Completed, Frames;
    match a
    case Post(f, ts, ready) => PostGuarded(s, f, ts, ready);
    case Write(outcome) => WriteGuarded(s, outcome);
    case WriteComplete => CompleteGuarded(s);
    case _ =>
  }

  predicate NeverForgets(s: State, actions: seq<Action>)
    requires Run(s, actions).Some?
    decreases |actions|
  {
    actions == [] || (!Forgets(s, actions[0]) && NeverForgets(Step(s, actions[0]).value, actions[1..]))
  }

  ghost predicate AlwaysGuarded(s: State, actions: seq<Action>)
    requires Run(s, actions).Some?
    decreases |actions|
  {
    Guarded(s) && (actions == [] || AlwaysGuarded(Step(s, actions[0]).value, actions[1..]))
  }

  lemma {:induction false} GuardedExactly(s: State, actions: seq<Action>)
    requires Guarded(s) && s.frameRefCount == |s.sent| && Run(s, actions).Some?
    ensures AlwaysGuarded(s, actions) <==> NeverForgets(s, actions)
    decreases |actions|
  {
    if actions != [] {
      var t := Step(s, actions[0]).value;
      ForgetsExactly(s, actions[0]);
      StepKeepsRefCount(s, actions[0]);
      hide Step, Guarded, Forgets;
      if Guarded(t) { GuardedExactly(t, actions[1..]); }
    }
  }

  // Over runs: all along, the frames waiting and with the peer lie on the one
  // heap remembered, exactly if no such step is taken.
  lemma OneHeap(actions: seq<Action>)
    requires Run(START, actions).Some?
    ensures AlwaysGuarded(START, actions) <==> NeverForgets(START, actions)
  {
    GuardedExactly(START, actions);
  }

  // After it, frames of two heaps can wait side by side.
  lemma TwoHeaps()
    ensures exists actions :: Run(START, actions).Some?
              && var q := Run(START, actions).value.queue; |q| == 2 && q[0].frame.heap != q[1].frame.heap
  {
    assert Run(START, []) == Some(START);
    hide Run;
    var all, t := QueueOne(START, [], Frame(0, 1), 100);
    t := RunThen(START, all, Write(Accepted)); all := all + [Write(Accepted)];
    all, t := QueueOne(START, all, Frame(1, 1), 105);
    t := RunThen(START, all, WriteComplete); all := all + [WriteComplete];
    all, t := QueueOne(START, all, Frame(2, 2), 110);
    assert t.queue[0].frame == Frame(1, 1) && t.queue[1].frame == Frame(2, 2);
  }

  // ------------------------------------------------ the busy flag, the origin

  // The peer was busy, and nothing has cleared that since.
  predicate StillBusy(actions: seq<Action>)
  {
    actions != [] &&
    match actions[|actions| - 1]
    case Write(Busy) => true
    case Start => false
    case Stop => false
    case ClearBusy => false
    case _ => StillBusy(actions[..|actions| - 1])
  }

  lemma StepBusy(s: State, a: Action)
    requires Step(s, a).Some?
    ensures Step(s, a).value.busy <==>
            a == Write(Busy) || (s.busy && !a.Start? && !a.Stop? && !a.ClearBusy?)
  {
    hide Frames, Stamp;
  }

  lemma {:induction false} RunBusy(s: State, before: seq<Action>, actions: seq<Action>)
    requires Run(s, actions).Some? && (s.busy <==> StillBusy(before))
    ensures Run(s, actions).value.busy <==> StillBusy(before + actions)
    decreases |actions|
  {
    if actions == [] {
      assert before + actions == before;
    } else {
      var a := actions[0];
      StepBusy(s, a);
      hide Step;
      assert (before + [a])[..|before|] == before;
      RunBusy(Step(s, a).value, before + [a], actions[1..]);
      assert (before + [a]) + actions[1..] == before + actions;
    }
  }

  // A frame that comes while the peer is busy goes straight back to the camera.
  lemma RefusedWhileBusy(actions: seq<Action>, f: Frame, ts: nat, ready: bool)
    requires Run(START, actions).Some?
    ensures var s := Run(START, actions).value; s.busy <==> StillBusy(actions)
    ensures var s := Run(START, actions).value;
      StillBusy(actions) && s.held.None? && f !in s.given ==>
        Step(s, Post(f, ts, ready)) == Some(s.(given := s.given + [f], released := s.released + [f]))
  {
    RunBusy(START, [], actions);
    assert [] + actions == actions;
    hide Run, StillBusy;
  }

  // Times noted: the author clock's, and those of frames that are not refused.
  function Noted(s: State, a: Action): seq<nat>
  {
    match a
    case ClockRuns(now) => [now]
    case Post(_, ts, ready) => if ready && !s.busy then [ts] else []
    case _ => []
  }

  function NotedSince(s: State, noted: seq<nat>, actions: seq<Action>): seq<nat>
    requires Run(s, actions).Some?
    decreases |actions|
  {
    if actions == [] then noted
    else
      var all := if actions[0].Start? then [] else noted + Noted(s, actions[0]);
      NotedSince(Step(s, actions[0]).value, all, actions[1..])
  }

  function FirstSet(q: seq<nat>): nat
  {
    if q == [] then 0 else if q[0] != 0 then q[0] else FirstSet(q[1..])
  }

  lemma {:induction false} FirstSetAppend(p: seq<nat>, q: seq<nat>)
    ensures FirstSet(p + q) == if FirstSet(p) != 0 then FirstSet(p) else FirstSet(q)
  {
    if p == [] {
      assert p + q == q;
    } else {
      assert (p + q)[1..] == p[1..] + q;
      FirstSetAppend(p[1..], q);
    }
  }

  lemma StepOrigin(s: State, a: Action, noted: seq<nat>)
    requires Step(s, a).Some? && s.firstTs == FirstSet(noted)
    ensures Step(s, a).value.firstTs == FirstSet(if a.Start? then [] else noted + Noted(s, a))
  {
    FirstSetAppend(noted, Noted(s, a));
    if Noted(s, a) != [] { assert Noted(s, a)[1..] == []; }
    hide Frames, Stamp;
  }

  lemma {:induction false} RunOrigin(s: State, noted: seq<nat>, actions: seq<Action>)
    requires Run(s, actions).Some? && s.firstTs == FirstSet(noted)
    ensures Run(s, actions).value.firstTs == FirstSet(NotedSince(s, noted, actions))
    decreases |actions|
  {
    if actions != [] {
      var a := actions[0];
      StepOrigin(s, a, noted);
      hide Step, FirstSet, Noted;
      RunOrigin(Step(s, a).value, if a.Start? then [] else noted + Noted(s, a), actions[1..]);
    }
  }

  // Over runs: what the times of frames are counted from is the first time
  // noted since the last start that is not 0.
  lemma Origin(actions: seq<Action>)
    requires Run(START, actions).Some?
    ensures Run(START, actions).value.firstTs == FirstSet(NotedSince(START, [], actions))
  {
    RunOrigin(START, [], actions);
  }

  // ------------------------------------------------------------- the class

  // The whole loop of Run, one outcome for each frame it tries.
  function Drained(s: State, outcomes: seq<Outcome>): State
    decreases |outcomes|
  {
    if s.queue == [] || outcomes == [] then s
    else if outcomes[0].Accepted? then Drained(Written(s, outcomes[0]), outcomes[1..])
    else Written(s, outcomes[0])
  }

  lemma {:induction false} DrainIsWrites(s: State, outcomes: seq<Outcome>) returns (actions: seq<Action>)
    ensures Run(s, actions) == Some(Drained(s, outcomes))
    decreases |outcomes|
  {
    if s.queue == [] || outcomes == [] {
      actions := [];
    } else {
      var rest := [];
      if outcomes[0].Accepted? { rest := DrainIsWrites(Written(s, outcomes[0]), outcomes[1..]); }
      actions := [Write(outcomes[0])] + rest;
      assert actions[1..] == rest;
    }
  }

  class AndroidCameraInput {
    var frameQueue: seq<MediaData>
    var sentMediaData: seq<MediaData>
    var held: Option<MediaData>
    var frameRefCount: int
    var heap: Option<nat>
    var dataEventCounter: nat
    var timeStamp: nat
    var audioFirstFrameTs: nat
    var writeBusy: bool
    ghost var given: seq<Frame>
    ghost var released: seq<Frame>
    ghost var stranded: seq<Frame>
    ghost var recording: Recording

    ghost function View(): State
      reads this
    {
      State(frameQueue, sentMediaData, held, frameRefCount, heap, dataEventCounter, timeStamp,
            audioFirstFrameTs, writeBusy, given, released, stranded, recording)
    }

    constructor ()
      ensures View() == START
    {
      frameQueue, sentMediaData, held, frameRefCount, heap := [], [], None, 0, None;
      dataEventCounter, timeStamp, audioFirstFrameTs, writeBusy := 0, 0, 0, false;
      given, released, stranded, recording := [], [], [], NO_FRAMES;
    }

    // mCamera->releaseRecordingFrame
    ghost method Release(f: Frame)
      modifies this`released
      ensures released == old(released) + [f]
    {
      released := released + [f];
    }

    // Up to the lock; the frame accepted is then held.
    method PostWriteAsync(timestamp: nat, frame: Frame, ready: bool)
      requires held.None?
      modifies this
      ensures View() == Posted(old(View()), frame, timestamp, ready)
    {
      hide Admitted;
      var ts := timestamp;
      given := given + [frame];
      if !ready || writeBusy {
        Release(frame);
        return;
      }
      if audioFirstFrameTs == 0 { audioFirstFrameTs := ts; }
      if ts < audioFirstFrameTs {
        Release(frame);
        return;
      }
      Admit(frame, ts - audioFirstFrameTs);
    }

    method Admit(frame: Frame, ts: nat)
      modifies this`timeStamp, this`stranded, this`heap, this`held, this`dataEventCounter, this`recording
      ensures View() == Admitted(old(View()), frame, ts)
    {
      if dataEventCounter != 0 {
        if timeStamp != ts { timeStamp := ts; } else { timeStamp := (timeStamp + 1) % 0x1_0000_0000; }
        recording := recording.(times := recording.times + [ts]);
      }
      if heap == None {
        heap := Some(frame.heap);
      } else if heap != Some(frame.heap) {
        stranded := stranded + [frame];
        recording := recording.(gap := recording.gap + 1);
        return;
      }
      Hold(frame);
    }

    // The frame is given its number and kept for the queue.
    method Hold(frame: Frame)
      modifies this`held, this`dataEventCounter, this`recording
      ensures held == Some(MediaData(frame, old(dataEventCounter), timeStamp))
      ensures dataEventCounter == old(dataEventCounter) + 1
      ensures var r := old(recording);
              recording == r.(first := if old(dataEventCounter) != 0 then r.first else timeStamp,
                              stamps := r.stamps + [timeStamp], gap := 0)
    {
      held := Some(MediaData(frame, dataEventCounter, timeStamp));
      recording := recording.(first := if dataEventCounter != 0 then recording.first else timeStamp,
                              stamps := recording.stamps + [timeStamp], gap := 0);
      dataEventCounter := dataEventCounter + 1;
    }

    method QueueHeld()
      requires held.Some?
      modifies this
      ensures Some(View()) == Step(old(View()), Push)
    {
      frameQueue := frameQueue + [held.value];
      held := None;
    }

    method WriteFirst(outcome: Outcome)
      requires frameQueue != []
      modifies this`frameQueue, this`sentMediaData, this`frameRefCount, this`writeBusy, this`released
      ensures View() == Written(old(View()), outcome)
    {
      var data := frameQueue[0];
      if outcome.Accepted? {
        frameQueue := frameQueue[1..];
        sentMediaData := sentMediaData + [data];
        frameRefCount := frameRefCount + 1;
      } else {
        Release(data.frame);
        frameQueue := frameQueue[1..];
        if outcome.Busy? { writeBusy := true; }
      }
    }

    // The write loop of Run; outcomes are the peer's answers.
    method Run(outcomes: seq<Outcome>)
      requires |outcomes| >= |frameQueue|
      modifies this`frameQueue, this`sentMediaData, this`frameRefCount, this`writeBusy, this`released
      ensures View() == Drained(old(View()), outcomes)
    {
      var i := 0;
      while frameQueue != []
        invariant i + |frameQueue| <= |outcomes|
        invariant Drained(View(), outcomes[i..]) == Drained(old(View()), outcomes)
        decreases |frameQueue|
      {
        assert outcomes[i..][1..] == outcomes[i + 1..];
        WriteFirst(outcomes[i]);
        if !outcomes[i].Accepted? { return; }
        i := i + 1;
      }
    }

    method WriteComplete()
      modifies this
      ensures Some(View()) == Step(old(View()), Action.WriteComplete)
    {
      if sentMediaData == [] { return; }
      Release(sentMediaData[0].frame);
      if frameRefCount != 0 { frameRefCount := frameRefCount - 1; }
      if frameRefCount <= 0 {
        frameRefCount := 0;
        heap := None;
      }
      sentMediaData := sentMediaData[1..];
    }

    method ReleaseQueuedFrames()
      modifies this`frameQueue, this`released
      ensures frameQueue == [] && released == old(released) + Frames(old(frameQueue))
    {
      while frameQueue != []
        invariant released + Frames(frameQueue) == old(released) + Frames(old(frameQueue))
        decreases |frameQueue|
      {
        var data := frameQueue[0];
        frameQueue := frameQueue[1..];
        Release(data.frame);
      }
    }

    method DoStop()
      modifies this
      ensures Some(View()) == Step(old(View()), Stop)
    {
      dataEventCounter := 0;
      writeBusy := false;
      ReleaseQueuedFrames();
      recording := NO_FRAMES;
    }
  }
}
