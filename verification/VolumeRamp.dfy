// The volume ramp at the start of a recording (android_audio_input.cpp,
// RampVolume), on mono samples of 16 bits: fixed-point gains with 14 bits
// behind the point, renewed every four frames.
module VolumeRamp {

  type Sample = x: int | -32768 <= x < 32768

  const ONE: int := 16384

  // The most frames for which (frame << 14) fits 32 bits.
  const MAX_FRAMES: int := 131071

  // (t << 14) / duration.
  function Multiplier(t: nat, duration: nat): (m: nat)
    requires duration > 0
    ensures m * duration <= t * ONE < (m + 1) * duration
  {
    t * ONE / duration
  }

  // (x * m) >> 14 on a signed product.
  function Scaled(x: int, m: nat): int
  {
    x * m / ONE
  }

  lemma TimesMonotone(a: int, b: int, c: int)
    requires a <= b && c >= 0
    ensures a * c <= b * c
  {}

  // The gain never falls, and stays below one as long as the ramp lasts.
  lemma GainGrows(t: nat, t': nat, duration: nat)
    requires duration > 0 && t <= t'
    ensures Multiplier(t, duration) <= Multiplier(t', duration)
    ensures t' < duration ==> Multiplier(t', duration) < ONE
  {
    var m, m' := Multiplier(t, duration), Multiplier(t', duration);
    hide Multiplier;
    if m > m' { TimesMonotone(m' + 1, m, duration); }
    if t' < duration && m' >= ONE { TimesMonotone(ONE, m', duration); }
  }

  // The product with a gain of m / ONE, rounded down.
  lemma ScaledMeans(x: int, m: nat)
    ensures Scaled(x, m) * ONE <= x * m < (Scaled(x, m) + 1) * ONE
  {
    var p := x * m;
    assert p == p / ONE * ONE + p % ONE;
  }

  // Scaling keeps the sign, never makes a sample louder, and all of it fits
  // 32 bits.
  lemma ScaledBounds(x: Sample, m: nat)
    requires m < ONE
    ensures if x >= 0 then 0 <= Scaled(x, m) <= x else x <= Scaled(x, m) <= 0
    ensures -0x8000_0000 <= x * m < 0x8000_0000
  {
    var y: int := x;
    var size := if y >= 0 then y else -y;
    TimesMonotone(m, ONE, size);
    TimesMonotone(0, m, size);
    TimesMonotone(size, 32768, m);
    var p := y * m;
    assert if x >= 0 then 0 <= p <= x * ONE else x * ONE <= p <= 0;
    assert -32768 * m <= p <= 32768 * m;
  }

  lemma GainFits(t: nat, duration: nat)
    requires t < duration <= MAX_FRAMES
    ensures t * ONE < 0x8000_0000
  {}

  // The frame whose gain frame t of a call starting at frame start gets.
  function Base(start: nat, t: nat): (r: nat)
    requires start <= t
    ensures start <= r <= t
  {
    if t - t % 4 > start then t - t % 4 else start
  }

  function Ramped(x: Sample, start: nat, t: nat, duration: nat): (r: Sample)
    requires start <= t && duration > 0
    ensures if x >= 0 then 0 <= r <= x else x <= r <= 0
  {
    if t >= duration then x else
      GainGrows(Base(start, t), t, duration);
      ScaledBounds(x, Multiplier(Base(start, t), duration));
      Scaled(x, Multiplier(Base(start, t), duration))
  }

  // A whole buffer whose first frame is frame start + from of its call.
  function RampFrom(data: seq<Sample>, start: nat, from: nat, duration: nat): (r: seq<Sample>)
    requires start <= from && duration > 0
    ensures |r| == |data|
  {
    if data == [] then [] else [Ramped(data[0], start, from, duration)] + RampFrom(data[1..], start, from + 1, duration)
  }

  lemma {:induction false} RampAt(data: seq<Sample>, start: nat, from: nat, duration: nat, i: nat)
    requires start <= from && duration > 0 && i < |data|
    ensures RampFrom(data, start, from, duration)[i] == Ramped(data[i], start, from + i, duration)
  {
    if i > 0 { RampAt(data[1..], start, from + 1, duration, i - 1); }
  }

  lemma {:induction false} RampAppend(a: seq<Sample>, b: seq<Sample>, start: nat, from: nat, duration: nat)
    requires start <= from && duration > 0
    ensures RampFrom(a + b, start, from, duration)
         == RampFrom(a, start, from, duration) + RampFrom(b, start, from + |a|, duration)
  {
    if a == [] {
      assert a + b == b;
    } else {
      assert (a + b)[1..] == a[1..] + b;
      RampAppend(a[1..], b, start, from + 1, duration);
    }
  }

  // Starting again at frame p makes no difference from p on, if the gain at p
  // is the one in use.
  lemma {:induction false} SameGain(data: seq<Sample>, start: nat, p: nat, from: nat, duration: nat)
    requires start <= p <= from && duration > 0
    requires p >= duration || Multiplier(Base(start, p), duration) == Multiplier(p, duration)
    ensures RampFrom(data, start, from, duration) == RampFrom(data, p, from, duration)
    decreases |data|
  {
    if data != [] {
      SameGain(data[1..], start, p, from + 1, duration);
      if p < duration { BaseBehind(start, p, from); }
    }
  }

  lemma BaseBehind(start: nat, p: nat, t: nat)
    requires start <= p <= t
    ensures Base(start, t) == Base(p, t) || (Base(start, t) == Base(start, p) && Base(p, t) == p)
  {}

  // A recording ramped in two calls that meet at frame p comes out as in one,
  // whatever is on it, exactly when the gain does not step at p.
  lemma SplitExactly(start: nat, n: nat, duration: nat)
    requires duration > 0
    ensures var p := start + n;
            (forall a: seq<Sample>, b: seq<Sample> :: |a| == n ==>
               RampFrom(a + b, start, start, duration)
               == RampFrom(a, start, start, duration) + RampFrom(b, p, p, duration))
            <==> p >= duration || Multiplier(Base(start, p), duration) == Multiplier(p, duration)
  {
    var p := start + n;
    if p >= duration || Multiplier(Base(start, p), duration) == Multiplier(p, duration) {
      forall a: seq<Sample>, b: seq<Sample> | |a| == n
        ensures RampFrom(a + b, start, start, duration)
             == RampFrom(a, start, start, duration) + RampFrom(b, p, p, duration)
      {
        RampAppend(a, b, start, start, duration);
        SameGain(b, start, p, p, duration);
      }
    } else {
      Audible(start, n, duration);
    }
  }

  // One loud sample behind the meeting point shows the step.
  lemma Audible(start: nat, n: nat, duration: nat)
    requires duration > 0
    ensures start + n >= duration || Multiplier(Base(start, start + n), duration) == Multiplier(start + n, duration) ||
            exists a: seq<Sample>, b: seq<Sample> ::
              && |a| == n
              && RampFrom(a + b, start, start, duration)
              != RampFrom(a, start, start, duration) + RampFrom(b, start + n, start + n, duration)
  {
    if start + n < duration && Multiplier(Base(start, start + n), duration) != Multiplier(start + n, duration) {
      var p := start + n;
      var a, b: seq<Sample> := seq(n, i => 0), [16384];
      RampAppend(a, b, start, start, duration);
      var one, two := RampFrom(b, start, p, duration), RampFrom(b, p, p, duration);
      Loud(Multiplier(Base(start, p), duration));
      Loud(Multiplier(p, duration));
      assert one[0] != two[0];
      assert (RampFrom(a, start, start, duration) + one)[n] == one[0];
      assert (RampFrom(a, start, start, duration) + two)[n] == two[0];
    }
  }

  lemma Loud(m: nat)
    ensures Scaled(16384, m) == m
  {}

  // In particular at every fourth frame.
  lemma SplitAtFours(a: seq<Sample>, b: seq<Sample>, start: nat, duration: nat)
    requires duration > 0 && (start + |a|) % 4 == 0
    ensures RampFrom(a + b, start, start, duration)
         == RampFrom(a, start, start, duration) + RampFrom(b, start + |a|, start + |a|, duration)
  {
    RampAppend(a, b, start, start, duration);
    SameGain(b, start, start + |a|, start + |a|, duration);
  }

  // And not everywhere: meeting at frame 2 of 8 lets the gain step early.
  lemma SplitElsewhere()
    ensures Multiplier(Base(0, 2), 8) == 0 && Multiplier(2, 8) == 4096
  {}

  lemma RampEach(before: seq<Sample>, after: seq<Sample>, start: nat, duration: nat)
    requires duration > 0 && |after| == |before|
    requires forall k :: 0 <= k < |before| ==> after[k] == Ramped(before[k], start, start + k, duration)
    ensures after == RampFrom(before, start, start, duration)
  {
    hide Ramped, RampFrom;
    forall k | 0 <= k < |before| ensures after[k] == RampFrom(before, start, start, duration)[k] {
      RampAt(before, start, start, duration, k);
    }
  }

  // One frame of the loop.
  lemma RampNow(x: Sample, start: nat, t: nat, duration: nat)
    requires start <= t < duration
    ensures Ramped(x, start, t, duration) == Scaled(x, Multiplier(Base(start, t), duration))
    ensures Base(start, t + 1) == if (t + 1) % 4 == 0 then t + 1 else Base(start, t)
  {}

  // The loop over a mono buffer.
  method RampVolume(data: array<Sample>, timeInFrames: nat, duration: nat, numBytes: nat)
    requires timeInFrames < duration <= MAX_FRAMES && numBytes / 2 <= data.Length
    modifies data
    ensures data[..numBytes / 2] == RampFrom(old(data[..numBytes / 2]), timeInFrames, timeInFrames, duration)
    ensures data[numBytes / 2..] == old(data[numBytes / 2..])
  {
    var t := timeInFrames;
    var n := numBytes / 2;
    var stop := timeInFrames + n;
    if stop > duration { stop := duration; }
    var m := Multiplier(t, duration);
    assert Base(t, t) == t;
    hide Multiplier, Scaled, RampFrom, Base;
    var i := 0;
    while t < stop
      invariant timeInFrames <= t <= stop && i == t - timeInFrames
      invariant m == Multiplier(Base(timeInFrames, t), duration)
      invariant forall k :: 0 <= k < i ==> data[k] == Ramped(old(data[k]), timeInFrames, timeInFrames + k, duration)
      invariant forall k :: i <= k < data.Length ==> data[k] == old(data[k])
    {
      RampNow(data[i], timeInFrames, t, duration);
      data[i] := Scaled(data[i], m);
      i := i + 1;
      t := t + 1;
      if t % 4 == 0 { m := Multiplier(t, duration); }
    }
    RampEach(old(data[..n]), data[..n], timeInFrames, duration);
  }
}
