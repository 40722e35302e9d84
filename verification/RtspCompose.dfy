// The composers of rtsp_range_utils.cpp, writing into a caller's buffer.
// `at` is the char* the code advances, `maxLen` the bytes left there.
//
// Each contract says the same three things: composing succeeds exactly when
// the whole text exists and fits, it then writes that text whatever the spare
// room, and nothing outside the given window changes, success or not.
module RtspCompose {
  import opened Counting
  import opened RtspText

  predicate Fits(text: Option<string>, maxLen: nat)
  {
    text.Some? && |text.value| <= maxLen
  }

  // oscl_memcpy
  method CopyIn(buf: array<char>, at: nat, text: string)
    requires at + |text| <= buf.Length
    modifies buf
    ensures buf[at..at + |text|] == text
    ensures forall k :: 0 <= k < buf.Length && !(at <= k < at + |text|) ==> buf[k] == old(buf[k])
  {
    for n := 0 to |text|
      invariant buf[at..at + n] == text[..n]
      invariant forall k :: 0 <= k < buf.Length && !(at <= k < at + n) ==> buf[k] == old(buf[k])
    {
      buf[at + n] := text[n];
      assert buf[at..at + n + 1] == buf[at..at + n] + [text[n]];
    }
  }

  // Appends a piece after `used` characters already written at `at`.
  method Append(buf: array<char>, at: nat, used: nat, ghost before: string, text: string)
    requires at + used + |text| <= buf.Length && |before| == used && buf[at..at + used] == before
    modifies buf
    ensures buf[at..at + used + |text|] == before + text
    ensures forall k :: 0 <= k < buf.Length && !(at + used <= k < at + used + |text|) ==> buf[k] == old(buf[k])
  {
    CopyIn(buf, at + used, text);
    assert buf[at..at + used] == before;
    assert buf[at..at + used + |text|] == buf[at..at + used] + buf[at + used..at + used + |text|];
  }

  method ComposeSmpte(buf: array<char>, at: nat, maxLen: nat, v: Smpte) returns (ok: bool, lenUsed: nat)
    requires at + maxLen <= buf.Length
    modifies buf
    ensures ok <==> Fits(SmpteText(v), maxLen)
    ensures ok ==> lenUsed == |SmpteText(v).value| && buf[at..at + lenUsed] == SmpteText(v).value
    ensures forall k :: 0 <= k < buf.Length && !(at <= k < at + maxLen) ==> buf[k] == old(buf[k])
  {
    lenUsed := 0;
    var hh, mm, ss := Dec2(v.hours), Dec2(v.minutes), Dec2(v.seconds);
    Dec2Length(v.hours);
    Dec2Length(v.minutes);
    Dec2Length(v.seconds);
    Dec2Length(v.frames);
    Dec2Length(v.subframes);
    hide Dec2;
    if maxLen < 8 { return false, 0; }
    var clock := hh + ":" + mm + ":" + ss;
    if |clock| != 8 { return false, 0; }
    CopyIn(buf, at, clock);
    lenUsed := 8;
    ghost var written := clock;
    if v.frames != 0 {
      if maxLen - lenUsed < 3 { return false, lenUsed; }
      var ff := ":" + Dec2(v.frames);
      if |ff| != 3 { return false, lenUsed; }
      Append(buf, at, lenUsed, written, ff);
      written := written + ff;
      lenUsed := lenUsed + 3;
    }
    if v.subframes != 0 {
      if maxLen - lenUsed < 3 { return false, lenUsed; }
      var sub := "." + Dec2(v.subframes);
      if |sub| != 3 { return false, lenUsed; }
      Append(buf, at, lenUsed, written, sub);
      written := written + sub;
      lenUsed := lenUsed + 3;
    }
    assert SmpteText(v).Some? && SmpteText(v).value == written;
    ok := true;
  }

  method ComposeNpt(buf: array<char>, at: nat, maxLen: nat, v: Npt) returns (ok: bool, lenUsed: nat)
    requires at + maxLen <= buf.Length
    modifies buf
    ensures ok <==> Fits(NptText(v), maxLen)
    ensures ok ==> lenUsed == |NptText(v).value| && buf[at..at + lenUsed] == NptText(v).value
    ensures forall k :: 0 <= k < buf.Length && !(at <= k < at + maxLen) ==> buf[k] == old(buf[k])
  {
    lenUsed := 0;
    hide Dec2, DecInt;
    match v {
      case Now =>
        if maxLen < 3 { return false, 0; }
        CopyIn(buf, at, "now");
        return true, 3;
      case NptSec(sec, milliSec) =>
        var number := DecInt(sec);
        if |number| > 10 || |number| > maxLen { return false, 0; }
        CopyIn(buf, at, number);
        if milliSec > 0 { return false, |number|; }
        return true, |number|;
      case NptHms(hours, min, sec) =>
        ok, lenUsed := ComposeNptHms(buf, at, maxLen, hours, min, sec);
    }
  }

  method ComposeNptHms(buf: array<char>, at: nat, maxLen: nat, hours: u32, min: u8, sec: u8)
    returns (ok: bool, lenUsed: nat)
    requires at + maxLen <= buf.Length
    modifies buf
    ensures ok <==> Fits(NptText(NptHms(hours, min, sec)), maxLen)
    ensures ok ==> lenUsed == |NptText(NptHms(hours, min, sec)).value|
                   && buf[at..at + lenUsed] == NptText(NptHms(hours, min, sec)).value
    ensures forall k :: 0 <= k < buf.Length && !(at <= k < at + maxLen) ==> buf[k] == old(buf[k])
  {
    hide Dec2, DecInt;
    Dec2Length(min);
    Dec2Length(sec);
    var number := DecInt(hours);
    if |number| >= 10 || |number| > maxLen { return false, 0; }
    CopyIn(buf, at, number);
    lenUsed := |number|;
    if maxLen - lenUsed < 6 { return false, lenUsed; }
    var rest := ":" + Dec2(min) + ":" + Dec2(sec);
    if |rest| != 6 { return false, lenUsed; }
    Append(buf, at, lenUsed, number, rest);
    assert number + rest == number + ":" + Dec2(min) + ":" + Dec2(sec);
    return true, lenUsed + 6;
  }

  method ComposeAbs(buf: array<char>, at: nat, maxLen: nat, v: Abs) returns (ok: bool, lenUsed: nat)
    requires at + maxLen <= buf.Length
    modifies buf
    ensures ok <==> Fits(AbsText(v), maxLen)
    ensures ok ==> lenUsed == |AbsText(v).value| && buf[at..at + lenUsed] == AbsText(v).value
    ensures forall k :: 0 <= k < buf.Length && !(at <= k < at + maxLen) ==> buf[k] == old(buf[k])
  {
    lenUsed := 0;
    if AbsText(v).Some? { AbsTextLength(v); }
    AbsStamp(v);
    hide Dec4, Dec2;
    if maxLen < 16 { return false, 0; }
    var stamp := Dec4(v.year) + Dec2(v.month) + Dec2(v.day) + "T" + Dec2(v.hours) + Dec2(v.min) + Dec2(v.sec);
    if |stamp| != 15 { return false, 0; }
    CopyIn(buf, at, stamp);
    Append(buf, at, 15, stamp, "Z");
    return true, 16;
  }

  lemma AbsStamp(v: Abs)
    ensures |Dec4(v.year) + Dec2(v.month) + Dec2(v.day) + "T" + Dec2(v.hours) + Dec2(v.min) + Dec2(v.sec)| == 15
            <==> AbsText(v).Some?
  {
    Dec4Length(v.year);
    Dec2Length(v.month);
    Dec2Length(v.day);
    Dec2Length(v.hours);
    Dec2Length(v.min);
    Dec2Length(v.sec);
  }

  lemma Glue(buf: array<char>, at: nat, used: nat, more: nat)
    requires at + used + more <= buf.Length
    ensures buf[at..at + used + more] == buf[at..at + used] + buf[at + used..at + used + more]
  {
  }

  // The start of a range, when it is set, after `used` characters already
  // written at `at`; maxLen is the room left behind those.
  method ComposeStart(buf: array<char>, at: nat, used: nat, maxLen: nat, ghost before: string, r: Range)
    returns (ok: bool, length: nat)
    requires at + used + maxLen <= buf.Length && buf[at..at + used] == before
    modifies buf
    ensures ok <==> Fits(StartText(r), maxLen)
    ensures ok ==> length == |StartText(r).value| && buf[at..at + used + length] == before + StartText(r).value
    ensures forall k :: 0 <= k < buf.Length && !(at + used <= k < at + used + maxLen) ==> buf[k] == old(buf[k])
  {
    hide SmpteText, NptText, AbsText;
    ok, length := true, 0;
    match r {
      case NptRange(start, _) =>
        if start.Some? { ok, length := ComposeNpt(buf, at + used, maxLen, start.value); }
      case SmpteRange(_, start, _) =>
        if start.Some? { ok, length := ComposeSmpte(buf, at + used, maxLen, start.value); }
      case AbsRange(start, _) =>
        if start.Some? { ok, length := ComposeAbs(buf, at + used, maxLen, start.value); }
    }
    assert buf[at..at + used] == before;
    if ok { Glue(buf, at, used, length); }
  }

  method ComposeStop(buf: array<char>, at: nat, used: nat, maxLen: nat, ghost before: string, r: Range)
    returns (ok: bool, length: nat)
    requires at + used + maxLen <= buf.Length && buf[at..at + used] == before
    modifies buf
    ensures ok <==> Fits(StopText(r), maxLen)
    ensures ok ==> length == |StopText(r).value| && buf[at..at + used + length] == before + StopText(r).value
    ensures forall k :: 0 <= k < buf.Length && !(at + used <= k < at + used + maxLen) ==> buf[k] == old(buf[k])
  {
    hide SmpteText, NptText, AbsText;
    ok, length := true, 0;
    match r {
      case NptRange(_, end) =>
        if end.Some? { ok, length := ComposeNpt(buf, at + used, maxLen, end.value); }
      case SmpteRange(_, _, end) =>
        if end.Some? { ok, length := ComposeSmpte(buf, at + used, maxLen, end.value); }
      case AbsRange(_, end) =>
        if end.Some? { ok, length := ComposeAbs(buf, at + used, maxLen, end.value); }
    }
    assert buf[at..at + used] == before;
    if ok { Glue(buf, at, used, length); }
  }

  lemma RangeParts(r: Range)
    ensures RangeText(r).Some? <==>
            (StartIsSet(r) || EndIsSet(r)) && StartText(r).Some? && StopText(r).Some?
    ensures RangeText(r).Some? ==>
            RangeText(r).value == Head(r) + StartText(r).value + "-" + StopText(r).value + "\r\n"
  {
  }

  // compose_range_string for a whole range.  Its two callers below have
  // already refused a maxLen that is negative as a signed int, so its own
  // signed comparisons are plain ones.
  method ComposeRange(buf: array<char>, at: nat, maxLen: nat, r: Range) returns (ok: bool, lenUsed: nat)
    requires at + maxLen <= buf.Length && maxLen < INT32_LIMIT
    modifies buf
    ensures ok <==> Fits(RangeText(r), maxLen)
    ensures ok ==> lenUsed == |RangeText(r).value| && buf[at..at + lenUsed] == RangeText(r).value
    ensures forall k :: 0 <= k < buf.Length && !(at <= k < at + maxLen) ==> buf[k] == old(buf[k])
  {
    RangeParts(r);
    hide RangeText, StartText, StopText, StartIsSet, EndIsSet, Head;
    lenUsed := 0;
    if !StartIsSet(r) && !EndIsSet(r) { return false, 0; }
    var head, length := Head(r), 0;
    if maxLen < |head| { return false, 0; }
    CopyIn(buf, at, head);
    lenUsed := |head|;
    ok, length := ComposeStart(buf, at, lenUsed, maxLen - lenUsed, head, r);
    if !ok { return false, lenUsed; }
    ghost var written := head + StartText(r).value;
    lenUsed := lenUsed + length;
    if maxLen - lenUsed < 1 { return false, lenUsed; }
    Append(buf, at, lenUsed, written, "-");
    written := written + "-";
    lenUsed := lenUsed + 1;
    ok, length := ComposeStop(buf, at, lenUsed, maxLen - lenUsed, written, r);
    if !ok { return false, lenUsed; }
    written := written + StopText(r).value;
    lenUsed := lenUsed + length;
    if maxLen - lenUsed < 2 { return false, lenUsed; }
    Append(buf, at, lenUsed, written, "\r\n");
    return true, lenUsed + 2;
  }

  // compose_SDP_string ("a=range:") and compose_RTSP_string ("Range: "): for a
  // range with a format.  The first comparison casts the unsigned maxLen to
  // int, so a window of 2^31 bytes or more is refused.
  method ComposeLine(buf: array<char>, at: nat, maxLen: u32, r: Range, tag: string) returns (ok: bool, lenUsed: nat)
    requires at + maxLen <= buf.Length
    requires tag == "a=range:" || tag == "Range: "
    modifies buf
    ensures ok <==> RangeText(r).Some? && |tag + RangeText(r).value| <= maxLen < INT32_LIMIT
    ensures ok ==> lenUsed == |tag + RangeText(r).value| && buf[at..at + lenUsed] == tag + RangeText(r).value
    ensures forall k :: 0 <= k < buf.Length && !(at <= k < at + maxLen) ==> buf[k] == old(buf[k])
  {
    hide RangeText;
    lenUsed := 0;
    var signed := if maxLen < INT32_LIMIT then maxLen else maxLen - 0x1_0000_0000;
    if signed < |tag| { return false, 0; }
    CopyIn(buf, at, tag);
    lenUsed := |tag|;
    var length;
    ok, length := ComposeRange(buf, at + lenUsed, maxLen - lenUsed, r);
    if ok {
      assert buf[at..at + lenUsed] == tag;
      Glue(buf, at, lenUsed, length);
    }
    lenUsed := lenUsed + length;
  }

  // An SDP attribute composed into a buffer of the estimated size always
  // succeeds, for every range that can be composed at all.
  method ComposeEstimated(r: Range) returns (buf: array<char>, lenUsed: nat)
    requires RangeText(r).Some?
    ensures lenUsed <= buf.Length == Estimate(r)
    ensures buf[..lenUsed] == "a=range:" + RangeText(r).value
  {
    EstimateSuffices(r);
    EstimateSmall(r);
    buf := new char[Estimate(r)];
    var ok;
    ok, lenUsed := ComposeLine(buf, 0, Estimate(r), r, "a=range:");
    assert buf[0..0 + lenUsed] == buf[..lenUsed];
  }

  lemma EstimateSmall(r: Range)
    ensures Estimate(r) < 100
  {
  }
}
