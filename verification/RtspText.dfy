// The values a Range header or an SDP range attribute can carry
// (rtsp_time_formats.h) and the exact text the composers produce for each
// of them (rtsp_range_utils.cpp), following sections 3.5, 3.6, 3.7 and 12.29
// of RFC 2326.  Fractional seconds are floating point and are not part of
// this model, except that a non-zero milli_sec makes composing fail.
module RtspText {
  import opened Counting

  type u8 = x: int | 0 <= x < 0x100
  type u16 = x: int | 0 <= x < 0x1_0000
  type u32 = x: int | 0 <= x < 0x1_0000_0000

  const INT32_LIMIT := 0x8000_0000

  datatype Smpte = Smpte(hours: u8, minutes: u8, seconds: u8, frames: u8, subframes: u8)

  datatype Npt =
    | Now
    | NptSec(sec: u32, milliSec: u32)
    | NptHms(hours: u32, min: u8, second: u8)

  datatype Abs = Abs(year: u16, month: u8, day: u8, hours: u8, min: u8, sec: u8)

  datatype SmpteFormat = Smpte30Drop | Smpte25 | SmpteDefault

  // start_is_set and end_is_set are the Some of the two ends.
  datatype Range =
    | NptRange(nptStart: Option<Npt>, nptEnd: Option<Npt>)
    | SmpteRange(format: SmpteFormat, smpteStart: Option<Smpte>, smpteEnd: Option<Smpte>)
    | AbsRange(absStart: Option<Abs>, absEnd: Option<Abs>)

  // ---------------------------------------------------------------- numbers

  function Digit(d: nat): char
    requires d < 10
  {
    ('0' as int + d) as char
  }

  // "%d" of a non-negative value
  function Dec(n: nat): string
  {
    if n < 10 then [Digit(n)] else Dec(n / 10) + [Digit(n % 10)]
  }

  // "%d" of a uint32 passed where an int is expected
  function DecInt(n: u32): string
  {
    if n < INT32_LIMIT then Dec(n) else "-" + Dec(0x1_0000_0000 - n)
  }

  // "%02d"
  function Dec2(n: nat): string
  {
    if n < 10 then ['0', Digit(n)] else Dec(n)
  }

  // "%04d"
  function Dec4(n: nat): string
  {
    if n < 10 then "000" + Dec(n) else if n < 100 then "00" + Dec(n) else if n < 1000 then "0" + Dec(n) else Dec(n)
  }

  // ------------------------------------------------------------------ times

  // Text of one SMPTE time: a field of more than two digits makes the
  // composer's length check fail.
  function SmpteText(v: Smpte): Option<string>
  {
    if v.hours < 100 && v.minutes < 100 && v.seconds < 100 && v.frames < 100 && v.subframes < 100 then
      Some(Dec2(v.hours) + ":" + Dec2(v.minutes) + ":" + Dec2(v.seconds)
           + (if v.frames != 0 then ":" + Dec2(v.frames) else "")
           + (if v.subframes != 0 then "." + Dec2(v.subframes) else ""))
    else
      None
  }

  function NptText(v: Npt): Option<string>
  {
    match v
    case Now => Some("now")
    case NptSec(sec, milliSec) =>
      if |DecInt(sec)| <= 10 && milliSec == 0 then Some(DecInt(sec)) else None
    case NptHms(hours, min, sec) =>
      if |DecInt(hours)| < 10 && min < 100 && sec < 100 then
        Some(DecInt(hours) + ":" + Dec2(min) + ":" + Dec2(sec))
      else
        None
  }

  function AbsText(v: Abs): Option<string>
  {
    if v.year < 10000 && v.month < 100 && v.day < 100 && v.hours < 100 && v.min < 100 && v.sec < 100 then
      Some(Dec4(v.year) + Dec2(v.month) + Dec2(v.day) + "T" + Dec2(v.hours) + Dec2(v.min) + Dec2(v.sec) + "Z")
    else
      None
  }

  // ----------------------------------------------------------------- ranges

  // An end that is not set contributes nothing; one that cannot be composed
  // makes the whole range fail.
  function SmpteEndText(end: Option<Smpte>): Option<string>
  {
    if end.None? then Some("") else SmpteText(end.value)
  }

  function NptEndText(end: Option<Npt>): Option<string>
  {
    if end.None? then Some("") else NptText(end.value)
  }

  function AbsEndText(end: Option<Abs>): Option<string>
  {
    if end.None? then Some("") else AbsText(end.value)
  }

  function Join(head: string, start: Option<string>, end: Option<string>): Option<string>
  {
    if start.Some? && end.Some? then Some(head + start.value + "-" + end.value + "\r\n") else None
  }

  function SmpteName(format: SmpteFormat): string
  {
    match format
    case Smpte30Drop => "smpte-30-drop"
    case Smpte25 => "smpte-25"
    case SmpteDefault => "smpte"
  }

  function Head(r: Range): string
  {
    match r
    case NptRange(_, _) => "npt="
    case SmpteRange(format, _, _) => SmpteName(format) + "="
    case AbsRange(_, _) => "clock="
  }

  function StartText(r: Range): Option<string>
  {
    match r
    case NptRange(start, _) => NptEndText(start)
    case SmpteRange(_, start, _) => SmpteEndText(start)
    case AbsRange(start, _) => AbsEndText(start)
  }

  function StopText(r: Range): Option<string>
  {
    match r
    case NptRange(_, end) => NptEndText(end)
    case SmpteRange(_, _, end) => SmpteEndText(end)
    case AbsRange(_, end) => AbsEndText(end)
  }

  predicate StartIsSet(r: Range)
  {
    match r
    case NptRange(start, _) => start.Some?
    case SmpteRange(_, start, _) => start.Some?
    case AbsRange(start, _) => start.Some?
  }

  predicate EndIsSet(r: Range)
  {
    match r
    case NptRange(_, end) => end.Some?
    case SmpteRange(_, _, end) => end.Some?
    case AbsRange(_, end) => end.Some?
  }

  // What compose_range_string writes for a whole range, None when it fails
  // whatever the buffer.
  function RangeText(r: Range): Option<string>
  {
    if !StartIsSet(r) && !EndIsSet(r) then None else Join(Head(r), StartText(r), StopText(r))
  }

  // Texts in the form of sections 3.5 to 3.7 of RFC 2326.
  lemma StandardSmpte()
    ensures var t := RangeText(SmpteRange(Smpte25, Some(Smpte(10, 7, 0, 0, 0)), Some(Smpte(10, 7, 33, 5, 1))));
      t.Some? && t.value == "smpte-25=10:07:00-10:07:33:05.01\r\n"
    ensures SmpteName(Smpte30Drop) == "smpte-30-drop" && SmpteName(SmpteDefault) == "smpte"
  {
    StandardSmpteTimes();
    hide SmpteText;
  }

  lemma StandardSmpteTimes()
    ensures var t := SmpteText(Smpte(10, 7, 0, 0, 0)); t.Some? && t.value == "10:07:00"
    ensures var t := SmpteText(Smpte(10, 7, 33, 5, 1)); t.Some? && t.value == "10:07:33:05.01"
  {
    TwoDigits(10);
    TwoDigits(33);
    TwoDigits(7);
    TwoDigits(0);
    TwoDigits(5);
    TwoDigits(1);
    hide Dec, Dec2;
  }

  lemma StandardNpt()
    ensures var t := RangeText(NptRange(Some(Now), None)); t.Some? && t.value == "npt=now-\r\n"
    ensures var t := RangeText(NptRange(Some(NptHms(12, 5, 35)), Some(NptSec(125, 0))));
      t.Some? && t.value == "npt=12:05:35-125\r\n"
  {
    TwoDigits(12);
    TwoDigits(35);
    assert Dec(125) == Dec(12) + "5" == "125";
    assert NptText(NptHms(12, 5, 35)).value == "12:05:35";
    assert NptText(NptSec(125, 0)).value == "125";
    hide NptText;
  }

  lemma StandardClock()
    ensures var t := RangeText(AbsRange(Some(Abs(1996, 11, 8, 14, 37, 20)), None));
      t.Some? && t.value == "clock=19961108T143720Z-\r\n"
  {
    StandardClockTime();
    hide AbsText;
  }

  lemma StandardYear()
    ensures Dec4(1996) == "1996"
  {
    TwoDigits(19);
    assert Dec(199) == Dec(19) + "9" == "199";
    assert Dec(1996) == Dec(199) + "6" == "1996";
  }

  lemma StandardClockTime()
    ensures var t := AbsText(Abs(1996, 11, 8, 14, 37, 20)); t.Some? && t.value == "19961108T143720Z"
  {
    StandardYear();
    TwoDigits(11);
    TwoDigits(8);
    TwoDigits(14);
    TwoDigits(20);
    TwoDigits(37);
    hide Dec, Dec2, Dec4;
    var date := Dec4(1996) + Dec2(11) + Dec2(8);
    assert date == "19961108";
    assert Dec2(14) + Dec2(37) + Dec2(20) == "143720";
  }

  lemma TwoDigits(n: nat)
    requires n < 100
    ensures Dec2(n) == [Digit(n / 10), Digit(n % 10)] && (n >= 10 ==> Dec(n) == Dec2(n))
  {}

  // --------------------------------------------------- lengths and alphabet

  lemma {:induction false} DecLength(n: nat, digits: nat, bound: nat)
    requires digits > 0 && bound == Pow10(digits)
    ensures |Dec(n)| <= digits <==> n < bound
  {
    if n < 10 {
      Pow10Grows(digits);
    } else if digits > 1 {
      DecLength(n / 10, digits - 1, Pow10(digits - 1));
    }
  }

  function Pow10(k: nat): nat
  {
    if k == 0 then 1 else 10 * Pow10(k - 1)
  }

  lemma {:induction false} Pow10Grows(k: nat)
    requires k > 0
    ensures Pow10(k) >= 10
  {
    if k > 1 { Pow10Grows(k - 1); }
  }

  lemma Powers()
    ensures Pow10(2) == 100 && Pow10(3) == 1000 && Pow10(4) == 10000 && Pow10(6) == 1_000_000
    ensures Pow10(8) == 100_000_000 && Pow10(9) == 1_000_000_000 && Pow10(10) == 10_000_000_000
  {
    assert Pow10(4) == 10000;
    assert Pow10(8) == 100_000_000;
  }

  lemma Dec2Length(n: nat)
    ensures |Dec2(n)| == 2 <==> n < 100
    ensures |Dec2(n)| >= 2
  {
    Powers();
    DecLength(n, 2, 100);
    if n >= 10 { assert |Dec(n / 10)| >= 1; }
  }

  lemma Dec4Length(n: nat)
    ensures |Dec4(n)| == 4 <==> n < 10000
    ensures |Dec4(n)| >= 4
  {
    Powers();
    DecLength(n, 1, 10);
    DecLength(n, 2, 100);
    DecLength(n, 3, 1000);
    DecLength(n, 4, 10000);
  }

  predicate AllDigits(t: string)
  {
    forall k :: 0 <= k < |t| ==> '0' <= t[k] <= '9'
  }

  lemma {:induction false} DecDigits(n: nat)
    ensures AllDigits(Dec(n)) && |Dec(n)| >= 1
  {
    if n >= 10 { DecDigits(n / 10); }
  }

  // --------------------------------------------------------------- estimate

  function EstimateNumber(n: u32): nat
  {
    if n < 1000 then 3 else if n < 1000000 then 6 else 10
  }

  function EstimateNpt(v: Npt): nat
  {
    match v
    case Now => 3
    case NptSec(sec, milliSec) => EstimateNumber(sec) + (if milliSec > 0 then 7 else 0)
    case NptHms(hours, _, _) => EstimateNumber(hours) + 6
  }

  function EstimateSmpte(v: Smpte): nat
  {
    8 + (if v.frames != 0 || v.subframes != 0 then 3 else 0) + (if v.subframes != 0 then 3 else 0)
  }

  // estimate_SDP_string_len
  function Estimate(r: Range): nat
  {
    if !StartIsSet(r) && !EndIsSet(r) then
      0
    else
      8 + |Head(r)| + 1 + 2 + match r
      case NptRange(start, end) =>
        (if start.Some? then EstimateNpt(start.value) else 0) + (if end.Some? then EstimateNpt(end.value) else 0)
      case SmpteRange(_, start, end) =>
        (if start.Some? then EstimateSmpte(start.value) else 0) + (if end.Some? then EstimateSmpte(end.value) else 0)
      case AbsRange(start, end) =>
        (if start.Some? then 16 else 0) + (if end.Some? then 16 else 0)
  }

  lemma NumberFitsEstimate(n: u32)
    requires |DecInt(n)| <= 10
    ensures |DecInt(n)| <= EstimateNumber(n)
  {
    Powers();
    DecLength(n, 3, 1000);
    DecLength(n, 6, 1_000_000);
  }

  lemma NptFitsEstimate(v: Npt)
    requires NptText(v).Some?
    ensures |NptText(v).value| <= EstimateNpt(v)
  {
    match v {
      case Now =>
      case NptSec(sec, milliSec) => NumberFitsEstimate(sec);
      case NptHms(hours, min, sec) =>
        NumberFitsEstimate(hours);
        Dec2Length(min);
        Dec2Length(sec);
    }
  }

  lemma SmpteTextLength(v: Smpte)
    requires SmpteText(v).Some?
    ensures |SmpteText(v).value| == 8 + (if v.frames != 0 then 3 else 0) + (if v.subframes != 0 then 3 else 0)
  {
    Dec2Length(v.hours);
    Dec2Length(v.minutes);
    Dec2Length(v.seconds);
    Dec2Length(v.frames);
    Dec2Length(v.subframes);
  }

  lemma AbsTextLength(v: Abs)
    requires AbsText(v).Some?
    ensures |AbsText(v).value| == 16
  {
    Dec4Length(v.year);
    Dec2Length(v.month);
    Dec2Length(v.day);
    Dec2Length(v.hours);
    Dec2Length(v.min);
    Dec2Length(v.sec);
  }

  // The estimate is an upper bound on the length of the SDP attribute for
  // every range that can be composed at all.
  lemma EstimateSuffices(r: Range)
    requires RangeText(r).Some?
    ensures |"a=range:" + RangeText(r).value| <= Estimate(r)
  {
    match r {
      case NptRange(start, end) =>
        if start.Some? { NptFitsEstimate(start.value); }
        if end.Some? { NptFitsEstimate(end.value); }
      case SmpteRange(_, start, end) =>
        if start.Some? { SmpteTextLength(start.value); }
        if end.Some? { SmpteTextLength(end.value); }
      case AbsRange(start, end) =>
        if start.Some? { AbsTextLength(start.value); }
        if end.Some? { AbsTextLength(end.value); }
    }
  }
}
