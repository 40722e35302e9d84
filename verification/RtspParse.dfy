// parseRtspRange and its helpers (rtsp_range_utils.cpp), over a character
// buffer and positions in it.  The buffer may be longer than the range being
// parsed, and several tests look at the character just past the range, so
// positions are absolute; past the buffer lies the string terminator.
//
// The scanning loops are methods proved equal to the functions that the
// straight-line parsers, and the round-trip proofs, are written with.
module RtspParse {
  import opened Counting
  import opened RtspText

  const UINT32 := 0x1_0000_0000

  function At(s: string, i: nat): char
  {
    if i < |s| then s[i] else '\0'
  }

  predicate IsDigit(c: char)
  {
    '0' <= c <= '9'
  }

  // What ends a type word.
  const DELIMITERS: set<char> := {'=', ':', ' ', '\t'}

  const WS: set<char> := {' ', '\t'}
  const WS_LT: set<char> := {' ', '\t', '\r', '\n'}

  // First position at or after i that holds one of the stop characters, or end.
  function Scan(s: string, i: nat, end: nat, stop: set<char>): (p: nat)
    ensures i <= p && (i <= end ==> p <= end)
    decreases end - i
  {
    if i < end && At(s, i) !in stop then Scan(s, i + 1, end, stop) else i
  }

  // First position at or after i that holds none of the given characters, or end.
  function Skip(s: string, i: nat, end: nat, skip: set<char>): nat
    decreases end - i
  {
    if i < end && At(s, i) in skip then Skip(s, i + 1, end, skip) else i
  }

  // PV_atoi: 32-bit accumulation; a drop in the running value is the only
  // overflow the code notices.
  function Atoi(s: string, i: nat, end: nat, acc: u32): Option<u32>
    decreases end - i
  {
    if i >= end then
      Some(acc)
    else if !IsDigit(At(s, i)) then
      None
    else
      var v: u32 := (acc * 10 + (At(s, i) as int - '0' as int)) % UINT32;
      if acc > v then None else Atoi(s, i + 1, end, v)
  }

  // !strncmp(s + i, literal, n): equal on the first n characters, or up to a
  // terminator common to both.
  predicate SamePrefix(s: string, i: nat, literal: string, k: nat, n: nat)
    decreases n - k
  {
    k >= n
    || (At(s, i + k) == At(literal, k)
        && (At(literal, k) == '\0' || SamePrefix(s, i, literal, k + 1, n)))
  }

  // parse_range_integer: position after the number, and its value
  function RangeInteger(s: string, start: nat, end: nat, maxDigits: nat, sep: Option<char>): Option<(nat, u32)>
  {
    var endpoint := if maxDigits > 0 && start + maxDigits < end then start + maxDigits else end;
    var eptr := if sep.Some? then Scan(s, start, endpoint, {sep.value}) else endpoint;
    var value := Atoi(s, start, eptr, 0);
    if value.None? then None else Some((eptr, value.value))
  }

  // --------------------------------------------------------- scanning loops

  method ScanTo(s: string, start: nat, end: nat, stop: set<char>) returns (p: nat)
    ensures p == Scan(s, start, end, stop)
  {
    p := start;
    while p < end && At(s, p) !in stop
      invariant Scan(s, p, end, stop) == Scan(s, start, end, stop)
    {
      p := p + 1;
    }
  }

  method SkipOver(s: string, start: nat, end: nat, skip: set<char>) returns (p: nat)
    ensures p == Skip(s, start, end, skip)
  {
    p := start;
    while p < end && At(s, p) in skip
      invariant Skip(s, p, end, skip) == Skip(s, start, end, skip)
    {
      p := p + 1;
    }
  }

  method PvAtoi(s: string, start: nat, end: nat) returns (r: Option<u32>)
    ensures r == Atoi(s, start, end, 0)
  {
    var p, value: u32 := start, 0;
    while p < end
      invariant Atoi(s, p, end, value) == Atoi(s, start, end, 0)
    {
      if !IsDigit(At(s, p)) { return None; }
      var before := value;
      value := (value * 10 + (At(s, p) as int - '0' as int)) % UINT32;
      p := p + 1;
      if before > value { return None; }
    }
    return Some(value);
  }

  method ParseRangeInteger(s: string, start: nat, end: nat, maxDigits: nat, sep: Option<char>)
    returns (r: Option<(nat, u32)>)
    ensures r == RangeInteger(s, start, end, maxDigits, sep)
  {
    var endpoint := if maxDigits > 0 && end - start > maxDigits then start + maxDigits else end;
    var eptr := endpoint;
    if sep.Some? {
      eptr := ScanTo(s, start, endpoint, {sep.value});
    }
    var value := PvAtoi(s, start, eptr);
    r := if value.None? then None else Some((eptr, value.value));
  }

  // ------------------------------------------------------------------ times

  // A time whose text carries a fraction is outside this model.
  datatype Parsed<+T> = Rejected | Fractional | Ok(value: T)

  // parse_smpte_format
  function ParseSmpte(s: string, start: nat, end: nat, format: SmpteFormat): Option<Smpte>
  {
    var hh := RangeInteger(s, start, end, 2, Some(':'));
    if hh.None? || At(s, hh.value.0) != ':' then None else
    var mm := RangeInteger(s, hh.value.0 + 1, end, 2, Some(':'));
    if mm.None? || At(s, mm.value.0) != ':' || mm.value.1 > 59 then None else
    var ss := RangeInteger(s, mm.value.0 + 1, end, 2, Some(':'));
    if ss.None? || ss.value.1 > 59 then None else
    if At(s, ss.value.0) != ':' then
      Some(Smpte(hh.value.1 % 256, mm.value.1, ss.value.1, 0, 0))
    else
      var ff := RangeInteger(s, ss.value.0 + 1, end, 2, Some('.'));
      if ff.None? || (format == Smpte25 && ff.value.1 > 25) || ff.value.1 > 30 then None else
      if At(s, ff.value.0) != '.' then
        Some(Smpte(hh.value.1 % 256, mm.value.1, ss.value.1, ff.value.1, 0))
      else
        var sub := RangeInteger(s, ff.value.0 + 1, end, 2, None);
        if sub.None? || sub.value.1 > 99 then None else
        Some(Smpte(hh.value.1 % 256, mm.value.1, ss.value.1, ff.value.1, sub.value.1))
  }

  // parse_npt_format
  function ParseNpt(s: string, start: nat, end: nat): Parsed<Npt>
  {
    if SamePrefix(s, start, "now", 0, 3) then Ok(Now) else
    var colon := Scan(s, start, end, {':'});
    if At(s, colon) == ':' then ParseHms(s, start, colon, end) else ParseSeconds(s, start, colon)
  }

  function ParseHms(s: string, start: nat, colon: nat, end: nat): Parsed<Npt>
  {
    var hh := RangeInteger(s, start, colon, 0, Some(':'));
    if hh.None? then Rejected else
    var mm := RangeInteger(s, hh.value.0 + 1, end, 2, Some(':'));
    if mm.None? || At(s, mm.value.0) != ':' || mm.value.1 > 59 then Rejected else
    var ss := RangeInteger(s, mm.value.0 + 1, end, 2, Some('.'));
    if ss.None? || ss.value.1 > 59 then Rejected else
    if At(s, ss.value.0) == '.' then Fractional else
    Ok(NptHms(hh.value.1, mm.value.1, ss.value.1))
  }

  function ParseSeconds(s: string, start: nat, end: nat): Parsed<Npt>
  {
    var sec := RangeInteger(s, start, end, 0, Some('.'));
    if sec.None? then Rejected else
    if At(s, sec.value.0) == '.' then Fractional else
    Ok(NptSec(sec.value.1, 0))
  }

  // parse_abs_format
  function ParseAbs(s: string, start: nat, end: nat): Parsed<Abs>
  {
    var t := start + 8;
    if t >= end || At(s, t) != 'T' then Rejected else
    var year := RangeInteger(s, start, t, 4, Some('T'));
    if year.None? || year.value.1 > 9999 then Rejected else
    var month := RangeInteger(s, year.value.0, t, 2, Some('T'));
    if month.None? || month.value.1 == 0 || month.value.1 > 12 then Rejected else
    var day := RangeInteger(s, month.value.0, t, 2, Some('T'));
    if day.None? || day.value.1 == 0 || day.value.1 > 31 then Rejected else
    var z := t + 7;
    if z >= end || (At(s, z) != 'Z' && At(s, z) != '.') then Rejected else
    var hh := RangeInteger(s, t + 1, z, 2, None);
    if hh.None? || hh.value.1 > 23 then Rejected else
    var mm := RangeInteger(s, hh.value.0, z, 2, None);
    if mm.None? || mm.value.1 > 59 then Rejected else
    var ss := RangeInteger(s, mm.value.0, z, 2, None);
    if ss.None? || ss.value.1 > 59 then Rejected else
    if At(s, z) == '.' then Fractional else
    Ok(Abs(year.value.1, month.value.1, day.value.1, hh.value.1, mm.value.1, ss.value.1))
  }

  // ----------------------------------------------------------------- ranges

  // The two ends of a range, found after the "=": each is a pair of positions,
  // absent when nothing is there.
  datatype Ends = Ends(start: Option<(nat, nat)>, stop: Option<(nat, nat)>)

  // The part the three formats share: from the position `eptr` where the type
  // word ended, through the separator, to the extents of the two times.
  function SplitEnds(s: string, eptr: nat, end: nat, separators: set<char>): Option<Ends>
  {
    var eq := if At(s, eptr) == '=' then eptr else Scan(s, eptr, end, separators);
    var first := Skip(s, eq + 1, end, WS);
    if first >= end then None else
    var dash := Scan(s, first, end, {'-'});
    if At(s, dash) != '-' then None else
    var second := Skip(s, dash + 1, end, WS_LT);
    Some(Ends(if dash > first then Some((first, dash)) else None,
              if second < end then Some((second, Scan(s, second, end, WS_LT))) else None))
  }

  function ParseSmpteEnd(s: string, extent: Option<(nat, nat)>, format: SmpteFormat): Parsed<Option<Smpte>>
  {
    if extent.None? then Ok(None) else
    var v := ParseSmpte(s, extent.value.0, extent.value.1, format);
    if v.None? then Rejected else Ok(v)
  }

  function ParseNptEnd(s: string, extent: Option<(nat, nat)>): Parsed<Option<Npt>>
  {
    if extent.None? then Ok(None) else
    match ParseNpt(s, extent.value.0, extent.value.1)
    case Rejected => Rejected
    case Fractional => Fractional
    case Ok(v) => Ok(Some(v))
  }

  // An absent end of an absolute range keeps whatever value the caller's
  // object held, reported as set: `otherwise` says what that is.
  function ParseAbsEnd(s: string, extent: Option<(nat, nat)>, otherwise: Option<Abs>): Parsed<Option<Abs>>
  {
    if extent.None? then Ok(otherwise) else
    match ParseAbs(s, extent.value.0, extent.value.1)
    case Rejected => Rejected
    case Fractional => Fractional
    case Ok(v) => Ok(Some(v))
  }

  // The start is parsed first, so its failure decides.
  function Both<T>(start: Parsed<T>, end: Parsed<T>): Parsed<(T, T)>
  {
    match start
    case Rejected => Rejected
    case Fractional => Fractional
    case Ok(a) =>
      match end
      case Rejected => Rejected
      case Fractional => Fractional
      case Ok(b) => Ok((a, b))
  }

  function ParseAsSmpte(s: string, eptr: nat, length: nat, format: SmpteFormat): Parsed<Range>
  {
    var ends := SplitEnds(s, eptr, length, {'='});
    if ends.None? then Rejected else
    match Both(ParseSmpteEnd(s, ends.value.start, format), ParseSmpteEnd(s, ends.value.stop, format))
    case Rejected => Rejected
    case Fractional => Fractional
    case Ok((a, b)) => Ok(SmpteRange(format, a, b))
  }

  function ParseAsNpt(s: string, eptr: nat, length: nat): Parsed<Range>
  {
    var ends := SplitEnds(s, eptr, length, {'=', ':'});
    if ends.None? then Rejected else
    match Both(ParseNptEnd(s, ends.value.start), ParseNptEnd(s, ends.value.stop))
    case Rejected => Rejected
    case Fractional => Fractional
    case Ok((a, b)) => Ok(NptRange(a, b))
  }

  function ParseAsAbs(s: string, eptr: nat, length: nat, stale: Abs): Parsed<Range>
  {
    var ends := SplitEnds(s, eptr, length, {'='});
    if ends.None? then Rejected else
    match Both(ParseAbsEnd(s, ends.value.start, None), ParseAbsEnd(s, ends.value.stop, Some(stale)))
    case Rejected => Rejected
    case Fractional => Fractional
    case Ok((a, b)) => Ok(AbsRange(a, b))
  }

  // The n characters at first are the start of one of the SMPTE words.
  predicate NamesSmpte(s: string, first: nat, n: nat)
  {
    SamePrefix(s, first, "smpte", 0, n) || SamePrefix(s, first, "smpte-25", 0, n)
    || SamePrefix(s, first, "smpte-30-drop", 0, n)
  }

  function NamedFormat(s: string, first: nat): SmpteFormat
  {
    if SamePrefix(s, first, "smpte-30-drop", 0, 13) then Smpte30Drop
    else if SamePrefix(s, first, "smpte-25", 0, 8) then Smpte25
    else SmpteDefault
  }

  // parseRtspRange.  `stale` is the end time the caller's range object held
  // before the call.  The playlist_play_time form answers Fractional: like the
  // fractions, it is outside this model.
  function ParseRange(s: string, length: nat, stale: Abs): Parsed<Range>
  {
    var first := Skip(s, 0, length, WS_LT);
    if first >= length then Rejected else
    ParseWord(s, first, Scan(s, first, length, DELIMITERS), length, stale)
  }

  // The parser the type word from first to eptr asks for.
  function ParseWord(s: string, first: nat, eptr: nat, length: nat, stale: Abs): Parsed<Range>
    requires first <= eptr
  {
    var n := eptr - first;
    if NamesSmpte(s, first, n) then
      ParseAsSmpte(s, eptr, length, NamedFormat(s, first))
    else if SamePrefix(s, first, "npt", 0, n) then
      ParseAsNpt(s, eptr, length)
    else if SamePrefix(s, first, "clock", 0, n) then
      ParseAsAbs(s, eptr, length, stale)
    else if SamePrefix(s, first, "playlist_play_time", 0, n) then
      Fractional
    else
      Rejected
  }
}
