// What parseRtspRange makes of every text compose_range_string can produce:
// the range comes back exactly when its fields are within the limits the
// parser enforces, and the lemmas say which those are.
module RtspRoundTrip {
  import opened Counting
  import opened RtspText
  import opened RtspParse

  // The buffer s holds the text t at position i.
  predicate Holds(s: string, i: nat, t: string)
  {
    i + |t| <= |s| && s[i..i + |t|] == t
  }

  lemma HoldsAt(s: string, i: nat, t: string)
    requires Holds(s, i, t)
    ensures forall p :: i <= p < i + |t| ==> At(s, p) == t[p - i]
  {
    forall p | i <= p < i + |t| ensures At(s, p) == t[p - i] {
      assert s[i..i + |t|][p - i] == t[p - i];
    }
  }

  lemma HoldsSplit(s: string, i: nat, a: string, b: string)
    requires Holds(s, i, a + b)
    ensures Holds(s, i, a) && Holds(s, i + |a|, b)
  {
    var t := s[i..i + |a + b|];
    assert s[i..i + |a|] == t[..|a|] == a;
    assert s[i + |a|..i + |a| + |b|] == t[|a|..] == b;
  }

  predicate Avoids(t: string, stop: set<char>)
  {
    forall k :: 0 <= k < |t| ==> t[k] !in stop
  }

  // --------------------------------------------------------------- scanning

  lemma {:induction false} ScanStops(s: string, i: nat, j: nat, end: nat, stop: set<char>)
    requires i <= j <= end
    requires forall k :: i <= k < j ==> At(s, k) !in stop
    requires j == end || At(s, j) in stop
    ensures Scan(s, i, end, stop) == j
    decreases j - i
  {
    if i < j { ScanStops(s, i + 1, j, end, stop); }
  }

  lemma ScanOver(s: string, i: nat, t: string, end: nat, stop: set<char>)
    requires Holds(s, i, t) && Avoids(t, stop) && i + |t| <= end
    requires i + |t| == end || At(s, i + |t|) in stop
    ensures Scan(s, i, end, stop) == i + |t|
  {
    HoldsAt(s, i, t);
    ScanStops(s, i, i + |t|, end, stop);
  }

  // ---------------------------------------------------------------- numbers

  lemma {:induction false} AtoiAppend(s: string, i: nat, m: nat, end: nat, acc: u32)
    requires i <= m <= end
    ensures Atoi(s, i, end, acc) ==
            match Atoi(s, i, m, acc) case None => None case Some(v) => Atoi(s, m, end, v)
    decreases m - i
  {
    if i < m && IsDigit(At(s, i)) {
      var v: u32 := (acc * 10 + (At(s, i) as int - '0' as int)) % UINT32;
      if acc <= v { AtoiAppend(s, i + 1, m, end, v); }
    }
  }

  // Decimal text reads back as the number it prints, whatever surrounds it.
  lemma AtoiDigit(s: string, i: nat, m: nat, d: nat)
    requires d < 10 && At(s, i) == Digit(d) && 10 * m + d < UINT32
    ensures Atoi(s, i, i + 1, m) == Some(10 * m + d)
  {
    assert Atoi(s, i + 1, i + 1, 10 * m + d) == Some(10 * m + d);
  }

  lemma {:induction false} AtoiDec(s: string, i: nat, n: u32)
    requires Holds(s, i, Dec(n))
    ensures Atoi(s, i, i + |Dec(n)|, 0) == Some(n)
  {
    HoldsAt(s, i, Dec(n));
    if n < 10 {
      AtoiDigit(s, i, 0, n);
    } else {
      var front := Dec(n / 10);
      var end := i + |front|;
      HoldsSplit(s, i, front, [Digit(n % 10)]);
      assert At(s, end) == Digit(n % 10);
      hide Atoi, Holds;
      AtoiDec(s, i, n / 10);
      AtoiAppend(s, i, end, end + 1, 0);
      AtoiDigit(s, end, n / 10, n % 10);
    }
  }

  lemma AtoiDec2(s: string, i: nat, n: nat)
    requires n < 100 && Holds(s, i, Dec2(n))
    ensures Atoi(s, i, i + 2, 0) == Some(n)
  {
    Dec2Length(n);
    if n < 10 {
      HoldsSplit(s, i, "0", Dec(n));
      HoldsAt(s, i, "0");
      AtoiDec(s, i + 1, n);
      assert Atoi(s, i, i + 2, 0) == Atoi(s, i + 1, i + 2, 0);
    } else {
      AtoiDec(s, i, n);
    }
  }

  lemma Dec2Digits(n: nat)
    requires n < 100
    ensures |Dec2(n)| == 2 && AllDigits(Dec2(n))
  {
    Dec2Length(n);
    DecDigits(n);
  }

  lemma Dec4Digits(n: nat)
    requires n < 10000
    ensures |Dec4(n)| == 4 && AllDigits(Dec4(n))
  {
    Dec4Length(n);
    DecDigits(n);
  }

  // A two-digit field followed by anything, with a separator that is no digit.
  lemma ReadTwo(s: string, i: nat, end: nat, sep: Option<char>, n: nat)
    requires n < 100 && Holds(s, i, Dec2(n)) && i + 2 <= end
    requires sep.Some? ==> !IsDigit(sep.value)
    ensures RangeInteger(s, i, end, 2, sep) == Some((i + 2, n))
  {
    Dec2Digits(n);
    AtoiDec2(s, i, n);
    if sep.Some? { ScanOver(s, i, Dec2(n), i + 2, {sep.value}); }
  }

  lemma AtoiDec4(s: string, i: nat, n: nat)
    requires n < 10000 && Holds(s, i, Dec4(n))
    ensures Atoi(s, i, i + 4, 0) == Some(n)
  {
    Dec4Digits(n);
    var pad := |Dec4(n)| - |Dec(n)|;
    var zeros := seq(pad, _ => '0');
    assert Dec4(n) == zeros + Dec(n);
    HoldsSplit(s, i, zeros, Dec(n));
    HoldsAt(s, i, zeros);
    hide Dec, Dec4, Atoi, Holds;
    Zeros(s, i, i + pad);
    AtoiDec(s, i + pad, n);
    AtoiAppend(s, i, i + pad, i + 4, 0);
  }

  lemma ReadFour(s: string, i: nat, end: nat, n: nat)
    requires n < 10000 && Holds(s, i, Dec4(n)) && i + 4 <= end
    ensures RangeInteger(s, i, end, 4, Some('T')) == Some((i + 4, n))
  {
    Dec4Digits(n);
    AtoiDec4(s, i, n);
    hide Dec, Dec4, Atoi;
    ScanOver(s, i, Dec4(n), i + 4, {'T'});
  }

  lemma {:induction false} Zeros(s: string, i: nat, end: nat)
    requires i <= end && forall p :: i <= p < end ==> At(s, p) == '0'
    ensures Atoi(s, i, end, 0) == Some(0)
    decreases end - i
  {
    if i < end { Zeros(s, i + 1, end); }
  }

  // A number of any length, printed with "%d", up to a separator or the end.
  lemma ReadInt(s: string, i: nat, end: nat, sep: char, n: u32)
    requires Holds(s, i, DecInt(n)) && end == i + |DecInt(n)| && !IsDigit(sep) && sep != '-'
    ensures RangeInteger(s, i, end, 0, Some(sep)) == if n < INT32_LIMIT then Some((end, n)) else None
  {
    if n < INT32_LIMIT {
      DecDigits(n);
      AtoiDec(s, i, n);
    } else {
      DecDigits(UINT32 - n);
      HoldsAt(s, i, DecInt(n));
      assert At(s, i) == '-';
    }
    ScanOver(s, i, DecInt(n), end, {sep});
  }

  // ------------------------------------------------------------------ times

  function FrameLimit(format: SmpteFormat): nat
  {
    if format == Smpte25 then 25 else 30
  }

  predicate SmpteFaithful(v: Smpte, format: SmpteFormat)
  {
    v.minutes < 60 && v.seconds < 60 && v.frames <= FrameLimit(format) && (v.subframes > 0 ==> v.frames > 0)
  }

  predicate NptFaithful(v: Npt)
  {
    match v
    case Now => true
    case NptSec(sec, _) => sec < INT32_LIMIT
    case NptHms(hours, min, sec) => hours < INT32_LIMIT && min < 60 && sec < 60
  }

  predicate AbsFaithful(v: Abs)
  {
    1 <= v.month <= 12 && 1 <= v.day <= 31 && v.hours < 24 && v.min < 60 && v.sec < 60
  }

  // Where the fields of a SMPTE text lie.
  ghost predicate SmpteLayout(s: string, i: nat, v: Smpte, end: nat)
  {
    && Holds(s, i, Dec2(v.hours)) && Holds(s, i + 3, Dec2(v.minutes)) && Holds(s, i + 6, Dec2(v.seconds))
    && At(s, i + 2) == ':' && At(s, i + 5) == ':'
    && (v.frames != 0 ==> At(s, i + 8) == ':' && Holds(s, i + 9, Dec2(v.frames)))
    && (v.frames != 0 && v.subframes != 0 ==> At(s, i + 11) == '.' && Holds(s, i + 12, Dec2(v.subframes)))
    && (v.frames == 0 && v.subframes != 0 ==> At(s, i + 8) == '.')
    && end == i + 8 + (if v.frames != 0 then 3 else 0) + (if v.subframes != 0 then 3 else 0)
  }

  lemma SmpteClock(s: string, i: nat, v: Smpte)
    requires v.hours < 100 && v.minutes < 100 && v.seconds < 100
    requires Holds(s, i, Dec2(v.hours) + ":" + Dec2(v.minutes) + ":" + Dec2(v.seconds))
    ensures Holds(s, i, Dec2(v.hours)) && Holds(s, i + 3, Dec2(v.minutes)) && Holds(s, i + 6, Dec2(v.seconds))
    ensures At(s, i + 2) == ':' && At(s, i + 5) == ':'
    ensures |Dec2(v.hours) + ":" + Dec2(v.minutes) + ":" + Dec2(v.seconds)| == 8
  {
    var hh, mm, ss := Dec2(v.hours), Dec2(v.minutes), Dec2(v.seconds);
    Dec2Digits(v.hours);
    Dec2Digits(v.minutes);
    Dec2Digits(v.seconds);
    HoldsSplit(s, i, hh + ":" + mm + ":", ss);
    HoldsSplit(s, i, hh + ":" + mm, ":");
    HoldsSplit(s, i, hh + ":", mm);
    HoldsSplit(s, i, hh, ":");
    HoldsAt(s, i, hh + ":" + mm + ":" + ss);
  }

  lemma SmpteLaidOut(s: string, i: nat, v: Smpte)
    requires SmpteText(v).Some? && Holds(s, i, SmpteText(v).value)
    ensures SmpteLayout(s, i, v, i + |SmpteText(v).value|)
  {
    var t0 := Dec2(v.hours) + ":" + Dec2(v.minutes) + ":" + Dec2(v.seconds);
    var t1 := if v.frames != 0 then ":" + Dec2(v.frames) else "";
    var t2 := if v.subframes != 0 then "." + Dec2(v.subframes) else "";
    HoldsSplit(s, i, t0 + t1, t2);
    HoldsSplit(s, i, t0, t1);
    SmpteClock(s, i, v);
    Dec2Digits(v.frames);
    Dec2Digits(v.subframes);
    if v.frames != 0 { HoldsTail(s, i + 8, ':', Dec2(v.frames)); }
    if v.subframes != 0 { HoldsTail(s, i + |t0 + t1|, '.', Dec2(v.subframes)); }
  }

  lemma HoldsTail(s: string, i: nat, c: char, t: string)
    requires Holds(s, i, [c] + t)
    ensures At(s, i) == c && Holds(s, i + 1, t)
  {
    HoldsSplit(s, i, [c], t);
    HoldsAt(s, i, [c]);
  }

  // A SMPTE time reads back unless a field is over its limit, except that
  // subframes without frames are dropped.
  lemma SmpteReads(s: string, i: nat, v: Smpte, end: nat, format: SmpteFormat)
    requires v.hours < 100 && v.minutes < 100 && v.seconds < 100 && v.frames < 100 && v.subframes < 100
    requires SmpteLayout(s, i, v, end) && At(s, end) !in {':', '.'}
    ensures ParseSmpte(s, i, end, format) == Some(v) <==> SmpteFaithful(v, format)
  {
    hide RangeInteger, Holds, Dec2;
    ReadTwo(s, i, end, Some(':'), v.hours);
    ReadTwo(s, i + 3, end, Some(':'), v.minutes);
    ReadTwo(s, i + 6, end, Some(':'), v.seconds);
    if v.frames != 0 {
      ReadTwo(s, i + 9, end, Some('.'), v.frames);
      if v.subframes != 0 {
        ReadTwo(s, i + 12, end, None, v.subframes);
      }
    }
  }

  // A normal play time reads back exactly when "%d" printed it without a sign
  // and its minutes and seconds are in range.
  lemma NptReads(s: string, i: nat, v: Npt)
    requires NptText(v).Some? && Holds(s, i, NptText(v).value)
    requires At(s, i + |NptText(v).value|) !in {':', '.'}
    ensures ParseNpt(s, i, i + |NptText(v).value|) == Ok(v) <==> NptFaithful(v)
  {
    HoldsAt(s, i, NptText(v).value);
    SamePrefixNow(s, i);
    match v {
      case Now =>
      case NptSec(sec, milliSec) => NptSecReads(s, i, sec);
      case NptHms(hours, min, sec) =>
        NptHmsLaidOut(s, i, DecInt(hours), min, sec);
        NptHmsReads(s, i, hours, min, sec);
    }
  }

  lemma NptSecReads(s: string, i: nat, sec: u32)
    requires Holds(s, i, DecInt(sec)) && At(s, i + |DecInt(sec)|) !in {':', '.'}
    ensures ParseNpt(s, i, i + |DecInt(sec)|) == if sec < INT32_LIMIT then Ok(NptSec(sec, 0)) else Rejected
  {
    var end := i + |DecInt(sec)|;
    FirstOfDecInt(sec);
    HoldsAt(s, i, DecInt(sec));
    SamePrefixNow(s, i);
    DecIntAvoids(sec);
    ScanOver(s, i, DecInt(sec), end, {':'});
    ReadInt(s, i, end, '.', sec);
  }

  lemma NptHmsLaidOut(s: string, i: nat, h: string, min: u8, sec: u8)
    requires min < 100 && sec < 100
    requires Holds(s, i, h + ":" + Dec2(min) + ":" + Dec2(sec))
    ensures Holds(s, i, h) && Holds(s, i + |h| + 1, Dec2(min)) && Holds(s, i + |h| + 4, Dec2(sec))
    ensures At(s, i + |h|) == ':' && At(s, i + |h| + 3) == ':'
    ensures |h + ":" + Dec2(min) + ":" + Dec2(sec)| == |h| + 6
  {
    Dec2Digits(min);
    Dec2Digits(sec);
    HoldsSplit(s, i, h + ":" + Dec2(min) + ":", Dec2(sec));
    HoldsSplit(s, i, h + ":" + Dec2(min), ":");
    HoldsSplit(s, i, h + ":", Dec2(min));
    HoldsSplit(s, i, h, ":");
    HoldsAt(s, i, h + ":" + Dec2(min) + ":" + Dec2(sec));
  }

  // What decides for the form with colons.
  lemma NptHmsHead(s: string, i: nat, hours: u32, end: nat)
    requires Holds(s, i, DecInt(hours)) && At(s, i + |DecInt(hours)|) == ':' && i + |DecInt(hours)| < end
    ensures !SamePrefix(s, i, "now", 0, 3) && Scan(s, i, end, {':'}) == i + |DecInt(hours)|
  {
    FirstOfDecInt(hours);
    HoldsAt(s, i, DecInt(hours));
    SamePrefixNow(s, i);
    DecIntAvoids(hours);
    ScanOver(s, i, DecInt(hours), end, {':'});
    hide Holds, DecInt, Scan, SamePrefix;
  }

  lemma NptHmsReads(s: string, i: nat, hours: u32, min: u8, sec: u8)
    requires min < 100 && sec < 100
    requires var h := DecInt(hours);
      Holds(s, i, h) && Holds(s, i + |h| + 1, Dec2(min)) && Holds(s, i + |h| + 4, Dec2(sec))
      && At(s, i + |h|) == ':' && At(s, i + |h| + 3) == ':' && At(s, i + |h| + 6) != '.'
    ensures ParseNpt(s, i, i + |DecInt(hours)| + 6) ==
      if hours < INT32_LIMIT && min < 60 && sec < 60 then Ok(NptHms(hours, min, sec)) else Rejected
  {
    hide RangeInteger, Holds, Dec2, DecInt, Scan, SamePrefix, Avoids, Atoi, Dec, Skip, ParseHms, At;
    var h := DecInt(hours);
    var end := i + |h| + 6;
    NptHmsHead(s, i, hours, end);
    ReadInt(s, i, i + |h|, ':', hours);
    ReadTwo(s, i + |h| + 1, end, Some(':'), min);
    ReadTwo(s, i + |h| + 4, end, Some('.'), sec);
    HmsRead(s, i, i + |h|, hours, min, sec);
  }

  lemma HmsRead(s: string, i: nat, colon: nat, hours: u32, min: u8, sec: u8)
    requires RangeInteger(s, i, colon, 0, Some(':')) == if hours < INT32_LIMIT then Some((colon, hours)) else None
    requires RangeInteger(s, colon + 1, colon + 6, 2, Some(':')) == Some((colon + 3, min)) && At(s, colon + 3) == ':'
    requires RangeInteger(s, colon + 4, colon + 6, 2, Some('.')) == Some((colon + 6, sec)) && At(s, colon + 6) != '.'
    ensures ParseHms(s, i, colon, colon + 6) ==
      if hours < INT32_LIMIT && min < 60 && sec < 60 then Ok(NptHms(hours, min, sec)) else Rejected
  {
    hide RangeInteger, At;
  }

  lemma SamePrefixNow(s: string, i: nat)
    ensures SamePrefix(s, i, "now", 0, 3) <==> At(s, i) == 'n' && At(s, i + 1) == 'o' && At(s, i + 2) == 'w'
  {
    assert At("now", 0) == 'n' && At("now", 1) == 'o' && At("now", 2) == 'w';
    assert SamePrefix(s, i, "now", 3, 3);
    assert SamePrefix(s, i, "now", 2, 3) <==> At(s, i + 2) == 'w';
    assert SamePrefix(s, i, "now", 1, 3) <==> At(s, i + 1) == 'o' && At(s, i + 2) == 'w';
  }

  lemma FirstOfDecInt(n: u32)
    ensures |DecInt(n)| >= 1 && DecInt(n)[0] != 'n'
    ensures n < INT32_LIMIT <==> DecInt(n)[0] != '-'
  {
    DecDigits(n);
  }

  lemma DecIntAvoids(n: u32)
    ensures Avoids(DecInt(n), {':', '.', ' ', '\t', '\r', '\n'})
    ensures n < INT32_LIMIT ==> Avoids(DecInt(n), {'-'})
  {
    DecDigits(n);
    if n >= INT32_LIMIT { DecDigits(UINT32 - n); }
  }

  ghost predicate AbsLayout(s: string, i: nat, v: Abs)
  {
    && Holds(s, i, Dec4(v.year)) && Holds(s, i + 4, Dec2(v.month)) && Holds(s, i + 6, Dec2(v.day))
    && Holds(s, i + 9, Dec2(v.hours)) && Holds(s, i + 11, Dec2(v.min)) && Holds(s, i + 13, Dec2(v.sec))
    && At(s, i + 8) == 'T' && At(s, i + 15) == 'Z'
  }

  lemma AbsLaidOut(s: string, i: nat, v: Abs)
    requires AbsText(v).Some? && Holds(s, i, AbsText(v).value)
    ensures AbsLayout(s, i, v)
  {
    Dec4Digits(v.year);
    Dec2Digits(v.month);
    Dec2Digits(v.day);
    Dec2Digits(v.hours);
    Dec2Digits(v.min);
    Dec2Digits(v.sec);
    var date := Dec4(v.year) + Dec2(v.month) + Dec2(v.day);
    var time := Dec2(v.hours) + Dec2(v.min) + Dec2(v.sec);
    assert AbsText(v).value == date + "T" + time + "Z";
    HoldsAt(s, i, AbsText(v).value);
    HoldsSplit(s, i, date + "T" + time, "Z");
    HoldsSplit(s, i, date + "T", time);
    HoldsSplit(s, i, date, "T");
    HoldsSplit(s, i, Dec4(v.year) + Dec2(v.month), Dec2(v.day));
    HoldsSplit(s, i, Dec4(v.year), Dec2(v.month));
    HoldsSplit(s, i + 9, Dec2(v.hours) + Dec2(v.min), Dec2(v.sec));
    HoldsSplit(s, i + 9, Dec2(v.hours), Dec2(v.min));
  }

  lemma AbsReads(s: string, i: nat, v: Abs)
    requires AbsText(v).Some? && AbsLayout(s, i, v)
    ensures ParseAbs(s, i, i + 16) == Ok(v) <==> AbsFaithful(v)
  {
    ReadFour(s, i, i + 8, v.year);
    ReadTwo(s, i + 4, i + 8, Some('T'), v.month);
    ReadTwo(s, i + 6, i + 8, Some('T'), v.day);
    ReadTwo(s, i + 9, i + 15, None, v.hours);
    ReadTwo(s, i + 11, i + 15, None, v.min);
    ReadTwo(s, i + 13, i + 15, None, v.sec);
  }

  // ----------------------------------------------------------------- ranges

  const BLANK: set<char> := {' ', '\t', '\r', '\n'}

  lemma SkipNone(s: string, i: nat, end: nat, skip: set<char>)
    requires i >= end || At(s, i) !in skip
    ensures Skip(s, i, end, skip) == i
  {
  }

  ghost predicate AllIn(s: string, i: nat, j: nat, chars: set<char>)
  {
    i <= j && forall k :: i <= k < j ==> At(s, k) in chars
  }

  lemma {:induction false} SkipRun(s: string, i: nat, j: nat, end: nat, skip: set<char>)
    requires AllIn(s, i, j, skip) && j <= end && (j == end || At(s, j) !in skip)
    ensures Skip(s, i, end, skip) == j
    decreases j - i
  {
    if i < j { SkipRun(s, i + 1, j, end, skip); }
  }

  // Positions of the separator and of the two times.
  datatype Layout = Layout(eq: nat, first: nat, second: nat)

  // Where two texts a and b lie behind a type word that ended at i: anything up
  // to the separator, blanks, a, a dash, blanks and line ends, b, and nothing
  // but blanks and line ends up to the end of what is parsed.
  ghost predicate Laid(s: string, i: nat, l: Layout, a: string, b: string, end: nat, separators: set<char>)
  {
    && i <= l.eq && (forall k :: i <= k < l.eq ==> At(s, k) !in separators) && At(s, l.eq) in separators
    && AllIn(s, l.eq + 1, l.first, WS) && Holds(s, l.first, a)
    && At(s, l.first + |a|) == '-' && AllIn(s, l.first + |a| + 1, l.second, WS_LT) && Holds(s, l.second, b)
    && AllIn(s, l.second + |b|, end, WS_LT)
    && (if b == "" then l.second == end else At(s, l.second + |b|) !in {':', '.'})
  }

  function Extent(i: nat, t: string): Option<(nat, nat)>
  {
    if t != "" then Some((i, i + |t|)) else None
  }

  // The scans find the two texts wherever they lie.
  lemma SplitEndsReads(s: string, i: nat, l: Layout, a: string, b: string, end: nat, separators: set<char>)
    requires Laid(s, i, l, a, b, end, separators) && '=' in separators
    requires Avoids(a, BLANK + {'-'}) && Avoids(b, BLANK)
    ensures SplitEnds(s, i, end, separators) == Some(Ends(Extent(l.first, a), Extent(l.second, b)))
  {
    SeparatorFound(s, i, l, a, b, end, separators);
    FirstFound(s, i, l, a, b, end, separators);
    SecondFound(s, i, l, a, b, end, separators);
    hide Scan, Skip, Holds, Avoids, Laid, AllIn;
  }

  lemma FirstFound(s: string, i: nat, l: Layout, a: string, b: string, end: nat, separators: set<char>)
    requires Laid(s, i, l, a, b, end, separators) && Avoids(a, BLANK + {'-'})
    ensures Skip(s, l.eq + 1, end, WS) == l.first < end
    ensures Scan(s, l.first, end, {'-'}) == l.first + |a| && At(s, l.first + |a|) == '-'
  {
    HoldsAt(s, l.first, a);
    SkipRun(s, l.eq + 1, l.first, end, WS);
    ScanOver(s, l.first, a, end, {'-'});
    hide Scan, Skip, Holds;
  }

  lemma SecondFound(s: string, i: nat, l: Layout, a: string, b: string, end: nat, separators: set<char>)
    requires Laid(s, i, l, a, b, end, separators) && Avoids(b, BLANK)
    ensures Skip(s, l.first + |a| + 1, end, WS_LT) == l.second && (l.second < end <==> b != "")
    ensures b != "" ==> Scan(s, l.second, end, WS_LT) == l.second + |b|
  {
    HoldsAt(s, l.second, b);
    SkipRun(s, l.first + |a| + 1, l.second, end, WS_LT);
    if b != "" { ScanOver(s, l.second, b, end, WS_LT); }
    hide Scan, Skip, Holds;
  }

  lemma SeparatorFound(s: string, i: nat, l: Layout, a: string, b: string, end: nat, separators: set<char>)
    requires Laid(s, i, l, a, b, end, separators) && '=' in separators
    ensures l.eq < end && (if At(s, i) == '=' then i else Scan(s, i, end, separators)) == l.eq
  {
    if At(s, i) != '=' { ScanStops(s, i, l.eq, end, separators); }
    hide Scan, Holds;
  }

  // With a sign in front, what was meant as the start is not taken as one.
  lemma SplitEndsSigned(s: string, i: nat, l: Layout, a: string, b: string, end: nat, separators: set<char>)
    requires Laid(s, i, l, a, b, end, separators) && '=' in separators && a != "" && a[0] == '-'
    ensures SplitEnds(s, i, end, separators).Some? ==> SplitEnds(s, i, end, separators).value.start.None?
  {
    SeparatorFound(s, i, l, a, b, end, separators);
    HoldsAt(s, l.first, a);
    SkipRun(s, l.eq + 1, l.first, end, WS);
    ScanStops(s, l.first, l.first, end, {'-'});
    hide Scan, Skip, Holds;
  }

  // Without a dash nothing is a range, whatever else the text holds.
  lemma NeedsDash(s: string, length: nat, stale: Abs)
    requires '-' !in s
    ensures !ParseRange(s, length, stale).Ok?
  {
    hide At, Scan, Skip, SamePrefix, NamesSmpte, NamedFormat, SplitEnds, Both;
    var w := Skip(s, 0, length, WS_LT);
    var eptr := Scan(s, w, length, DELIMITERS);
    NoDashNoEnds(s, eptr, length, {'='});
    NoDashNoEnds(s, eptr, length, {'=', ':'});
  }

  lemma NoDashNoEnds(s: string, i: nat, end: nat, separators: set<char>)
    requires '-' !in s
    ensures SplitEnds(s, i, end, separators).None?
  {
    forall p: nat ensures At(s, p) != '-' {}
    hide At, Scan, Skip;
  }

  // ------------------------------------------------------- what is accepted

  // A number is read from its field and no further: at most the field's width,
  // up to the end or the first separator.
  lemma IntegerWithin(s: string, start: nat, end: nat, maxDigits: nat, sep: Option<char>)
    requires start <= end && RangeInteger(s, start, end, maxDigits, sep).Some?
    ensures var (p, v) := RangeInteger(s, start, end, maxDigits, sep).value;
      && start <= p <= end && (maxDigits > 0 ==> p <= start + maxDigits)
      && (p < end && p != start + maxDigits ==> sep.Some? && At(s, p) == sep.value)
      && (sep.Some? ==> forall k :: start <= k < p ==> At(s, k) != sep.value)
      && Atoi(s, start, p, 0) == Some(v)
  {
    var endpoint := if maxDigits > 0 && start + maxDigits < end then start + maxDigits else end;
    if sep.Some? { ScanFinds(s, start, endpoint, {sep.value}); }
    hide Atoi, Scan;
  }

  lemma {:induction false} ScanFinds(s: string, i: nat, end: nat, stop: set<char>)
    requires i <= end
    ensures var p := Scan(s, i, end, stop);
      i <= p <= end && (p < end ==> At(s, p) in stop) && forall k :: i <= k < p ==> At(s, k) !in stop
    decreases end - i
  {
    if i < end && At(s, i) !in stop { ScanFinds(s, i + 1, end, stop); }
  }

  predicate SmpteInRange(v: Smpte, format: SmpteFormat)
  {
    v.minutes < 60 && v.seconds < 60 && v.frames <= FrameLimit(format) && v.subframes < 100
  }

  predicate NptInRange(v: Npt)
  {
    match v
    case Now => true
    case NptSec(_, milliSec) => milliSec == 0
    case NptHms(_, min, sec) => min < 60 && sec < 60
  }

  predicate AbsInRange(v: Abs)
  {
    v.year < 10000 && 1 <= v.month <= 12 && 1 <= v.day <= 31 && v.hours < 24 && v.min < 60 && v.sec < 60
  }

  // The absolute end may be the caller's old one.
  predicate InRange(r: Range, stale: Abs)
  {
    match r
    case SmpteRange(format, start, stop) =>
      (start.Some? ==> SmpteInRange(start.value, format)) && (stop.Some? ==> SmpteInRange(stop.value, format))
    case NptRange(start, stop) =>
      (start.Some? ==> NptInRange(start.value)) && (stop.Some? ==> NptInRange(stop.value))
    case AbsRange(start, stop) =>
      (start.Some? ==> AbsInRange(start.value)) && stop.Some? && (stop.value == stale || AbsInRange(stop.value))
  }

  lemma SmpteAccepted(s: string, start: nat, end: nat, format: SmpteFormat)
    ensures var v := ParseSmpte(s, start, end, format); v.Some? ==> SmpteInRange(v.value, format)
  {
    hide RangeInteger, At;
  }

  lemma NptAccepted(s: string, start: nat, end: nat)
    ensures var v := ParseNpt(s, start, end); v.Ok? ==> NptInRange(v.value)
  {
    hide RangeInteger, At, Scan, SamePrefix;
  }

  // And it needs its T and its Z.
  lemma AbsAccepted(s: string, start: nat, end: nat)
    ensures var v := ParseAbs(s, start, end);
      v.Ok? ==> AbsInRange(v.value) && start + 15 < end && At(s, start + 8) == 'T' && At(s, start + 15) == 'Z'
  {
    hide RangeInteger, At;
  }

  lemma SmpteRangeAccepted(s: string, eptr: nat, length: nat, format: SmpteFormat, stale: Abs)
    ensures var r := ParseAsSmpte(s, eptr, length, format); r.Ok? ==> InRange(r.value, stale)
  {
    hide SplitEnds, ParseSmpte, SmpteInRange;
    var ends := SplitEnds(s, eptr, length, {'='});
    if ends.Some? {
      if ends.value.start.Some? { SmpteAccepted(s, ends.value.start.value.0, ends.value.start.value.1, format); }
      if ends.value.stop.Some? { SmpteAccepted(s, ends.value.stop.value.0, ends.value.stop.value.1, format); }
    }
  }

  lemma NptRangeAccepted(s: string, eptr: nat, length: nat, stale: Abs)
    ensures var r := ParseAsNpt(s, eptr, length); r.Ok? ==> InRange(r.value, stale)
  {
    hide SplitEnds, ParseNpt, NptInRange;
    var ends := SplitEnds(s, eptr, length, {'=', ':'});
    if ends.Some? {
      if ends.value.start.Some? { NptAccepted(s, ends.value.start.value.0, ends.value.start.value.1); }
      if ends.value.stop.Some? { NptAccepted(s, ends.value.stop.value.0, ends.value.stop.value.1); }
    }
  }

  lemma AbsRangeAccepted(s: string, eptr: nat, length: nat, stale: Abs)
    ensures var r := ParseAsAbs(s, eptr, length, stale); r.Ok? ==> InRange(r.value, stale)
  {
    hide SplitEnds, ParseAbs, AbsInRange;
    var ends := SplitEnds(s, eptr, length, {'='});
    if ends.Some? {
      if ends.value.start.Some? { AbsAccepted(s, ends.value.start.value.0, ends.value.start.value.1); }
      if ends.value.stop.Some? { AbsAccepted(s, ends.value.stop.value.0, ends.value.stop.value.1); }
    }
  }

  // Whatever the text, what is accepted has its fields in range.
  lemma AcceptedInRange(s: string, length: nat, stale: Abs)
    ensures var r := ParseRange(s, length, stale); r.Ok? ==> InRange(r.value, stale)
  {
    hide At, Scan, Skip, SamePrefix, NamesSmpte, NamedFormat, ParseAsSmpte, ParseAsNpt, ParseAsAbs, InRange;
    var w := Skip(s, 0, length, WS_LT);
    var eptr := Scan(s, w, length, DELIMITERS);
    SmpteRangeAccepted(s, eptr, length, NamedFormat(s, w), stale);
    NptRangeAccepted(s, eptr, length, stale);
    AbsRangeAccepted(s, eptr, length, stale);
  }

  // -------------------------------------------------------------- type words

  // strncmp is agreement on the first n characters, up to the literal's end.
  lemma {:induction false} PrefixMeans(s: string, literal: string, k: nat, n: nat)
    requires k <= |literal| && '\0' !in literal
    ensures SamePrefix(s, 0, literal, k, n) <==>
      forall j :: k <= j < n && j <= |literal| ==> At(s, j) == At(literal, j)
    decreases n - k
  {
    if k < n && At(s, k) == At(literal, k) && k < |literal| {
      assert At(literal, k) == literal[k];
      PrefixMeans(s, literal, k + 1, n);
    }
  }

  // A type word matches a literal it is a prefix of, and no other.
  lemma WordMatches(s: string, word: string, literal: string)
    requires Holds(s, 0, word) && '\0' !in literal && '\0' !in word
    ensures SamePrefix(s, 0, literal, 0, |word|) <==> word <= literal
  {
    HoldsAt(s, 0, word);
    PrefixMeans(s, literal, 0, |word|);
    if word <= literal {
      forall j | 0 <= j < |word| ensures At(s, j) == At(literal, j) { assert word[j] == literal[j]; }
    } else if |word| > |literal| {
      assert At(s, |literal|) == word[|literal|] && At(literal, |literal|) == '\0';
    } else {
      var j :| 0 <= j < |word| && word[j] != literal[j];
      assert At(s, j) == word[j] && At(literal, j) == literal[j];
    }
  }

  // Compared over its own length, a literal matches a word that starts with it.
  lemma LiteralMatches(s: string, word: string, literal: string)
    requires Holds(s, 0, word) && At(s, |word|) in DELIMITERS && Avoids(literal, DELIMITERS) && '\0' !in literal
    ensures SamePrefix(s, 0, literal, 0, |literal|) <==> literal <= word
  {
    HoldsAt(s, 0, word);
    PrefixMeans(s, literal, 0, |literal|);
    if literal <= word {
      forall j | 0 <= j < |literal| ensures At(s, j) == At(literal, j) { assert word[j] == literal[j]; }
    } else if |literal| > |word| {
      assert At(literal, |word|) == literal[|word|];
    } else {
      var j :| 0 <= j < |literal| && word[j] != literal[j];
      assert At(s, j) == word[j] && At(literal, j) == literal[j];
    }
  }

  // Comparing at w is comparing what lies behind w.
  lemma {:induction false} PrefixShift(s: string, w: nat, literal: string, k: nat, n: nat)
    requires w <= |s|
    ensures SamePrefix(s, w, literal, k, n) == SamePrefix(s[w..], 0, literal, k, n)
    decreases n - k
  {
    assert At(s, w + k) == At(s[w..], k);
    if k < n { PrefixShift(s, w, literal, k + 1, n); }
  }

  lemma HoldsShift(s: string, w: nat, word: string)
    requires Holds(s, w, word)
    ensures Holds(s[w..], 0, word) && At(s[w..], |word|) == At(s, w + |word|)
  {
    assert s[w..][..|word|] == s[w..w + |word|];
  }

  function WordFormat(word: string): SmpteFormat
  {
    if "smpte-30-drop" <= word then Smpte30Drop else if "smpte-25" <= word then Smpte25 else SmpteDefault
  }

  predicate SmpteWord(word: string)
  {
    word <= "smpte" || word <= "smpte-25" || word <= "smpte-30-drop"
  }

  lemma SmpteMatches(s: string, w: nat, word: string)
    requires Holds(s, w, word) && '\0' !in word
    ensures NamesSmpte(s, w, |word|) <==> SmpteWord(word)
  {
    HoldsShift(s, w, word);
    hide Holds, At;
    PrefixShift(s, w, "smpte", 0, |word|);
    PrefixShift(s, w, "smpte-25", 0, |word|);
    PrefixShift(s, w, "smpte-30-drop", 0, |word|);
    WordMatches(s[w..], word, "smpte");
    WordMatches(s[w..], word, "smpte-25");
    WordMatches(s[w..], word, "smpte-30-drop");
    hide SamePrefix;
  }

  lemma SmpteVariant(s: string, w: nat, word: string)
    requires Holds(s, w, word) && At(s, w + |word|) in DELIMITERS
    ensures NamedFormat(s, w) == WordFormat(word)
  {
    HoldsShift(s, w, word);
    hide Holds, At;
    PrefixShift(s, w, "smpte-30-drop", 0, 13);
    PrefixShift(s, w, "smpte-25", 0, 8);
    LiteralMatches(s[w..], word, "smpte-30-drop");
    LiteralMatches(s[w..], word, "smpte-25");
    hide SamePrefix;
  }

  lemma OtherMatches(s: string, w: nat, word: string, literal: string)
    requires Holds(s, w, word) && '\0' !in word && '\0' !in literal
    ensures SamePrefix(s, w, literal, 0, |word|) <==> word <= literal
  {
    HoldsShift(s, w, word);
    PrefixShift(s, w, literal, 0, |word|);
    WordMatches(s[w..], word, literal);
    hide SamePrefix, Holds;
  }

  lemma WordEnds(s: string, w: nat, word: string, end: nat)
    requires AllIn(s, 0, w, WS_LT) && Holds(s, w, word) && At(s, w + |word|) in DELIMITERS
    requires end > w + |word| && word != "" && Avoids(word, DELIMITERS + WS_LT)
    ensures Skip(s, 0, end, WS_LT) == w && Scan(s, w, end, DELIMITERS) == w + |word|
  {
    HoldsAt(s, w, word);
    SkipRun(s, 0, w, end, WS_LT);
    ScanOver(s, w, word, end, DELIMITERS);
    hide Skip, Scan, Holds;
  }

  // The parser for a word: that of the first type the word is a prefix of.
  function Dispatched(s: string, eptr: nat, word: string, end: nat, stale: Abs): Parsed<Range>
  {
    if SmpteWord(word) then ParseAsSmpte(s, eptr, end, WordFormat(word))
    else if word <= "npt" then ParseAsNpt(s, eptr, end)
    else if word <= "clock" then ParseAsAbs(s, eptr, end, stale)
    else if word <= "playlist_play_time" then Fractional
    else Rejected
  }

  lemma WordParsed(s: string, w: nat, word: string, end: nat, stale: Abs)
    requires Holds(s, w, word) && '\0' !in word && At(s, w + |word|) in DELIMITERS
    ensures ParseWord(s, w, w + |word|, end, stale) == Dispatched(s, w + |word|, word, end, stale)
  {
    SmpteMatches(s, w, word);
    SmpteVariant(s, w, word);
    OtherMatches(s, w, word, "npt");
    OtherMatches(s, w, word, "clock");
    OtherMatches(s, w, word, "playlist_play_time");
    hide At, SamePrefix, Holds, NamesSmpte, NamedFormat, SmpteWord, WordFormat, ParseAsSmpte, ParseAsNpt, ParseAsAbs;
  }

  // Behind any blanks, any word whatever is sent to that parser.
  lemma Dispatch(s: string, w: nat, word: string, end: nat, stale: Abs)
    requires AllIn(s, 0, w, WS_LT) && Holds(s, w, word) && At(s, w + |word|) in DELIMITERS
    requires end > w + |word| && word != "" && Avoids(word, DELIMITERS + WS_LT) && '\0' !in word
    ensures ParseRange(s, end, stale) == Dispatched(s, w + |word|, word, end, stale)
  {
    hide At, Scan, Skip, Holds, Dispatched, ParseWord, AllIn, Avoids;
    WordEnds(s, w, word, end);
    WordParsed(s, w, word, end, stale);
  }

  predicate SmpteEndFaithful(end: Option<Smpte>, format: SmpteFormat)
  {
    end.None? || SmpteFaithful(end.value, format)
  }

  predicate NptEndFaithful(end: Option<Npt>)
  {
    end.None? || NptFaithful(end.value)
  }

  // When parsing undoes composing.  The parser reports every absolute range
  // as having an end.
  predicate Faithful(r: Range)
  {
    match r
    case NptRange(start, end) => NptEndFaithful(start) && NptEndFaithful(end)
    case SmpteRange(format, start, end) => SmpteEndFaithful(start, format) && SmpteEndFaithful(end, format)
    case AbsRange(start, end) =>
      (start.None? || AbsFaithful(start.value)) && end.Some? && AbsFaithful(end.value)
  }

  lemma SmpteTextAvoids(v: Smpte)
    requires SmpteText(v).Some?
    ensures |SmpteText(v).value| > 0 && Avoids(SmpteText(v).value, BLANK + {'-'})
  {
    SmpteTextLength(v);
    Dec2Digits(v.hours);
    Dec2Digits(v.minutes);
    Dec2Digits(v.seconds);
    Dec2Digits(v.frames);
    Dec2Digits(v.subframes);
  }

  lemma NptTextAvoids(v: Npt)
    requires NptText(v).Some?
    ensures |NptText(v).value| > 0 && Avoids(NptText(v).value, BLANK)
    ensures Avoids(NptText(v).value, {'-'}) || (NptText(v).value[0] == '-' && !NptFaithful(v))
  {
    match v {
      case Now =>
      case NptSec(sec, _) => FirstOfDecInt(sec); DecIntAvoids(sec);
      case NptHms(hours, min, sec) =>
        FirstOfDecInt(hours);
        DecIntAvoids(hours);
        Dec2Digits(min);
        Dec2Digits(sec);
    }
  }

  lemma AbsTextAvoids(v: Abs)
    requires AbsText(v).Some?
    ensures Avoids(AbsText(v).value, BLANK + {'-'})
  {
    Dec4Digits(v.year);
    Dec2Digits(v.month);
    Dec2Digits(v.day);
    Dec2Digits(v.hours);
    Dec2Digits(v.min);
    Dec2Digits(v.sec);
  }

  lemma SmpteEndReads(s: string, i: nat, v: Option<Smpte>, format: SmpteFormat)
    requires SmpteEndText(v).Some? && Holds(s, i, SmpteEndText(v).value)
    requires SmpteEndText(v).value != "" ==> At(s, i + |SmpteEndText(v).value|) !in {':', '.'}
    ensures ParseSmpteEnd(s, Extent(i, SmpteEndText(v).value), format) == Ok(v) <==>
            SmpteEndFaithful(v, format)
  {
    if v.Some? {
      SmpteTextAvoids(v.value);
      SmpteLaidOut(s, i, v.value);
      SmpteReads(s, i, v.value, i + |SmpteText(v.value).value|, format);
    }
  }

  lemma NptEndReads(s: string, i: nat, v: Option<Npt>)
    requires NptEndText(v).Some? && Holds(s, i, NptEndText(v).value)
    requires NptEndText(v).value != "" ==> At(s, i + |NptEndText(v).value|) !in {':', '.'}
    ensures ParseNptEnd(s, Extent(i, NptEndText(v).value)) == Ok(v) <==> NptEndFaithful(v)
  {
    if v.Some? {
      NptTextAvoids(v.value);
      NptReads(s, i, v.value);
      hide NptText, ParseNpt, NptFaithful, Holds, Avoids;
    }
  }

  lemma AbsEndReads(s: string, i: nat, v: Option<Abs>, otherwise: Option<Abs>)
    requires AbsEndText(v).Some? && Holds(s, i, AbsEndText(v).value)
    ensures ParseAbsEnd(s, Extent(i, AbsEndText(v).value), otherwise) == Ok(v) <==>
            if v.Some? then AbsFaithful(v.value) else otherwise.None?
  {
    if v.Some? {
      AbsTextLength(v.value);
      AbsLaidOut(s, i, v.value);
      AbsReads(s, i, v.value);
    }
  }

  lemma SmpteCombine(s: string, i: nat, format: SmpteFormat, ends: Ends, start: Option<Smpte>, stop: Option<Smpte>,
                     end: nat)
    requires SplitEnds(s, i, end, {'='}) == Some(ends)
    requires ParseSmpteEnd(s, ends.start, format) == Ok(start) <==> SmpteEndFaithful(start, format)
    requires ParseSmpteEnd(s, ends.stop, format) == Ok(stop) <==> SmpteEndFaithful(stop, format)
    ensures ParseAsSmpte(s, i, end, format) == Ok(SmpteRange(format, start, stop)) <==>
            Faithful(SmpteRange(format, start, stop))
  {
  }

  lemma SmpteEndAvoids(v: Option<Smpte>)
    requires SmpteEndText(v).Some?
    ensures Avoids(SmpteEndText(v).value, BLANK + {'-'}) && Avoids(SmpteEndText(v).value, BLANK)
  {
    if v.Some? { SmpteTextAvoids(v.value); }
  }

  lemma SmpteEnds(s: string, i: nat, l: Layout, format: SmpteFormat, start: Option<Smpte>, stop: Option<Smpte>,
                  end: nat)
    requires SmpteEndText(start).Some? && SmpteEndText(stop).Some?
    requires Laid(s, i, l, SmpteEndText(start).value, SmpteEndText(stop).value, end, {'='})
    ensures ParseAsSmpte(s, i, end, format) == Ok(SmpteRange(format, start, stop)) <==>
            Faithful(SmpteRange(format, start, stop))
  {
    hide SmpteText;
    var a, b := SmpteEndText(start).value, SmpteEndText(stop).value;
    SmpteEndAvoids(start);
    SmpteEndAvoids(stop);
    SplitEndsReads(s, i, l, a, b, end, {'='});
    SmpteEndReads(s, l.first, start, format);
    SmpteEndReads(s, l.second, stop, format);
    hide AllIn, Holds, Avoids;
    SmpteCombine(s, i, format, Ends(Extent(l.first, a), Extent(l.second, b)), start, stop, end);
  }

  lemma NptCombine(s: string, i: nat, ends: Ends, start: Option<Npt>, stop: Option<Npt>, end: nat)
    requires SplitEnds(s, i, end, {'=', ':'}) == Some(ends)
    requires ParseNptEnd(s, ends.start) == Ok(start) <==> NptEndFaithful(start)
    requires ParseNptEnd(s, ends.stop) == Ok(stop) <==> NptEndFaithful(stop)
    ensures ParseAsNpt(s, i, end) == Ok(NptRange(start, stop)) <==> Faithful(NptRange(start, stop))
  {
  }

  lemma NptEndAvoids(v: Option<Npt>)
    requires NptEndText(v).Some?
    ensures var t := NptEndText(v).value;
      Avoids(t, BLANK) && (Avoids(t, {'-'}) || (v.Some? && |t| > 0 && t[0] == '-' && !NptFaithful(v.value)))
  {
    if v.Some? { NptTextAvoids(v.value); }
  }

  lemma NptEnds(s: string, i: nat, l: Layout, start: Option<Npt>, stop: Option<Npt>, end: nat)
    requires NptEndText(start).Some? && NptEndText(stop).Some?
    requires Laid(s, i, l, NptEndText(start).value, NptEndText(stop).value, end, {'=', ':'})
    ensures ParseAsNpt(s, i, end) == Ok(NptRange(start, stop)) <==> Faithful(NptRange(start, stop))
  {
    hide NptText, ParseNpt, NptFaithful, Scan, Skip;
    var a, b := NptEndText(start).value, NptEndText(stop).value;
    NptEndAvoids(start);
    NptEndAvoids(stop);
    if Avoids(a, {'-'}) {
      assert Avoids(a, BLANK + {'-'});
      SplitEndsReads(s, i, l, a, b, end, {'=', ':'});
      NptEndReads(s, l.first, start);
      NptEndReads(s, l.second, stop);
      hide AllIn, Holds, Avoids;
      NptCombine(s, i, Ends(Extent(l.first, a), Extent(l.second, b)), start, stop, end);
    } else {
      SplitEndsSigned(s, i, l, a, b, end, {'=', ':'});
    }
  }

  lemma AbsCombine(s: string, i: nat, ends: Ends, start: Option<Abs>, stop: Option<Abs>, end: nat, stale: Abs)
    requires SplitEnds(s, i, end, {'='}) == Some(ends)
    requires ParseAbsEnd(s, ends.start, None) == Ok(start) <==> (start.None? || AbsFaithful(start.value))
    requires ParseAbsEnd(s, ends.stop, Some(stale)) == Ok(stop) <==> (stop.Some? && AbsFaithful(stop.value))
    ensures ParseAsAbs(s, i, end, stale) == Ok(AbsRange(start, stop)) <==> Faithful(AbsRange(start, stop))
  {
  }

  lemma AbsEndAvoids(v: Option<Abs>)
    requires AbsEndText(v).Some?
    ensures Avoids(AbsEndText(v).value, BLANK + {'-'}) && Avoids(AbsEndText(v).value, BLANK)
  {
    if v.Some? { AbsTextAvoids(v.value); }
  }

  lemma AbsEnds(s: string, i: nat, l: Layout, start: Option<Abs>, stop: Option<Abs>, end: nat, stale: Abs)
    requires AbsEndText(start).Some? && AbsEndText(stop).Some?
    requires Laid(s, i, l, AbsEndText(start).value, AbsEndText(stop).value, end, {'='})
    ensures ParseAsAbs(s, i, end, stale) == Ok(AbsRange(start, stop)) <==> Faithful(AbsRange(start, stop))
  {
    hide AbsText;
    var a, b := AbsEndText(start).value, AbsEndText(stop).value;
    AbsEndAvoids(start);
    AbsEndAvoids(stop);
    SplitEndsReads(s, i, l, a, b, end, {'='});
    AbsEndReads(s, l.first, start, None);
    AbsEndReads(s, l.second, stop, Some(stale));
    hide AllIn, Holds, Avoids;
    AbsCombine(s, i, Ends(Extent(l.first, a), Extent(l.second, b)), start, stop, end, stale);
  }

  // ------------------------------------------------------------ whole ranges

  function Word(r: Range): string
  {
    match r
    case NptRange(_, _) => "npt"
    case SmpteRange(format, _, _) => SmpteName(format)
    case AbsRange(_, _) => "clock"
  }

  // What the source lets stand between word and start.
  function Separators(r: Range): set<char>
  {
    if r.NptRange? then {'=', ':'} else {'='}
  }

  lemma WordDispatches(r: Range, s: string, eptr: nat, end: nat, stale: Abs)
    ensures Word(r) != "" && Avoids(Word(r), DELIMITERS + WS_LT) && '\0' !in Word(r)
    ensures Dispatched(s, eptr, Word(r), end, stale) == ParsedAs(r, s, eptr, end, stale)
  {
    hide ParseAsSmpte, ParseAsNpt, ParseAsAbs;
    match r
    case NptRange(_, _) => assert Word(r)[0] == 'n' && "smpte"[0] == "smpte-25"[0] == "smpte-30-drop"[0] == 's';
    case SmpteRange(format, _, _) => assert WordFormat(SmpteName(format)) == format;
    case AbsRange(_, _) =>
      assert Word(r)[0] == 'c' && "smpte"[0] == "smpte-25"[0] == "smpte-30-drop"[0] == 's' && "npt"[0] == 'n';
  }

  // A range text reads back exactly when it is faithful, with whatever blanks
  // the parser allows around its parts, with or without its line end inside the
  // length, whatever the caller's range object held before.
  lemma Reads(r: Range, s: string, w: nat, l: Layout, a: string, b: string, end: nat, stale: Abs)
    requires StartText(r) == Some(a) && StopText(r) == Some(b)
    requires AllIn(s, 0, w, WS_LT) && Holds(s, w, Word(r)) && At(s, w + |Word(r)|) in DELIMITERS
    requires Laid(s, w + |Word(r)|, l, a, b, end, Separators(r))
    ensures ParseRange(s, end, stale) == Ok(r) <==> Faithful(r)
  {
    hide StartText, StopText, ParseRange, ParsedAs, Holds, Dispatched, AllIn, At, Word, Faithful, Avoids, Separators;
    LaidInside(s, w + |Word(r)|, l, a, b, end, Separators(r));
    WordDispatches(r, s, w + |Word(r)|, end, stale);
    hide Laid;
    Dispatch(s, w, Word(r), end, stale);
    TimesRead(r, s, w + |Word(r)|, l, a, b, end, stale);
  }

  lemma LaidInside(s: string, i: nat, l: Layout, a: string, b: string, end: nat, separators: set<char>)
    requires Laid(s, i, l, a, b, end, separators)
    ensures i < end
  {
    hide Holds, At;
  }

  // What the parser for the range's own type makes of it.
  function ParsedAs(r: Range, s: string, i: nat, end: nat, stale: Abs): Parsed<Range>
  {
    match r
    case NptRange(_, _) => ParseAsNpt(s, i, end)
    case SmpteRange(format, _, _) => ParseAsSmpte(s, i, end, format)
    case AbsRange(_, _) => ParseAsAbs(s, i, end, stale)
  }

  lemma TimesRead(r: Range, s: string, i: nat, l: Layout, a: string, b: string, end: nat, stale: Abs)
    requires StartText(r) == Some(a) && StopText(r) == Some(b)
    requires Laid(s, i, l, a, b, end, Separators(r))
    ensures ParsedAs(r, s, i, end, stale) == Ok(r) <==> Faithful(r)
  {
    hide SmpteText, NptText, AbsText, ParseAsSmpte, ParseAsNpt, ParseAsAbs, Holds, AllIn, Laid, At;
    match r {
      case NptRange(start, stop) => NptEnds(s, i, l, start, stop, end);
      case SmpteRange(format, start, stop) => SmpteEnds(s, i, l, format, start, stop, end);
      case AbsRange(start, stop) => AbsEnds(s, i, l, start, stop, end, stale);
    }
  }

  // What is composed, without its line end.
  function Bare(word: string, a: string, b: string): (t: string)
    ensures |t| == |word| + |a| + |b| + 2
  {
    word + "=" + a + "-" + b
  }

  lemma ComposedParts(r: Range, a: string, b: string)
    requires RangeText(r).Some? && StartText(r) == Some(a) && StopText(r) == Some(b)
    ensures RangeText(r) == Some(Bare(Word(r), a, b) + "\r\n")
  {
    hide StartText, StopText, SmpteName;
    assert Head(r) == Word(r) + "=";
  }

  lemma ComposedEnds(r: Range)
    requires RangeText(r).Some?
    ensures StartText(r).Some? && StopText(r).Some?
  {
    hide StartText, StopText;
  }

  // The composed text without its line end, and at most line ends behind it.
  lemma PartsLaid(s: string, word: string, a: string, b: string, end: nat, separators: set<char>)
    requires Holds(s, 0, Bare(word, a, b)) && '=' in separators && end <= |s|
    requires var n := |Bare(word, a, b)|; AllIn(s, n, end, WS_LT) && At(s, n) !in {':', '.'}
    ensures var n := |word|;
            var l := Layout(n, n + 1, if b == "" then end else n + 2 + |a|);
            Holds(s, 0, word) && At(s, n) == '=' && Laid(s, n, l, a, b, end, separators)
  {
    HoldsAt(s, 0, word + "=" + a + "-" + b);
    HoldsSplit(s, 0, word + "=" + a + "-", b);
    HoldsSplit(s, 0, word + "=" + a, "-");
    HoldsSplit(s, 0, word + "=", a);
    HoldsSplit(s, 0, word, "=");
    assert At(s, |word|) == '=' && At(s, |word| + 1 + |a|) == '-';
    if b == "" { HoldsNothing(s, end); }
    hide Holds;
  }

  lemma HoldsNothing(s: string, i: nat)
    requires i <= |s|
    ensures Holds(s, i, "")
  {}

  lemma ReadsComposed(r: Range, s: string, a: string, b: string, end: nat, stale: Abs)
    requires StartText(r) == Some(a) && StopText(r) == Some(b) && end <= |s|
    requires Holds(s, 0, Bare(Word(r), a, b))
    requires var n := |Bare(Word(r), a, b)|; AllIn(s, n, end, WS_LT) && At(s, n) !in {':', '.'}
    ensures ParseRange(s, end, stale) == Ok(r) <==> Faithful(r)
  {
    assert AllIn(s, 0, 0, WS_LT);
    hide StartText, StopText, Word, Bare, Holds, AllIn, Laid, ParseRange, Faithful, At;
    PartsLaid(s, Word(r), a, b, end, Separators(r));
    var n := |Word(r)|;
    Reads(r, s, 0, Layout(n, n + 1, if b == "" then end else n + 2 + |a|), a, b, end, stale);
  }

  // Whatever can be composed parses back to itself exactly when it is
  // faithful; nothing after the composed text matters, nor does what the
  // caller's range object held before.
  lemma RoundTrip(r: Range, s: string, stale: Abs)
    requires RangeText(r).Some? && Holds(s, 0, RangeText(r).value)
    ensures ParseRange(s, |RangeText(r).value|, stale) == Ok(r) <==> Faithful(r)
  {
    hide RangeText, StartText, StopText, Word, Holds, AllIn, ParseRange, Bare, Faithful, At;
    ComposedEnds(r);
    var a, b := StartText(r).value, StopText(r).value;
    ComposedParts(r, a, b);
    LineEnds(s, Bare(Word(r), a, b));
    ReadsComposed(r, s, a, b, |Bare(Word(r), a, b)| + 2, stale);
  }

  lemma LineEnds(s: string, text: string)
    requires Holds(s, 0, text + "\r\n")
    ensures Holds(s, 0, text) && |text| + 2 <= |s|
    ensures AllIn(s, |text|, |text| + 2, WS_LT) && At(s, |text|) == '\r'
  {
    HoldsSplit(s, 0, text, "\r\n");
    HoldsAt(s, |text|, "\r\n");
    assert At(s, |text|) == '\r' && At(s, |text| + 1) == '\n';
  }

  // And so it does for a length that stops in front of the line end, whatever
  // stands there but a colon or a point.
  lemma RoundTripBare(r: Range, s: string, stale: Abs)
    requires RangeText(r).Some?
    requires var n := |RangeText(r).value| - 2; Holds(s, 0, RangeText(r).value[..n]) && At(s, n) !in {':', '.'}
    ensures ParseRange(s, |RangeText(r).value| - 2, stale) == Ok(r) <==> Faithful(r)
  {
    hide RangeText, StartText, StopText, Word, AllIn, ParseRange, Bare, Faithful, At;
    ComposedEnds(r);
    var a, b := StartText(r).value, StopText(r).value;
    ComposedParts(r, a, b);
    var text := Bare(Word(r), a, b);
    assert RangeText(r).value[..|text|] == text;
    NothingIn(s, |text|);
    hide Holds;
    ReadsComposed(r, s, a, b, |text|, stale);
  }

  lemma NothingIn(s: string, i: nat)
    ensures AllIn(s, i, i, WS_LT)
  {}
}
