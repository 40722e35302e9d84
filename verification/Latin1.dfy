// Text in an unknown native encoding on its way through the media scanner
// (mediascanner.cpp, autodetect.cpp): bytes taken for Latin-1 are encoded as
// UTF-8, the encoded text is searched for the encodings it could have been in,
// and the original bytes are untangled again in place.
module Latin1 {
  import opened ByteBuffer

  // (b >> 6) | 0xC0 and (b & 0x3F) | 0x80 for a byte with the top bit set.
  function EncodeByte(b: Byte): (r: seq<Byte>)
    ensures |r| == if b >= 128 then 2 else 1
  {
    if b >= 128 then [192 + b / 64, 128 + b % 64] else [b]
  }

  // ((lead << 6) & 0xC0) | (next & 0x3F)
  function DecodePair(lead: Byte, next: Byte): Byte
  {
    64 * (lead % 4) + next % 64
  }

  function Encode(s: seq<Byte>): seq<Byte>
  {
    if s == [] then [] else EncodeByte(s[0]) + Encode(s[1..])
  }

  // Every byte with the top bit set where a character starts has a byte behind
  // it, so reading in pairs stops at the terminator.
  predicate Paired(t: seq<Byte>)
  {
    t == [] || (if t[0] < 128 then Paired(t[1..]) else |t| >= 2 && Paired(t[2..]))
  }

  function Untangle(t: seq<Byte>): (r: seq<Byte>)
    requires Paired(t)
    ensures |r| <= |t|
  {
    if t == [] then []
    else if t[0] < 128 then [t[0]] + Untangle(t[1..])
    else [DecodePair(t[0], t[1])] + Untangle(t[2..])
  }

  lemma DecodeEncode(b: Byte)
    requires b >= 128
    ensures var e := EncodeByte(b); e[0] >= 128 && e[1] >= 128 && DecodePair(e[0], e[1]) == b
  {}

  // Untangling undoes the encoding, on every byte string.
  lemma {:induction false} RoundTrip(s: seq<Byte>)
    ensures Paired(Encode(s)) && Untangle(Encode(s)) == s
  {
    if s != [] {
      RoundTrip(s[1..]);
      var t := Encode(s);
      if s[0] >= 128 {
        DecodeEncode(s[0]);
        assert t[2..] == Encode(s[1..]);
      } else {
        assert t[1..] == Encode(s[1..]);
      }
      assert s == [s[0]] + s[1..];
    }
  }

  // UTF-8 of characters up to U+00FF.
  predicate Latin1Utf8(t: seq<Byte>)
  {
    t == [] ||
    (if t[0] < 128 then Latin1Utf8(t[1..])
     else |t| >= 2 && (t[0] == 194 || t[0] == 195) && 128 <= t[1] < 192 && Latin1Utf8(t[2..]))
  }

  // The other way round only that text comes back: any other UTF-8 that gets
  // this far is mangled.
  lemma {:induction false} EncodeUntangle(t: seq<Byte>)
    requires Paired(t)
    ensures Encode(Untangle(t)) == t <==> Latin1Utf8(t)
    decreases |t|
  {
    if t != [] {
      var r := Untangle(t);
      var n := if t[0] < 128 then 1 else 2;
      EncodeUntangle(t[n..]);
      assert r == [r[0]] + Untangle(t[n..]) && r[1..] == Untangle(t[n..]);
      assert Encode(r) == EncodeByte(r[0]) + Encode(r[1..]);
      assert t == t[..n] + t[n..];
      if n == 2 {
        PairComesBack(t[0], t[1]);
        SamePrefix(EncodeByte(r[0]), Encode(r[1..]), t[..2], t[2..]);
      } else {
        SamePrefix([t[0]], Encode(r[1..]), t[..1], t[1..]);
      }
    }
  }

  lemma PairComesBack(lead: Byte, next: Byte)
    requires lead >= 128
    ensures EncodeByte(DecodePair(lead, next)) == [lead, next] <==>
            (lead == 194 || lead == 195) && 128 <= next < 192
  {
    var hi, lo := lead % 4, next % 64;
    var d := 64 * hi + lo;
    assert d / 64 == hi && d % 64 == lo;
    assert d >= 128 <==> hi >= 2;
    assert 192 + hi == lead && hi >= 2 <==> lead == 194 || lead == 195;
    assert 128 + lo == next <==> 128 <= next < 192;
  }

  lemma SamePrefix(a: seq<Byte>, x: seq<Byte>, b: seq<Byte>, y: seq<Byte>)
    requires |a| == |b| || (|a| == 1 && |b| == 2 && a[0] < 128 <= b[0])
    ensures a + x == b + y <==> a == b && x == y
  {
    if |a| == |b| {
      assert a == (a + x)[..|a|] && b == (b + y)[..|a|];
      assert x == (a + x)[|a|..] && y == (b + y)[|a|..];
    } else {
      assert (a + x)[0] == a[0] && (b + y)[0] == b[0];
    }
  }

  // ------------------------------------------------------------- the loops

  lemma EncodeFrom(s: seq<Byte>, c: nat)
    requires c < |s|
    ensures Encode(s[c..]) == EncodeByte(s[c]) + Encode(s[c + 1..])
  {
    assert s[c..][1..] == s[c + 1..];
  }

  lemma {:induction false} EncodeLength(s: seq<Byte>)
    ensures |s| <= |Encode(s)| <= 2 * |s|
  {
    if s != [] { EncodeLength(s[1..]); }
  }

  // One turn of the encoding loop.
  method EmitByte(uch: Byte, temp: array<Byte>, dest: nat) returns (dest': nat)
    requires dest + 2 <= temp.Length
    modifies temp
    ensures dest' == dest + |EncodeByte(uch)| && temp[..dest'] == old(temp[..dest]) + EncodeByte(uch)
  {
    if uch >= 128 {
      temp[dest] := 192 + uch / 64;
      temp[dest + 1] := 128 + uch % 64;
      dest' := dest + 2;
    } else {
      temp[dest] := uch;
      dest' := dest + 1;
    }
    assert temp[..dest] == old(temp[..dest]);
  }

  // The encoding loop, into room for twice the string.
  method EncodeInto(value: array<Byte>, temp: array<Byte>, ghost s: seq<Byte>)
    requires Holds(value[..], s) && value != temp && temp.Length == 2 * |s| + 1
    modifies temp
    ensures |Encode(s)| < temp.Length && temp[..|Encode(s)|] == Encode(s) && temp[|Encode(s)|] == 0
  {
    hide Encode, EncodeByte;
    var src, dest := 0, 0;
    assert s[0..] == s;
    while value[src] != 0
      invariant 0 <= src <= |s| && 0 <= dest <= 2 * src
      invariant temp[..dest] + Encode(s[src..]) == Encode(s)
      decreases |s| - src
    {
      assert value[..][..|s|] == s && src < |s|;
      EncodeFrom(s, src);
      dest := EmitByte(value[src], temp, dest);
      src := src + 1;
    }
    assert value[..][..|s|] == s && src == |s|;
    EncodeLength([]);
    assert s[src..] == [] && temp[..dest] == Encode(s);
    temp[dest] := 0;
  }

  lemma UntangleFrom(t: seq<Byte>, c: nat)
    requires c < |t| && Paired(t[c..])
    ensures t[c] < 128 ==> Paired(t[c + 1..]) && Untangle(t[c..]) == [t[c]] + Untangle(t[c + 1..])
    ensures t[c] >= 128 ==>
              c + 2 <= |t| && Paired(t[c + 2..])
              && Untangle(t[c..]) == [DecodePair(t[c], t[c + 1])] + Untangle(t[c + 2..])
  {
    assert t[c..][1..] == t[c + 1..];
    if t[c] >= 128 { assert t[c..][2..] == t[c + 2..]; }
  }

  // The in-place loop: what is written never reaches what is still to be read.
  method UntangleInPlace(a: array<Byte>, ghost t: seq<Byte>) returns (len: nat)
    requires Holds(a[..], t) && Paired(t)
    modifies a
    ensures len == |Untangle(t)| <= |t| && a[..len] == Untangle(t) && a[len] == 0
    ensures forall i :: len < i < a.Length ==> a[i] == old(a[i])
  {
    hide Paired, Untangle;
    assert forall i :: 0 <= i < |t| ==> a[i] == a[..][..|t|][i];
    var src, dest := 0, 0;
    assert t[0..] == t;
    while a[src] != 0
      invariant 0 <= dest <= src <= |t| && Paired(t[src..])
      invariant forall i :: dest <= i < a.Length ==> a[i] == old(a[i])
      invariant a[..dest] + Untangle(t[src..]) == Untangle(t)
      decreases |t| - src
    {
      UntangleFrom(t, src);
      var uch := a[src];
      ghost var before := a[..dest];
      if uch >= 128 {
        a[dest] := DecodePair(uch, a[src + 1]);
        src := src + 2;
      } else {
        a[dest] := uch;
        src := src + 1;
      }
      dest := dest + 1;
      assert a[..dest] == before + [a[dest - 1]];
    }
    assert t[src..] == [] && |Untangle(t[src..])| <= 0;
    assert a[..dest] == Untangle(t);
    a[dest] := 0;
    len := dest;
  }

  // ------------------------------------------------------------- detection

  datatype Range = Range(first: int, last: int)

  // The encodings, and sets of them for the bit masks.
  datatype Encoding = ShiftJIS | GBK | Big5 | EUCKR

  const ALL: set<Encoding> := {ShiftJIS, GBK, Big5, EUCKR}

  datatype Tables = Tables(shiftJIS: seq<Range>, gbk: seq<Range>, big5: seq<Range>, euckr: seq<Range>)
  {
    function Of(e: Encoding): seq<Range>
    {
      match e
      case ShiftJIS => shiftJIS
      case GBK => gbk
      case Big5 => big5
      case EUCKR => euckr
    }

    ghost predicate Ok()
    {
      Ascending(shiftJIS) && Ascending(gbk) && Ascending(big5) && Ascending(euckr)
    }
  }

  // Sorted ranges that do not overlap.
  ghost predicate Ascending(r: seq<Range>)
  {
    && (forall i :: 0 <= i < |r| ==> r[i].first <= r[i].last)
    && (forall i, j :: 0 <= i < j < |r| ==> r[i].last < r[j].first)
  }

  ghost predicate InSome(ch: int, r: seq<Range>)
  {
    exists i :: 0 <= i < |r| && r[i].first <= ch <= r[i].last
  }

  // Binary search finds what a linear search would.
  method CharMatchesEncoding(ch: int, ranges: seq<Range>) returns (found: bool)
    requires Ascending(ranges)
    ensures found <==> InSome(ch, ranges)
  {
    var low, high := 0, |ranges|;
    while low < high
      invariant 0 <= low <= high <= |ranges|
      invariant forall i :: 0 <= i < low ==> ranges[i].last < ch
      invariant forall i :: high <= i < |ranges| ==> ch < ranges[i].first
    {
      var i := (low + high) / 2;
      if ranges[i].first <= ch <= ranges[i].last { return true; }
      if ch > ranges[i].last { low := i + 1; } else { high := i; }
    }
    found := false;
  }

  // The encodings that have a character.
  ghost function Having(ch: int, t: Tables): (r: set<Encoding>)
    ensures r <= ALL
  {
    if ch < 256 then ALL else set e: Encoding | e in ALL && InSome(ch, t.Of(e))
  }

  method FindPossibleEncodings(ch: int, t: Tables) returns (result: set<Encoding>)
    requires t.Ok()
    ensures result == Having(ch, t)
  {
    hide Ascending, InSome;
    if ch < 256 { return ALL; }
    result := {};
    var m := CharMatchesEncoding(ch, t.shiftJIS);
    if m { result := result + {ShiftJIS}; }
    m := CharMatchesEncoding(ch, t.gbk);
    if m { result := result + {GBK}; }
    m := CharMatchesEncoding(ch, t.big5);
    if m { result := result + {Big5}; }
    m := CharMatchesEncoding(ch, t.euckr);
    if m { result := result + {EUCKR}; }
  }

  function Joined(hi: int, lo: int): int
  {
    256 * hi + lo
  }

  // The encodings that have every two-byte character of a native string; false
  // when its last byte starts a character that is cut off.
  predicate Whole(s: seq<Byte>)
  {
    s == [] || (if s[0] < 128 then Whole(s[1..]) else |s| >= 2 && Whole(s[2..]))
  }

  ghost function Possible(s: seq<Byte>, t: Tables): (r: set<Encoding>)
    requires Whole(s)
    ensures r <= ALL
  {
    if s == [] then ALL
    else if s[0] < 128 then Possible(s[1..], t)
    else Having(Joined(s[0], s[1]), t) * Possible(s[2..], t)
  }

  // A two-byte character starts at p.
  predicate Starts(s: seq<Byte>, p: nat)
  {
    s != [] &&
    if s[0] < 128 then p > 0 && Starts(s[1..], p - 1)
    else |s| >= 2 && (p == 0 || (p > 1 && Starts(s[2..], p - 2)))
  }

  // The first byte of a character is its upper one.
  ghost predicate Native(s: seq<Byte>, p: nat, ch: int)
  {
    Starts(s, p) && p + 1 < |s| && ch / 256 == s[p] && ch % 256 == s[p + 1]
  }

  lemma JoinedIs(hi: Byte, lo: Byte, ch: int)
    ensures ch == Joined(hi, lo) <==> ch / 256 == hi && ch % 256 == lo
  {}

  lemma NativeFirst(s: seq<Byte>, ch: int)
    requires |s| >= 2 && s[0] >= 128
    ensures Native(s, 0, ch) <==> ch == Joined(s[0], s[1])
  {
    JoinedIs(s[0], s[1], ch);
  }

  lemma NativeLater(s: seq<Byte>, p: nat, ch: int)
    requires Whole(s) && s != []
    ensures var n := if s[0] < 128 then 1 else 2;
      p >= n ==> (Native(s, p, ch) <==> Native(s[n..], p - n, ch))
    ensures Native(s, p, ch) ==> p >= (if s[0] < 128 then 1 else 2) || (s[0] >= 128 && p == 0)
  {}

  lemma HavingNative(s: seq<Byte>, ch: int, t: Tables, e: Encoding)
    requires |s| >= 2 && s[0] >= 128 && ch == Joined(s[0], s[1])
    ensures e in Having(ch, t) <==> InSome(ch, t.Of(e))
  {}

  // The encodings found are those whose tables have all two-byte characters.
  lemma {:induction false} PossibleExactly(s: seq<Byte>, t: Tables, e: Encoding)
    requires Whole(s)
    ensures e in Possible(s, t) <==> forall p: nat, ch :: Native(s, p, ch) ==> InSome(ch, t.Of(e))
    decreases |s|
  {
    if s != [] {
      var n := if s[0] < 128 then 1 else 2;
      PossibleExactly(s[n..], t, e);
      hide InSome, Native;
      forall p: nat, ch: int | Native(s[n..], p, ch) ensures Native(s, p + n, ch) { NativeLater(s, p + n, ch); }
      if n == 2 {
        var first := Joined(s[0], s[1]);
        NativeFirst(s, first);
        HavingNative(s, first, t, e);
      }
      if e in Possible(s, t) {
        forall p: nat, ch: int | Native(s, p, ch) ensures InSome(ch, t.Of(e)) {
          NativeLater(s, p, ch);
          if p < n { NativeFirst(s, ch); }
        }
      }
    }
  }

  // What one turn of the detection loop finds in encoded text.
  lemma OneTurn(e: seq<Byte>, p: nat, s: seq<Byte>)
    requires p < |e| && e[p..] == Encode(s) && Whole(s)
    ensures s != [] && (s[0] < 128 <==> e[p] < 128)
    ensures s[0] < 128 ==> e[p] == s[0] && e[p + 1..] == Encode(s[1..])
    ensures s[0] >= 128 ==> |s| >= 2 && p + 2 < |e| && DecodePair(e[p], e[p + 1]) == s[0] && SecondAt(e, p + 2, s[1..])
  {
    if s[0] >= 128 {
      DecodeEncode(s[0]);
      assert e[p + 2..] == e[p..][2..] == Encode(s[1..]);
      SecondByte(e, p + 2, s[1..]);
      assert e[p] == e[p..][0] && e[p + 1] == e[p..][1];
    } else {
      assert e[p + 1..] == e[p..][1..] == Encode(s[1..]);
      assert e[p] == e[p..][0];
    }
  }

  // The second byte of a native character, at p.
  predicate SecondAt(e: seq<Byte>, p: nat, s: seq<Byte>)
    requires p < |e| && s != []
  {
    if e[p] < 128 then e[p] == s[0] && e[p + 1..] == Encode(s[1..])
    else p + 2 <= |e| && DecodePair(e[p], e[p + 1]) == s[0] && e[p + 2..] == Encode(s[1..])
  }

  lemma SecondByte(e: seq<Byte>, p: nat, s: seq<Byte>)
    requires p <= |e| && e[p..] == Encode(s) && s != []
    ensures p < |e| && SecondAt(e, p, s)
  {
    assert e[p] == e[p..][0];
    if s[0] >= 128 {
      DecodeEncode(s[0]);
      assert e[p + 2..] == e[p..][2..] == Encode(s[1..]);
      assert e[p + 1] == e[p..][1];
    } else {
      assert e[p + 1..] == e[p..][1..] == Encode(s[1..]);
    }
  }

  lemma PossibleStep(s: seq<Byte>, t: Tables)
    requires Whole(s) && s != []
    ensures s[0] < 128 ==> Whole(s[1..]) && Possible(s, t) == Possible(s[1..], t)
    ensures s[0] >= 128 ==>
              |s| >= 2 && Whole(s[2..]) && Possible(s, t) == Having(Joined(s[0], s[1]), t) * Possible(s[2..], t)
  {}

  // The detection reads encoded text and finds the encodings of the native
  // characters.
  method PossibleEncodings(a: array<Byte>, t: Tables, ghost s: seq<Byte>) returns (result: set<Encoding>)
    requires Holds(a[..], Encode(s)) && Whole(s) && t.Ok()
    ensures result == Possible(s, t)
  {
    ghost var rest, e := s, Encode(s);
    assert forall i :: 0 <= i < |e| ==> a[i] == a[..][..|e|][i];
    hide Encode, Possible, Whole, Having, Tables.Ok, DecodePair;
    result := ALL;
    var p := 0;
    assert e[0..] == e;
    while a[p] != 0
      invariant 0 <= p <= |e| && Whole(rest) && e[p..] == Encode(rest)
      invariant result <= ALL && result * Possible(rest, t) == Possible(s, t)
      decreases |e| - p
    {
      OneTurn(e, p, rest);
      PossibleStep(rest, t);
      var ch1 := a[p];
      p := p + 1;
      if ch1 >= 128 {
        var ch2 := a[p];
        ch1 := DecodePair(ch1, ch2);
        ch2 := a[p + 1];
        p := p + 2;
        if ch2 >= 128 {
          ch2 := DecodePair(ch2, a[p]);
          p := p + 1;
        }
        assert rest[1..][1..] == rest[2..];
        var found := FindPossibleEncodings(Joined(ch1, ch2), t);
        result := result * found;
        rest := rest[2..];
      } else {
        rest := rest[1..];
      }
    }
    NothingLeft(rest, t);
  }

  lemma NothingLeft(s: seq<Byte>, t: Tables)
    requires Encode(s) == []
    ensures s == [] && Whole(s) && Possible(s, t) == ALL
  {}
}
