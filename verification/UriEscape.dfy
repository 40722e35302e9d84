// The two in-place escaping passes of pv_string_uri.cpp over a URL of bytes:
// one escapes stray percent signs, the other characters that may not stand in
// a URL (percent-encoding as in RFC 3986, sections 2.1 and 2.4).
module UriEscape {
  import opened ByteBuffer

  const PERCENT: Byte := 37
  const MAX_FULL_REQUEST_SIZE: nat := 4000

  // sizeof a pointer: how much of the URL the passes clear before they copy.
  const ADDRESS_BYTES: nat := 4

  function HexDigit(d: int): (r: Byte)
    requires 0 <= d < 16
  {
    if d < 10 then 48 + d else 55 + d
  }

  function Hex(b: Byte): seq<Byte>
  {
    [HexDigit(b / 16), HexDigit(b % 16)]
  }

  predicate IsHex(b: Byte)
  {
    48 <= b <= 57 || 65 <= b <= 70 || 97 <= b <= 102
  }

  function HexValue(b: Byte): (r: int)
    requires IsHex(b)
    ensures 0 <= r < 16
  {
    if b <= 57 then b - 48 else if b <= 70 then b - 55 else b - 87
  }

  // The codes the percent pass leaves alone:
  // 20 21 23 24 25 26 27 28 29 2A 2B 2C 2F 3A 3B 3D 3F 40 5B 5D.
  predicate ListedCode(hi: Byte, lo: Byte)
  {
    || (hi == 50 && (48 <= lo <= 49 || 51 <= lo <= 57 || 65 <= lo <= 67 || lo == 70))
    || (hi == 51 && (65 <= lo <= 66 || lo == 68 || lo == 70))
    || (hi == 53 && (lo == 66 || lo == 68))
    || (hi == 52 && lo == 48)
  }

  // A listed escape starts the text.
  predicate Listed(s: seq<Byte>)
  {
    |s| >= 3 && s[0] == PERCENT && ListedCode(s[1], s[2])
  }

  // A percent sign that starts no listed escape.
  predicate Stray(s: seq<Byte>)
  {
    s != [] && s[0] == PERCENT && !Listed(s)
  }

  predicate Legal(b: Byte)
  {
    63 <= b <= 91 || 97 <= b <= 122 || 35 <= b <= 59 || b == 33 || b == 61 || b == 93 || b == 95
  }

  // Section 2.2 of RFC 3986.
  predicate Reserved(b: Byte)
  {
    (b as char) in ":/?#[]@!$&'()*+,;="
  }

  // Section 2.3.
  predicate Unreserved(b: Byte)
  {
    var c := b as char;
    'A' <= c <= 'Z' || 'a' <= c <= 'z' || '0' <= c <= '9' || c in "-._~"
  }

  // The codes left alone are those of the reserved characters, of the blank and
  // of the percent sign.
  lemma ListedExactly(hi: Byte, lo: Byte)
    ensures ListedCode(hi, lo) <==>
            exists b: Byte :: (Reserved(b) || b == 32 || b == PERCENT) && Hex(b) == [hi, lo]
  {
    if ListedCode(hi, lo) {
      var b: Byte := 16 * (hi - 48) + if lo <= 57 then lo - 48 else lo - 55;
      assert b / 16 == hi - 48 && Hex(b) == [hi, lo];
      ListedIsReserved(b, hi, lo);
    } else {
      forall b: Byte | Reserved(b) || b == 32 || b == PERCENT ensures Hex(b) != [hi, lo] {
        ReservedIsListed(b);
      }
    }
  }

  lemma ReservedIsListed(b: Byte)
    requires Reserved(b) || b == 32 || b == PERCENT
    ensures ListedCode(Hex(b)[0], Hex(b)[1])
  {
    ReservedCodes(b);
  }

  lemma ReservedCodes(b: Byte)
    ensures Reserved(b) <==> b == 33 || b == 35 || b == 36 || 38 <= b <= 44 || b == 47 || b == 58 || b == 59
                             || b == 61 || b == 63 || b == 64 || b == 91 || b == 93
  {}

  lemma ListedIsReserved(b: Byte, hi: Byte, lo: Byte)
    requires Hex(b) == [hi, lo] && ListedCode(hi, lo)
    ensures Reserved(b) || b == 32 || b == PERCENT
  {
    ReservedCodes(b);
    assert hi == HexDigit(b / 16) && lo == HexDigit(b % 16);
    assert b == 16 * (b / 16) + b % 16;
  }

  // The legal characters are those of RFC 3986, but for the tilde.
  lemma LegalExactly(b: Byte)
    ensures Legal(b) <==> (Reserved(b) || Unreserved(b) || b == PERCENT) && b as char != '~'
  {
    ReservedCodes(b);
    assert Unreserved(b) <==> 65 <= b <= 90 || 97 <= b <= 122 || 48 <= b <= 57 || 45 <= b <= 46 || b == 95 || b == 126;
  }

  // What each pass does with the first byte.
  function PercentPiece(s: seq<Byte>): (r: seq<Byte>)
    requires s != []
  {
    if Stray(s) then [PERCENT, 50, 53] else [s[0]]
  }

  function IllegalPiece(b: Byte): (r: seq<Byte>)
  {
    if Legal(b) then [b] else [PERCENT] + Hex(b)
  }

  function Percents(s: seq<Byte>): seq<Byte>
  {
    if s == [] then [] else PercentPiece(s) + Percents(s[1..])
  }

  function Illegals(s: seq<Byte>): seq<Byte>
  {
    if s == [] then [] else IllegalPiece(s[0]) + Illegals(s[1..])
  }

  // ------------------------------------------------------- the percent pass

  // No stray percent sign anywhere.
  predicate Settled(s: seq<Byte>)
  {
    s == [] || (!Stray(s) && Settled(s[1..]))
  }

  lemma {:induction false} SettledIsFixed(s: seq<Byte>)
    ensures Percents(s) == s <==> Settled(s)
  {
    if s != [] {
      SettledIsFixed(s[1..]);
      assert s == [s[0]] + s[1..];
      PercentsLength(s[1..]);
      if Stray(s) { assert |Percents(s)| > |s|; }
      else if Percents(s) == s { assert Percents(s)[1..] == Percents(s[1..]); }
    }
  }

  function StrayCount(s: seq<Byte>): nat
  {
    if s == [] then 0 else (if Stray(s) then 1 else 0) + StrayCount(s[1..])
  }

  lemma {:induction false} PercentsLength(s: seq<Byte>)
    ensures |Percents(s)| == |s| + 2 * StrayCount(s)
  {
    if s != [] { PercentsLength(s[1..]); }
  }

  // Escaping leaves a listed escape at the head where it was.
  lemma PercentsListed(s: seq<Byte>)
    requires Listed(s)
    ensures Percents(s) == s[..3] + Percents(s[3..]) && Listed(Percents(s))
  {
    assert s[1..][1..][1..] == s[3..];
    assert !Stray(s) && !Stray(s[1..]) && !Stray(s[2..]);
    assert s[1..][1..] == s[2..];
    assert Percents(s[2..]) == [s[2]] + Percents(s[3..]);
    assert Percents(s[1..]) == [s[1]] + Percents(s[2..]);
  }

  lemma {:induction false} PercentsSettle(s: seq<Byte>)
    ensures Settled(Percents(s))
    decreases |s|
  {
    if s == [] {
    } else if Stray(s) {
      PercentsSettle(s[1..]);
      EscapeSettled([PERCENT, 50, 53], Percents(s[1..]));
    } else if Listed(s) {
      PercentsListed(s);
      PercentsSettle(s[3..]);
      EscapeSettled(s[..3], Percents(s[3..]));
    } else {
      PercentsSettle(s[1..]);
      assert Percents(s)[1..] == Percents(s[1..]);
    }
  }

  lemma EscapeSettled(e: seq<Byte>, rest: seq<Byte>)
    requires |e| == 3 && Listed(e) && Settled(rest)
    ensures Settled(e + rest)
  {
    var s := e + rest;
    assert s[1..][1..][1..] == rest;
    assert Settled(s[1..][1..]);
    assert Settled(s[1..]);
  }

  // Running the pass again changes nothing.
  lemma PercentsIdempotent(s: seq<Byte>)
    ensures Percents(Percents(s)) == Percents(s)
  {
    PercentsSettle(s);
    SettledIsFixed(Percents(s));
  }

  // Decoding only the listed escapes.
  function DecodeListed(s: seq<Byte>): seq<Byte>
    decreases |s|
  {
    if s == [] then []
    else if Listed(s) then [Decoded(s[1], s[2])] + DecodeListed(s[3..])
    else [s[0]] + DecodeListed(s[1..])
  }

  function Decoded(hi: Byte, lo: Byte): Byte
    requires IsHex(hi) && IsHex(lo)
  {
    16 * HexValue(hi) + HexValue(lo)
  }

  lemma {:induction false} PercentsDecode(s: seq<Byte>)
    ensures DecodeListed(Percents(s)) == DecodeListed(s)
    decreases |s|
  {
    if s == [] {
    } else if Stray(s) {
      PercentsDecode(s[1..]);
      var p := [PERCENT, 50, 53] + Percents(s[1..]);
      assert p[3..] == Percents(s[1..]);
    } else if Listed(s) {
      PercentsListed(s);
      PercentsDecode(s[3..]);
      assert Percents(s)[3..] == Percents(s[3..]);
    } else {
      PercentsDecode(s[1..]);
      assert Percents(s)[0] == s[0] && Percents(s)[1..] == Percents(s[1..]);
    }
  }

  // ------------------------------------------------- the illegal-character pass

  predicate AllLegal(s: seq<Byte>)
  {
    forall i :: 0 <= i < |s| ==> Legal(s[i])
  }

  function IllegalCount(s: seq<Byte>): nat
  {
    if s == [] then 0 else (if Legal(s[0]) then 0 else 1) + IllegalCount(s[1..])
  }

  lemma {:induction false} IllegalsLength(s: seq<Byte>)
    ensures |Illegals(s)| == |s| + 2 * IllegalCount(s)
  {
    if s != [] { IllegalsLength(s[1..]); }
  }

  lemma {:induction false} IllegalsLegal(s: seq<Byte>)
    ensures AllLegal(Illegals(s))
  {
    if s != [] {
      IllegalsLegal(s[1..]);
      assert AllLegal(IllegalPiece(s[0]));
    }
  }

  lemma {:induction false} LegalIsFixed(s: seq<Byte>)
    ensures Illegals(s) == s <==> AllLegal(s)
  {
    if s != [] {
      LegalIsFixed(s[1..]);
      IllegalsLength(s[1..]);
      assert s == [s[0]] + s[1..];
      if Legal(s[0]) {
        if Illegals(s) == s { assert Illegals(s)[1..] == Illegals(s[1..]); }
      } else {
        assert |Illegals(s)| > |s|;
      }
      if AllLegal(s) { assert forall i :: 0 <= i < |s[1..]| ==> s[1..][i] == s[i + 1]; }
    }
  }

  lemma IllegalsIdempotent(s: seq<Byte>)
    ensures Illegals(Illegals(s)) == Illegals(s)
  {
    IllegalsLegal(s);
    LegalIsFixed(Illegals(s));
  }

  // Decoding every percent sign with two hex digits behind it.
  predicate Escape(s: seq<Byte>)
  {
    |s| >= 3 && s[0] == PERCENT && IsHex(s[1]) && IsHex(s[2])
  }

  function Decode(s: seq<Byte>): seq<Byte>
    decreases |s|
  {
    if s == [] then []
    else if Escape(s) then [Decoded(s[1], s[2])] + Decode(s[3..])
    else [s[0]] + Decode(s[1..])
  }

  lemma HexDecodes(b: Byte)
    ensures var h := Hex(b); IsHex(h[0]) && IsHex(h[1]) && Decoded(h[0], h[1]) == b
  {}

  lemma HexIsLegal(b: Byte)
    requires IsHex(b)
    ensures Legal(b) && b != PERCENT
  {}

  // The pass keeps an escape at the head, and makes none.
  lemma IllegalsEscape(s: seq<Byte>)
    requires s != [] && Legal(s[0])
    ensures Escape(Illegals(s)) <==> Escape(s)
    ensures Escape(s) ==> Illegals(s) == s[..3] + Illegals(s[3..])
  {
    var r := Illegals(s);
    assert r == [s[0]] + Illegals(s[1..]);
    if |s| > 1 {
      assert Illegals(s[1..]) == IllegalPiece(s[1]) + Illegals(s[2..]) by { assert s[1..][1..] == s[2..]; }
      if |s| > 2 && Legal(s[1]) {
        assert Illegals(s[2..]) == IllegalPiece(s[2]) + Illegals(s[3..]) by { assert s[2..][1..] == s[3..]; }
      }
    }
  }

  lemma {:induction false} IllegalsDecode(s: seq<Byte>)
    ensures Decode(Illegals(s)) == Decode(s)
    decreases |s|
  {
    if s == [] {
    } else if !Legal(s[0]) {
      IllegalsDecode(s[1..]);
      HexDecodes(s[0]);
      assert Illegals(s)[3..] == Illegals(s[1..]);
    } else if Escape(s) {
      IllegalsEscape(s);
      IllegalsDecode(s[3..]);
      assert Illegals(s)[3..] == Illegals(s[3..]);
    } else {
      IllegalsEscape(s);
      IllegalsDecode(s[1..]);
      assert Illegals(s)[1..] == Illegals(s[1..]);
    }
  }

  // -------------------------------------------------------- both passes

  // The only byte that needs escaping and has a listed code is the space.
  predicate OnlySpaces(s: seq<Byte>)
  {
    s == [] || ((Legal(s[0]) || s[0] == 32) && OnlySpaces(s[1..]))
  }

  lemma SpacesBehind(b: Byte, s: seq<Byte>)
    requires Legal(b)
    ensures OnlySpaces([b] + s) <==> OnlySpaces(s)
  {
    assert ([b] + s)[1..] == s;
  }

  lemma {:induction false} PercentsSpaces(s: seq<Byte>)
    ensures OnlySpaces(Percents(s)) <==> OnlySpaces(s)
  {
    if s != [] {
      PercentsSpaces(s[1..]);
      var rest := Percents(s[1..]);
      if Stray(s) {
        SpacesBehind(53, rest);
        SpacesBehind(50, [53] + rest);
        SpacesBehind(PERCENT, [50] + ([53] + rest));
        assert Percents(s) == [PERCENT] + ([50] + ([53] + rest));
      } else {
        assert Percents(s)[0] == s[0] && Percents(s)[1..] == rest;
      }
      hide Percents, Stray;
    }
  }

  lemma EscapeSettledIff(e: seq<Byte>, rest: seq<Byte>)
    requires |e| == 3 && e[0] == PERCENT && e[1] != PERCENT && e[2] != PERCENT
    ensures Settled(e + rest) <==> ListedCode(e[1], e[2]) && Settled(rest)
  {
    var s := e + rest;
    assert s[1..][1..][1..] == rest;
    assert Settled(s[1..][1..]) <==> Settled(rest);
    assert Settled(s[1..]) <==> Settled(rest);
  }

  lemma HexListed(b: Byte)
    requires !Legal(b)
    ensures Hex(b)[0] != PERCENT && Hex(b)[1] != PERCENT && (ListedCode(Hex(b)[0], Hex(b)[1]) <==> b == 32)
  {}

  lemma {:induction false} IllegalsSettled(s: seq<Byte>)
    requires Settled(s)
    ensures Settled(Illegals(s)) <==> OnlySpaces(s)
    decreases |s|
  {
    if s == [] {
    } else if !Legal(s[0]) {
      HexListed(s[0]);
      IllegalsSettled(s[1..]);
      EscapeSettledIff([PERCENT] + Hex(s[0]), Illegals(s[1..]));
    } else if Listed(s) {
      assert s[1..][1..][1..] == s[3..];
      assert Settled(s[1..]) && Settled(s[1..][1..]) && Settled(s[1..][1..][1..]);
      IllegalsSettled(s[3..]);
      IllegalsEscape(s);
      EscapeSettledIff(s[..3], Illegals(s[3..]));
      HexIsLegal(s[1]);
      HexIsLegal(s[2]);
      assert OnlySpaces(s[1..]) <==> OnlySpaces(s[1..][1..]);
    } else {
      IllegalsSettled(s[1..]);
      assert Illegals(s)[1..] == Illegals(s[1..]);
    }
  }

  // One pass after the other is idempotent only where spaces were all there
  // was to escape: any other escape the second pass makes is stray to the
  // first.
  lemma BothIdempotent(s: seq<Byte>)
    ensures var t := Illegals(Percents(s));
            Illegals(Percents(t)) == t <==> OnlySpaces(s)
  {
    var u := Percents(s);
    var t := Illegals(u);
    PercentsSettle(s);
    PercentsSpaces(s);
    IllegalsSettled(u);
    SettledIsFixed(t);
    IllegalsIdempotent(u);
    PercentsLength(t);
    IllegalsLength(Percents(t));
    if Illegals(Percents(t)) == t {
      assert StrayCount(t) == 0;
      NoStrayIsFixed(t);
    }
  }

  lemma {:induction false} NoStrayIsFixed(s: seq<Byte>)
    requires StrayCount(s) == 0
    ensures Percents(s) == s
  {
    if s != [] {
      NoStrayIsFixed(s[1..]);
      assert s == [s[0]] + s[1..];
    }
  }

  // ------------------------------------------------------------- in place

  // Nibble k of a byte.
  function Nibble(n: Byte, k: nat): (r: int)
    requires k < 2
    ensures 0 <= r < 16
  {
    if k == 0 then n % 16 else n / 16
  }

  method DecimalToHexConverter(n: Byte) returns (buffer: array<Byte>)
    ensures fresh(buffer) && buffer[..] == [32] + Hex(n) + [0]
  {
    var size := 2;
    buffer := new Byte[size + 2];
    buffer[0] := 32;
    var counter := 0;
    while counter < size
      invariant 0 <= counter <= size && buffer[0] == 32
      invariant counter > 0 ==> buffer[2] == HexDigit(Nibble(n, 0))
      invariant counter > 1 ==> buffer[1] == HexDigit(Nibble(n, 1))
    {
      buffer[size - counter] := HexDigit(Nibble(n, counter));
      counter := counter + 1;
    }
    buffer[size + 1] := 0;
  }

  // The tail both passes share: the URL's head is cleared, the result copied
  // back and terminated.  An empty result leaves the URL alone.
  method CopyBack(url: array<Byte>, temp: array<Byte>, n: nat) returns (ok: bool, len: nat)
    requires url != temp && n < temp.Length && temp[n] == 0 && 0 !in temp[..n]
    requires n < url.Length && ADDRESS_BYTES <= url.Length
    modifies url
    ensures ok <==> n > 0
    ensures len == n
    ensures ok ==> url[..n] == temp[..n] && url[n] == 0
    ensures ok ==> forall i :: n < i < url.Length ==> url[i] == if i < ADDRESS_BYTES then 0 else old(url[i])
    ensures !ok ==> url[..] == old(url[..])
  {
    ok, len := false, 0;
    if temp[0] != 0 {
      for i := 0 to ADDRESS_BYTES
        invariant forall k :: 0 <= k < i ==> url[k] == 0
        invariant forall k :: i <= k < url.Length ==> url[k] == old(url[k])
      {
        url[i] := 0;
      }
      for i := 0 to n
        invariant url[..i] == temp[..i]
        invariant forall k :: i <= k < url.Length ==> url[k] == if k < ADDRESS_BYTES then 0 else old(url[k])
      {
        url[i] := temp[i];
      }
      url[n] := 0;
      ok, len := true, n;
    }
  }

  lemma PercentsFrom(s: seq<Byte>, c: nat)
    requires c < |s|
    ensures Percents(s[c..]) == PercentPiece(s[c..]) + Percents(s[c + 1..])
  {
    assert s[c..][1..] == s[c + 1..];
  }

  lemma IllegalsFrom(s: seq<Byte>, c: nat)
    requires c < |s|
    ensures Illegals(s[c..]) == IllegalPiece(s[c]) + Illegals(s[c + 1..])
  {
    assert s[c..][1..] == s[c + 1..];
  }

  lemma {:induction false} PercentsNoZero(s: seq<Byte>)
    requires 0 !in s
    ensures 0 !in Percents(s)
  {
    if s != [] { PercentsNoZero(s[1..]); }
  }

  lemma {:induction false} IllegalsNoZero(s: seq<Byte>)
    ensures 0 !in Illegals(s)
  {
    if s != [] { IllegalsNoZero(s[1..]); }
  }

  // Writes one piece and moves on behind it.
  method Put(temp: array<Byte>, k: nat, piece: seq<Byte>) returns (k': nat)
    requires k + |piece| <= temp.Length
    modifies temp
    ensures k' == k + |piece| && temp[..k'] == old(temp[..k]) + piece
  {
    for i := 0 to |piece|
      invariant temp[..k] == old(temp[..k]) && temp[k..k + i] == piece[..i]
    {
      temp[k + i] := piece[i];
    }
    k' := k + |piece|;
    assert temp[..k'] == temp[..k] + temp[k..k'];
  }

  // The test of the percent pass, reading no further than the string goes.
  method StrayAt(url: array<Byte>, c: nat, ghost s: seq<Byte>) returns (stray: bool)
    requires Holds(url[..], s) && c < |s|
    ensures stray == Stray(s[c..])
  {
    assert forall i :: 0 <= i < |s| ==> url[i] == url[..][..|s|][i];
    stray := false;
    if url[c] == PERCENT {
      var hi := url[c + 1];
      stray := !(50 <= hi <= 53 && ListedCode(hi, url[c + 2]));
    }
  }

  lemma Copied(a: seq<Byte>, r: seq<Byte>, s: seq<Byte>, ok: bool)
    requires |r| < |a| && 0 !in r && (ok <==> |r| > 0)
    requires if ok then a[..|r|] == r && a[|r|] == 0 else Holds(a, s) && s == []
    ensures Holds(a, r)
  {}

  method PercentsInto(url: array<Byte>, temp: array<Byte>, ghost s: seq<Byte>) returns (k: nat)
    requires Holds(url[..], s) && url != temp && |Percents(s)| < temp.Length
    modifies temp
    ensures k == |Percents(s)| && temp[..k] == Percents(s)
  {
    hide Percents, Stray;
    k := 0;
    var c := 0;
    assert s[0..] == s;
    while url[c] != 0
      invariant 0 <= c <= |s| && k <= |Percents(s)|
      invariant temp[..k] + Percents(s[c..]) == Percents(s)
      decreases |s| - c
    {
      assert url[..][..|s|] == s && c < |s|;
      PercentsFrom(s, c);
      var stray := StrayAt(url, c, s);
      k := Put(temp, k, if stray then [PERCENT, 50, 53] else [url[c]]);
      c := c + 1;
    }
    assert url[..][..|s|] == s && c == |s|;
    PercentsLength([]);
    assert s[c..] == [] && StrayCount([]) == 0;
  }

  method IllegalsInto(url: array<Byte>, temp: array<Byte>, ghost s: seq<Byte>) returns (k: nat)
    requires Holds(url[..], s) && url != temp && |Illegals(s)| < temp.Length
    modifies temp
    ensures k == |Illegals(s)| && temp[..k] == Illegals(s)
  {
    hide Illegals;
    k := 0;
    var c := 0;
    assert s[0..] == s;
    while url[c] != 0
      invariant 0 <= c <= |s| && k <= |Illegals(s)|
      invariant temp[..k] + Illegals(s[c..]) == Illegals(s)
      decreases |s| - c
    {
      assert url[..][..|s|] == s && c < |s|;
      IllegalsFrom(s, c);
      if !Legal(url[c]) {
        var illegal := DecimalToHexConverter(url[c]);
        assert Hex(url[c]) == illegal[..][1..3];
        k := Put(temp, k, [PERCENT, illegal[1], illegal[2]]);
      } else {
        k := Put(temp, k, [url[c]]);
      }
      c := c + 1;
    }
    assert url[..][..|s|] == s && c == |s|;
    IllegalsLength([]);
    assert s[c..] == [] && IllegalCount([]) == 0;
  }

  method PersentageToEscapedEncoding(url: array<Byte>, ghost s: seq<Byte>) returns (ok: bool, len: nat)
    requires Holds(url[..], s) && ADDRESS_BYTES <= url.Length
    requires |Percents(s)| < MAX_FULL_REQUEST_SIZE && |Percents(s)| < url.Length
    modifies url
    ensures Holds(url[..], Percents(s)) && len == |Percents(s)|
    ensures ok <==> s != []
  {
    PercentsLength(s);
    PercentsNoZero(s);
    hide Percents;
    var temp := new Byte[MAX_FULL_REQUEST_SIZE];
    var k := PercentsInto(url, temp, s);
    temp[k] := 0;
    ok, len := CopyBack(url, temp, k);
    Copied(url[..], Percents(s), s, ok);
  }

  method IllegalCharactersToEscapedEncoding(url: array<Byte>, ghost s: seq<Byte>) returns (ok: bool, len: nat)
    requires Holds(url[..], s) && ADDRESS_BYTES <= url.Length
    requires |Illegals(s)| < MAX_FULL_REQUEST_SIZE && |Illegals(s)| < url.Length
    modifies url
    ensures Holds(url[..], Illegals(s)) && len == |Illegals(s)|
    ensures ok <==> s != []
  {
    IllegalsLength(s);
    IllegalsNoZero(s);
    hide Illegals;
    var temp := new Byte[MAX_FULL_REQUEST_SIZE];
    var k := IllegalsInto(url, temp, s);
    temp[k] := 0;
    ok, len := CopyBack(url, temp, k);
    Copied(url[..], Illegals(s), s, ok);
  }
}
