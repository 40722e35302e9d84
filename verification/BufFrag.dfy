// Seeking in a group of buffer fragments (buf_frag_group.cpp).  A position is
// a fragment index, an offset in it and a pointer; the flat position is the
// number of bytes before it.  Indices do not count the reserved fragments in
// front.
module BufFrag {

  datatype Fragment = Fragment(ptr: int, len: nat)

  // Where a seek ends: in a fragment, or beyond either end of the group.
  datatype Place = At(idx: nat, offset: nat) | Past | Before

  // Bytes before fragment i.
  function Start(f: seq<Fragment>, i: nat): (r: nat)
    requires i <= |f|
  {
    if i == 0 then 0 else Start(f, i - 1) + f[i - 1].len
  }

  function Flat(f: seq<Fragment>, p: Place): nat
    requires p.At? ==> p.idx < |f|
  {
    match p
    case At(i, offset) => Start(f, i) + offset
    case Past => Start(f, |f|)
    case Before => 0
  }

  predicate Inside(f: seq<Fragment>, p: Place)
  {
    p.At? && p.idx < |f| && p.offset <= f[p.idx].len
  }

  // -------------------------------------------------------------- forward

  function Forward(f: seq<Fragment>, i: nat, offset: nat, delta: nat): (r: Place)
    requires i < |f| && offset <= f[i].len
    ensures r.At? ==> Inside(f, r)
    decreases |f| - i
  {
    if f[i].len - offset >= delta then At(i, offset + delta)
    else if i + 1 == |f| then Past
    else Forward(f, i + 1, 0, delta - (f[i].len - offset))
  }

  lemma {:induction false} StartGrows(f: seq<Fragment>, i: nat, j: nat)
    requires i <= j <= |f|
    ensures Start(f, i) <= Start(f, j)
    decreases j - i
  {
    if i < j { StartGrows(f, i, j - 1); }
  }

  // Forward moves by exactly delta, unless that is beyond the last byte.
  lemma {:induction false} ForwardExact(f: seq<Fragment>, i: nat, offset: nat, delta: nat)
    requires i < |f| && offset <= f[i].len
    ensures var r := Forward(f, i, offset, delta);
            && (r.Past? <==> Start(f, i) + offset + delta > Start(f, |f|))
            && (r.At? ==> Flat(f, r) == Start(f, i) + offset + delta && r.idx >= i && (r.idx > i ==> r.offset > 0))
            && !r.Before?
    decreases |f| - i
  {
    if f[i].len - offset >= delta {
      StartGrows(f, i + 1, |f|);
    } else if i + 1 < |f| {
      ForwardExact(f, i + 1, 0, delta - (f[i].len - offset));
    }
  }

  // Seeking a and then b is seeking a + b, as long as the first seek stays in
  // the group; after one that does not there is nothing to seek from.
  lemma {:induction false} ForwardComposes(f: seq<Fragment>, i: nat, offset: nat, a: nat, b: nat)
    requires i < |f| && offset <= f[i].len && a > 0 && b > 0
    ensures var p := Forward(f, i, offset, a);
            Forward(f, i, offset, a + b) == if p.At? then Forward(f, p.idx, p.offset, b) else Past
    decreases |f| - i
  {
    if f[i].len - offset < a && i + 1 < |f| {
      ForwardComposes(f, i + 1, 0, a - (f[i].len - offset), b);
    }
  }

  // ------------------------------------------------------------- backward

  // The backward loop from fragment i.  It starts at the fragment the seek
  // came from, which it has already left.
  function Backward(f: seq<Fragment>, i: nat, remain: int): (r: Place)
    requires i < |f| && remain <= 0
    ensures r.At? ==> Inside(f, r) && 0 < r.offset
    decreases i
  {
    if f[i].len > -remain then At(i, f[i].len + remain)
    else if i == 0 then Before
    else Backward(f, i - 1, remain + f[i].len)
  }

  lemma {:induction false} BackwardLands(f: seq<Fragment>, i: nat, remain: int)
    requires i < |f| && remain <= 0
    ensures var r := Backward(f, i, remain);
            && (r.Before? <==> Start(f, i) + f[i].len + remain <= 0)
            && (r.At? ==> Flat(f, r) == Start(f, i) + f[i].len + remain)
            && !r.Past?
    decreases i
  {
    if f[i].len <= -remain && i > 0 { BackwardLands(f, i - 1, remain + f[i].len); }
  }

  function Seek(f: seq<Fragment>, i: nat, offset: nat, delta: int): (r: Place)
    requires i < |f| && offset <= f[i].len
    ensures r.At? ==> Inside(f, r)
  {
    if delta > 0 then Forward(f, i, offset, delta)
    else if offset >= -delta then At(i, offset + delta)
    else Backward(f, i, delta + offset)
  }

  // A seek ends at its target, or reports the start of the group if that is in
  // front of it.
  predicate Arrives(f: seq<Fragment>, r: Place, target: int)
    requires r.At? ==> r.idx < |f|
  {
    if target < 0 then r.Before? else r.At? && Flat(f, r) == target
  }

  // A backward seek that leaves its fragment arrives just if that fragment is
  // empty and the target not the first byte, or if the target is in front of
  // the group by at least the fragment's length.
  lemma BackwardExactly(f: seq<Fragment>, i: nat, offset: nat, delta: int)
    requires i < |f| && offset <= f[i].len && delta <= 0
    ensures var target := Start(f, i) + offset + delta;
            Arrives(f, Seek(f, i, offset, delta), target) <==>
            offset >= -delta || (target > 0 && f[i].len == 0) || (target < 0 && target + f[i].len <= 0)
  {
    if offset < -delta { BackwardLands(f, i, delta + offset); }
  }

  // Otherwise it is off by the length of the fragment it left, and takes the
  // start of the group for reached too late by as much.
  lemma BackwardOff(f: seq<Fragment>, i: nat, offset: nat, delta: int)
    requires i < |f| && offset <= f[i].len && delta < 0 && offset < -delta
    ensures var r, target := Seek(f, i, offset, delta), Start(f, i) + offset + delta;
            if target + f[i].len > 0 then r.At? && Flat(f, r) == target + f[i].len else r.Before?
  {
    BackwardLands(f, i, delta + offset);
  }

  // Going forward and back again returns exactly when no boundary between
  // fragments was crossed.
  lemma ThereAndBack(f: seq<Fragment>, i: nat, offset: nat, a: nat)
    requires i < |f| && offset <= f[i].len && a > 0 && Seek(f, i, offset, a).At?
    ensures var p, back: int := Seek(f, i, offset, a), a;
            Seek(f, p.idx, p.offset, -back) == At(i, offset) <==> p.idx == i
  {
    ForwardExact(f, i, offset, a);
    var p, back: int := Seek(f, i, offset, a), a;
    if p.offset < back { BackwardLands(f, p.idx, p.offset - back); }
    if p.idx > i {
      StartGrows(f, i + 1, p.idx);
    }
  }

  // Two fragments of ten bytes, three bytes back from the start of the second:
  // the seek ends in the second.
  lemma BackwardExample()
    ensures var f := [Fragment(100, 10), Fragment(200, 10)]; Seek(f, 1, 2, -5) == At(1, 7)
  {}

  // ---------------------------------------------------------- the procedure

  // fragments holds the reserved ones too.  A start out of range reports the
  // boundary and fails; an offset beyond its fragment fails without.
  method SeekBufFragGroup(fragments: seq<Fragment>, idx0: int, offset0: nat, ptr0: int, delta: int, reserved: int)
    returns (ok: bool, idx: int, offset: int, ptr: int, boundaryReached: bool)
    ensures idx0 + reserved >= |fragments| || idx0 < 0 || reserved < 0 ==>
              !ok && boundaryReached && idx == idx0 && offset == offset0 && ptr == ptr0
    ensures 0 <= idx0 < |fragments| - reserved && reserved >= 0 && offset0 > fragments[idx0 + reserved].len ==>
              !ok && !boundaryReached && idx == idx0 && offset == offset0 && ptr == ptr0
    ensures 0 <= idx0 < |fragments| - reserved && reserved >= 0 && offset0 <= fragments[idx0 + reserved].len ==>
              var f := fragments[reserved..];
              var r := Seek(f, idx0, offset0, delta);
              && ok && (boundaryReached <==> !r.At?)
              && match r
                 case At(i, o) =>
                   && idx == i && offset == o
                   && ptr == f[i].ptr + o - (if delta <= 0 && offset0 < -delta then f[i].len else 0)
                 case Past => idx == |f| && offset == f[|f| - 1].len && ptr == f[|f| - 1].ptr + offset - 1
                 case Before => idx == 0 && offset == 0 && ptr == f[0].ptr
  {
    ok, idx, offset, ptr, boundaryReached := true, idx0, offset0, ptr0, false;
    if idx + reserved >= |fragments| || idx < 0 || reserved < 0 { return false, idx, offset, ptr, true; }
    ghost var f := fragments[reserved..];
    assert f[idx] == fragments[idx + reserved] && f[0] == fragments[reserved];
    var firstSize := fragments[idx + reserved].len - offset;
    if firstSize < 0 { return false, idx, offset, ptr, false; }
    if delta > 0 {
      ForwardExact(f, idx, offset, delta);
      if firstSize >= delta {
        offset := offset + delta;
        ptr := fragments[idx + reserved].ptr + offset;
        return;
      }
      idx, offset, ptr, boundaryReached := SeekForward(fragments, idx + 1, delta - firstSize, reserved);
    } else {
      if offset >= -delta {
        offset := offset + delta;
        ptr := fragments[idx + reserved].ptr + offset;
        return;
      }
      BackwardLands(f, idx, delta + offset);
      idx, offset, ptr, boundaryReached := SeekBackward(fragments, idx, delta + offset, reserved);
    }
  }

  method SeekForward(fragments: seq<Fragment>, idx0: nat, remain0: nat, reserved: nat)
    returns (idx: nat, offset: nat, ptr: int, boundaryReached: bool)
    requires 0 < idx0 && idx0 + reserved <= |fragments| && remain0 > 0
    ensures var f := fragments[reserved..];
            var r := if idx0 == |f| then Past else Forward(f, idx0, 0, remain0);
            && (boundaryReached <==> r.Past?)
            && (r.At? ==> idx == r.idx && offset == r.offset && ptr == f[idx].ptr + offset)
            && (r.Past? ==> idx == |f| && offset == f[|f| - 1].len && ptr == f[|f| - 1].ptr + offset - 1)
  {
    ghost var f := fragments[reserved..];
    idx := idx0;
    var remain := remain0;
    while idx + reserved < |fragments|
      invariant 0 < idx <= |f| && remain > 0
      invariant (if idx == |f| then Past else Forward(f, idx, 0, remain))
             == (if idx0 == |f| then Past else Forward(f, idx0, 0, remain0))
    {
      var frag := fragments[idx + reserved];
      assert f[idx] == frag;
      if frag.len >= remain { return idx, remain, frag.ptr + remain, false; }
      remain := remain - frag.len;
      idx := idx + 1;
    }
    var last := fragments[idx + reserved - 1];
    offset, ptr, boundaryReached := last.len, last.ptr + last.len - 1, true;
  }

  method SeekBackward(fragments: seq<Fragment>, idx0: nat, remain0: int, reserved: nat)
    returns (idx: int, offset: int, ptr: int, boundaryReached: bool)
    requires idx0 + reserved < |fragments| && remain0 < 0
    ensures var f := fragments[reserved..];
            var r := Backward(f, idx0, remain0);
            && (boundaryReached <==> r.Before?)
            && (r.At? ==> idx == r.idx && offset == r.offset && ptr == f[idx].ptr + offset - f[idx].len)
            && (r.Before? ==> idx == 0 && offset == 0 && ptr == f[0].ptr)
  {
    ghost var f := fragments[reserved..];
    idx := idx0;
    var remain := remain0;
    while idx >= 0
      invariant -1 <= idx < |f| && remain <= 0
      invariant (if idx < 0 then Before else Backward(f, idx, remain)) == Backward(f, idx0, remain0)
    {
      var frag := fragments[idx + reserved];
      assert f[idx] == frag;
      if frag.len > -remain { return idx, frag.len + remain, frag.ptr + remain, false; }
      remain := remain + frag.len;
      idx := idx - 1;
    }
    idx, offset, ptr, boundaryReached := 0, 0, fragments[reserved].ptr, true;
  }
}
