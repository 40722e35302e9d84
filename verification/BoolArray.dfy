// The array of booleans of bool_array.h, packed into words of 32 bits.  A word
// is the sequence of its bits, lowest first, and the bitwise operations act on
// it bit by bit.
module BoolArray {

  const BITS: nat := 32

  type Word = w: seq<bool> | |w| == 32 witness seq(32, i => false)

  function Or(v: Word, w: Word): (r: Word)
    ensures forall i :: 0 <= i < BITS ==> r[i] == (v[i] || w[i])
  {
    seq(BITS, i requires 0 <= i < BITS => v[i] || w[i])
  }

  function And(v: Word, w: Word): (r: Word)
    ensures forall i :: 0 <= i < BITS ==> r[i] == (v[i] && w[i])
  {
    seq(BITS, i requires 0 <= i < BITS => v[i] && w[i])
  }

  function Not(w: Word): (r: Word)
    ensures forall i :: 0 <= i < BITS ==> r[i] == !w[i]
  {
    seq(BITS, i requires 0 <= i < BITS => !w[i])
  }

  // mask_array[n]: the lowest n bits.
  function Mask(n: nat): (r: Word)
    ensures forall i :: 0 <= i < BITS ==> r[i] == (i < n)
  {
    seq(BITS, i => i < n)
  }

  // 1 << n
  function Single(n: nat): (r: Word)
    ensures forall i :: 0 <= i < BITS ==> r[i] == (i == n)
  {
    seq(BITS, i => i == n)
  }

  function Put(w: Word, mask: Word, value: bool): (r: Word)
    ensures forall i :: 0 <= i < BITS ==> r[i] == if mask[i] then value else w[i]
  {
    if value then Or(w, mask) else And(w, Not(mask))
  }

  // What SetRange does to bit i.  A range within one word takes the bits
  // before it along.
  function FirstSet(first: nat, last: nat): (r: nat)
    ensures r <= first
  {
    if first / BITS == last / BITS then first - first % BITS else first
  }

  class BoolArray {
    const maxArraySize: nat
    var size: int
    var words: seq<Word>

    ghost predicate Valid()
      reads this
    {
      maxArraySize > 0 && |words| == (maxArraySize + 31) / 32
    }

    predicate Bit(i: nat)
      requires Valid() && i < BITS * |words|
      reads this
    {
      words[i / BITS][i % BITS]
    }

    constructor (max: nat)
      requires max > 0
      ensures Valid() && size == maxArraySize == max
    {
      maxArraySize := max;
      size := max;
      words := seq((max + 31) / 32, i => Mask(0));
    }

    // The test looks at the present size: once it is in range, any size is
    // taken.
    method SetSize(newSize: int) returns (ok: bool)
      modifies this`size
      ensures ok <==> 0 < old(size) <= maxArraySize
      ensures size == if ok then newSize else old(size)
    {
      if size <= 0 || size > maxArraySize { return false; }
      size := newSize;
      ok := true;
    }

    method SetRange(value: bool, first: int, last0: int) returns (ok: bool)
      requires Valid() && size <= BITS * |words|
      modifies this`words
      ensures Valid()
      ensures var last := if last0 < 0 then size - 1 else last0;
              && (ok <==> 0 <= first <= last < size)
              && (!ok ==> words == old(words))
              && (ok ==> forall i :: 0 <= i < BITS * |words| ==>
                    Bit(i) == if FirstSet(first, last) <= i <= last then value else old(Bit(i)))
    {
      var last := if last0 < 0 then size - 1 else last0;
      if first < 0 || first > last || last >= size { return false; }
      var startingWord, endingWord := first / 32, last / 32;
      for ii := startingWord to endingWord + 1
        invariant Valid()
        invariant forall i :: 0 <= i < BITS * |words| ==>
          Bit(i) == if FirstSet(first, last) <= i <= last && i / BITS < ii then value else old(Bit(i))
      {
        var word := words[ii];
        if ii == endingWord {
          word := Put(word, Mask(last % 32 + 1), value);
        } else if ii == startingWord {
          word := Put(word, Not(Mask(first % 32)), value);
        } else {
          word := Put(word, Mask(32), value);
        }
        words := words[ii := word];
      }
      ok := true;
    }

    method SetValue(index: int, value: bool) returns (ok: bool)
      requires Valid() && size <= BITS * |words|
      modifies this`words
      ensures Valid() && (ok <==> 0 <= index < size) && (!ok ==> words == old(words))
      ensures ok ==> forall i :: 0 <= i < BITS * |words| ==> Bit(i) == if i == index then value else old(Bit(i))
    {
      if index < 0 || index >= size { return false; }
      var at := index / 32;
      words := words[at := Put(words[at], Single(index % 32), value)];
      ok := true;
    }

    method GetValue(index: int) returns (b: bool)
      requires Valid() && size <= BITS * |words|
      ensures b <==> 0 <= index < size && Bit(index)
    {
      if index < 0 || index >= size { return false; }
      var w := And(words[index / 32], Single(index % 32));
      assert w[index % 32] == words[index / 32][index % 32];
      b := w != Mask(0);
    }
  }

  // SetRange touches the bits it was asked to, and no others, exactly when
  // the range starts a word or goes on into another.
  lemma RangeExactly(first: nat, last: nat)
    requires first <= last
    ensures FirstSet(first, last) == first <==> first % BITS == 0 || first / BITS < last / BITS
  {}
}
