// What the other modules share: optional values, and how often and where an
// element is in a sequence.
module Counting {

  datatype Option<+T> = None | Some(value: T)

  function Count<T(==)>(q: seq<T>, x: T): nat
  {
    if q == [] then 0 else (if q[0] == x then 1 else 0) + Count(q[1..], x)
  }

  lemma {:induction false} CountAppend<T>(p: seq<T>, q: seq<T>, x: T)
    ensures Count(p + q, x) == Count(p, x) + Count(q, x)
  {
    if p == [] {
      assert p + q == q;
    } else {
      assert (p + q)[1..] == p[1..] + q;
      CountAppend(p[1..], q, x);
    }
  }

  lemma CountOne<T>(y: T, x: T)
    ensures Count([y], x) == if y == x then 1 else 0
  {
    assert [y][1..] == [];
  }

  lemma CountPush<T>(q: seq<T>, y: T, x: T)
    ensures Count(q + [y], x) == Count(q, x) + if y == x then 1 else 0
  {
    CountAppend(q, [y], x);
    CountOne(y, x);
  }

  lemma CountMinus<T>(q: seq<T>, i: nat, x: T)
    requires i < |q|
    ensures Count(q[..i] + q[i + 1..], x) == Count(q, x) - (if q[i] == x then 1 else 0)
  {
    assert q == q[..i] + ([q[i]] + q[i + 1..]);
    CountAppend(q[..i], [q[i]] + q[i + 1..], x);
    CountAppend([q[i]], q[i + 1..], x);
    CountAppend(q[..i], q[i + 1..], x);
    CountOne(q[i], x);
  }

  lemma {:induction false} CountAbsent<T>(q: seq<T>, x: T)
    ensures Count(q, x) == 0 <==> x !in q
  {
    if q != [] {
      CountAbsent(q[1..], x);
      assert q == [q[0]] + q[1..];
    }
  }

  // The first index of x, or the length.
  function Find<T(==)>(s: seq<T>, x: T): (k: nat)
    ensures k <= |s| && x !in s[..k] && (k < |s| ==> s[k] == x)
  {
    if s == [] || s[0] == x then 0 else
      var k := Find(s[1..], x) + 1;
      assert s[..k] == [s[0]] + s[1..][..k - 1];
      k
  }

  lemma {:induction false} FindIs<T>(s: seq<T>, x: T, k: nat)
    requires k <= |s| && x !in s[..k] && (k < |s| ==> s[k] == x)
    ensures Find(s, x) == k && (x in s <==> k < |s|)
  {
    if k > 0 {
      assert s[0] == s[..k][0] && s[1..][..k - 1] == s[..k][1..];
      FindIs(s[1..], x, k - 1);
      assert s == [s[0]] + s[1..];
    }
  }
}
