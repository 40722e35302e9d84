// One sorted chain of sorted_list.h, and the walk along it that hashtable.h takes.
// Keys are integers, standing for any totally ordered class.
module Chains {
  import opened Counting

  datatype Entry<V> = Entry(key: int, data: V)

  ghost predicate Sorted<V>(c: seq<Entry<V>>)
  {
    forall i, j :: 0 <= i < j < |c| ==> c[i].key < c[j].key
  }

  function Get<V>(c: seq<Entry<V>>, k: int): Option<V>
  {
    if c == [] then None else if c[0].key == k then Some(c[0].data) else Get(c[1..], k)
  }

  function Keys<V>(c: seq<Entry<V>>): set<int>
  {
    if c == [] then {} else {c[0].key} + Keys(c[1..])
  }

  lemma {:induction false} KeyAt<V>(c: seq<Entry<V>>, i: nat)
    requires i < |c|
    ensures c[i].key in Keys(c)
  {
    if i > 0 { KeyAt(c[1..], i - 1); }
  }

  lemma {:induction false} KeyIndex<V>(c: seq<Entry<V>>, k: int) returns (i: nat)
    requires k in Keys(c)
    ensures i < |c| && c[i].key == k
  {
    if c[0].key == k { i := 0; } else { i := KeyIndex(c[1..], k); i := i + 1; }
  }

  lemma {:induction false} GetAt<V>(c: seq<Entry<V>>, k: int, i: nat)
    requires i < |c| && c[i].key == k && forall j :: 0 <= j < i ==> c[j].key != k
    ensures Get(c, k) == Some(c[i].data)
  {
    if i > 0 { GetAt(c[1..], k, i - 1); }
  }

  lemma {:induction false} GetMissing<V>(c: seq<Entry<V>>, k: int)
    requires forall j :: 0 <= j < |c| ==> c[j].key != k
    ensures Get(c, k) == None
  {
    if c != [] { GetMissing(c[1..], k); }
  }

  lemma GetIffKey<V>(c: seq<Entry<V>>, k: int)
    ensures Get(c, k).Some? <==> k in Keys(c)
  {}

  lemma AllBehindFirst<V>(c: seq<Entry<V>>)
    requires Sorted(c) && c != []
    ensures Sorted(c[1..]) && forall k :: k in Keys(c[1..]) ==> c[0].key < k
  {
    forall k | k in Keys(c[1..]) ensures c[0].key < k {
      var i := KeyIndex(c[1..], k);
      assert c[i + 1].key == k;
    }
  }

  lemma {:induction false} SortedCount<V>(c: seq<Entry<V>>)
    requires Sorted(c)
    ensures |Keys(c)| == |c|
  {
    if c != [] {
      SortedCount(c[1..]);
      AllBehindFirst(c);
    }
  }

  // The chain walk of GetElement, with its early exit behind the key.
  method Walk<V>(c: seq<Entry<V>>, k: int) returns (r: Option<V>, at: nat)
    requires Sorted(c)
    ensures r == Get(c, k)
    ensures r.Some? ==> at < |c| && c[at] == Entry(k, r.value)
  {
    at := 0;
    while at < |c|
      invariant at <= |c| && forall j :: 0 <= j < at ==> c[j].key < k
    {
      if c[at].key == k {
        GetAt(c, k, at);
        return Some(c[at].data), at;
      }
      if c[at].key > k { break; }
      at := at + 1;
    }
    GetMissing(c, k);
    r := None;
  }

  function Inserted<V>(c: seq<Entry<V>>, e: Entry<V>): seq<Entry<V>>
  {
    if c == [] || e.key <= c[0].key then [e] + c else [c[0]] + Inserted(c[1..], e)
  }

  function Deleted<V>(c: seq<Entry<V>>, k: int): seq<Entry<V>>
  {
    if c == [] then [] else if c[0].key == k then c[1..] else [c[0]] + Deleted(c[1..], k)
  }

  lemma {:induction false} InsertedKeys<V>(c: seq<Entry<V>>, e: Entry<V>)
    ensures Keys(Inserted(c, e)) == Keys(c) + {e.key} && |Inserted(c, e)| == |c| + 1
  {
    if !(c == [] || e.key <= c[0].key) { InsertedKeys(c[1..], e); }
  }

  lemma {:induction false} InsertedGet<V>(c: seq<Entry<V>>, e: Entry<V>, k: int)
    requires e.key !in Keys(c)
    ensures Get(Inserted(c, e), k) == if k == e.key then Some(e.data) else Get(c, k)
  {
    if c == [] || e.key <= c[0].key {
      assert ([e] + c)[1..] == c;
    } else {
      InsertedGet(c[1..], e, k);
    }
  }

  lemma {:induction false} InsertedSorted<V>(c: seq<Entry<V>>, e: Entry<V>)
    requires Sorted(c) && e.key !in Keys(c)
    ensures Sorted(Inserted(c, e))
  {
    if c != [] && e.key <= c[0].key {
      AllBehindFirst(c);
      FirstSmallest(e, c);
    }
    if !(c == [] || e.key <= c[0].key) {
      InsertedSorted(c[1..], e);
      InsertedKeys(c[1..], e);
      AllBehindFirst(c);
      FirstSmallest(c[0], Inserted(c[1..], e));
    }
  }

  lemma FirstSmallest<V>(e: Entry<V>, c: seq<Entry<V>>)
    requires Sorted(c) && forall k :: k in Keys(c) ==> e.key < k
    ensures Sorted([e] + c)
  {
    forall j | 0 <= j < |c| ensures e.key < c[j].key { KeyAt(c, j); }
  }

  lemma {:induction false} DeletedKeys<V>(c: seq<Entry<V>>, k: int)
    requires Sorted(c)
    ensures Keys(Deleted(c, k)) == Keys(c) - {k}
    ensures |Deleted(c, k)| == |c| - (if k in Keys(c) then 1 else 0)
  {
    if c != [] {
      AllBehindFirst(c);
      hide Sorted;
      if c[0].key != k {
        DeletedKeys(c[1..], k);
        assert Keys(Deleted(c, k)) == {c[0].key} + Keys(Deleted(c[1..], k));
      }
    }
  }

  lemma {:induction false} DeletedSorted<V>(c: seq<Entry<V>>, k: int)
    requires Sorted(c)
    ensures Sorted(Deleted(c, k))
  {
    if c != [] {
      AllBehindFirst(c);
      if c[0].key != k {
        DeletedKeys(c[1..], k);
        DeletedSorted(c[1..], k);
        hide Sorted, Keys;
        FirstSmallest(c[0], Deleted(c[1..], k));
      }
    }
  }

  lemma {:induction false} DeletedGet<V>(c: seq<Entry<V>>, k: int, other: int)
    requires Sorted(c)
    ensures Get(Deleted(c, k), other) == if other == k then None else Get(c, other)
  {
    if c != [] {
      AllBehindFirst(c);
      if c[0].key == k { GetIffKey(c[1..], k); } else { DeletedGet(c[1..], k, other); }
    }
  }

  lemma {:induction false} InsertedAt<V>(c: seq<Entry<V>>, e: Entry<V>, at: nat)
    requires at <= |c| && (at < |c| ==> e.key <= c[at].key) && forall j :: 0 <= j < at ==> c[j].key < e.key
    ensures Inserted(c, e) == c[..at] + [e] + c[at..]
  {
    if at > 0 {
      InsertedAt(c[1..], e, at - 1);
      assert c[1..][..at - 1] == c[1..at] && c[1..][at - 1..] == c[at..];
    }
  }

  lemma {:induction false} DeletedAt<V>(c: seq<Entry<V>>, at: nat)
    requires at < |c| && forall j :: 0 <= j < at ==> c[j].key != c[at].key
    ensures Deleted(c, c[at].key) == c[..at] + c[at + 1..]
  {
    if at > 0 {
      DeletedAt(c[1..], at - 1);
      assert c[1..][..at - 1] == c[1..at] && c[1..][at..] == c[at + 1..];
    }
  }

  // SortedList::add_element
  method Insert<V>(c: seq<Entry<V>>, e: Entry<V>) returns (r: seq<Entry<V>>)
    ensures r == Inserted(c, e)
  {
    var at := 0;
    while at < |c| && c[at].key < e.key
      invariant at <= |c| && forall j :: 0 <= j < at ==> c[j].key < e.key
    {
      at := at + 1;
    }
    InsertedAt(c, e, at);
    r := c[..at] + [e] + c[at..];
  }

  // SortedList::remove_element: the entry itself is looked for.
  method Delete<V(==)>(c: seq<Entry<V>>, e: Entry<V>) returns (r: seq<Entry<V>>)
    requires Sorted(c)
    ensures r == if e in c then Deleted(c, e.key) else c
  {
    var at := 0;
    while at < |c|
      invariant at <= |c| && e !in c[..at]
    {
      if c[at] == e {
        DeletedAt(c, at);
        return c[..at] + c[at + 1..];
      }
      if c[at].key > e.key {
        assert c == c[..at] + c[at..];
        return c;
      }
      assert c[..at + 1] == c[..at] + [c[at]];
      at := at + 1;
    }
    assert c[..at] == c;
    r := c;
  }

  // The walk of RemoveElement, and the removal it asks of the chain.
  method Take<V(==)>(c: seq<Entry<V>>, k: int) returns (r: seq<Entry<V>>, found: bool)
    requires Sorted(c)
    ensures found == (k in Keys(c)) && r == if found then Deleted(c, k) else c
  {
    GetIffKey(c, k);
    var e, at := Walk(c, k);
    if e.None? { return c, false; }
    r := Delete(c, c[at]);
    found := true;
  }
}
