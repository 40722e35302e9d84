// The chained hash table of hashtable.h as a finite map.  compute_hash is an
// arbitrary function of the key.
module HashTable {
  import opened Counting
  import opened Masks
  import opened Chains

  type Table<V> = seq<seq<Entry<V>>>

  // Every chain is sorted and holds only keys whose home it is.
  ghost predicate Placed<V>(t: Table<V>, home: int -> nat)
  {
    && (forall i :: 0 <= i < |t| ==> Sorted(t[i]))
    && (forall i, k :: 0 <= i < |t| && k in Keys(t[i]) ==> home(k) == i)
  }

  function AllKeys<V>(t: Table<V>): set<int>
  {
    if t == [] then {} else AllKeys(t[..|t| - 1]) + Keys(t[|t| - 1])
  }

  // The entries in the order GetElement(index) goes through them.
  function Entries<V>(t: Table<V>): seq<Entry<V>>
  {
    if t == [] then [] else Entries(t[..|t| - 1]) + t[|t| - 1]
  }

  function Lookup<V>(t: Table<V>, home: int -> nat, k: int): Option<V>
  {
    if home(k) < |t| then Get(t[home(k)], k) else None
  }

  // The finite map a table stands for.
  ghost function Contents<V>(t: Table<V>, home: int -> nat): map<int, V>
  {
    map k | k in AllKeys(t) && Lookup(t, home, k).Some? :: Lookup(t, home, k).value
  }

  lemma {:induction false} KeyFound<V>(t: Table<V>, home: int -> nat, k: int)
    requires Placed(t, home)
    ensures k in AllKeys(t) <==> Lookup(t, home, k).Some?
  {
    if t != [] {
      var front, last := t[..|t| - 1], t[|t| - 1];
      KeyFound(front, home, k);
      GetIffKey(last, k);
    }
    hide Keys, Sorted, Get;
  }

  lemma MappedKey<V>(t: Table<V>, home: int -> nat, k: int)
    requires Placed(t, home)
    ensures var m := Contents(t, home); Lookup(t, home, k) == if k in m then Some(m[k]) else None
  {
    KeyFound(t, home, k);
    hide Placed, Lookup, AllKeys;
  }

  lemma {:induction false} EntriesCount<V>(t: Table<V>, home: int -> nat)
    requires Placed(t, home)
    ensures |Entries(t)| == |AllKeys(t)|
  {
    if t != [] {
      var n := |t| - 1;
      var front, last := t[..n], t[n];
      EntriesCount(front, home);
      SortedCount(last);
      forall k | k in Keys(last) ensures k !in AllKeys(front) { KeyFound(front, home, k); }
      hide Placed, Keys, Sorted, Lookup;
      assert AllKeys(t) == AllKeys(front) + Keys(last);
    }
  }

  // numElements is the size of the map.
  lemma SizeIsCount<V>(t: Table<V>, home: int -> nat)
    requires Placed(t, home)
    ensures |Contents(t, home)| == |Entries(t)|
  {
    EntriesCount(t, home);
    forall k ensures k in AllKeys(t) <==> Lookup(t, home, k).Some? { KeyFound(t, home, k); }
    hide Placed, Lookup, AllKeys, Entries;
    assert Contents(t, home).Keys == AllKeys(t);
  }

  lemma {:induction false} Replaced<V>(t: Table<V>, b: nat, c: seq<Entry<V>>)
    requires b < |t|
    ensures |Entries(t[b := c])| == |Entries(t)| - |t[b]| + |c|
  {
    var n := |t| - 1;
    if b < n {
      Replaced(t[..n], b, c);
      assert t[b := c][..n] == t[..n][b := c];
    } else {
      assert t[b := c][..n] == t[..n];
    }
  }

  // Two placed tables with lookups that differ in one key.
  lemma MapsTo<V>(t: Table<V>, t': Table<V>, home: int -> nat, x: int, d: Option<V>)
    requires Placed(t, home) && Placed(t', home)
    requires forall k :: Lookup(t', home, k) == if k == x then d else Lookup(t, home, k)
    ensures Contents(t', home) == if d.Some? then Contents(t, home)[x := d.value] else Contents(t, home) - {x}
  {
    var m, m' := Contents(t, home), Contents(t', home);
    var want := if d.Some? then m[x := d.value] else m - {x};
    hide Lookup, Placed, Contents;
    forall k ensures (k in m' <==> k in want) && (k in m' ==> m'[k] == want[k]) {
      MappedKey(t, home, k);
      MappedKey(t', home, k);
    }
  }

  lemma StillPlaced<V>(t: Table<V>, home: int -> nat, b: nat, c: seq<Entry<V>>)
    requires Placed(t, home) && b < |t| && Sorted(c) && forall k :: k in Keys(c) ==> home(k) == b
    ensures Placed(t[b := c], home)
  {
    hide Sorted, Keys;
  }

  lemma Added<V>(t: Table<V>, home: int -> nat, e: Entry<V>)
    requires Placed(t, home) && home(e.key) < |t| && e.key !in Keys(t[home(e.key)])
    ensures var t' := t[home(e.key) := Inserted(t[home(e.key)], e)];
            && Placed(t', home) && |Entries(t')| == |Entries(t)| + 1
            && Contents(t', home) == Contents(t, home)[e.key := e.data]
  {
    var b := home(e.key);
    var t' := t[b := Inserted(t[b], e)];
    InsertedSorted(t[b], e);
    InsertedKeys(t[b], e);
    StillPlaced(t, home, b, Inserted(t[b], e));
    Replaced(t, b, Inserted(t[b], e));
    forall k ensures Lookup(t', home, k) == if k == e.key then Some(e.data) else Lookup(t, home, k) {
      InsertedGet(t[b], e, k);
    }
    hide Placed, Lookup, Contents, Entries, Keys, Inserted;
    MapsTo(t, t', home, e.key, Some(e.data));
  }

  lemma Removed<V>(t: Table<V>, home: int -> nat, x: int)
    requires Placed(t, home) && home(x) < |t| && x in Keys(t[home(x)])
    ensures var t' := t[home(x) := Deleted(t[home(x)], x)];
            && Placed(t', home) && |Entries(t')| == |Entries(t)| - 1
            && Contents(t', home) == Contents(t, home) - {x}
  {
    var b := home(x);
    var t' := t[b := Deleted(t[b], x)];
    DeletedKeys(t[b], x);
    DeletedSorted(t[b], x);
    StillPlaced(t, home, b, Deleted(t[b], x));
    Replaced(t, b, Deleted(t[b], x));
    forall k ensures Lookup(t', home, k) == if k == x then None else Lookup(t, home, k) {
      DeletedGet(t[b], x, k);
    }
    hide Placed, Lookup, Contents, Entries, Keys, Deleted, Sorted;
    MapsTo(t, t', home, x, None);
  }

  // Presence as the walk sees it.
  lemma Present<V>(t: Table<V>, home: int -> nat, x: int)
    requires Placed(t, home) && home(x) < |t|
    ensures Sorted(t[home(x)])
    ensures Get(t[home(x)], x) == if x in Contents(t, home) then Some(Contents(t, home)[x]) else None
    ensures x in Keys(t[home(x)]) <==> x in Contents(t, home)
  {
    MappedKey(t, home, x);
    GetIffKey(t[home(x)], x);
  }

  lemma {:induction false} EntryAt<V>(t: Table<V>, i: nat, j: nat)
    requires i < |t| && j < |t[i]|
    ensures |Entries(t[..i])| + j < |Entries(t)| && Entries(t)[|Entries(t[..i])| + j] == t[i][j]
  {
    var n := |t| - 1;
    if i < n {
      EntryAt(t[..n], i, j);
      assert t[..n][..i] == t[..i];
    }
  }

  // Going through the indices visits every pair of the map, and since there
  // are as many entries as pairs, each once.
  lemma EntriesAreContents<V>(t: Table<V>, home: int -> nat, e: Entry<V>)
    requires Placed(t, home)
    ensures e in Entries(t) <==> e.key in Contents(t, home) && Contents(t, home)[e.key] == e.data
  {
    MappedKey(t, home, e.key);
    EntryInChain(t, home, e);
    if home(e.key) < |t| { ChainEntry(t[home(e.key)], e); }
    hide Placed, Entries, Contents, Get, Sorted;
  }

  lemma {:induction false} ChainEntry<V>(c: seq<Entry<V>>, e: Entry<V>)
    requires Sorted(c)
    ensures e in c <==> Get(c, e.key) == Some(e.data)
  {
    if c != [] {
      ChainEntry(c[1..], e);
      assert c == [c[0]] + c[1..];
      if e in c[1..] { assert c[0].key < e.key; }
    }
  }

  lemma {:induction false} EntryInChain<V>(t: Table<V>, home: int -> nat, e: Entry<V>)
    requires Placed(t, home)
    ensures e in Entries(t) <==> home(e.key) < |t| && e in t[home(e.key)]
  {
    if t != [] {
      var n := |t| - 1;
      EntryInChain(t[..n], home, e);
      if e in t[n] { var i :| 0 <= i < |t[n]| && t[n][i] == e; KeyAt(t[n], i); }
      hide Sorted, Keys;
    }
  }

  // The chain a key belongs to.
  function Masked(hash: int -> nat, mask: nat): int -> nat
  {
    k => And(hash(k), mask)
  }

  // The overload that is handed the hash looks for the key where the key's own
  // hash says, and inserts where the given hash says.  If these are different
  // chains the new entry is never found.
  lemma WrongHashHides<V>(t: Table<V>, home: int -> nat, e: Entry<V>, b: nat, k: int)
    requires b < |t| && home(e.key) != b && Lookup(t, home, e.key) == None
    ensures Lookup(t[b := Inserted(t[b], e)], home, e.key) == None
    ensures !Placed(t[b := Inserted(t[b], e)], home)
  {
    InsertedKeys(t[b], e);
    assert e.key in Keys(t[b := Inserted(t[b], e)][b]);
  }

  lemma NextEntries<V>(t: Table<V>, i: nat)
    requires i < |t|
    ensures Entries(t[..i + 1]) == Entries(t[..i]) + t[i]
  {
    assert t[..i + 1][..i] == t[..i];
  }

  lemma EmptyEntries<V>(t: Table<V>)
    ensures t[..0] == [] && Entries(t[..0]) == []
  {}

  class HashTable<V(==,!new)> {
    const computeHash: int -> nat
    var table: Table<V>
    var hashMask: nat
    var tableSize: nat
    var numElements: int

    ghost predicate Valid()
      reads this
    {
      && PowerOfTwo(tableSize) && hashMask == tableSize - 1 && |table| == tableSize
      && Placed(table, Masked(computeHash, hashMask))
      && numElements == |Entries(table)|
    }

    ghost function Map(): map<int, V>
      reads this
    {
      Contents(table, Masked(computeHash, hashMask))
    }

    // For every size the call returns from, as NeverReturnsExactly has it; for
    // zero there are no chains.
    constructor (size: int, hash: int -> nat)
      requires 0 <= size < 0x8000_0000 || size == -0x8000_0000
      ensures computeHash == hash
      ensures size != 0 ==> Valid() && Map() == map[] && tableSize >= size
      ensures size == 0 ==> table == [] && tableSize == 0 && hashMask == 0xFFFF_FFFF
    {
      computeHash := hash;
      NeverReturnsExactly(size);
      hide NeverReturns, And, Placed, Entries, Contents, PowerOfTwo, Masked;
      var chosen := ChooseSize(size);
      var n, mask := chosen.value.0, chosen.value.1;
      tableSize, hashMask := n, mask;
      table := seq(n, i => []);
      numElements := 0;
      new;
      HighBit();
      EmptyTable(table, Masked(hash, mask));
    }

    method IsUnique(k: int) returns (unique: bool)
      requires Valid()
      ensures unique <==> k !in Map()
    {
      var chain := table[And(computeHash(k), hashMask)];
      MappedKey(table, Masked(computeHash, hashMask), k);
      var i := 0;
      while i < |chain|
        invariant i <= |chain| && forall j :: 0 <= j < i ==> chain[j].key != k
      {
        if chain[i].key == k {
          GetAt(chain, k, i);
          return false;
        }
        i := i + 1;
      }
      GetMissing(chain, k);
      unique := true;
    }

    method GetElement(k: int) returns (data: Option<V>)
      requires Valid()
      ensures data == if k in Map() then Some(Map()[k]) else None
    {
      MappedKey(table, Masked(computeHash, hashMask), k);
      var found, _ := Walk(table[And(computeHash(k), hashMask)], k);
      data := found;
    }

    method AddElement(k: int, d: V) returns (added: bool)
      requires Valid()
      modifies this`table, this`numElements
      ensures Valid() && added == (k !in old(Map()))
      ensures Map() == if added then old(Map())[k := d] else old(Map())
      ensures numElements == |Map()|
    {
      hide Placed, Entries, Contents, Lookup, Keys, Get, Deleted, Inserted, Sorted, And, PowerOfTwo;
      ghost var home := Masked(computeHash, hashMask);
      SizeIsCount(table, home);
      var found := GetElement(k);
      if found.Some? { return false; }
      var at := And(computeHash(k), hashMask);
      Present(table, home, k);
      Added(table, home, Entry(k, d));
      var chain := Insert(table[at], Entry(k, d));
      table := table[at := chain];
      numElements := numElements + 1;
      SizeIsCount(table, home);
      added := true;
    }

    method RemoveElement(k: int) returns (removed: bool)
      requires Valid()
      modifies this`table, this`numElements
      ensures Valid() && removed == (k in old(Map())) && Map() == old(Map()) - {k}
      ensures numElements == |Map()|
    {
      hide Placed, Entries, Contents, Lookup, Keys, Get, Deleted, Inserted, Sorted, And, PowerOfTwo;
      ghost var home := Masked(computeHash, hashMask);
      var at := And(computeHash(k), hashMask);
      Present(table, home, k);
      SizeIsCount(table, home);
      var chain;
      chain, removed := Take(table[at], k);
      if removed {
        Removed(table, home, k);
        table := table[at := chain];
        numElements := numElements - 1;
        SizeIsCount(table, home);
      } else {
        assert Map() == Map() - {k};
      }
    }

    method GetElementAt(index: int) returns (e: Option<Entry<V>>)
      requires Valid()
      ensures e == if 0 <= index < numElements then Some(Entries(table)[index]) else None
    {
      hide Placed, Entries, Masked;
      EmptyEntries(table);
      if index < 0 || index >= numElements { return None; }
      var rest, i := index, 0;
      while i < tableSize && rest >= |table[i]|
        invariant 0 <= i <= tableSize && rest >= 0 && rest + |Entries(table[..i])| == index
      {
        NextEntries(table, i);
        rest, i := rest - |table[i]|, i + 1;
      }
      assert table[..|table|] == table;
      EntryAt(table, i, rest);
      e := Some(table[i][rest]);
    }
  }

  lemma {:induction false} EmptyTable<V>(t: Table<V>, home: int -> nat)
    requires forall i :: 0 <= i < |t| ==> t[i] == []
    ensures Placed(t, home) && Entries(t) == [] && Contents(t, home) == map[]
  {
    if t != [] { EmptyTable(t[..|t| - 1], home); }
    SizeIsCount(t, home);
  }
}
