// The singly linked list of linked_list.h, whose one built-in iterator survives
// removals and moves.  List is the abstract value: the elements in order and
// the index of the iterator, -1 standing for NULL.  ListRun states what an
// iteration yields when the list changes under it; LinkedList is the class,
// every method of which is shown to be a step of the abstract list.
module ListRun {
  import opened Counting

  datatype List<T> = List(items: seq<T>, at: int)
  {
    predicate Ok()
    {
      -1 <= at < |items|
    }

    // What GetNext has still to yield.
    function Unvisited(): seq<T>
      requires Ok()
    {
      items[at + 1..]
    }
  }

  function Without<T>(s: seq<T>, k: nat): (r: seq<T>)
    requires k < |s|
    ensures |r| == |s| - 1 && forall i :: 0 <= i < |r| ==> r[i] == s[if i < k then i else i + 1]
  {
    s[..k] + s[k + 1..]
  }

  // Unlinking the node the iterator is on leaves it on the one before.
  function Removed<T>(l: List<T>, k: nat): (r: List<T>)
    requires l.Ok() && k < |l.items|
    ensures r.Ok()
  {
    List(Without(l.items, k), if k <= l.at then l.at - 1 else l.at)
  }

  function AddedFront<T>(l: List<T>, x: T): (r: List<T>)
    requires l.Ok()
    ensures r.Ok()
  {
    List([x] + l.items, if l.at < 0 then l.at else l.at + 1)
  }

  function AddedEnd<T>(l: List<T>, x: T): (r: List<T>)
    requires l.Ok()
    ensures r.Ok()
  {
    List(l.items + [x], l.at)
  }

  // Moving the first element to the front, or the last to the end, is nothing.
  function MovedFront<T>(l: List<T>, k: nat): (r: List<T>)
    requires l.Ok() && k < |l.items|
    ensures r.Ok()
  {
    if k == 0 then l else AddedFront(Removed(l, k), l.items[k])
  }

  function MovedEnd<T>(l: List<T>, k: nat): (r: List<T>)
    requires l.Ok() && k < |l.items|
    ensures r.Ok()
  {
    if k == |l.items| - 1 then l else AddedEnd(Removed(l, k), l.items[k])
  }

  // ------------------------------------------- one change during an iteration

  lemma RemovalUnvisited<T>(l: List<T>, k: nat)
    requires l.Ok() && k < |l.items|
    ensures k <= l.at ==> Removed(l, k).Unvisited() == l.Unvisited()
    ensures k > l.at ==> Removed(l, k).Unvisited() == Without(l.Unvisited(), k - l.at - 1)
  {}

  // An element moved to the front is not yielded again, as long as the
  // iterator is on some node.
  lemma FrontUnvisited<T>(l: List<T>, k: nat)
    requires l.Ok() && k < |l.items| && l.at >= 0
    ensures k <= l.at ==> MovedFront(l, k).Unvisited() == l.Unvisited()
    ensures k > l.at ==> MovedFront(l, k).Unvisited() == Without(l.Unvisited(), k - l.at - 1)
  {
    var r := Removed(l, k);
    RemovalUnvisited(l, k);
    if k > 0 { assert MovedFront(l, k).Unvisited() == r.Unvisited(); }
  }

  // Off the list, the iterator goes over everything, the moved element first.
  lemma FrontUnvisitedFromStart<T>(l: List<T>, k: nat)
    requires l.Ok() && k < |l.items| && l.at == -1
    ensures MovedFront(l, k).Unvisited() == [l.items[k]] + Without(l.items, k)
  {}

  // An element moved to the end will be yielded last, visited or not, unless
  // it was at the end and already visited.
  lemma EndUnvisited<T>(l: List<T>, k: nat)
    requires l.Ok() && k < |l.items|
    ensures MovedEnd(l, k).Unvisited() ==
            if k > l.at then Without(l.Unvisited(), k - l.at - 1) + [l.items[k]]
            else if k == |l.items| - 1 then []
            else l.Unvisited() + [l.items[k]]
  {
    RemovalUnvisited(l, k);
    if k < |l.items| - 1 {
      assert MovedEnd(l, k).Unvisited() == Removed(l, k).Unvisited() + [l.items[k]];
    }
  }

  // ---------------------------------------------------------------- whole runs

  datatype Action<T> =
    | Next
    | Remove(data: T)
    | RemoveAt(index: int)
    | ToFront(data: T)
    | ToEnd(data: T)
    | AddFront(data: T)
    | AddEnd(data: T)

  function Step<T(==)>(l: List<T>, a: Action<T>): (r: List<T>)
    requires l.Ok()
    ensures r.Ok()
  {
    match a
    case Next => if l.at == |l.items| - 1 then l else l.(at := l.at + 1)
    case Remove(x) => if x in l.items then Removed(l, Find(l.items, x)) else l
    case RemoveAt(i) => if 0 <= i < |l.items| then Removed(l, i) else l
    case ToFront(x) => if x in l.items then MovedFront(l, Find(l.items, x)) else l
    case ToEnd(x) => if x in l.items then MovedEnd(l, Find(l.items, x)) else l
    case AddFront(x) => AddedFront(l, x)
    case AddEnd(x) => AddedEnd(l, x)
  }

  function Yielded<T>(l: List<T>, a: Action<T>): seq<T>
    requires l.Ok()
  {
    if a.Next? then l.Unvisited()[..if l.Unvisited() == [] then 0 else 1] else []
  }

  // The element an action adds, moves or removes.
  function Touched<T>(l: List<T>, a: Action<T>): set<T>
  {
    match a
    case Next => {}
    case RemoveAt(i) => if 0 <= i < |l.items| then {l.items[i]} else {}
    case _ => {a.data}
  }

  function Run<T(==)>(l: List<T>, actions: seq<Action<T>>): (r: List<T>)
    requires l.Ok()
    ensures r.Ok()
    decreases |actions|
  {
    if actions == [] then l else Run(Step(l, actions[0]), actions[1..])
  }

  function Yield<T(==)>(l: List<T>, actions: seq<Action<T>>): seq<T>
    requires l.Ok()
    decreases |actions|
  {
    if actions == [] then [] else Yielded(l, actions[0]) + Yield(Step(l, actions[0]), actions[1..])
  }

  predicate TouchesOnly<T(==)>(l: List<T>, actions: seq<Action<T>>, d: set<T>)
    requires l.Ok()
    decreases |actions|
  {
    actions == [] || (Touched(l, actions[0]) <= d && TouchesOnly(Step(l, actions[0]), actions[1..], d))
  }

  // The elements outside d, in order.
  function Others<T(==)>(s: seq<T>, d: set<T>): seq<T>
  {
    if s == [] then [] else (if s[0] in d then [] else [s[0]]) + Others(s[1..], d)
  }

  lemma {:induction false} OthersAppend<T>(a: seq<T>, b: seq<T>, d: set<T>)
    ensures Others(a + b, d) == Others(a, d) + Others(b, d)
  {
    if a == [] {
      assert a + b == b;
    } else {
      assert (a + b)[1..] == a[1..] + b;
      OthersAppend(a[1..], b, d);
    }
  }

  lemma OthersWithout<T>(s: seq<T>, k: nat, d: set<T>)
    requires k < |s| && s[k] in d
    ensures Others(Without(s, k), d) == Others(s, d)
  {
    OthersAppend(s[..k], s[k + 1..], d);
    OthersAppend(s[..k], s[k..], d);
    assert s == s[..k] + s[k..];
    assert s[k..][1..] == s[k + 1..];
  }

  lemma OthersAdded<T>(s: seq<T>, x: T, d: set<T>)
    requires x in d
    ensures Others(s + [x], d) == Others([x] + s, d) == Others(s, d)
  {
    OthersAppend(s, [x], d);
    OthersAppend([x], s, d);
    assert [x][1..] == [];
    assert Others([x], d) == [];
  }

  lemma StepYields<T>(l: List<T>, a: Action<T>, d: set<T>)
    requires l.Ok() && Touched(l, a) <= d
    ensures Others(Yielded(l, a) + Step(l, a).Unvisited(), d) == Others(l.Unvisited(), d)
  {
    assert !a.Next? ==> Yielded(l, a) + Step(l, a).Unvisited() == Step(l, a).Unvisited();
    match a
    case Next => assert Yielded(l, a) + Step(l, a).Unvisited() == l.Unvisited();
    case Remove(x) => if x in l.items { RemovedYields(l, Find(l.items, x), d); }
    case RemoveAt(i) => if 0 <= i < |l.items| { RemovedYields(l, i, d); }
    case ToFront(x) => if x in l.items { FrontYields(l, Find(l.items, x), d); }
    case ToEnd(x) => if x in l.items { EndYields(l, Find(l.items, x), d); }
    case AddFront(x) => AddedYields(l, x, d);
    case AddEnd(x) => AddedYields(l, x, d);
  }

  lemma AddedYields<T>(l: List<T>, x: T, d: set<T>)
    requires l.Ok() && x in d
    ensures Others(AddedFront(l, x).Unvisited(), d) == Others(AddedEnd(l, x).Unvisited(), d) == Others(l.Unvisited(), d)
  {
    var u := l.Unvisited();
    OthersAdded(u, x, d);
    assert AddedEnd(l, x).Unvisited() == u + [x];
    assert AddedFront(l, x).Unvisited() == if l.at < 0 then [x] + u else u;
  }

  lemma RemovedYields<T>(l: List<T>, k: nat, d: set<T>)
    requires l.Ok() && k < |l.items| && l.items[k] in d
    ensures Others(Removed(l, k).Unvisited(), d) == Others(l.Unvisited(), d)
  {
    RemovalUnvisited(l, k);
    if k > l.at { OthersWithout(l.Unvisited(), k - l.at - 1, d); }
  }

  lemma FrontYields<T>(l: List<T>, k: nat, d: set<T>)
    requires l.Ok() && k < |l.items| && l.items[k] in d
    ensures Others(MovedFront(l, k).Unvisited(), d) == Others(l.Unvisited(), d)
  {
    RemovedYields(l, k, d);
    AddedYields(Removed(l, k), l.items[k], d);
  }

  lemma EndYields<T>(l: List<T>, k: nat, d: set<T>)
    requires l.Ok() && k < |l.items| && l.items[k] in d
    ensures Others(MovedEnd(l, k).Unvisited(), d) == Others(l.Unvisited(), d)
  {
    RemovedYields(l, k, d);
    AddedYields(Removed(l, k), l.items[k], d);
  }

  // However the list is changed while it is iterated over, every element that
  // no change touched is yielded exactly once, in order: what was yielded plus
  // what is still to come is what was to come at first.
  lemma {:induction false} IterationIsSound<T>(l: List<T>, actions: seq<Action<T>>, d: set<T>)
    requires l.Ok() && TouchesOnly(l, actions, d)
    ensures Others(Yield(l, actions) + Run(l, actions).Unvisited(), d) == Others(l.Unvisited(), d)
    decreases |actions|
  {
    if actions == [] {
      assert Yield(l, actions) + Run(l, actions).Unvisited() == l.Unvisited();
    } else {
      var a, rest := actions[0], actions[1..];
      var next := Step(l, a);
      IterationIsSound(next, rest, d);
      StepYields(l, a, d);
      var y, z := Yielded(l, a), Yield(next, rest) + Run(next, rest).Unvisited();
      assert Yield(l, actions) + Run(l, actions).Unvisited() == y + z;
      hide Step, Run, Yield, Others;
      OthersAppend(y, z, d);
      OthersAppend(y, next.Unvisited(), d);
    }
  }
}

module LinkedList {
  import opened Counting
  import opened ListRun

  class Node<T(==,!new)> {
    var data: T
    var next: Node?<T>

    constructor (data: T)
      ensures this.data == data && next == null
    {
      this.data := data;
      next := null;
    }
  }

  class LinkedList<T(==,!new)> {
    var head: Node?<T>
    var tail: Node?<T>
    var current: Node?<T>  // the source's iterator
    var numElements: int
    ghost var nodes: seq<Node<T>>
    ghost var list: List<T>

    // The node sequence is what following next from head visits.
    ghost predicate Chained()
      reads this`head, this`nodes, this`list, nodes
    {
      && |list.items| == |nodes| && list.Ok()
      && Distinct(nodes)
      && (forall i {:trigger nodes[i].data} {:trigger list.items[i]} ::
            0 <= i < |nodes| ==> nodes[i].data == list.items[i])
      && (forall i {:trigger nodes[i].next} :: 0 <= i < |nodes| ==> nodes[i].next == NodeAt(i + 1))
      && head == NodeAt(0)
    }

    ghost predicate Linked()
      reads this, nodes
    {
      Chained() && tail == NodeAt(|nodes| - 1) && current == NodeAt(list.at)
    }

    ghost predicate Distinct(ns: seq<Node<T>>)
    {
      forall i, j :: 0 <= i < j < |ns| ==> ns[i] != ns[j]
    }

    ghost function NodeAt(i: int): Node?<T>
      reads this`nodes
    {
      if 0 <= i < |nodes| then nodes[i] else null
    }

    ghost predicate Valid()
      reads this, nodes
    {
      Linked() && numElements == |nodes|
    }

    constructor ()
      ensures Valid() && list == List([], -1)
    {
      numElements := 0;
      head, tail, current := null, null, null;
      nodes, list := [], List([], -1);
    }

    method GetNext() returns (ele: Option<T>)
      requires Valid()
      modifies this`current, this`list
      ensures Valid() && list == Step(old(list), Next)
      ensures (if ele.None? then [] else [ele.value]) == Yielded(old(list), Next)
    {
      hide Removed, AddedFront, AddedEnd, MovedFront, MovedEnd, Find;
      assert (current == tail) == (list.at == |nodes| - 1);
      hide Distinct;
      if current == tail { return None; }
      if current == null {
        if head == null { return None; }
        current := head;
      } else {
        current := current.next;
      }
      list := list.(at := list.at + 1);
      ele := Some(current.data);
    }

    method GetFirst() returns (ele: Option<T>)
      requires Valid()
      modifies this`current, this`list
      ensures Valid() && list == (if old(list).items == [] then old(list) else old(list).(at := 0))
      ensures ele == if list.items == [] then None else Some(list.items[0])
    {
      if head == null { return None; }
      current := head;
      list := list.(at := 0);
      ele := Some(current.data);
    }

    method AddElement(x: T)
      requires Valid()
      modifies this, nodes
      ensures Valid() && list == AddedEnd(old(list), x) && nodes == old(nodes) + [tail] && fresh(tail)
    {
      var n := new Node(x);
      numElements := numElements + 1;
      LinkLast(n);
    }

    method AddToFront(x: T)
      requires Valid()
      modifies this
      ensures Valid() && list == AddedFront(old(list), x) && nodes == [head] + old(nodes) && fresh(head)
    {
      var n := new Node(x);
      numElements := numElements + 1;
      LinkFirst(n);
    }

    // A node behind the tail.
    method LinkLast(n: Node<T>)
      requires Linked() && n !in nodes && n.next == null
      modifies this`head, this`tail, this`nodes, this`list, n`next, nodes
      ensures Linked() && list == AddedEnd(old(list), n.data) && nodes == old(nodes) + [n]
    {
      if tail == null {
        head := n;
      } else {
        tail.next := n;
      }
      tail := n;
      nodes, list := nodes + [n], AddedEnd(list, n.data);
    }

    // A node before the head.
    method LinkFirst(n: Node<T>)
      requires Linked() && n !in nodes && (head == null ==> n.next == null)
      modifies this`head, this`tail, this`nodes, this`list, n`next
      ensures Linked() && list == AddedFront(old(list), n.data) && nodes == [n] + old(nodes)
    {
      if head == null {
        tail := n;
      } else {
        n.next := head;
      }
      head := n;
      nodes, list := [n] + nodes, AddedFront(list, n.data);
    }

    // Takes node k out; before is its predecessor.
    method Unlink(before: Node?<T>, n: Node<T>, ghost k: nat)
      requires Linked() && k < |nodes| && n == nodes[k] && before == NodeAt(k - 1)
      modifies this`head, this`tail, this`current, this`nodes, this`list, nodes
      ensures Linked() && list == Removed(old(list), k) && nodes == Without(old(nodes), k)
      ensures n.data == old(n.data) && n !in nodes
    {
      if before != null {
        UnlinkInner(before, n, k);
      } else {
        UnlinkHead(n);
      }
    }

    method UnlinkHead(n: Node<T>)
      requires Linked() && 0 < |nodes| && n == nodes[0]
      modifies this`head, this`tail, this`current, this`nodes, this`list
      ensures Linked() && list == Removed(old(list), 0) && nodes == Without(old(nodes), 0) && n !in nodes
    {
      hide Without;
      head := n.next;
      if current == n { current := null; }
      if n == tail { tail := null; }
      nodes, list := Without(nodes, 0), Removed(list, 0);
    }

    method UnlinkInner(before: Node<T>, n: Node<T>, ghost k: nat)
      requires Linked() && 0 < k < |nodes| && n == nodes[k] && before == nodes[k - 1]
      modifies this`tail, this`current, this`nodes, this`list, before`next
      ensures Linked() && list == Removed(old(list), k) && nodes == Without(old(nodes), k) && n !in nodes
    {
      Bypass(before, n, k);
      hide Chained, Without;
      if current == n { current := before; }
      if n == tail { tail := before; }
    }

    method Bypass(before: Node<T>, n: Node<T>, ghost k: nat)
      requires Chained() && 0 < k < |nodes| && n == nodes[k] && before == nodes[k - 1]
      modifies this`nodes, this`list, before`next
      ensures Chained() && list == Removed(old(list), k) && nodes == Without(old(nodes), k) && n !in nodes
    {
      hide Without;
      before.next := n.next;
      nodes, list := Without(nodes, k), Removed(list, k);
    }

    // The walk that the search loops below share: the first node holding x
    // with its predecessor, or null.
    method Locate(x: T) returns (prev: Node?<T>, tmp: Node?<T>, k: nat)
      requires Valid()
      ensures k == Find(list.items, x) && (x in list.items <==> k < |nodes|)
      ensures tmp == NodeAt(k) && prev == NodeAt(k - 1)
    {
      tmp, prev, k := head, null, 0;
      while tmp != null && tmp.data != x
        invariant k <= |nodes| && x !in list.items[..k]
        invariant tmp == NodeAt(k) && prev == NodeAt(k - 1)
        decreases |nodes| - k
      {
        assert list.items[..k + 1] == list.items[..k] + [list.items[k]];
        prev, tmp, k := tmp, tmp.next, k + 1;
      }
      FindIs(list.items, x, k);
    }

    method RemoveElement(x: T) returns (found: bool)
      requires Valid()
      modifies this, nodes
      ensures Valid() && list == Step(old(list), Remove(x)) && found == (x in old(list).items)
      ensures nodes == if found then Without(old(nodes), Find(old(list).items, x)) else old(nodes)
    {
      var prev, tmp, k := Locate(x);
      hide Find;
      hide Linked, Chained, Removed, Without;
      if tmp == null { return false; }
      Unlink(prev, tmp, k);
      numElements := numElements - 1;
      return true;
    }

    method RemoveElementAt(index: int) returns (found: bool)
      requires Valid()
      modifies this, nodes
      ensures Valid() && list == Step(old(list), RemoveAt(index)) && found == (0 <= index < |old(list).items|)
      ensures nodes == if found then Without(old(nodes), index) else old(nodes)
    {
      if index < 0 || index >= numElements { return false; }
      var tmp, prev, i := head, null, 0;
      while tmp != null && i < index
        invariant 0 <= i <= index < |nodes|
        invariant tmp == NodeAt(i) && prev == NodeAt(i - 1)
      {
        prev, tmp, i := tmp, tmp.next, i + 1;
      }
      if i != index { return false; }
      Unlink(prev, tmp, index);
      numElements := numElements - 1;
      return true;
    }

    method MoveToEnd(x: T) returns (found: bool)
      requires Valid()
      modifies this, nodes
      ensures Valid() && list == Step(old(list), ToEnd(x)) && found == (x in old(list).items)
    {
      var prev, tmp, k := Locate(x);
      hide Find;
      if tmp == null { return false; }
      assert (tmp == tail) == (k == |nodes| - 1);
      hide Linked, Chained, Removed, Without;
      if tmp == tail { return true; }
      Unlink(prev, tmp, k);
      tmp.next := null;
      LinkLast(tmp);
      return true;
    }

    method MoveToFront(x: T) returns (found: bool)
      requires Valid()
      modifies this, nodes
      ensures Valid() && list == Step(old(list), ToFront(x)) && found == (x in old(list).items)
    {
      var prev, tmp, k := Locate(x);
      hide Find;
      if tmp == null { return false; }
      assert (tmp == head) == (k == 0);
      hide Linked, Chained, Removed, Without;
      if tmp == head { return true; }
      Unlink(prev, tmp, k);
      LinkFirst(tmp);
      return true;
    }

    method GetIndex(x: T) returns (index: int)
      requires Valid()
      ensures index == if x in list.items then Find(list.items, x) else -1
    {
      var _, tmp, k := Locate(x);
      index := if tmp != null then k else -1;
    }

    method GetElement(index: int) returns (ele: Option<T>)
      requires Valid()
      ensures ele == if 0 <= index < |list.items| then Some(list.items[index]) else None
    {
      if index < 0 || index >= numElements { return None; }
      var tmp, i := head, 0;
      while i < index
        invariant 0 <= i <= index && tmp == NodeAt(i)
      {
        tmp, i := tmp.next, i + 1;
      }
      ele := Some(tmp.data);
    }

    method CheckList() returns (ok: bool)
      requires Linked()
      ensures ok <==> numElements == |nodes|
    {
      var tmp, i := head, 0;
      while tmp != null
        invariant 0 <= i <= |nodes| && tmp == NodeAt(i)
        decreases |nodes| - i
      {
        tmp, i := tmp.next, i + 1;
      }
      ok := i == numElements;
    }
  }
}
