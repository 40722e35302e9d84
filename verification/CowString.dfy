// The copy-on-write String of pv_string.h and pv_string.cpp.  Handles share a
// reference-counted Srep; World holds, as ghost state, which handles and which
// reps are alive, so that "freed exactly when the last handle goes" and "no
// handle dangles" are one invariant.  A char* argument is a string without
// terminator; the value of a handle is what c_str() shows.
module CowString {

  // The C string at the start of a buffer.
  function CStr(buf: string): (v: string)
    ensures |v| <= |buf| && v == buf[..|v|] && '\0' !in v
    ensures |v| < |buf| ==> buf[|v|] == '\0'
  {
    if buf == "" || buf[0] == '\0' then "" else [buf[0]] + CStr(buf[1..])
  }

  function Zeros(n: nat): (z: string)
    ensures |z| == n && forall k :: 0 <= k < n ==> z[k] == '\0'
  {
    if n == 0 then "" else "\0" + Zeros(n - 1)
  }

  // strncpy of n characters, then a terminator: what an Srep is filled with.
  function Fill(src: string, n: nat): (buf: string)
    ensures |buf| == n + 1 && buf[n] == '\0'
  {
    var v := CStr(src);
    if |v| >= n then v[..n] + "\0" else v + Zeros(n - |v| + 1)
  }

  // Nothing but terminators after the first one.
  predicate Clean(buf: string)
  {
    forall k :: |CStr(buf)| <= k < |buf| ==> buf[k] == '\0'
  }

  lemma {:induction false} CStrOf(buf: string, n: nat)
    requires n < |buf| && buf[n] == '\0' && '\0' !in buf[..n]
    ensures CStr(buf) == buf[..n]
  {
    if n > 0 {
      assert buf[0] == buf[..n][0] && buf[1..][..n - 1] == buf[..n][1..];
      CStrOf(buf[1..], n - 1);
    }
  }

  lemma {:induction false} CStrNoNul(v: string)
    requires '\0' !in v
    ensures CStr(v) == v
  {
    if v != "" { CStrNoNul(v[1..]); }
  }

  lemma FillValue(src: string, n: nat)
    ensures CStr(Fill(src, n)) == if |CStr(src)| >= n then CStr(src)[..n] else CStr(src)
    ensures Clean(Fill(src, n))
  {
    var k := if |CStr(src)| >= n then n else |CStr(src)|;
    assert Fill(src, n)[..k] == CStr(src)[..k];
    CStrOf(Fill(src, n), k);
  }

  lemma FillWhole(src: string)
    requires '\0' !in src
    ensures CStr(Fill(src, |src|)) == src
  {
    FillValue(src, |src|);
    CStrNoNul(src);
  }

  // The buffer after writing c at index, in place or into a private copy.
  function Written(buf: string, size: nat, index: nat, c: char, shared: bool): string
    requires |buf| == size + 1 && index < size
  {
    (if shared then Fill(buf, size) else buf)[index := c]
  }

  lemma WriteBehind(buf: string, size: nat, index: nat, c: char, shared: bool)
    requires |buf| == size + 1 && |CStr(buf)| < index < size
    ensures CStr(Written(buf, size, index, c, shared)) == CStr(buf)
  {
    var n := |CStr(buf)|;
    FillValue(buf, size);
    assert Written(buf, size, index, c, shared)[..n] == buf[..n];
    CStrOf(Written(buf, size, index, c, shared), n);
  }

  lemma WriteInside(buf: string, size: nat, index: nat, c: char, shared: bool)
    requires |buf| == size + 1 && index <= |CStr(buf)| && index < size
    ensures c == '\0' ==> CStr(Written(buf, size, index, c, shared)) == CStr(buf)[..index]
    ensures c != '\0' && index < |CStr(buf)| <= size ==>
            CStr(Written(buf, size, index, c, shared)) == CStr(buf)[index := c]
  {
    var n := |CStr(buf)|;
    var w := Written(buf, size, index, c, shared);
    if n <= size { FillValue(buf, size); }
    if c == '\0' {
      assert w[..index] == CStr(buf)[..index];
      CStrOf(w, index);
    } else if index < n <= size {
      assert w[..n] == CStr(buf)[index := c];
      CStrOf(w, n);
    }
  }

  // Over the terminator, a private copy ends right there, while the original
  // goes on with whatever was behind it.
  lemma CopyAtEnd(buf: string, size: nat, c: char)
    requires |buf| == size + 1 && |CStr(buf)| < size && c != '\0'
    ensures CStr(Written(buf, size, |CStr(buf)|, c, true)) == CStr(buf) + [c]
  {
    var n := |CStr(buf)|;
    var w := Written(buf, size, n, c, true);
    assert w[..n] == CStr(buf) && w[n + 1] == '\0';
    assert w[..n + 1] == CStr(buf) + [c];
    hide CStr, Fill, Written;
    CStrOf(w, n + 1);
  }

  lemma OwnAtEnd(buf: string, size: nat, c: char)
    requires |buf| == size + 1 && |CStr(buf)| < size && c != '\0'
    ensures CStr(Written(buf, size, |CStr(buf)|, c, false)) == CStr(buf) + [c] <==> buf[|CStr(buf)| + 1] == '\0'
  {
    var n := |CStr(buf)|;
    var w := Written(buf, size, n, c, false);
    assert w[..n + 1] == CStr(buf) + [c] && w[n + 1] == buf[n + 1];
    hide CStr, Fill, Written;
    if buf[n + 1] == '\0' {
      CStrOf(w, n + 1);
    } else {
      assert w[..n + 2] == w[..n + 1] + [buf[n + 1]];
      LongerCStr(w, n + 2);
    }
  }

  // Writing one character is independent of sharing except in one case:
  // overwriting the string's terminator where more text lies behind it, which
  // a private copy has already dropped.
  lemma WriteIgnoresSharing(buf: string, size: nat, index: nat, c: char)
    requires |buf| == size + 1 && buf[size] == '\0' && index < size
    ensures CStr(Written(buf, size, index, c, true)) == CStr(Written(buf, size, index, c, false))
            <==> !(index == |CStr(buf)| && c != '\0' && buf[index + 1] != '\0')
  {
    var n := |CStr(buf)|;
    assert n <= size;
    if index > n {
      WriteBehind(buf, size, index, c, true);
      WriteBehind(buf, size, index, c, false);
    } else if c == '\0' || index < n {
      WriteInside(buf, size, index, c, true);
      WriteInside(buf, size, index, c, false);
    } else {
      CopyAtEnd(buf, size, c);
      OwnAtEnd(buf, size, c);
    }
    hide Written;
  }

  // The buffer after write(offset, length, ptr): what fits is copied and, if
  // there is still room, terminated.
  function Spliced(buf: string, size: nat, offset: nat, length: nat, ptr: string, shared: bool): (r: string)
    requires |buf| == size + 1 && buf[size] == '\0' && offset <= size && |ptr| >= Fitting(size, offset, length)
    ensures |r| == size + 1 && r[size] == '\0'
  {
    var own := if shared then Fill(buf, size) else buf;
    var end := offset + Fitting(size, offset, length);
    var copied := own[..offset] + ptr[..end - offset] + own[end..];
    if end < size then copied[end := '\0'] else copied
  }

  function Fitting(size: nat, offset: nat, length: nat): nat
    requires offset <= size
  {
    if length > size - offset then size - offset else length
  }

  // Shared or not, the text up to offset stays and the copied text ends it;
  // behind the end of the text nothing changes.
  lemma SplicedValue(buf: string, size: nat, offset: nat, length: nat, ptr: string, shared: bool)
    requires |buf| == size + 1 && buf[size] == '\0' && offset <= size && |ptr| >= Fitting(size, offset, length)
    requires '\0' !in ptr[..Fitting(size, offset, length)]
    ensures CStr(Spliced(buf, size, offset, length, ptr, shared)) ==
            if offset <= |CStr(buf)| then CStr(buf)[..offset] + ptr[..Fitting(size, offset, length)] else CStr(buf)
  {
    var n, k := |CStr(buf)|, Fitting(size, offset, length);
    var r := Spliced(buf, size, offset, length, ptr, shared);
    SplicedPrefix(buf, size, offset, length, ptr, shared);
    hide CStr, Fill, Spliced;
    if offset <= n { CStrOf(r, offset + k); } else { CStrOf(r, n); }
  }

  lemma OwnPrefix(buf: string, size: nat, shared: bool)
    requires |buf| == size + 1 && buf[size] == '\0'
    ensures var own := if shared then Fill(buf, size) else buf;
            own[..|CStr(buf)|] == CStr(buf) && own[|CStr(buf)|] == '\0'
  {
    FillValue(buf, size);
  }

  lemma SplicedPrefix(buf: string, size: nat, offset: nat, length: nat, ptr: string, shared: bool)
    requires |buf| == size + 1 && buf[size] == '\0' && offset <= size && |ptr| >= Fitting(size, offset, length)
    ensures var n, k := |CStr(buf)|, Fitting(size, offset, length);
            var r := Spliced(buf, size, offset, length, ptr, shared);
            if offset <= n then r[..offset + k] == CStr(buf)[..offset] + ptr[..k] && r[offset + k] == '\0'
            else r[..n] == CStr(buf) && r[n] == '\0'
  {
    var n := |CStr(buf)|;
    var own := if shared then Fill(buf, size) else buf;
    OwnPrefix(buf, size, shared);
    hide CStr, Fill;
    if offset <= n { assert own[..offset] == CStr(buf)[..offset]; }
  }

  lemma {:induction false} LongerCStr(buf: string, n: nat)
    requires n <= |buf| && '\0' !in buf[..n]
    ensures |CStr(buf)| >= n
  {
    if n > 0 {
      assert buf[0] == buf[..n][0] && buf[1..][..n - 1] == buf[..n][1..];
      LongerCStr(buf[1..], n - 1);
    }
  }

  // ------------------------------------------------------- heap of handles

  class Srep {
    var buffer: string
    var size: nat
    var refcnt: int

    ghost predicate Ok()
      reads this`buffer, this`size
    {
      |buffer| == size + 1 && buffer[size] == '\0'
    }

    constructor (nsz: nat, src: string)
      ensures Ok() && size == nsz && buffer == Fill(src, nsz) && refcnt == 1
    {
      refcnt := 1;
      size := nsz;
      buffer := Fill(src, nsz);
    }

    // Srep::assign.  The fill is the same whether or not the array is reused.
    method Assign(nsz: nat, src: string)
      modifies this`buffer, this`size
      ensures Ok() && size == nsz && buffer == Fill(src, nsz)
    {
      if size != nsz {
        size := nsz;
      }
      buffer := Fill(src, size);
    }
  }

  // Snapshots of who is bound to what and of the counts, so that the balance
  // between them can be reasoned about without a heap.
  type Bound = map<String, Srep>
  type Counters = map<Srep, int>

  datatype Loan = NoLoan | To(rep: Srep)

  ghost function Sharers(m: Bound, r: Srep): set<String>
  {
    set h | h in m && m[h] == r
  }

  function One(b: bool): nat
  {
    if b then 1 else 0
  }

  // Every binding is to a live rep, and every live rep counts its bindings,
  // plus one reference on loan to a handle about to be bound.
  ghost predicate Counts(m: Bound, c: Counters, loan: Loan)
  {
    && (forall h :: h in m ==> m[h] in c)
    && (forall r :: r in c ==> c[r] == |Sharers(m, r)| + One(loan == To(r)) > 0)
    && (loan.To? ==> loan.rep in c)
  }

  lemma Rebound(m: Bound, h: String, r': Srep, r: Srep)
    requires h in m
    ensures |Sharers(m[h := r'], r)| == |Sharers(m, r)| - One(m[h] == r) + One(r' == r)
  {
    var others := Sharers(m, r) - {h};
    assert Sharers(m, r) == if m[h] == r then others + {h} else others;
    assert Sharers(m[h := r'], r) == if r' == r then others + {h} else others;
  }

  lemma NewlyBound(m: Bound, h: String, r': Srep, r: Srep)
    requires h !in m
    ensures |Sharers(m[h := r'], r)| == |Sharers(m, r)| + One(r' == r)
  {
    assert Sharers(m[h := r'], r) == if r' == r then Sharers(m, r) + {h} else Sharers(m, r);
  }

  lemma Unbound(m: Bound, h: String, r: Srep)
    requires h in m
    ensures |Sharers(m - {h}, r)| == |Sharers(m, r)| - One(m[h] == r)
  {
    assert Sharers(m - {h}, r) == if m[h] == r then Sharers(m, r) - {h} else Sharers(m, r);
  }

  lemma SomeSharer(m: Bound, h: String)
    requires h in m
    ensures |Sharers(m, m[h])| > 0
  {
    assert h in Sharers(m, m[h]);
  }

  lemma OnlySharer(m: Bound, h: String)
    requires h in m && |Sharers(m, m[h])| == 1
    ensures forall other :: other in m && m[other] == m[h] ==> other == h
  {
    forall other | other in m && m[other] == m[h] ensures other == h {
      assert h in Sharers(m, m[h]);
      assert |Sharers(m, m[h]) - {h}| == 0;
      assert other in Sharers(m, m[h]);
    }
  }

  // No leak and no dangling handle: a rep lives exactly as long as some handle
  // is bound to it.
  lemma LiveIffBound(m: Bound, c: Counters)
    requires Counts(m, c, NoLoan)
    ensures c.Keys == m.Values
  {
    forall r | r in c ensures r in m.Values {
      assert c[r] == |Sharers(m, r)|;
      var h :| h in Sharers(m, r);
      assert m[h] == r;
    }
  }

  // Dropping a reference; the last one frees the rep.
  function Dropped(c: Counters, r: Srep): Counters
    requires r in c
  {
    if c[r] == 1 then c - {r} else c[r := c[r] - 1]
  }

  lemma TakeCounts(m: Bound, c: Counters, h: String, newRep: Srep)
    requires Counts(m, c, To(newRep)) && h in m && m[h] != newRep
    ensures Counts(m[h := newRep], Dropped(c, m[h]), NoLoan)
  {
    var m', c' := m[h := newRep], Dropped(c, m[h]);
    forall r | r in c ensures |Sharers(m', r)| == |Sharers(m, r)| - One(m[h] == r) + One(newRep == r) {
      Rebound(m, h, newRep, r);
    }
    forall k | k in m' ensures m'[k] in c' { SomeSharer(m', k); }
    hide Sharers;
  }

  lemma DestroyCounts(m: Bound, c: Counters, h: String)
    requires Counts(m, c, NoLoan) && h in m
    ensures Counts(m - {h}, Dropped(c, m[h]), NoLoan)
  {
    var m', c' := m - {h}, Dropped(c, m[h]);
    forall r | r in c ensures |Sharers(m', r)| == |Sharers(m, r)| - One(m[h] == r) {
      Unbound(m, h, r);
    }
    forall k | k in m' ensures m'[k] in c' { SomeSharer(m', k); }
    hide Sharers;
  }

  lemma BorrowCounts(m: Bound, c: Counters, r: Srep)
    requires Counts(m, c, NoLoan) && r in c
    ensures Counts(m, c[r := c[r] + 1], To(r))
  {
    hide Sharers;
  }

  lemma FreshCounts(m: Bound, c: Counters, r: Srep)
    requires Counts(m, c, NoLoan) && r !in c
    ensures Counts(m, c[r := 1], To(r))
  {
    assert Sharers(m, r) == {};
    hide Sharers;
  }

  lemma BindCounts(m: Bound, c: Counters, h: String, r: Srep)
    requires Counts(m, c, To(r)) && h !in m
    ensures Counts(m[h := r], c, NoLoan)
  {
    forall k | k in c ensures |Sharers(m[h := r], k)| == |Sharers(m, k)| + One(r == k) {
      NewlyBound(m, h, r, k);
    }
    hide Sharers;
  }

  lemma CStrWithin(buf: string, n: nat)
    requires |buf| == n + 1 && buf[n] == '\0'
    ensures |CStr(buf)| <= n
  {}

  // strcat into a buffer with room.
  function Cat(buf: string, src: string): string
    requires |CStr(buf)| + |src| < |buf|
  {
    CStr(buf) + src + "\0" + buf[|CStr(buf)| + |src| + 1..]
  }

  lemma CatValue(buf: string, src: string)
    requires |CStr(buf)| + |src| < |buf| && '\0' !in src
    ensures CStr(Cat(buf, src)) == CStr(buf) + src && |Cat(buf, src)| == |buf|
    ensures buf[|buf| - 1] == '\0' ==> Cat(buf, src)[|buf| - 1] == '\0'
  {
    var n := |CStr(buf)| + |src|;
    assert Cat(buf, src)[..n] == CStr(buf) + src;
    CStrOf(Cat(buf, src), n);
  }

  datatype Ledger = Ledger(bound: Bound, counts: Counters)

  // The text of a grown copy after strcat.
  function Joined(buf: string, n: nat, src: string): (r: string)
    requires |CStr(buf)| + |src| <= n && '\0' !in src
    ensures |r| == n + 1 && r[n] == '\0' && CStr(r) == CStr(buf) + src
  {
    FillValue(buf, n);
    CatValue(Fill(buf, n), src);
    Cat(Fill(buf, n), src)
  }

  // strcmp, which the comparison operators hand their two buffers to.
  function Strcmp(a: string, b: string): int
  {
    var x, y := First(a), First(b);
    if x != y then x as int - y as int else if x == '\0' then 0 else Strcmp(a[1..], b[1..])
  }

  function First(s: string): char
  {
    if s == "" then '\0' else s[0]
  }

  // The operators compare what the handles read as, and nothing behind it: ==
  // is equality of the texts, < a strict total order on them.
  lemma {:induction false} StrcmpEqual(a: string, b: string)
    ensures Strcmp(a, b) == 0 <==> CStr(a) == CStr(b)
  {
    if First(a) == First(b) != '\0' {
      StrcmpEqual(a[1..], b[1..]);
      assert CStr(a)[1..] == CStr(a[1..]) && CStr(b)[1..] == CStr(b[1..]);
    }
  }

  lemma {:induction false} StrcmpReads(a: string, b: string)
    ensures Strcmp(a, b) == Strcmp(CStr(a), CStr(b))
  {
    if First(a) == First(b) != '\0' {
      StrcmpReads(a[1..], b[1..]);
      assert CStr(a)[1..] == CStr(a[1..]) && CStr(b)[1..] == CStr(b[1..]);
    }
  }

  lemma {:induction false} StrcmpOrder(a: string, b: string, c: string)
    ensures Strcmp(b, a) == -Strcmp(a, b)
    ensures Strcmp(a, b) < 0 && Strcmp(b, c) < 0 ==> Strcmp(a, c) < 0
  {
    if First(a) == First(b) != '\0' {
      StrcmpOrder(a[1..], b[1..], if c == "" then "" else c[1..]);
    }
  }

  // The live handles with the reps they are bound to, and the live reps with
  // the references they count.
  class World {
    ghost var all: Ledger

    // The record is true to the objects, every rep is well formed and counts
    // its handles (of which it has some), plus a reference on loan.
    ghost predicate Balanced(loan: Loan)
      reads this, all.bound.Keys, all.counts.Keys
    {
      && Counts(all.bound, all.counts, loan)
      && (forall r :: r in all.counts ==> r.refcnt == all.counts[r] && r.Ok())
      && (forall h :: h in all.bound ==> h.rep == all.bound[h])
    }

    ghost predicate Valid()
      reads this, all.bound.Keys, all.counts.Keys
    {
      Balanced(NoLoan)
    }

    // A rep just made counts the reference its maker holds.
    ghost method Enlist(r: Srep)
      requires Valid() && r !in all.counts && r.Ok() && r.refcnt == 1
      modifies this
      ensures Balanced(To(r)) && all == old(all).(counts := old(all.counts)[r := 1])
    {
      hide CStr, Fill, Srep.Ok, Counts;
      FreshCounts(all.bound, all.counts, r);
      all := all.(counts := all.counts[r := 1]);
    }

    // A new handle takes over the reference on loan.
    ghost method Bind(h: String)
      requires h !in all.bound && Balanced(To(h.rep)) && h.rep in all.counts
      modifies this
      ensures Valid() && all == old(all).(bound := old(all.bound)[h := h.rep])
    {
      hide CStr, Fill, Srep.Ok, Counts;
      BindCounts(all.bound, all.counts, h, h.rep);
      all := all.(bound := all.bound[h := h.rep]);
    }

    // What a live handle's rep is.
    lemma Live(h: String)
      requires Valid() && h in all.bound
      ensures h.rep == all.bound[h] && h.rep in all.counts && h.rep.Ok() && h.rep.refcnt > 0 
    {
      hide CStr, Fill, Sharers;
    }

    lemma Alone(h: String)
      requires Valid() && h in all.bound && h.rep.refcnt == 1
      ensures forall other :: other in all.bound && other != h ==> other.rep == all.bound[other] != h.rep
    {
      OnlySharer(all.bound, h);
      hide CStr, Fill, Sharers;
    }
  }

  class String {
    var rep: Srep

    ghost function Value(): string
      reads this`rep, rep`buffer
    {
      CStr(rep.buffer)
    }

    // String(const char*)
    constructor FromChars(src: string, ghost w: World)
      requires w.Valid() && '\0' !in src
      modifies w
      ensures w.Valid() && fresh(rep) && Value() == src && rep.size == |src|
      ensures w.all == Ledger(old(w.all.bound)[this := rep], old(w.all.counts)[rep := 1])
    {
      rep := new Srep(|src|, src);
      new;
      FillValue(src, |src|);
      CStrNoNul(src);
      hide CStr, Fill, Srep.Ok, Counts;
      w.Enlist(rep);
      w.Bind(this);
    }

    // String(const String&)
    constructor Copy(src: String, ghost w: World)
      requires w.Valid() && src in w.all.bound
      modifies w, src.rep`refcnt
      ensures w.Valid() && rep == old(src.rep)
      ensures w.all == Ledger(old(w.all.bound)[this := rep], old(w.all.counts)[rep := old(src.rep.refcnt) + 1])
      ensures forall h :: h in old(w.all.bound) && h != this ==> h.Value() == old(h.Value())
    {
      src.Borrow(w);
      rep := src.rep;
      new;
      hide CStr, Fill, Srep.Ok, Counts;
      w.Bind(this);
    }

    // One more reference to this handle's rep.
    method Borrow(ghost w: World)
      requires w.Valid() && this in w.all.bound
      modifies rep`refcnt, w
      ensures w.Balanced(To(rep))
      ensures w.all == old(w.all).(counts := old(w.all).counts[rep := old(rep.refcnt) + 1])
    {
      w.Live(this);
      hide CStr, Fill, Srep.Ok, Counts;
      BorrowCounts(w.all.bound, w.all.counts, rep);
      rep.refcnt := rep.refcnt + 1;
      w.all := w.all.(counts := w.all.counts[rep := rep.refcnt]);
    }

    // Gives up the former rep for newRep, whose reference is on loan.
    method Take(newRep: Srep, ghost w: World)
      requires w.Balanced(To(newRep)) && this in w.all.bound && rep != newRep && {rep, newRep} <= w.all.counts.Keys
      modifies w, this`rep, rep`refcnt
      ensures w.Valid() && rep == newRep
      ensures w.all == Ledger(old(w.all.bound)[this := newRep], Dropped(old(w.all.counts), old(rep)))
    {
      hide CStr, Fill, Srep.Ok, Counts;
      TakeCounts(w.all.bound, w.all.counts, this, newRep);
      var former := rep;
      former.refcnt := former.refcnt - 1;
      rep := newRep;
      w.all := Ledger(w.all.bound[this := newRep], Dropped(w.all.counts, former));
    }

    // Gives up the former rep for one just made.
    method Adopt(r: Srep, ghost w: World)
      requires w.Valid() && this in w.all.bound && r !in w.all.counts && r.Ok() && r.refcnt == 1
      modifies w, this`rep, rep`refcnt
      ensures w.Valid() && rep == r && w.all.bound == old(w.all.bound)[this := r]
      ensures w.all.counts == Dropped(old(w.all.counts)[r := 1], old(rep))
    {
      w.Live(this);
      hide World.Balanced, Srep.Ok;
      w.Enlist(r);
      Take(r, w);
    }

    // ~String()
    method Destroy(ghost w: World)
      requires w.Valid() && this in w.all.bound && rep in w.all.counts
      modifies w, rep`refcnt
      ensures w.Valid()
      ensures w.all == Ledger(old(w.all.bound) - {this}, Dropped(old(w.all.counts), rep))
    {
      hide CStr, Fill, Srep.Ok, Counts;
      DestroyCounts(w.all.bound, w.all.counts, this);
      rep.refcnt := rep.refcnt - 1;
      w.all := Ledger(w.all.bound - {this}, Dropped(w.all.counts, rep));
    }

    // operator=(const String&)
    method Assign(src: String, ghost w: World)
      requires w.Valid() && this in w.all.bound && src in w.all.bound
      modifies w, this`rep, rep`refcnt, src.rep`refcnt
      ensures w.Valid() && rep == old(src.rep)
      ensures w.all.bound == old(w.all.bound)[this := rep]
      ensures forall h :: h in old(w.all.bound) && h != this ==> h.Value() == old(h.Value())
    {
      w.Live(this);
      w.Live(src);
      hide World.Balanced, Srep.Ok, CStr;
      if rep == src.rep { return; }
      src.Borrow(w);
      Take(src.rep, w);
    }

    // A handle that shares with nobody has its text replaced in place.
    method AssignInPlace(src: string, ghost w: World)
      requires w.Valid() && this in w.all.bound && rep.refcnt == 1
      modifies rep`buffer, rep`size
      ensures w.Valid() && rep.size == |src| && rep.buffer == Fill(src, |src|)
      ensures forall h :: h in w.all.bound && h != this ==> h.rep != rep
    {
      w.Alone(this);
      rep.Assign(|src|, src);
      hide CStr, Fill, Counts;
    }

    method Overwrite(buf: string, ghost w: World)
      requires w.Valid() && this in w.all.bound && rep.refcnt == 1
      requires |buf| == rep.size + 1 && buf[rep.size] == '\0'
      modifies rep`buffer
      ensures w.Valid() && rep.buffer == buf
      ensures forall h :: h in w.all.bound && h != this ==> h.rep != rep
    {
      w.Alone(this);
      rep.buffer := buf;
      hide CStr, Fill, Counts;
    }

    // A rep of its own, filled from src.
    method Renew(nsz: nat, src: string, ghost w: World)
      requires w.Valid() && this in w.all.bound
      modifies w, this`rep, rep`refcnt
      ensures w.Valid() && w.all.bound == old(w.all.bound)[this := rep] && fresh(rep)
      ensures rep.size == nsz && rep.buffer == Fill(src, nsz) && rep.refcnt == 1
      ensures w.all.counts == Dropped(old(w.all.counts)[rep := 1], old(rep))
    {
      hide World.Balanced, CStr, Fill;
      var r := new Srep(nsz, src);
      Adopt(r, w);
    }

    // operator=(const char*): in place when nobody shares the rep.
    method AssignChars(src: string, ghost w: World)
      requires w.Valid() && this in w.all.bound && '\0' !in src
      modifies w, this`rep, rep
      ensures w.Valid() && w.all.bound == old(w.all.bound)[this := rep]
      ensures Value() == src && rep.size == |src|
      ensures if old(rep.refcnt) == 1 then rep == old(rep) else fresh(rep)
      ensures forall h :: h in old(w.all.bound) && h != this ==> h.Value() == old(h.Value())
    {
      FillWhole(src);
      w.Live(this);
      hide World.Balanced, CStr, Fill, Srep.Ok;
      if rep.refcnt == 1 {
        AssignInPlace(src, w);
      } else {
        Renew(|src|, src, w);
      }
    }

    // A bigger rep with src behind the present text.
    method Extend(n: nat, src: string, ghost w: World)
      requires w.Valid() && this in w.all.bound && |CStr(rep.buffer)| + |src| <= n && '\0' !in src
      modifies w, this`rep, rep`refcnt
      ensures w.Valid() && w.all.bound == old(w.all.bound)[this := rep] && fresh(rep)
      ensures rep.buffer == Joined(old(rep.buffer), n, src) && rep.size == n
      ensures w.all.counts == Dropped(old(w.all.counts)[rep := 1], old(rep))
    {
      hide World.Balanced, CStr, Fill, Cat;
      var r := new Srep(n, rep.buffer);
      r.buffer := Joined(rep.buffer, n, src);
      Adopt(r, w);
    }

    // operator+=(const char*)
    method Append(src: string, ghost w: World)
      requires w.Valid() && this in w.all.bound && '\0' !in src
      modifies w, this`rep, rep`refcnt
      ensures w.Valid() && w.all.bound == old(w.all.bound)[this := rep] && fresh(rep)
      ensures Value() == old(Value()) + src && rep.size == old(rep.size) + |src|
      ensures forall h :: h in old(w.all.bound) && h != this ==> h.Value() == old(h.Value())
    {
      w.Live(this);
      CStrWithin(rep.buffer, rep.size);
      hide World.Balanced, CStr, Fill, Joined;
      Extend(rep.size + |src|, src, w);
    }

    // operator+=(const String&)
    method AppendString(src: String, ghost w: World)
      requires w.Valid() && this in w.all.bound && src in w.all.bound
      modifies w, this`rep, rep`refcnt
      ensures w.Valid() && w.all.bound == old(w.all.bound)[this := rep] && fresh(rep)
      ensures Value() == old(Value()) + old(src.Value()) && rep.size == old(rep.size) + old(src.rep.size)
      ensures forall h :: h in old(w.all.bound) && h != this ==> h.Value() == old(h.Value())
    {
      w.Live(this);
      w.Live(src);
      CStrWithin(rep.buffer, rep.size);
      CStrWithin(src.rep.buffer, src.rep.size);
      hide World.Balanced, CStr, Fill, Joined;
      Extend(rep.size + src.rep.size, CStr(src.rep.buffer), w);
    }

    // rep = rep->get_own_copy()
    method Own(ghost w: World)
      requires w.Valid() && this in w.all.bound
      modifies w, this`rep, rep`refcnt
      ensures w.Valid() && w.all.bound == old(w.all.bound)[this := rep]
      ensures if old(rep.refcnt) == 1 then rep == old(rep) else fresh(rep)
      ensures rep.buffer == if old(rep.refcnt) > 1 then Fill(old(rep.buffer), rep.size) else old(rep.buffer)
      ensures rep.size == old(rep.size) && rep.refcnt == 1
    {
      w.Live(this);
      hide World.Balanced, CStr, Fill, Srep.Ok;
      if rep.refcnt != 1 {
        Renew(rep.size, rep.buffer, w);
      }
    }

    // write(int, char)
    method Write(index: nat, c: char, ghost w: World)
      requires w.Valid() && this in w.all.bound && index < rep.size && rep.Ok()
      modifies w, this`rep, rep
      ensures w.Valid() && w.all.bound == old(w.all.bound)[this := rep]
      ensures rep.size == old(rep.size)
      ensures rep.buffer == Written(old(rep.buffer), rep.size, index, c, old(rep.refcnt) > 1)
      ensures old(rep.refcnt) > 1 ==> unchanged(old(rep)`buffer)
      ensures forall h :: h in old(w.all.bound) && h != this ==> h.Value() == old(h.Value())
    {
      hide World.Balanced, CStr, Fill;
      Own(w);
      Overwrite(rep.buffer[index := c], w);
    }

    // write(unsigned, unsigned, char*)
    method WriteChars(offset: nat, length: nat, ptr: string, ghost w: World)
      requires w.Valid() && this in w.all.bound && rep.Ok()
      requires offset <= rep.size && |ptr| >= Fitting(rep.size, offset, length)
      modifies w, this`rep, rep
      ensures w.Valid() && w.all.bound == old(w.all.bound)[this := rep]
      ensures rep.size == old(rep.size)
      ensures rep.buffer == Spliced(old(rep.buffer), rep.size, offset, length, ptr, old(rep.refcnt) > 1)
      ensures old(rep.refcnt) > 1 ==> unchanged(old(rep)`buffer)
      ensures forall h :: h in old(w.all.bound) && h != this ==> h.Value() == old(h.Value())
    {
      hide World.Balanced, CStr, Fill;
      Own(w);
      Overwrite(Spliced(rep.buffer, rep.size, offset, length, ptr, false), w);
    }
  }
}
