/**
 The hub's sorted array ("heap"): grown by doubling, sorted on every add, searched by
 bisection, closed up by memmove; and bstrcmp, the order the routing table sorts it by.
 */
module Heaps {
  import opened Bytes

  // ---------------------------------------------------------------- bstrcmp

  /** A byte as a signed char. */
  function Signed(c: byte): int { if c < 128 then c else c - 256 }

  /** bstrcmp's order: signed bytes, not looking past a NUL both strings share. */
  function Cmp(a: Text, b: Text): int {
    if a == [] then (if b == [] then 0 else -1)
    else if b == [] then 1
    else if a[0] != b[0] then Signed(a[0]) - Signed(b[0])
    else if a[0] == 0 then 0
    else Cmp(a[1..], b[1..])
  }

  /** The part of a string the comparison sees: up to and including its first NUL. */
  function Seen(a: Text): Text {
    if a == [] then [] else if a[0] == 0 then [0] else [a[0]] + Seen(a[1..])
  }

  lemma {:induction false} SeenWhole(a: Text)
    ensures 0 !in a ==> Seen(a) == a
  {
    if a == [] || 0 in a {
    } else {
      SeenWhole(a[1..]);
    }
  }

  lemma {:induction false} CmpSwaps(a: Text, b: Text)
    ensures Cmp(a, b) == -Cmp(b, a)
  {
    if a == [] || b == [] || a[0] != b[0] || a[0] == 0 {
    } else {
      CmpSwaps(a[1..], b[1..]);
    }
  }

  lemma {:induction false} CmpChains(a: Text, b: Text, c: Text)
    requires Cmp(a, b) <= 0 && Cmp(b, c) <= 0
    ensures Cmp(a, c) <= 0
  {
    if a == [] || b == [] || c == [] || a[0] != b[0] || b[0] != c[0] || a[0] == 0 {
    } else {
      CmpChains(a[1..], b[1..], c[1..]);
    }
  }

  /** Zero exactly on strings that read the same; on NUL-free strings, exactly on equal ones. */
  lemma {:induction false} CmpZero(a: Text, b: Text)
    ensures Cmp(a, b) == 0 <==> Seen(a) == Seen(b)
    ensures 0 !in a && 0 !in b ==> (Cmp(a, b) == 0 <==> a == b)
  {
    SeenWhole(a);
    SeenWhole(b);
    if a == [] || b == [] {
    } else if a[0] != b[0] {
      assert Seen(a)[0] == a[0] && Seen(b)[0] == b[0];
    } else if a[0] == 0 {
    } else {
      CmpZero(a[1..], b[1..]);
      assert Seen(a)[1..] == Seen(a[1..]) && Seen(b)[1..] == Seen(b[1..]);
    }
  }

  lemma {:induction false} CmpBehind(p: Text, a: Text, b: Text)
    requires 0 !in p
    ensures Cmp(p + a, p + b) == Cmp(a, b)
  {
    hide Cmp;
    if p == [] {
      assert p + a == a && p + b == b;
    } else {
      CmpBehind(p[1..], a, b);
      assert p + a == [p[0]] + (p[1..] + a) && p + b == [p[0]] + (p[1..] + b);
      CmpStep(p[0], p[1..] + a, p[1..] + b);
    }
  }

  lemma CmpStep(x: byte, a: Text, b: Text)
    requires x != 0
    ensures Cmp([x] + a, [x] + b) == Cmp(a, b)
  {
    assert ([x] + a)[1..] == a && ([x] + b)[1..] == b;
  }

  /**
   The first difference decides, by the bytes as signed characters; a string that goes on where the other ends
   is the greater.
   */
  lemma CmpDecides(p: Text, a: Text, b: Text)
    requires 0 !in p && (a != [] && b != [] ==> a[0] != b[0])
    ensures a != [] && b != [] ==>
      var x: int, y: int := a[0], b[0];
      Cmp(p + a, p + b) == (if x < 128 then x else x - 256) - (if y < 128 then y else y - 256)
    ensures a == [] && b != [] ==> Cmp(p + a, p + b) < 0
    ensures a != [] && b == [] ==> Cmp(p + a, p + b) > 0
  {
    CmpBehind(p, a, b);
  }

  /** bstrcmp. */
  method Bstrcmp(a: Text, b: Text) returns (v: int)
    ensures v == Cmp(a, b)
  {
    var n := if |a| > |b| then |b| else |a|;
    if |a| == |b| && |a| == 0 { return 0; }
    var i := 0;
    while i < n
      invariant 0 <= i <= n && Cmp(a[i..], b[i..]) == Cmp(a, b)
    {
      v := Signed(a[i]) - Signed(b[i]);
      if v != 0 { return; }
      if a[i] == 0 { return 0; }
      assert a[i..][1..] == a[i + 1..] && b[i..][1..] == b[i + 1..];
      i := i + 1;
    }
    if |a| > n { return 1; }
    if |b| > n { return -1; }
    v := 0;
  }

  // ---------------------------------------------------------------- sorted sequences

  type Compare<!T> = (T, T) -> int

  ghost predicate Ordered<T(!new)>(cmp: Compare<T>) {
    && (forall x, y :: cmp(x, y) < 0 <==> cmp(y, x) > 0)
    && (forall x, y, z :: cmp(x, y) <= 0 && cmp(y, z) <= 0 ==> cmp(x, z) <= 0)
  }

  lemma BstrcmpOrders()
    ensures Ordered(Cmp)
  {
    forall x: Text, y: Text ensures Cmp(x, y) < 0 <==> Cmp(y, x) > 0 { CmpSwaps(x, y); }
    forall x: Text, y: Text, z: Text | Cmp(x, y) <= 0 && Cmp(y, z) <= 0 ensures Cmp(x, z) <= 0 { CmpChains(x, y, z); }
  }

  ghost predicate Sorted<T(!new)>(s: seq<T>, cmp: Compare<T>) {
    forall i, j :: 0 <= i < j < |s| ==> cmp(s[i], s[j]) <= 0
  }

  /** `x` put behind everything not greater. */
  function Insert<T>(s: seq<T>, x: T, cmp: Compare<T>): (r: seq<T>)
    ensures |r| == |s| + 1
  {
    if s == [] || cmp(s[|s| - 1], x) <= 0 then s + [x] else Insert(s[..|s| - 1], x, cmp) + [s[|s| - 1]]
  }

  lemma {:induction false} InsertKeeps<T>(s: seq<T>, x: T, cmp: Compare<T>)
    ensures multiset(Insert(s, x, cmp)) == multiset(s) + multiset{x}
  {
    if s == [] {
    } else {
      var init, last := s[..|s| - 1], s[|s| - 1];
      assert s == init + [last];
      if cmp(last, x) > 0 { InsertKeeps(init, x, cmp); }
    }
  }

  ghost predicate AtMost<T>(s: seq<T>, y: T, cmp: Compare<T>) { forall i :: 0 <= i < |s| ==> cmp(s[i], y) <= 0 }

  lemma {:induction false} InsertAtMost<T>(s: seq<T>, x: T, y: T, cmp: Compare<T>)
    requires AtMost(s, y, cmp) && cmp(x, y) <= 0
    ensures AtMost(Insert(s, x, cmp), y, cmp)
  {
    if s == [] || cmp(s[|s| - 1], x) <= 0 {
    } else {
      InsertAtMost(s[..|s| - 1], x, y, cmp);
    }
  }

  lemma {:induction false} InsertSorts<T(!new)>(s: seq<T>, x: T, cmp: Compare<T>)
    requires Ordered(cmp) && Sorted(s, cmp)
    ensures Sorted(Insert(s, x, cmp), cmp)
  {
    if s == [] {
    } else {
      var init, last := s[..|s| - 1], s[|s| - 1];
      if cmp(last, x) > 0 {
        InsertSorts(init, x, cmp);
        InsertAtMost(init, x, last, cmp);
      }
    }
  }

  // Sorted by a number: how the heaps of pointers are sorted.

  function Difference<T>(key: T -> int): Compare<T> { (a, b) => key(a) - key(b) }

  ghost predicate Rising<T>(s: seq<T>, key: T -> int) { forall i, j :: 0 <= i < j < |s| ==> key(s[i]) <= key(s[j]) }

  lemma {:induction false} InsertRises<T>(s: seq<T>, x: T, key: T -> int)
    requires Rising(s, key)
    ensures Rising(Insert(s, x, Difference(key)), key)
  {
    if s == [] || key(s[|s| - 1]) <= key(x) {
    } else {
      InsertRises(s[..|s| - 1], x, key);
      InsertAtMost(s[..|s| - 1], x, s[|s| - 1], Difference(key));
    }
  }

  lemma {:induction false} InsertHas<T>(s: seq<T>, x: T, cmp: Compare<T>, y: T)
    ensures y in Insert(s, x, cmp) <==> y == x || y in s
  {
    if s == [] {
    } else {
      assert s == s[..|s| - 1] + [s[|s| - 1]];
      InsertHas(s[..|s| - 1], x, cmp, y);
    }
  }

  const TWO31: int := 0x8000_0000
  const TWO32: int := 0x1_0000_0000

  /** Heap_void_ptr_compare: the distance of two addresses, cut to an int. */
  function PointerCompare(x: int, y: int): int { (x - y + TWO31) % TWO32 - TWO31 }

  /**
   It tells which address is lower exactly when the distance's last 32 bits, taken as an int, have the
   distance's sign; so for all addresses less than 2^31 bytes apart, and not for one 2^31 or 2^32 above.
   */
  lemma PointerOrder(x: int, y: int)
    ensures (PointerCompare(x, y) < 0 <==> x < y) && (PointerCompare(x, y) == 0 <==> x == y) <==>
      var bits := (x - y) % TWO32;
      if x == y then bits == 0 else if x < y then bits >= TWO31 else 0 < bits < TWO31
    ensures x - y < TWO31 && y - x < TWO31 ==> PointerCompare(x, y) == x - y
    ensures PointerCompare(x + TWO31, x) < 0 && PointerCompare(x + TWO32, x) == 0
  {
    var bits := (x - y) % TWO32;
    assert (x - y + TWO31) % TWO32 == if bits < TWO31 then bits + TWO31 else bits - TWO31;
  }

  /** Addresses further apart can go round in a circle: no order at all. */
  lemma PointerCycle(x: int)
    ensures PointerCompare(x, x + TWO31 - 1) < 0 && PointerCompare(x + TWO31 - 1, x + TWO32 - 2) < 0
    ensures PointerCompare(x, x + TWO32 - 2) > 0
  {
    PointerOrder(x, x + TWO31 - 1);
    PointerOrder(x + TWO31 - 1, x + TWO32 - 2);
    assert PointerCompare(x, x + TWO32 - 2) == 2;
  }

  /** The sort of a whole sequence. */
  function SortedBy<T>(s: seq<T>, cmp: Compare<T>): (r: seq<T>)
    ensures |r| == |s|
  {
    if s == [] then [] else Insert(SortedBy(s[..|s| - 1], cmp), s[|s| - 1], cmp)
  }

  lemma SortedNone<T>(s: seq<T>, cmp: Compare<T>)
    ensures s[..0] == [] && SortedBy(s[..0], cmp) == []
  {}

  lemma SortedNext<T>(s: seq<T>, i: nat, cmp: Compare<T>)
    requires i < |s|
    ensures SortedBy(s[..i + 1], cmp) == Insert(SortedBy(s[..i], cmp), s[i], cmp)
  {
    assert s[..i + 1][..i] == s[..i];
  }

  /** It is a sorted permutation. */
  lemma {:induction false} SortSorts<T(!new)>(s: seq<T>, cmp: Compare<T>)
    requires Ordered(cmp)
    ensures Sorted(SortedBy(s, cmp), cmp) && multiset(SortedBy(s, cmp)) == multiset(s)
  {
    if s == [] {
    } else {
      var init, last := s[..|s| - 1], s[|s| - 1];
      SortSorts(init, cmp);
      InsertSorts(SortedBy(init, cmp), last, cmp);
      InsertKeeps(SortedBy(init, cmp), last, cmp);
      assert s == init + [last];
    }
  }

  // ---------------------------------------------------------------- the heap

  const HEAP_SIZE: nat := 8

  /** One step of putting `x` in place among the sorted `was`: everything from `j` on has moved up by one. */
  ghost predicate Sifting<T>(was: seq<T>, x: T, now: seq<T>, j: nat, cmp: Compare<T>) {
    && j <= |was| && |now| == |was| + 1
    && now[..j] == was[..j] && now[j + 1..] == was[j..]
    && Insert(was, x, cmp) == Insert(was[..j], x, cmp) + was[j..]
  }

  lemma SiftDown<T>(was: seq<T>, x: T, now: seq<T>, j: nat, cmp: Compare<T>)
    requires Sifting(was, x, now, j, cmp) && j > 0 && cmp(was[j - 1], x) > 0
    ensures Sifting(was, x, now[j := now[j - 1]], j - 1, cmp)
  {
    assert was[..j][..j - 1] == was[..j - 1] && now[j - 1] == now[..j][j - 1] == was[..j][j - 1] == was[j - 1];
    assert was[j - 1..] == [was[j - 1]] + was[j..];
    var next := now[j := now[j - 1]];
    assert next[..j - 1] == now[..j][..j - 1] && next[j..] == [was[j - 1]] + now[j + 1..];
  }

  lemma SiftDone<T>(was: seq<T>, x: T, now: seq<T>, j: nat, cmp: Compare<T>)
    requires Sifting(was, x, now, j, cmp) && (j == 0 || cmp(was[j - 1], x) <= 0)
    ensures now[j := x] == Insert(was, x, cmp)
  {
    assert now[j := x] == now[..j] + [x] + now[j + 1..];
  }

  lemma SiftFirst<T>(was: seq<T>, x: T, now: seq<T>, cmp: Compare<T>)
    requires now == was + [x]
    ensures Sifting(was, x, now, |was|, cmp)
  {
    assert was[..|was|] == was;
  }

  /** An element equal to `x` in the order. */
  ghost predicate Has<T>(s: seq<T>, x: T, cmp: Compare<T>) { exists i :: 0 <= i < |s| && cmp(s[i], x) == 0 }

  function Without<T>(s: seq<T>, i: nat): seq<T>
    requires i < |s|
  {
    s[..i] + s[i + 1..]
  }

  lemma WithoutCounts<T>(s: seq<T>, i: nat)
    requires i < |s|
    ensures multiset(s) == multiset(Without(s, i)) + multiset{s[i]}
  {
    assert s == s[..i] + [s[i]] + s[i + 1..];
  }

  lemma WithoutSorted<T(!new)>(s: seq<T>, i: nat, cmp: Compare<T>)
    requires i < |s| && Sorted(s, cmp)
    ensures Sorted(Without(s, i), cmp)
  {
    var w := Without(s, i);
    forall j, k | 0 <= j < k < |w| ensures cmp(w[j], w[k]) <= 0 {
      assert w[j] == s[if j < i then j else j + 1] && w[k] == s[if k < i then k else k + 1];
    }
  }

  class Heap<T(!new, 0)> {
    const compare: Compare<T>
    const nil: T
    var members: array<T>
    var size: nat
    var last: nat

    ghost predicate Valid()
      reads this, members
    {
      && HEAP_SIZE <= size == members.Length && last <= size
      && (forall k :: last <= k < size ==> members[k] == nil)
      && Ordered(compare) && Sorted(Contents(), compare)
    }

    function Contents(): seq<T>
      requires last <= members.Length
      reads this, members
    {
      members[..last]
    }

    /** Heap_create. */
    constructor (compare: Compare<T>, nil: T)
      requires Ordered(compare)
      ensures this.compare == compare && this.nil == nil && fresh(members) && Valid() && Contents() == []
    {
      this.compare, this.nil := compare, nil;
      members := new T[HEAP_SIZE](_ => nil);
      size, last := HEAP_SIZE, 0;
    }

    /** Heap_resize: to any size that still holds every live element. */
    method Resize(n: nat)
      requires size == members.Length && last <= size && last <= n && n > 0
      requires forall k :: last <= k < size ==> members[k] == nil
      modifies this`members, this`size
      ensures fresh(members) && size == n == members.Length && Contents() == old(Contents())
      ensures forall k :: last <= k < size ==> members[k] == nil
    {
      var was, live, filler := members, last, nil;
      var x := new T[n](_ => filler);
      forall k | 0 <= k < live { x[k] := was[k]; }
      members := x;
      size := n;
    }

    /** Put the element at `n` in place among the `n` sorted ones before it. */
    method Sift(n: nat)
      requires n < last <= members.Length
      modifies members
      ensures members[..n + 1] == Insert(old(members[..n]), old(members[n]), compare)
      ensures forall k :: n < k < members.Length ==> members[k] == old(members[k])
    {
      ghost var was := members[..n];
      var x := members[n];
      SiftFirst(was, x, members[..n + 1], compare);
      hide Sifting;
      SiftLoop(n, x, was);
    }

    method SiftLoop(n: nat, x: T, ghost was: seq<T>)
      requires n < members.Length && |was| == n && Sifting(was, x, members[..n + 1], n, compare)
      modifies members
      ensures members[..n + 1] == Insert(was, x, compare)
      ensures forall k :: n < k < members.Length ==> members[k] == old(members[k])
    {
      var j := n;
      while j > 0 && compare(members[j - 1], x) > 0
        invariant 0 <= j <= n && Sifting(was, x, members[..n + 1], j, compare)
        invariant forall k :: n < k < members.Length ==> members[k] == old(members[k])
      {
        ghost var now := members[..n + 1];
        assert now[..j][j - 1] == was[..j][j - 1];
        SiftDown(was, x, now, j, compare);
        members[j] := members[j - 1];
        assert members[..n + 1] == now[j := now[j - 1]];
        j := j - 1;
      }
      ghost var now := members[..n + 1];
      assert j > 0 ==> now[..j][j - 1] == was[..j][j - 1];
      SiftDone(was, x, now, j, compare);
      members[j] := x;
      assert members[..n + 1] == now[j := x];
    }

    /** Heap_sort: the live elements become a sorted permutation of themselves. */
    method Sort()
      requires last <= members.Length
      modifies members
      ensures Contents() == SortedBy(old(Contents()), compare)
      ensures forall k :: last <= k < members.Length ==> members[k] == old(members[k])
    {
      SortLoop(members[..last]);
    }

    method SortLoop(ghost was: seq<T>)
      requires |was| == last <= members.Length && forall k :: 0 <= k < last ==> members[k] == was[k]
      modifies members
      ensures members[..last] == SortedBy(was, compare)
      ensures forall k :: last <= k < members.Length ==> members[k] == old(members[k])
    {
      hide Insert, SortedBy;
      SortedNone(was, compare);
      var i := 0;
      while i < last
        invariant 0 <= i <= last && members[..i] == SortedBy(was[..i], compare)
        invariant forall k :: i <= k < last ==> members[k] == was[k]
        invariant forall k :: last <= k < members.Length ==> members[k] == old(members[k])
      {
        SortedNext(was, i, compare);
        Sift(i);
        i := i + 1;
      }
      assert was[..last] == was;
    }

    /** The array without its order: how Add and Delete leave it in between. */
    ghost predicate Loose()
      reads this, members
    {
      HEAP_SIZE <= size == members.Length && last <= size && forall k :: last <= k < size ==> members[k] == nil
    }

    method Append(elem: T)
      requires Loose()
      modifies this, members
      ensures Loose() && (members == old(members) || fresh(members)) && Contents() == old(Contents()) + [elem]
      ensures size == if old(last) == old(size) then 2 * old(size) else old(size)
    {
      ghost var was := Contents();
      if last == size { Resize(size * 2); }
      assert Contents() == was;
      members[last] := elem;
      last := last + 1;
      assert Contents()[..|was|] == was;
    }

    /** Heap_add. */
    method Add(elem: T) returns (count: nat)
      requires Valid()
      modifies this, members
      ensures Valid() && (members == old(members) || fresh(members))
      ensures multiset(Contents()) == old(multiset(Contents())) + multiset{elem} && count == last == old(last) + 1
      ensures size == if old(last) == old(size) then 2 * old(size) else old(size)
    {
      hide Ordered, Sorted, SortedBy;
      Append(elem);
      SortSorts(Contents(), compare);
      Sort();
      count := last;
    }

    /** Heap_find: the index of an equal element, or `last` when there is none. */
    method Find(elem: T) returns (at: nat)
      requires Valid()
      ensures at <= last && (at < last ==> compare(Contents()[at], elem) == 0)
      ensures at < last <==> Has(Contents(), elem, compare)
    {
      at := Search(members[..last], elem, compare);
    }

    method RemoveAt(i: nat)
      requires Loose() && i < last
      modifies this, members
      ensures Loose() && (members == old(members) || fresh(members)) && Contents() == Without(old(Contents()), i)
      ensures size == if last > HEAP_SIZE && last < old(size) / 2 then old(size) / 2 else old(size)
    {
      ghost var was := Contents();
      var n := last;
      forall k | i <= k < n - 1 { members[k] := members[k + 1]; }
      last := last - 1;
      members[last] := nil;
      assert Contents() == Without(was, i);
      if last > HEAP_SIZE && last < size / 2 { Resize(size / 2); }
    }

    /** Heap_delete. */
    method Delete(elem: T) returns (rc: int)
      requires Valid()
      modifies this, members
      ensures Valid() && (members == old(members) || fresh(members))
      ensures rc == (if old(Has(Contents(), elem, compare)) then 1 else 0)
      ensures rc == 0 ==> Contents() == old(Contents())
      ensures rc == 1 ==> Removed(old(Contents()), Contents(), elem, compare)
      ensures size == if rc == 1 && last > HEAP_SIZE && last < old(size) / 2 then old(size) / 2 else old(size)
    {
      hide Ordered, Sorted, Has;
      var i := Find(elem);
      if i < last {
        WithoutSorted(Contents(), i, compare);
        hide Without;
        RemoveAt(i);
        rc := 1;
      } else {
        rc := 0;
      }
    }

    method Do(op: Op<T>)
      requires Valid() && Exact(compare)
      modifies this, members
      ensures Valid() && (members == old(members) || fresh(members))
      ensures multiset(Contents()) == After(old(multiset(Contents())), op)
    {
      DeleteEffect(Contents(), op.x, compare);
      hide Ordered, Sorted, Has, Removed, Exact;
      if op.AddOp? {
        var _ := Add(op.x);
      } else {
        var _ := Delete(op.x);
      }
    }

    /** A run of adds and deletes under an exact order leaves a sorted permutation of the abstract multiset. */
    method Replay(ops: seq<Op<T>>)
      requires Valid() && Exact(compare)
      modifies this, members
      ensures Valid() && multiset(Contents()) == Effect(old(multiset(Contents())), ops)
    {
      hide Ordered, Sorted, Exact, After;
      ghost var start := multiset(Contents());
      var i := 0;
      while i < |ops|
        invariant 0 <= i <= |ops| && Valid() && (members == old(members) || fresh(members))
        invariant Effect(multiset(Contents()), ops[i..]) == Effect(start, ops)
      {
        assert ops[i..][1..] == ops[i + 1..];
        Do(ops[i]);
        i := i + 1;
      }
    }
  }

  datatype Op<T> = AddOp(x: T) | DeleteOp(x: T)

  /** Deleting an absent element does nothing. */
  function After<T>(m: multiset<T>, op: Op<T>): multiset<T> {
    if op.AddOp? then m + multiset{op.x} else m - multiset{op.x}
  }

  /** What a run does to the multiset of elements. */
  function Effect<T>(m: multiset<T>, ops: seq<Op<T>>): multiset<T>
    decreases |ops|
  {
    if ops == [] then m else Effect(After(m, ops[0]), ops[1..])
  }

  /** Zero only on equal elements, as for addresses and for NUL-free names. */
  ghost predicate Exact<T(!new)>(cmp: Compare<T>) { forall x, y :: cmp(x, y) == 0 <==> x == y }

  ghost predicate Removed<T>(s: seq<T>, r: seq<T>, x: T, cmp: Compare<T>) {
    exists i :: 0 <= i < |s| && cmp(s[i], x) == 0 && r == Without(s, i)
  }

  lemma DeleteEffect<T(!new)>(s: seq<T>, x: T, cmp: Compare<T>)
    requires Exact(cmp)
    ensures Has(s, x, cmp) <==> x in multiset(s)
    ensures forall r :: Removed(s, r, x, cmp) ==> multiset(r) == multiset(s) - multiset{x}
  {
    forall r | Removed(s, r, x, cmp) ensures multiset(r) == multiset(s) - multiset{x} {
      var i :| 0 <= i < |s| && cmp(s[i], x) == 0 && r == Without(s, i);
      WithoutCounts(s, i);
    }
    if Has(s, x, cmp) {
      var i :| 0 <= i < |s| && cmp(s[i], x) == 0;
      assert s[i] in s;
    }
    if x in s {
      var i :| 0 <= i < |s| && s[i] == x;
      assert cmp(s[i], x) == 0;
    }
  }

  lemma LessThrough<T(!new)>(a: T, b: T, x: T, cmp: Compare<T>)
    requires Ordered(cmp) && cmp(a, b) <= 0 && cmp(b, x) < 0
    ensures cmp(a, x) < 0
  {
    assert cmp(x, a) <= 0 ==> cmp(x, b) <= 0;
  }

  lemma MoreThrough<T(!new)>(a: T, b: T, x: T, cmp: Compare<T>)
    requires Ordered(cmp) && cmp(a, b) <= 0 && cmp(a, x) > 0
    ensures cmp(b, x) > 0
  {
    assert cmp(b, x) <= 0 ==> cmp(a, x) <= 0;
  }

  lemma Below<T(!new)>(s: seq<T>, k: nat, x: T, cmp: Compare<T>)
    requires Ordered(cmp) && Sorted(s, cmp) && k < |s| && cmp(s[k], x) < 0
    ensures forall j :: 0 <= j <= k ==> cmp(s[j], x) < 0
  {
    forall j | 0 <= j < k ensures cmp(s[j], x) < 0 { LessThrough(s[j], s[k], x, cmp); }
  }

  lemma Above<T(!new)>(s: seq<T>, k: nat, x: T, cmp: Compare<T>)
    requires Ordered(cmp) && Sorted(s, cmp) && k < |s| && cmp(s[k], x) > 0
    ensures forall j :: k <= j < |s| ==> cmp(s[j], x) > 0
  {
    forall j | k < j < |s| ensures cmp(s[j], x) > 0 { MoreThrough(s[k], s[j], x, cmp); }
  }

  /** Bisection over a sorted sequence. */
  method Search<T(!new)>(s: seq<T>, elem: T, compare: Compare<T>) returns (at: nat)
    requires Ordered(compare) && Sorted(s, compare)
    ensures at <= |s| && (at < |s| ==> compare(s[at], elem) == 0)
    ensures at < |s| <==> Has(s, elem, compare)
  {
    hide Ordered, Sorted;
    var ii, jj := 0, |s| - 1;
    while ii <= jj
      invariant 0 <= ii <= |s| && ii - 1 <= jj < |s|
      invariant forall k :: 0 <= k < ii ==> compare(s[k], elem) < 0
      invariant forall k :: jj < k < |s| ==> compare(s[k], elem) > 0
      decreases jj - ii
    {
      var kk := (jj + ii) / 2;
      var cc := compare(s[kk], elem);
      if cc == 0 {
        return kk;
      } else if cc < 0 {
        Below(s, kk, elem, compare);
        ii := kk + 1;
      } else {
        Above(s, kk, elem, compare);
        jj := kk - 1;
      }
    }
    at := |s|;
  }
}
