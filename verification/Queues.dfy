/**
 Ring-buffer message queues that share reference-counted messages.
 */
module Queues {
  import opened Counting

  /** A message; `freed` stands for having been given back to the allocator. */
  class Message {
    var refs: int
    var freed: bool

    constructor ()
      ensures refs == 0 && !freed
    {
      refs, freed := 0, false;
    }

    /** Message_destroy: one reference fewer; the last one frees. */
    method Destroy()
      requires refs > 0 && !freed
      modifies this
      ensures refs == old(refs) - 1 && (freed <==> refs == 0)
    {
      refs := refs - 1;
      assert refs >= 0;
      if refs == 0 { freed := true; }
    }
  }

  lemma Wrap(j: nat, dim: nat)
    requires j < dim
    ensures (j + 1) % dim == if j + 1 == dim then 0 else j + 1
  {}

  /** MsgQueue: a ring of `dim` slots, of which one always stays empty; `waiting` is the FIFO sequence it stands for. */
  class MsgQueue {
    const dim: nat
    const messages: array<Message?>
    var i: nat
    var j: nat
    ghost var waiting: seq<Message>

    ghost predicate Valid()
      reads this, messages
    {
      && messages.Length == dim && i < dim && j < dim
      && |waiting| == (if i <= j then j - i else j + dim - i)
      && forall k :: 0 <= k < |waiting| ==> messages[Slot(k)] == waiting[k]
    }

    /** Where the k-th message is. */
    ghost function Slot(k: nat): (s: nat)
      requires i < dim && k < dim
      reads this`i
      ensures s < dim
    {
      if i + k < dim then i + k else i + k - dim
    }

    constructor (dim: nat)
      requires dim > 0
      ensures this.dim == dim && Valid() && waiting == [] && fresh(messages)
    {
      this.dim := dim;
      messages := new Message?[dim](_ => null);
      i, j := 0, 0;
      waiting := [];
    }

    /** MsgQueue_add: refused exactly when dim - 1 messages are waiting. */
    method Add(m: Message) returns (rc: int)
      requires Valid()
      modifies this`j, this`waiting, messages, m`refs
      ensures Valid() && rc == (if |old(waiting)| == dim - 1 then 0 else 1)
      ensures rc == 0 ==> waiting == old(waiting) && m.refs == old(m.refs)
      ensures rc == 1 ==> waiting == old(waiting) + [m] && m.refs == old(m.refs) + 1
    {
      Wrap(j, dim);
      if i == (j + 1) % dim { return 0; }
      m.refs := m.refs + 1;
      messages[j] := m;
      j := (j + 1) % dim;
      waiting := waiting + [m];
      rc := 1;
    }

    /** MsgQueue_delete. A slot in use is never NULL, so the branch for that case cannot be taken. */
    method Delete() returns (rc: int)
      requires Valid() && (waiting != [] ==> waiting[0].refs > 0 && !waiting[0].freed)
      modifies this`i, this`waiting, messages, if waiting != [] then {waiting[0]} else {}
      ensures Valid() && rc == (if old(waiting) == [] then 0 else 1)
      ensures rc == 0 ==> waiting == []
      ensures rc == 1 ==> waiting == old(waiting)[1..]
      ensures rc == 1 ==> old(waiting)[0].refs == old(waiting[0].refs) - 1
                          && (old(waiting)[0].freed <==> old(waiting)[0].refs == 0)
    {
      Wrap(i, dim);
      if i == j { return 0; }
      var first := messages[i];
      assert messages[Slot(0)] == waiting[0];
      first.Destroy();
      messages[i] := null;
      i := (i + 1) % dim;
      waiting := waiting[1..];
      rc := 1;
    }
  }

  // ---------------------------------------------------------------- all the queues

  /** Delivering to the queues `ks` in turn until one is full: what the queues hold then, and the result. */
  function Spread<T>(cs: seq<seq<T>>, dims: seq<nat>, ks: seq<nat>, m: T, n: nat): (seq<seq<T>>, int)
    requires |cs| == |dims| && forall a :: 0 <= a < |ks| ==> ks[a] < |cs|
    decreases |ks|
  {
    if ks == [] then (cs, n)
    else if |cs[ks[0]]| + 1 >= dims[ks[0]] then (cs, -1)
    else Spread(cs[ks[0] := cs[ks[0]] + [m]], dims, ks[1..], m, n + 1)
  }

  /** One copy more in each of the queues `ks`, room or not. */
  function Given<T>(cs: seq<seq<T>>, ks: seq<nat>, m: T): (r: seq<seq<T>>)
    requires forall a :: 0 <= a < |ks| ==> ks[a] < |cs|
    ensures |r| == |cs|
    decreases |ks|
  {
    if ks == [] then cs else Given(cs[ks[0] := cs[ks[0]] + [m]], ks[1..], m)
  }

  /** Delivering gives a copy to each queue in front of the first full one, and only tells the difference. */
  lemma {:induction false} SpreadStops<T>(cs: seq<seq<T>>, dims: seq<nat>, ks: seq<nat>, m: T, n: nat) returns (p: nat)
    requires |cs| == |dims| && forall a :: 0 <= a < |ks| ==> ks[a] < |cs|
    ensures p <= |ks| && Spread(cs, dims, ks, m, n) == (Given(cs, ks[..p], m), if p == |ks| then n + p else -1)
    ensures p < |ks| ==> |Given(cs, ks[..p], m)[ks[p]]| + 1 >= dims[ks[p]]
    ensures forall i :: 0 <= i < p ==> |Given(cs, ks[..i], m)[ks[i]]| + 1 < dims[ks[i]]
    decreases |ks|
  {
    if ks == [] || |cs[ks[0]]| + 1 >= dims[ks[0]] {
      p := 0;
    } else {
      var cs1 := cs[ks[0] := cs[ks[0]] + [m]];
      var rest := SpreadStops(cs1, dims, ks[1..], m, n + 1);
      p := rest + 1;
      assert ks[..p][1..] == ks[1..][..rest];
      forall i | 0 <= i < p
        ensures |Given(cs, ks[..i], m)[ks[i]]| + 1 < dims[ks[i]]
      {
        if i > 0 { assert ks[..i][1..] == ks[1..][..i - 1] && ks[i] == ks[1..][i - 1]; }
      }
    }
  }

  /** A queue named several times gets as many copies. */
  lemma {:induction false} GivenCopies<T>(cs: seq<seq<T>>, ks: seq<nat>, m: T, k: nat)
    requires k < |cs| && forall a :: 0 <= a < |ks| ==> ks[a] < |cs|
    ensures Given(cs, ks, m)[k] == cs[k] + seq(Times(ks, k), _ => m)
    decreases |ks|
  {
    if ks == [] {
    } else {
      var cs1 := cs[ks[0] := cs[ks[0]] + [m]];
      GivenCopies(cs1, ks[1..], m, k);
      FrontTimes(ks, k);
      var rest := Times(ks[1..], k);
      if ks[0] == k { assert [m] + seq(rest, _ => m) == seq(rest + 1, _ => m); }
      assert cs[k] + [m] + seq(rest, _ => m) == cs[k] + ([m] + seq(rest, _ => m));
    }
  }

  ghost function Waiting(qs: seq<MsgQueue>): (cs: seq<seq<Message>>)
    reads qs
    ensures |cs| == |qs|
  {
    seq(|qs|, k requires 0 <= k < |qs| reads qs => qs[k].waiting)
  }

  function Room(qs: seq<MsgQueue>): (ds: seq<nat>)
    ensures |ds| == |qs|
  {
    seq(|qs|, k requires 0 <= k < |qs| => qs[k].dim)
  }

  /** The members' queues and every message that has been put on any of them. */
  class Post {
    var queues: seq<MsgQueue>
    ghost var msgs: set<Message>

    ghost function Lists(): (cs: seq<seq<Message>>)
      reads this`queues, queues
      ensures |cs| == |queues|
    {
      Waiting(queues)
    }

    ghost predicate Separate()
      reads this`queues
    {
      forall a, b :: 0 <= a < b < |queues| ==> queues[a] != queues[b] && queues[a].messages != queues[b].messages
    }

    /** A message's count is the number of slots that hold it, and a freed one is held by none. */
    ghost predicate Counted(m: Message)
      reads this`queues, queues, m
    {
      m.refs == Held(Lists(), m) && (m.freed ==> m.refs == 0)
    }

    ghost predicate Valid()
      reads this, queues, set k | 0 <= k < |queues| :: queues[k].messages, msgs
    {
      && Separate()
      && (forall k :: 0 <= k < |queues| ==> queues[k].Valid())
      && (forall k, m :: 0 <= k < |queues| && m in queues[k].waiting ==> m in msgs)
      && (forall m :: m in msgs ==> Counted(m))
    }

    constructor ()
      ensures Valid() && queues == [] && msgs == {}
    {
      queues, msgs := [], {};
    }

    /** MsgQueue_create, for a member that has just logged in. */
    method Open(dim: nat) returns (k: nat)
      requires Valid() && dim > 0
      modifies this`queues
      ensures Valid() && k == |old(queues)| < |queues| && fresh(queues[k]) && fresh(queues[k].messages)
      ensures queues == old(queues) + [queues[k]]
      ensures Lists() == old(Lists()) + [[]] && Dims() == old(Dims()) + [dim]
    {
      hide Held, Times, MsgQueue.Valid;
      var q := new MsgQueue(dim);
      k := |queues|;
      ghost var cs, ds := Lists(), Dims();
      assert q !in queues && forall a :: 0 <= a < |queues| ==> queues[a].messages != q.messages;
      queues := queues + [q];
      assert Lists() == cs + [[]] && Dims() == ds + [dim];
      forall m | m in msgs ensures Counted(m) { HeldMore(cs, m); }
    }

    /** Member_send_msg. */
    method Send(k: nat, m: Message) returns (rc: int)
      requires Valid() && k < |queues| && m in msgs && !m.freed
      modifies queues[k], queues[k].messages, m`refs
      ensures Valid() && rc == (if |old(queues[k].waiting)| + 1 >= queues[k].dim then 0 else 1)
      ensures Lists() == old(Lists())[k := old(queues[k].waiting) + if rc == 1 then [m] else []]
    {
      hide Held, Times, MsgQueue.Valid;
      ghost var cs := Lists();
      rc := queues[k].Add(m);
      assert cs[k] + [] == cs[k];
      assert Lists() == cs[k := queues[k].waiting];
      forall x | x in msgs ensures Counted(x) {
        HeldUpdate(cs, k, queues[k].waiting, x);
        PlusTimes(cs[k], m, x);
      }
    }

    /** Member_delete_msg: the last slot to let go of a message frees it. */
    method Drop(k: nat) returns (rc: int)
      requires Valid() && k < |queues|
      modifies queues[k], queues[k].messages, msgs
      ensures Valid() && rc == (if old(queues[k].waiting) == [] then 0 else 1)
      ensures Lists() == old(Lists())[k := if rc == 1 then old(queues[k].waiting)[1..] else []]
      ensures rc == 1 ==> (old(queues[k].waiting)[0].freed <==> Held(Lists(), old(queues[k].waiting)[0]) == 0)
      ensures forall m :: m in msgs && !(rc == 1 && m == old(queues[k].waiting)[0]) ==> m.freed == old(m.freed)
    {
      hide Held, Times, MsgQueue.Valid;
      ghost var cs := Lists();
      if queues[k].waiting != [] {
        assert queues[k].waiting[0] in queues[k].waiting;
        assert Counted(queues[k].waiting[0]);
        StillHeld(cs, k);
      }
      rc := queues[k].Delete();
      forall a | 0 <= a < |queues|
        ensures queues[a].Valid() && (a != k ==> queues[a].waiting == cs[a])
      {
        if a < k { assert queues[a] != queues[k]; } else if k < a { assert queues[k] != queues[a]; }
      }
      hide Separate;
      assert Lists() == cs[k := queues[k].waiting];
      if rc == 0 {
        assert cs[k := []] == cs;
      } else {
        assert forall m :: m in queues[k].waiting ==> m in cs[k];
        forall x | x in msgs ensures Counted(x) {
          DropCounts(cs, k, x);
        }
        assert cs[k][0] in msgs && Counted(cs[k][0]);
      }
    }

    /** MsgQueue_destroy: drain the queue, freeing what no other queue holds. */
    method Drain(k: nat)
      requires Valid() && k < |queues|
      modifies queues[k], queues[k].messages, msgs
      ensures Valid() && Lists() == old(Lists())[k := []]
      ensures forall m :: m in old(queues[k].waiting) ==> (m.freed <==> Held(Lists(), m) == 0)
      ensures forall m :: m in msgs && m !in old(queues[k].waiting) ==> m.freed == old(m.freed)
    {
      hide Held, MsgQueue.Valid, Separate;
      ghost var was := queues[k].waiting;
      ghost var n := 0;
      while queues[k].i != queues[k].j
        invariant Valid() && 0 <= n <= |was| && queues[k].waiting == was[n..]
        invariant Lists() == old(Lists())[k := was[n..]]
        invariant forall m :: m in was && m !in was[n..] ==> (m.freed <==> Held(Lists(), m) == 0)
        invariant forall m :: m in msgs && m !in was ==> m.freed == old(m.freed)
        decreases |was| - n
      {
        EmptyOrNot(k);
        ghost var cs := Lists();
        var rc := Drop(k);
        assert Lists()[k] == queues[k].waiting;
        assert was[n..][1..] == was[n + 1..] && was[n..][0] == was[n];
        forall m | m in was && m !in was[n + 1..] ensures m.freed <==> Held(Lists(), m) == 0 {
          if m != was[n] {
            assert m !in was[n..];
            HeldUpdate(cs, k, was[n + 1..], m);
            NotIn(was, n, m);
          }
        }
        n := n + 1;
      }
      EmptyOrNot(k);
    }

    lemma EmptyOrNot(k: nat)
      requires k < |queues| && queues[k].Valid()
      ensures queues[k].i == queues[k].j <==> queues[k].waiting == []
    {}

    ghost function Dims(): (ds: seq<nat>)
      reads this`queues
      ensures |ds| == |queues|
    {
      Room(queues)
    }

    /** Route_deliver: to each member in turn, stopping at the first full queue. */
    method Deliver(ks: seq<nat>, m: Message) returns (count: int)
      requires Valid() && m in msgs && !m.freed && forall a :: 0 <= a < |ks| ==> ks[a] < |queues|
      modifies queues, set k | 0 <= k < |queues| :: queues[k].messages, m`refs
      ensures Valid() && (Lists(), count) == Spread(old(Lists()), Dims(), ks, m, 0)
    {
      hide Held, MsgQueue.Valid, Separate, Counted;
      count := 0;
      ghost var goal := Spread(Lists(), Dims(), ks, m, 0);
      var a := 0;
      assert ks[0..] == ks;
      while a < |ks|
        invariant 0 <= a <= |ks| && count == a && Valid() && !m.freed
        invariant Spread(Lists(), Dims(), ks[a..], m, a) == goal
      {
        assert ks[a..][0] == ks[a] && ks[a..][1..] == ks[a + 1..];
        ghost var cs := Lists();
        assert cs[ks[a]] == queues[ks[a]].waiting && Dims()[ks[a]] == queues[ks[a]].dim;
        var rc := Send(ks[a], m);
        if rc == 0 {
          assert cs[ks[a]] + [] == cs[ks[a]];
          assert Lists() == cs;
          return -1;
        }
        count := count + 1;
        a := a + 1;
      }
    }

    /** Any mix of deliveries of new messages, deletions and queue destructions keeps every count exact. */
    method Serve(ops: seq<PostOp>)
      requires Valid() && forall i :: 0 <= i < |ops| ==> Addressed(ops[i])
      modifies this`msgs, queues, set k | 0 <= k < |queues| :: queues[k].messages, msgs
      ensures Valid()
    {
      hide Held, MsgQueue.Valid, Separate, Counted;
      var i := 0;
      while i < |ops|
        invariant 0 <= i <= |ops| && Valid() && forall m :: m in msgs ==> m in old(msgs) || fresh(m)
      {
        assert Addressed(ops[i]);
        match ops[i] {
          case DeliverOp(ks) =>
            var m := NewMessage();
            var _ := Deliver(ks, m);
          case DeleteOp(k) => var _ := Drop(k);
          case DestroyOp(k) => Drain(k);
        }
        i := i + 1;
      }
    }

    predicate Addressed(op: PostOp)
      reads this`queues
    {
      match op
      case DeliverOp(ks) => forall a :: 0 <= a < |ks| ==> ks[a] < |queues|
      case DeleteOp(k) => k < |queues|
      case DestroyOp(k) => k < |queues|
    }

    /** Message_decons leaves a new message with no references. */
    method NewMessage() returns (m: Message)
      requires Valid()
      modifies this`msgs
      ensures Valid() && fresh(m) && msgs == old(msgs) + {m} && !m.freed && m.refs == 0
    {
      hide MsgQueue.Valid, Separate;
      m := new Message();
      msgs := msgs + {m};
      NeverHeld(Lists(), m);
    }
  }

  /** How many messages the queues can hold together. */
  function Capacity(dims: seq<nat>): int {
    if dims == [] then 0 else Capacity(dims[..|dims| - 1]) + dims[|dims| - 1] - 1
  }

  lemma {:induction false} HeldFits<T>(cs: seq<seq<T>>, dims: seq<nat>, x: T)
    requires |cs| == |dims| && forall k :: 0 <= k < |cs| ==> |cs[k]| < dims[k]
    ensures Held(cs, x) <= Capacity(dims)
  {
    if cs == [] {
    } else {
      HeldFits(cs[..|cs| - 1], dims[..|dims| - 1], x);
      TimesFits(cs[|cs| - 1], x);
    }
  }

  lemma {:induction false} TimesFits<T>(s: seq<T>, x: T)
    ensures Times(s, x) <= |s|
  {
    if s == [] {
    } else {
      TimesFits(s[..|s| - 1], x);
    }
  }

  /** A count stays within its 16 bits as long as the queues have no more slots than that. */
  lemma RefsFit(post: Post, m: Message)
    requires post.Valid() && m in post.msgs
    ensures 0 <= m.refs <= Capacity(post.Dims())
  {
    hide Held;
    assert post.Counted(m);
    forall k | 0 <= k < |post.queues| ensures |post.Lists()[k]| < post.Dims()[k] { assert post.queues[k].Valid(); }
    HeldFits(post.Lists(), post.Dims(), m);
  }

  lemma HeldMore<T>(cs: seq<seq<T>>, x: T)
    ensures Held(cs + [[]], x) == Held(cs, x)
  {
    assert (cs + [[]])[..|cs|] == cs;
  }

  datatype PostOp = DeliverOp(ks: seq<nat>) | DeleteOp(k: nat) | DestroyOp(k: nat)

  lemma {:induction false} NeverHeld<T>(cs: seq<seq<T>>, x: T)
    requires forall k :: 0 <= k < |cs| ==> x !in cs[k]
    ensures Held(cs, x) == 0
  {
    if cs == [] {
    } else {
      NeverHeld(cs[..|cs| - 1], x);
      NoTimes(cs[|cs| - 1], x);
    }
  }

  lemma NotIn<T>(s: seq<T>, n: nat, x: T)
    requires n <= |s| && x !in s[n..]
    ensures Times(s[n..], x) == 0 && (n < |s| ==> Times(s[n + 1..], x) == 0)
  {
    NoTimes(s[n..], x);
    if n < |s| {
      NoTimes(s[n + 1..], x);
      assert forall y :: y in s[n + 1..] ==> y in s[n..];
    }
  }

  /** The message at the head of a queue is held at least once. */
  lemma DropCounts<T>(cs: seq<seq<T>>, k: nat, x: T)
    requires k < |cs| && cs[k] != []
    ensures Held(cs[k := cs[k][1..]], x) == Held(cs, x) - if x == cs[k][0] then 1 else 0
  {
    hide Held, Times;
    HeldUpdate(cs, k, cs[k][1..], x);
    FrontTimes(cs[k], x);
  }

  lemma StillHeld<T>(cs: seq<seq<T>>, k: nat)
    requires k < |cs| && cs[k] != []
    ensures Held(cs, cs[k][0]) > 0
  {
    HeldUpdate(cs, k, [], cs[k][0]);
    NoTimes(cs[k], cs[k][0]);
  }
}
