/**
 Node_destroy: the non-recursive postorder walk of SGLIB with its three fixed-size arrays, with
 sibling as the left link and child as the right link.
 */
module Destroy {
  import opened Nodes

  const MAX_TREE_DEEP := 128

  /** Recursive postorder: sibling subtree, child subtree, node. */
  ghost function Postorder(pl: Place): seq<Node> {
    if pl.Nowhere? then [] else Postorder(pl.sibling) + Postorder(pl.child) + [pl.node]
  }

  ghost function Depth(pl: Place): nat {
    if pl.Nowhere? then 0
    else 1 + if Depth(pl.sibling) > Depth(pl.child) then Depth(pl.sibling) else Depth(pl.child)
  }

  ghost function Elements(s: seq<Node>): set<Node> { set o | o in s }

  ghost predicate NoRepeats(s: seq<Node>) { forall i, j :: 0 <= i < j < |s| ==> s[i] != s[j] }

  /** Postorder lists every object of a linked tree exactly once. */
  lemma {:induction false} PostorderListsOnce(n: Node?, pl: Place, parent: Node?)
    requires Linked(n, pl, parent)
    ensures NoRepeats(Postorder(pl))
    ensures Elements(Postorder(pl)) == Objects(pl)
    decreases pl
  {
    if pl.Nowhere? {
    } else {
      PostorderListsOnce(pl.node.sibling, pl.sibling, parent);
      PostorderListsOnce(pl.node.child, pl.child, pl.node);
      JoinNoRepeats(Postorder(pl.sibling), Postorder(pl.child));
      JoinNoRepeats(Postorder(pl.sibling) + Postorder(pl.child), [pl.node]);
    }
  }

  lemma JoinNoRepeats(a: seq<Node>, b: seq<Node>)
    requires NoRepeats(a) && NoRepeats(b) && Elements(a) !! Elements(b)
    ensures NoRepeats(a + b) && Elements(a + b) == Elements(a) + Elements(b)
  {
    forall i, j | 0 <= i < |a| && 0 <= j < |b| ensures a[i] != b[j] {
      assert a[i] in Elements(a) && b[j] in Elements(b);
    }
  }

  /** A stack entry: a node, and whether its right subtree is still to be entered. */
  datatype Entry = Entry(at: Place, open: bool)

  ghost predicate Entries(st: seq<Entry>) { forall k :: 0 <= k < |st| ==> st[k].at.Here? }

  /** What is still to be visited once the current subtree is done, innermost entry first. */
  ghost function Pending(st: seq<Entry>): seq<Node>
    requires Entries(st)
  {
    if st == [] then [] else
      var e, outer := st[|st| - 1], st[..|st| - 1];
      (if e.open then Postorder(e.at.child) else []) + [e.at.node] + Pending(outer)
  }

  /** Nodes that have not been put on the stack yet. */
  ghost function Unseen(st: seq<Entry>): nat
    requires Entries(st)
  {
    if st == [] then 0 else
      var e, outer := st[|st| - 1], st[..|st| - 1];
      (if e.open then |Postorder(e.at.child)| else 0) + Unseen(outer)
  }

  ghost function Max(a: int, b: int): int { if a > b then a else b }

  /** How deep below the root the subtrees still to be entered go. */
  ghost function Reach(st: seq<Entry>): nat
    requires Entries(st)
  {
    if st == [] then 0 else
      var e, outer := st[|st| - 1], st[..|st| - 1];
      Max(if e.open then |st| + Depth(e.at.child) else 0, Reach(outer))
  }

  ghost function Head(pl: Place): Node? { if pl.Nowhere? then null else pl.node }

  /** `sub` is `pl` or hangs somewhere below it. */
  ghost predicate Within(sub: Place, pl: Place) {
    sub == pl || (pl.Here? && (Within(sub, pl.sibling) || Within(sub, pl.child)))
  }

  lemma {:induction false} WithinParts(sub: Place, pl: Place)
    requires Within(sub, pl) && sub.Here?
    ensures Within(sub.sibling, pl) && Within(sub.child, pl)
    decreases pl
  {
    if sub == pl {
      assert Within(sub.sibling, sub.sibling) && Within(sub.child, sub.child);
    } else if Within(sub, pl.sibling) {
      WithinParts(sub, pl.sibling);
    } else {
      WithinParts(sub, pl.child);
    }
  }

  /** The links of every part of a linked tree are the heap's. */
  lemma {:induction false} LinksWithin(sub: Place, n: Node?, pl: Place, parent: Node?)
    requires Linked(n, pl, parent) && Within(sub, pl) && sub.Here?
    ensures sub.node.sibling == Head(sub.sibling) && sub.node.child == Head(sub.child)
    decreases pl
  {
    if sub == pl {
      assert Linked(pl.node.sibling, pl.sibling, parent) && Linked(pl.node.child, pl.child, pl.node);
    } else if Within(sub, pl.sibling) {
      LinksWithin(sub, pl.node.sibling, pl.sibling, parent);
    } else {
      LinksWithin(sub, pl.node.child, pl.child, pl.node);
    }
  }

  /**
   `order` is done, `at` is next and `st` waits; every node still to come lies within the tree's
   depth, and a tree too deep for the arrays still has its deepest part to come.
   */
  ghost predicate Progress(order: seq<Node>, at: Place, st: seq<Entry>, pl: Place) {
    && Entries(st)
    && order + Postorder(at) + Pending(st) == Postorder(pl)
    && Max(|st| + Depth(at), Reach(st)) <= Depth(pl) <= Max(MAX_TREE_DEEP - 1, Max(|st| + Depth(at), Reach(st)))
  }

  ghost function Todo(at: Place, st: seq<Entry>): nat
    requires Entries(st)
  {
    |Postorder(at)| + Unseen(st)
  }

  ghost function Pushed(st: seq<Entry>, at: Place): seq<Entry>
    requires at.Here?
  {
    st + [Entry(at, at.child.Here?)]
  }

  lemma PushOrder(order: seq<Node>, at: Place, st: seq<Entry>)
    requires Entries(st) && at.Here?
    ensures Entries(Pushed(st, at))
    ensures order + Postorder(at.sibling) + Pending(Pushed(st, at)) == order + Postorder(at) + Pending(st)
  {
    assert Pushed(st, at)[..|st|] == st;
    assert Pending(Pushed(st, at)) == Postorder(at.child) + [at.node] + Pending(st);
    Rejoin(order, Postorder(at.sibling), Postorder(at.child), [at.node], Pending(st));
  }

  lemma Rejoin(a: seq<Node>, b: seq<Node>, c: seq<Node>, d: seq<Node>, e: seq<Node>)
    ensures a + b + (c + d + e) == a + (b + c + d) + e
  {}

  lemma PushReach(at: Place, st: seq<Entry>)
    requires Entries(st) && at.Here?
    ensures Entries(Pushed(st, at))
    ensures Max(|st| + 1 + Depth(at.sibling), Reach(Pushed(st, at))) == Max(|st| + Depth(at), Reach(st))
  {
    hide Postorder, Pending, Reach, Depth, Entries;
    ReachNext(st, Entry(at, at.child.Here?));
    DepthMeans(at);
    DepthMeans(at.child);
    MaxShifts(|st|, Depth(at.sibling), Depth(at.child), Reach(st));
  }

  lemma DepthMeans(at: Place)
    ensures at.Here? ==> Depth(at) == 1 + Max(Depth(at.sibling), Depth(at.child))
    ensures at.Nowhere? ==> Depth(at) == 0
  {}

  lemma MaxShifts(n: nat, sibling: nat, child: nat, rest: nat)
    ensures Max(n + 1 + sibling, Max(n + 1 + child, rest)) == Max(n + (1 + Max(sibling, child)), rest)
    ensures Max(n + 1 + sibling, Max(0, rest)) == Max(n + (1 + Max(sibling, 0)), rest)
  {}

  lemma ReachNext(st: seq<Entry>, e: Entry)
    requires Entries(st) && e.at.Here?
    ensures Entries(st + [e])
    ensures Reach(st + [e]) == Max(if e.open then |st| + 1 + Depth(e.at.child) else 0, Reach(st))
  {
    hide Depth, Max, Postorder, Pending;
    assert (st + [e])[..|st|] == st && (st + [e])[|st|] == e;
  }

  lemma PushTodo(at: Place, st: seq<Entry>)
    requires Entries(st) && at.Here?
    ensures Entries(Pushed(st, at)) && Todo(at.sibling, Pushed(st, at)) < Todo(at, st)
  {
    hide Depth, Reach;
    assert Pushed(st, at)[..|st|] == st;
  }

  lemma PushKeeps(order: seq<Node>, at: Place, st: seq<Entry>, pl: Place)
    requires Progress(order, at, st, pl) && at.Here?
    ensures Progress(order, at.sibling, Pushed(st, at), pl)
    ensures Todo(at.sibling, Pushed(st, at)) < Todo(at, st)
  {
    hide Postorder, Pending, Reach, Depth, Todo, Entries;
    PushOrder(order, at, st);
    PushReach(at, st);
    PushTodo(at, st);
    assert |Pushed(st, at)| == |st| + 1;
  }

  lemma VisitKeeps(order: seq<Node>, st: seq<Entry>, pl: Place)
    requires Progress(order, Nowhere, st, pl) && 0 < |st| < MAX_TREE_DEEP && !st[|st| - 1].open
    ensures Progress(order + [st[|st| - 1].at.node], Nowhere, st[..|st| - 1], pl)
    ensures Todo(Nowhere, st[..|st| - 1]) == Todo(Nowhere, st)
  {
    assert Pending(st) == [st[|st| - 1].at.node] + Pending(st[..|st| - 1]);
  }

  ghost function Entered(st: seq<Entry>): seq<Entry>
    requires st != []
  {
    st[..|st| - 1] + [st[|st| - 1].(open := false)]
  }

  lemma EnterKeeps(order: seq<Node>, st: seq<Entry>, pl: Place)
    requires Progress(order, Nowhere, st, pl) && st != [] && st[|st| - 1].open
    ensures Progress(order, st[|st| - 1].at.child, Entered(st), pl)
    ensures Todo(st[|st| - 1].at.child, Entered(st)) == Todo(Nowhere, st)
  {
    var last := |st| - 1;
    assert Entered(st)[..last] == st[..last];
    assert Pending(st) == Postorder(st[last].at.child) + Pending(Entered(st));
  }

  /** The next node to be looked at has not been handed to the command. */
  lemma NextIsUntouched(order: seq<Node>, at: Place, st: seq<Entry>, pl: Place)
    requires Progress(order, at, st, pl) && NoRepeats(Postorder(pl))
    ensures at.Here? ==> at.node !in order
    ensures |st| <= Depth(pl)
  {
    if at.Here? {
      var j := |order| + |Postorder(at)| - 1;
      assert Postorder(pl)[j] == at.node;
      forall i | 0 <= i < |order| ensures order[i] != at.node { assert Postorder(pl)[i] == order[i]; }
    }
  }

  /** The only place the traversal looks into a node; the command must not have run on it yet. */
  method Follow(n: Node, ghost visited: seq<Node>) returns (sibling: Node?, child: Node?)
    requires n !in visited
    ensures sibling == n.sibling && child == n.child
  {
    sibling, child := n.sibling, n.child;
  }


  /** The arrays of the walk and the index into them. */
  class Walker {
    const path: array<Node?>
    const right: array<Node?>
    const pass: array<int>
    var pathi: nat
    ghost var st: seq<Entry>

    /** The arrays hold the stack `st` of places within `pl`. */
    ghost predicate Valid(pl: Place)
      reads this, path, right, pass
    {
      && path.Length == right.Length == pass.Length == MAX_TREE_DEEP && path != right
      && pathi == |st| <= MAX_TREE_DEEP
      && forall k :: 0 <= k < |st| ==> Slot(k, st[k], pl)
    }

    ghost predicate Slot(k: nat, e: Entry, pl: Place)
      requires path.Length == right.Length == pass.Length == MAX_TREE_DEEP && k < MAX_TREE_DEEP
      reads this, path, right, pass
    {
      && e.at.Here? && Within(e.at, pl) && path[k] == e.at.node
      && (if e.open then right[k] == Head(e.at.child) != null && pass[k] == 0 else right[k] == null)
    }

    constructor (ghost pl: Place)
      ensures Valid(pl) && st == [] && fresh(path) && fresh(right) && fresh(pass)
    {
      path := new Node?[MAX_TREE_DEEP](_ => null);
      right := new Node?[MAX_TREE_DEEP](_ => null);
      pass := new int[MAX_TREE_DEEP](_ => 0);
      pathi, st := 0, [];
    }

    /** One step down: remember the node and its right link. */
    method PushOne(cn: Node, child: Node?, ghost at: Place, ghost pl: Place)
      requires Valid(pl) && |st| < MAX_TREE_DEEP
      requires Within(at, pl) && cn == Head(at) && child == Head(at.child)
      modifies this, path, right, pass
      ensures Valid(pl) && st == Pushed(old(st), at)
    {
      path[pathi], right[pathi], pass[pathi] := cn, child, 0;
      st := Pushed(st, at);
      pathi := pathi + 1;
    }

    /** The inner loop: push down along the left (sibling) links. */
    method PushDown(start: Node, ghost at: Place, ghost order: seq<Node>,
                    ghost root: Node?, ghost pl: Place, ghost parent: Node?) returns (ok: bool)
      requires Linked(root, pl, parent) && NoRepeats(Postorder(pl))
      requires Valid(pl) && |st| < MAX_TREE_DEEP && start == Head(at) && Within(at, pl) && Progress(order, at, st, pl)
      modifies this, path, right, pass
      ensures ok ==> Valid(pl) && 0 < |st| < MAX_TREE_DEEP && Progress(order, Nowhere, st, pl)
      ensures ok ==> Todo(Nowhere, st) < old(Todo(at, st))
      ensures !ok ==> Depth(pl) >= MAX_TREE_DEEP
    {
      hide Progress, Postorder, Todo;
      var cn: Node? := start;
      ghost var here := at;
      while cn != null
        invariant Linked(root, pl, parent)
        invariant Valid(pl) && |st| < MAX_TREE_DEEP && cn == Head(here) && Within(here, pl)
        invariant Progress(order, here, st, pl)
        invariant here == at ==> st == old(st)
        invariant here != at ==> st != [] && Todo(here, st) < old(Todo(at, st))
        decreases here
      {
        NextIsUntouched(order, here, st, pl);
        LinksWithin(here, root, pl, parent);
        WithinParts(here, pl);
        PushKeeps(order, here, st, pl);
        assert allocated(Objects(pl));
        var sibling, child := Follow(cn, order);
        PushOne(cn, child, here, pl);
        cn, here := sibling, here.sibling;
        if pathi >= MAX_TREE_DEEP {
          NextIsUntouched(order, here, st, pl);
          return false;
        }
      }
      return true;
    }

    /**
     The do-while loop: climb, passing finished nodes to the command, until a node has a right
     subtree to enter or the root is done.
     */
    method Climb(done: seq<Node>, ghost pl: Place) returns (order: seq<Node>, cn: Node?, ghost at: Place)
      requires Valid(pl) && 0 < |st| < MAX_TREE_DEEP && Progress(done, Nowhere, st, pl)
      modifies this, right, pass
      ensures cn == Head(at)
      ensures cn == null ==> Progress(order, Nowhere, [], pl)
      ensures cn != null ==> Valid(pl) && |st| < MAX_TREE_DEEP && Within(at, pl) && Progress(order, at, st, pl)
      ensures cn != null ==> Todo(at, st) == old(Todo(Nowhere, st))
    {
      hide Progress, Postorder, Todo;
      order, at := done, Nowhere;
      var again := true;
      while again
        invariant path.Length == right.Length == pass.Length == MAX_TREE_DEEP
        invariant again ==> Valid(pl) && 0 < |st|
        invariant |st| < MAX_TREE_DEEP && Entries(st) && Progress(order, Nowhere, st, pl)
        invariant Todo(Nowhere, st) == old(Todo(Nowhere, st))
        invariant !again ==> if st == [] then pathi == 0 && right[0] == null else AtOpen(pl)
        decreases again, pathi
      {
        pathi := pathi - 1;
        assert Slot(pathi, st[pathi], pl);
        if pass[pathi] == 1 || right[pathi] == null {
          VisitKeeps(order, st, pl);
          order := order + [path[pathi]];
          st := st[..pathi];
        }
        pass[pathi] := pass[pathi] + 1;
        again := pathi > 0 && right[pathi] == null;
      }
      cn := right[pathi];
      right[pathi] := null;
      if cn != null {
        EnterKeeps(order, st, pl);
        at := st[pathi].at.child;
        WithinParts(st[pathi].at, pl);
        st := Entered(st);
      }
      pathi := pathi + 1;
    }

    /** Standing on a node whose right subtree is still to be entered. */
    ghost predicate AtOpen(pl: Place)
      reads this, path, right, pass
    {
      && path.Length == right.Length == pass.Length == MAX_TREE_DEEP && path != right
      && |st| == pathi + 1 <= MAX_TREE_DEEP
      && (forall k :: 0 <= k < pathi ==> Slot(k, st[k], pl))
      && var e := st[pathi];
        e.open && e.at.Here? && Within(e.at, pl) && path[pathi] == e.at.node && right[pathi] == Head(e.at.child) != null
    }
  }

  lemma Started(pl: Place)
    ensures Progress([], pl, [], pl)
    ensures pl.Nowhere? ==> Progress([], Nowhere, [], pl)
  {}

  lemma Finished(order: seq<Node>, pl: Place)
    requires Progress(order, Nowhere, [], pl)
    ensures order == Postorder(pl) && Depth(pl) < MAX_TREE_DEEP
  {}

  /**
   Node_destroy visits every node once, in recursive postorder, and never looks at a node it has
   already passed to the command. It gives up (the "too deep" assertion) exactly when some path
   of sibling and child links has MAX_TREE_DEEP nodes.
   */
  method NodeDestroy(root: Node?, ghost pl: Place, ghost parent: Node?) returns (ok: bool, order: seq<Node>)
    requires Linked(root, pl, parent)
    ensures ok <==> Depth(pl) < MAX_TREE_DEEP
    ensures ok ==> order == Postorder(pl) && NoRepeats(order) && Elements(order) == Objects(pl)
  {
    hide Progress, Postorder, Todo;
    PostorderListsOnce(root, pl, parent);
    Started(pl);
    assert allocated(Objects(pl));
    var w := new Walker(pl);
    var cn := root;
    order := [];
    ghost var at := pl;
    while cn != null
      invariant Linked(root, pl, parent) && cn == Head(at)
      invariant fresh(w) && fresh(w.path) && fresh(w.right) && fresh(w.pass)
      invariant cn == null ==> Progress(order, Nowhere, [], pl)
      invariant cn != null ==> w.Valid(pl) && |w.st| < MAX_TREE_DEEP && Within(at, pl) && Progress(order, at, w.st, pl)
      decreases if cn == null then 0 else 1 + Todo(at, w.st)
    {
      assert allocated(Objects(pl));
      ok := w.PushDown(cn, at, order, root, pl, parent);
      if !ok { return; }
      assert allocated(Objects(pl));
      order, cn, at := w.Climb(order, pl);
    }
    Finished(order, pl);
    ok := true;
  }
}
