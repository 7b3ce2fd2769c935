/**
 Node_cons and Node_decons on linked nodes, walking parent, sibling and child links.
 */
module NodeFormat {
  import opened Bytes
  import Stackish
  import opened Format
  import opened Nodes

  datatype Status = Success | Failure | Abort

  function CurrentName(b: Builder): (n: Option<Text>)
    requires b.Valid() && b.current != null
    reads b, b.nodes
    ensures n == b.Spine().name
  {
    b.current.name
  }

  function NoChild(b: Builder): (none: bool)
    requires b.Valid() && b.current != null
    reads b, b.nodes
    ensures none <==> b.current.child == null
    ensures none <==> b.Spine().kids.Nil?
  {
    b.current.child == null
  }

  /**
   One format character of Node_cons, in the tree that holds cur_node. `closed` says that it has moved
   cur_node above that tree's root, which is the root returned if there was none before.
   */
  method ConsChar(b: Builder, c: char, args: seq<Arg>, ghost root: Option<Stackish.Tree>)
    returns (st: Status, closed: bool, used: bool)
    requires b.Valid()
    modifies b, b.nodes
    ensures b.Valid() && fresh(b.nodes - old(b.nodes))
    ensures match ConsOne(Building(old(b.Spine()), root), c, args)
      case Moves(at, u) =>
        && st == Success && used == u && (closed ==> b.Spine().Frame?)
        && at == if closed
                 then Building(Stackish.Bottom, if root.Some? then root else Some(Stackish.RootTree(b.Spine())))
                 else Building(b.Spine(), root)
      case Stops(r) => st == if r == Refused then Failure else Abort
  {
    hide Builder.Valid, Builder.Spine;
    st, closed, used := Success, false, false;
    var inside := b.current != null;
    if c == '[' {
      b.Start();
    } else if IsData(c) {
      if args == [] || !args[0].Val? || !Fits(c, args[0].v) { return Abort, false, false; }
      used := true;
      if inside { b.Push(args[0].v); }
    } else if c == ']' {
      if !inside { return Abort, false, false; }
      closed := b.Close(CurrentName(b));
    } else if c == 'w' {
      if args == [] || !args[0].Name? || !inside { return Abort, false, false; }
      used := true;
      closed := b.Close(Some(args[0].t));
    } else if c == '@' {
      if args == [] || !args[0].Name? || !inside || NoChild(b) { return Abort, false, false; }
      used := true;
      b.NameNewest(args[0].t);
    } else if !IsBlank(c) {
      st := Failure;
    }
  }

  lemma RootIsThere(b: Builder)
    requires b.Valid() && b.Spine().Frame?
    ensures b.root != null
  {}

  /** Node_cons. A tree opened after the first root is closed is built and dropped. */
  method NodeCons(fmt: string, args: seq<Arg>) returns (st: Status, root: Node?, ghost pl: Place)
    requires 'G' !in fmt
    ensures fresh(Objects(pl))
    ensures match Cons(fmt, args)
      case Made(t) => st == Success && Linked(root, pl, null) && TreeAt(pl) == t
      case Refused => st == Failure
      case Undefined => st == Abort
  {
    hide Builder.Valid, Builder.Spine, ConsOne, TreeAt, Linked;
    NothingLinked(null);
    var b := new Builder();
    var i, j := 0, 0;
    root, pl := null, Nowhere;
    ghost var made: Option<Stackish.Tree> := None;
    while i < |fmt|
      invariant i <= |fmt| && j <= |args| && b.Valid() && fresh(b) && fresh(b.nodes)
      invariant fresh(Objects(pl)) && Objects(pl) !! b.nodes && Linked(root, pl, null)
      invariant TreeAt(pl) == if made.Some? then made.value else Stackish.Nil
      invariant ConsRun(Building(b.Spine(), made), fmt[i..], args[j..]) == Cons(fmt, args)
      invariant made.Some? <==> root != null
    {
      var closed, used;
      assert fmt[i..][1..] == fmt[i + 1..];
      ghost var kept, tree := Objects(pl), TreeAt(pl);
      assert allocated(kept);
      st, closed, used := ConsChar(b, fmt[i], args[j..], made);
      if st != Success { return st, null, Nowhere; }
      assert kept !! b.nodes && TreeAt(pl) == tree && Linked(root, pl, null);
      if closed {
        if root == null {
          b.RootHolds();
          RootIsThere(b);
          root, pl := b.root, Whole(b.path, b.kids);
          made := Some(TreeAt(pl));
        }
        b := new Builder();
      }
      if used {
        assert args[j..][1..] == args[j + 1..];
        j := j + 1;
      }
      i := i + 1;
    }
    if b.current != null { return Abort, null, Nowhere; }
    return Success, root, pl;
  }

  /** The places above the current node, innermost first. */
  datatype Ancestors = Orphan | Below(at: Place, up: Ancestors)

  ghost function ParentNode(an: Ancestors): Node? {
    if an.Below? && an.at.Here? then an.at.node else null
  }

  ghost function AncestorObjects(an: Ancestors): set<Node> {
    if an.Orphan? then {} else Objects(an.at) + AncestorObjects(an.up)
  }

  /** Every ancestor is where the parent links say. */
  ghost predicate Ancestry(an: Ancestors)
    reads AncestorObjects(an)
  {
    an.Orphan? || (an.at.Here? && Linked(an.at.node, an.at, ParentNode(an.up)) && Ancestry(an.up))
  }

  ghost function TrailAt(an: Ancestors): Trail
    reads AncestorObjects(an)
  {
    if an.Orphan? then Rootless else Under(TreeAt(an.at), TrailAt(an.up))
  }

  /** Walking the links of a linked node is walking the tree stored there. */
  lemma NodeParts(n: Node, at: Place, parent: Node?)
    requires Linked(n, at, parent)
    ensures at.Here? && n == at.node && n.parent == parent
    ensures Linked(n.sibling, at.sibling, parent) && Linked(n.child, at.child, n)
    ensures TreeAt(at) == Stackish.Node(n.value, n.name, TreeAt(at.sibling), TreeAt(at.child))
    ensures TreeAt(at.sibling).Nil? <==> n.sibling == null
    ensures TreeAt(at.child).Nil? <==> n.child == null
  {}

  /** NEXT: stay put on the last sibling. */
  function NextNode(n: Node): Node
    reads n
  {
    if n.sibling == null then n else n.sibling
  }

  ghost function NextPlace(at: Place): Place {
    if at.Here? && at.sibling.Here? then at.sibling else at
  }

  lemma NextIsLinked(n: Node, at: Place, parent: Node?)
    requires Linked(n, at, parent)
    ensures Linked(NextNode(n), NextPlace(at), parent) && TreeAt(NextPlace(at)) == Next(TreeAt(at))
  {
    NodeParts(n, at, parent);
  }

  lemma NothingLinked(parent: Node?)
    ensures Linked(null, Nowhere, parent) && TreeAt(Nowhere) == Stackish.Nil
  {}

  /** One format character of Node_decons. */
  method DeconsChar(cur: Node, c: char, names: seq<Text>, ghost at: Place, ghost an: Ancestors)
    returns (st: Status, next: Node?, named: bool, out: Option<Stackish.Value>, ghost at': Place, ghost an': Ancestors)
    requires Linked(cur, at, ParentNode(an)) && Ancestry(an)
    ensures match DeconsOne(TreeAt(at), TrailAt(an), c, names)
      case Walks(h, t, nm, o) =>
        && st == Success && named == nm && out == o
        && Linked(next, at', ParentNode(an')) && Ancestry(an') && TreeAt(at') == h && TrailAt(an') == t
      case Ends(missing) => st == if missing then Abort else Failure
  {
    NodeParts(cur, at, ParentNode(an));
    hide Linked, TreeAt;
    st, next, named, out, at', an' := Success, cur, false, None, at, an;
    if c == '[' {
      next, at', an' := cur.child, at.child, Below(at, an);
    } else if IsData(c) {
      if !Fits(c, cur.value) { return Failure, null, false, None, at, an; }
      out := Some(cur.value);
      NextIsLinked(cur, at, ParentNode(an));
      next, at' := NextNode(cur), NextPlace(at);
    } else if c == ']' || c == 'w' {
      var up := cur.parent;
      if up == null {
        next, at' := null, Nowhere;
        NothingLinked(ParentNode(an));
      } else {
        NodeParts(up, an.at, ParentNode(an.up));
        if c == 'w' {
          if names == [] { return Abort, null, false, None, at, an; }
          if up.name != Some(names[0]) { return Failure, null, false, None, at, an; }
          named := true;
        }
        NextIsLinked(up, an.at, ParentNode(an.up));
        next, at' := NextNode(up), NextPlace(an.at);
        an' := an.up;
      }
    } else if c == '@' {
      if names == [] { return Abort, null, false, None, at, an; }
      if cur.name != Some(names[0]) { return Failure, null, false, None, at, an; }
      named := true;
    } else if c == '.' {
      NextIsLinked(cur, at, ParentNode(an));
      next, at' := NextNode(cur), NextPlace(at);
    } else {
      st := Failure;
    }
  }

  /** Node_decons from a root node. */
  method NodeDecons(root: Node, ghost pl: Place, fmt: string, names: seq<Text>)
    returns (st: Status, outs: seq<Stackish.Value>)
    requires Linked(root, pl, null) && 'G' !in fmt
    ensures match Decons(TreeAt(pl), fmt, names)
      case Got(o) => st == Success && outs == o
      case Mismatch(o) => st == Failure && outs == o
      case Missing => st == Abort
  {
    hide Linked, TreeAt, DeconsOne;
    var cur: Node? := root;
    var i, j := 0, 0;
    outs := [];
    ghost var at, an := pl, Orphan;
    while i < |fmt|
      invariant i <= |fmt| && j <= |names| && Linked(cur, at, ParentNode(an)) && Ancestry(an)
      invariant DeconsRun(TreeAt(at), TrailAt(an), fmt[i..], names[j..], outs) == Decons(TreeAt(pl), fmt, names)
    {
      NullIsNil(cur, at, ParentNode(an));
      if cur == null { return Failure, outs; }
      var named, out;
      assert fmt[i..][1..] == fmt[i + 1..];
      ghost var answer, here, trail := Decons(TreeAt(pl), fmt, names), TreeAt(at), TrailAt(an);
      assert allocated(Objects(pl)) && allocated(Objects(at)) && allocated(AncestorObjects(an));
      st, cur, named, out, at, an := DeconsChar(cur, fmt[i], names[j..], at, an);
      if st != Success { return; }
      if out.Some? { outs := outs + [out.value]; }
      if named {
        assert names[j..][1..] == names[j + 1..];
        j := j + 1;
      }
      i := i + 1;
    }
    st := Success;
  }

  lemma NullIsNil(n: Node?, at: Place, parent: Node?)
    requires Linked(n, at, parent)
    ensures n == null <==> TreeAt(at).Nil?
  {}
}
