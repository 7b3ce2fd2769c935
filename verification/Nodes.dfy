/**
 Stackish nodes as linked heap objects, and the primitives that build a tree of them while the
 groups on the path to the current node are still open.
 */
module Nodes {
  import opened Bytes
  import opened Stackish

  class Node {
    var value: Value
    var name: Option<Text>
    var parent: Node?
    var sibling: Node?
    var child: Node?

    /** Node_create: a new node, put in front of its parent's children. */
    constructor (parent: Node?, value: Value)
      modifies parent
      ensures this.value == value && name == None && this.parent == parent && child == null
      ensures sibling == if parent == null then null else old(parent.child)
      ensures parent != null ==>
        && parent.child == this
        && parent.value == old(parent.value) && parent.name == old(parent.name)
        && parent.parent == old(parent.parent) && parent.sibling == old(parent.sibling)
    {
      this.value, this.name, this.parent, this.child := value, None, parent, null;
      this.sibling := if parent == null then null else parent.child;
      new;
      if parent != null { parent.child := this; }
    }
  }

  /** Which objects make up a sibling chain and everything below it. */
  datatype Place = Nowhere | Here(node: Node, sibling: Place, child: Place)

  ghost function Objects(pl: Place): set<Node> {
    if pl.Nowhere? then {} else {pl.node} + Objects(pl.sibling) + Objects(pl.child)
  }

  /** The links from `n` on form the chain `pl` below `parent`, every object in one place. */
  ghost predicate Linked(n: Node?, pl: Place, parent: Node?)
    reads Objects(pl)
  {
    match pl
    case Nowhere => n == null
    case Here(o, s, c) =>
      && n == o && o.parent == parent
      && o !in Objects(s) && o !in Objects(c) && Objects(s) !! Objects(c)
      && Linked(o.sibling, s, parent) && Linked(o.child, c, o)
  }

  /** The tree stored there. */
  ghost function TreeAt(pl: Place): Tree
    reads Objects(pl)
  {
    match pl
    case Nowhere => Nil
    case Here(o, s, c) => Stackish.Node(o.value, o.name, TreeAt(s), TreeAt(c))
  }

  /** The objects of the open groups and of their completed siblings, innermost first. */
  datatype Path = Top | Open(node: Node, sibling: Place, up: Path)

  ghost function PathObjects(pa: Path): set<Node> {
    if pa.Top? then {} else {pa.node} + Objects(pa.sibling) + PathObjects(pa.up)
  }

  ghost function Innermost(pa: Path): Node? { if pa.Top? then null else pa.node }

  ghost function Outermost(pa: Path): (o: Node?)
    ensures if pa.Top? then o == null else o != null && o in PathObjects(pa)
  {
    if pa.Top? then null else if pa.up.Top? then pa.node else Outermost(pa.up)
  }

  /** The open groups are chained by parent and child links; the innermost one's first child is `kid`. */
  ghost predicate OpenChain(pa: Path, kid: Node?)
    reads PathObjects(pa)
  {
    match pa
    case Top => true
    case Open(o, s, up) =>
      && o.value == GroupV && o.child == kid && o.parent == Innermost(up)
      && o !in Objects(s) && {o} + Objects(s) !! PathObjects(up)
      && Linked(o.sibling, s, o.parent) && OpenChain(up, o)
  }

  ghost function SpineAt(pa: Path, kids: Tree): Spine
    reads PathObjects(pa)
  {
    match pa
    case Top => Bottom
    case Open(o, s, up) => Frame(o.name, TreeAt(s), kids, SpineAt(up, TreeAt(s)))
  }

  /** The objects of the whole document when every open group is taken as it stands. */
  ghost function Whole(pa: Path, kids: Place): Place {
    match pa
    case Top => kids
    case Open(o, s, up) => Whole(up, Here(o, s, kids))
  }

  /** Closing the path upwards gives a well-linked document holding the spine's root tree. */
  lemma {:induction false} WholeIsLinked(pa: Path, kids: Place, kid: Node?)
    requires OpenChain(pa, kid) && Linked(kid, kids, Innermost(pa)) && Objects(kids) !! PathObjects(pa)
    ensures pa.Open? ==> Linked(Outermost(pa), Whole(pa, kids), null)
    ensures pa.Open? ==> TreeAt(Whole(pa, kids)) == RootTree(SpineAt(pa, TreeAt(kids)))
    ensures Objects(Whole(pa, kids)) == Objects(kids) + PathObjects(pa)
    decreases pa
  {
    if pa.Top? {
    } else {
      var pl := Here(pa.node, pa.sibling, kids);
      WholeIsLinked(pa.up, pl, pa.node);
      EncloseAt(pa.up, TreeAt(pl), TreeAt(pa.sibling));
    }
  }

  lemma {:induction false} EncloseAt(up: Path, t: Tree, other: Tree)
    ensures up.Open? ==> RootTree(SpineAt(up, t)) == Enclose(SpineAt(up, other), t)
    ensures up.Top? ==> Enclose(SpineAt(up, other), t) == t
  {
  }

  /** `root` and `current` of a tree under construction. */
  class Builder {
    var root: Node?
    var current: Node?
    ghost var path: Path
    ghost var kids: Place
    ghost var nodes: set<Node>

    ghost predicate Valid()
      reads this, nodes
    {
      && nodes == PathObjects(path) + Objects(kids)
      && root == Outermost(path) && current == Innermost(path)
      && (path.Top? ==> kids.Nowhere?)
      && Objects(kids) !! PathObjects(path)
      && (path.Open? ==> Linked(current.child, kids, current) && OpenChain(path, current.child))
    }

    /** The open groups as values. */
    ghost function Spine(): (sp: Spine)
      requires Valid()
      reads this, nodes
      ensures sp.Frame? <==> current != null
    {
      SpineAt(path, TreeAt(kids))
    }

    constructor ()
      ensures Valid() && Spine() == Bottom && nodes == {}
    {
      root, current, path, kids, nodes := null, null, Top, Nowhere, {};
    }

    /** A new node in front of the current group's children: everything else hangs together as before. */
    method Hang(v: Value) returns (n: Node)
      requires Valid() && current != null
      modifies current
      ensures fresh(n) && n.value == v && n.name == None && n.child == null && n.parent == current == path.node
      ensures Linked(n.sibling, kids, current) && OpenChain(path, n) && TreeAt(kids) == old(TreeAt(kids))
      ensures SpineAt(path, TreeAt(kids)) == old(Spine())
    {
      ghost var was, ks := Spine(), TreeAt(kids);
      n := new Node(current, v);
      assert TreeAt(kids) == ks && TreeAt(path.sibling) == was.sibling;
      assert SpineAt(path.up, was.sibling) == was.up;
    }

    /** Add a leaf in front of the current group's children. */
    method Push(v: Value)
      requires Valid() && current != null
      modifies this, nodes
      ensures Valid() && fresh(nodes - old(nodes))
      ensures Spine() == Stackish.Push(old(Spine()), v)
    {
      var n := Hang(v);
      LeafAt(n, kids);
      SpineKids(path, TreeAt(kids), TreeAt(Here(n, kids, Nowhere)));
      hide OpenChain, SpineAt, Linked, TreeAt;
      kids, nodes := Here(n, kids, Nowhere), nodes + {n};
    }

    lemma SpineKids(pa: Path, t: Tree, t': Tree)
      requires pa.Open?
      ensures SpineAt(pa, t).Frame? && SpineAt(pa, t') == SpineAt(pa, t).(kids := t')
    {}

    lemma LeafAt(n: Node, p: Place)
      requires n !in Objects(p) && n.child == null && Linked(n.sibling, p, n.parent)
      ensures Linked(n, Here(n, p, Nowhere), n.parent)
      ensures TreeAt(Here(n, p, Nowhere)) == Stackish.Node(n.value, n.name, TreeAt(p), Nil)
    {}

    /** handle_start: open a group inside the current one, or as the root. */
    method Start()
      requires Valid()
      modifies this, nodes
      ensures Valid() && fresh(nodes - old(nodes))
      ensures Spine() == StartGroup(old(Spine()))
    {
      if current == null { StartRoot(); } else { StartInside(); }
    }

    method StartRoot()
      requires Valid() && current == null
      modifies this
      ensures Valid() && fresh(nodes - old(nodes))
      ensures Spine() == StartGroup(Bottom)
    {
      var n := new Node(null, GroupV);
      root, current := n, n;
      path, kids, nodes := Open(n, Nowhere, Top), Nowhere, {n};
      assert SpineAt(Top, TreeAt(Nowhere)) == Bottom;
    }

    method StartInside()
      requires Valid() && current != null
      modifies this, nodes
      ensures Valid() && fresh(nodes - old(nodes))
      ensures Spine() == StartGroup(old(Spine()))
    {
      var n := Hang(GroupV);
      assert n !in Objects(kids) && n !in PathObjects(path);
      hide OpenChain, SpineAt, Linked, TreeAt, Objects, PathObjects, Outermost;
      Opens(n, kids, path);
      current := n;
      path, kids, nodes := Open(n, kids, path), Nowhere, nodes + {n};
    }

    lemma Opens(n: Node, p: Place, open: Path)
      requires open.Open? && n.value == GroupV && n.name == None && n.child == null && n.parent == open.node
      requires n !in Objects(p) && {n} + Objects(p) !! PathObjects(open)
      requires Linked(n.sibling, p, open.node) && OpenChain(open, n)
      ensures OpenChain(Open(n, p, open), null) && Linked(null, Nowhere, n)
      ensures SpineAt(Open(n, p, open), TreeAt(Nowhere)) == StartGroup(SpineAt(open, TreeAt(p)))
      ensures Outermost(Open(n, p, open)) == Outermost(open)
      ensures PathObjects(Open(n, p, open)) == {n} + Objects(p) + PathObjects(open) && Objects(Nowhere) == {}
    {}

    /** Node_name on the current group. */
    method NameCurrent(name: Option<Text>)
      requires Valid() && current != null
      modifies nodes
      ensures Valid()
      ensures var was := old(Spine()); was.Frame? && Spine() == was.(name := name)
    {
      ghost var was, ks := Spine(), TreeAt(kids);
      current.name := name;
      assert TreeAt(kids) == ks && TreeAt(path.sibling) == was.sibling;
      assert SpineAt(path.up, was.sibling) == was.up;
    }

    /** From an inner group to its parent. */
    method GoUp()
      requires Valid() && current != null && current != root
      modifies this
      ensures Valid() && nodes == old(nodes)
      ensures var was := old(Spine()); was.up.Frame? && Spine() == CloseGroup(was, was.name)
    {
      ghost var was := Spine();
      assert path.up.Open? && OpenChain(path.up, path.node);
      current := current.parent;
      kids, path := Here(path.node, path.sibling, kids), path.up;
      assert SpineAt(path, was.sibling) == was.up;
    }

    /** handle_word and handle_group: name the current group and, unless it is the root, go up. */
    method Close(name: Option<Text>) returns (done: bool)
      requires Valid() && current != null
      modifies this, nodes
      ensures Valid() && nodes == old(nodes)
      ensures Spine() == CloseGroup(old(Spine()), name)
      ensures done == old(Spine()).up.Bottom?
    {
      NameCurrent(name);
      done := current == root;
      if done { RootIsLast(); } else { GoUp(); }
    }

    /** The current group is the root object exactly when no group encloses it. */
    lemma RootIsLast()
      requires Valid() && current != null
      ensures current == root <==> Spine().up.Bottom?
    {
      assert path.up.Open? ==> Outermost(path) == Outermost(path.up) && Outermost(path.up) in PathObjects(path.up);
      assert Spine().up == SpineAt(path.up, TreeAt(path.sibling));
    }

    /** handle_attr: name the newest child of the current group. */
    method NameNewest(name: Text)
      requires Valid() && current != null && current.child != null
      modifies this, nodes
      ensures Valid() && nodes == old(nodes)
      ensures Spine() == NameChild(old(Spine()), name)
    {
      current.child.name := Some(name);
    }

    /** The document as it stands hangs off `root`. */
    lemma RootHolds()
      requires Valid()
      ensures Linked(root, Whole(path, kids), null)
      ensures TreeAt(Whole(path, kids)) == RootTree(Spine()) && Objects(Whole(path, kids)) == nodes
    {
      if path.Open? { WholeIsLinked(path, kids, current.child); }
    }
  }
}
