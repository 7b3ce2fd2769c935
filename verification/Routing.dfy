/**
 The routing table: a trie of routes whose children are sorted by name, and the two-way relation
 between routes and the members registered with them.
 */
module Routing {
  import opened Bytes
  import opened Stackish
  import opened Heaps
  import Format
  import opened Counting

  class Member {
    const at: nat
    var routes: seq<Route>

    constructor (at: nat)
      ensures this.at == at && routes == []
    {
      this.at, routes := at, [];
    }
  }

  // Both lists are kept in the order of the addresses.

  function MemberAt(m: Member): int { m.at }

  function RouteAt(r: Route): int { r.at }

  function PlusMember(ms: seq<Member>, m: Member): seq<Member> { Insert(ms, m, Difference(MemberAt)) }

  function PlusRoute(rs: seq<Route>, r: Route): seq<Route> { Insert(rs, r, Difference(RouteAt)) }

  /** What the hub itself does with a message for an internal route. */
  datatype Callback = Registers | Unregisters | Answers

  class Route {
    const name: Text
    const at: nat
    var children: seq<Route>
    var members: seq<Member>
    var internal: bool
    var callback: Callback

    constructor (name: Text, at: nat)
      ensures this.name == name && this.at == at && children == [] && members == [] && !internal
    {
      this.name, this.at, children, members, internal, callback := name, at, [], [], false, Answers;
    }
  }

  // ---------------------------------------------------------------- children, sorted by name

  type Path = seq<Text>

  function Names(rs: seq<Route>): seq<Text> { seq(|rs|, i requires 0 <= i < |rs| => rs[i].name) }

  /** Names are sorted, distinct, and NUL-free so that bstrcmp tells them apart. */
  ghost predicate Listed(ns: seq<Text>) {
    Sorted(ns, Cmp) && (forall n :: multiset(ns)[n] <= 1) && (forall n :: n in ns ==> 0 !in n)
  }

  function ByName(a: Route, b: Route): int { Cmp(a.name, b.name) }

  lemma {:induction false} InsertNames(rs: seq<Route>, r: Route)
    ensures Names(Insert(rs, r, ByName)) == Insert(Names(rs), r.name, Cmp)
  {
    if rs != [] && ByName(rs[|rs| - 1], r) > 0 {
      var init, last := rs[..|rs| - 1], rs[|rs| - 1];
      InsertNames(init, r);
      assert Names(rs)[..|rs| - 1] == Names(init);
      assert Names(Insert(init, r, ByName) + [last]) == Names(Insert(init, r, ByName)) + [last.name];
    } else {
      assert Names(rs + [r]) == Names(rs) + [r.name];
    }
  }

  lemma InsertLists(ns: seq<Text>, n: Text)
    requires Listed(ns) && n !in ns && 0 !in n
    ensures Listed(Insert(ns, n, Cmp))
  {
    BstrcmpOrders();
    InsertSorts(ns, n, Cmp);
    InsertKeeps(ns, n, Cmp);
    hide Ordered, Sorted, Insert;
    forall x | x in Insert(ns, n, Cmp) ensures 0 !in x {
      assert x in multiset(Insert(ns, n, Cmp));
    }
  }

  /** Heap_find among the children, on a stand-in that has only a name. */
  method FindChild(rs: seq<Route>, name: Text) returns (r: Route?)
    requires Listed(Names(rs)) && 0 !in name
    ensures r == null <==> name !in Names(rs)
    ensures r != null ==> r in rs && r.name == name
  {
    BstrcmpOrders();
    var at := Search(Names(rs), name, Cmp);
    SearchByName(Names(rs), name);
    hide Ordered, Sorted, Cmp;
    if at < |rs| {
      assert Names(rs)[at] == rs[at].name;
      r := rs[at];
    } else {
      r := null;
    }
  }

  lemma SearchByName(ns: seq<Text>, name: Text)
    requires (forall n :: n in ns ==> 0 !in n) && 0 !in name
    ensures Has(ns, name, Cmp) <==> name in ns
    ensures forall i :: 0 <= i < |ns| && Cmp(ns[i], name) == 0 ==> ns[i] == name
  {
    forall i | 0 <= i < |ns| ensures Cmp(ns[i], name) == 0 <==> ns[i] == name { CmpZero(ns[i], name); }
  }

  // ---------------------------------------------------------------- paths

  const ROUTE_MAX_PATH := 30

  /** A child that takes part in the path: a group with a name that is not an attribute. */
  predicate IsElement(n: Tree)
    requires n.Node?
  {
    n.value.GroupV? && n.name.Some? && (n.name.value == [] || n.name.value[0] != AT)
  }

  function Elements(chain: Tree): Path {
    if chain.Nil? then [] else (if IsElement(chain) then [chain.name.value] else []) + Elements(chain.sibling)
  }

  /** The path a node stands for: its own name and those of its path elements. */
  function PathOf(t: Tree): Path
    requires t.Node? && t.name.Some?
  {
    [t.name.value] + Elements(t.child)
  }

  function Count(chain: Tree): nat { if chain.Nil? then 0 else 1 + Count(chain.sibling) }

  predicate NulFree(p: Path) { forall i :: 0 <= i < |p| ==> 0 !in p[i] }

  /** Every child comes while there is still room for a path element. */
  predicate Roomy(chain: Tree, taken: nat) {
    chain.Nil? || (taken < ROUTE_MAX_PATH && Roomy(chain.sibling, taken + if IsElement(chain) then 1 else 0))
  }

  lemma NextElement(n: Tree, before: Path)
    requires n.Node?
    ensures before + Elements(n) == (if IsElement(n) then before + [n.name.value] else before) + Elements(n.sibling)
  {
    var rest := Elements(n.sibling);
    assert Elements(n) == (if IsElement(n) then [n.name.value] else []) + rest;
    hide Elements;
    if IsElement(n) {
      Bracketed(before, n.name.value, rest);
    } else {
      assert [] + rest == rest;
    }
  }

  lemma Bracketed(before: Path, x: Text, rest: Path)
    ensures before + ([x] + rest) == before + [x] + rest
  {}

  /** The path array of Route_extend_and_find. */
  method BuildPath(t: Tree) returns (path: Option<Path>)
    requires t.Node? && t.name.Some?
    ensures path == if Roomy(t.child, 1) then Some(PathOf(t)) else None
    ensures path.Some? ==> 0 < |path.value| <= ROUTE_MAX_PATH
  {
    var taken := [t.name.value];
    var n := t.child;
    while n.Node?
      invariant taken + Elements(n) == PathOf(t) && 1 <= |taken| <= ROUTE_MAX_PATH
      invariant Roomy(t.child, 1) <==> Roomy(n, |taken|)
      decreases n
    {
      if !(|taken| < ROUTE_MAX_PATH) { return None; }
      NextElement(n, taken);
      if IsElement(n) { taken := taken + [n.name.value]; }
      n := n.sibling;
    }
    assert taken + [] == taken;
    path := Some(taken);
  }

  // What a path means.

  /** The nodes of a chain, in its order. */
  function Kin(chain: Tree): (ns: seq<Tree>)
    ensures forall i :: 0 <= i < |ns| ==> ns[i].Node?
  {
    if chain.Nil? then [] else [chain] + Kin(chain.sibling)
  }

  /** The names of those that are groups with a name that does not start with '@'. */
  function WordNames(ns: seq<Tree>): Path
    requires forall i :: 0 <= i < |ns| ==> ns[i].Node?
  {
    if ns == [] then [] else WordNames(ns[..|ns| - 1]) + WordName(ns[|ns| - 1])
  }

  function WordName(n: Tree): Path
    requires n.Node?
  {
    if n.value.GroupV? && n.name.Some? && (n.name.value == [] || n.name.value[0] != '@' as int)
    then [n.name.value] else []
  }

  lemma {:induction false} WordNamesJoin(n: Tree, ns: seq<Tree>)
    requires n.Node? && forall i :: 0 <= i < |ns| ==> ns[i].Node?
    ensures WordNames([n] + ns) == WordName(n) + WordNames(ns)
    decreases |ns|
  {
    hide WordName;
    if ns == [] {
      assert [n] + ns == [n] && [n][..0] == [];
    } else {
      var init, last := ns[..|ns| - 1], ns[|ns| - 1];
      WordNamesJoin(n, init);
      assert ([n] + ns)[..|ns|] == [n] + init && ([n] + ns)[|ns|] == last;
      assert WordName(n) + WordNames(init) + WordName(last) == WordName(n) + (WordNames(init) + WordName(last));
    }
  }

  /**
   A path's elements are the names of the node's children that are groups named by something other than an
   attribute, all of them and in the order of the children.
   */
  lemma {:induction false} ElementsAre(chain: Tree)
    ensures Elements(chain) == WordNames(Kin(chain))
  {
    if chain.Nil? {
    } else {
      ElementsAre(chain.sibling);
      WordNamesJoin(chain, Kin(chain.sibling));
    }
  }

  /** A name that is not an attribute. */
  predicate Plain(name: Text) { name != [] ==> name[0] != '@' as int }

  predicate AllPlain(p: Path) { forall i :: 0 <= i < |p| ==> Plain(p[i]) }

  /** A chain of empty groups. */
  function GroupsFor(names: Path): Tree {
    if names == [] then Nil else Node(GroupV, Some(names[0]), GroupsFor(names[1..]), Nil)
  }

  /** The node that stands for a path: a group of the first name, with an empty group for each of the others. */
  function NodeFor(p: Path): Tree
    requires p != []
  {
    Node(GroupV, Some(p[0]), Nil, GroupsFor(p[1..]))
  }

  lemma {:induction false} GroupsElements(names: Path, taken: nat)
    requires AllPlain(names)
    ensures Elements(GroupsFor(names)) == names && Count(GroupsFor(names)) == |names|
    ensures taken <= ROUTE_MAX_PATH ==> (Roomy(GroupsFor(names), taken) <==> taken + |names| <= ROUTE_MAX_PATH)
    decreases |names|
  {
    if names == [] {
    } else {
      GroupsElements(names[1..], taken + 1);
    }
  }

  /** Every path of plain names is the path of a node, so that different paths are different routes. */
  lemma PathOfNode(p: Path)
    requires p != [] && AllPlain(p)
    ensures PathOf(NodeFor(p)) == p
    ensures Roomy(NodeFor(p).child, 1) <==> |p| <= ROUTE_MAX_PATH
    ensures Count(NodeFor(p).child) == |p| - 1
  {
    GroupsElements(p[1..], 1);
    assert [p[0]] + p[1..] == p;
  }

  /** The hub's own registrations are made with such nodes. */
  lemma ConsPath(root: Text, child: Text)
    ensures Format.Cons("[[ww", [Format.Name(child), Format.Name(root)]) == Format.Made(NodeFor([root, child]))
  {
    var inner := Format.Spec.Item(GroupV, Some(child), true, Format.End, Format.End);
    var d := Format.Spec.Item(GroupV, Some(root), true, Format.End, inner);
    assert Format.SpecOk(inner);
    Format.ConsMakesShape(d);
    assert Format.ConsFormat(inner) == "[w" && Format.ConsArgs(inner) == [Format.Name(child)];
    assert Format.ConsFormat(d) == "[[ww" && Format.ConsArgs(d) == [Format.Name(child), Format.Name(root)];
    hide Format.Cons, Format.ConsFormat, Format.ConsArgs;
    assert [root, child][1..] == [child] && [child][1..] == [];
    assert GroupsFor([child]) == Node(GroupV, Some(child), Nil, Nil);
    assert Format.Shape(inner) == GroupsFor([child]);
  }

  // ---------------------------------------------------------------- the trie

  function Parent(p: Path): Path
    requires p != []
  {
    p[..|p| - 1]
  }

  function Last(p: Path): Text
    requires p != []
  {
    p[|p| - 1]
  }

  /** The children `kids[p]` of the route at `p` are exactly the routes one element further. */
  ghost predicate Level(paths: map<Path, Route>, kids: map<Path, seq<Route>>, p: Path) {
    && p in kids && Listed(Names(kids[p]))
    && forall c :: c in kids[p] ==> p + [c.name] in paths && paths[p + [c.name]] == c
  }

  ghost predicate Under(paths: map<Path, Route>, kids: map<Path, seq<Route>>, p: Path)
    requires p in paths && p != []
  {
    Parent(p) in paths && Parent(p) in kids && paths[p] in kids[Parent(p)] && paths[p].name == Last(p)
  }

  /** Routes linked by their children form a prefix-closed map from paths to route objects, one object per path. */
  ghost predicate IsTrie(root: Route, paths: map<Path, Route>, kids: map<Path, seq<Route>>) {
    && [] in paths && paths[[]] == root
    && (forall p, q :: p in paths && q in paths && paths[p] == paths[q] ==> p == q)
    && (forall p :: p in paths ==> Level(paths, kids, p))
    && (forall p :: p in paths && p != [] ==> Under(paths, kids, p))
  }

  lemma NoSuchChild(root: Route, paths: map<Path, Route>, kids: map<Path, seq<Route>>, p: Path, name: Text)
    requires IsTrie(root, paths, kids) && p in paths && p in kids && p + [name] !in paths
    ensures name !in Names(kids[p])
  {
    assert Level(paths, kids, p);
    forall i | 0 <= i < |kids[p]| ensures Names(kids[p])[i] != name {
      assert kids[p][i] in kids[p];
    }
  }

  lemma GrowChildren(root: Route, paths: map<Path, Route>, kids: map<Path, seq<Route>>, p: Path, c: Route)
    requires IsTrie(root, paths, kids) && p in paths && p in kids && p + [c.name] !in paths && 0 !in c.name
    ensures Listed(Names(Insert(kids[p], c, ByName))) && Listed(Names([]))
    ensures multiset(Insert(kids[p], c, ByName)) == multiset(kids[p]) + multiset{c}
  {
    NoSuchChild(root, paths, kids, p, c.name);
    assert Level(paths, kids, p);
    InsertNames(kids[p], c);
    InsertLists(Names(kids[p]), c.name);
    InsertKeeps(kids[p], c, ByName);
  }

  lemma GrowLevel(paths: map<Path, Route>, kids: map<Path, seq<Route>>, p: Path, c: Route, grown: seq<Route>, q: Path)
    requires p in paths && p in kids && p + [c.name] !in paths && (q in paths ==> Level(paths, kids, q))
    requires q in paths || q == p + [c.name]
    requires Listed(Names(grown)) && Listed(Names([])) && multiset(grown) == multiset(kids[p]) + multiset{c}
    ensures Level(paths[p + [c.name] := c], kids[p := grown][p + [c.name] := []], q)
  {
    hide Listed, Names;
    var ps, ks := paths[p + [c.name] := c], kids[p := grown][p + [c.name] := []];
    if q == p {
      assert |p + [c.name]| == |p| + 1;
      assert ks[p] == grown;
      forall x: Route | x in grown ensures p + [x.name] in ps && ps[p + [x.name]] == x {
        assert x in multiset(grown);
      }
    } else if q in paths {
      assert ks[q] == kids[q];
    } else {
      assert ks[q] == [];
    }
  }

  lemma GrowUnder(paths: map<Path, Route>, kids: map<Path, seq<Route>>, p: Path, c: Route, grown: seq<Route>, q: Path)
    requires p in paths && p in kids && p + [c.name] !in paths && q != []
    requires if q in paths then Under(paths, kids, q) else q == p + [c.name]
    requires multiset(grown) == multiset(kids[p]) + multiset{c}
    ensures Under(paths[p + [c.name] := c], kids[p := grown][p + [c.name] := []], q)
  {
    if q in paths {
      assert Parent(q) == p ==> paths[q] in multiset(grown);
    } else {
      assert c in multiset(grown);
      assert Parent(q) == p && Last(q) == c.name;
      assert |p + [c.name]| == |p| + 1;
    }
  }

  /** Adding a route under `p` keeps the trie. */
  lemma GrowTrie(root: Route, paths: map<Path, Route>, kids: map<Path, seq<Route>>, p: Path, c: Route)
    requires IsTrie(root, paths, kids) && p in paths && p in kids
    requires p + [c.name] !in paths && c !in paths.Values && 0 !in c.name
    ensures IsTrie(root, paths[p + [c.name] := c], kids[p := Insert(kids[p], c, ByName)][p + [c.name] := []])
  {
    GrowChildren(root, paths, kids, p, c);
    var grown := Insert(kids[p], c, ByName);
    hide Listed, Insert, Names, Level, Under;
    var ps, ks := paths[p + [c.name] := c], kids[p := grown][p + [c.name] := []];
    forall q | q in ps ensures Level(ps, ks, q) { GrowLevel(paths, kids, p, c, grown, q); }
    forall q | q in ps && q != [] ensures Under(ps, ks, q) { GrowUnder(paths, kids, p, c, grown, q); }
  }

  lemma OnePath(root: Route, paths: map<Path, Route>, kids: map<Path, seq<Route>>, p: Path)
    requires IsTrie(root, paths, kids) && p in paths
    ensures forall q :: q in paths && q != p ==> paths[q] != paths[p]
  {}

  /** A trie is prefix-closed. */
  lemma {:induction false} PrefixClosed(root: Route, paths: map<Path, Route>,
                                          kids: map<Path, seq<Route>>, p: Path, k: nat)
    requires IsTrie(root, paths, kids) && p in paths && k <= |p|
    ensures p[..k] in paths
    decreases |p|
  {
    if k < |p| {
      assert Under(paths, kids, p);
      PrefixClosed(root, paths, kids, Parent(p), k);
      assert Parent(p)[..k] == p[..k];
    } else {
      assert p[..k] == p;
    }
  }

  /**
   A named child of the route at `p` is the route one element further, and there is one exactly if that path
   exists.
   */
  lemma ChildIsNext(root: Route, paths: map<Path, Route>, kids: map<Path, seq<Route>>, p: Path, name: Text)
    requires IsTrie(root, paths, kids) && p in paths && p in kids
    ensures Listed(Names(kids[p]))
    ensures name in Names(kids[p]) <==> p + [name] in paths
    ensures forall c :: c in kids[p] && c.name == name ==> p + [name] in paths && paths[p + [name]] == c
  {
    assert Level(paths, kids, p);
    if p + [name] in paths {
      assert Under(paths, kids, p + [name]);
      assert Parent(p + [name]) == p && Last(p + [name]) == name;
      var i :| 0 <= i < |kids[p]| && kids[p][i] == paths[p + [name]];
      assert Names(kids[p])[i] == name;
    } else {
      NoSuchChild(root, paths, kids, p, name);
    }
  }

  lemma {:induction false} InsertTimes<T>(s: seq<T>, x: T, y: T, cmp: Compare<T>)
    ensures Times(Insert(s, x, cmp), y) == Times(s, y) + if x == y then 1 else 0
  {
    if s == [] || cmp(s[|s| - 1], x) <= 0 {
      PlusTimes(s, x, y);
    } else {
      InsertTimes(s[..|s| - 1], x, y, cmp);
      PlusTimes(Insert(s[..|s| - 1], x, cmp), s[|s| - 1], y);
    }
  }

  lemma PlusMemberMeans(ms: seq<Member>, m: Member, y: Member)
    ensures Times(PlusMember(ms, m), y) == Times(ms, y) + if m == y then 1 else 0
    ensures y in PlusMember(ms, m) <==> y == m || y in ms
    ensures Rising(ms, MemberAt) ==> Rising(PlusMember(ms, m), MemberAt)
  {
    hide Insert, Rising, Times;
    InsertTimes(ms, m, y, Difference(MemberAt));
    InsertHas(ms, m, Difference(MemberAt), y);
    if Rising(ms, MemberAt) { InsertRises(ms, m, MemberAt); }
  }

  lemma PlusRouteMeans(rs: seq<Route>, r: Route, y: Route)
    ensures Times(PlusRoute(rs, r), y) == Times(rs, y) + if r == y then 1 else 0
    ensures y in PlusRoute(rs, r) <==> y == r || y in rs
    ensures Rising(rs, RouteAt) ==> Rising(PlusRoute(rs, r), RouteAt)
  {
    hide Insert, Rising, Times;
    InsertTimes(rs, r, y, Difference(RouteAt));
    InsertHas(rs, r, Difference(RouteAt), y);
    if Rising(rs, RouteAt) { InsertRises(rs, r, RouteAt); }
  }

  lemma NoneRise<T>(key: T -> int)
    ensures Rising([], key)
  {}

  lemma {:induction false} MinusRises<T>(s: seq<T>, x: T, key: T -> int)
    requires Rising(s, key)
    ensures Rising(Minus(s, x), key)
  {
    if s == [] || s[|s| - 1] == x {
    } else {
      var init, last := s[..|s| - 1], s[|s| - 1];
      MinusRises(init, x, key);
      forall y | y in Minus(init, x) ensures key(y) <= key(last) { MinusFrom(init, x, y); }
    }
  }

  /** Heap_delete finds an element at the same address, wherever among the equal ones: the list loses one `x`. */
  lemma {:induction false} DeleteIsMinus<T>(s: seq<T>, x: T, key: T -> int, i: nat)
    requires Rising(s, key) && i < |s| && key(s[i]) == key(x)
    requires forall y :: y in s && key(y) == key(x) ==> y == x
    ensures Without(s, i) == Minus(s, x)
  {
    var init, last := s[..|s| - 1], s[|s| - 1];
    if last == x {
      LastAlike(s, x, key, i);
    } else {
      assert s[i] in s && i < |init|;
      hide Rising;
      RisesUpTo(s, key);
      DeleteIsMinus(init, x, key, i);
      assert Without(s, i) == Without(init, i) + [last];
    }
  }

  lemma RisesUpTo<T>(s: seq<T>, key: T -> int)
    requires Rising(s, key) && s != []
    ensures Rising(s[..|s| - 1], key) && forall y :: y in s[..|s| - 1] ==> y in s
  {}

  lemma LastAlike<T>(s: seq<T>, x: T, key: T -> int, i: nat)
    requires Rising(s, key) && i < |s| && key(s[i]) == key(x) && s[|s| - 1] == x
    requires forall y :: y in s && key(y) == key(x) ==> y == x
    ensures Without(s, i) == s[..|s| - 1]
  {
    forall j | i <= j < |s| ensures s[j] == x { assert s[j] in s; }
  }

  function Minuend(a: int, b: int): int { a - b }

  lemma MinuendOrders()
    ensures Ordered(Minuend)
  {}

  /** Heap_delete from a list in the order of the addresses: bisection, and the rest moved down by one. */
  method DeleteByAddress<T(==)>(s: seq<T>, x: T, key: T -> int) returns (r: seq<T>)
    requires Rising(s, key) && forall y :: y in s && key(y) == key(x) ==> y == x
    ensures r == Minus(s, x)
  {
    MinuendOrders();
    var ats := seq(|s|, i requires 0 <= i < |s| => key(s[i]));
    var at := Search(ats, key(x), Minuend);
    if at < |s| {
      DeleteIsMinus(s, x, key, at);
      r := Without(s, at);
    } else {
      forall i | 0 <= i < |s| ensures s[i] != x { assert Minuend(ats[i], key(x)) != 0; }
      MinusNothing(s, x);
      r := s;
    }
  }

  lemma {:induction false} MinusNothing<T>(s: seq<T>, x: T)
    requires x !in s
    ensures Minus(s, x) == s
  {
    if s == [] {
    } else {
      assert s == s[..|s| - 1] + [s[|s| - 1]];
      MinusNothing(s[..|s| - 1], x);
    }
  }

  ghost predicate RoutesApart(rs: set<Route>, used: set<nat>) {
    (forall r :: r in rs ==> r.at in used) && (forall r, s :: r in rs && s in rs && r.at == s.at ==> r == s)
  }

  ghost predicate MembersApart(ms: set<Member>, used: set<nat>) {
    (forall m :: m in ms ==> m.at in used) && (forall m, n :: m in ms && n in ms && m.at == n.at ==> m == n)
  }

  lemma RouteApart(rs: set<Route>, ms: set<Member>, used: set<nat>, r: Route)
    requires RoutesApart(rs, used) && MembersApart(ms, used) && r.at !in used
    ensures RoutesApart(rs + {r}, used + {r.at}) && MembersApart(ms, used + {r.at})
  {}

  lemma MemberApart(rs: set<Route>, ms: set<Member>, used: set<nat>, m: Member)
    requires RoutesApart(rs, used) && MembersApart(ms, used) && m.at !in used
    ensures RoutesApart(rs, used + {m.at}) && MembersApart(ms + {m}, used + {m.at})
  {}

  lemma ValuesPlus(paths: map<Path, Route>, p: Path, r: Route)
    requires p !in paths
    ensures paths[p := r].Values == paths.Values + {r}
  {
    var now := paths[p := r];
    assert now[p] == r;
    forall x | x in paths.Values ensures x in now.Values {
      var q :| q in paths && paths[q] == x;
      assert now[q] == x;
    }
  }

  ghost function Above(s: set<nat>): (b: nat)
    ensures forall x :: x in s ==> x < b
  {
    if s == {} then 0 else
      var x :| x in s;
      var b := Above(s - {x});
      assert forall y :: y in s ==> y == x || y in s - {x};
      if x < b then b else x + 1
  }

  lemma AboveAll(s: set<nat>)
    ensures exists a: nat :: a !in s
  {
    assert Above(s) !in s;
  }

  lemma LoneRoot(root: Route)
    ensures IsTrie(root, map[[] := root], map[[] := []]) && IsTraced(map[[] := root], {})
  {
    var paths: map<Path, Route> := map[[] := root];
    assert [] in paths && paths[[]] == root;
  }

  lemma LoneValue(root: Route, paths: map<Path, Route>)
    requires paths == map[[] := root]
    ensures paths.Values == {root} && RoutesApart({root}, {root.at}) && MembersApart({}, {root.at})
  {
    assert paths[[]] == root;
  }

  // ---------------------------------------------------------------- the table as a value

  /** What a route holds: the hub's own callback, if it is internal, and its members. */
  datatype Card = Card(own: Option<Callback>, members: seq<Member>)

  type Board = map<Path, Card>

  ghost function CardOf(r: Route): Card
    reads r`internal, r`callback, r`members
  {
    Card(if r.internal then Some(r.callback) else None, r.members)
  }

  /** The path and all its prefixes have routes. */
  function Raised(b: Board, path: Path): Board {
    map p | p in b.Keys + (set k | 0 <= k <= |path| :: path[..k]) :: if p in b then b[p] else Card(None, [])
  }

  /** Route_add_member. */
  function Joined(b: Board, path: Path, m: Member): Board {
    map p | p in b :: if p == path then b[p].(members := PlusMember(b[p].members, m)) else b[p]
  }

  /** Route_register: the path has a route, and it the member. */
  function Registered(b: Board, path: Path, m: Member): Board { Joined(Raised(b, path), path, m) }

  /** Route_register_callback. */
  function Owned(b: Board, path: Path, callback: Callback): Board { Taken(Raised(b, path), path, callback) }

  /** A route becomes the hub's own. */
  function Taken(b: Board, path: Path, callback: Callback): Board {
    map p | p in b :: if p == path then b[p].(own := Some(callback)) else b[p]
  }

  /** Route_unregister. */
  function Unregistered(b: Board, path: Path, m: Member): Board {
    map p | p in b :: if p == path then b[p].(members := Minus(b[p].members, m)) else b[p]
  }

  /** Route_unregister_all. */
  function Cleared(b: Board, m: Member): Board {
    map p | p in b :: b[p].(members := Others(b[p].members, m))
  }

  lemma RaisedHas(b: Board, path: Path, q: Path)
    ensures q in Raised(b, path) <==> q in b || q <= path
  {
    if q <= path { assert path[..|q|] == q; }
  }

  lemma RaisedAlready(b: Board, path: Path)
    requires forall q :: q <= path ==> q in b
    ensures Raised(b, path) == b
  {
    forall q ensures q in Raised(b, path) <==> q in b { RaisedHas(b, path, q); }
  }

  lemma NewRoutes(root: Route, was: map<Path, Route>, now: map<Path, Route>, kids: map<Path, seq<Route>>, path: Path)
    requires IsTrie(root, now, kids) && Grown(was, now, path)
    ensures forall q :: q in now && q !in was ==> now[q] !in was.Values
  {
  }

  lemma AllPrefixes(root: Route, paths: map<Path, Route>, kids: map<Path, seq<Route>>, path: Path)
    requires IsTrie(root, paths, kids) && path in paths
    ensures forall q :: q <= path ==> q in paths
  {
    hide IsTrie;
    forall q | q <= path ensures q in paths {
      PrefixClosed(root, paths, kids, path, |q|);
      assert path[..|q|] == q;
    }
  }

  class Table {
    const root: Route
    ghost var paths: map<Path, Route>
    ghost var extended: set<Path>
    ghost var known: set<Member>
    var used: set<nat>

    ghost function Kids(): map<Path, seq<Route>>
      reads this`paths, paths.Values`children
    {
      map p | p in paths :: paths[p].children
    }

    ghost function Board(): Board
      reads this`paths, paths.Values`internal, paths.Values`callback, paths.Values`members
    {
      map p | p in paths :: CardOf(paths[p])
    }

    ghost predicate Trie()
      reads this`paths, paths.Values`children
    {
      IsTrie(root, paths, Kids())
    }

    /** Route_create_root. */
    constructor (name: Text)
      ensures Valid() && paths == map[[] := root] && extended == {} && known == {}
      ensures paths.Values == {root} && fresh(root) && root.name == name && root.members == []
    {
      root := new Route(name, 0);
      used := {0};
      new;
      paths, extended, known := map[[] := root], {}, {};
      LoneRoot(root);
      LoneValue(root, paths);
      NoneRise(MemberAt);
      hide IsTrie, IsTraced, RoutesApart, MembersApart, Rising;
      assert Kids() == map[[] := []];
    }

    /** The routes in the table are those of the paths ever extended, and of their prefixes. */
    ghost predicate Traced()
      reads this`paths, this`extended
    {
      IsTraced(paths, extended)
    }

    /** A member sits in a route's list as often as the route sits in the member's. */
    ghost predicate Linked()
      reads this`paths, this`known, paths.Values`members, known`routes
    {
      && (forall r, m :: r in paths.Values && m in known ==> Times(r.members, m) == Times(m.routes, r))
      && (forall r, m :: r in paths.Values && m in r.members ==> m in known)
      && (forall m, r :: m in known && r in m.routes ==> r in paths.Values)
    }

    /** No two routes, and no two members, are at the same address. */
    ghost predicate Spaced()
      reads this`paths, this`known, this`used
    {
      RoutesApart(paths.Values, used) && MembersApart(known, used)
    }

    /** All lists are in the order of the addresses. */
    ghost predicate InOrder()
      reads this`paths, this`known, paths.Values`members, known`routes
    {
      && (forall r :: r in paths.Values ==> Rising(r.members, MemberAt))
      && (forall m :: m in known ==> Rising(m.routes, RouteAt))
    }

    ghost predicate Valid()
      reads this, paths.Values, known
    {
      Trie() && Traced() && Linked() && Spaced() && InOrder()
    }

    /** malloc: an address nothing else is at. */
    method Malloc() returns (at: nat)
      modifies this`used
      ensures at !in old(used) && used == old(used) + {at}
    {
      AboveAll(used);
      at :| at !in used;
      used := used + {at};
    }

    /** Route_add_child, where there is no such child yet. */
    method AddChild(r: Route, name: Text, ghost p: Path) returns (c: Route)
      requires Trie() && Spaced() && p in paths && paths[p] == r && p + [name] !in paths && 0 !in name
      modifies this`paths, this`used, r`children
      ensures Trie() && Spaced() && fresh(c) && c.name == name && c.members == [] && !c.internal
      ensures paths == old(paths)[p + [name] := c]
    {
      hide IsTrie, Insert, RoutesApart, MembersApart;
      ghost var kids := Kids();
      var at := Malloc();
      c := new Route(name, at);
      RouteApart(paths.Values, known, old(used), c);
      ValuesPlus(paths, p + [name], c);
      GrowTrie(root, paths, kids, p, c);
      OnePath(root, paths, kids, p);
      r.children := Insert(r.children, c, ByName);
      paths := paths[p + [name] := c];
      assert Kids() == kids[p := r.children][p + [name] := []];
    }

    /** Route_find_child: the route one element below `p`, if it exists. */
    method Child(r: Route, name: Text, ghost p: Path) returns (c: Route?)
      requires Trie() && p in paths && paths[p] == r && 0 !in name
      ensures c == null <==> p + [name] !in paths
      ensures c != null ==> paths[p + [name]] == c
    {
      ChildIsNext(root, paths, Kids(), p, name);
      hide IsTrie, Listed;
      c := FindChild(r.children, name);
    }

    /** Route_find: the route of the node's path, unless the node has more than ROUTE_MAX_PATH children. */
    method Find(t: Tree) returns (r: Route?)
      requires Trie() && t.Node? && (t.name.Some? ==> NulFree(PathOf(t)))
      ensures r ==
        if t.name.Some? && Count(t.child) <= ROUTE_MAX_PATH && PathOf(t) in paths then paths[PathOf(t)] else null
    {
      if t.name.None? { return null; }
      hide IsTrie;
      ghost var whole := PathOf(t);
      RootFirst(root, paths, Kids());
      assert 0 !in whole[0];
      r := Child(root, t.name.value, []);
      assert [] + [t.name.value] == [t.name.value];
      if r == null {
        BeyondTrie(root, paths, Kids(), [t.name.value], whole);
      } else {
        r := FindBelow(r, t.child, [t.name.value], whole);
      }
    }

    method FindBelow(start: Route, chain: Tree, ghost p: Path, ghost whole: Path) returns (r: Route?)
      requires Trie() && p in paths && paths[p] == start && whole == p + Elements(chain) && NulFree(whole)
      ensures r == if Count(chain) <= ROUTE_MAX_PATH && whole in paths then paths[whole] else null
    {
      hide IsTrie;
      r := start;
      ghost var q := p;
      var n, i := chain, 0;
      while n.Node?
        invariant r != null && q in paths && paths[q] == r && q + Elements(n) == whole
        invariant 0 <= i && i + Count(n) == Count(chain) && i <= ROUTE_MAX_PATH
        decreases n
      {
        if !(i < ROUTE_MAX_PATH) { return null; }
        i := i + 1;
        NextElement(n, q);
        if IsElement(n) {
          assert whole[|q|] == n.name.value;
          r := Child(r, n.name.value, q);
          q := q + [n.name.value];
          if r == null { BeyondTrie(root, paths, Kids(), q, whole); return; }
        }
        n := n.sibling;
      }
      assert q + [] == q;
    }

    /** Route_add: walk down the path, adding what is missing. */
    method AddPath(r: Route, path: Path, ghost p: Path) returns (end: Route)
      requires Trie() && Spaced() && p in paths && paths[p] == r && path != [] && NulFree(path)
      modifies this`paths, this`used, paths.Values`children
      ensures Trie() && Spaced() && Grown(old(paths), paths, p + path) && paths[p + path] == end
      ensures p + path !in old(paths) ==> fresh(end)
      ensures forall x :: x in paths.Values && x !in old(paths).Values ==> fresh(x) && x.members == [] && !x.internal
      decreases |path|
    {
      hide IsTrie, Spaced;
      var c := Child(r, path[0], p);
      ghost var q := p + [path[0]];
      ghost var was := paths;
      if c == null {
        c := AddChild(r, path[0], p);
      }
      GrownOne(was, paths, p, path[0], c);
      if |path| - 1 > 0 {
        assert q + path[1..] == p + path && |q| < |p + path|;
        ghost var middle := paths;
        end := AddPath(c, path[1..], q);
        GrownTwice(was, middle, paths, q, p + path);
      } else {
        assert p + path == q;
        end := c;
      }
    }

    /** Route_extend_and_find. */
    method Extend(t: Tree) returns (point: Route?)
      requires Valid() && t.Node? && t.name.Some? && NulFree(PathOf(t))
      modifies this`paths, this`extended, this`used, paths.Values`children
      ensures Valid() && (point != null <==> Roomy(t.child, 1))
      ensures point == null ==> paths == old(paths) && extended == old(extended)
      ensures Board() == if point == null then old(Board()) else Raised(old(Board()), PathOf(t))
      ensures point != null ==> Grown(old(paths), paths, PathOf(t)) && paths[PathOf(t)] == point
      ensures point != null ==> extended == old(extended) + {PathOf(t)} && (PathOf(t) !in old(paths) ==> fresh(point))
      ensures forall x :: x in paths.Values && x !in old(paths).Values ==> fresh(x) && x.members == [] && !x.internal
    {
      hide IsTrie, Grown, IsTraced, Linked, Spaced, InOrder, Kids, PathOf, Roomy, NulFree;
      var path := BuildPath(t);
      if path.None? { return null; }
      ghost var was := paths;
      point := ExtendBy(path.value);
      TraceGrows(root, was, paths, Kids(), extended, path.value);
      extended := extended + {path.value};
    }

    method RaisePath(path: Path) returns (point: Route)
      requires Trie() && Spaced() && path != [] && NulFree(path)
      modifies this`paths, this`used, paths.Values`children
      ensures Trie() && Spaced() && Grown(old(paths), paths, path) && path in paths
      ensures paths[path] == point
      ensures path !in old(paths) ==> fresh(point)
      ensures Board() == Raised(old(Board()), path)
      ensures forall x :: x in paths.Values && x !in old(paths).Values ==> fresh(x) && x.members == [] && !x.internal
    {
      hide IsTrie, Grown, Kids, Spaced, Raised;
      RootFirst(root, paths, Kids());
      assert [] + path == path;
      ghost var was := paths;
      point := AddPath(root, path, []);
      GrownValues(was, paths, path);
      NewRoutes(root, was, paths, Kids(), path);
      BoardGrows(was, path, old(Board()));
    }

    method ExtendBy(path: Path) returns (point: Route)
      requires Trie() && Linked() && Spaced() && InOrder() && path != [] && NulFree(path)
      modifies this`paths, this`used, paths.Values`children
      ensures Trie() && Linked() && Spaced() && InOrder() && Grown(old(paths), paths, path) && path in paths
      ensures paths[path] == point
      ensures path !in old(paths) ==> fresh(point)
      ensures Board() == Raised(old(Board()), path)
      ensures forall x :: x in paths.Values && x !in old(paths).Values ==> fresh(x) && x.members == [] && !x.internal
    {
      hide IsTrie, Grown, Kids, Spaced, Board, Raised;
      ghost var was := paths;
      point := RaisePath(path);
      GrownValues(was, paths, path);
      forall r, m | r in paths.Values && m in known ensures Times(r.members, m) == Times(m.routes, r) {
        if r !in was.Values {
          NoTimes(m.routes, r);
          assert r.members == [];
        }
      }
    }

    lemma BoardGrows(was: map<Path, Route>, path: Path, b: Board)
      requires Trie() && Grown(was, paths, path) && b.Keys == was.Keys
      requires forall q :: q in was ==> CardOf(was[q]) == b[q]
      requires forall q :: q in paths && q !in was ==> CardOf(paths[q]) == Card(None, [])
      ensures Board() == Raised(b, path)
    {
      hide IsTrie, Kids, CardOf;
      AllPrefixes(root, paths, Kids(), path);
      forall q ensures q in Board() <==> q in Raised(b, path) { RaisedHas(b, path, q); }
    }

    /** Route_add_member: internal routes take no members. */
    method AddMember(r: Route, m: Member, ghost p: Path) returns (rc: int)
      requires Valid() && p in paths && paths[p] == r && m in known
      modifies r`members, m`routes
      ensures Valid() && rc == (if r.internal then 0 else 1)
      ensures rc == 0 ==> r.members == old(r.members) && m.routes == old(m.routes)
      ensures rc == 1 ==> r.members == PlusMember(old(r.members), m) && m.routes == PlusRoute(old(m.routes), r)
      ensures Board() == if rc == 1 then Joined(old(Board()), p, m) else old(Board())
    {
      hide IsTrie, IsTraced, Kids, Spaced, Linked, InOrder, PlusMember, PlusRoute;
      OnePath(root, paths, Kids(), p);
      if r.internal { return 0; }
      Enlist(r, m);
      rc := 1;
    }

    /** Heap_add on both sides. */
    method Enlist(r: Route, m: Member)
      requires Linked() && InOrder() && r in paths.Values && m in known
      modifies r`members, m`routes
      ensures Linked() && InOrder()
      ensures r.members == PlusMember(old(r.members), m) && m.routes == PlusRoute(old(m.routes), r)
    {
      hide PlusMember, PlusRoute, Times, Rising;
      ghost var ms, rs := r.members, m.routes;
      r.members := PlusMember(r.members, m);
      m.routes := PlusRoute(m.routes, r);
      forall x, y | x in paths.Values && y in known ensures Times(x.members, y) == Times(y.routes, x) {
        PlusMemberMeans(ms, m, y);
        PlusRouteMeans(rs, r, x);
      }
      forall x, y | x in paths.Values && y in x.members ensures y in known {
        if x == r { PlusMemberMeans(ms, m, y); }
      }
      forall x, y | y in known && x in y.routes ensures x in paths.Values {
        if y == m { PlusRouteMeans(rs, r, x); }
      }
      PlusMemberMeans(ms, m, m);
      PlusRouteMeans(rs, r, r);
    }

    /** Route_register. */
    method Register(t: Tree, m: Member) returns (rc: int, dead: bool)
      requires Valid() && t.Node? && (t.name.Some? ==> NulFree(PathOf(t))) && m in known
      modifies this`paths, this`extended, this`used, paths.Values, m`routes
      ensures dead <==> t.name.None? && Roomy(t.child, 1)
      ensures Valid()
      ensures (t.name.Some? && Roomy(t.child, 1) ==> Grown(old(paths), paths, PathOf(t)) && PathOf(t) in paths)
      ensures t.name.Some? ==> rc == if Roomy(t.child, 1) && !paths[PathOf(t)].internal then 1 else 0
      ensures rc == if t.name.Some? && Roomy(t.child, 1)
        && !(PathOf(t) in old(paths) && old(paths[PathOf(t)].internal)) then 1 else 0
      ensures m.routes == if rc == 1 then PlusRoute(old(m.routes), paths[PathOf(t)]) else old(m.routes)
      ensures forall x :: x in paths.Values ==> x in old(paths).Values || fresh(x)
      ensures Board() == if rc == 1 then Registered(old(Board()), PathOf(t), m) else old(Board())
    {
      hide IsTrie, IsTraced, Kids, Grown, Roomy, PathOf, NulFree, Linked, Spaced, InOrder, Registered, Board;
      hide PlusRoute;
      if t.name.None? {
        // Route_alloc finds no name and stops at its assertion, unless the path is too long to get there
        return 0, Roomy(t.child, 1);
      }
      dead := false;
      rc := Enter(t, m);
    }

    /** The same for a node with a name. */
    method Enter(t: Tree, m: Member) returns (rc: int)
      requires Valid() && t.Node? && t.name.Some? && NulFree(PathOf(t)) && m in known
      modifies this`paths, this`extended, this`used, paths.Values, m`routes
      ensures Valid() && (Roomy(t.child, 1) ==> Grown(old(paths), paths, PathOf(t)) && PathOf(t) in paths)
      ensures rc == if Roomy(t.child, 1) && !paths[PathOf(t)].internal then 1 else 0
      ensures rc == if Roomy(t.child, 1) && !(PathOf(t) in old(paths) && old(paths[PathOf(t)].internal)) then 1 else 0
      ensures m.routes == if rc == 1 then PlusRoute(old(m.routes), paths[PathOf(t)]) else old(m.routes)
      ensures forall x :: x in paths.Values ==> x in old(paths).Values || fresh(x)
      ensures Board() == if rc == 1 then Registered(old(Board()), PathOf(t), m) else old(Board())
    {
      hide IsTrie, IsTraced, Kids, Grown, Roomy, PathOf, NulFree, Linked, Spaced, InOrder, Raised, Board, Joined;
      hide PlusMember, PlusRoute;
      var point := ExtendFor(t);
      if point == null { return 0; }
      rc := AddMember(point, m, PathOf(t));
    }

    /** An internal route is never new, so that a path that leads to one adds nothing. */
    method ExtendFor(t: Tree) returns (point: Route?)
      requires Valid() && t.Node? && t.name.Some? && NulFree(PathOf(t))
      modifies this`paths, this`extended, this`used, paths.Values`children
      ensures Valid() && (point != null <==> Roomy(t.child, 1))
      ensures point != null ==> Grown(old(paths), paths, PathOf(t)) && PathOf(t) in paths && paths[PathOf(t)] == point
      ensures point != null ==> point.internal == (PathOf(t) in old(paths) && old(paths[PathOf(t)].internal))
      ensures Board() == if point == null || point.internal then old(Board()) else Raised(old(Board()), PathOf(t))
      ensures forall x :: x in paths.Values ==> x in old(paths).Values || fresh(x)
    {
      ghost var was, b := paths, Board();
      assert b.Keys == was.Keys;
      hide IsTrie, IsTraced, Kids, Grown, Roomy, PathOf, NulFree, Linked, Spaced, InOrder, Raised, Board;
      point := Extend(t);
      if point == null { return; }
      GrownValues(was, paths, PathOf(t));
      assert PathOf(t) !in was ==> point !in was.Values;
      if point.internal {
        AllPrefixes(root, was, old(Kids()), PathOf(t));
        RaisedAlready(b, PathOf(t));
      }
    }

    /** Route_register_callback. */
    method RegisterCallback(t: Tree, callback: Callback) returns (rc: int)
      requires Valid() && t.Node? && t.name.Some? && NulFree(PathOf(t))
      modifies this`paths, this`extended, this`used, paths.Values
      ensures Valid() && rc == (if Roomy(t.child, 1) then 1 else 0)
      ensures rc == 1 ==> Grown(old(paths), paths, PathOf(t)) && PathOf(t) in paths
                          && paths[PathOf(t)].internal && paths[PathOf(t)].callback == callback
      ensures Board() == if rc == 1 then Owned(old(Board()), PathOf(t), callback) else old(Board())
      ensures forall x :: x in paths.Values && x !in old(paths).Values ==> fresh(x)
    {
      hide IsTrie, IsTraced, Kids, Grown, Roomy, PathOf, NulFree, Spaced, Linked, InOrder, Raised, Board, Taken;
      ghost var was := paths;
      var point := Extend(t);
      if point == null { return 0; }
      GrownValues(was, paths, PathOf(t));
      TakeOver(point, callback, PathOf(t));
      rc := 1;
    }

    method TakeOver(r: Route, callback: Callback, ghost p: Path)
      requires Valid() && p in paths && paths[p] == r
      modifies r`internal, r`callback
      ensures Valid() && r.internal && r.callback == callback && Board() == Taken(old(Board()), p, callback)
    {
      hide IsTrie, IsTraced, Kids, Spaced, Linked, InOrder;
      OnePath(root, paths, Kids(), p);
      r.internal, r.callback := true, callback;
    }

    /** Route_unregister: one registration fewer on both sides, if there was any. */
    method Unregister(t: Tree, m: Member) returns (rc: int)
      requires Valid() && t.Node? && (t.name.Some? ==> NulFree(PathOf(t))) && m in known
      modifies paths.Values`members, m`routes
      ensures Valid()
      ensures rc == if t.name.Some? && Count(t.child) <= ROUTE_MAX_PATH && PathOf(t) in paths then 1 else 0
      ensures rc == 1 ==> paths[PathOf(t)].members == Minus(old(paths[PathOf(t)].members), m)
                          && m.routes == Minus(old(m.routes), paths[PathOf(t)])
      ensures rc == 0 ==> m.routes == old(m.routes)
      ensures forall x :: x in paths.Values && !(rc == 1 && x == paths[PathOf(t)]) ==> x.members == old(x.members)
      ensures Board() == if rc == 1 then Unregistered(old(Board()), PathOf(t), m) else old(Board())
    {
      hide IsTrie, IsTraced, Kids, PathOf, NulFree, Count, Linked, Minus, Spaced, InOrder;
      var r := Find(t);
      if r == null { return 0; }
      OnePath(root, paths, Kids(), PathOf(t));
      Withdraw(r, m);
      rc := 1;
    }

    method Withdraw(r: Route, m: Member)
      requires Valid() && r in paths.Values && m in known
      modifies r`members, m`routes
      ensures Valid() && r.members == Minus(old(r.members), m) && m.routes == Minus(old(m.routes), r)
    {
      hide IsTrie, IsTraced, Kids, Minus, Times, Rising;
      ghost var ms, rs := r.members, m.routes;
      var members := DeleteByAddress(r.members, m, MemberAt);
      var routes := DeleteByAddress(m.routes, r, RouteAt);
      hide Spaced;
      r.members, m.routes := members, routes;
      MinusRises(ms, m, MemberAt);
      MinusRises(rs, r, RouteAt);
      forall x, y | x in paths.Values && y in known ensures Times(x.members, y) == Times(y.routes, x) {
        MinusTimes(ms, m, y);
        MinusTimes(rs, r, x);
      }
      forall x, y | x in paths.Values && y in x.members ensures y in known {
        if x == r { MinusFrom(ms, m, y); }
      }
      forall x, y | y in known && x in y.routes ensures x in paths.Values {
        if y == m { MinusFrom(rs, r, x); }
      }
    }

    /** Heap_delete from a route's members. */
    method Strike(r: Route, m: Member)
      requires InOrder() && Spaced() && r in paths.Values && m in known && forall y :: y in r.members ==> y in known
      modifies r`members
      ensures InOrder() && r.members == Minus(old(r.members), m)
    {
      hide Minus, Rising;
      MinusRises(r.members, m, MemberAt);
      r.members := DeleteByAddress(r.members, m, MemberAt);
    }

    /** Heap_clear of a member's routes. */
    method ClearRoutes(m: Member)
      requires InOrder() && m in known
      modifies m`routes
      ensures InOrder() && m.routes == []
    {
      hide Rising;
      NoneRise(RouteAt);
      m.routes := [];
    }

    /** One registration after the other is struck from its route, until none of the member's is left. */
    method StrikeAll(m: Member)
      requires Linked() && InOrder() && Spaced() && m in known
      modifies paths.Values`members
      ensures InOrder() && forall x :: x in paths.Values ==> x.members == old(Others(x.members, m))
    {
      hide Minus, Times, Spaced, InOrder, Others;
      ghost var rs := m.routes;
      TimesNone(rs);
      var i := 0;
      while i < |m.routes|
        invariant 0 <= i <= |rs| && InOrder()
        invariant forall x :: x in paths.Values ==> Times(x.members, m) + Times(rs[..i], x) == Times(rs, x)
        invariant forall x :: x in paths.Values ==> Others(x.members, m) == old(Others(x.members, m))
      {
        var r := m.routes[i];
        ghost var ms := r.members;
        forall y | y in ms ensures y in known { OthersFrom(ms, m, y); OthersFrom(old(r.members), m, y); }
        Strike(r, m);
        MinusOthers(ms, m);
        forall x | x in paths.Values ensures Times(x.members, m) + Times(rs[..i + 1], x) == Times(rs, x) {
          assert rs[..i + 1] == rs[..i] + [rs[i]];
          PlusTimes(rs[..i], rs[i], x);
          TimesUpTo(rs, i + 1, x);
          MinusTimes(ms, m, m);
        }
        i := i + 1;
      }
      assert rs[..i] == rs;
      forall x | x in paths.Values ensures x.members == old(Others(x.members, m)) {
        NoTimes(x.members, m);
        OnlyOthers(x.members, m);
      }
    }

    /** Route_unregister_all: the member is gone from every route, and nothing else has changed. */
    method UnregisterAll(m: Member)
      requires Valid() && m in known
      modifies paths.Values`members, m`routes
      ensures Valid() && m.routes == [] && Board() == Cleared(old(Board()), m)
      ensures forall x :: x in paths.Values ==> x.members == old(Others(x.members, m)) && m !in x.members
    {
      hide IsTrie, IsTraced, Kids, Times, Spaced, InOrder, Others;
      StrikeAll(m);
      ClearRoutes(m);
      forall x, y | x in paths.Values && y in known ensures Times(x.members, y) == Times(y.routes, x) {
        OthersTimes(old(x.members), m, y);
        NoTimes(m.routes, x);
      }
      forall x, y | x in paths.Values && y in x.members ensures y != m && y in known {
        OthersFrom(old(x.members), m, y);
      }
    }

    /** A member the hub has just created. */
    method Login() returns (m: Member)
      requires Valid()
      modifies this`known, this`used
      ensures Valid() && fresh(m) && known == old(known) + {m} && m.routes == []
    {
      hide IsTrie, IsTraced, Kids, RoutesApart, MembersApart, Rising, Times;
      var at := Malloc();
      m := new Member(at);
      MemberApart(paths.Values, known, old(used), m);
      assert forall x :: x in paths.Values ==> m !in x.members;
      known := known + {m};
      assert Linked() by {
        hide InOrder;
        forall x | x in paths.Values ensures Times(x.members, m) == Times(m.routes, x) {
          NoTimes(x.members, m);
          NoTimes(m.routes, x);
        }
      }
      assert InOrder() by { NoneRise(RouteAt); }
    }

    /** A route that has just been extended is found again exactly when the node has at most ROUTE_MAX_PATH children. */
    method ExtendThenFind(t: Tree) returns (point: Route?, found: Route?)
      requires Valid() && t.Node? && t.name.Some? && NulFree(PathOf(t))
      modifies this`paths, this`extended, this`used, paths.Values`children
      ensures Valid() && (point != null <==> Roomy(t.child, 1))
      ensures point != null ==> found == if Count(t.child) <= ROUTE_MAX_PATH then point else null
    {
      hide IsTrie, IsTraced, Kids, Linked, Spaced, InOrder, PathOf, NulFree, Roomy, Count;
      point := Extend(t);
      found := Find(t);
      if point != null { GrownHas(old(paths), paths, PathOf(t)); }
    }

    /** Lookups succeed on exactly the nonempty prefixes of the paths ever extended, always with the same object. */
    method Resolve(t: Tree) returns (r: Route?)
      requires Valid() && t.Node? && t.name.Some? && NulFree(PathOf(t)) && Count(t.child) <= ROUTE_MAX_PATH
      ensures r != null <==> exists e :: e in extended && PathOf(t) <= e
      ensures r != null ==> PathOf(t) in paths && r == paths[PathOf(t)]
    {
      hide IsTrie, Kids, Linked, NulFree, Count, Elements;
      r := Find(t);
    }

    /**
     Any run of registrations, callbacks and disconnections keeps the table valid, up to one that stops the
     process.
     */
    method Serve(ops: seq<RouteOp>) returns (dead: bool)
      requires Valid() && forall i :: 0 <= i < |ops| ==> Usable(ops[i], known)
      modifies this, paths.Values, known
      ensures Valid() && known == old(known)
      ensures dead <==> exists i :: 0 <= i < |ops| && Fatal(ops[i])
    {
      hide IsTrie, IsTraced, Kids, Linked, Spaced, InOrder, Grown, PathOf, NulFree, Roomy;
      var i := 0;
      dead := false;
      while i < |ops|
        invariant 0 <= i <= |ops| && Valid() && known == old(known) && !dead
        invariant forall x :: x in paths.Values ==> x in old(paths.Values) || fresh(x)
        invariant forall k :: 0 <= k < i ==> !Fatal(ops[k])
      {
        var op := ops[i];
        assert Usable(op, known);
        match op {
          case RegisterOp(t, m) =>
            var _, died := Register(t, m);
            if died {
              assert Fatal(ops[i]);
              return true;
            }
          case UnregisterOp(t, m) => var _ := Unregister(t, m);
          case CallbackOp(t, callback) => var _ := RegisterCallback(t, callback);
          case DisconnectOp(m) => UnregisterAll(m);
        }
        i := i + 1;
      }
    }
  }

  datatype RouteOp =
    | RegisterOp(t: Tree, m: Member)
    | UnregisterOp(t: Tree, m: Member)
    | CallbackOp(t: Tree, callback: Callback)
    | DisconnectOp(m: Member)

  ghost predicate Usable(op: RouteOp, known: set<Member>) {
    && (!op.DisconnectOp? ==> op.t.Node? && (op.t.name.Some? ==> NulFree(PathOf(op.t))))
    && (op.CallbackOp? ==> op.t.name.Some?)
    && (!op.CallbackOp? ==> op.m in known)
  }

  /** A registration without a name, short enough to be tried. */
  predicate Fatal(op: RouteOp) { op.RegisterOp? && op.t.Node? && op.t.name.None? && Roomy(op.t.child, 1) }

  /** No parent has two children with the same name. */
  lemma NoTwins(root: Route, paths: map<Path, Route>, kids: map<Path, seq<Route>>, p: Path, i: nat, j: nat)
    requires IsTrie(root, paths, kids) && p in paths && p in kids && i < j < |kids[p]|
    ensures kids[p][i].name != kids[p][j].name
  {
    assert Level(paths, kids, p);
    var ns := Names(kids[p]);
    assert ns[i] == kids[p][i].name && ns[j] == kids[p][j].name;
    if ns[i] == ns[j] { Twice(ns, i, j); }
  }

  lemma GrownHas(was: map<Path, Route>, now: map<Path, Route>, path: Path)
    requires Grown(was, now, path)
    ensures path in now
  {}

  /** `k` children that are not path elements. */
  function Numbers(k: nat): Tree { if k == 0 then Nil else Node(NumberV(0), None, Numbers(k - 1), Nil) }

  lemma {:induction false} NumbersAreRoomy(k: nat, taken: nat)
    requires taken < ROUTE_MAX_PATH
    ensures Roomy(Numbers(k), taken) && Count(Numbers(k)) == k && Elements(Numbers(k)) == []
  {
    if k == 0 {
    } else {
      NumbersAreRoomy(k - 1, taken);
    }
  }

  /** A node that Route_extend_and_find takes and Route_find does not: one path element and 31 numbers. */
  lemma LostRoute()
    ensures var t := Node(GroupV, Some([97]), Nil, Numbers(31));
      Roomy(t.child, 1) && PathOf(t) == [[97]] && Count(t.child) > ROUTE_MAX_PATH
  {
    NumbersAreRoomy(31, 1);
  }

  /** Two paths lead to one route exactly if they are the same. */
  method Separate(tb: Table, p: Path, q: Path) returns (one: Route?, other: Route?)
    requires tb.Valid() && p != [] && q != [] && AllPlain(p) && AllPlain(q) && NulFree(p) && NulFree(q)
    modifies tb`paths, tb`extended, tb`used, tb.paths.Values`children
    ensures tb.Valid() && (one != null <==> |p| <= ROUTE_MAX_PATH) && (other != null <==> |q| <= ROUTE_MAX_PATH)
    ensures one != null && other != null ==> (one == other <==> p == q)
  {
    PathOfNode(p);
    PathOfNode(q);
    hide Roomy, Count, PathOf, NodeFor, IsTrie, IsTraced, Table.Kids, Table.Linked, Table.Spaced;
    hide Table.InOrder, Table.Board, Raised, NulFree;
    one := tb.Extend(NodeFor(p));
    other := tb.Extend(NodeFor(q));
    if one != null && other != null { OnePath(tb.root, tb.paths, tb.Kids(), p); }
  }

  /** Extended and looked up on the same table, that node's route is made and not found. */
  method LoseRoute(tb: Table) returns (point: Route?, found: Route?)
    requires tb.Valid()
    modifies tb`paths, tb`extended, tb`used, tb.paths.Values`children
    ensures tb.Valid() && point != null && found == null
  {
    hide Table.Valid, Roomy, Count, Table.Trie;
    var t := Node(GroupV, Some([97]), Nil, Numbers(31));
    LostRoute();
    point, found := tb.ExtendThenFind(t);
  }

  ghost predicate IsTraced(paths: map<Path, Route>, extended: set<Path>) {
    forall q :: q in paths <==> q == [] || exists e :: e in extended && q <= e
  }

  lemma TraceGrows(root: Route, was: map<Path, Route>, now: map<Path, Route>, kids: map<Path, seq<Route>>,
                   extended: set<Path>, path: Path)
    requires IsTrie(root, now, kids) && IsTraced(was, extended) && Grown(was, now, path)
    ensures IsTraced(now, extended + {path})
  {
    hide IsTrie;
    forall q: Path ensures q in now <==> q == [] || exists e :: e in extended + {path} && q <= e {
      if q <= path {
        GrownHas(was, now, path);
        PrefixClosed(root, now, kids, path, |q|);
        assert path[..|q|] == q;
        assert path in extended + {path};
      } else {
        TracedBefore(was, now, extended, path, q);
      }
    }
  }

  lemma TracedBefore(was: map<Path, Route>, now: map<Path, Route>, extended: set<Path>, path: Path, q: Path)
    requires IsTraced(was, extended) && Grown(was, now, path) && !(q <= path)
    ensures q in now <==> exists e :: e in extended + {path} && q <= e
  {
    assert q in now <==> q in was;
    if e :| e in extended && q <= e { assert e in extended + {path}; }
  }

  lemma GrownValues(was: map<Path, Route>, now: map<Path, Route>, path: Path)
    requires Grown(was, now, path)
    ensures path in now && was.Values <= now.Values && (path in was ==> now[path] == was[path])
  {}

  /** The new map has every old entry, and besides them only prefixes of `path`, among them `path` itself. */
  ghost predicate Grown(was: map<Path, Route>, now: map<Path, Route>, path: Path) {
    && path in now
    && (forall q :: q in was ==> q in now && now[q] == was[q])
    && (forall q :: q in now ==> q in was || q <= path)
  }

  lemma GrownOne(was: map<Path, Route>, now: map<Path, Route>, p: Path, name: Text, c: Route)
    requires now == was || (p + [name] !in was && now == was[p + [name] := c])
    requires p + [name] in now
    ensures Grown(was, now, p + [name])
  {}

  lemma GrownTwice(was: map<Path, Route>, middle: map<Path, Route>, now: map<Path, Route>, q: Path, path: Path)
    requires Grown(was, middle, q) && Grown(middle, now, path) && q <= path
    ensures Grown(was, now, path)
  {}

  lemma RootFirst(root: Route, paths: map<Path, Route>, kids: map<Path, seq<Route>>)
    requires IsTrie(root, paths, kids)
    ensures [] in paths && paths[[]] == root
  {}

  lemma BeyondTrie(root: Route, paths: map<Path, Route>, kids: map<Path, seq<Route>>, q: Path, whole: Path)
    requires IsTrie(root, paths, kids) && q !in paths && q <= whole
    ensures whole !in paths
  {
    assert whole[..|q|] == q;
    if whole in paths { PrefixClosed(root, paths, kids, whole, |q|); }
  }
}
