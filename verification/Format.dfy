/**
 Node_cons and Node_decons: two interpreters of format strings, one building a tree from its
 arguments, one taking a tree apart into its outputs.
 */
module Format {
  import opened Bytes
  import opened Stackish

  /** A variadic argument of Node_cons. */
  datatype Arg = Val(v: Value) | Name(t: Text)

  /** `Undefined` stands for a failed assertion, a NULL dereference or a missing or mistyped argument. */
  datatype Consed = Made(tree: Tree) | Refused | Undefined

  /** Where Node_cons stands: the groups open around cur_node, and the first root once it is closed. */
  datatype ConsAt = Building(spine: Spine, root: Option<Tree>)

  predicate Fits(c: char, v: Value) {
    match c
    case 'n' => v.NumberV?
    case 'f' => v.FloatV?
    case 'b' => v.BlobV?
    case 's' => v.StringV?
    case _ => false
  }

  predicate IsData(c: char) { c in {'n', 'f', 'b', 's'} }

  predicate IsBlank(c: char) { c in {' ', '\t', '\n'} }

  /** Move to the parent of the current group, which may be nowhere; a later root is not kept. */
  function LeaveGroup(sp: Spine, root: Option<Tree>): ConsAt
    requires sp.Frame?
  {
    if sp.up.Frame? then Building(CloseGroup(sp, sp.name), root)
    else Building(Bottom, if root.Some? then root else Some(Node(GroupV, sp.name, sp.sibling, sp.kids)))
  }

  /** What one format character does: move on, using up an argument or not, or end it all. */
  datatype ConsStep = Moves(at: ConsAt, used: bool) | Stops(result: Consed)

  function ConsOne(at: ConsAt, c: char, args: seq<Arg>): (r: ConsStep)
    ensures r.Moves? && r.used ==> args != []
    ensures r.Stops? ==> !r.result.Made?
  {
    var inside := at.spine.Frame?;
    if c == '[' then Moves(at.(spine := StartGroup(at.spine)), false)
    else if IsData(c) then
      if args == [] || !args[0].Val? || !Fits(c, args[0].v) then Stops(Undefined)
      else Moves(if inside then at.(spine := Push(at.spine, args[0].v)) else at, true)
    else if c == ']' then
      if !inside then Stops(Undefined) else Moves(LeaveGroup(at.spine, at.root), false)
    else if c == 'w' then
      if args == [] || !args[0].Name? || !inside then Stops(Undefined)
      else Moves(LeaveGroup(at.spine.(name := Some(args[0].t)), at.root), true)
    else if c == '@' then
      if args == [] || !args[0].Name? || !inside || at.spine.kids.Nil? then Stops(Undefined)
      else Moves(at.(spine := NameChild(at.spine, args[0].t)), true)
    else if IsBlank(c) then Moves(at, false)
    else Stops(Refused)
  }

  /** The rest of Node_cons on the rest of the format and of the arguments. */
  function ConsRun(at: ConsAt, fmt: string, args: seq<Arg>): Consed
    requires 'G' !in fmt
    decreases |fmt|
  {
    if fmt == [] then
      if at.spine.Frame? then Undefined else Made(if at.root.Some? then at.root.value else Nil)
    else
      match ConsOne(at, fmt[0], args)
      case Stops(r) => r
      case Moves(at', used) => ConsRun(at', fmt[1..], if used then args[1..] else args)
  }

  function Cons(fmt: string, args: seq<Arg>): Consed
    requires 'G' !in fmt
  {
    ConsRun(Building(Bottom, None), fmt, args)
  }

  /** Once a root is closed, nothing the rest of the format builds can become the result. */
  lemma {:induction false} FirstRootStays(at: ConsAt, fmt: string, args: seq<Arg>)
    requires at.root.Some? && 'G' !in fmt
    ensures ConsRun(at, fmt, args).Made? ==> ConsRun(at, fmt, args).tree == at.root.value
    decreases |fmt|
  {
    if fmt == [] {
    } else {
      match ConsOne(at, fmt[0], args) {
        case Stops(_) =>
        case Moves(at', used) => FirstRootStays(at', fmt[1..], if used then args[1..] else args);
      }
    }
  }

  /** The nodes above the current one, innermost first. */
  datatype Trail = Rootless | Under(node: Tree, trail: Trail)

  /** A mismatch leaves the outputs it had written before it. */
  datatype Deconsed = Got(outs: seq<Value>) | Mismatch(outs: seq<Value>) | Missing

  /** NEXT: stay put on the last sibling. */
  function Next(here: Tree): Tree {
    if here.Node? && here.sibling.Node? then here.sibling else here
  }

  /** What one format character of Node_decons does. */
  datatype DeconsStep = Walks(here: Tree, trail: Trail, named: bool, out: Option<Value>) | Ends(missing: bool)

  function DeconsOne(here: Tree, trail: Trail, c: char, names: seq<Text>): (r: DeconsStep)
    requires here.Node?
    ensures r.Walks? && r.named ==> names != []
  {
    if c == '[' then Walks(here.child, Under(here, trail), false, None)
    else if IsData(c) then
      if !Fits(c, here.value) then Ends(false) else Walks(Next(here), trail, false, Some(here.value))
    else if c == ']' then
      if trail.Rootless? then Walks(Nil, trail, false, None) else Walks(Next(trail.node), trail.trail, false, None)
    else if c == '@' then
      if names == [] then Ends(true)
      else if here.name != Some(names[0]) then Ends(false)
      else Walks(here, trail, true, None)
    else if c == 'w' then
      if trail.Rootless? then Walks(Nil, trail, false, None)
      else if names == [] then Ends(true)
      else if !trail.node.Node? || trail.node.name != Some(names[0]) then Ends(false)
      else Walks(Next(trail.node), trail.trail, true, None)
    else if c == '.' then Walks(Next(here), trail, false, None)
    else Ends(false)
  }

  /** The rest of Node_decons; `here` is Nil once the walk has left the tree. */
  function DeconsRun(here: Tree, trail: Trail, fmt: string, names: seq<Text>, outs: seq<Value>): Deconsed
    requires 'G' !in fmt
    decreases |fmt|
  {
    if fmt == [] then Got(outs)
    else if here.Nil? then Mismatch(outs)
    else
      match DeconsOne(here, trail, fmt[0], names)
      case Ends(missing) => if missing then Missing else Mismatch(outs)
      case Walks(here', trail', named, out) =>
        DeconsRun(here', trail', fmt[1..], if named then names[1..] else names,
                  if out.Some? then outs + [out.value] else outs)
  }

  /** '.' passes over a node, and stays on the last. */
  lemma DotSkips(here: Tree, trail: Trail, fmt: string, names: seq<Text>, outs: seq<Value>)
    requires 'G' !in fmt && here.Node?
    ensures DeconsRun(here, trail, "." + fmt, names, outs) ==
      DeconsRun(if here.sibling.Node? then here.sibling else here, trail, fmt, names, outs)
  {
    assert ("." + fmt)[1..] == fmt;
  }

  function Decons(root: Tree, fmt: string, names: seq<Text>): Deconsed
    requires 'G' !in fmt
  {
    DeconsRun(root, Rootless, fmt, names, [])
  }

  // ---------------------------------------------------------------- formats by structure

  /**
   A list of format items, last one outermost: a data letter or a bracketed group, closed by a
   word or by ']', with an optional attribute on anything not named by a word.
   */
  datatype Spec = End | Item(value: Value, name: Option<Text>, byWord: bool, before: Spec, inner: Spec)

  predicate SpecOk(d: Spec) {
    d.End? ||
    (&& (if d.value.GroupV? then d.byWord ==> d.name.Some? else d.inner.End? && !d.byWord)
     && SpecOk(d.before) && SpecOk(d.inner))
  }

  function Letter(v: Value): string {
    match v
    case NumberV(_) => "n"
    case FloatV(_) => "f"
    case BlobV(_) => "b"
    case StringV(_) => "s"
    case GroupV => ""
  }

  /** The format for Node_cons, in push order. */
  function ConsFormat(d: Spec): (f: string)
    ensures 'G' !in f
  {
    if d.End? then "" else ConsFormat(d.before) + Opening(d) + ConsFormat(d.inner) + Ending(d)
  }

  function Opening(d: Spec): string
    requires d.Item?
  {
    if d.value.GroupV? then "[" else Letter(d.value)
  }

  function Attr(d: Spec): string
    requires d.Item?
  {
    if d.name.Some? && !d.byWord then "@" else ""
  }

  function Ending(d: Spec): (f: string)
    requires d.Item?
    ensures 'G' !in f
  {
    (if !d.value.GroupV? then "" else if d.byWord then "w" else "]") + Attr(d)
  }

  function ConsArgs(d: Spec): seq<Arg> {
    if d.End? then [] else
      ConsArgs(d.before)
      + (if d.value.GroupV? then [] else [Val(d.value)])
      + ConsArgs(d.inner)
      + (if d.name.Some? then [Name(d.name.value)] else [])
  }

  /** The group-wise reversed format for Node_decons, in pop order. */
  function DeconsFormat(d: Spec): (f: string)
    ensures 'G' !in f
  {
    if d.End? then "" else
      Attr(d)
      + (if d.value.GroupV? then "[" + DeconsFormat(d.inner) + (if d.byWord then "w" else "]") else Letter(d.value))
      + DeconsFormat(d.before)
  }

  function DeconsNames(d: Spec): seq<Text> {
    if d.End? then [] else
      (if d.name.Some? && !d.byWord then [d.name.value] else [])
      + DeconsNames(d.inner)
      + (if d.name.Some? && d.byWord then [d.name.value] else [])
      + DeconsNames(d.before)
  }

  /** The data arguments of a spec, in the order Node_cons takes them. */
  function Data(d: Spec): seq<Value> {
    if d.End? then [] else Data(d.before) + (if d.value.GroupV? then Data(d.inner) else [d.value])
  }

  function Reversed(s: seq<Value>): seq<Value> { seq(|s|, i requires 0 <= i < |s| => s[|s| - 1 - i]) }

  predicate NonemptyGroups(d: Spec) {
    d.End? || ((d.value.GroupV? ==> d.inner.Item?) && NonemptyGroups(d.before) && NonemptyGroups(d.inner))
  }

  /** The tree a spec describes. */
  function Shape(d: Spec): Tree {
    if d.End? then Nil else Node(d.value, d.name, Shape(d.before), Shape(d.inner))
  }

  /** One root group. */
  predicate RootSpec(d: Spec) {
    SpecOk(d) && d.Item? && d.value.GroupV? && d.before.End? && (d.byWord || d.name == None)
  }

  // ---------------------------------------------------------------- Node_cons builds the described tree

  lemma ConsOpen(sp: Spine, f: string, a: seq<Arg>)
    requires 'G' !in f
    ensures ConsRun(Building(sp, None), "[" + f, a) == ConsRun(Building(StartGroup(sp), None), f, a)
  {
    assert ("[" + f)[1..] == f;
  }

  lemma ConsData(sp: Spine, v: Value, f: string, a: seq<Arg>)
    requires sp.Frame? && !v.GroupV? && 'G' !in f
    ensures ConsRun(Building(sp, None), Letter(v) + f, [Val(v)] + a) == ConsRun(Building(Push(sp, v), None), f, a)
  {
    assert (Letter(v) + f)[1..] == f && ([Val(v)] + a)[1..] == a;
  }

  lemma ConsClose(sp: Spine, f: string, a: seq<Arg>)
    requires sp.Frame? && 'G' !in f
    ensures ConsRun(Building(sp, None), "]" + f, a) == ConsRun(LeaveGroup(sp, None), f, a)
  {
    assert ("]" + f)[1..] == f;
  }

  lemma ConsWord(sp: Spine, t: Text, f: string, a: seq<Arg>)
    requires sp.Frame? && 'G' !in f
    ensures ConsRun(Building(sp, None), "w" + f, [Name(t)] + a) == ConsRun(LeaveGroup(sp.(name := Some(t)), None), f, a)
  {
    assert ("w" + f)[1..] == f && ([Name(t)] + a)[1..] == a;
  }

  lemma ConsAttr(sp: Spine, t: Text, f: string, a: seq<Arg>)
    requires sp.Frame? && sp.kids.Node? && 'G' !in f
    ensures ConsRun(Building(sp, None), "@" + f, [Name(t)] + a) == ConsRun(Building(NameChild(sp, t), None), f, a)
  {
    assert ("@" + f)[1..] == f && ([Name(t)] + a)[1..] == a;
  }

  function NameArgs(d: Spec): seq<Arg>
    requires d.Item?
  {
    if d.name.Some? then [Name(d.name.value)] else []
  }

  /** The end of an item whose body is in place: its closing character and its attribute. */
  lemma ConsEnding(d: Spec, sp: Spine, f: string, a: seq<Arg>)
    requires SpecOk(d) && d.Item? && sp.Frame? && 'G' !in f
    requires d.value.GroupV? ==>
      sp.up.Frame? && sp.name == None && sp.kids == Shape(d.inner) && sp.sibling == Shape(d.before)
    requires !d.value.GroupV? ==> sp.kids == Node(d.value, None, Shape(d.before), Nil)
    ensures var outer := if d.value.GroupV? then sp.up else sp;
      ConsRun(Building(sp, None), Ending(d) + f, NameArgs(d) + a) ==
        ConsRun(Building(outer.(kids := Shape(d)), None), f, a)
  {
    hide ConsRun;
    var f1 := Attr(d) + f;
    var outer := if d.value.GroupV? then sp.up else sp;
    if d.byWord {
      assert Ending(d) + f == "w" + f;
      ConsWord(sp, d.name.value, f, a);
    } else {
      if d.value.GroupV? {
        assert Ending(d) + f == "]" + f1;
        ConsClose(sp, f1, NameArgs(d) + a);
      } else {
        assert Ending(d) + f == f1;
      }
      if d.name.Some? {
        ConsAttr(outer.(kids := Shape(d).(name := None)), d.name.value, f, a);
      } else {
        assert f1 == f && NameArgs(d) + a == a;
      }
    }
  }

  function BodyArgs(d: Spec, a: seq<Arg>): seq<Arg>
    requires d.Item?
  {
    (if d.value.GroupV? then [] else [Val(d.value)]) + (ConsArgs(d.inner) + (NameArgs(d) + a))
  }

  /** Concatenation regrouped to the right. */
  lemma Regroup<T>(a: seq<T>, b: seq<T>, c: seq<T>, d: seq<T>, e: seq<T>)
    ensures a + b + c + d + e == a + (b + (c + (d + e)))
  {}

  lemma Regroup3<T>(a: seq<T>, b: seq<T>, c: seq<T>, d: seq<T>)
    ensures a + b + c + d == a + (b + (c + d))
  {}

  lemma Regroup2<T>(a: seq<T>, b: seq<T>, c: seq<T>)
    ensures a + b + c == a + (b + c)
  {}

  lemma ConsParts(d: Spec, f: string, a: seq<Arg>)
    requires d.Item?
    ensures ConsFormat(d) + f == ConsFormat(d.before) + (Opening(d) + (ConsFormat(d.inner) + (Ending(d) + f)))
    ensures ConsArgs(d) + a == ConsArgs(d.before) + BodyArgs(d, a)
  {
    Regroup(ConsFormat(d.before), Opening(d), ConsFormat(d.inner), Ending(d), f);
    Regroup(ConsArgs(d.before), if d.value.GroupV? then [] else [Val(d.value)], ConsArgs(d.inner), NameArgs(d), a);
    hide Opening, Ending;
  }

  lemma ConsNothing(f: string, a: seq<Arg>)
    ensures ConsFormat(End) + f == f && ConsArgs(End) + a == a
  {}

  /** The format and arguments of a list of items put that list into an empty group. */
  lemma {:induction false} ConsChain(d: Spec, sp: Spine, f: string, a: seq<Arg>)
    requires SpecOk(d) && sp.Frame? && sp.kids.Nil? && 'G' !in f
    ensures ConsRun(Building(sp, None), ConsFormat(d) + f, ConsArgs(d) + a) ==
      ConsRun(Building(sp.(kids := Shape(d)), None), f, a)
    decreases d
  {
    hide ConsRun, Ending, ConsFormat, ConsArgs;
    if d.End? {
      ConsNothing(f, a);
    } else {
      var f1, a1 := Ending(d) + f, NameArgs(d) + a;
      var f2, a2 := ConsFormat(d.inner) + f1, ConsArgs(d.inner) + a1;
      ConsParts(d, f, a);
      ConsChain(d.before, sp, Opening(d) + f2, BodyArgs(d, a));
      var sp1 := sp.(kids := Shape(d.before));
      if d.value.GroupV? {
        assert BodyArgs(d, a) == a2;
        ConsOpen(sp1, f2, a2);
        ConsChain(d.inner, StartGroup(sp1), f1, a1);
        ConsEnding(d, StartGroup(sp1).(kids := Shape(d.inner)), f, a);
      } else {
        ConsNothing(f1, a1);
        ConsData(sp1, d.value, f1, a1);
        ConsEnding(d, Push(sp1, d.value), f, a);
      }
    }
  }

  lemma RootSpecParts(d: Spec)
    requires RootSpec(d)
    ensures ConsFormat(d) == "[" + (ConsFormat(d.inner) + if d.byWord then "w" else "]")
    ensures ConsArgs(d) == ConsArgs(d.inner) + NameArgs(d)
  {
    hide ConsFormat, ConsArgs;
    ConsParts(d, "", []);
    ConsNothing(Opening(d) + (ConsFormat(d.inner) + (Ending(d) + "")), BodyArgs(d, []));
    assert ConsFormat(d) + "" == ConsFormat(d) && ConsArgs(d) + [] == ConsArgs(d);
    assert Ending(d) + "" == (if d.byWord then "w" else "]") && NameArgs(d) + [] == NameArgs(d);
  }

  /** Node_cons, given a format and its arguments, makes the tree the format describes. */
  lemma ConsMakesShape(d: Spec)
    requires RootSpec(d)
    ensures Cons(ConsFormat(d), ConsArgs(d)) == Made(Shape(d))
  {
    hide ConsRun;
    var f, a := (if d.byWord then "w" else "]"), NameArgs(d);
    var f2, a2 := ConsFormat(d.inner) + f, ConsArgs(d.inner) + a;
    RootSpecParts(d);
    var sp := StartGroup(Bottom);
    ConsOpen(Bottom, f2, a2);
    ConsChain(d.inner, sp, f, a);
    var sp1 := sp.(kids := Shape(d.inner));
    assert f + "" == f && a + [] == a;
    if d.byWord { ConsWord(sp1, d.name.value, "", []); } else { ConsClose(sp1, "", []); }
    ConsDone(Shape(d));
  }

  lemma ConsDone(t: Tree)
    ensures ConsRun(Building(Bottom, Some(t)), "", []) == Made(t)
  {}

  // ---------------------------------------------------------------- Node_decons undoes it

  /** The oldest sibling, where NEXT comes to rest. */
  function Last(t: Tree): Tree {
    if t.Node? && t.sibling.Node? then Last(t.sibling) else t
  }

  /** The data of a list of items in pop order. */
  function Popped(d: Spec): seq<Value> {
    if d.End? then [] else (if d.value.GroupV? then Popped(d.inner) else [d.value]) + Popped(d.before)
  }

  lemma {:induction false} PoppedIsReversed(d: Spec)
    ensures Popped(d) == Reversed(Data(d))
  {
    if d.End? {
    } else {
      PoppedIsReversed(d.before);
      PoppedIsReversed(d.inner);
      ReversedJoin(Data(d.before), if d.value.GroupV? then Data(d.inner) else [d.value]);
    }
  }

  lemma ReversedJoin(a: seq<Value>, b: seq<Value>)
    ensures Reversed(a + b) == Reversed(b) + Reversed(a)
  {}

  /** An item's own part of the pop-order format: attribute, then letter or group. */
  function ItemFormat(d: Spec): (f: string)
    requires d.Item?
    ensures 'G' !in f
  {
    Attr(d) + if d.value.GroupV? then "[" + DeconsFormat(d.inner) + (if d.byWord then "w" else "]") else Letter(d.value)
  }

  function ItemNames(d: Spec): seq<Text>
    requires d.Item?
  {
    (if d.name.Some? && !d.byWord then [d.name.value] else [])
    + DeconsNames(d.inner)
    + (if d.name.Some? && d.byWord then [d.name.value] else [])
  }

  function ItemData(d: Spec): seq<Value>
    requires d.Item?
  {
    if d.value.GroupV? then Popped(d.inner) else [d.value]
  }

  lemma DeconsParts(d: Spec, f: string, n: seq<Text>)
    requires d.Item?
    ensures DeconsFormat(d) + f == ItemFormat(d) + (DeconsFormat(d.before) + f)
    ensures DeconsNames(d) + n == ItemNames(d) + (DeconsNames(d.before) + n)
  {}

  lemma DeconsAttr(here: Tree, trail: Trail, t: Text, f: string, n: seq<Text>, o: seq<Value>)
    requires here.Node? && here.name == Some(t) && 'G' !in f
    ensures DeconsRun(here, trail, "@" + f, [t] + n, o) == DeconsRun(here, trail, f, n, o)
  {
    assert ("@" + f)[1..] == f && ([t] + n)[1..] == n;
  }

  lemma DeconsData(here: Tree, trail: Trail, f: string, n: seq<Text>, o: seq<Value>)
    requires here.Node? && !here.value.GroupV? && 'G' !in f
    ensures DeconsRun(here, trail, Letter(here.value) + f, n, o) == DeconsRun(Next(here), trail, f, n, o + [here.value])
  {
    assert (Letter(here.value) + f)[1..] == f;
  }

  lemma DeconsOpen(here: Tree, trail: Trail, f: string, n: seq<Text>, o: seq<Value>)
    requires here.Node? && 'G' !in f
    ensures DeconsRun(here, trail, "[" + f, n, o) == DeconsRun(here.child, Under(here, trail), f, n, o)
  {
    assert ("[" + f)[1..] == f;
  }

  /** The character that leaves a group steps to the group's own sibling. */
  lemma DeconsClose(here: Tree, up: Tree, trail: Trail, byWord: bool, f: string, n: seq<Text>, o: seq<Value>)
    requires here.Node? && up.Node? && 'G' !in f && (byWord ==> up.name.Some?)
    ensures DeconsRun(here, Under(up, trail), (if byWord then "w" else "]") + f,
                      (if byWord then [up.name.value] else []) + n, o)
         == DeconsRun(Next(up), trail, f, n, o)
  {
    assert ("w" + f)[1..] == f == ("]" + f)[1..];
    if byWord { assert ([up.name.value] + n)[1..] == n; } else { assert [] + n == n; }
  }

  function CloseChar(d: Spec): string
    requires d.Item?
  {
    if d.byWord then "w" else "]"
  }

  function WordNames(d: Spec): seq<Text>
    requires d.Item?
  {
    if d.name.Some? && d.byWord then [d.name.value] else []
  }

  function Rest(d: Spec, f: string): string
    requires d.Item?
  {
    if d.value.GroupV? then "[" + (DeconsFormat(d.inner) + (CloseChar(d) + f)) else Letter(d.value) + f
  }

  lemma ItemParts(d: Spec, f: string, n: seq<Text>)
    requires d.Item?
    ensures ItemFormat(d) + f == Attr(d) + Rest(d, f)
    ensures ItemNames(d) + n
         == (if d.name.Some? && !d.byWord then [d.name.value] else []) + (DeconsNames(d.inner) + (WordNames(d) + n))
  {
    hide DeconsFormat, DeconsNames;
    var at := if d.name.Some? && !d.byWord then [d.name.value] else [];
    Regroup3(at, DeconsNames(d.inner), WordNames(d), n);
    if d.value.GroupV? {
      var body := "[" + DeconsFormat(d.inner) + CloseChar(d);
      Regroup3("[", DeconsFormat(d.inner), CloseChar(d), f);
      Regroup2(Attr(d), body, f);
    } else {
      Regroup2(Attr(d), Letter(d.value), f);
    }
  }

  /** An item up to the point where its letter is read or its group entered. */
  lemma DeconsEnter(d: Spec, trail: Trail, f: string, n: seq<Text>, o: seq<Value>)
    requires SpecOk(d) && d.Item? && 'G' !in f
    ensures DeconsRun(Shape(d), trail, ItemFormat(d) + f, ItemNames(d) + n, o)
      == if d.value.GroupV? then
           DeconsRun(Shape(d.inner), Under(Shape(d), trail),
                     DeconsFormat(d.inner) + (CloseChar(d) + f), DeconsNames(d.inner) + (WordNames(d) + n), o)
         else DeconsRun(Next(Shape(d)), trail, f, n, o + [d.value])
  {
    hide DeconsRun, DeconsFormat, DeconsNames, ItemFormat, ItemNames;
    var here, names := Shape(d), DeconsNames(d.inner) + (WordNames(d) + n);
    ItemParts(d, f, n);
    if d.name.Some? && !d.byWord {
      DeconsAttr(here, trail, d.name.value, Rest(d, f), names, o);
    } else {
      assert [] + names == names && "" + Rest(d, f) == Rest(d, f);
    }
    if d.value.GroupV? {
      DeconsOpen(here, trail, DeconsFormat(d.inner) + (CloseChar(d) + f), names, o);
    } else {
      DeconsNothing("", WordNames(d) + n);
      assert WordNames(d) + n == n;
      DeconsData(here, trail, f, n, o);
    }
  }

  /** With no empty group inside, an item's format takes its data out and steps to the next sibling. */
  lemma {:induction false} DeconsItem(d: Spec, trail: Trail, f: string, n: seq<Text>, o: seq<Value>)
    requires SpecOk(d) && d.Item? && (d.value.GroupV? ==> d.inner.Item? && NonemptyGroups(d.inner)) && 'G' !in f
    ensures DeconsRun(Shape(d), trail, ItemFormat(d) + f, ItemNames(d) + n, o)
         == DeconsRun(Next(Shape(d)), trail, f, n, o + ItemData(d))
    decreases d, 0
  {
    hide DeconsRun, DeconsFormat, DeconsNames, ItemFormat, ItemNames;
    DeconsEnter(d, trail, f, n, o);
    if d.value.GroupV? {
      DeconsChain(d.inner, Under(Shape(d), trail), CloseChar(d) + f, WordNames(d) + n, o);
      LastIsNode(Shape(d.inner));
      DeconsClose(Last(Shape(d.inner)), Shape(d), trail, d.byWord, f, n, o + Popped(d.inner));
    }
  }

  lemma {:induction t} LastIsNode(t: Tree)
    requires t.Node?
    ensures Last(t).Node?
  {}

  lemma {:induction false} DeconsChain(d: Spec, trail: Trail, f: string, n: seq<Text>, o: seq<Value>)
    requires SpecOk(d) && d.Item? && NonemptyGroups(d) && 'G' !in f
    ensures DeconsRun(Shape(d), trail, DeconsFormat(d) + f, DeconsNames(d) + n, o)
         == DeconsRun(Last(Shape(d)), trail, f, n, o + Popped(d))
    decreases d, 1
  {
    hide DeconsRun, DeconsFormat, DeconsNames, ItemFormat, ItemNames;
    DeconsParts(d, f, n);
    var f1, n1 := DeconsFormat(d.before) + f, DeconsNames(d.before) + n;
    DeconsItem(d, trail, f1, n1, o);
    if d.before.Item? {
      DeconsChain(d.before, trail, f, n, o + ItemData(d));
      assert o + ItemData(d) + Popped(d.before) == o + Popped(d);
    } else {
      DeconsNothing(f, n);
      assert o + ItemData(d) == o + Popped(d);
    }
  }

  lemma DeconsNothing(f: string, n: seq<Text>)
    ensures DeconsFormat(End) + f == f && DeconsNames(End) + n == n
  {}

  /** An empty group anywhere in the list runs the walk out of the tree. */
  lemma {:induction false} DeconsStuck(d: Spec, trail: Trail, f: string, n: seq<Text>, o: seq<Value>)
    requires SpecOk(d) && d.Item? && !NonemptyGroups(d) && 'G' !in f
    ensures DeconsRun(Shape(d), trail, DeconsFormat(d) + f, DeconsNames(d) + n, o).Mismatch?
    decreases d
  {
    hide DeconsRun, DeconsFormat, DeconsNames, ItemFormat, ItemNames;
    DeconsParts(d, f, n);
    var f1, n1 := DeconsFormat(d.before) + f, DeconsNames(d.before) + n;
    if d.value.GroupV? && (d.inner.End? || !NonemptyGroups(d.inner)) {
      DeconsEnter(d, trail, f1, n1, o);
      var f2, n2 := CloseChar(d) + f1, WordNames(d) + n1;
      if d.inner.End? {
        DeconsNothing(f2, n2);
        DeconsOffTree(Under(Shape(d), trail), f2, n2, o);
      } else {
        DeconsStuck(d.inner, Under(Shape(d), trail), f2, n2, o);
      }
    } else {
      DeconsItem(d, trail, f1, n1, o);
      DeconsStuck(d.before, trail, f, n, o + ItemData(d));
    }
  }

  lemma DeconsOffTree(trail: Trail, f: string, n: seq<Text>, o: seq<Value>)
    requires f != "" && 'G' !in f
    ensures DeconsRun(Nil, trail, f, n, o).Mismatch?
  {}

  /**
   Node_decons with the group-wise reversed format undoes Node_cons, returning the data arguments
   in reverse order, exactly when no group of the format is empty; otherwise it fails.
   */
  lemma DeconsUndoesCons(d: Spec)
    requires RootSpec(d)
    ensures Cons(ConsFormat(d), ConsArgs(d)) == Made(Shape(d))
    ensures NonemptyGroups(d) ==> Decons(Shape(d), DeconsFormat(d), DeconsNames(d)) == Got(Reversed(Data(d)))
    ensures !NonemptyGroups(d) ==> Decons(Shape(d), DeconsFormat(d), DeconsNames(d)).Mismatch?
  {
    ConsMakesShape(d);
    hide DeconsRun, ConsRun, DeconsFormat, DeconsNames;
    assert DeconsFormat(d) + "" == DeconsFormat(d) && DeconsNames(d) + [] == DeconsNames(d);
    if NonemptyGroups(d) {
      DeconsChain(d, Rootless, "", [], []);
      PoppedIsReversed(d);
      assert [] + Popped(d) == Popped(d);
      DeconsDone(Last(Shape(d)), Popped(d));
    } else {
      DeconsStuck(d, Rootless, "", [], []);
    }
  }

  lemma DeconsDone(here: Tree, o: seq<Value>)
    ensures DeconsRun(here, Rootless, "", [], o) == Got(o)
  {}
}
