/**
 stackish_parser and Node_parse_seq: the scanner loop over its tables, building linked nodes, and
 the driver that restarts it behind every blob.
 */
module ParserObject {
  import opened Bytes
  import opened Scanner
  import Stackish
  import opened Nodes
  import opened RoundTrip

  type Flow = Stackish.Flow

  class StackishParser {
    var cs: nat
    var more: nat
    var mark: nat
    var errno: bool
    const tree: Builder

    ghost predicate Valid()
      reads this, tree, tree.nodes
    {
      tree.Valid() && cs < NSTATES
    }

    /** The parser's fields as one value. */
    ghost function State(): Stackish.Parser
      requires Valid()
      reads this, tree, tree.nodes
    {
      Stackish.Parser(cs, mark, more, tree.Spine(), errno)
    }

    constructor ()
      ensures Valid() && State() == Stackish.INIT && fresh(tree) && tree.nodes == {}
    {
      cs, more, mark, errno := READY, 0, 0, false;
      tree := new Builder();
    }

    /** handle_push. */
    method HandlePush(v: Stackish.Value) returns (f: Flow)
      requires Valid()
      modifies this, tree, tree.nodes
      ensures Valid() && fresh(tree.nodes - old(tree.nodes))
      ensures (State(), f) == Stackish.PushText(old(State()), v)
    {
      if tree.current == null || (v.NumberV? && v.n >= TWO64) { return Stackish.Break; }
      tree.Push(v);
      return Stackish.Go;
    }

    /** handle_word and handle_group. */
    method HandleWord(name: Option<Text>) returns (f: Flow)
      requires Valid()
      modifies this, tree, tree.nodes
      ensures Valid() && fresh(tree.nodes - old(tree.nodes))
      ensures (State(), f) == Stackish.EndGroup(old(State()), name)
    {
      if tree.current == null { return Stackish.Break; }
      var done := tree.Close(name);
      return if done then Stackish.Break else Stackish.Go;
    }

    /** One scanner action. */
    method Do(a: Act, buf: Text, p: nat) returns (f: Flow)
      requires Valid() && p <= |buf|
      modifies this, tree, tree.nodes
      ensures Valid() && fresh(tree.nodes - old(tree.nodes))
      ensures (State(), f) == Stackish.Do(a, old(State()), buf, p)
    {
      var text := if mark <= p then buf[mark..p] else [];
      f := Stackish.Go;
      match a
      case NoAct =>
      case Mark => mark := p;
      case Number => f := HandlePush(Stackish.NumberV(Stackish.Digits(text)));
      case Float => f := HandlePush(Stackish.FloatV(text));
      case String => f := HandlePush(Stackish.StringV(text));
      case Start => tree.Start();
      case Blob =>
        f := HandlePush(Stackish.BlobV(text));
        if f == Stackish.Go { more := 0; }
      case Word => f := HandleWord(Some(text));
      case Group => f := HandleWord(None);
      case More =>
        var n := Stackish.Digits(text);
        more, mark, errno := if n < TWO64 then n else TWO64 - 1, p + 1, errno || n >= TWO64;
        if more > 0 { f := Stackish.Break; }
      case Attrib =>
        if tree.current == null { return Stackish.Crash; }
        if tree.current.child == null { return Stackish.Break; }
        tree.NameNewest(text);
    }

    /** A transition: the new state, then its actions until one breaks. */
    method DoMove(m: Move, buf: Text, p: nat) returns (f: Flow)
      requires Valid() && p <= |buf| && m.target < NSTATES
      modifies this, tree, tree.nodes
      ensures Valid() && fresh(tree.nodes - old(tree.nodes))
      ensures (State(), f) == Stackish.DoMove(m, old(State()), buf, p)
    {
      hide Stackish.Do, Builder.Valid, Builder.Spine;
      cs := m.target;
      assert State() == old(State()).(cs := m.target);
      f := Do(m.first, buf, p);
      if f == Stackish.Go { f := Do(m.second, buf, p); }
    }

    /** stackish_parser_execute: the generated scanning loop. */
    method Execute(buf: Text, off: nat) returns (p: nat, crashed: bool)
      requires Valid() && off <= |buf|
      modifies this, tree, tree.nodes
      ensures Valid() && fresh(tree.nodes - old(tree.nodes))
      ensures p <= |buf| && Stackish.Stop(State(), p, crashed) == Stackish.Exec(old(State()), buf, off)
    {
      hide Stackish.DoMove, Trans, Builder.Valid, Builder.Spine;
      p, crashed := off, false;
      while p < |buf| && cs != ERROR
        invariant Valid() && fresh(tree.nodes - old(tree.nodes)) && p <= |buf|
        invariant Stackish.Exec(State(), buf, p) == Stackish.Exec(old(State()), buf, off)
        decreases |buf| - p
      {
        var m := Lookup(cs, buf[p]);
        TargetInRange(cs, buf[p]);
        var f := DoMove(m, buf, p);
        if f != Stackish.Go { return p, f == Stackish.Crash; }
        if cs == ERROR { return; }
        p := p + 1;
      }
    }

    /**
     Node_parse_seq: scan, and as long as a blob is pending jump over its bytes and scan on. The
     linked nodes under `root` hold the tree that the scanner's specification computes.
     */
    static method ParseSeq(buf: Text, from: nat)
      returns (ok: bool, aborted: bool, root: Node?, next: nat, ghost place: Place)
      requires from <= |buf|
      ensures fresh(Objects(place))
      ensures match Stackish.ParseSeq(buf, from)
        case Parsed(t, n) => ok && !aborted && Linked(root, place, null) && TreeAt(place) == t && next == n
        case Failed(n) => !ok && !aborted && next == n
        case Aborted => !ok && aborted
    {
      hide Stackish.Exec, Builder.Valid, Builder.Spine, Linked, TreeAt;
      ok, aborted, root, next, place := false, false, null, from + 1, Nowhere;
      if !Stackish.EndsBlank(buf) { return; }
      var parser := new StackishParser();
      var nread;
      nread, aborted := parser.Execute(buf, from);
      ghost var stop := Stackish.Stop(parser.State(), nread, aborted);
      if aborted { return; }
      if parser.cs == ERROR || parser.errno { return false, false, null, nread + 1, Nowhere; }
      while parser.more > 0 && parser.cs != READY && nread < |buf|
        invariant fresh(parser) && fresh(parser.tree) && fresh(parser.tree.nodes)
        invariant parser.Valid() && nread <= |buf| && parser.cs != ERROR && !parser.errno && !aborted
        invariant stop == Stackish.Stop(parser.State(), nread, false)
        invariant Stackish.Resume(stop, buf) == Stackish.ParseSeq(buf, from)
        decreases |buf| - nread
      {
        if nread + parser.more + 1 >= |buf| { return false, true, null, 0, Nowhere; }
        nread, aborted := parser.Execute(buf, nread + parser.more + 1);
        stop := Stackish.Stop(parser.State(), nread, aborted);
        if aborted { return; }
        if parser.cs == ERROR || parser.errno { return false, false, null, nread + 1, Nowhere; }
      }
      next := nread + 1;
      while next < |buf| && buf[next] == NEWLINE
        invariant Stackish.SkipNewlines(buf, next) == Stackish.SkipNewlines(buf, nread + 1)
      {
        next := next + 1;
      }
      parser.tree.RootHolds();
      ok, root, place := true, parser.tree.root, Whole(parser.tree.path, parser.tree.kids);
    }
  }

  lemma TargetInRange(cs: nat, c: byte)
    ensures Trans(cs, c).target < NSTATES
  {}
}
