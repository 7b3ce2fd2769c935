/**
 The canonical printer on linked nodes, and the round trip from nodes to text to nodes.
 */
module Printer {
  import opened Bytes
  import opened Nodes
  import Stackish
  import RoundTrip
  import ParserObject

  /** Node_catbstr: append a chain of nodes that holds the tree `t`, oldest first. */
  method CatBstr(n: Node?, out: Text, ghost t: Stackish.Tree, ghost pl: Place, ghost parent: Node?) returns (r: Text)
    requires Linked(n, pl, parent) && TreeAt(pl) == t && Stackish.FloatFree(t)
    ensures r == out + Stackish.Print(t)
    decreases pl
  {
    r := out;
    if n == null { return; }
    hide Stackish.Print, Stackish.PrintValue, Stackish.CString;
    assert allocated(Objects(pl)) && allocated(Objects(pl.sibling)) && allocated(Objects(pl.child));
    var open := if n.value.GroupV? then [OPEN, SPACE] else [];
    var name := if n.name.Some? then Stackish.CString(n.name.value) + [SPACE] else [];
    r := CatBstr(n.sibling, r, t.sibling, pl.sibling, parent);
    r := r + open;
    r := CatBstr(n.child, r, t.child, pl.child, n);
    var value := ValueText(n, t);
    r := r + value + name;
    Pieces(t);
    Cat(out, Stackish.Print(t.sibling), open, Stackish.Print(t.child), value, name);
  }

  method ValueText(n: Node, ghost t: Stackish.Tree) returns (v: Text)
    requires t.Node? && t.value == n.value && t.name == n.name && !t.value.FloatV?
    ensures v == Stackish.PrintValue(t)
  {
    v := [];
    match n.value {
      case NumberV(k) => v := Decimal(k) + [SPACE];
      case StringV(s) => v := [QUOTE] + Stackish.CString(s) + [QUOTE, SPACE];
      case BlobV(b) => v := [TICK] + Decimal(|b|) + [COLON] + b + [TICK, SPACE];
      case GroupV =>
        if n.name == None || (n.name.value != [] && n.name.value[0] == AT) { v := [CLOSE, SPACE]; }
    }
  }

  lemma Pieces(t: Stackish.Tree)
    requires t.Node? && Stackish.FloatFree(t)
    ensures Stackish.Print(t) == Stackish.Print(t.sibling)
      + ((if t.value.GroupV? then [OPEN, SPACE] else []) + Stackish.Print(t.child) + Stackish.PrintValue(t)
         + if t.name.Some? then Stackish.CString(t.name.value) + [SPACE] else [])
  {
    hide Stackish.PrintValue, Stackish.CString;
  }

  lemma Cat(out: Text, s: Text, a: Text, b: Text, c: Text, d: Text)
    ensures out + s + a + b + c + d == out + (s + (a + b + c + d))
  {}

  /** Node_bstr on a root. */
  method Bstr(root: Node, ghost t: Stackish.Tree, ghost pl: Place) returns (text: Text)
    requires Linked(root, pl, null) && TreeAt(pl) == t && Stackish.FloatFree(t)
    ensures text == Stackish.Canonical(t)
  {
    text := CatBstr(root, [], t, pl, null);
    text := text + [NEWLINE];
  }

  /** Linked nodes, printed and parsed, come back as other nodes that hold the same tree, with the whole text read. */
  method PrintThenParse(root: Node, ghost t: Stackish.Tree, ghost pl: Place)
    returns (copy: Node?, text: Text, next: nat, ghost place: Place)
    requires Linked(root, pl, null) && TreeAt(pl) == t && Stackish.Document(t)
    ensures fresh(Objects(place)) && Linked(copy, place, null) && TreeAt(place) == t && next == |text|
  {
    hide Stackish.ParseSeq, Stackish.Canonical, Linked;
    text := Bstr(root, t, pl);
    RoundTrip.CanonicalRoundTrip(t);
    var ok, aborted;
    ok, aborted, copy, next, place := ParserObject.StackishParser.ParseSeq(text, 0);
  }
}
