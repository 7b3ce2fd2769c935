/**
 Flat messages: a group of data values named by a word, as every step of the key exchange builds
 them with Node_cons and takes them apart with Node_decons.
 */
module Messages {
  import opened Bytes
  import opened Stackish
  import opened RoundTrip
  import opened Format

  const HEADER: Text := [104, 101, 97, 100, 101, 114]   // "header"

  // ---------------------------------------------------------------- flat messages

  predicate AllData(vs: seq<Value>) { forall i :: 0 <= i < |vs| ==> !vs[i].GroupV? }

  function LetterOf(v: Value): char {
    match v
    case NumberV(_) => 'n'
    case FloatV(_) => 'f'
    case BlobV(_) => 'b'
    case StringV(_) => 's'
    case GroupV => '['
  }

  function Letters(vs: seq<Value>): string { seq(|vs|, i requires 0 <= i < |vs| => LetterOf(vs[i])) }

  function Vals(vs: seq<Value>): seq<Arg> { seq(|vs|, i requires 0 <= i < |vs| => Val(vs[i])) }

  /** A format of data letters only. */
  function Row(vs: seq<Value>): Spec {
    if vs == [] then End else Spec.Item(vs[|vs| - 1], None, false, Row(vs[..|vs| - 1]), End)
  }

  /** A group of data values named by a word: what Node_cons makes of "[...w". */
  function Message(vs: seq<Value>, word: Text): Tree { Shape(MessageSpec(vs, word)) }

  function MessageSpec(vs: seq<Value>, word: Text): Spec { Spec.Item(GroupV, Some(word), true, End, Row(vs)) }

  lemma {:induction false} RowData(vs: seq<Value>)
    requires AllData(vs)
    ensures SpecOk(Row(vs)) && NonemptyGroups(Row(vs)) && Data(Row(vs)) == vs && DeconsNames(Row(vs)) == []
  {
    if vs == [] {
    } else {
      RowData(vs[..|vs| - 1]);
      assert vs == vs[..|vs| - 1] + [vs[|vs| - 1]];
    }
  }

  lemma LetterIs(v: Value)
    requires !v.GroupV?
    ensures Letter(v) == [LetterOf(v)]
  {}

  lemma ItemCons(v: Value, before: Spec)
    requires !v.GroupV?
    ensures ConsFormat(Spec.Item(v, None, false, before, End)) == ConsFormat(before) + [LetterOf(v)]
    ensures ConsArgs(Spec.Item(v, None, false, before, End)) == ConsArgs(before) + [Val(v)]
  {
    var d := Spec.Item(v, None, false, before, End);
    ConsNothing("", []);
    ConsParts(d, "", []);
    LetterIs(v);
    hide ConsFormat, ConsArgs, Letter;
    assert ConsFormat(d) + "" == ConsFormat(d) && ConsArgs(d) + [] == ConsArgs(d);
    assert ConsFormat(End) + "" == ConsFormat(End) == "";
    assert Opening(d) == [LetterOf(v)] && Ending(d) == "";
    assert BodyArgs(d, []) == [Val(v)];
  }

  lemma ItemDecons(v: Value, before: Spec)
    requires !v.GroupV?
    ensures DeconsFormat(Spec.Item(v, None, false, before, End)) == [LetterOf(v)] + DeconsFormat(before)
  {
    var d := Spec.Item(v, None, false, before, End);
    DeconsParts(d, "", []);
    LetterIs(v);
    hide DeconsFormat, Letter;
    assert DeconsFormat(d) + "" == DeconsFormat(d) && DeconsFormat(before) + "" == DeconsFormat(before);
    assert ItemFormat(d) == [LetterOf(v)];
  }

  lemma LettersNext(vs: seq<Value>)
    requires vs != []
    ensures Letters(vs) == Letters(vs[..|vs| - 1]) + [LetterOf(vs[|vs| - 1])]
    ensures Vals(vs) == Vals(vs[..|vs| - 1]) + [Val(vs[|vs| - 1])]
    ensures Letters(Reversed(vs)) == [LetterOf(vs[|vs| - 1])] + Letters(Reversed(vs[..|vs| - 1]))
  {
    assert Reversed(vs) == [vs[|vs| - 1]] + Reversed(vs[..|vs| - 1]);
  }

  lemma {:induction false} RowCons(vs: seq<Value>)
    requires AllData(vs)
    ensures ConsFormat(Row(vs)) == Letters(vs) && ConsArgs(Row(vs)) == Vals(vs)
  {
    if vs == [] {
    } else {
      var init, last := vs[..|vs| - 1], vs[|vs| - 1];
      RowCons(init);
      ItemCons(last, Row(init));
      LettersNext(vs);
      hide ConsFormat, ConsArgs, Letters, Vals;
    }
  }

  lemma {:induction false} RowDecons(vs: seq<Value>)
    requires AllData(vs)
    ensures DeconsFormat(Row(vs)) == Letters(Reversed(vs))
  {
    if vs == [] {
    } else {
      var init, last := vs[..|vs| - 1], vs[|vs| - 1];
      RowDecons(init);
      ItemDecons(last, Row(init));
      LettersNext(vs);
      hide DeconsFormat, Letters, Reversed;
    }
  }

  lemma MessageIsSpec(vs: seq<Value>, word: Text)
    requires AllData(vs) && vs != []
    ensures RootSpec(MessageSpec(vs, word)) && NonemptyGroups(MessageSpec(vs, word))
    ensures Data(MessageSpec(vs, word)) == vs
  {
    RowData(vs);
    var d := MessageSpec(vs, word);
    assert d.inner.Item?;
    assert Data(d) == Data(d.inner);
  }

  lemma MessageCons(vs: seq<Value>, word: Text)
    requires AllData(vs) && vs != []
    ensures ConsFormat(MessageSpec(vs, word)) == "[" + (Letters(vs) + "w")
    ensures ConsArgs(MessageSpec(vs, word)) == Vals(vs) + [Name(word)]
  {
    hide ConsFormat, ConsArgs, Row, NonemptyGroups, Data;
    RowCons(vs);
    MessageIsSpec(vs, word);
    RootSpecParts(MessageSpec(vs, word));
  }

  lemma MessageDecons(vs: seq<Value>, word: Text)
    requires AllData(vs) && vs != []
    ensures DeconsFormat(MessageSpec(vs, word)) == "[" + (Letters(Reversed(vs)) + "w")
    ensures DeconsNames(MessageSpec(vs, word)) == [word]
  {
    var d := MessageSpec(vs, word);
    DeconsNothing("", []);
    hide Letters, Reversed, DeconsFormat, DeconsNames, Row;
    RowDecons(vs);
    RowData(vs);
    DeconsParts(d, "", []);
    assert DeconsFormat(d) + "" == DeconsFormat(d) && DeconsNames(d) + [] == DeconsNames(d);
    assert DeconsFormat(End) + "" == DeconsFormat(End) && DeconsNames(End) + [] == DeconsNames(End);
    assert ItemFormat(d) == "[" + (Letters(Reversed(vs)) + "w") && ItemNames(d) == [word];
  }

  /** What Node_decons takes out of a node with "[" `letters` "w" and the word `word`. */
  function Fields(t: Tree, letters: string, word: Text): Option<seq<Value>>
    requires 'G' !in letters
  {
    match Decons(t, "[" + (letters + "w"), [word])
    case Got(outs) => Some(outs)
    case _ => None
  }

  /** The pairs of formats the handshake uses build a message and take it apart again. */
  lemma MessageFields(vs: seq<Value>, word: Text)
    requires AllData(vs) && vs != []
    ensures Cons("[" + (Letters(vs) + "w"), Vals(vs) + [Name(word)]) == Made(Message(vs, word))
    ensures 'G' !in Letters(Reversed(vs))
    ensures Fields(Message(vs, word), Letters(Reversed(vs)), word) == Some(Reversed(vs))
  {
    var d := MessageSpec(vs, word);
    hide ConsRun, DeconsRun, ConsFormat, ConsArgs, DeconsFormat, DeconsNames, Data, NonemptyGroups, Row, Shape;
    MessageIsSpec(vs, word);
    MessageCons(vs, word);
    MessageDecons(vs, word);
    DeconsUndoesCons(d);
  }

  // ---------------------------------------------------------------- messages as documents

  predicate Printable(v: Value) {
    match v
    case NumberV(n) => n < TWO64
    case StringV(s) => QUOTE !in s && 0 !in s
    case BlobV(b) => |b| < TWO64
    case _ => false
  }

  predicate AllPrintable(vs: seq<Value>) { forall i :: 0 <= i < |vs| ==> Printable(vs[i]) }

  predicate NoFloats(vs: seq<Value>) { forall i :: 0 <= i < |vs| ==> !vs[i].FloatV? }

  lemma LeafPrints(v: Value, before: Tree)
    requires !v.FloatV? && FloatFree(before)
    ensures |Print(before)| <= |Print(Node(v, None, before, Nil))|
    ensures v.BlobV? ==> |v.b| <= |Print(Node(v, None, before, Nil))|
  {
    var t := Node(v, None, before, Nil);
    assert |PrintOne(t)| >= |PrintValue(t)| by { hide PrintValue; }
    assert v.BlobV? ==> |PrintValue(t)| >= |v.b| by { hide Decimal, Print, PrintOne; }
  }

  lemma {:induction false} RowPrints(vs: seq<Value>)
    requires NoFloats(vs)
    ensures FloatFree(Shape(Row(vs)))
    ensures forall i :: 0 <= i < |vs| && vs[i].BlobV? ==> |vs[i].b| <= |Print(Shape(Row(vs)))|
  {
    hide Print;
    if vs == [] {
    } else {
      var init, v := vs[..|vs| - 1], vs[|vs| - 1];
      RowPrints(init);
      assert Shape(Row(vs)) == Node(v, None, Shape(Row(init)), Nil);
      LeafPrints(v, Shape(Row(init)));
      assert forall i :: 0 <= i < |init| ==> vs[i] == init[i];
    }
  }

  lemma {:induction false} RowWellFormed(vs: seq<Value>)
    requires AllPrintable(vs)
    ensures WellFormed(Shape(Row(vs)))
  {
    if vs == [] {
    } else {
      RowWellFormed(vs[..|vs| - 1]);
    }
  }

  /** Any message with a word for a name is a document, and a blob in it is no longer than its text. */
  lemma MessagePrints(vs: seq<Value>, word: Text)
    requires NoFloats(vs)
    ensures FloatFree(Message(vs, word))
    ensures forall i :: 0 <= i < |vs| && vs[i].BlobV? ==> |vs[i].b| <= |Print(Message(vs, word))|
    ensures AllPrintable(vs) && IsWord(word) ==> Document(Message(vs, word))
  {
    RowPrints(vs);
    var t := Message(vs, word);
    assert t == Node(GroupV, Some(word), Nil, Shape(Row(vs)));
    assert |Print(t.child)| <= |PrintOne(t)| by { hide PrintValue, Row, Shape; }
    if AllPrintable(vs) { RowWellFormed(vs); }
  }

  // ---------------------------------------------------------------- reading any message

  predicate FieldLetters(ls: string) { forall i :: 0 <= i < |ls| ==> ls[i] in "nbs" }

  predicate IsA(c: char, v: Value) { if c == 'n' then v.NumberV? else if c == 'b' then v.BlobV? else v.StringV? }

  /** The `i`-th node in a chain, the last one standing in for those that are missing. */
  function NthOf(chain: Tree, i: nat): (t: Tree)
    ensures t.Node? <==> chain.Node?
    decreases i
  {
    if i == 0 || chain.Nil? then chain
    else if chain.sibling.Nil? then chain
    else NthOf(chain.sibling, i - 1)
  }

  /** The message has a field of every kind asked for, newest first, and the name. */
  predicate HasFields(t: Tree, ls: string, word: Text) {
    && t.Node? && t.child.Node? && t.name == Some(word)
    && forall i :: 0 <= i < |ls| ==> IsA(ls[i], NthOf(t.child, i).value)
  }

  function FieldsOf(t: Tree, n: nat): seq<Value>
    requires t.Node? && t.child.Node?
  {
    seq(n, i requires 0 <= i < n => NthOf(t.child, i).value)
  }

  lemma {:induction false} NthNext(chain: Tree, i: nat)
    ensures NthOf(chain, i + 1) == Next(NthOf(chain, i))
  {
    if chain.Nil? || chain.sibling.Nil? || i == 0 {
    } else {
      NthNext(chain.sibling, i - 1);
    }
  }

  lemma FieldStep(here: Tree, t: Tree, c: char, f: string, word: Text, o: seq<Value>)
    requires 'G' !in f && c in "nbs" && here.Node?
    ensures DeconsRun(here, Under(t, Rootless), [c] + f, [word], o) ==
      if IsA(c, here.value) then DeconsRun(Next(here), Under(t, Rootless), f, [word], o + [here.value]) else Mismatch(o)
  {
    assert ([c] + f)[1..] == f;
  }

  lemma {:induction false} FieldRun(t: Tree, ls: string, k: nat, word: Text)
    requires t.Node? && t.child.Node? && FieldLetters(ls) && k <= |ls|
    ensures 'G' !in ls[k..] + "w"
    ensures var r := DeconsRun(NthOf(t.child, k), Under(t, Rootless), ls[k..] + "w", [word], FieldsOf(t, k));
      if t.name == Some(word) && forall i :: k <= i < |ls| ==> IsA(ls[i], NthOf(t.child, i).value)
      then r == Got(FieldsOf(t, |ls|)) else r.Mismatch?
    decreases |ls| - k
  {
    NthNext(t.child, k);
    if k == |ls| {
      assert ls[k..] + "w" == "w" && "w"[1..] == [];
    } else {
      var here := NthOf(t.child, k);
      FieldRun(t, ls, k + 1, word);
      assert ls[k..] + "w" == [ls[k]] + (ls[k + 1..] + "w");
      hide DeconsRun;
      FieldStep(here, t, ls[k], ls[k + 1..] + "w", word, FieldsOf(t, k));
      assert FieldsOf(t, k + 1) == FieldsOf(t, k) + [here.value];
    }
  }

  lemma DeconsOpens(t: Tree, f: string, word: Text)
    requires t.Node? && 'G' !in f && f != []
    ensures DeconsRun(t, Rootless, "[" + f, [word], []) == DeconsRun(t.child, Under(t, Rootless), f, [word], [])
    ensures t.child.Nil? ==> DeconsRun(t.child, Under(t, Rootless), f, [word], []) == Mismatch([])
  {
    assert ("[" + f)[1..] == f;
  }

  /**
   Node_decons with the format of a flat message succeeds exactly on a message of that name whose newest
   fields are of the kinds asked for, and hands these out.
   */
  lemma FlatReading(t: Tree, ls: string, word: Text)
    requires t.Node? && FieldLetters(ls) && ls != []
    ensures 'G' !in "[" + (ls + "w")
    ensures Decons(t, "[" + (ls + "w"), [word]).Got? <==> HasFields(t, ls, word)
    ensures HasFields(t, ls, word) ==> Decons(t, "[" + (ls + "w"), [word]) == Got(FieldsOf(t, |ls|))
  {
    var f := "[" + (ls + "w");
    assert f[1..] == ls + "w" && ls[0..] == ls;
    hide DeconsRun;
    DeconsOpens(t, ls + "w", word);
    assert t.child.Node? ==> FieldsOf(t, 0) == [];
    if t.child.Node? { FieldRun(t, ls, 0, word); }
  }
}
