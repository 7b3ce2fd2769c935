/**
 Stackish trees in the shape of the C `Node` struct (next sibling, first child), the canonical
 printer, and the scanner's tree-building actions as a function on the path of open groups.
 */
module Stackish {
  import opened Bytes
  import opened Scanner

  /** A node's payload. strtod's value is represented by the text it was given. */
  datatype Value = NumberV(n: nat) | StringV(s: Text) | BlobV(b: Text) | FloatV(text: Text) | GroupV

  /** A node with its younger-to-older sibling chain and its child chain; Nil is NULL. */
  datatype Tree = Nil | Node(value: Value, name: Option<Text>, sibling: Tree, child: Tree)

  // ---------------------------------------------------------------- printing

  predicate AnonymousClose(d: Tree)
    requires d.Node?
  {
    d.value.GroupV? && (d.name == None || (d.name.value != [] && d.name.value[0] == AT))
  }

  /** Text up to its first NUL, which is all that "%s" prints. */
  function CString(s: Text): Text {
    if s == [] || s[0] == 0 then [] else [s[0]] + CString(s[1..])
  }

  function PrintValue(d: Tree): Text
    requires d.Node? && !d.value.FloatV?
  {
    match d.value
    case NumberV(n) => Decimal(n) + [SPACE]
    case StringV(s) => [QUOTE] + CString(s) + [QUOTE, SPACE]
    case BlobV(b) => [TICK] + Decimal(|b|) + [COLON] + b + [TICK, SPACE]
    case GroupV => if AnonymousClose(d) then [CLOSE, SPACE] else []
    case FloatV(t) => t
  }

  predicate FloatFree(d: Tree) {
    d.Nil? || (!d.value.FloatV? && FloatFree(d.sibling) && FloatFree(d.child))
  }

  /** Node_catbstr with ' ' as separator, following siblings. */
  function Print(d: Tree): Text
    requires FloatFree(d)
    decreases d, 1
  {
    if d.Nil? then [] else
      Print(d.sibling) + PrintOne(d)
  }

  /** Node_catbstr on the node itself: opening, children, payload or closing, name. */
  function PrintOne(d: Tree): Text
    requires d.Node? && FloatFree(d)
    decreases d, 0
  {
    (if d.value.GroupV? then [OPEN, SPACE] else [])
    + Print(d.child)
    + PrintValue(d)
    + (if d.name == None then [] else CString(d.name.value) + [SPACE])
  }

  /** Node_bstr: the canonical form. */
  function Canonical(d: Tree): Text
    requires FloatFree(d)
  {
    Print(d) + [NEWLINE]
  }

  /** What a tree must satisfy for its text to say what it is. */
  predicate WellFormed(d: Tree): (ok: bool)
    ensures ok ==> FloatFree(d)
  {
    d.Nil? ||
    (&& (match d.value
         case NumberV(n) => n < TWO64
         case StringV(s) => QUOTE !in s && 0 !in s
         case BlobV(b) => |b| < TWO64
         case FloatV(_) => false
         case GroupV => true)
     && (d.value.GroupV? || d.child.Nil?)
     && (d.name.Some? ==> IsAttr(d.name.value) || (d.value.GroupV? && IsWord(d.name.value)))
     && WellFormed(d.sibling) && WellFormed(d.child))
  }

  /** A document: a root group named by a word. */
  predicate Document(d: Tree): (ok: bool)
    ensures ok ==> FloatFree(d)
  {
    && WellFormed(d) && d.Node? && d.sibling.Nil?
    && d.value.GroupV? && d.name.Some? && IsWord(d.name.value)
  }

  lemma {:induction false} CStringWhole(s: Text)
    requires 0 !in s
    ensures CString(s) == s
  {
    if s == [] {
    } else {
      CStringWhole(s[1..]);
    }
  }

  // ---------------------------------------------------------------- building

  /** The open groups from the innermost (`current`) outwards to the root. */
  datatype Spine = Bottom | Frame(name: Option<Text>, sibling: Tree, kids: Tree, up: Spine)

  /** Node_create with a parent: LIST_ADD to the front of the current group's children. */
  function Push(sp: Spine, v: Value): Spine
    requires sp.Frame?
  {
    sp.(kids := Node(v, None, sp.kids, Nil))
  }

  /** handle_start. */
  function StartGroup(sp: Spine): Spine {
    if sp.Bottom? then Frame(None, Nil, Nil, Bottom)
    else Frame(None, sp.kids, Nil, sp)
  }

  /** handle_word: name the current group; leave it for its parent unless it is the root. */
  function CloseGroup(sp: Spine, name: Option<Text>): Spine
    requires sp.Frame?
  {
    if sp.up.Bottom? then sp.(name := name)
    else sp.up.(kids := Node(GroupV, name, sp.sibling, sp.kids))
  }

  /** handle_attr: name the newest child of the current group. */
  function NameChild(sp: Spine, name: Text): Spine
    requires sp.Frame? && sp.kids.Node?
  {
    sp.(kids := sp.kids.(name := Some(name)))
  }

  /** The tree hanging off the root while the groups of `sp` are still open. */
  function RootTree(sp: Spine): Tree {
    if sp.Bottom? then Nil else Enclose(sp.up, Node(GroupV, sp.name, sp.sibling, sp.kids))
  }

  function Enclose(up: Spine, t: Tree): Tree {
    if up.Bottom? then t else Enclose(up.up, Node(GroupV, up.name, up.sibling, t))
  }

  // ---------------------------------------------------------------- the scanner run

  /** stackish_parser's fields, with `root`/`current` as the spine, and whether errno is set. */
  datatype Parser = Parser(cs: nat, mark: nat, more: nat, spine: Spine, errno: bool)

  datatype Flow = Go | Break | Crash

  const INIT := Parser(READY, 0, 0, Bottom, false)

  /** handle_push: refused without an open group, or when the number does not fit 64 bits. */
  function PushText(s: Parser, v: Value): (Parser, Flow) {
    if s.spine.Bottom? || (v.NumberV? && v.n >= TWO64) then (s, Break)
    else (s.(spine := Push(s.spine, v)), Go)
  }

  /** handle_word: refused without an open group; the root's end stops the scanner. */
  function EndGroup(s: Parser, name: Option<Text>): (Parser, Flow) {
    if s.spine.Bottom? then (s, Break)
    else (s.(spine := CloseGroup(s.spine, name)), if s.spine.up.Bottom? then Break else Go)
  }

  /** strtoull/strtoul on the digits between the mark and `p`. */
  function Digits(text: Text): nat {
    if AllDigits(text) then DecimalValue(text) else 0
  }

  /** One scanner action at position `p`. */
  function Do(a: Act, s: Parser, buf: Text, p: nat): (Parser, Flow)
    requires p <= |buf|
  {
    var text := if s.mark <= p then buf[s.mark..p] else [];
    match a
    case NoAct => (s, Go)
    case Mark => (s.(mark := p), Go)
    case Number => PushText(s, NumberV(Digits(text)))
    case Float => PushText(s, FloatV(text))
    case String => PushText(s, StringV(text))
    case Start => (s.(spine := StartGroup(s.spine)), Go)
    case Blob =>
      var (s', f) := PushText(s, BlobV(text));
      (if f == Go then s'.(more := 0) else s', f)
    case Word => EndGroup(s, Some(text))
    case Group => EndGroup(s, None)
    case More =>
      var n := Digits(text);
      var s' := s.(more := if n < TWO64 then n else TWO64 - 1, mark := p + 1, errno := s.errno || n >= TWO64);
      (s', if s'.more > 0 then Break else Go)
    case Attrib =>
      if s.spine.Bottom? then (s, Crash)
      else if s.spine.kids.Nil? then (s, Break)
      else (s.(spine := NameChild(s.spine, text)), Go)
  }

  /** A transition's action list, cut short by the first action that breaks. */
  function DoMove(m: Move, s: Parser, buf: Text, p: nat): (Parser, Flow)
    requires p <= |buf|
  {
    var (s1, f1) := Do(m.first, s.(cs := m.target), buf, p);
    if f1 != Go then (s1, f1) else Do(m.second, s1, buf, p)
  }

  datatype Stop = Stop(parser: Parser, nread: nat, crashed: bool)

  /** stackish_parser_execute from offset `p`. */
  function Exec(s: Parser, buf: Text, p: nat): (r: Stop)
    requires p <= |buf|
    ensures p <= r.nread <= |buf|
    decreases |buf| - p
  {
    if p == |buf| || s.cs == ERROR then Stop(s, p, false) else
      var (s', f) := DoMove(Trans(s.cs, buf[p]), s, buf, p);
      if f != Go || s'.cs == ERROR then Stop(s', p, f == Crash)
      else Exec(s', buf, p + 1)
  }

  datatype Parsed = Parsed(root: Tree, from: nat) | Failed(from: nat) | Aborted

  /** *from after a run of newlines. */
  function SkipNewlines(buf: Text, from: nat): (r: nat)
    ensures from <= r
    decreases |buf| - from
  {
    if from < |buf| && buf[from] == NEWLINE then SkipNewlines(buf, from + 1) else from
  }

  /**
   The rest of Node_parse_seq once execute has stopped: as long as a blob is pending, jump over
   it and resume; then report the root and the position after the document.
   */
  function Resume(r: Stop, buf: Text): Parsed
    requires r.nread <= |buf|
    decreases |buf| - r.nread
  {
    if r.crashed then Aborted
    else if r.parser.cs == ERROR || r.parser.errno then Failed(r.nread + 1)
    else if r.parser.more > 0 && r.parser.cs != READY && r.nread < |buf| then
      if r.nread + r.parser.more + 1 < |buf| then
        Resume(Exec(r.parser, buf, r.nread + r.parser.more + 1), buf)
      else Aborted
    else Parsed(RootTree(r.parser.spine), SkipNewlines(buf, r.nread + 1))
  }

  predicate EndsBlank(buf: Text) { |buf| > 0 && buf[|buf| - 1] in {SPACE, NEWLINE, TAB} }

  /** Node_parse_seq. */
  function ParseSeq(buf: Text, from: nat): Parsed
    requires from <= |buf|
  {
    if !EndsBlank(buf) then Failed(from + 1) else Resume(Exec(INIT, buf, from), buf)
  }
}
