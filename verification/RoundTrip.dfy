/**
 Parsing the canonical text of a tree gives back that tree and stops right behind it, through any
 nesting and any number of blobs the scanner has to be restarted behind.
 */
module RoundTrip {
  import opened Bytes
  import opened Scanner
  import opened Stackish

  /** `t` stands in `buf` at offset `p`. */
  predicate At(buf: Text, p: nat, t: Text) {
    p + |t| <= |buf| && buf[p..p + |t|] == t
  }

  lemma AtSplit(buf: Text, p: nat, a: Text, b: Text)
    requires At(buf, p, a + b)
    ensures At(buf, p, a) && At(buf, p + |a|, b)
  {
    assert buf[p..p + |a|] == (a + b)[..|a|];
    assert buf[p + |a|..p + |a| + |b|] == (a + b)[|a|..];
  }

  lemma AtIndex(buf: Text, p: nat, t: Text, i: nat)
    requires At(buf, p, t) && i < |t|
    ensures buf[p + i] == t[i]
  {}

  /** The outcome of Node_parse_seq from a scanner state on. */
  function Run(s: Parser, buf: Text, p: nat): Parsed
    requires p <= |buf|
  {
    Resume(Exec(s, buf, p), buf)
  }

  lemma SameRun(s: Parser, p: nat, s': Parser, p': nat, buf: Text)
    requires p <= |buf| && p' <= |buf| && Exec(s, buf, p) == Exec(s', buf, p')
    ensures Run(s, buf, p) == Run(s', buf, p')
  {}

  // ---------------------------------------------------------------- one token at a time

  /** One character whose actions neither break nor crash. */
  lemma Step(s: Parser, buf: Text, p: nat, s': Parser)
    requires p < |buf| && s.cs != ERROR && s'.cs != ERROR
    requires DoMove(Trans(s.cs, buf[p]), s, buf, p) == (s', Go)
    ensures Exec(s, buf, p) == Exec(s', buf, p + 1)
  {}

  lemma {:induction false} StayWhile(s: Parser, buf: Text, p: nat, q: nat)
    requires p <= q <= |buf| && s.cs != ERROR
    requires forall i :: p <= i < q ==> Trans(s.cs, buf[i]) == Move(s.cs, NoAct, NoAct)
    ensures Exec(s, buf, p) == Exec(s, buf, q)
    decreases q - p
  {
    if p == q {
    } else {
      Step(s, buf, p, s);
      StayWhile(s, buf, p + 1, q);
    }
  }

  lemma NumberToken(s: Parser, buf: Text, p: nat, n: nat)
    requires s.cs == READY && s.spine.Frame? && n < TWO64 && At(buf, p, Decimal(n) + [SPACE])
    ensures Exec(s, buf, p) == Exec(s.(mark := p, spine := Push(s.spine, NumberV(n))), buf, p + |Decimal(n)| + 1)
  {
    hide Exec;
    var t, q := Decimal(n), p + |Decimal(n)|;
    AtSplit(buf, p, t, [SPACE]);
    forall i | p <= i < q ensures IsDigit(buf[i]) { AtIndex(buf, p, t, i - p); }
    var s1 := s.(cs := 14, mark := p);
    Step(s, buf, p, s1);
    StayWhile(s1, buf, p + 1, q);
    DecimalRoundTrip(n);
    Step(s1, buf, q, s.(mark := p, spine := Push(s.spine, NumberV(n))));
  }

  /** The characters of a string and its closing quote. */
  lemma StringBody(s: Parser, buf: Text, p: nat, t: Text)
    requires s.cs == 1 && s.spine.Frame? && QUOTE !in t && At(buf, p, t) && At(buf, p + |t|, [QUOTE])
    ensures Exec(s, buf, p) == Exec(s.(cs := READY, mark := p, spine := Push(s.spine, StringV(t))), buf, p + |t| + 1)
  {
    hide Exec;
    var q := p + |t|;
    var s' := s.(cs := READY, mark := p, spine := Push(s.spine, StringV(t)));
    if t == [] {
      Step(s, buf, p, s');
    } else {
      forall i | p <= i < q ensures buf[i] != QUOTE { AtIndex(buf, p, t, i - p); }
      var s2 := s.(cs := 2, mark := p);
      Step(s, buf, p, s2);
      StayWhile(s2, buf, p + 1, q);
      Step(s2, buf, q, s');
    }
  }

  lemma StringToken(s: Parser, buf: Text, p: nat, t: Text)
    requires s.cs == READY && s.spine.Frame? && QUOTE !in t && At(buf, p, [QUOTE] + t + [QUOTE, SPACE])
    ensures Exec(s, buf, p) == Exec(s.(mark := p + 1, spine := Push(s.spine, StringV(t))), buf, p + |t| + 3)
  {
    hide Exec;
    AtSplit(buf, p, [QUOTE] + t, [QUOTE, SPACE]);
    AtSplit(buf, p, [QUOTE], t);
    var q := p + 1 + |t|;
    AtSplit(buf, q, [QUOTE], [SPACE]);
    Step(s, buf, p, s.(cs := 1));
    StringBody(s.(cs := 1), buf, p + 1, t);
    var s' := s.(mark := p + 1, spine := Push(s.spine, StringV(t)));
    Step(s', buf, q + 1, s');
  }

  /** A word or attribute up to, not including, the blank that ends it. */
  lemma NameBody(s: Parser, buf: Text, p: nat, t: Text) returns (s': Parser)
    requires s.cs == READY && (IsWord(t) || IsAttr(t)) && At(buf, p, t + [SPACE])
    ensures s' == s.(cs := if IsAttr(t) then 12 else 13, mark := p)
    ensures buf[p + |t|] == SPACE && buf[p..p + |t|] == t
    ensures Exec(s, buf, p) == Exec(s', buf, p + |t|)
  {
    hide Exec;
    AtSplit(buf, p, t, [SPACE]);
    var q := p + |t|;
    forall i | p <= i < q ensures buf[i] == t[i - p] { AtIndex(buf, p, t, i - p); }
    if IsAttr(t) {
      forall i | p + 2 <= i < q ensures IsWordChar(buf[i]) { assert buf[i] == t[1..][i - p - 1]; }
      var s1 := s.(cs := 9, mark := p);
      Step(s, buf, p, s1);
      assert buf[p + 1] == t[1..][0];
      s' := s.(cs := 12, mark := p);
      Step(s1, buf, p + 1, s');
      StayWhile(s', buf, p + 2, q);
    } else {
      s' := s.(cs := 13, mark := p);
      Step(s, buf, p, s');
      StayWhile(s', buf, p + 1, q);
    }
  }

  lemma AttrToken(s: Parser, buf: Text, p: nat, t: Text)
    requires s.cs == READY && IsAttr(t) && At(buf, p, t + [SPACE]) && s.spine.Frame? && s.spine.kids.Node?
    ensures Exec(s, buf, p) == Exec(s.(mark := p, spine := NameChild(s.spine, t)), buf, p + |t| + 1)
  {
    hide Exec;
    var s1 := NameBody(s, buf, p, t);
    Step(s1, buf, p + |t|, s.(mark := p, spine := NameChild(s.spine, t)));
  }

  lemma WordToken(s: Parser, buf: Text, p: nat, t: Text)
    requires s.cs == READY && IsWord(t) && At(buf, p, t + [SPACE]) && s.spine.Frame? && s.spine.up.Frame?
    ensures Exec(s, buf, p) == Exec(s.(mark := p, spine := CloseGroup(s.spine, Some(t))), buf, p + |t| + 1)
  {
    hide Exec;
    var s1 := NameBody(s, buf, p, t);
    Step(s1, buf, p + |t|, s.(mark := p, spine := CloseGroup(s.spine, Some(t))));
  }

  /** The root's word stops the scanner on the blank behind it. */
  lemma RootWord(s: Parser, buf: Text, p: nat, t: Text)
    requires s.cs == READY && IsWord(t) && At(buf, p, t + [SPACE]) && s.spine.Frame? && s.spine.up.Bottom?
    ensures Exec(s, buf, p) == Stop(s.(mark := p, spine := s.spine.(name := Some(t))), p + |t|, false)
  {
    var s1 := NameBody(s, buf, p, t);
  }

  lemma Bracket(s: Parser, buf: Text, p: nat, c: byte)
    requires s.cs == READY && At(buf, p, [c, SPACE])
    requires c == OPEN || (c == CLOSE && s.spine.Frame? && s.spine.up.Frame?)
    ensures var sp := if c == OPEN then StartGroup(s.spine) else CloseGroup(s.spine, None);
      Exec(s, buf, p) == Exec(s.(spine := sp), buf, p + 2)
  {
    hide Exec;
    AtSplit(buf, p, [c], [SPACE]);
    var s' := s.(spine := if c == OPEN then StartGroup(s.spine) else CloseGroup(s.spine, None));
    Step(s, buf, p, s');
    Step(s', buf, p + 1, s');
  }

  lemma BlobDigits(s: Parser, buf: Text, p: nat, t: Text)
    requires s.cs == READY && AllDigits(t) && t != [] && At(buf, p, [TICK] + t)
    ensures Exec(s, buf, p) == Exec(s.(cs := 4, mark := p + 1), buf, p + 1 + |t|)
  {
    hide Exec;
    AtSplit(buf, p, [TICK], t);
    var c := p + 1 + |t|;
    var s1, s2 := s.(cs := 3), s.(cs := 4, mark := p + 1);
    forall i | p + 1 <= i < c ensures IsDigit(buf[i]) { AtIndex(buf, p + 1, t, i - (p + 1)); }
    Step(s, buf, p, s1);
    Step(s1, buf, p + 1, s2);
    StayWhile(s2, buf, p + 2, c);
  }

  lemma BlobColon(s: Parser, buf: Text, c: nat, n: nat)
    requires s.cs == 4 && !s.errno && n < TWO64 && s.mark <= c < |buf| && buf[c] == COLON
    requires buf[s.mark..c] == Decimal(n)
    ensures var s' := s.(cs := 5, mark := c + 1, more := n);
      Exec(s, buf, c) == if n > 0 then Stop(s', c, false) else Exec(s', buf, c + 1)
  {
    DecimalRoundTrip(n);
  }

  /** A nonempty blob stops the scanner at the colon; the caller restarts it behind the bytes. */
  lemma BlobHeader(s: Parser, buf: Text, p: nat, n: nat)
    requires s.cs == READY && !s.errno && n < TWO64 && At(buf, p, [TICK] + Decimal(n) + [COLON])
    ensures var c := p + 1 + |Decimal(n)|;
      var s' := s.(cs := 5, mark := c + 1, more := n);
      Exec(s, buf, p) == if n > 0 then Stop(s', c, false) else Exec(s', buf, c + 1)
  {
    hide Exec;
    var t := Decimal(n);
    AtSplit(buf, p, [TICK] + t, [COLON]);
    AtSplit(buf, p, [TICK], t);
    BlobDigits(s, buf, p, t);
    BlobColon(s.(cs := 4, mark := p + 1), buf, p + 1 + |t|, n);
  }

  /** The closing tick turns the bytes since the colon into a node. */
  lemma BlobEnd(s: Parser, buf: Text, b: Text)
    requires s.cs == 5 && s.spine.Frame? && At(buf, s.mark, b) && At(buf, s.mark + |b|, [TICK, SPACE])
    ensures Exec(s, buf, s.mark + |b|)
         == Exec(s.(cs := READY, more := 0, spine := Push(s.spine, BlobV(b))), buf, s.mark + |b| + 2)
  {
    hide Exec;
    var e := s.mark + |b|;
    AtSplit(buf, e, [TICK], [SPACE]);
    var s' := s.(cs := READY, more := 0, spine := Push(s.spine, BlobV(b)));
    Step(s, buf, e, s');
    Step(s', buf, e + 1, s');
  }

  lemma BlobToken(s: Parser, buf: Text, p: nat, b: Text) returns (m: nat)
    requires s.cs == READY && !s.errno && s.more == 0 && s.spine.Frame? && |b| < TWO64
    requires At(buf, p, [TICK] + Decimal(|b|) + [COLON] + b + [TICK, SPACE])
    ensures p + |Decimal(|b|)| + |b| + 4 <= |buf|
    ensures Run(s, buf, p)
         == Run(s.(mark := m, spine := Push(s.spine, BlobV(b))), buf, p + |Decimal(|b|)| + |b| + 4)
  {
    hide Exec, Trans, DoMove, Do;
    var h := [TICK] + Decimal(|b|) + [COLON];
    m := p + |h|;
    AtSplit(buf, p, h + b, [TICK, SPACE]);
    AtSplit(buf, p, h, b);
    BlobHeader(s, buf, p, |b|);
    BlobEnd(s.(cs := 5, mark := m, more := |b|), buf, b);
  }

  // ---------------------------------------------------------------- whole trees

  /** Scanning may go on: between tokens, inside a group, nothing pending. */
  predicate Between(s: Parser) {
    s.cs == READY && !s.errno && s.more == 0 && s.spine.Frame?
  }

  lemma NameIsWhole(t: Text)
    requires IsWord(t) || IsAttr(t)
    ensures CString(t) == t
  {
    assert IsAttr(t) ==> t == [AT] + t[1..];
    CStringWhole(t);
  }

  /** A leaf's payload. */
  lemma LeafToken(d: Tree, s: Parser, buf: Text, p: nat) returns (m: nat)
    requires WellFormed(d) && d.Node? && !d.value.GroupV? && Between(s) && At(buf, p, PrintValue(d))
    ensures Run(s, buf, p) == Run(s.(mark := m, spine := Push(s.spine, d.value)), buf, p + |PrintValue(d)|)
  {
    hide Exec, Trans, DoMove, Do;
    match d.value {
      case NumberV(n) => NumberToken(s, buf, p, n); m := p;
      case StringV(t) => CStringWhole(t); StringToken(s, buf, p, t); m := p + 1;
      case BlobV(b) => m := BlobToken(s, buf, p, b);
    }
  }

  /** The text of a sibling chain turns an empty child list into that chain. */
  lemma {:induction false} ScanChain(d: Tree, s: Parser, buf: Text, p: nat) returns (m: nat)
    requires WellFormed(d) && Between(s) && s.spine.kids.Nil? && At(buf, p, Print(d))
    ensures Run(s, buf, p) == Run(s.(mark := m, spine := s.spine.(kids := d)), buf, p + |Print(d)|)
    decreases d, 2
  {
    hide Exec, Run, PrintOne;
    if d.Nil? { return s.mark; }
    AtSplit(buf, p, Print(d.sibling), PrintOne(d));
    var m1 := ScanChain(d.sibling, s, buf, p);
    m := ScanOne(d, s.(mark := m1, spine := s.spine.(kids := d.sibling)), buf, p + |Print(d.sibling)|);
  }

  /** What closes a group: a bracket, or the word that names it. */
  function Closing(d: Tree): Text
    requires d.Node?
  {
    if AnonymousClose(d) || d.name == None then [CLOSE, SPACE] else d.name.value + [SPACE]
  }

  /** A node's text up to its attribute. */
  function Body(d: Tree): Text
    requires d.Node? && FloatFree(d)
  {
    if d.value.GroupV? then [OPEN, SPACE] + Print(d.child) + Closing(d) else PrintValue(d)
  }

  /** The node as its body's text alone describes it. */
  function Bare(d: Tree): Tree
    requires d.Node?
  {
    if d.value.GroupV? && !AnonymousClose(d) then d else d.(name := None)
  }

  lemma PrintParts(d: Tree)
    requires WellFormed(d) && d.Node?
    ensures PrintOne(d) == Body(d) + if d == Bare(d) then [] else d.name.value + [SPACE]
  {
    if d.name.Some? { NameIsWhole(d.name.value); }
  }

  /** The three parts of a group's text. */
  lemma GroupParts(d: Tree, buf: Text, p: nat)
    requires d.Node? && FloatFree(d) && d.value.GroupV? && At(buf, p, Body(d))
    ensures At(buf, p, [OPEN, SPACE]) && At(buf, p + 2, Print(d.child)) && At(buf, p + 2 + |Print(d.child)|, Closing(d))
    ensures |Body(d)| == 2 + |Print(d.child)| + |Closing(d)|
  {
    hide Print, Closing;
    AtSplit(buf, p, [OPEN, SPACE] + Print(d.child), Closing(d));
    AtSplit(buf, p, [OPEN, SPACE], Print(d.child));
  }

  /** A group's closing token. */
  lemma ScanClosing(d: Tree, s: Parser, s1: Parser, buf: Text, q: nat) returns (m: nat)
    requires WellFormed(d) && d.Node? && d.value.GroupV? && Between(s) && s.spine.kids == d.sibling
    requires s1 == s.(mark := s1.mark, spine := StartGroup(s.spine).(kids := d.child)) && At(buf, q, Closing(d))
    ensures Run(s1, buf, q) == Run(s.(mark := m, spine := s.spine.(kids := Bare(d))), buf, q + |Closing(d)|)
  {
    hide Exec, Run, Print;
    if AnonymousClose(d) {
      Bracket(s1, buf, q, CLOSE);
      m := s1.mark;
    } else {
      WordToken(s1, buf, q, d.name.value);
      m := q;
    }
    SameRun(s1, q, s.(mark := m, spine := s.spine.(kids := Bare(d))), q + |Closing(d)|, buf);
  }

  /** A group: its bracket, its children, and the bracket or word that closes it. */
  lemma {:induction false} ScanGroup(d: Tree, s: Parser, buf: Text, p: nat) returns (m: nat)
    requires WellFormed(d) && d.Node? && d.value.GroupV? && Between(s) && s.spine.kids == d.sibling
    requires At(buf, p, Body(d))
    ensures Run(s, buf, p) == Run(s.(mark := m, spine := s.spine.(kids := Bare(d))), buf, p + |Body(d)|)
    decreases d, 0
  {
    hide Exec, Run, Body, Print, Closing, Bare;
    GroupParts(d, buf, p);
    var q := p + 2 + |Print(d.child)|;
    var s0 := s.(spine := StartGroup(s.spine));
    Bracket(s, buf, p, OPEN);
    SameRun(s, p, s0, p + 2, buf);
    m := ScanChain(d.child, s0, buf, p + 2);
    var s1 := s0.(mark := m, spine := s0.spine.(kids := d.child));
    m := ScanClosing(d, s, s1, buf, q);
  }

  /** The text of one node puts it in front of the children scanned so far. */
  lemma {:induction false} ScanOne(d: Tree, s: Parser, buf: Text, p: nat) returns (m: nat)
    requires WellFormed(d) && d.Node? && Between(s) && s.spine.kids == d.sibling && At(buf, p, PrintOne(d))
    ensures Run(s, buf, p) == Run(s.(mark := m, spine := s.spine.(kids := d)), buf, p + |PrintOne(d)|)
    decreases d, 1
  {
    hide Exec, Run, Print, PrintOne;
    PrintParts(d);
    var named := if d == Bare(d) then [] else d.name.value + [SPACE];
    AtSplit(buf, p, Body(d), named);
    if d.value.GroupV? {
      m := ScanGroup(d, s, buf, p);
    } else {
      m := LeafToken(d, s, buf, p);
    }
    if d != Bare(d) {
      var q := p + |Body(d)|;
      var s1 := s.(mark := m, spine := s.spine.(kids := Bare(d)));
      AttrToken(s1, buf, q, d.name.value);
      m := q;
      SameRun(s1, q, s.(mark := m, spine := s.spine.(kids := d)), q + |named|, buf);
    }
  }

  // ---------------------------------------------------------------- documents

  /** A root group up to its closing token. */
  lemma ScanRoot(d: Tree, buf: Text, p: nat) returns (s: Parser)
    requires WellFormed(d) && d.Node? && d.value.GroupV? && d.sibling.Nil? && At(buf, p, Body(d))
    ensures s == Parser(READY, s.mark, 0, Frame(None, Nil, d.child, Bottom), false)
    ensures At(buf, p + 2 + |Print(d.child)|, Closing(d))
    ensures Run(INIT, buf, p) == Run(s, buf, p + 2 + |Print(d.child)|)
  {
    hide Exec, Run, Body, Print, Closing;
    GroupParts(d, buf, p);
    var s0 := INIT.(spine := StartGroup(Bottom));
    Bracket(INIT, buf, p, OPEN);
    SameRun(INIT, p, s0, p + 2, buf);
    var m := ScanChain(d.child, s0, buf, p + 2);
    s := Parser(READY, m, 0, Frame(None, Nil, d.child, Bottom), false);
  }

  /** The root's closing bracket stops the scanner on the bracket itself. */
  lemma RootBracket(s: Parser, buf: Text, p: nat)
    requires s.cs == READY && At(buf, p, [CLOSE, SPACE]) && s.spine.Frame? && s.spine.up.Bottom?
    ensures Exec(s, buf, p) == Stop(s.(spine := s.spine.(name := None)), p, false)
  {
    AtSplit(buf, p, [CLOSE], [SPACE]);
  }

  lemma StopIsFinal(s: Parser, buf: Text, p: nat, s': Parser, n: nat)
    requires p <= |buf| && Exec(s, buf, p) == Stop(s', n, false)
    requires s'.cs == READY && !s'.errno
    ensures Run(s, buf, p) == Parsed(RootTree(s'.spine), SkipNewlines(buf, n + 1))
  {}

  lemma ParseIsRun(buf: Text, p: nat)
    requires EndsBlank(buf) && p <= |buf|
    ensures ParseSeq(buf, p) == Run(INIT, buf, p)
  {}

  lemma RootParts(d: Tree)
    requires WellFormed(d) && d.Node? && d.value.GroupV? && d.sibling.Nil?
    ensures Print(d) == if d == Bare(d) then Body(d) else Body(d) + (d.name.value + [SPACE])
  {
    PrintParts(d);
    assert Print(d) == PrintOne(d);
  }

  /**
   Node_parse_seq on the text of a document anywhere in a buffer returns that document and moves
   `from` behind it and behind any newlines that follow.
   */
  lemma ParseDocument(d: Tree, buf: Text, p: nat)
    requires Document(d) && EndsBlank(buf) && At(buf, p, Print(d))
    ensures ParseSeq(buf, p) == Parsed(d, SkipNewlines(buf, p + |Print(d)|))
  {
    hide Exec, Run, ParseSeq, Print;
    RootParts(d);
    ParseIsRun(buf, p);
    var s := ScanRoot(d, buf, p);
    var q := p + 2 + |Print(d.child)|;
    RootWord(s, buf, q, d.name.value);
    StopIsFinal(s, buf, q, s.(mark := q, spine := s.spine.(name := d.name)), q + |d.name.value|);
  }

  lemma BlankStays(buf: Text, n: nat)
    requires n < |buf| && buf[n] == SPACE
    ensures SkipNewlines(buf, n) == n
  {}

  /** A root closed by a bracket stops the parser on that bracket, and an attribute behind it is lost. */
  lemma ParseBracketedRoot(d: Tree, buf: Text, p: nat)
    requires WellFormed(d) && d.Node? && d.value.GroupV? && d.sibling.Nil? && AnonymousClose(d)
    requires EndsBlank(buf) && At(buf, p, Print(d))
    ensures ParseSeq(buf, p) == Parsed(d.(name := None), p + |Body(d)| - 1)
  {
    hide Exec, Run, ParseSeq, Print, Body, SkipNewlines;
    RootParts(d);
    ParseIsRun(buf, p);
    if d != Bare(d) { AtSplit(buf, p, Body(d), d.name.value + [SPACE]); }
    GroupParts(d, buf, p);
    var s := ScanRoot(d, buf, p);
    var q := p + 2 + |Print(d.child)|;
    RootBracket(s, buf, q);
    StopIsFinal(s, buf, q, s.(spine := s.spine.(name := None)), q);
    AtIndex(buf, q, [CLOSE, SPACE], 1);
    BlankStays(buf, q + 1);
  }

  // What a text looks like, in bytes: the older siblings first, and a blank behind every token.

  lemma LeafText(v: Value, older: Tree)
    requires FloatFree(older) && !v.FloatV? && !v.GroupV? && (v.StringV? ==> 0 !in v.s)
    ensures Print(Node(v, None, older, Nil)) == Print(older) +
      match v
      case NumberV(n) => Decimal(n) + [32]
      case StringV(t) => [34] + t + [34, 32]
      case BlobV(b) => [39] + Decimal(|b|) + [58] + b + [39, 32]
  {
    hide Decimal;
    if v.StringV? { CStringWhole(v.s); }
    var t := Node(v, None, older, Nil);
    assert PrintOne(t) == PrintValue(t);
  }

  /** A group is closed by the word that names it, or by a bracket. */
  lemma GroupText(name: Option<Text>, older: Tree, child: Tree)
    requires FloatFree(older) && FloatFree(child) && (name.Some? ==> IsWord(name.value))
    ensures Print(Node(GroupV, name, older, child)) ==
      Print(older) + ([91, 32] + Print(child) + (if name.Some? then name.value else [93]) + [32])
  {
    hide IsWord;
    var t := Node(GroupV, name, older, child);
    assert Print(t) == Print(older) + PrintOne(t);
    var inner := [91, 32] + Print(child);
    if name.Some? {
      WordIsPlain(name.value);
      assert PrintOne(t) == inner + [] + (name.value + [32]) by { hide Print; }
      Regroup(inner, name.value);
    } else {
      assert PrintOne(t) == inner + [93, 32] + [] by { hide Print; }
      Regroup(inner, [93]);
    }
  }

  lemma Regroup(inner: Text, word: Text)
    ensures inner + [] + (word + [32]) == inner + word + [32] == inner + (word + [32]) + []
  {}

  lemma WordIsPlain(w: Text)
    requires IsWord(w)
    ensures CString(w) == w && w[0] != AT
  {
    NameIsWhole(w);
  }

  /** An attribute goes behind what it names. */
  lemma AttrText(d: Tree, attr: Text)
    requires d.Node? && d.name == None && FloatFree(d) && IsAttr(attr)
    ensures FloatFree(d.(name := Some(attr))) && Print(d.(name := Some(attr))) == Print(d) + (attr + [32])
  {
    NameIsWhole(attr);
    hide IsAttr, IsWord;
    var t := d.(name := Some(attr));
    assert PrintValue(t) == PrintValue(d) by { hide Print; }
    hide PrintValue;
    assert PrintOne(t) == PrintOne(d) + (attr + [32]);
    assert Print(d.sibling) + (PrintOne(d) + (attr + [32])) == Print(d.sibling) + PrintOne(d) + (attr + [32]);
  }

  /**
   The round trip of the canonical form: for a well-formed root group it gives back the tree and
   consumes the whole text exactly when the root is named by a word.
   */
  lemma CanonicalRoundTrip(d: Tree)
    requires WellFormed(d) && d.Node? && d.value.GroupV? && d.sibling.Nil?
    ensures ParseSeq(Canonical(d), 0) == Parsed(d, |Canonical(d)|) <==> Document(d)
  {
    hide ParseSeq;
    var buf := Canonical(d);
    assert At(buf, 0, Print(d));
    if Document(d) {
      ParseDocument(d, buf, 0);
      assert SkipNewlines(buf, |buf|) == |buf|;
    } else {
      ParseBracketedRoot(d, buf, 0);
      RootParts(d);
    }
  }

  predicate AllDocuments(ds: seq<Tree>) { forall i :: 0 <= i < |ds| ==> Document(ds[i]) }

  function Documents(ds: seq<Tree>): Text
    requires AllDocuments(ds)
  {
    if ds == [] then [] else Canonical(ds[0]) + Documents(ds[1..])
  }

  /** Parse `n` documents one after the other, each from where the last one ended. */
  function ParseMany(buf: Text, from: nat, n: nat): Option<(seq<Tree>, nat)>
    requires from <= |buf|
    decreases n
  {
    if n == 0 then Some(([], from)) else
      match ParseSeq(buf, from)
      case Parsed(d, next) =>
        if next > |buf| then None else
          (match ParseMany(buf, next, n - 1)
           case Some((ds, end)) => Some(([d] + ds, end))
           case None => None)
      case _ => None
  }

  /** A document, with or without its newline, in front of text that does not open with a newline. */
  lemma ParseNext(pre: Text, d: Tree, newline: bool, rest: Text)
    requires Document(d) && (rest != [] ==> EndsBlank(rest) && rest[0] != NEWLINE)
    ensures var text := if newline then Canonical(d) else Print(d);
      ParseSeq(pre + text + rest, |pre|) == Parsed(d, |pre| + |text|)
  {
    hide ParseSeq, Print;
    var text := if newline then Canonical(d) else Print(d);
    var buf := pre + text + rest;
    assert At(buf, |pre|, Print(d));
    DocumentEdges(d);
    assert EndsBlank(text);
    ParseDocument(d, buf, |pre|);
    var end := |pre| + |text|;
    assert SkipNewlines(buf, end) == end;
    assert newline ==> buf[end - 1] == NEWLINE && SkipNewlines(buf, end - 1) == end;
  }

  /** A buffer of documents is taken apart into exactly those documents, with nothing left over. */
  lemma {:induction false} ParseManyRoundTrip(pre: Text, ds: seq<Tree>)
    requires AllDocuments(ds)
    ensures ParseMany(pre + Documents(ds), |pre|, |ds|) == Some((ds, |pre + Documents(ds)|))
    decreases |ds|
  {
    hide ParseSeq, Print, Document;
    if ds == [] {
    } else {
      var here, rest := pre + Canonical(ds[0]), Documents(ds[1..]);
      assert pre + Documents(ds) == here + rest;
      DocumentsEdges(ds[1..]);
      ParseNext(pre, ds[0], true, rest);
      ParseManyRoundTrip(here, ds[1..]);
      assert ds == [ds[0]] + ds[1..];
    }
  }

  lemma DocumentEdges(d: Tree)
    requires Document(d)
    ensures EndsBlank(Print(d)) && Print(d)[0] == OPEN
  {
    RootParts(d);
  }

  lemma {:induction false} DocumentsEdges(ds: seq<Tree>)
    requires AllDocuments(ds)
    ensures ds == [] || (EndsBlank(Documents(ds)) && Documents(ds)[0] == OPEN)
  {
    hide Print;
    if ds == [] {
    } else {
      DocumentEdges(ds[0]);
      DocumentsEdges(ds[1..]);
    }
  }
}
