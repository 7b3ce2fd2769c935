/**
 The header that numbers a message, from the Ruby client's emitter through the mendicant's readnodes
 to the hub's Message_decons, and from the hub back to the Ruby client's parser.
 */
module Headers {
  import opened Bytes
  import opened Scanner
  import opened Stackish
  import opened RoundTrip
  import Format
  import opened Messages
  import Ruby

  /** Message_cons_header. */
  function HeaderNode(n: nat): Tree { Node(GroupV, Some(HEADER), Nil, Node(NumberV(n), None, Nil, Nil)) }

  /** The client's header, a Hash with one Array. */
  function HeaderVal(n: nat): Ruby.RVal { Ruby.RHash(HEADER, Ruby.RArr([Ruby.RInt(n)])) }

  /** Mendicant#push_nodes: the header and the body, one behind the other. */
  function Pushed(n: nat, body: Tree): Text
    requires FloatFree(body)
  {
    Ruby.Emit([HeaderVal(n)]) + Ruby.Emit(Ruby.ChainVals(body))
  }

  /** readnodes on a frame's data, as far as the relay goes on with it: a header and a body. */
  function ReadNodes(data: Text): Option<(Tree, Tree)> {
    match ParseSeq(data, 0)
    case Parsed(h, from) =>
      if h.Nil? || from > |data| then None else
        (match ParseSeq(data, from)
         case Parsed(b, _) => if b.Nil? then None else Some((h, b))
         case _ => None)
    case _ => None
  }

  /** Message_decons: the id of a message, if header and body are what they should be. */
  function MessageId(h: Tree, b: Tree): Option<nat> {
    if b.Nil? || b.name.None? || b.child.Nil? then None else
      match Format.Decons(h, "[nw", [HEADER])
      case Got(outs) => if |outs| == 1 && outs[0].NumberV? then Some(outs[0].n) else None
      case _ => None
  }

  // ---------------------------------------------------------------- what the client writes

  /** The header's text: the number's digits between a bracket and the word, whatever the number. */
  lemma HeaderText(n: nat)
    ensures Ruby.Emit([HeaderVal(n)]) == [OPEN, SPACE] + (Decimal(n) + [SPACE]) + (HEADER + [SPACE, NEWLINE])
  {
    var digits := Decimal(n);
    hide Decimal;
    assert Ruby.ConvertAll([Ruby.RInt(n)]) == [digits];
    assert Ruby.Convert(Ruby.RArr([Ruby.RInt(n)]), true) == [[OPEN], digits];
    var tokens := [[OPEN], digits, HEADER];
    assert Ruby.ConvertAll([HeaderVal(n)]) == tokens;
    assert tokens[1..] == [digits, HEADER] && [digits, HEADER][1..] == [HEADER];
    assert Ruby.Join([digits, HEADER]) == digits + [SPACE] + Ruby.Join([HEADER]);
    assert Ruby.Join(tokens) == [OPEN] + [SPACE] + (digits + [SPACE] + HEADER);
  }

  lemma HeaderIsDocument(n: nat)
    requires n < TWO64
    ensures Document(HeaderNode(n))
  {
    assert IsWord(HEADER) && WellFormed(HeaderNode(n).child);
  }

  /** What Ruby makes of the hub's header is what the client writes itself. */
  lemma HeaderVals(n: nat)
    ensures FloatFree(HeaderNode(n)) && Ruby.ChainVals(HeaderNode(n)) == [HeaderVal(n)]
  {
    var h := HeaderNode(n);
    assert FloatFree(h.child);
    assert Ruby.ChainVals(h.child) == Ruby.ChainVals(Nil) + [Ruby.NodeVal(h.child)] == [Ruby.RInt(n)];
    assert Ruby.NodeVal(h) == HeaderVal(n);
    assert Ruby.ChainVals(h) == Ruby.ChainVals(Nil) + [Ruby.NodeVal(h)];
  }

  // ---------------------------------------------------------------- what the scanner makes of it

  /** A number that does not fit 64 bits stops the scanner at the blank behind it, with nothing pushed. */
  lemma NumberTooBig(s: Parser, buf: Text, p: nat, n: nat)
    requires s.cs == READY && s.spine.Frame? && n >= TWO64 && At(buf, p, Decimal(n) + [SPACE])
    ensures Exec(s, buf, p) == Stop(s.(mark := p), p + |Decimal(n)|, false)
  {
    hide Exec;
    var t, q := Decimal(n), p + |Decimal(n)|;
    AtSplit(buf, p, t, [SPACE]);
    forall i | p <= i < q ensures IsDigit(buf[i]) { AtIndex(buf, p, t, i - p); }
    var s1 := s.(cs := 14, mark := p);
    Step(s, buf, p, s1);
    StayWhile(s1, buf, p + 1, q);
    DecimalRoundTrip(n);
    StepStops(s1, buf, q, s.(mark := p));
  }

  /** A character with an action that breaks. */
  lemma StepStops(s: Parser, buf: Text, p: nat, s': Parser)
    requires p < |buf| && s.cs != ERROR && DoMove(Trans(s.cs, buf[p]), s, buf, p) == (s', Break)
    ensures Exec(s, buf, p) == Stop(s', p, false)
  {}

  /** A word with no group open around it stops the scanner without a root. */
  lemma StrayWord(buf: Text, p: nat, t: Text)
    requires IsWord(t) && At(buf, p, t + [SPACE]) && EndsBlank(buf)
    ensures ParseSeq(buf, p).Parsed? && ParseSeq(buf, p).root.Nil?
  {
    var s1 := NameBody(INIT, buf, p, t);
    hide Exec;
    StepStops(s1, buf, p + |t|, INIT.(mark := p));
    StopIsFinal(INIT, buf, p, INIT.(mark := p), p + |t|);
    ParseIsRun(buf, p);
  }

  /** The header of a number that is too big comes out as an empty group without a name; its word is left over. */
  lemma HeaderTooBig(buf: Text, n: nat, rest: Text)
    requires n >= TWO64 && buf == [OPEN, SPACE] + (Decimal(n) + [SPACE]) + (HEADER + [SPACE]) + rest && EndsBlank(buf)
    ensures ParseSeq(buf, 0) == Parsed(Node(GroupV, None, Nil, Nil), 3 + |Decimal(n)|)
    ensures At(buf, 3 + |Decimal(n)|, HEADER + [SPACE])
  {
    hide Exec, Decimal, ParseSeq;
    var q := 2 + |Decimal(n)|;
    assert At(buf, 0, [OPEN, SPACE]) && At(buf, 2, Decimal(n) + [SPACE]) && At(buf, q + 1, HEADER + [SPACE]);
    Bracket(INIT, buf, 0, OPEN);
    var s := INIT.(spine := StartGroup(Bottom));
    NumberTooBig(s, buf, 2, n);
    StopIsFinal(INIT, buf, 0, s.(mark := 2), q);
    ParseIsRun(buf, 0);
    AtIndex(buf, q + 1, HEADER + [SPACE], 0);
    assert SkipNewlines(buf, q + 1) == q + 1;
  }

  /**
   The mendicant passes a message on exactly when its number fits 64 bits, and then it is the header
   and the body the client pushed. Otherwise there is no body, which ends the relay.
   */
  lemma PushedArrives(n: nat, body: Tree)
    requires Document(body)
    ensures ReadNodes(Pushed(n, body)) == if n < TWO64 then Some((HeaderNode(n), body)) else None
  {
    hide ParseSeq, WellFormed, Ruby.Emit, Ruby.ChainVals;
    DocumentEdges(body);
    Ruby.EmitterAgrees(body);
    HeaderText(n);
    hide Canonical, Decimal;
    var ht, bt := Ruby.Emit([HeaderVal(n)]), Canonical(body);
    assert EndsBlank(ht + bt);
    if n < TWO64 {
      HeaderIsDocument(n);
      HeaderVals(n);
      Ruby.EmitterAgrees(HeaderNode(n));
      BothParse(HeaderNode(n), body);
    } else {
      BigHeaderFails(n, ht, bt);
    }
  }

  lemma BigHeaderFails(n: nat, ht: Text, bt: Text)
    requires n >= TWO64 && EndsBlank(ht + bt)
    requires ht == [OPEN, SPACE] + (Decimal(n) + [SPACE]) + (HEADER + [SPACE]) + [NEWLINE]
    ensures ReadNodes(ht + bt) == None
  {
    hide ParseSeq, Decimal;
    assert ht + bt == [OPEN, SPACE] + (Decimal(n) + [SPACE]) + (HEADER + [SPACE]) + ([NEWLINE] + bt);
    HeaderTooBig(ht + bt, n, [NEWLINE] + bt);
    StrayWord(ht + bt, 3 + |Decimal(n)|, HEADER);
  }

  lemma BothParse(h: Tree, b: Tree)
    requires Document(h) && Document(b)
    ensures ReadNodes(Canonical(h) + Canonical(b)) == Some((h, b))
  {
    hide ParseSeq, WellFormed, Print;
    DocumentEdges(h);
    DocumentEdges(b);
    var ht, bt := Canonical(h), Canonical(b);
    assert [] + ht + bt == ht + bt && ht + bt + [] == ht + bt;
    assert bt[0] == Print(b)[0] && EndsBlank(bt);
    ParseNext([], h, true, bt);
    ParseNext(ht, b, true, []);
  }

  /** The hub finds the client's number in it. */
  lemma NumberArrives(n: nat, body: Tree)
    requires Document(body) && body.child.Node?
    ensures MessageId(HeaderNode(n), body) == Some(n)
  {
    HeaderFields(n);
    hide Format.Decons;
  }

  lemma HeaderFields(n: nat)
    ensures Format.Decons(HeaderNode(n), "[nw", [HEADER]) == Format.Got([NumberV(n)])
  {
    var vs := [NumberV(n)];
    assert vs[..0] == [];
    assert Row(vs) == Format.Item(NumberV(n), None, false, Row(vs[..0]), Format.End);
    assert Format.Shape(Row(vs)) == Node(NumberV(n), None, Nil, Nil);
    assert Message(vs, HEADER) == HeaderNode(n);
    assert Format.Reversed(vs) == vs;
    assert Letters(vs) == "n";
    assert "[" + ("n" + "w") == "[nw";
    MessageFields(vs, HEADER);
  }

  // ---------------------------------------------------------------- and the other way

  /** What the relay writes for the client, and the id Client#pull finds in it. */
  function PulledId(n: nat, body: Tree): Option<nat>
    requires FloatFree(body)
  {
    match Ruby.Parse(Print(HeaderNode(n)) + Print(body))
    case None => None
    case Some(vs) =>
      if |vs| > 0 && vs[0].RHash? && vs[0].name == HEADER
         && vs[0].val.RArr? && |vs[0].val.items| > 0 && vs[0].val.items[0].RInt?
      then Some(vs[0].val.items[0].n) else None
  }

  /** Two nodes written one behind the other are read back as two. */
  lemma TwoParse(h: Tree, b: Tree)
    requires WellFormed(h) && Ruby.LineFree(h) && WellFormed(b) && Ruby.LineFree(b)
    ensures Ruby.Parse(Print(h) + Print(b)) == Some(Ruby.ChainVals(h) + Ruby.ChainVals(b))
  {
    hide Ruby.Process, Print, Ruby.ChainVals, WellFormed, Ruby.LineFree;
    var s := Print(h) + Print(b);
    assert At(s, 0, Print(h)) && At(s, |Print(h)|, Print(b));
    var st := Ruby.Stacks([], []);
    Ruby.ProcessChain(h, s, 0, st);
    assert [] + Ruby.ChainVals(h) == Ruby.ChainVals(h);
    Ruby.ProcessChain(b, s, |Print(h)|, st.(values := Ruby.ChainVals(h)));
    Ruby.ProcessEnd(s, Ruby.ChainVals(h) + Ruby.ChainVals(b));
  }

  /** The client reads the hub's number back. */
  lemma PulledArrives(n: nat, body: Tree)
    requires n < TWO64 && Document(body) && Ruby.LineFree(body)
    ensures PulledId(n, body) == Some(n)
  {
    var h := HeaderNode(n);
    HeaderIsDocument(n);
    HeaderVals(n);
    assert Ruby.LineFree(h.child);
    hide Ruby.Parse, Print, Ruby.ChainVals, WellFormed;
    TwoParse(h, body);
  }
}
