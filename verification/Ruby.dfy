/**
 The Ruby client's Stackish: an emitter that joins tokens, and a parser made of a regular
 expression scanner, a parse stack and a mark stack. Both agree with the C side.
 */
module Ruby {
  import opened Bytes
  import opened Stackish
  import opened RoundTrip

  /** Ruby's view of a node: a named or attributed element is a one-entry Hash. */
  datatype RVal =
    | RNil | RInt(n: nat) | RStr(s: Text) | RBlob(b: Text) | RFloat(text: Text)
    | RArr(items: seq<RVal>) | RHash(name: Text, val: RVal)

  // ---------------------------------------------------------------- emitter

  /** Emitter#convert, with the nested arrays flattened into one list of tokens. */
  function Convert(v: RVal, named: bool): seq<Text>
    decreases v, 0
  {
    match v
    case RHash(name, val) => Convert(val, name == [] || name[0] != AT) + [name]
    case RArr(items) => [[OPEN]] + ConvertAll(items) + (if named then [] else [[CLOSE]])
    case RBlob(b) => [[TICK] + Decimal(|b|) + [COLON] + b + [TICK]]
    case RStr(s) => [[QUOTE] + s + [QUOTE]]
    case RInt(n) => [Decimal(n)]
    case RFloat(t) => [t]
    case RNil => []
  }

  function ConvertAll(vs: seq<RVal>): seq<Text>
    decreases vs, 1
  {
    if vs == [] then [] else Convert(vs[0], false) + ConvertAll(vs[1..])
  }

  /** Array#join(" "). */
  function Join(tokens: seq<Text>): Text {
    if tokens == [] then [] else if |tokens| == 1 then tokens[0] else tokens[0] + [SPACE] + Join(tokens[1..])
  }

  /** Emitter#process. */
  function Emit(vs: seq<RVal>): Text { Join(ConvertAll(vs)) + [SPACE, NEWLINE] }

  // ---------------------------------------------------------------- C trees as Ruby values

  function NodeVal(d: Tree): RVal
    requires d.Node? && FloatFree(d)
    decreases d, 0
  {
    var v := match d.value
      case NumberV(n) => RInt(n)
      case StringV(s) => RStr(s)
      case BlobV(b) => RBlob(b)
      case FloatV(t) => RFloat(t)
      case GroupV => RArr(ChainVals(d.child));
    if d.name.Some? then RHash(d.name.value, v) else v
  }

  /** A sibling chain, oldest first. */
  function ChainVals(d: Tree): seq<RVal>
    requires FloatFree(d)
    decreases d, 1
  {
    if d.Nil? then [] else ChainVals(d.sibling) + [NodeVal(d)]
  }

  /** Every token followed by a blank, which is how the C printer writes them. */
  function Spaced(tokens: seq<Text>): Text {
    if tokens == [] then [] else tokens[0] + [SPACE] + Spaced(tokens[1..])
  }

  lemma {:induction false} SpacedJoin(a: seq<Text>, b: seq<Text>)
    ensures Spaced(a + b) == Spaced(a) + Spaced(b)
  {
    if a == [] {
      assert a + b == b;
    } else {
      SpacedJoin(a[1..], b);
      assert (a + b)[1..] == a[1..] + b;
    }
  }

  lemma {:induction false} JoinIsSpaced(tokens: seq<Text>)
    requires tokens != []
    ensures Join(tokens) + [SPACE] == Spaced(tokens)
  {
    if |tokens| == 1 {
    } else {
      JoinIsSpaced(tokens[1..]);
    }
  }

  lemma {:induction false} ConvertAllJoin(a: seq<RVal>, b: seq<RVal>)
    ensures ConvertAll(a + b) == ConvertAll(a) + ConvertAll(b)
  {
    hide Convert;
    if a == [] {
      assert a + b == b;
    } else {
      ConvertAllJoin(a[1..], b);
      assert (a + b)[1..] == a[1..] + b && (a + b)[0] == a[0];
      assert Convert(a[0], false) + (ConvertAll(a[1..]) + ConvertAll(b))
          == Convert(a[0], false) + ConvertAll(a[1..]) + ConvertAll(b);
    }
  }

  predicate NamedByWord(d: Tree)
    requires d.Node?
  {
    d.value.GroupV? && !AnonymousClose(d)
  }

  lemma SpacedOne(t: Text)
    ensures Spaced([t]) == t + [SPACE]
  {
    assert Spaced([t]) == t + [SPACE] + Spaced([]);
  }

  lemma ConvertLeaf(d: Tree, named: bool)
    requires WellFormed(d) && d.Node? && !d.value.GroupV?
    ensures Spaced(Convert(NodeVal(d.(name := None)), named)) == Body(d)
  {
    match d.value {
      case NumberV(n) => SpacedOne(Decimal(n));
      case StringV(s) => CStringWhole(s); SpacedOne([QUOTE] + s + [QUOTE]);
      case BlobV(b) => SpacedOne([TICK] + Decimal(|b|) + [COLON] + b + [TICK]);
    }
  }

  lemma ConvertGroup(d: Tree, kids: seq<RVal>)
    requires WellFormed(d) && d.Node? && d.value.GroupV? && Spaced(ConvertAll(kids)) == Print(d.child)
    ensures var closing := if NamedByWord(d) then [] else [CLOSE, SPACE];
      Spaced(Convert(RArr(kids), NamedByWord(d))) == [OPEN, SPACE] + Print(d.child) + closing
  {
    hide Print;
    var tokens, close := ConvertAll(kids), if NamedByWord(d) then [] else [[CLOSE]];
    SpacedJoin([[OPEN]], tokens);
    SpacedJoin([[OPEN]] + tokens, close);
    SpacedOne([OPEN]);
    SpacedOne([CLOSE]);
  }

  lemma {:induction false} ConvertNode(d: Tree)
    requires WellFormed(d) && d.Node?
    ensures Spaced(Convert(NodeVal(d), false)) == PrintOne(d)
    decreases d, 0
  {
    hide Print, PrintOne, PrintValue;
    PrintParts(d);
    var v := NodeVal(d.(name := None));
    if d.value.GroupV? {
      ConvertChain(d.child);
      ConvertGroup(d, ChainVals(d.child));
    } else {
      ConvertLeaf(d, false);
      ConvertLeaf(d, true);
    }
    if d.name.Some? {
      assert d.value.GroupV? ==> NamedByWord(d) == (d.name.value[0] != AT);
      SpacedJoin(Convert(v, d.name.value[0] != AT), [d.name.value]);
      SpacedOne(d.name.value);
    }
  }

  lemma {:induction false} ConvertChain(d: Tree)
    requires WellFormed(d)
    ensures Spaced(ConvertAll(ChainVals(d))) == Print(d)
    decreases d, 1
  {
    if d.Nil? {
    } else {
      ConvertChain(d.sibling);
      ConvertNode(d);
      ConvertAllJoin(ChainVals(d.sibling), [NodeVal(d)]);
      SpacedJoin(ConvertAll(ChainVals(d.sibling)), Convert(NodeVal(d), false));
      assert ConvertAll([NodeVal(d)]) == Convert(NodeVal(d), false);
    }
  }

  /** The Ruby emitter and the C printer write the same bytes. */
  lemma EmitterAgrees(d: Tree)
    requires WellFormed(d) && d.Node?
    ensures Emit(ChainVals(d)) == Canonical(d)
  {
    ConvertChain(d);
    var tokens := ConvertAll(ChainVals(d));
    PrintNonempty(d);
    assert tokens != [];
    JoinIsSpaced(tokens);
  }

  lemma PrintNonempty(d: Tree)
    requires WellFormed(d) && d.Node?
    ensures Print(d) != []
  {
    PrintParts(d);
  }

  // ---------------------------------------------------------------- parser

  predicate RSpace(c: byte) { c in {32, 9, 10, 12, 13} }

  /** What \w matches. */
  predicate RWord(c: byte) { IsAlpha(c) || IsDigit(c) || c == 95 }

  predicate RWordTail(c: byte) { IsWordChar(c) }

  predicate RInString(c: byte) { c != QUOTE && c != NEWLINE }

  /** Length of the longest run of characters satisfying `p` from `pos` on. */
  function RunLen(s: Text, pos: nat, p: byte -> bool): (n: nat)
    requires pos <= |s|
    ensures pos + n <= |s|
    decreases |s| - pos
  {
    if pos < |s| && p(s[pos]) then 1 + RunLen(s, pos + 1, p) else 0
  }

  lemma {:induction false} RunLenIs(s: Text, pos: nat, p: byte -> bool, end: nat)
    requires pos <= end < |s| && (forall i :: pos <= i < end ==> p(s[i])) && !p(s[end])
    ensures RunLen(s, pos, p) == end - pos
    decreases end - pos
  {
    if pos == end {
    } else {
      RunLenIs(s, pos + 1, p, end);
    }
  }

  datatype Token = TSpace | TMark | TGroup | TColon | TSquote | TAttrib | TFloat | TNumber | TWord | TString | TNone

  /** The float pattern: optional sign, digits, point, digits. 0 when it does not match. */
  function FloatLen(s: Text, pos: nat): (n: nat)
    requires pos < |s|
    ensures pos + n <= |s|
  {
    var d := if s[pos] == 43 || s[pos] == 45 then pos + 1 else pos;
    var k := RunLen(s, d, IsDigit);
    if k == 0 || d + k == |s| || s[d + k] != 46 then 0 else
      var m := RunLen(s, d + k + 1, IsDigit);
      if m == 0 then 0 else d + k + 1 + m - pos
  }

  function WordLen(s: Text, pos: nat): (n: nat)
    requires pos <= |s|
    ensures pos + n <= |s|
  {
    if pos < |s| && RWord(s[pos]) then 1 + RunLen(s, pos + 1, RWordTail) else 0
  }

  /** The first pattern of TOKENS that matches, and how much. */
  function Lex(s: Text, pos: nat): (r: (Token, nat))
    requires pos < |s|
    ensures pos + r.1 <= |s| && (r.0 != TNone ==> r.1 > 0) && (r.0 == TString ==> r.1 >= 2)
  {
    var c := s[pos];
    if RSpace(c) then (TSpace, RunLen(s, pos, RSpace))
    else if c == OPEN then (TMark, 1)
    else if c == CLOSE then (TGroup, 1)
    else if c == COLON then (TColon, 1)
    else if c == TICK then (TSquote, 1)
    else if c == AT then (TAttrib, 1)
    else if FloatLen(s, pos) > 0 then (TFloat, FloatLen(s, pos))
    else if IsDigit(c) then (TNumber, RunLen(s, pos, IsDigit))
    else if RWord(c) then (TWord, WordLen(s, pos))
    else if c == QUOTE then
      var k := RunLen(s, pos + 1, RInString);
      if pos + 1 + k < |s| && s[pos + 1 + k] == QUOTE then (TString, k + 2) else (TNone, 0)
    else (TNone, 0)
  }

  /** @parse_stack and @mark_stack. */
  datatype Stacks = Stacks(values: seq<RVal>, marks: seq<nat>)

  /** Parser#collapse followed by pushing what `wrap` says. */
  function Collapse(st: Stacks, name: Option<Text>): Option<Stacks> {
    if st.marks == [] || st.marks[|st.marks| - 1] > |st.values| then None else
      var last := |st.marks| - 1;
      var top := st.marks[last];
      var items := RArr(st.values[top..]);
      Some(Stacks(st.values[..top] + [if name.Some? then RHash(name.value, items) else items], st.marks[..last]))
  }

  function PushVal(st: Stacks, v: RVal): Stacks { st.(values := st.values + [v]) }

  /** Parser#attrib on the top of the stack; popping an empty stack gives nil. */
  function NameTop(st: Stacks, name: Text): Stacks {
    if st.values == [] then PushVal(st, RHash(name, RNil))
    else st.(values := st.values[..|st.values| - 1] + [RHash(name, st.values[|st.values| - 1])])
  }

  /** Parser#squote behind the quote: digits, colon, that many bytes, quote; with the position behind. */
  function BlobAt(s: Text, pos: nat): (r: Option<(Text, nat)>)
    requires pos <= |s|
    ensures r.Some? ==> pos < r.value.1 <= |s|
  {
    var k := RunLen(s, pos, IsDigit);
    if k == 0 || !AllDigits(s[pos..pos + k]) || pos + k == |s| || s[pos + k] != COLON then None else
      var size, b := DecimalValue(s[pos..pos + k]), pos + k + 1;
      if b + size >= |s| || s[b + size] != TICK then None else Some((s[b..b + size], b + size + 1))
  }

  /** Parser#process from `pos` on; None is a raised error. */
  function Process(s: Text, pos: nat, st: Stacks): Option<seq<RVal>>
    requires pos <= |s|
    decreases |s| - pos
  {
    if pos == |s| then if st.marks == [] then Some(st.values) else None
    else
      var (tok, n) := Lex(s, pos);
      var text := s[pos..pos + n];
      match tok
      case TSpace => Process(s, pos + n, st)
      case TMark => Process(s, pos + n, st.(marks := st.marks + [|st.values|]))
      case TGroup => (match Collapse(st, None) case Some(st') => Process(s, pos + n, st') case None => None)
      case TWord => (match Collapse(st, Some(text)) case Some(st') => Process(s, pos + n, st') case None => None)
      case TSquote => (match BlobAt(s, pos + 1)
      case Some((b, next)) => Process(s, next, PushVal(st, RBlob(b))) case None => None)
      case TAttrib =>
        var k := WordLen(s, pos + 1);
        if k == 0 then None else Process(s, pos + 1 + k, NameTop(st, s[pos..pos + 1 + k]))
      case TNumber => Process(s, pos + n, PushVal(st, RInt(Digits(text))))
      case TFloat => Process(s, pos + n, PushVal(st, RFloat(text)))
      case TString => Process(s, pos + n, PushVal(st, RStr(s[pos + 1..pos + n - 1])))
      case TColon => None
      case TNone => None
  }

  // ---------------------------------------------------------------- the parser reads back what either side writes

  lemma SkipBlank(s: Text, p: nat, st: Stacks)
    requires p < |s| && RSpace(s[p])
    ensures Process(s, p, st) == Process(s, p + 1, st)
  {
    assert RunLen(s, p, RSpace) == 1 + RunLen(s, p + 1, RSpace);
  }

  /** One token that pushes a value. */
  lemma PushTok(s: Text, p: nat, n: nat, tok: Token, v: RVal, st: Stacks)
    requires p < |s| && Lex(s, p) == (tok, n) && p + n < |s| && s[p + n] == SPACE
    requires match tok
      case TNumber => v == RInt(Digits(s[p..p + n]))
      case TString => n >= 2 && v == RStr(s[p + 1..p + n - 1])
      case _ => false
    ensures Process(s, p, st) == Process(s, p + n + 1, PushVal(st, v))
  {
    assert Process(s, p, st) == Process(s, p + n, PushVal(st, v)) by { hide Lex; }
    hide Process;
    SkipBlank(s, p + n, PushVal(st, v));
  }

  lemma NumberTok(s: Text, p: nat, n: nat, st: Stacks)
    requires At(s, p, Decimal(n) + [SPACE])
    ensures Process(s, p, st) == Process(s, p + |Decimal(n)| + 1, PushVal(st, RInt(n)))
  {
    hide Process;
    var t, q := Decimal(n), p + |Decimal(n)|;
    AtSplit(s, p, t, [SPACE]);
    forall i | p <= i < q ensures IsDigit(s[i]) { AtIndex(s, p, t, i - p); }
    RunLenIs(s, p, IsDigit, q);
    DecimalRoundTrip(n);
    PushTok(s, p, |t|, TNumber, RInt(n), st);
  }

  lemma StringTok(s: Text, p: nat, t: Text, st: Stacks)
    requires QUOTE !in t && NEWLINE !in t && At(s, p, [QUOTE] + t + [QUOTE, SPACE])
    ensures Process(s, p, st) == Process(s, p + |t| + 3, PushVal(st, RStr(t)))
  {
    hide Process;
    AtSplit(s, p, [QUOTE] + t, [QUOTE, SPACE]);
    AtSplit(s, p, [QUOTE], t);
    var q := p + 1 + |t|;
    AtSplit(s, q, [QUOTE], [SPACE]);
    forall i | p + 1 <= i < q ensures RInString(s[i]) { AtIndex(s, p + 1, t, i - (p + 1)); }
    RunLenIs(s, p + 1, RInString, q);
    assert s[p] == QUOTE;
    assert RunLen(s, p, IsDigit) == 0;
    PushTok(s, p, |t| + 2, TString, RStr(t), st);
  }

  lemma BlobTok(s: Text, p: nat, b: Text, st: Stacks)
    requires At(s, p, [TICK] + Decimal(|b|) + [COLON] + b + [TICK, SPACE])
    ensures Process(s, p, st) == Process(s, p + |Decimal(|b|)| + |b| + 4, PushVal(st, RBlob(b)))
  {
    hide Process, Lex, BlobAt, Decimal, At;
    var e := p + 2 + |Decimal(|b|)| + |b|;
    BlobBytes(s, p, b);
    QuoteLex(s, p);
    BlobStep(s, p, b, e + 1, st);
    SkipBlank(s, e + 1, PushVal(st, RBlob(b)));
  }

  lemma QuoteLex(s: Text, p: nat)
    requires p < |s| && s[p] == TICK
    ensures Lex(s, p) == (TSquote, 1)
  {}

  lemma BlobStep(s: Text, p: nat, b: Text, next: nat, st: Stacks)
    requires p < |s| && Lex(s, p) == (TSquote, 1) && BlobAt(s, p + 1) == Some((b, next))
    ensures Process(s, p, st) == Process(s, next, PushVal(st, RBlob(b)))
  {
    hide Lex, BlobAt;
  }

  lemma BlobPieces(s: Text, p: nat, t: Text, b: Text)
    requires At(s, p, [TICK] + t + [COLON] + b + [TICK, SPACE])
    ensures At(s, p, [TICK]) && At(s, p + 1, t) && At(s, p + 1 + |t|, [COLON])
    ensures At(s, p + 2 + |t|, b) && At(s, p + 2 + |t| + |b|, [TICK, SPACE])
  {
    AtSplit(s, p, [TICK] + t + [COLON] + b, [TICK, SPACE]);
    AtSplit(s, p, [TICK] + t + [COLON], b);
    AtSplit(s, p, [TICK] + t, [COLON]);
    AtSplit(s, p, [TICK], t);
  }

  lemma DigitRun(s: Text, p: nat, t: Text)
    requires AllDigits(t) && At(s, p, t) && p + |t| < |s| && !IsDigit(s[p + |t|])
    ensures RunLen(s, p, IsDigit) == |t|
  {
    forall i | p <= i < p + |t| ensures IsDigit(s[i]) { AtIndex(s, p, t, i - p); }
    RunLenIs(s, p, IsDigit, p + |t|);
  }

  lemma BlobBytes(s: Text, p: nat, b: Text)
    requires At(s, p, [TICK] + Decimal(|b|) + [COLON] + b + [TICK, SPACE])
    ensures var e := p + 2 + |Decimal(|b|)| + |b|;
      s[p] == TICK && e + 1 < |s| && s[e + 1] == SPACE && BlobAt(s, p + 1) == Some((b, e + 1))
  {
    hide Decimal, DecimalValue, RunLen;
    var t := Decimal(|b|);
    BlobPieces(s, p, t, b);
    DigitRun(s, p + 1, t);
    AtIndex(s, p + 2 + |t| + |b|, [TICK, SPACE], 1);
    DecimalRoundTrip(|b|);
  }

  lemma WordRun(s: Text, p: nat, t: Text)
    requires IsWord(t) && At(s, p, t + [SPACE])
    ensures WordLen(s, p) == |t| && s[p..p + |t|] == t && s[p + |t|] == SPACE && IsAlpha(s[p])
  {
    AtSplit(s, p, t, [SPACE]);
    forall i | p <= i < p + |t| ensures s[i] == t[i - p] { AtIndex(s, p, t, i - p); }
    RunLenIs(s, p + 1, RWordTail, p + |t|);
  }

  lemma WordTok(s: Text, p: nat, t: Text, st: Stacks, st': Stacks)
    requires IsWord(t) && At(s, p, t + [SPACE]) && Collapse(st, Some(t)) == Some(st')
    ensures Process(s, p, st) == Process(s, p + |t| + 1, st')
  {
    hide Process, Lex, WordLen, Collapse, IsWord;
    WordRun(s, p, t);
    WordLex(s, p, |t|);
    WordStep(s, p, |t|, t, st, st');
    SkipBlank(s, p + |t|, st');
  }

  lemma WordLex(s: Text, p: nat, n: nat)
    requires p < |s| && IsAlpha(s[p]) && WordLen(s, p) == n
    ensures Lex(s, p) == (TWord, n)
  {
    hide WordLen;
    assert RunLen(s, p, IsDigit) == 0;
  }

  lemma WordStep(s: Text, p: nat, n: nat, t: Text, st: Stacks, st': Stacks)
    requires p < |s| && p + n <= |s| && Lex(s, p) == (TWord, n) && s[p..p + n] == t
    requires Collapse(st, Some(t)) == Some(st')
    ensures Process(s, p, st) == Process(s, p + n, st')
  {
    hide Lex, Collapse;
  }

  lemma AttrTok(s: Text, p: nat, t: Text, st: Stacks)
    requires IsAttr(t) && At(s, p, t + [SPACE])
    ensures Process(s, p, st) == Process(s, p + |t| + 1, NameTop(st, t))
  {
    hide Process, Lex, WordLen, NameTop;
    AttrRun(s, p, t);
    AttrLex(s, p);
    AttrStep(s, p, t, st);
    SkipBlank(s, p + |t|, NameTop(st, t));
  }

  lemma AttrRun(s: Text, p: nat, t: Text)
    requires IsAttr(t) && At(s, p, t + [SPACE])
    ensures p + |t| < |s| && s[p] == AT && WordLen(s, p + 1) == |t| - 1 > 0 && s[p..p + |t|] == t && s[p + |t|] == SPACE
  {
    hide WordLen;
    assert t + [SPACE] == [AT] + (t[1..] + [SPACE]);
    AtSplit(s, p, [AT], t[1..] + [SPACE]);
    WordRun(s, p + 1, t[1..]);
    AtSplit(s, p, t, [SPACE]);
  }

  lemma AttrLex(s: Text, p: nat)
    requires p < |s| && s[p] == AT
    ensures Lex(s, p).0 == TAttrib
  {}

  lemma AttrStep(s: Text, p: nat, t: Text, st: Stacks)
    requires p + |t| <= |s| && p < |s| && Lex(s, p).0 == TAttrib && WordLen(s, p + 1) == |t| - 1 > 0
    requires s[p..p + |t|] == t
    ensures Process(s, p, st) == Process(s, p + |t|, NameTop(st, t))
  {
    hide Lex, WordLen, NameTop;
    assert p + 1 + (|t| - 1) == p + |t|;
  }

  lemma BracketTok(s: Text, p: nat, c: byte, st: Stacks, st': Stacks)
    requires At(s, p, [c, SPACE])
    requires (c == OPEN && st' == st.(marks := st.marks + [|st.values|])) ||
      (c == CLOSE && Collapse(st, None) == Some(st'))
    ensures Process(s, p, st) == Process(s, p + 2, st')
  {
    AtSplit(s, p, [c], [SPACE]);
    assert Lex(s, p) == (if c == OPEN then TMark else TGroup, 1);
    assert Process(s, p, st) == Process(s, p + 1, st') by { hide Lex; }
    hide Process;
    SkipBlank(s, p + 1, st');
  }

  /** No string holds a newline, which the string pattern would not cross. */
  predicate LineFree(d: Tree) {
    d.Nil? || ((d.value.StringV? ==> NEWLINE !in d.value.s) && LineFree(d.sibling) && LineFree(d.child))
  }

  /** The text of a sibling chain pushes that chain, oldest first. */
  lemma {:induction false} ProcessChain(d: Tree, s: Text, p: nat, st: Stacks)
    requires WellFormed(d) && LineFree(d) && At(s, p, Print(d))
    ensures Process(s, p, st) == Process(s, p + |Print(d)|, st.(values := st.values + ChainVals(d)))
    decreases d, 2
  {
    hide Process, PrintOne, NodeVal;
    if d.Nil? {
      assert st.values + [] == st.values;
    } else {
      AtSplit(s, p, Print(d.sibling), PrintOne(d));
      ProcessChain(d.sibling, s, p, st);
      var st1 := st.(values := st.values + ChainVals(d.sibling));
      ProcessOne(d, s, p + |Print(d.sibling)|, st1);
      assert st1.values + [NodeVal(d)] == st.values + ChainVals(d);
    }
  }

  lemma {:induction false} ProcessGroup(d: Tree, s: Text, p: nat, st: Stacks)
    requires WellFormed(d) && LineFree(d) && d.Node? && d.value.GroupV? && At(s, p, Body(d))
    ensures Process(s, p, st) == Process(s, p + |Body(d)|, PushVal(st, NodeVal(Bare(d))))
    decreases d, 0
  {
    hide Process, Print, Body, Closing, ChainVals, NodeVal, PushVal, Collapse;
    GroupParts(d, s, p);
    var st1 := st.(marks := st.marks + [|st.values|]);
    BracketTok(s, p, OPEN, st, st1);
    ProcessChain(d.child, s, p + 2, st1);
    ProcessClosing(d, s, p + 2 + |Print(d.child)|, st);
  }

  /** A group's closing token collapses what was pushed behind its mark. */
  lemma ProcessClosing(d: Tree, s: Text, q: nat, st: Stacks)
    requires WellFormed(d) && d.Node? && d.value.GroupV? && At(s, q, Closing(d))
    ensures Process(s, q, Stacks(st.values + ChainVals(d.child), st.marks + [|st.values|])) ==
      Process(s, q + |Closing(d)|, PushVal(st, NodeVal(Bare(d))))
  {
    hide Process, Print, ChainVals;
    var kids := ChainVals(d.child);
    var st2 := Stacks(st.values + kids, st.marks + [|st.values|]);
    assert st2.values[|st.values|..] == kids && st2.values[..|st.values|] == st.values;
    assert st2.marks[..|st.marks|] == st.marks;
    if AnonymousClose(d) {
      BracketTok(s, q, CLOSE, st2, PushVal(st, RArr(kids)));
    } else {
      WordTok(s, q, d.name.value, st2, PushVal(st, RHash(d.name.value, RArr(kids))));
    }
  }

  lemma ProcessLeaf(d: Tree, s: Text, p: nat, st: Stacks)
    requires WellFormed(d) && LineFree(d) && d.Node? && !d.value.GroupV? && At(s, p, Body(d))
    ensures Process(s, p, st) == Process(s, p + |Body(d)|, PushVal(st, NodeVal(Bare(d))))
  {
    hide Process, Print, ChainVals, Closing, FloatFree, PushVal, Decimal, IsWord, IsAttr;
    match d.value {
      case NumberV(n) => NumberTok(s, p, n, st);
      case StringV(t) => CStringWhole(t); StringTok(s, p, t, st);
      case BlobV(b) => BlobTok(s, p, b, st);
    }
  }

  lemma {:induction false} ProcessOne(d: Tree, s: Text, p: nat, st: Stacks)
    requires WellFormed(d) && LineFree(d) && d.Node? && At(s, p, PrintOne(d))
    ensures Process(s, p, st) == Process(s, p + |PrintOne(d)|, PushVal(st, NodeVal(d)))
    decreases d, 1
  {
    hide Process, Print, PrintOne, Body;
    PrintParts(d);
    var named := if d == Bare(d) then [] else d.name.value + [SPACE];
    AtSplit(s, p, Body(d), named);
    if d.value.GroupV? { ProcessGroup(d, s, p, st); } else { ProcessLeaf(d, s, p, st); }
    if d != Bare(d) {
      var st1 := PushVal(st, NodeVal(Bare(d)));
      AttrTok(s, p + |Body(d)|, d.name.value, st1);
      assert st1.values[..|st.values|] == st.values;
    }
  }

  /** Utu::Stackish::Parser#process. */
  function Parse(s: Text): Option<seq<RVal>> { Process(s, 0, Stacks([], [])) }

  /**
   The Ruby parser reads back what either side writes, so the two ends of the wire hold the same
   tree: here `ChainVals(d)`, there `d`.
   */
  lemma ParserAgrees(d: Tree)
    requires WellFormed(d) && LineFree(d) && d.Node?
    ensures Parse(Emit(ChainVals(d))) == Some(ChainVals(d))
    ensures Document(d) ==> ParseSeq(Emit(ChainVals(d)), 0) == Parsed(d, |Emit(ChainVals(d))|)
  {
    hide Process, ParseSeq;
    EmitterAgrees(d);
    var s := Canonical(d);
    var n := |Print(d)|;
    assert At(s, 0, Print(d));
    ProcessChain(d, s, 0, Stacks([], []));
    assert [] + ChainVals(d) == ChainVals(d);
    SkipBlank(s, n, Stacks(ChainVals(d), []));
    ProcessEnd(s, ChainVals(d));
    if Document(d) { CanonicalRoundTrip(d); }
  }

  lemma ProcessEnd(s: Text, vs: seq<RVal>)
    ensures Process(s, |s|, Stacks(vs, [])) == Some(vs)
  {}

  /** The parser object: its two stacks, and the token loop that drives the handlers. */
  class StackishParser {
    var parseStack: seq<RVal>
    var markStack: seq<nat>

    constructor () { parseStack, markStack := [], []; }

    /** collapse, and pushing the group as it is or under a name; false when it is unbalanced. */
    method Group(name: Option<Text>) returns (ok: bool)
      modifies this
      ensures match Collapse(old(Stacks(parseStack, markStack)), name)
        case Some(st) => ok && Stacks(parseStack, markStack) == st
        case None => !ok
    {
      if markStack == [] || markStack[|markStack| - 1] > |parseStack| { return false; }
      var top := markStack[|markStack| - 1];
      markStack := markStack[..|markStack| - 1];
      var items := RArr(parseStack[top..]);
      parseStack := parseStack[..top] + [if name.Some? then RHash(name.value, items) else items];
      return true;
    }

    /** Parser#process. */
    method ProcessText(s: Text) returns (r: Option<seq<RVal>>)
      modifies this
      ensures r == Parse(s)
    {
      hide Lex, BlobAt, Collapse, WordLen;
      parseStack, markStack := [], [];
      var pos := 0;
      while pos < |s|
        invariant pos <= |s| && Process(s, pos, Stacks(parseStack, markStack)) == Parse(s)
        decreases |s| - pos
      {
        var (tok, n) := Lex(s, pos);
        var text := s[pos..pos + n];
        var next := pos + n;
        match tok {
          case TSpace =>
          case TMark => markStack := markStack + [|parseStack|];
          case TGroup =>
            var ok := Group(None);
            if !ok { return None; }
          case TWord =>
            var ok := Group(Some(text));
            if !ok { return None; }
          case TSquote =>
            var blob := BlobAt(s, pos + 1);
            if blob == None { return None; }
            parseStack, next := parseStack + [RBlob(blob.value.0)], blob.value.1;
          case TAttrib =>
            var k := WordLen(s, pos + 1);
            if k == 0 { return None; }
            next := pos + 1 + k;
            parseStack := NameTop(Stacks(parseStack, markStack), s[pos..next]).values;
          case TNumber => parseStack := parseStack + [RInt(Digits(text))];
          case TFloat => parseStack := parseStack + [RFloat(text)];
          case TString => parseStack := parseStack + [RStr(s[pos + 1..next - 1])];
          case TColon => return None;
          case TNone => return None;
        }
        pos := next;
      }
      return if markStack == [] then Some(parseStack) else None;
    }
  }
}
