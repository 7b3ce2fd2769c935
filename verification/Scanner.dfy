/**
 The Stackish token scanner: Ragel's generated tables with their two binary
 searches, and the token grammar they encode.
 */
module Scanner {
  import opened Bytes

  /** The scanner's actions; a transition runs at most two, in order. */
  datatype Act = NoAct | Mark | Number | Float | String | Start | Blob | Word | Group | More | Attrib

  datatype Move = Move(target: nat, first: Act, second: Act)

  const ERROR: nat := 0
  const READY: nat := 10   // start state, and the only one is_finished accepts
  const NSTATES: nat := 15

  const STUCK := Move(ERROR, NoAct, NoAct)

  /** The grammar between tokens: which token a character opens. */
  function OpenToken(c: byte): Move {
    if IsSpace(c) then Move(READY, NoAct, NoAct)
    else if c == QUOTE then Move(1, NoAct, NoAct)
    else if c == TICK then Move(3, NoAct, NoAct)
    else if c == 43 || c == 45 then Move(6, NoAct, Mark)
    else if c == AT then Move(9, NoAct, Mark)
    else if c == OPEN then Move(READY, NoAct, Start)
    else if c == CLOSE then Move(READY, NoAct, Group)
    else if IsDigit(c) then Move(14, NoAct, Mark)
    else if IsAlpha(c) then Move(13, NoAct, Mark)
    else STUCK
  }

  /** A token with no closing delimiter ends where the next one opens. */
  function EndToken(fin: Act, c: byte): Move {
    var m := OpenToken(c);
    if m == STUCK then STUCK else m.(first := fin)
  }

  /** The token grammar of stackish.rl as one transition function. */
  function Trans(cs: nat, c: byte): Move {
    match cs
    case 1 => if c == QUOTE then Move(READY, Mark, String) else Move(2, NoAct, Mark)
    case 2 => if c == QUOTE then Move(READY, NoAct, String) else Move(2, NoAct, NoAct)
    case 3 => if IsDigit(c) then Move(4, NoAct, Mark) else STUCK
    case 4 => if c == COLON then Move(5, NoAct, More) else if IsDigit(c) then Move(4, NoAct, NoAct) else STUCK
    case 5 => if c == TICK then Move(READY, NoAct, Blob) else STUCK
    case 6 => if IsDigit(c) then Move(7, NoAct, NoAct) else STUCK
    case 7 => if c == 46 then Move(8, NoAct, NoAct) else if IsDigit(c) then Move(7, NoAct, NoAct) else STUCK
    case 8 => if IsDigit(c) then Move(11, NoAct, NoAct) else STUCK
    case 9 => if IsAlpha(c) then Move(12, NoAct, NoAct) else STUCK
    case 10 => OpenToken(c)
    case 11 => if IsDigit(c) then Move(11, NoAct, NoAct) else EndToken(Float, c)
    case 12 => if IsWordChar(c) then Move(12, NoAct, NoAct) else EndToken(Attrib, c)
    case 13 => if IsWordChar(c) then Move(13, NoAct, NoAct) else EndToken(Word, c)
    case 14 =>
      if IsDigit(c) then Move(14, NoAct, NoAct)
      else if c == 46 then Move(8, NoAct, NoAct)
      else EndToken(Number, c)
    case _ => STUCK
  }

  /** A table key: the inclusive range of characters it covers and the transition it selects. */
  datatype Key = Key(lo: nat, hi: nat, move: Move)

  const SINGLE_LENGTHS: seq<int> := [0, 1, 1, 0, 1, 1, 0, 1, 0, 0, 8, 8, 8, 8, 9]
  const RANGE_LENGTHS: seq<int> := [0, 0, 0, 1, 1, 0, 1, 1, 1, 2, 4, 4, 5, 5, 4]

  /** The single-character keys of each state, in table order. */
  function SingleKey(cs: nat, i: nat): Key {
    match cs
    case 1 => Key(34, 34, Move(10, Mark, String))
    case 2 => Key(34, 34, Move(10, NoAct, String))
    case 4 => Key(58, 58, Move(5, NoAct, More))
    case 5 => Key(39, 39, Move(10, NoAct, Blob))
    case 7 => Key(46, 46, Move(8, NoAct, NoAct))
    case 10 => (
      match i
      case 0 => Key(32, 32, Move(10, NoAct, NoAct))
      case 1 => Key(34, 34, Move(1, NoAct, NoAct))
      case 2 => Key(39, 39, Move(3, NoAct, NoAct))
      case 3 => Key(43, 43, Move(6, NoAct, Mark))
      case 4 => Key(45, 45, Move(6, NoAct, Mark))
      case 5 => Key(64, 64, Move(9, NoAct, Mark))
      case 6 => Key(91, 91, Move(10, NoAct, Start))
      case _ => Key(93, 93, Move(10, NoAct, Group)))
    case 11 => (
      match i
      case 0 => Key(32, 32, Move(10, Float, NoAct))
      case 1 => Key(34, 34, Move(1, Float, NoAct))
      case 2 => Key(39, 39, Move(3, Float, NoAct))
      case 3 => Key(43, 43, Move(6, Float, Mark))
      case 4 => Key(45, 45, Move(6, Float, Mark))
      case 5 => Key(64, 64, Move(9, Float, Mark))
      case 6 => Key(91, 91, Move(10, Float, Start))
      case _ => Key(93, 93, Move(10, Float, Group)))
    case 12 => (
      match i
      case 0 => Key(32, 32, Move(10, Attrib, NoAct))
      case 1 => Key(34, 34, Move(1, Attrib, NoAct))
      case 2 => Key(39, 39, Move(3, Attrib, NoAct))
      case 3 => Key(43, 43, Move(6, Attrib, Mark))
      case 4 => Key(64, 64, Move(9, Attrib, Mark))
      case 5 => Key(91, 91, Move(10, Attrib, Start))
      case 6 => Key(93, 93, Move(10, Attrib, Group))
      case _ => Key(95, 95, Move(12, NoAct, NoAct)))
    case 13 => (
      match i
      case 0 => Key(32, 32, Move(10, Word, NoAct))
      case 1 => Key(34, 34, Move(1, Word, NoAct))
      case 2 => Key(39, 39, Move(3, Word, NoAct))
      case 3 => Key(43, 43, Move(6, Word, Mark))
      case 4 => Key(64, 64, Move(9, Word, Mark))
      case 5 => Key(91, 91, Move(10, Word, Start))
      case 6 => Key(93, 93, Move(10, Word, Group))
      case _ => Key(95, 95, Move(13, NoAct, NoAct)))
    case 14 => (
      match i
      case 0 => Key(32, 32, Move(10, Number, NoAct))
      case 1 => Key(34, 34, Move(1, Number, NoAct))
      case 2 => Key(39, 39, Move(3, Number, NoAct))
      case 3 => Key(43, 43, Move(6, Number, Mark))
      case 4 => Key(45, 45, Move(6, Number, Mark))
      case 5 => Key(46, 46, Move(8, NoAct, NoAct))
      case 6 => Key(64, 64, Move(9, Number, Mark))
      case 7 => Key(91, 91, Move(10, Number, Start))
      case _ => Key(93, 93, Move(10, Number, Group)))
    case _ => Key(0, 0, STUCK)
  }

  /** The range keys of each state, in table order. */
  function RangeKey(cs: nat, i: nat): Key {
    match cs
    case 3 => Key(48, 57, Move(4, NoAct, Mark))
    case 4 => Key(48, 57, Move(4, NoAct, NoAct))
    case 6 => Key(48, 57, Move(7, NoAct, NoAct))
    case 7 => Key(48, 57, Move(7, NoAct, NoAct))
    case 8 => Key(48, 57, Move(11, NoAct, NoAct))
    case 9 => (
      match i
      case 0 => Key(65, 90, Move(12, NoAct, NoAct))
      case _ => Key(97, 122, Move(12, NoAct, NoAct)))
    case 10 => (
      match i
      case 0 => Key(9, 13, Move(10, NoAct, NoAct))
      case 1 => Key(48, 57, Move(14, NoAct, Mark))
      case 2 => Key(65, 90, Move(13, NoAct, Mark))
      case _ => Key(97, 122, Move(13, NoAct, Mark)))
    case 11 => (
      match i
      case 0 => Key(9, 13, Move(10, Float, NoAct))
      case 1 => Key(48, 57, Move(11, NoAct, NoAct))
      case 2 => Key(65, 90, Move(13, Float, Mark))
      case _ => Key(97, 122, Move(13, Float, Mark)))
    case 12 => (
      match i
      case 0 => Key(9, 13, Move(10, Attrib, NoAct))
      case 1 => Key(45, 46, Move(12, NoAct, NoAct))
      case 2 => Key(48, 58, Move(12, NoAct, NoAct))
      case 3 => Key(65, 90, Move(12, NoAct, NoAct))
      case _ => Key(97, 122, Move(12, NoAct, NoAct)))
    case 13 => (
      match i
      case 0 => Key(9, 13, Move(10, Word, NoAct))
      case 1 => Key(45, 46, Move(13, NoAct, NoAct))
      case 2 => Key(48, 58, Move(13, NoAct, NoAct))
      case 3 => Key(65, 90, Move(13, NoAct, NoAct))
      case _ => Key(97, 122, Move(13, NoAct, NoAct)))
    case 14 => (
      match i
      case 0 => Key(9, 13, Move(10, Number, NoAct))
      case 1 => Key(48, 57, Move(14, NoAct, NoAct))
      case 2 => Key(65, 90, Move(13, Number, Mark))
      case _ => Key(97, 122, Move(13, Number, Mark)))
    case _ => Key(0, 0, STUCK)
  }

  /** The transition a state takes when no key matches. */
  function OtherMove(cs: nat): Move {
    match cs
    case 1 => Move(2, NoAct, Mark)
    case 2 => Move(2, NoAct, NoAct)
    case _ => STUCK
  }

  predicate Covers(k: Key, c: byte) { k.lo <= c <= k.hi }

  predicate MissesSingles(cs: nat, c: byte)
    requires cs < NSTATES
  {
    forall i: nat :: i < SINGLE_LENGTHS[cs] ==> !Covers(SingleKey(cs, i), c)
  }

  predicate MissesRanges(cs: nat, c: byte)
    requires cs < NSTATES
  {
    forall i: nat :: i < RANGE_LENGTHS[cs] ==> !Covers(RangeKey(cs, i), c)
  }

  lemma TablesAscend(cs: nat)
    requires cs < NSTATES
    ensures forall i: nat, j: nat :: i < j < SINGLE_LENGTHS[cs] ==> SingleKey(cs, i).hi < SingleKey(cs, j).lo
    ensures forall i: nat, j: nat :: i < j < RANGE_LENGTHS[cs] ==> RangeKey(cs, i).hi < RangeKey(cs, j).lo
    ensures forall i: nat :: i < SINGLE_LENGTHS[cs] ==> SingleKey(cs, i).lo == SingleKey(cs, i).hi
    ensures forall i: nat :: i < RANGE_LENGTHS[cs] ==> RangeKey(cs, i).lo <= RangeKey(cs, i).hi
  {}

  lemma SingleKeyMeansGrammar(cs: nat, i: nat, c: byte)
    requires cs < NSTATES && i < SINGLE_LENGTHS[cs] && Covers(SingleKey(cs, i), c)
    ensures SingleKey(cs, i).move == Trans(cs, c)
  {}

  lemma RangeKeyMeansGrammar(cs: nat, i: nat, c: byte)
    requires cs < NSTATES && i < RANGE_LENGTHS[cs] && Covers(RangeKey(cs, i), c) && MissesSingles(cs, c)
    ensures RangeKey(cs, i).move == Trans(cs, c)
  {}

  /** A character that opens or ends a token is a key of each of the five token-boundary states. */
  lemma BoundaryKeys(cs: nat, c: byte)
    requires 10 <= cs < NSTATES && MissesSingles(cs, c)
    ensures c != 32 && c != QUOTE && c != TICK && c != 43 && c != AT && c != OPEN && c != CLOSE
    ensures cs in {10, 11, 14} ==> c != 45
    ensures cs in {12, 13} ==> c != 95
    ensures cs == 14 ==> c != 46
  {
    ghost var keys := [SingleKey(cs, 0), SingleKey(cs, 1), SingleKey(cs, 2), SingleKey(cs, 3), SingleKey(cs, 4),
                       SingleKey(cs, 5), SingleKey(cs, 6), SingleKey(cs, 7), SingleKey(cs, 8)];
  }

  lemma NoKeyMeansGrammar(cs: nat, c: byte)
    requires cs < NSTATES && MissesSingles(cs, c) && MissesRanges(cs, c)
    ensures OtherMove(cs) == Trans(cs, c)
  {
    if cs >= 10 { BoundaryKeys(cs, c); }
    assert SINGLE_LENGTHS[cs] > 0 ==> !Covers(SingleKey(cs, 0), c);
    ghost var keys := [RangeKey(cs, 0), RangeKey(cs, 1), RangeKey(cs, 2), RangeKey(cs, 3), RangeKey(cs, 4)];
  }

  /** Binary search of the single-character keys. */
  method FindSingle(cs: nat, c: byte) returns (m: Option<Move>)
    requires cs < NSTATES
    ensures if m == None then MissesSingles(cs, c) else m == Some(Trans(cs, c))
  {
    TablesAscend(cs);
    var lower: int, upper: int := 0, SINGLE_LENGTHS[cs] - 1;
    while lower <= upper
      invariant 0 <= lower <= upper + 1 <= SINGLE_LENGTHS[cs]
      invariant forall i: nat :: i < SINGLE_LENGTHS[cs] && !(lower <= i <= upper) ==> !Covers(SingleKey(cs, i), c)
      decreases upper - lower
    {
      var mid := lower + (upper - lower) / 2;
      var k := SingleKey(cs, mid);
      if c < k.lo {
        upper := mid - 1;
      } else if c > k.lo {
        lower := mid + 1;
      } else {
        SingleKeyMeansGrammar(cs, mid, c);
        return Some(k.move);
      }
    }
    m := None;
  }

  /** Binary search of the range keys. */
  method FindRange(cs: nat, c: byte) returns (m: Option<Move>)
    requires cs < NSTATES && MissesSingles(cs, c)
    ensures if m == None then MissesRanges(cs, c) else m == Some(Trans(cs, c))
  {
    TablesAscend(cs);
    var lower: int, upper: int := 0, RANGE_LENGTHS[cs] - 1;
    while lower <= upper
      invariant 0 <= lower <= upper + 1 <= RANGE_LENGTHS[cs]
      invariant forall i: nat :: i < RANGE_LENGTHS[cs] && !(lower <= i <= upper) ==> !Covers(RangeKey(cs, i), c)
      decreases upper - lower
    {
      var mid := lower + (upper - lower) / 2;
      var k := RangeKey(cs, mid);
      if c < k.lo {
        upper := mid - 1;
      } else if c > k.hi {
        lower := mid + 1;
      } else {
        RangeKeyMeansGrammar(cs, mid, c);
        return Some(k.move);
      }
    }
    m := None;
  }

  /**
   The generated transition lookup (single keys, then ranges, then the default) computes the
   token grammar, in every state and on every character.
   */
  method Lookup(cs: nat, c: byte) returns (m: Move)
    requires cs < NSTATES
    ensures m == Trans(cs, c)
  {
    var hit := FindSingle(cs, c);
    if hit == None {
      hit := FindRange(cs, c);
      if hit == None {
        NoKeyMeansGrammar(cs, c);
        return OtherMove(cs);
      }
    }
    m := hit.value;
  }
}
