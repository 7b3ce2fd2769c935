/**
 Hate challenges: the challenger hides half a nonce below a bound set by the level, and the answerer
 searches for a value with the same hash.
 */
module Hate {
  import opened Bytes
  import opened Stackish
  import opened Messages
  import opened Channel
  import opened Handshake
  import Format

  const CHALLENGE_MSG: Text := [99, 104, 97, 108, 108, 101, 110, 103, 101]   // "challenge"
  const ANSWER_MSG: Text := [97, 110, 115, 119, 101, 114]                    // "answer"

  const MAX_LEVEL: nat := 30

  function Pow2(n: nat): (p: nat)
    ensures p > 0
  {
    if n == 0 then 1 else 2 * Pow2(n - 1)
  }

  /** The challenger's range: 1 << (level + 1). */
  function Range(level: nat): (r: nat)
    ensures r > 0
  {
    Pow2(level + 1)
  }

  /** The answerer's bound: level << (level + 1), in 64 bits. */
  function Bound(level: nat): nat { level * Pow2(level + 1) % TWO64 }

  lemma {:induction false} Pow2Grows(n: nat, m: nat)
    requires n <= m
    ensures Pow2(n) <= Pow2(m)
    decreases m
  {
    if n == m {
    } else {
      Pow2Grows(n, m - 1);
    }
  }

  lemma Pow2At31()
    ensures Pow2(31) == 0x8000_0000
  {
    assert Pow2(8) == 256;
    assert Pow2(16) == 0x1_0000;
    assert Pow2(24) == 0x100_0000;
  }

  /** Every level doubles what there is to search. */
  lemma RangeDoubles(level: nat)
    ensures Range(0) == 2 && Range(level + 1) == 2 * Range(level)
  {
    assert Pow2(1) == 2 * Pow2(0);
  }

  lemma MulGrows(a: nat, b: nat, x: nat, y: nat)
    requires a <= b && x <= y
    ensures a * x <= b * y
  {
    assert a * x <= b * x <= b * y;
  }

  /** From level 1 to 30 nothing wraps, and the search reaches past everything the challenger may have hidden. */
  lemma BoundCoversRange(level: nat)
    requires level <= MAX_LEVEL
    ensures Bound(level) == level * Range(level)
    ensures Range(level) <= Bound(level) <==> level >= 1
  {
    Pow2At31();
    Pow2Grows(level + 1, 31);
    hide Pow2;
    var p := Pow2(level + 1);
    MulGrows(level, 30, p, 0x8000_0000);
    if level >= 1 { MulGrows(1, level, p, p); }
  }

  function ChallengeFields(level: nat, left: nat, hash: Text): seq<Value> {
    [NumberV(level), NumberV(0), NumberV(left), BlobV(hash)]
  }

  function Challenge(level: nat, left: nat, hash: Text): Tree {
    Message(ChallengeFields(level, left, hash), CHALLENGE_MSG)
  }

  /** The answer carries the pair in the order that Node_decons swaps. */
  function Answer(left: nat, right: nat): Tree { Message([NumberV(left), NumberV(right)], ANSWER_MSG) }

  type Hash = (nat, nat) -> Text

  /** The least right half below `limit` with the given hash. */
  function Search(hash: Hash, left: nat, target: Text, right: nat, limit: nat): Option<nat>
    decreases limit - right
  {
    if right >= limit then None
    else if hash(left, right) == target then Some(right)
    else Search(hash, left, target, right + 1, limit)
  }

  lemma {:induction false} SearchFinds(hash: Hash, left: nat, target: Text, right: nat, limit: nat, hidden: nat)
    requires right <= hidden < limit && hash(left, hidden) == target
    ensures Search(hash, left, target, right, limit).Some?
    ensures right <= Search(hash, left, target, right, limit).value <= hidden
    ensures Search(hash, left, target, right, limit).value == hidden
       <==> forall r :: right <= r < hidden ==> hash(left, r) != target
    decreases hidden - right
  {
    if hash(left, right) == target {
    } else {
      SearchFinds(hash, left, target, right + 1, limit, hidden);
    }
  }

  lemma ChallengePair(level: nat, left: nat, hash: Text)
    ensures Pair(ChallengeFields(level, left, hash), "[nnnbw", "[bnnnw",
      [BlobV(hash), NumberV(left), NumberV(0), NumberV(level)])
  {}

  lemma ChallengeFormats(level: nat, left: nat, hash: Text)
    ensures Format.Cons("[nnnbw", Vals(ChallengeFields(level, left, hash)) + [Format.Name(CHALLENGE_MSG)])
         == Format.Made(Challenge(level, left, hash))
    ensures Outs(Challenge(level, left, hash), "[bnnnw", CHALLENGE_MSG)
         == [BlobV(hash), NumberV(left), NumberV(0), NumberV(level)]
  {
    hide Message, Format.Decons, Vals, Format.Cons, Pair;
    ChallengePair(level, left, hash);
    PairExchanges(ChallengeFields(level, left, hash), CHALLENGE_MSG, "[nnnbw", "[bnnnw",
                  [BlobV(hash), NumberV(left), NumberV(0), NumberV(level)]);
  }

  lemma AnswerPair(left: nat, right: nat)
    ensures Pair([NumberV(left), NumberV(right)], "[nnw", "[nnw", [NumberV(right), NumberV(left)])
  {}

  lemma AnswerFormats(left: nat, right: nat)
    ensures Format.Cons("[nnw", Vals([NumberV(left), NumberV(right)]) + [Format.Name(ANSWER_MSG)]) ==
      Format.Made(Answer(left, right))
    ensures Outs(Answer(left, right), "[nnw", ANSWER_MSG) == [NumberV(right), NumberV(left)]
  {
    hide Message, Format.Decons, Vals, Format.Cons, Pair;
    AnswerPair(left, right);
    PairExchanges([NumberV(left), NumberV(right)], ANSWER_MSG, "[nnw", "[nnw", [NumberV(right), NumberV(left)]);
  }

  /** CryptState_generate_hate_challenge, without the signature; `n` is the random nonce. */
  method Generate(level: nat, n: Nonce, hash: Hash) returns (expecting: Nonce, msg: Tree)
    requires level <= MAX_LEVEL
    ensures expecting.left == n.left && expecting.right == n.right % Range(level) < Range(level)
    ensures msg == Challenge(level, n.left, hash(n.left, expecting.right))
  {
    hide Pow2, Format.Cons, Message, Vals;
    expecting := Nonce(n.left, n.right % Range(level));
    var h := hash(expecting.left, expecting.right);
    var made := Format.Cons("[nnnbw", Vals(ChallengeFields(level, expecting.left, h)) + [Format.Name(CHALLENGE_MSG)]);
    ChallengeFormats(level, expecting.left, h);
    msg := made.tree;
  }

  /** CryptState_answer_hate_challenge, without the signatures. */
  method AnswerChallenge(challenge: Tree, maxAllowed: nat, hash: Hash) returns (answer: Option<Tree>)
    requires 0 < maxAllowed < 63
    ensures var o := Outs(challenge, "[bnnnw", CHALLENGE_MSG);
      if |o| == 4 && o[0].BlobV? && o[1].NumberV? && o[2].NumberV? && o[3].NumberV?
         && o[2].n == 0 && o[3].n <= maxAllowed
      then answer == match Search(hash, o[1].n, o[0].b, 0, Bound(o[3].n))
        case None => None
        case Some(right) => Some(Answer(o[1].n, right))
      else answer == None
  {
    hide Outs, Message, Vals, Format.Cons, Pow2;
    answer := None;
    var o := Outs(challenge, "[bnnnw", CHALLENGE_MSG);
    if !(|o| == 4 && o[0].BlobV? && o[1].NumberV? && o[2].NumberV? && o[3].NumberV?) { return; }
    var target, left, level := o[0].b, o[1].n, o[3].n;
    if o[2].n != 0 || level > maxAllowed { return; }
    var limit, right := Bound(level), 0;
    while right < limit
      invariant 0 <= right <= limit
      invariant Search(hash, left, target, right, limit) == Search(hash, left, target, 0, limit)
    {
      if hash(left, right) == target {
        var made := Format.Cons("[nnw", Vals([NumberV(left), NumberV(right)]) + [Format.Name(ANSWER_MSG)]);
        AnswerFormats(left, right);
        answer := Some(made.tree);
        return;
      }
      right := right + 1;
    }
  }

  /** CryptState_validate_hate_challenge, without the signature. */
  function Validates(answer: Tree, expecting: Nonce): bool {
    var o := Outs(answer, "[nnw", ANSWER_MSG);
    |o| == 2 && o[0].NumberV? && o[1].NumberV? && expecting.left == o[1].n && expecting.right == o[0].n
  }

  /**
   A challenge of an allowed level from 1 to 30 is always answered, and the answer is accepted
   exactly when no smaller value has the hidden one's hash; at level 0 no answer is found.
   */
  method Play(level: nat, n: Nonce, maxAllowed: nat, hash: Hash)
    returns (expecting: Nonce, answered: bool, accepted: bool)
    requires level <= MAX_LEVEL && 0 < maxAllowed < 63
    ensures answered <==> 1 <= level <= maxAllowed
    ensures accepted <==>
      answered && forall r :: 0 <= r < expecting.right ==> hash(n.left, r) != hash(n.left, expecting.right)
  {
    hide Pow2, Outs, Message, Bound, Range;
    var msg;
    expecting, msg := Generate(level, n, hash);
    var h := hash(n.left, expecting.right);
    ChallengeFormats(level, n.left, h);
    BoundCoversRange(level);
    NoBoundAtZero();
    if level >= 1 { SearchFinds(hash, n.left, h, 0, Bound(level), expecting.right); }
    var answer := AnswerChallenge(msg, maxAllowed, hash);
    answered := answer.Some?;
    accepted := false;
    if answered {
      AnswerFormats(n.left, Search(hash, n.left, h, 0, Bound(level)).value);
      accepted := Validates(answer.value, expecting);
    }
  }

  lemma NoBoundAtZero()
    ensures Bound(0) == 0
  {}

  /** An injective hash has no collisions to trip over. */
  lemma InjectiveAlwaysAccepted(hash: Hash, left: nat, hidden: nat)
    requires forall a, b :: hash(left, a) == hash(left, b) ==> a == b
    ensures forall r :: 0 <= r < hidden ==> hash(left, r) != hash(left, hidden)
  {}
}
