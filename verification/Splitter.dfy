/**
 bstrlib's splitters: the in-memory ones, the buffered stream they must agree with however the
 source is chunked, and the join that undoes a split.
 */
module Splitter {
  import opened Bytes
  import Bstring

  const BSTR_OK := Bstring.BSTR_OK
  const BSTR_ERR := Bstring.BSTR_ERR
  const READ_SIZE := 256

  // ---------------------------------------------------------------- what a split is

  /** Where the piece starting at `p` ends: at the first separator, or at the end of the text. */
  function PieceEnd(s: Text, chars: Text, p: nat): (e: nat)
    requires p <= |s|
    ensures p <= e <= |s| && (forall k :: p <= k < e ==> s[k] !in chars) && (e < |s| ==> s[e] in chars)
    decreases |s| - p
  {
    if p == |s| || s[p] in chars then p else PieceEnd(s, chars, p + 1)
  }

  type Callback = (nat, Text) -> int

  /** The calls a splitter makes from offset `p` on, and its result: the first negative return, or 0. */
  datatype Calls = Calls(log: seq<(nat, Text)>, ret: int)

  function Split(s: Text, chars: Text, cb: Callback, p: nat): Calls
    requires p <= |s|
    decreases |s| - p
  {
    var e := PieceEnd(s, chars, p);
    var rc := cb(p, s[p..e]);
    if rc < 0 then Calls([(p, s[p..e])], rc)
    else if e == |s| then Calls([(p, s[p..e])], 0)
    else
      var rest := Split(s, chars, cb, e + 1);
      Calls([(p, s[p..e])] + rest.log, rest.ret)
  }

  predicate IsPiece(s: Text, chars: Text, p: nat, e: nat) {
    p <= e <= |s| && (forall k :: p <= k < e ==> s[k] !in chars) && (e < |s| ==> s[e] in chars)
  }

  lemma PieceEndIs(s: Text, chars: Text, p: nat, e: nat)
    requires IsPiece(s, chars, p, e)
    ensures PieceEnd(s, chars, p) == e
  {}

  function End(call: (nat, Text)): nat { call.0 + |call.1| }

  /** A call hands over a maximal stretch of the text without separators, with its offset. */
  predicate IsCall(s: Text, chars: Text, call: (nat, Text)) {
    IsPiece(s, chars, call.0, End(call)) && call.1 == s[call.0..End(call)]
  }

  /** The next call starts behind the separator that ended this one, which the callback let pass. */
  predicate Follows(cb: Callback, call: (nat, Text), next: (nat, Text)) {
    cb(call.0, call.1) >= 0 && next.0 == End(call) + 1
  }

  /** A splitter is done with a negative return, which is its result, or with 0 at the end of the text. */
  predicate IsLast(s: Text, cb: Callback, call: (nat, Text), ret: int) {
    var rc := cb(call.0, call.1);
    if rc < 0 then ret == rc else End(call) == |s| && ret == 0
  }

  lemma {:induction false} SplitMeans(s: Text, chars: Text, cb: Callback, p: nat)
    requires p <= |s|
    ensures var c := Split(s, chars, cb, p);
      && |c.log| > 0 && c.log[0].0 == p
      && (forall i :: 0 <= i < |c.log| ==> IsCall(s, chars, c.log[i]))
      && (forall i :: 0 < i < |c.log| ==> Follows(cb, c.log[i - 1], c.log[i]))
      && IsLast(s, cb, c.log[|c.log| - 1], c.ret)
    decreases |s| - p
  {
    var e := PieceEnd(s, chars, p);
    if cb(p, s[p..e]) < 0 || e == |s| {
    } else {
      SplitMeans(s, chars, cb, e + 1);
      var c, rest := Split(s, chars, cb, p), Split(s, chars, cb, e + 1);
      assert forall i :: 0 < i < |c.log| ==> c.log[i] == rest.log[i - 1];
      assert Follows(cb, c.log[0], c.log[1]);
    }
  }

  function Logged(log: seq<(nat, Text)>, p: nat, piece: Text): seq<(nat, Text)> { log + [(p, piece)] }

  /** The calls in `log` and those from `p` on make up `goal`. */
  predicate Serving(s: Text, chars: Text, cb: Callback, log: seq<(nat, Text)>, p: nat, goal: Calls) {
    p <= |s| && log + Split(s, chars, cb, p).log == goal.log && Split(s, chars, cb, p).ret == goal.ret
  }

  lemma ServeFirst(s: Text, chars: Text, cb: Callback, p: nat)
    requires p <= |s|
    ensures Serving(s, chars, cb, [], p, Split(s, chars, cb, p))
  {}

  lemma ServeNext(s: Text, chars: Text, cb: Callback, log: seq<(nat, Text)>, p: nat, e: nat, goal: Calls)
    requires Serving(s, chars, cb, log, p, goal) && IsPiece(s, chars, p, e)
    ensures cb(p, s[p..e]) < 0 ==> Calls(Logged(log, p, s[p..e]), cb(p, s[p..e])) == goal
    ensures cb(p, s[p..e]) >= 0 && e == |s| ==> Calls(Logged(log, p, s[p..e]), 0) == goal
    ensures cb(p, s[p..e]) >= 0 && e < |s| ==> Serving(s, chars, cb, Logged(log, p, s[p..e]), e + 1, goal)
  {
    PieceEndIs(s, chars, p, e);
    hide PieceEnd;
    if cb(p, s[p..e]) >= 0 && e < |s| {
      var rest := Split(s, chars, cb, e + 1);
      assert log + ([(p, s[p..e])] + rest.log) == Logged(log, p, s[p..e]) + rest.log;
    }
  }

  // ---------------------------------------------------------------- in memory

  /** bsplitcb. */
  method SplitAt(s: Text, c: byte, pos: int, cb: Callback) returns (log: seq<(nat, Text)>, ret: int)
    ensures pos < 0 || pos > |s| ==> ret == BSTR_ERR && log == []
    ensures 0 <= pos <= |s| ==> Calls(log, ret) == Split(s, [c], cb, pos)
  {
    log := [];
    if pos < 0 || pos > |s| { return log, BSTR_ERR; }
    var p := pos;
    ghost var goal := Split(s, [c], cb, pos);
    ServeFirst(s, [c], cb, pos);
    hide Serving, Split;
    while true
      invariant 0 <= p <= |s| && Serving(s, [c], cb, log, p, goal)
      decreases |s| - p
    {
      var i := p;
      while i < |s|
        invariant p <= i <= |s| && forall k :: p <= k < i ==> s[k] != c
      {
        if s[i] == c { break; }
        i := i + 1;
      }
      ServeNext(s, [c], cb, log, p, i, goal);
      log := Logged(log, p, s[p..i]);
      ret := cb(p, s[p..i]);
      if ret < 0 { return; }
      p := i + 1;
      if p > |s| { break; }
    }
    ret := 0;
  }

  /** bsplitscb. */
  method SplitAtAny(s: Text, chars: Text, pos: int, cb: Callback) returns (log: seq<(nat, Text)>, ret: int)
    ensures pos < 0 || pos > |s| ==> ret == BSTR_ERR && log == []
    ensures 0 <= pos <= |s| ==> Calls(log, ret) == Split(s, chars, cb, if chars == [] then 0 else pos)
  {
    log := [];
    if pos < 0 || pos > |s| { return log, BSTR_ERR; }
    if |chars| == 0 {
      PieceEndIs(s, chars, 0, |s|);
      assert s[0..|s|] == s;
      ret := cb(0, s);
      return [(0, s)], if ret > 0 then 0 else ret;
    }
    if |chars| == 1 {
      assert chars == [chars[0]];
      log, ret := SplitAt(s, chars[0], pos, cb);
      return;
    }
    var p := pos;
    ghost var goal := Split(s, chars, cb, pos);
    ServeFirst(s, chars, cb, pos);
    hide Serving, Split;
    while true
      invariant 0 <= p <= |s| && Serving(s, chars, cb, log, p, goal)
      decreases |s| - p
    {
      var i := p;
      while i < |s|
        invariant p <= i <= |s| && forall k :: p <= k < i ==> s[k] !in chars
      {
        if s[i] in chars { break; }
        i := i + 1;
      }
      ServeNext(s, chars, cb, log, p, i, goal);
      log := Logged(log, p, s[p..i]);
      ret := cb(p, s[p..i]);
      if ret < 0 { return; }
      p := i + 1;
      if p > |s| { break; }
    }
    ret := 0;
  }

  // ---------------------------------------------------------------- the stream

  function Take(s: Text, n: nat): Text { if n < |s| then s[..n] else s }

  function Drop(s: Text, n: nat): Text { if n < |s| then s[n..] else [] }

  /** `r` is `r0` and what has been read of `all` so far; `left` is not read yet. */
  predicate Reading(r0: Text, all: Text, r: Text, left: Text) { |r0| <= |r| && r + left == r0 + all && r[..|r0|] == r0 }

  lemma ReadNothing(r0: Text, all: Text)
    ensures Reading(r0, all, r0, all)
  {}

  lemma ReadOn(r0: Text, all: Text, r: Text, x: Text, left: Text)
    requires Reading(r0, all, r, x + left)
    ensures Reading(r0, all, r + x, left)
  {
    assert r + x + left == r + (x + left);
  }

  lemma ReadEnough(r0: Text, all: Text, r: Text, left: Text, n: nat)
    requires Reading(r0, all, r, left) && |r| == |r0| + n
    ensures r == r0 + Take(all, n) && left == Drop(all, n)
  {
    assert |r + left| == |r0 + all|;
    assert r == (r0 + all)[..|r0| + n] && left == (r0 + all)[|r0| + n..];
  }

  lemma ReadAll(r0: Text, all: Text, r: Text, n: nat)
    requires Reading(r0, all, r, []) && |r| <= |r0| + n
    ensures r == r0 + Take(all, n) && Drop(all, n) == []
  {
    assert r + [] == r;
    assert |all| <= n;
  }

  /**
   A scan of `s` has reached `p + i`: it holds `held` from `p` on, no separator among the first `i`; `rem` is
   still to come.
   */
  predicate Window(s: Text, chars: Text, p: nat, held: Text, i: nat, rem: Text) {
    i <= |held| && p + i <= |s| && s[p..] == held + rem && forall k :: 0 <= k < i ==> held[k] !in chars
  }

  lemma WindowFirst(s: Text, chars: Text)
    ensures Window(s, chars, 0, [], 0, s)
  {}

  lemma WindowRead(s: Text, chars: Text, p: nat, held: Text, i: nat, rem: Text, n: nat)
    requires Window(s, chars, p, held, i, rem) && n > 0
    ensures Window(s, chars, p, held + Take(rem, n), i, Drop(rem, n))
    ensures i == |held + Take(rem, n)| ==> Drop(rem, n) == []
  {
    assert held + Take(rem, n) + Drop(rem, n) == held + rem;
  }

  lemma WindowEnd(s: Text, chars: Text, p: nat, held: Text, i: nat)
    requires Window(s, chars, p, held, i, []) && i == |held|
    ensures IsPiece(s, chars, p, |s|) && s[p..|s|] == held
  {
    assert s[p..] == held;
    assert forall k :: p <= k < |s| ==> s[k] == s[p..][k - p];
  }

  lemma WindowStep(s: Text, chars: Text, p: nat, held: Text, i: nat, rem: Text)
    requires Window(s, chars, p, held, i, rem) && i < |held| && held[i] !in chars
    ensures p + i < |s| && Window(s, chars, p, held, i + 1, rem)
  {
    assert |s[p..]| == |held + rem|;
  }

  lemma WindowCut(s: Text, chars: Text, p: nat, held: Text, i: nat, rem: Text)
    requires Window(s, chars, p, held, i, rem) && i < |held| && held[i] in chars
    ensures p + i < |s| && IsPiece(s, chars, p, p + i) && s[p..p + i] == held[..i]
    ensures Window(s, chars, p + i + 1, [], 0, held[i + 1..] + rem)
  {
    assert |s[p..]| == |held + rem|;
    assert forall k :: p <= k <= p + i ==> s[k] == s[p..][k - p] == held[k - p];
    assert s[p + i + 1..] == s[p..][i + 1..] == [] + (held[i + 1..] + rem);
  }

  /** A bStream: bytes read ahead, the bytes its source still holds, and how the coming reads are cut short. */
  class Stream {
    var buff: Text
    var source: Text
    var cuts: seq<nat>
    var isEOF: bool
    const maxBuffSz: nat

    constructor (source: Text, cuts: seq<nat>, maxBuffSz: nat)
      ensures this.source == source && this.cuts == cuts && this.maxBuffSz == maxBuffSz && buff == [] && !isEOF
    {
      this.source, this.cuts, this.maxBuffSz, buff, isEOF := source, cuts, maxBuffSz, [], false;
    }

    /** What the stream will still give. */
    function Remaining(): Text
      reads this
    {
      buff + source
    }

    /** readFnPtr: between one byte and `n` while the source has any. */
    method Read(n: nat) returns (got: Text)
      modifies this`source, this`cuts
      ensures old(source) == got + source && |got| <= n
      ensures got == [] <==> n == 0 || old(source) == []
    {
      var k := if |source| < n then |source| else n;
      if cuts != [] && k > 0 {
        if cuts[0] + 1 < k { k := cuts[0] + 1; }
        cuts := cuts[1..];
      }
      got := source[..k];
      source := source[k..];
    }

    /** bsreada: the next `n` bytes, or what is left, appended to `r0`. */
    method Reada(r0: Text, n: int) returns (rc: int, r: Text)
      requires maxBuffSz > 0
      modifies this
      ensures n <= 0 ==> rc == BSTR_ERR && r == r0 && Remaining() == old(Remaining())
      ensures n > 0 ==> r == r0 + Take(old(Remaining()), n) && Remaining() == Drop(old(Remaining()), n)
      ensures n > 0 ==> rc == if r == [] then BSTR_ERR else BSTR_OK
    {
      r := r0;
      if n <= 0 { return BSTR_ERR, r; }
      var end := n + |r|;
      var b := buff;
      ghost var all := Remaining();
      ReadNothing(r0, all);
      hide Reading, Take, Drop;
      while true
        invariant |r| < end && Reading(r0, all, r, b + source)
        decreases |source|
      {
        if |b| + |r| >= end {
          var k := end - |r|;
          ReadOn(r0, all, r, b[..k], b[k..] + source);
          assert b[..k] + (b[k..] + source) == b + source;
          ReadEnough(r0, all, r + b[..k], b[k..] + source, n);
          r := r + b[..k];
          buff := b[k..];
          return if |r| == 0 then BSTR_ERR else BSTR_OK, r;
        }
        ReadOn(r0, all, r, b, source);
        r := r + b;
        var l := end - |r|;
        if l > maxBuffSz { l := maxBuffSz; }
        b := Read(l);
        if |b| == 0 { break; }
      }
      ReadAll(r0, all, r, n);
      isEOF := true;
      buff := [];
      rc := if |r| == 0 then BSTR_ERR else BSTR_OK;
    }

    /** bsunread: put `t` back in front. */
    method Unread(t: Text)
      modifies this`buff
      ensures Remaining() == t + old(Remaining())
    {
      buff := t + buff;
    }

    /** bssplitscb, on every input on which it ends: see ReadsUntilFailure for the others. */
    method SplitStream(chars: Text, cb: Callback) returns (log: seq<(nat, Text)>, ret: int)
      requires maxBuffSz > 0 && (chars != [] || Remaining() == [])
      modifies this
      ensures Calls(log, ret) == Split(old(Remaining()), chars, cb, 0)
    {
      ghost var s := Remaining();
      if |chars| == 0 {
        var rc, held := Reada([], READ_SIZE);
        assert rc == BSTR_ERR && s[0..0] == held;
        ret := cb(0, held);
        return [(0, held)], if ret > 0 then 0 else ret;
      }
      ServeFirst(s, chars, cb, 0);
      WindowFirst(s, chars);
      log, ret := SplitLoop(chars, cb, s, Split(s, chars, cb, 0));
    }

    method SplitLoop(chars: Text, cb: Callback, ghost s: Text, ghost goal: Calls)
      returns (log: seq<(nat, Text)>, ret: int)
      requires maxBuffSz > 0 && chars != []
      requires Window(s, chars, 0, [], 0, Remaining()) && Serving(s, chars, cb, [], 0, goal)
      modifies this
      ensures Calls(log, ret) == goal
    {
      hide Serving, Split, Window, IsPiece, Take, Drop, Logged;
      log, ret := [], 0;
      var held: Text := [];
      var p, i := 0, 0;
      while true
        invariant 0 <= i <= |held| && 0 <= p && p + i <= |s|
        invariant Window(s, chars, p, held, i, Remaining()) && Serving(s, chars, cb, log, p, goal)
        decreases |s| - (p + i)
      {
        if i >= |held| {
          WindowRead(s, chars, p, held, i, Remaining(), READ_SIZE);
          var rc;
          rc, held := Reada(held, READ_SIZE);
          if i >= |held| {
            WindowEnd(s, chars, p, held, i);
            ServeNext(s, chars, cb, log, p, |s|, goal);
            log := Logged(log, p, held);
            ret := cb(p, held);
            if 0 < ret { ret := 0; }
            break;
          }
        }
        if held[i] in chars {
          WindowCut(s, chars, p, held, i, Remaining());
          ServeNext(s, chars, cb, log, p, p + i, goal);
          Unread(held[i + 1..]);
          held := held[..i];
          log := Logged(log, p, held);
          ret := cb(p, held);
          if ret < 0 { break; }
          held := [];
          p := p + i + 1;
          i := -1;
        } else {
          WindowStep(s, chars, p, held, i, Remaining());
        }
        i := i + 1;
      }
    }
  }

  /**
   The stream splitter and the in-memory one make the same calls and return the same, however the source is
   chunked.
   */
  method SplitBoth(s: Text, cuts: seq<nat>, maxBuffSz: nat, chars: Text, cb: Callback)
    returns (streamed: Calls, inMemory: Calls)
    requires maxBuffSz > 0 && (chars != [] || s == [])
    ensures streamed == inMemory == Split(s, chars, cb, 0)
  {
    var stream := new Stream(s, cuts, maxBuffSz);
    assert stream.Remaining() == s;
    var log, ret := stream.SplitStream(chars, cb);
    streamed := Calls(log, ret);
    log, ret := SplitAtAny(s, chars, 0, cb);
    inMemory := Calls(log, ret);
  }

  // ---------------------------------------------------------------- splitting on nothing

  /** What has been read and what is left after `k` calls of bsreada from a stream holding `rem`. */
  function Rounds(rem: Text, k: nat): (Text, Text) {
    if k == 0 then ([], rem) else
      var (r, left) := Rounds(rem, k - 1);
      (r + Take(left, READ_SIZE), Drop(left, READ_SIZE))
  }

  /**
   With no separator characters bssplitscb calls bsreada until it fails. Since bsreada fails only
   on an empty result and the result is never emptied, the loop ends (at once) exactly when the
   stream is empty.
   */
  lemma {:induction false} ReadsUntilFailure(rem: Text, k: nat)
    requires k > 0
    ensures Rounds(rem, k).0 == [] <==> rem == []
    ensures Rounds(rem, k).0 + Rounds(rem, k).1 == rem
  {
    if k == 1 {
      assert Rounds(rem, 0) == ([], rem);
      assert Take(rem, READ_SIZE) + Drop(rem, READ_SIZE) == rem;
    } else {
      ReadsUntilFailure(rem, k - 1);
      var (r, left) := Rounds(rem, k - 1);
      assert r + Take(left, READ_SIZE) + Drop(left, READ_SIZE) == r + left;
    }
  }

  /**
   The loop bssplitscb runs when there are no separator characters, cut off after `k` rounds: no
   round fails, so that the loop goes on, exactly when the stream is not empty.
   */
  method ReadRounds(st: Stream, k: nat) returns (r: Text, ok: bool)
    requires st.maxBuffSz > 0 && k > 0
    modifies st
    ensures (r, st.Remaining()) == Rounds(old(st.Remaining()), k)
    ensures ok <==> old(st.Remaining()) != []
  {
    r, ok := [], true;
    ghost var rem := st.Remaining();
    for i := 0 to k
      invariant (r, st.Remaining()) == Rounds(rem, i) && (i > 0 ==> (ok <==> rem != []))
      invariant i == 0 ==> ok
    {
      hide Take, Drop;
      ReadsUntilFailure(rem, i + 1);
      var rc;
      rc, r := st.Reada(r, READ_SIZE);
      ok := ok && rc == BSTR_OK;
    }
  }

  // ---------------------------------------------------------------- join

  function Joined(bl: seq<Text>, sep: Text): Text {
    if bl == [] then [] else if |bl| == 1 then bl[0] else Joined(bl[..|bl| - 1], sep) + sep + bl[|bl| - 1]
  }

  lemma {:induction false} JoinedFront(x: Text, bl: seq<Text>, sep: Text)
    requires bl != []
    ensures Joined([x] + bl, sep) == x + sep + Joined(bl, sep)
  {
    var all := [x] + bl;
    var init := bl[..|bl| - 1];
    assert all[..|all| - 1] == [x] + init && all[|all| - 1] == bl[|bl| - 1];
    if |bl| == 1 {
      assert [x] + init == [x];
    } else {
      JoinedFront(x, init, sep);
      assert x + sep + Joined(init, sep) + sep + bl[|bl| - 1] == x + sep + (Joined(init, sep) + sep + bl[|bl| - 1]);
    }
  }

  function Texts(log: seq<(nat, Text)>): seq<Text> { seq(|log|, i requires 0 <= i < |log| => log[i].1) }

  /** bscb: keep every piece. */
  function Keep(ofs: nat, piece: Text): int { 0 }

  /** bsplit. */
  method Bsplit(s: Text, c: byte) returns (bl: seq<Text>)
    ensures bl == Texts(Split(s, [c], Keep, 0).log)
    ensures Joined(bl, [c]) == s && Free(bl, c)
  {
    var log, ret := SplitAt(s, c, 0, Keep);
    bl := Texts(log);
    SplitCuts(s, c, 0);
  }

  function Pieces(s: Text, c: byte, p: nat): seq<Text>
    requires p <= |s|
  {
    Texts(Split(s, [c], Keep, p).log)
  }

  lemma PiecesNext(s: Text, c: byte, p: nat)
    requires p <= |s|
    ensures PieceEnd(s, [c], p) == |s| ==> Pieces(s, c, p) == [s[p..]]
    ensures PieceEnd(s, [c], p) < |s| ==>
      Pieces(s, c, p) == [s[p..PieceEnd(s, [c], p)]] + Pieces(s, c, PieceEnd(s, [c], p) + 1)
  {
    var e := PieceEnd(s, [c], p);
    hide PieceEnd;
    assert e == |s| ==> s[p..e] == s[p..];
    var log := Split(s, [c], Keep, p).log;
    if e < |s| {
      var rest := Split(s, [c], Keep, e + 1).log;
      assert log == [(p, s[p..e])] + rest;
      TextsNext(p, s[p..e], rest);
    }
  }

  lemma TextsNext(p: nat, t: Text, rest: seq<(nat, Text)>)
    ensures Texts([(p, t)] + rest) == [t] + Texts(rest)
  {}

  predicate Free(bl: seq<Text>, c: byte) { forall i :: 0 <= i < |bl| ==> c !in bl[i] }

  lemma PieceFree(s: Text, c: byte, p: nat, e: nat)
    requires IsPiece(s, [c], p, e)
    ensures c !in s[p..e] && (if e < |s| then s[p..] == s[p..e] + [c] + s[e + 1..] else c !in s[p..])
  {
    assert forall k :: 0 <= k < e - p ==> s[p..e][k] == s[p + k];
  }

  lemma Assemble(piece: Text, rest: seq<Text>, tail: Text, c: byte)
    requires rest != [] && Joined(rest, [c]) == tail && Free(rest, c) && c !in piece
    ensures Joined([piece] + rest, [c]) == piece + [c] + tail && Free([piece] + rest, c)
  {
    JoinedFront(piece, rest, [c]);
  }

  lemma Alone(piece: Text, c: byte)
    requires c !in piece
    ensures Joined([piece], [c]) == piece && Free([piece], c)
  {}

  /** The pieces of a split hold no separator, and joined by it they are the text again. */
  lemma {:induction false} SplitCuts(s: Text, c: byte, p: nat)
    requires p <= |s|
    ensures Pieces(s, c, p) != [] && Joined(Pieces(s, c, p), [c]) == s[p..] && Free(Pieces(s, c, p), c)
    decreases |s| - p
  {
    var e := PieceEnd(s, [c], p);
    PiecesNext(s, c, p);
    PieceFree(s, c, p, e);
    hide PieceEnd, Pieces, Joined, Free;
    if e < |s| {
      SplitCuts(s, c, e + 1);
      Assemble(s[p..e], Pieces(s, c, e + 1), s[e + 1..], c);
    } else {
      Alone(s[p..], c);
    }
  }

  function Total(bl: seq<Text>): nat { if bl == [] then 0 else Total(bl[..|bl| - 1]) + |bl[|bl| - 1]| }

  lemma {:induction false} JoinedLength(bl: seq<Text>, sep: Text)
    requires bl != []
    ensures |Joined(bl, sep)| == Total(bl) + (|bl| - 1) * |sep|
  {
    var init := bl[..|bl| - 1];
    if |bl| > 1 {
      JoinedLength(init, sep);
      assert (|bl| - 1) * |sep| == (|bl| - 2) * |sep| + |sep|;
    } else {
      assert init == [];
    }
  }

  lemma {:induction false} JoinedGrows(bl: seq<Text>, sep: Text, i: nat)
    requires i <= |bl|
    ensures |Joined(bl[..i], sep)| <= |Joined(bl, sep)|
    decreases |bl|
  {
    if i < |bl| {
      var init := bl[..|bl| - 1];
      JoinedGrows(init, sep, i);
      assert init[..i] == bl[..i];
    } else {
      assert bl[..i] == bl;
    }
  }

  /** The entries joined so far, with the separator that precedes the next one. */
  function Lead(i: nat, sep: Text): Text { if i > 0 then sep else [] }

  lemma JoinedNext(bl: seq<Text>, sep: Text, i: nat)
    requires i < |bl|
    ensures Joined(bl[..i + 1], sep) == Joined(bl[..i], sep) + Lead(i, sep) + bl[i]
  {
    var t := bl[..i + 1];
    assert t[..|t| - 1] == bl[..i] && t[|t| - 1] == bl[i];
    if i == 0 { assert bl[..0] == []; }
  }

  /** Write `t` at `at` behind `done`. */
  method Append(data: array<byte>, at: nat, t: Text, ghost done: Text)
    requires at + |t| <= data.Length && data[..at] == done
    modifies data
    ensures data[..at + |t|] == done + t
  {
    Bstring.PutEnd(data[..], at, t);
    hide Bstring.Put;
    Bstring.Memcpy(data, at, t);
  }

  /** bjoin. `outside`: it has got memory for no byte at all, and writes the terminator behind it. */
  method Bjoin(bl: seq<Text>, sep: Text) returns (b: Bstring.Buffer?, outside: bool)
    ensures b != null <==> bl != [] || sep == []
    ensures b != null ==> fresh(b) && b.Valid() && b.Terminated() && b.Contents() == Joined(bl, sep)
    ensures outside <==> bl == [] && |sep| == 1
  {
    hide Joined;
    var i, c: int := 0, 1;
    while i < |bl|
      invariant 0 <= i <= |bl| && c == 1 + Total(bl[..i])
    {
      assert bl[..i + 1][..i] == bl[..i];
      c := c + |bl[i]|;
      i := i + 1;
    }
    assert bl[..i] == bl;
    c := c + (|bl| - 1) * |sep|;
    outside := c == 0;
    if c <= 0 {
      JoinRoom(bl, sep);
      return null, outside;
    }
    JoinRoom(bl, sep);
    JoinSize(bl, sep);
    var data := new byte[c];
    var slen: nat := c - 1;
    i, c := 0, 0;
    NothingJoined(bl, sep);
    while i < |bl|
      invariant 0 <= i <= |bl| && 0 <= c <= slen && c == |Joined(bl[..i], sep)| && data[..c] == Joined(bl[..i], sep)
    {
      JoinedNext(bl, sep, i);
      JoinedGrows(bl, sep, i + 1);
      ghost var done := Joined(bl[..i], sep);
      var lead := Lead(i, sep);
      Append(data, c, lead, done);
      c := c + |lead|;
      Append(data, c, bl[i], done + lead);
      c := c + |bl[i]|;
      i := i + 1;
    }
    assert bl[..i] == bl;
    data[c] := 0;
    b := new Bstring.Buffer.Over(data, slen);
  }

  /** There is room for the terminator unless the list is empty and the separator is not. */
  lemma JoinRoom(bl: seq<Text>, sep: Text)
    ensures 1 + Total(bl) + (|bl| - 1) * |sep| > 0 <==> bl != [] || sep == []
    ensures 1 + Total(bl) + (|bl| - 1) * |sep| == 0 <==> bl == [] && |sep| == 1
  {
    if bl == [] {
      assert Total(bl) == 0 && |bl| == 0;
      hide Total;
      Gaps(0, |sep|);
    } else {
      hide Total;
      Gaps(|bl|, |sep|);
    }
  }

  lemma Gaps(n: nat, len: nat)
    ensures n > 0 ==> (n - 1) * len >= 0
    ensures n == 0 ==> (n - 1) * len == 0 - len
  {}

  lemma JoinSize(bl: seq<Text>, sep: Text)
    requires bl != [] || sep == []
    ensures |Joined(bl, sep)| == Total(bl) + (|bl| - 1) * |sep|
  {
    if bl != [] { JoinedLength(bl, sep); }
  }

  lemma NothingJoined(bl: seq<Text>, sep: Text)
    ensures Joined(bl[..0], sep) == []
  {}

  /** Joining what bsplit cut, with the character it cut at, gives the text back. */
  method SplitThenJoin(s: Text, c: byte) returns (b: Bstring.Buffer)
    ensures fresh(b) && b.Valid() && b.Contents() == s
  {
    var bl := Bsplit(s, c);
    SplitCuts(s, c, 0);
    var joined, _ := Bjoin(bl, [c]);
    b := joined;
  }
}
