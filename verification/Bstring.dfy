/**
 bstrlib's in-place algorithms: a length-counted buffer, its search, and find/replace with its
 three strategies (equal length, shrinking, expanding).
 */
module Bstring {
  import opened Bytes

  const BSTR_OK := 0
  const BSTR_ERR := -1

  // ---------------------------------------------------------------- what find/replace means

  predicate Occurs(s: Text, i: nat, f: Text) { i + |f| <= |s| && s[i..i + |f|] == f }

  /** No occurrence of `f` starts in [a, b). */
  predicate Free(s: Text, f: Text, a: nat, b: nat) { forall q: nat :: a <= q < b ==> !Occurs(s, q, f) }

  /** The text from `pos` on with every leftmost non-overlapping occurrence replaced, in one pass. */
  function ReplaceFrom(s: Text, f: Text, r: Text, pos: nat): Text
    requires pos <= |s| && f != []
    decreases |s| - pos
  {
    if pos == |s| then []
    else if Occurs(s, pos, f) then r + ReplaceFrom(s, f, r, pos + |f|)
    else [s[pos]] + ReplaceFrom(s, f, r, pos + 1)
  }

  function Replaced(s: Text, f: Text, r: Text, pos: nat): Text
    requires pos <= |s| && f != []
  {
    s[..pos] + ReplaceFrom(s, f, r, pos)
  }

  lemma CopyOne(s: Text, f: Text, r: Text, a: nat)
    requires f != [] && a < |s| && !Occurs(s, a, f)
    ensures ReplaceFrom(s, f, r, a) == [s[a]] + ReplaceFrom(s, f, r, a + 1)
  {}

  lemma {:induction false} CopyFree(s: Text, f: Text, r: Text, a: nat, b: nat)
    requires f != [] && a <= b <= |s| && Free(s, f, a, b)
    ensures ReplaceFrom(s, f, r, a) == s[a..b] + ReplaceFrom(s, f, r, b)
    decreases b - a
  {
    hide ReplaceFrom, Occurs;
    if a == b {
    } else {
      CopyOne(s, f, r, a);
      CopyFree(s, f, r, a + 1, b);
      assert s[a..b] == [s[a]] + s[a + 1..b];
    }
  }

  /**
   Up to an occurrence the text is copied; there the replacement goes in, and the scan resumes behind the
   occurrence.
   */
  lemma ReplaceNext(s: Text, f: Text, r: Text, a: nat, i: nat)
    requires f != [] && a <= i <= |s| && Free(s, f, a, i) && Occurs(s, i, f)
    ensures ReplaceFrom(s, f, r, a) == s[a..i] + r + ReplaceFrom(s, f, r, i + |f|)
  {
    CopyFree(s, f, r, a, i);
  }

  lemma ReplaceNone(s: Text, f: Text, r: Text, a: nat)
    requires f != [] && a <= |s| && Free(s, f, a, |s|)
    ensures ReplaceFrom(s, f, r, a) == s[a..]
  {
    CopyFree(s, f, r, a, |s|);
  }

  /** What a search for `f` from `pos` gives: the leftmost occurrence, or BSTR_ERR when there is none. */
  predicate Hit(s: Text, f: Text, pos: nat, i: int) {
    if i < 0 then i == BSTR_ERR && Free(s, f, pos, |s|) else pos <= i && Occurs(s, i, f) && Free(s, f, pos, i)
  }

  lemma TooLate(s: Text, f: Text, l: int)
    requires l == |s| - |f| + 1
    ensures forall q: nat :: l <= q ==> !Occurs(s, q, f)
  {}

  lemma OneMore(s: Text, f: Text, i: nat, j: nat)
    requires i + j < |s| && j < |f| && s[i..i + j] == f[..j] && f[j] == s[i + j]
    ensures s[i..i + (j + 1)] == f[..j + 1]
  {
    assert s[i..i + (j + 1)] == s[i..i + j] + [s[i + j]];
    assert f[..j + 1] == f[..j] + [f[j]];
  }

  lemma Mismatch(s: Text, f: Text, pos: nat, i: nat, j: nat)
    requires Free(s, f, pos, i) && i + |f| <= |s| && j < |f| && f[j] != s[i + j]
    ensures Free(s, f, pos, i + 1)
  {
    assert s[i..i + |f|][j] == s[i + j];
  }

  lemma HitFits(s: Text, f: Text, pos: nat, i: nat)
    requires Hit(s, f, pos, i)
    ensures pos <= i && i + |f| <= |s|
  {}

  lemma MissIsErr(s: Text, f: Text, pos: nat, i: int)
    requires Hit(s, f, pos, i) && i < 0
    ensures i == BSTR_ERR
  {}

  lemma Slice(s: Text, a: nat, b: nat, c: nat)
    requires a <= b <= c <= |s|
    ensures s[a..][b - a..c - a] == s[b..c]
  {}

  lemma SameTail(s: Text, t: Text, f: Text, a: nat, q: nat)
    requires |s| == |t| && a <= |s| && s[a..] == t[a..] && a <= q
    ensures Occurs(s, q, f) <==> Occurs(t, q, f)
  {
    if q + |f| <= |s| {
      Slice(s, a, q, q + |f|);
      Slice(t, a, q, q + |f|);
    }
  }

  /** A search looks only at the text from `pos` on. */
  lemma SameHit(s: Text, t: Text, f: Text, pos: nat, i: int)
    requires |s| == |t| && pos <= |s| && s[pos..] == t[pos..] && Hit(t, f, pos, i)
    ensures Hit(s, f, pos, i)
  {
    hide Occurs;
    forall q: nat | pos <= q ensures Occurs(s, q, f) <==> Occurs(t, q, f) { SameTail(s, t, f, pos, q); }
  }

  /** From `at` on, the goal `g` is what replacing from `pos` on gives. */
  predicate Owed(g: Text, s: Text, f: Text, r: Text, pos: nat, at: nat) {
    f != [] && pos <= |s| && at <= |g| && g[at..] == ReplaceFrom(s, f, r, pos)
  }

  /** `t` reads like `s` over [a, b). */
  predicate Same(t: Text, s: Text, a: nat, b: nat) {
    b <= |t| && b <= |s| && forall k :: a <= k < b ==> t[k] == s[k]
  }

  lemma OwedFirst(s: Text, f: Text, r: Text, from: nat)
    requires f != [] && from <= |s|
    ensures Owed(Replaced(s, f, r, from), s, f, r, from, from) && Same(s, Replaced(s, f, r, from), 0, from)
  {
    hide ReplaceFrom;
  }

  /** One occurrence's worth of the goal: the text before it, the replacement, and what is owed behind it. */
  lemma OwedNext(g: Text, s: Text, f: Text, r: Text, pos: nat, at: nat, i: nat)
    requires Owed(g, s, f, r, pos, at) && Hit(s, f, pos, i)
    ensures i + |f| <= |s| && Owed(g, s, f, r, i + |f|, at + (i - pos) + |r|)
    ensures g[at..at + (i - pos)] == s[pos..i] && g[at + (i - pos)..at + (i - pos) + |r|] == r
  {
    ReplaceNext(s, f, r, pos, i);
    var rest := ReplaceFrom(s, f, r, i + |f|);
    hide ReplaceFrom, Free, Occurs;
    Tail3(g, at, s[pos..i], r, rest);
  }

  lemma Tail3(g: Text, at: nat, x: Text, y: Text, z: Text)
    requires at <= |g| && g[at..] == x + y + z
    ensures at + |x| + |y| <= |g| && g[at + |x| + |y|..] == z
    ensures g[at..at + |x|] == x && g[at + |x|..at + |x| + |y|] == y
  {
    assert g[at..][|x| + |y|..] == z && g[at..][..|x|] == x && g[at..][|x|..|x| + |y|] == y;
  }

  lemma OwedLast(g: Text, s: Text, f: Text, r: Text, pos: nat, at: nat)
    requires Owed(g, s, f, r, pos, at) && Hit(s, f, pos, BSTR_ERR)
    ensures g[at..] == s[pos..]
  {
    ReplaceNone(s, f, r, pos);
  }

  /** A text too short to hold another occurrence stays as it is. */
  lemma TooShort(s: Text, f: Text, r: Text, pos: nat)
    requires f != [] && pos <= |s| < pos + |f|
    ensures Replaced(s, f, r, pos) == s
  {
    ReplaceNone(s, f, r, pos);
  }

  // ---------------------------------------------------------------- left to right, in place

  /** memmove within `t`. */
  function Moved(t: Text, dst: nat, src: nat, n: nat): Text
    requires dst + n <= |t| && src + n <= |t|
  {
    seq(|t|, k requires 0 <= k < |t| => if dst <= k < dst + n then t[src + (k - dst)] else t[k])
  }

  /** memcpy of `r` into `t`. */
  function Put(t: Text, dst: nat, r: Text): Text
    requires dst + |r| <= |t|
  {
    seq(|t|, k requires 0 <= k < |t| => if dst <= k < dst + |r| then r[k - dst] else t[k])
  }

  /** `t` holds the goal up to `pos`, pulled `acc` bytes to the left, and the original text from `pos` on. */
  predicate Scanned(g: Text, s: Text, t: Text, f: Text, r: Text, pos: nat, acc: nat) {
    && acc <= pos && Owed(g, s, f, r, pos, pos - acc)
    && Same(t, g, 0, pos - acc) && Same(t, s, pos, |s|)
  }

  /** One replacement of the left-to-right scan: close the gap, put the replacement, step over the occurrence. */
  lemma ScanStep(g: Text, s: Text, t: Text, f: Text, r: Text, pos: nat, acc: nat, i: nat, t': Text)
    requires Scanned(g, s, t, f, r, pos, acc) && Hit(s, f, pos, i) && |r| <= |f|
    requires i + |f| <= |t| && t' == Put(Moved(t, pos - acc, pos, i - pos), i - acc, r)
    ensures Scanned(g, s, t', f, r, i + |f|, acc + (|f| - |r|)) 
    ensures |t'| == |t| && (|s| < |t| ==> t'[|s|] == t[|s|])
  {
    OwedNext(g, s, f, r, pos, pos - acc, i);
    hide Owed, Hit;
    var at, gap := pos - acc, i - pos;
    forall k | 0 <= k < at + gap + |r| ensures t'[k] == g[k] {
      if at <= k < at + gap {
        assert g[at..at + gap][k - at] == s[pos..i][k - at];
      } else if at + gap <= k {
        assert g[at + gap..at + gap + |r|][k - (at + gap)] == r[k - (at + gap)];
      }
    }
  }

  lemma ScanFirst(s: Text, t: Text, f: Text, r: Text, from: nat)
    requires f != [] && from <= |s| <= |t| && t[..|s|] == s
    ensures Scanned(Replaced(s, f, r, from), s, t, f, r, from, 0)
  {
    OwedFirst(s, f, r, from);
    hide Owed, Replaced;
    assert forall k :: 0 <= k < |s| ==> t[..|s|][k] == t[k];
  }

  lemma ScanHit(g: Text, s: Text, t: Text, f: Text, r: Text, pos: nat, acc: nat, i: int)
    requires Scanned(g, s, t, f, r, pos, acc) && Hit(t[..|s|], f, pos, i)
    ensures Hit(s, f, pos, i)
  {
    hide Hit;
    SameHit(s, t[..|s|], f, pos, i);
  }

  /** With no occurrence left, moving the rest down completes the goal. */
  lemma ScanLast(g: Text, s: Text, t: Text, f: Text, r: Text, pos: nat, acc: nat)
    requires Scanned(g, s, t, f, r, pos, acc) && Hit(s, f, pos, BSTR_ERR)
    ensures acc <= pos <= |s| <= |t| && Moved(t, pos - acc, pos, |s| - pos)[..|s| - acc] == g
  {
    OwedLast(g, s, f, r, pos, pos - acc);
    assert forall k :: pos - acc <= k < |g| ==> g[k] == g[pos - acc..][k - (pos - acc)];
  }

  lemma Unmoved(t: Text, dst: nat, src: nat, n: nat)
    requires dst + n <= |t| && src + n <= |t| && (dst == src || n == 0)
    ensures Moved(t, dst, src, n) == t
  {}

  lemma PutEnd(t: Text, dst: nat, r: Text)
    requires dst + |r| <= |t|
    ensures Put(t, dst, r)[..dst + |r|] == t[..dst] + r
  {}

  lemma PutNothing(t: Text, dst: nat)
    requires dst <= |t|
    ensures Put(t, dst, []) == t
  {}

  // ---------------------------------------------------------------- right to left, expanding

  lemma OwedSkip(g: Text, s: Text, f: Text, r: Text, pos: nat, at: nat, b: nat)
    requires Owed(g, s, f, r, pos, at) && pos <= b <= |s| && Free(s, f, pos, b)
    ensures Owed(g, s, f, r, b, at + (b - pos)) && g[at..at + (b - pos)] == s[pos..b]
  {
    CopyFree(s, f, r, pos, b);
    hide ReplaceFrom, Free;
    Tail3(g, at, s[pos..b], [], ReplaceFrom(s, f, r, b));
  }

  /** All leftmost non-overlapping occurrences from `from` on, and the end of the text behind them. */
  predicate Marks(s: Text, f: Text, from: nat, d: seq<nat>) {
    && |d| > 0 && d[|d| - 1] == |s| && from <= d[0] && Free(s, f, from, d[0])
    && forall j :: 0 <= j < |d| - 1 ==> MarkAt(s, f, d[j], d[j + 1])
  }

  predicate MarkAt(s: Text, f: Text, i: nat, next: nat) {
    Occurs(s, i, f) && i + |f| <= next <= |s| && Free(s, f, i + |f|, next)
  }

  /** The marks found by a scan that has reached `prev`. */
  predicate MarksSoFar(s: Text, f: Text, from: nat, d: seq<nat>, prev: nat) {
    && (forall j :: 0 <= j < |d| - 1 ==> MarkAt(s, f, d[j], d[j + 1]))
    && (if d == [] then prev == from
        else from <= d[0] && Free(s, f, from, d[0]) && Occurs(s, d[|d| - 1], f) && d[|d| - 1] + |f| == prev)
  }

  lemma MarksGrow(s: Text, f: Text, from: nat, d: seq<nat>, prev: nat, pos: nat)
    requires MarksSoFar(s, f, from, d, prev) && Hit(s, f, prev, pos)
    ensures MarksSoFar(s, f, from, d + [pos], pos + |f|)
  {
    hide Free;
    var d' := d + [pos];
    forall j | 0 <= j < |d'| - 1 ensures MarkAt(s, f, d'[j], d'[j + 1]) {
      if j < |d| - 1 { assert MarkAt(s, f, d[j], d[j + 1]); }
    }
  }

  lemma MarksEnd(s: Text, f: Text, from: nat, d: seq<nat>, prev: nat)
    requires MarksSoFar(s, f, from, d, prev) && from <= |s| && Free(s, f, prev, |s|)
    ensures Marks(s, f, from, d + [|s|])
  {
    hide Free;
    var d' := d + [|s|];
    forall j | 0 <= j < |d'| - 1 ensures MarkAt(s, f, d'[j], d'[j + 1]) {
      if j < |d| - 1 { assert MarkAt(s, f, d[j], d[j + 1]); }
    }
  }

  lemma MarkSteps(g: Text, s: Text, f: Text, r: Text, i: nat, next: nat, at: nat)
    requires Owed(g, s, f, r, i, at) && MarkAt(s, f, i, next)
    ensures at + |r| + (next - i - |f|) <= |g|
    ensures Owed(g, s, f, r, next, at + |r| + (next - i - |f|))
    ensures g[at..at + |r|] == r && g[at + |r|..at + |r| + (next - i - |f|)] == s[i + |f|..next]
  {
    hide Owed, ReplaceFrom;
    assert Hit(s, f, i, i);
    OwedNext(g, s, f, r, i, at, i);
    OwedSkip(g, s, f, r, i + |f|, at + |r|, next);
    assert at + (i - i) == at;
    OwedFits(g, s, f, r, next, at + |r| + (next - i - |f|));
  }

  lemma OwedFits(g: Text, s: Text, f: Text, r: Text, pos: nat, at: nat)
    ensures Owed(g, s, f, r, pos, at) ==> at <= |g|
  {}

  /** The j-th occurrence ends up j growths to the right of where it was. */
  lemma {:induction false} OwedAtMark(g: Text, s: Text, f: Text, r: Text, from: nat, d: seq<nat>, j: nat)
    requires Owed(g, s, f, r, from, from) && Marks(s, f, from, d) && j < |d| && |f| <= |r|
    ensures d[j] <= |s| && Owed(g, s, f, r, d[j], d[j] + j * (|r| - |f|))
    decreases j
  {
    hide Owed;
    if j == 0 {
      OwedFrom(g, s, f, r, from, d);
    } else {
      OwedAtMark(g, s, f, r, from, d, j - 1);
      var at := d[j - 1] + (j - 1) * (|r| - |f|);
      assert MarkAt(s, f, d[j - 1], d[j - 1 + 1]);
      MarkSteps(g, s, f, r, d[j - 1], d[j], at);
      assert at + |r| + (d[j] - d[j - 1] - |f|) == d[j] + j * (|r| - |f|);
    }
  }

  lemma OwedFrom(g: Text, s: Text, f: Text, r: Text, from: nat, d: seq<nat>)
    requires Owed(g, s, f, r, from, from) && Marks(s, f, from, d)
    ensures d[0] <= |s| && Owed(g, s, f, r, d[0], d[0])
  {
    if |d| > 1 { assert MarkAt(s, f, d[0], d[0 + 1]); }
    OwedSkip(g, s, f, r, from, from, d[0]);
  }

  /** The goal stands from `mark` on, `acc` bytes to the right; before the mark the text is untouched. */
  predicate Unrolled(g: Text, s: Text, t: Text, mark: nat, acc: nat) {
    |g| <= |t| && Same(t, s, 0, mark) && forall k :: mark + acc <= k < |g| ==> t[k] == g[k]
  }

  /**
   One replacement of the right-to-left pass: move the text behind an occurrence, put the replacement in front
   of it.
   */
  lemma UnrollStep(g: Text, s: Text, t: Text, f: Text, r: Text, mark: nat, next: nat, acc: nat, t': Text)
    requires |f| <= |r| && MarkAt(s, f, mark, next) && Owed(g, s, f, r, mark, mark + acc)
    requires Unrolled(g, s, t, next, acc + (|r| - |f|)) && next + acc + (|r| - |f|) <= |t|
    requires t' == Put(Moved(t, mark + acc + |r|, mark + |f|, next - (mark + |f|)), mark + acc, r)
    ensures Unrolled(g, s, t', mark, acc)
  {
    MarkSteps(g, s, f, r, mark, next, mark + acc);
    hide Owed, MarkAt, Hit;
    var at, b, n := mark + acc, mark + |f|, next - (mark + |f|);
    forall k | at <= k < |g| ensures t'[k] == g[k] {
      if k < at + |r| {
        assert g[at..at + |r|][k - at] == r[k - at];
      } else if k < at + |r| + n {
        assert g[at + |r|..at + |r| + n][k - (at + |r|)] == s[b..next][k - (at + |r|)];
      }
    }
  }

  lemma UnrollFirst(g: Text, s: Text, t: Text, f: Text, r: Text, from: nat, d: seq<nat>, acc: nat)
    requires Owed(g, s, f, r, from, from) && Marks(s, f, from, d) && |f| <= |r| && acc == (|d| - 1) * (|r| - |f|)
    ensures |g| == |s| + acc
    ensures |g| <= |t| && t[..|s|] == s ==> Unrolled(g, s, t, d[|d| - 1], acc)
  {
    OwedAtMark(g, s, f, r, from, d, |d| - 1);
    hide Marks;
    assert g[|s| + acc..] == [];
    if |g| <= |t| && t[..|s|] == s {
      assert forall k :: 0 <= k < |s| ==> t[..|s|][k] == t[k];
    }
  }

  /** What `Unrolled` needs to move from mark `i + 1` to mark `i`. */
  lemma UnrollAt(g: Text, s: Text, f: Text, r: Text, from: nat, d: seq<nat>, i: nat, acc: nat)
    requires Owed(g, s, f, r, from, from) && Marks(s, f, from, d) && |f| <= |r| && i + 1 < |d|
    requires acc == (i + 1) * (|r| - |f|)
    ensures |r| - |f| <= acc && acc - (|r| - |f|) == i * (|r| - |f|)
    ensures MarkAt(s, f, d[i], d[i + 1]) && d[i] + |f| <= d[i + 1] <= |s|
    ensures Owed(g, s, f, r, d[i], d[i] + (acc - (|r| - |f|)))
  {
    hide Owed;
    OwedAtMark(g, s, f, r, from, d, i);
    OwedAtMark(g, s, f, r, from, d, i + 1);
    assert (i + 1) * (|r| - |f|) == i * (|r| - |f|) + (|r| - |f|);
    assert i * (|r| - |f|) >= 0;
  }

  lemma UnrolledFits(g: Text, s: Text, f: Text, r: Text, from: nat, d: seq<nat>, i: nat, acc: nat)
    requires Owed(g, s, f, r, from, from) && Marks(s, f, from, d) && |f| <= |r| && i < |d| && acc == i * (|r| - |f|)
    ensures d[i] + acc <= |g|
  {
    OwedAtMark(g, s, f, r, from, d, i);
  }

  lemma UnrollLast(g: Text, s: Text, t: Text, f: Text, r: Text, from: nat, d: seq<nat>)
    requires Owed(g, s, f, r, from, from) && Same(s, g, 0, from) && Marks(s, f, from, d) && Unrolled(g, s, t, d[0], 0)
    ensures t[..|g|] == g
  {
    OwedFrom(g, s, f, r, from, d);
    OwedSkip(g, s, f, r, from, from, d[0]);
    hide Owed, Marks;
    forall k | from <= k < d[0] ensures g[k] == s[k] {
      assert g[from..from + (d[0] - from)][k - from] == s[from..d[0]][k - from];
    }
  }

  // ---------------------------------------------------------------- the buffer

  method Memmove(a: array<byte>, dst: nat, src: nat, n: nat)
    requires dst + n <= a.Length && src + n <= a.Length
    modifies a
    ensures a[..] == Moved(old(a[..]), dst, src, n)
  {
    forall k | 0 <= k < n { a[dst + k] := a[src + k]; }
  }

  method Memcpy(a: array<byte>, dst: nat, t: Text)
    requires dst + |t| <= a.Length
    modifies a
    ensures a[..] == Put(old(a[..]), dst, t)
  {
    forall k | 0 <= k < |t| { a[dst + k] := t[k]; }
  }

  function DoubleUntil(p: nat, i: nat): (r: nat)
    requires p > 0
    ensures r > i
    decreases if p > i then 0 else i + 1 - p
  {
    if p > i then p else DoubleUntil(2 * p, i)
  }

  /** snapUpSize: the least power of two above `i`, and at least 8. */
  function SnapUp(i: nat): (r: nat)
    ensures r > i
  {
    if i < 8 then 8 else DoubleUntil(8, i)
  }

  /** An argument string: memory of its own, or a part of the very buffer that is being rewritten. */
  datatype Operand = Apart(t: Text) | Inside(at: nat, n: nat)

  /** `t` is the part of `s` at `src`, in front of where the rewriting starts. */
  predicate Lent(s: Text, t: Text, src: Option<nat>, from: nat) {
    src.Some? ==> src.value + |t| <= from <= |s| && s[src.value..src.value + |t|] == t
  }

  /** Nothing in front of `from` has been written, so that what was lent from there can still be read there. */
  lemma StillLent(g: Text, s: Text, t: Text, f: Text, r: Text, pos: nat, acc: nat, x: Text, src: Option<nat>, from: nat)
    requires Scanned(g, s, t, f, r, pos, acc) && Same(s, g, 0, from) && acc + from <= pos && pos <= |s| <= |t|
    requires Lent(s, x, src, from)
    ensures Lent(t, x, src, from)
  {
    hide Owed;
    if src.Some? {
      var u, w := t[src.value..src.value + |x|], s[src.value..src.value + |x|];
      assert forall k :: 0 <= k < |x| ==> u[k] == w[k];
    }
  }

  lemma NothingLent(s: Text, t: Text, from: nat)
    ensures Lent(s, t, None, from)
  {}

  lemma {:induction false} MarksAhead(s: Text, f: Text, from: nat, d: seq<nat>, i: nat)
    requires Marks(s, f, from, d) && i < |d|
    ensures from <= d[i]
  {
    if i == 0 {
    } else {
      MarksAhead(s, f, from, d, i - 1);
      assert MarkAt(s, f, d[i - 1], d[i - 1 + 1]);
    }
  }

  lemma UnrolledLent(g: Text, s: Text, t: Text, mark: nat, acc: nat, x: Text, src: Option<nat>, from: nat)
    requires Unrolled(g, s, t, mark, acc) && from <= mark && from <= |t| && Lent(s, x, src, from)
    ensures Lent(t, x, src, from)
  {
    if src.Some? {
      var u, w := t[src.value..src.value + |x|], s[src.value..src.value + |x|];
      assert forall k :: 0 <= k < |x| ==> u[k] == w[k];
    }
  }

  /** The argument as it reads now. */
  method Fetch(a: array<byte>, t: Text, src: Option<nat>, ghost from: nat) returns (x: Text)
    requires Lent(a[..], t, src, from)
    ensures x == t
  {
    if src.None? { return t; }
    x := a[src.value..src.value + |t|];
  }

  /** Does balloc take new memory? */
  predicate Moves(mlen: nat, len: nat) { len >= mlen && SnapUp(len) > mlen }

  class Buffer {
    var data: array<byte>
    var slen: nat

    predicate Valid()
      reads this
    {
      slen <= data.Length && data.Length > 0
    }

    predicate Terminated()
      reads this, data
    {
      slen < data.Length && data[slen] == 0
    }

    function Contents(): Text
      requires Valid()
      reads this, data
    {
      data[..slen]
    }

    constructor (t: Text)
      ensures Valid() && Terminated() && Contents() == t && fresh(data)
    {
      data := new byte[|t| + 1](k requires 0 <= k <= |t| => if k < |t| then t[k] else 0);
      slen := |t|;
    }

    constructor Over(data: array<byte>, slen: nat)
      ensures this.data == data && this.slen == slen
    {
      this.data, this.slen := data, slen;
    }

    /** balloc: room for `len` bytes, the contents kept. */
    method Balloc(len: nat)
      requires Valid()
      modifies this`data, data
      ensures Valid() && Contents() == old(Contents()) && data.Length >= len
      ensures if Moves(old(data).Length, len) then fresh(data) else data == old(data)
      ensures old(Terminated()) ==> Terminated()
    {
      if len >= data.Length {
        var size := SnapUp(len);
        if size <= data.Length { return; }
        var old_, n := data, slen;
        var x := new byte[size];
        forall k | 0 <= k < n { x[k] := old_[k]; }
        data := x;
        data[slen] := 0;
      }
    }

    /** binstr: the first occurrence at or after `pos`. */
    method Instr(pos: nat, f: Text) returns (i: int)
      requires Valid() && f != []
      ensures Hit(Contents(), f, pos, i)
    {
      if slen <= pos { return BSTR_ERR; }
      var l := slen - |f| + 1;
      ghost var s := Contents();
      TooLate(s, f, l);
      if l <= pos { return BSTR_ERR; }
      i := pos;
      var j := 0;
      while true
        invariant pos <= i < l && 0 <= j < |f|
        invariant Free(s, f, pos, i)
        invariant s[i..i + j] == f[..j]
        decreases l - i, |f| - j
      {
        assert data[i + j] == s[i + j];
        if f[j] == data[i + j] {
          OneMore(s, f, i, j);
          j := j + 1;
          if j >= |f| { return i; }
        } else {
          Mismatch(s, f, pos, i, j);
          i := i + 1;
          if i >= l { break; }
          j := 0;
        }
      }
      i := BSTR_ERR;
    }

    /** The next occurrence in a text whose scanned part has been rewritten is the original's. */
    method NextHit(f: Text, fs: Option<nat>, pos: nat, ghost from: nat,
                   ghost g: Text, ghost s: Text, ghost r: Text, ghost acc: nat)
      returns (i: int)
      requires Valid() && slen == |s| && f != [] && Scanned(g, s, data[..], f, r, pos, acc)
      requires Lent(s, f, fs, from) && Same(s, g, 0, from) && acc + from <= pos <= |s|
      ensures Hit(s, f, pos, i) && (i < 0 ==> i == BSTR_ERR) && (i >= 0 ==> pos <= i && i + |f| <= |s|)
    {
      hide Scanned, Hit, Lent, Same;
      StillLent(g, s, data[..], f, r, pos, acc, f, fs, from);
      var find := Fetch(data, f, fs, from);
      i := Instr(pos, find);
      ScanHit(g, s, data[..], f, r, pos, acc, i);
      if i >= 0 { HitFits(s, f, pos, i); } else { MissIsErr(s, f, pos, i); }
    }

    /** Equal lengths: overwrite each occurrence where it stands. */
    method Overwrite(f: Text, fs: Option<nat>, r: Text, rs: Option<nat>, from: nat, ghost g: Text, ghost s: Text)
      requires Valid() && f != [] && |f| == |r| && slen == |s| && from <= slen && Scanned(g, s, data[..], f, r, from, 0)
      requires Lent(s, f, fs, from) && Lent(s, r, rs, from) && Same(s, g, 0, from)
      modifies data
      ensures Contents() == g
      ensures old(Terminated()) ==> Terminated()
    {
      hide Hit, Scanned, Same, Moved, Put, Lent;
      ghost var ended := Terminated();
      var pos := from;
      var i := NextHit(f, fs, pos, from, g, s, r, 0);
      while i >= 0
        invariant from <= pos <= slen && Scanned(g, s, data[..], f, r, pos, 0)
        invariant ended ==> data[..][|s|] == 0
        invariant Hit(s, f, pos, i) && (i < 0 ==> i == BSTR_ERR) && (i >= 0 ==> pos <= i && i + |f| <= |s|)
        decreases slen - pos
      {
        ghost var t := data[..];
        StillLent(g, s, t, f, r, pos, 0, r, rs, from);
        var repl := Fetch(data, r, rs, from);
        Memcpy(data, i, repl);
        Unmoved(t, pos, pos, i - pos);
        ScanStep(g, s, t, f, r, pos, 0, i, data[..]);
        pos := i + |f|;
        i := NextHit(f, fs, pos, from, g, s, r, 0);
      }
      ScanLast(g, s, data[..], f, r, pos, 0);
      Unmoved(data[..], pos, pos, |s| - pos);
    }

    /** Close the gap of `acc` bytes in front of the text [pos, i) and put `r` behind it. */
    method PlaceOne(r: Text, pos: nat, acc: nat, i: nat)
      requires acc <= pos <= i && i - acc + |r| <= data.Length && i <= data.Length
      modifies data
      ensures data[..] == Put(Moved(old(data[..]), pos - acc, pos, i - pos), i - acc, r)
    {
      hide Moved, Put;
      if acc != 0 && i > pos {
        Memmove(data, pos - acc, pos, i - pos);
      } else {
        Unmoved(data[..], pos - acc, pos, i - pos);
      }
      if r != [] { Memcpy(data, i - acc, r); } else { PutNothing(data[..], i - acc); }
    }

    /** Close the gap of `acc` bytes in front of the rest of the text, and shorten it. */
    method CloseUp(pos: nat, acc: nat)
      requires Valid() && acc <= pos <= slen
      modifies this`slen, data
      ensures Valid() && slen == old(slen) - acc
      ensures Contents() == Moved(old(data[..]), pos - acc, pos, old(slen) - pos)[..slen]
      ensures old(Terminated()) ==> Terminated()
    {
      hide Moved;
      if acc == 0 || slen == pos { Unmoved(data[..], pos - acc, pos, slen - pos); }
      if acc != 0 {
        var i := slen;
        if i > pos { Memmove(data, pos - acc, pos, i - pos); }
        slen := slen - acc;
        data[slen] := 0;
      }
    }

    /** Shrinking: move the text between occurrences down as the scan goes. */
    method Shrink(f: Text, fs: Option<nat>, r: Text, rs: Option<nat>, from: nat, ghost g: Text, ghost s: Text)
      requires Valid() && f != [] && |f| > |r| && slen == |s| && from <= slen && Scanned(g, s, data[..], f, r, from, 0)
      requires Lent(s, f, fs, from) && Lent(s, r, rs, from) && Same(s, g, 0, from)
      modifies this`slen, data
      ensures Valid() && Contents() == g
      ensures old(Terminated()) ==> Terminated()
    {
      hide Hit, Scanned, Same, Moved, Put, Lent;
      ghost var ended := Terminated();
      var delta := |f| - |r|;
      var acc, pos := 0, from;
      var i := NextHit(f, fs, pos, from, g, s, r, acc);
      while i >= 0
        invariant slen == |s| <= data.Length && 0 <= acc && acc + from <= pos <= slen
        invariant Scanned(g, s, data[..], f, r, pos, acc)
        invariant ended ==> data[..][|s|] == 0
        invariant Hit(s, f, pos, i) && (i < 0 ==> i == BSTR_ERR) && (i >= 0 ==> pos <= i && i + |f| <= |s|)
        decreases slen - pos
      {
        ghost var t := data[..];
        StillLent(g, s, t, f, r, pos, acc, r, rs, from);
        var repl := Fetch(data, r, rs, from);
        PlaceOne(repl, pos, acc, i);
        ScanStep(g, s, t, f, r, pos, acc, i, data[..]);
        acc := acc + delta;
        pos := i + |f|;
        i := NextHit(f, fs, pos, from, g, s, r, acc);
      }
      ScanLast(g, s, data[..], f, r, pos, acc);
      CloseUp(pos, acc);
    }

    /** Expanding, first pass: where the occurrences are, and by how much the text grows. */
    method Collect(f: Text, r: Text, from: nat) returns (d: seq<nat>, acc: nat)
      requires Valid() && f != [] && |f| < |r| && from <= slen
      ensures Marks(Contents(), f, from, d) && acc == (|d| - 1) * (|r| - |f|)
    {
      hide Occurs, Free;
      ghost var s := Contents();
      d, acc := [], 0;
      var pos := Instr(from, f);
      ghost var prev := from;
      while pos >= 0
        invariant prev <= |s| && Hit(s, f, prev, pos) && acc == |d| * (|r| - |f|)
        invariant MarksSoFar(s, f, from, d, prev)
        decreases |s| - prev
      {
        HitFits(s, f, prev, pos);
        MarksGrow(s, f, from, d, prev, pos);
        assert (|d| + 1) * (|r| - |f|) == |d| * (|r| - |f|) + (|r| - |f|);
        d := d + [pos];
        acc := acc + (|r| - |f|);
        pos := pos + |f|;
        prev := pos;
        pos := Instr(pos, f);
      }
      MarksEnd(s, f, from, d, prev);
      d := d + [slen];
    }

    /**
     Expanding, second pass: from the last occurrence to the first, so that nothing is overwritten before it
     has moved.
     */
    method Spread(f: Text, r: Text, rs: Option<nat>, d: seq<nat>, grown: nat,
                  ghost g: Text, ghost s: Text, ghost from: nat)
      requires f != [] && |f| < |r| && Owed(g, s, f, r, from, from) && Marks(s, f, from, d)
      requires grown == (|d| - 1) * (|r| - |f|) && |g| == |s| + grown <= data.Length
      requires Unrolled(g, s, data[..], d[|d| - 1], grown) && Lent(s, r, rs, from)
      modifies data
      ensures Unrolled(g, s, data[..], d[0], 0)
    {
      hide Owed, Marks, MarkAt, Unrolled, Moved, Put, Lent;
      var acc, i := grown, |d| - 1;
      while i > 0
        invariant 0 <= i < |d| && acc == i * (|r| - |f|)
        invariant Unrolled(g, s, data[..], d[i], acc)
      {
        i := i - 1;
        UnrollAt(g, s, f, r, from, d, i, acc);
        ghost var t := data[..];
        var b := d[i] + |f|;
        var l := d[i + 1] - b;
        UnrolledFits(g, s, f, r, from, d, i + 1, acc);
        MarksAhead(s, f, from, d, i + 1);
        UnrolledLent(g, s, t, d[i + 1], acc, r, rs, from);
        var repl := Fetch(data, r, rs, from);
        if l > 0 { Memmove(data, b + acc, b, l); } else { Unmoved(t, b + acc, b, l); }
        Memcpy(data, b + acc - |r|, repl);
        acc := acc - (|r| - |f|);
        UnrollStep(g, s, t, f, r, d[i], d[i + 1], acc, data[..]);
      }
    }

    /**
     Expanding: record the occurrences, make room, then move and replace from the right. `dangling`:
     the replacement lies in the memory that making room has given up.
     */
    method Expand(f: Text, r: Text, rs: Option<nat>, from: nat, ghost g: Text, ghost s: Text) returns (dangling: bool)
      requires Valid() && f != [] && |f| < |r| && from <= slen
      requires Contents() == s && Owed(g, s, f, r, from, from) && Same(s, g, 0, from) && Lent(s, r, rs, from)
      modifies this, data
      ensures dangling <==> rs.Some? && |g| > |s| && Moves(old(data).Length, |g| + 1)
      ensures !dangling ==> Valid() && Contents() == g && Terminated()
      ensures data == old(data) || fresh(data)
    {
      hide Owed, Same, Marks, Unrolled, Lent, Moves;
      var d, acc := Collect(f, r, from);
      var was := data;
      Balloc(slen + acc + 1);
      UnrollFirst(g, s, data[..], f, r, from, d, acc);
      dangling := rs.Some? && |d| > 1 && data != was;
      GrowsWithMarks(|d| - 1, |r| - |f|);
      if dangling { return; }
      slen := slen + acc;
      NothingLent(s, r, from);
      Spread(f, r, if data == was then rs else None, d, acc, g, s, from);
      UnrollLast(g, s, data[..], f, r, from, d);
      data[slen] := 0;
    }

    /** The string an argument denotes. */
    function Reads(o: Operand): Text
      requires Valid() && (o.Inside? ==> o.at + o.n <= slen)
      reads this, data
    {
      match o
      case Apart(t) => t
      case Inside(at, n) => data[at..at + n]
    }

    /** A part of the buffer is used in place only if it lies wholly in front of `pos`; otherwise it is copied first. */
    static function Uncopied(o: Operand, pos: int): Option<nat> {
      if o.Inside? && pos - o.n >= o.at then Some(o.at) else None
    }

    /**
     findreplaceengine with binstr: bfindreplace. Whichever strategy the lengths call for, the
     contents become the one-pass replacement of the text from `pos` on, also when the arguments are
     parts of the buffer themselves, with one exception: a longer replacement from in front of `pos`
     is read from memory already given up, if there is anything to replace and the buffer has to move.
     */
    method FindReplace(find: Operand, repl: Operand, pos: int) returns (rc: int, dangling: bool)
      requires Valid() && (find.Inside? ==> find.at + find.n <= slen) && (repl.Inside? ==> repl.at + repl.n <= slen)
      modifies this, data
      ensures data == old(data) || fresh(data)
      ensures dangling <==>
        var f, r := old(Reads(find)), old(Reads(repl));
        && f != [] && 0 <= pos <= old(slen) && Uncopied(repl, pos).Some? && |f| < |r|
        && var g := Replaced(old(Contents()), f, r, pos); |g| > old(slen) && Moves(old(data).Length, |g| + 1)
      ensures !dangling ==>
        var f, r := old(Reads(find)), old(Reads(repl));
        && Valid() && (old(Terminated()) ==> Terminated())
        && rc == (if pos < 0 || f == [] then BSTR_ERR else BSTR_OK)
        && Contents() == if f != [] && 0 <= pos <= old(slen) then Replaced(old(Contents()), f, r, pos)
                   else old(Contents())
    {
      var f, r := Reads(find), Reads(repl);
      dangling := false;
      if pos < 0 || |f| <= 0 { return BSTR_ERR, false; }
      rc := BSTR_OK;
      ghost var s := Contents();
      if pos > slen - |f| {
        if pos <= slen { TooShort(s, f, r, pos); }
        return;
      }
      var fs, rs := Uncopied(find, pos), Uncopied(repl, pos);
      LentFrom(find, f, pos);
      LentFrom(repl, r, pos);
      ghost var g := Replaced(s, f, r, pos);
      ScanFirst(s, data[..], f, r, pos);
      OwedFirst(s, f, r, pos);
      hide Replaced, Scanned, Owed, Same, Lent, Moves;
      if |f| == |r| {
        Overwrite(f, fs, r, rs, pos, g, s);
      } else if |f| > |r| {
        Shrink(f, fs, r, rs, pos, g, s);
      } else {
        dangling := Expand(f, r, rs, pos, g, s);
      }
    }

    lemma LentFrom(o: Operand, t: Text, pos: nat)
      requires Valid() && (o.Inside? ==> o.at + o.n <= slen) && t == Reads(o) && pos <= slen
      ensures Lent(Contents(), t, Uncopied(o, pos), pos)
    {
      if o.Inside? { assert Contents()[o.at..o.at + o.n] == data[o.at..o.at + o.n]; }
    }
  }

  lemma GrowsWithMarks(n: nat, delta: nat)
    requires delta > 0
    ensures n * delta > 0 <==> n > 0
  {}
}
