/** How often something occurs in a list. */
module Counting {
  /** How often `x` is in `s`. */
  function Times<T(==)>(s: seq<T>, x: T): nat {
    if s == [] then 0 else Times(s[..|s| - 1], x) + if s[|s| - 1] == x then 1 else 0
  }

  lemma PlusTimes<T>(s: seq<T>, x: T, y: T)
    ensures Times(s + [x], y) == Times(s, y) + if x == y then 1 else 0
  {
    assert (s + [x])[..|s|] == s;
  }

  lemma {:induction false} NoTimes<T>(s: seq<T>, x: T)
    ensures Times(s, x) == 0 <==> x !in s
  {
    if s == [] {
    } else {
      NoTimes(s[..|s| - 1], x);
      assert s == s[..|s| - 1] + [s[|s| - 1]];
    }
  }

  /** Heap_delete by address: one occurrence fewer, if there is any. */
  function Minus<T(==)>(s: seq<T>, x: T): seq<T> {
    if s == [] then [] else if s[|s| - 1] == x then s[..|s| - 1] else Minus(s[..|s| - 1], x) + [s[|s| - 1]]
  }

  lemma {:induction false} MinusTimes<T>(s: seq<T>, x: T, y: T)
    ensures Times(Minus(s, x), y) == if x == y && Times(s, x) > 0 then Times(s, x) - 1 else Times(s, y)
  {
    if s == [] || s[|s| - 1] == x {
    } else {
      MinusTimes(s[..|s| - 1], x, y);
      PlusTimes(Minus(s[..|s| - 1], x), s[|s| - 1], y);
    }
  }

  lemma {:induction false} MinusFrom<T>(s: seq<T>, x: T, y: T)
    ensures y in Minus(s, x) ==> y in s
  {
    if s == [] || s[|s| - 1] == x {
    } else {
      MinusFrom(s[..|s| - 1], x, y);
    }
  }

  /** All of `s` that is not `x`. */
  function Others<T(==)>(s: seq<T>, x: T): seq<T> {
    if s == [] then [] else Others(s[..|s| - 1], x) + if s[|s| - 1] == x then [] else [s[|s| - 1]]
  }

  lemma {:induction false} MinusOthers<T>(s: seq<T>, x: T)
    ensures Others(Minus(s, x), x) == Others(s, x)
  {
    if s == [] || s[|s| - 1] == x {
    } else {
      MinusOthers(s[..|s| - 1], x);
      assert (Minus(s[..|s| - 1], x) + [s[|s| - 1]])[..|Minus(s[..|s| - 1], x)|] == Minus(s[..|s| - 1], x);
    }
  }

  lemma {:induction false} OnlyOthers<T>(s: seq<T>, x: T)
    requires x !in s
    ensures Others(s, x) == s
  {
    if s == [] {
    } else {
      OnlyOthers(s[..|s| - 1], x);
    }
  }

  lemma {:induction false} OthersFrom<T>(s: seq<T>, x: T, y: T)
    ensures y in Others(s, x) <==> y in s && y != x
  {
    if s == [] {
    } else {
      OthersFrom(s[..|s| - 1], x, y);
      assert s == s[..|s| - 1] + [s[|s| - 1]];
    }
  }

  lemma {:induction false} OthersTimes<T>(s: seq<T>, x: T, y: T)
    ensures Times(Others(s, x), y) == if x == y then 0 else Times(s, y)
  {
    if s == [] {
    } else {
      OthersTimes(s[..|s| - 1], x, y);
      if s[|s| - 1] == x {
        assert Others(s[..|s| - 1], x) + [] == Others(s[..|s| - 1], x);
      } else {
        PlusTimes(Others(s[..|s| - 1], x), s[|s| - 1], y);
      }
    }
  }

  lemma TimesNone<T>(s: seq<T>)
    ensures forall x :: Times(s[..0], x) == 0
  {}

  lemma {:induction false} TimesUpTo<T>(s: seq<T>, i: nat, x: T)
    requires i <= |s|
    ensures Times(s[..i], x) <= Times(s, x)
    decreases |s|
  {
    if i < |s| {
      TimesUpTo(s[..|s| - 1], i, x);
      assert s[..|s| - 1][..i] == s[..i];
    } else {
      assert s[..i] == s;
    }
  }

  lemma Twice<T>(s: seq<T>, i: nat, j: nat)
    requires i < j < |s| && s[i] == s[j]
    ensures multiset(s)[s[i]] >= 2
  {
    assert s == s[..j] + s[j..];
    assert s[i] in s[..j] && s[j] in s[j..];
  }

  /** How often `x` is in any of several lists. */
  function Held<T(==)>(cs: seq<seq<T>>, x: T): nat {
    if cs == [] then 0 else Held(cs[..|cs| - 1], x) + Times(cs[|cs| - 1], x)
  }

  lemma {:induction false} HeldUpdate<T>(cs: seq<seq<T>>, k: nat, c: seq<T>, x: T)
    requires k < |cs|
    ensures Held(cs[k := c], x) + Times(cs[k], x) == Held(cs, x) + Times(c, x)
  {
    var init := cs[..|cs| - 1];
    if k < |cs| - 1 {
      HeldUpdate(init, k, c, x);
      assert cs[k := c][..|cs| - 1] == init[k := c];
    } else {
      assert cs[k := c][..|cs| - 1] == init;
    }
  }

  lemma {:induction false} FrontTimes<T>(s: seq<T>, x: T)
    requires s != []
    ensures Times(s, x) == Times(s[1..], x) + if s[0] == x then 1 else 0
  {
    if |s| > 1 {
      FrontTimes(s[..|s| - 1], x);
      assert s[..|s| - 1][1..] == s[1..][..|s| - 2];
    } else {
      assert s[..0] == [] && s[1..] == [];
    }
  }
}
