/** The string helpers and macros of src/definitions.h, whose `split` is
    repeated verbatim in funcs.h. */
module Definitions {
  import opened Wrappers
  import opened Text

  /** What `split` pushes: the pieces of `str` between occurrences of `c`,
      except that empty pieces are dropped everywhere but at the very end. */
  function Split(str: string, c: char): (r: seq<string>)
    ensures |r| >= 1
    decreases |str|
  {
    match Find(str, c)
    case None => [str]
    case Some(i) => (if i > 0 then [str[..i]] else []) + Split(str[i + 1..], c)
  }

  /** Splitting at the first delimiter. */
  lemma {:induction false} SplitFirst(str: string, c: char, i: nat)
    requires Find(str, c) == Some(i)
    ensures Split(str, c) == (if i > 0 then [str[..i]] else []) + Split(str[i + 1..], c)
  {
  }

  /** The tokens of `split` never contain the delimiter, and only the last
      one can be empty. */
  lemma {:induction false} SplitTokens(str: string, c: char)
    ensures var r := Split(str, c);
      && (forall k :: 0 <= k < |r| ==> c !in r[k])
      && (forall k :: 0 <= k < |r| - 1 ==> r[k] != [])
    decreases |str|
  {
    FindSpec(str, c);
    match Find(str, c)
    case None =>
    case Some(i) =>
      var head := if i > 0 then [str[..i]] else [];
      var rest := Split(str[i + 1..], c);
      SplitFirst(str, c, i);
      SplitTokens(str[i + 1..], c);
      var r := head + rest;
      forall k | 0 <= k < |r|
        ensures c !in r[k] && (k < |r| - 1 ==> r[k] != [])
      {
        if k < |head| {
          assert r[k] == str[..i];
        } else {
          assert r[k] == rest[k - |head|];
        }
      }
  }

  /** Together the tokens of `split` are `str` with every delimiter
      removed. */
  lemma {:induction false} SplitJoin(str: string, c: char)
    ensures Concat(Split(str, c)) == Remove(str, c)
    decreases |str|
  {
    FindSpec(str, c);
    match Find(str, c)
    case None =>
      RemoveFree(str, c);
      assert Concat([str]) == str + Concat([]);
    case Some(i) =>
      var head := if i > 0 then [str[..i]] else [];
      var rest := Split(str[i + 1..], c);
      SplitFirst(str, c, i);
      SplitJoin(str[i + 1..], c);
      ConcatAppend(head, rest);
      assert Concat(head) == str[..i] by {
        if i > 0 { assert Concat(head) == str[..i] + Concat([]); }
      }
      assert str == str[..i] + ([c] + str[i + 1..]);
      RemoveAppend(str[..i], [c] + str[i + 1..], c);
      RemoveAppend([c], str[i + 1..], c);
      RemoveFree(str[..i], c);
  }

  /** One step of `split` from position `s`: the piece before the first
      delimiter at `e`, if non-empty, then the split of what follows it. */
  lemma {:induction false} SplitAt(str: string, c: char, s: nat, e: nat)
    requires s <= e < |str| && str[e] == c
    requires forall k :: s <= k < e ==> str[k] != c
    ensures Split(str[s..], c)
         == (if e > s then [str[s..e]] else []) + Split(str[e + 1..], c)
  {
    var t := str[s..];
    FindAt(t, c, e - s);
    assert t[e - s + 1..] == str[e + 1..];
    assert t[..e - s] == str[s..e];
  }

  /** Where `split` stands between iterations: `e` is the next delimiter at
      or after `s`, or -1 when the string holds none at all. */
  predicate Pending(str: string, c: char, s: int, e: int) {
    0 <= s <= |str|
    && (e == -1 ==> s == 0 && c !in str)
    && (e != -1 ==> s <= e < |str| && str[e] == c && c !in str[s..e])
  }

  lemma {:induction false} SplitNone(str: string, c: char, s: nat)
    requires s <= |str| && forall k :: s <= k < |str| ==> str[k] != c
    ensures Split(str[s..], c) == [str[s..]]
  {
    assert c !in str[s..];
    FindNone(str[s..], c);
  }

  /** One iteration of `split` keeps `tokens` followed by the split of the
      rest equal to the split of the whole string. */
  lemma {:induction false} SplitAdvance(str: string, c: char, tokens: seq<string>, s: int, e: int)
    requires Pending(str, c, s, e) && e != -1
    requires tokens + Split(str[s..], c) == Split(str, c)
    ensures (if e - s > 0 then tokens + [str[s..e]] else tokens) + Split(str[e + 1..], c)
         == Split(str, c)
  {
    assert forall k :: s <= k < e ==> str[k] != c by {
      forall k | s <= k < e ensures str[k] != c {
        assert str[k] == str[s..e][k - s];
      }
    }
    SplitAt(str, c, s, e);
    var head := if e - s > 0 then [str[s..e]] else [];
    var rest := Split(str[e + 1..], c);
    assert Split(str[s..], c) == head + rest;
    assert tokens + (head + rest) == (tokens + head) + rest;
  }

  /** The position `find` returns from `s` is a pending delimiter. */
  lemma {:induction false} PendingFound(str: string, c: char, s: nat, e: nat)
    requires s <= e < |str| && str[e] == c && forall k :: s <= k < e ==> str[k] != c
    ensures Pending(str, c, s, e)
  {
    assert forall k :: s <= k < e ==> str[s..e][k - s] == str[k];
  }

  /** The loop of `split` as written, with `npos` read through a signed `int`
      as -1 (src/definitions.h:52-73). */
  method SplitLoop(str: string, c: char) returns (tokens: seq<string>)
    ensures tokens == Split(str, c)
  {
    tokens := [];
    var s: int := 0;
    var first := FindFrom(str, c, 0);
    FindFromSpec(str, c, 0);
    var e: int := -1;
    if first.Some? {
      e := first.value;
      PendingFound(str, c, 0, e);
    }
    assert str[0..] == str;
    while true
      invariant Pending(str, c, s, e)
      invariant tokens + Split(str[s..], c) == Split(str, c)
      decreases |str| - s
    {
      var done;
      tokens, s, e, done := SplitStep(str, c, tokens, s, e);
      if done {
        return;
      }
    }
  }

  /** One pass of the loop of `split`: push the piece before `e` if it is
      not empty, move past it, and look for the next delimiter; with none
      left, push the rest and stop. */
  method SplitStep(str: string, c: char, tokens: seq<string>, s: int, e: int)
    returns (tokens1: seq<string>, s1: int, e1: int, done: bool)
    requires Pending(str, c, s, e)
    requires tokens + Split(str[s..], c) == Split(str, c)
    ensures done ==> tokens1 == Split(str, c)
    ensures !done ==> s < s1 && Pending(str, c, s1, e1) && tokens1 + Split(str[s1..], c) == Split(str, c)
  {
    tokens1, s1 := tokens, s;
    if e == -1 {
      s1 := 0;
    } else {
      SplitAdvance(str, c, tokens, s, e);
      if e - s > 0 {
        tokens1 := tokens + [str[s..e]];
      }
      s1 := e + 1;
    }
    var next := FindFrom(str, c, s1);
    FindFromSpec(str, c, s1);
    if next.None? {
      SplitNone(str, c, s1);
      tokens1 := tokens1 + [str[s1..]];
      e1, done := e, true;
      return;
    }
    e1, done := next.value, false;
    PendingFound(str, c, s1, e1);
  }

  /** A delimiter at the very end yields a final empty token. */
  lemma {:induction false} SplitTrailingDelimiter(str: string, c: char)
    requires |str| > 0 && str[|str| - 1] == c
    ensures Split(str, c)[|Split(str, c)| - 1] == []
    decreases |str|
  {
    FindSpec(str, c);
    assert str[|str| - 1] in str;
    var i := Find(str, c).value;
    if i + 1 < |str| {
      assert str[i + 1..][|str[i + 1..]| - 1] == c;
      SplitTrailingDelimiter(str[i + 1..], c);
    } else {
      assert str[i + 1..] == [];
    }
  }

  predicate IsStripSpace(ch: char) {
    ch == ' ' || ch == '\r' || ch == '\n' || ch == '\t'
  }

  predicate AllStripSpace(s: string) {
    forall k :: 0 <= k < |s| ==> IsStripSpace(s[k])
  }

  /** `find_first_not_of(" \r\n\t", from)`. */
  function FirstNotSpace(s: string, from: nat): (r: Option<nat>)
    ensures r.Some? ==> from <= r.value < |s| && !IsStripSpace(s[r.value])
    ensures r.Some? ==> forall k :: from <= k < r.value ==> IsStripSpace(s[k])
    ensures r.None? ==> forall k :: from <= k < |s| ==> IsStripSpace(s[k])
    decreases |s| - from
  {
    if from >= |s| then None
    else if !IsStripSpace(s[from]) then Some(from)
    else FirstNotSpace(s, from + 1)
  }

  /** `find_last_not_of(" \r\n\t")` restricted to indices below `upto`. */
  function LastNotSpace(s: string, upto: nat): (r: Option<nat>)
    requires upto <= |s|
    ensures r.Some? ==> r.value < upto && !IsStripSpace(s[r.value])
    ensures r.Some? ==> forall k :: r.value < k < upto ==> IsStripSpace(s[k])
    ensures r.None? ==> forall k :: 0 <= k < upto ==> IsStripSpace(s[k])
  {
    if upto == 0 then None
    else if !IsStripSpace(s[upto - 1]) then Some(upto - 1)
    else LastNotSpace(s, upto - 1)
  }

  /** `strip`: remove leading and trailing " \r\n\t". */
  function Strip(str: string): (r: string)
    ensures r == [] <==> AllStripSpace(str)
    ensures r != [] ==> !IsStripSpace(r[0]) && !IsStripSpace(r[|r| - 1])
  {
    match FirstNotSpace(str, 0)
    case None => ""
    case Some(first) =>
      var last := LastNotSpace(str, |str|).value;
      str[first..last + 1]
  }

  /** The result of `strip` is the stretch of `str` that lies between two
      runs of white space. */
  lemma {:induction false} StripIsInfix(str: string)
    ensures var r := Strip(str);
      exists i :: 0 <= i <= |str| - |r| && str[i..i + |r|] == r
        && AllStripSpace(str[..i]) && AllStripSpace(str[i + |r|..])
  {
    var r := Strip(str);
    match FirstNotSpace(str, 0)
    case None =>
      assert str[0..0] == r && AllStripSpace(str[..0]) && AllStripSpace(str[0..]);
    case Some(first) =>
      var last := LastNotSpace(str, |str|).value;
      assert str[first..first + |r|] == r;
      assert AllStripSpace(str[..first]) && AllStripSpace(str[first + |r|..]);
  }

  /** A string that already has no white space at either end is unchanged. */
  lemma {:induction false} StripTrimmed(s: string)
    requires s != [] ==> !IsStripSpace(s[0]) && !IsStripSpace(s[|s| - 1])
    ensures Strip(s) == s
  {
    if s != [] {
      assert FirstNotSpace(s, 0) == Some(0);
      assert LastNotSpace(s, |s|) == Some(|s| - 1);
    }
  }

  lemma {:induction false} StripIdempotent(s: string)
    ensures Strip(Strip(s)) == Strip(s)
  {
    StripTrimmed(Strip(s));
  }

  /** The `min` macro. */
  function Min(a: int, b: int): (r: int)
    ensures r <= a && r <= b && (r == a || r == b)
  {
    if a < b then a else b
  }

  /** The `max` macro as written in src/definitions.h: its expression is the
      same as that of `min`. */
  function MaxAsWritten(a: int, b: int): int {
    if a < b then a else b
  }

  /** `max` as written returns the smaller argument: `max(1, 2)` is 1. */
  lemma {:induction false} MaxAsWrittenIsMin(a: int, b: int)
    ensures MaxAsWritten(a, b) == Min(a, b)
    ensures a < b ==> MaxAsWritten(a, b) < b
  {
  }

  /** `max` as intended; this is the one the rest of the model uses. */
  function Max(a: int, b: int): (r: int)
    ensures r >= a && r >= b && (r == a || r == b)
  {
    if a < b then b else a
  }
}
