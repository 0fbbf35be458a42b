/** Character-level string searching shared by the parsers of the model:
    `std::string::find` for a character and for a substring, prefixes, and
    splitting a string into all of its delimiter-separated segments. */
module Text {
  import opened Wrappers

  /** Index of the first `c` at or after `from`; `None` plays the part of `npos`. */
  function FindFrom(s: string, c: char, from: nat): (r: Option<nat>)
    ensures r.Some? ==> from <= r.value < |s| && s[r.value] == c
    decreases |s| - from
  {
    if from >= |s| then None
    else if s[from] == c then Some(from)
    else FindFrom(s, c, from + 1)
  }

  /** The search finds the first `c` at or after `from`, and fails only
      when there is none. */
  lemma {:induction false} FindFromSpec(s: string, c: char, from: nat)
    ensures var r := FindFrom(s, c, from);
      && (r.Some? ==> forall k :: from <= k < r.value ==> s[k] != c)
      && (r.None? ==> forall k :: from <= k < |s| ==> s[k] != c)
    decreases |s| - from
  {
    if from < |s| && s[from] != c {
      FindFromSpec(s, c, from + 1);
    }
  }

  function Find(s: string, c: char): (r: Option<nat>)
    ensures r.Some? ==> r.value < |s| && s[r.value] == c
  {
    FindFrom(s, c, 0)
  }

  /** `Find` gives the first `c`, and fails only when there is none. */
  lemma {:induction false} FindSpec(s: string, c: char)
    ensures Find(s, c).Some? ==> c !in s[..Find(s, c).value]
    ensures Find(s, c).None? <==> c !in s
  {
    var r := FindFrom(s, c, 0);
    FindFromSpec(s, c, 0);
    if r.Some? {
      assert forall k :: 0 <= k < r.value ==> s[..r.value][k] != c;
    }
  }

  /** The first `c` of `s` is the one at `i` when nothing before it is a `c`. */
  lemma {:induction false} FindAt(s: string, c: char, i: nat)
    requires i < |s| && s[i] == c && forall k :: 0 <= k < i ==> s[k] != c
    ensures Find(s, c) == Some(i)
  {
    FindFromAt(s, c, 0, i);
  }

  /** The search from `from` stops at the first `c` at or after `from`. */
  lemma {:induction false} FindFromAt(s: string, c: char, from: nat, i: nat)
    requires from <= i < |s| && s[i] == c && forall k :: from <= k < i ==> s[k] != c
    ensures FindFrom(s, c, from) == Some(i)
  {
    var r := FindFrom(s, c, from);
    FindFromSpec(s, c, from);
    assert r.Some? && !(r.value < i) && !(r.value > i);
  }

  /** The first `c` of a string that starts with a `c`-free `p` and a `c`. */
  lemma {:induction false} FindAfter(s: string, p: string, c: char, rest: string)
    requires c !in p && s == p + [c] + rest
    ensures Find(s, c) == Some(|p|)
    ensures s[..|p|] == p && s[|p| + 1..] == rest
  {
    forall k | 0 <= k < |p| ensures s[k] != c {
      assert s[k] == p[k];
    }
    FindAt(s, c, |p|);
    assert s[..|p|] == p;
    assert s[|p| + 1..] == rest;
  }

  /** A string without `c` has no first `c`. */
  lemma {:induction false} FindNone(s: string, c: char)
    requires c !in s
    ensures Find(s, c) == None
  {
    FindSpec(s, c);
  }

  predicate StartsWith(s: string, p: string) {
    |p| <= |s| && s[..|p|] == p
  }

  predicate OccursAt(s: string, t: string, i: nat) {
    i + |t| <= |s| && s[i..i + |t|] == t
  }

  /** `std::string::find(t, from)` for a non-empty needle. */
  function FindSubFrom(s: string, t: string, from: nat): (r: Option<nat>)
    requires |t| > 0
    ensures r.Some? ==> from <= r.value && r.value + |t| <= |s|
    decreases |s| - from
  {
    if from + |t| > |s| then None
    else if s[from..from + |t|] == t then Some(from)
    else FindSubFrom(s, t, from + 1)
  }

  /** The search finds the first occurrence at or after `from`, and fails
      only when there is none. */
  lemma {:induction false} FindSubFromSpec(s: string, t: string, from: nat)
    requires |t| > 0
    ensures var r := FindSubFrom(s, t, from);
      && (r.Some? ==> OccursAt(s, t, r.value))
      && (r.Some? ==> forall k :: from <= k < r.value ==> !OccursAt(s, t, k))
      && (r.None? ==> forall k :: from <= k ==> !OccursAt(s, t, k))
    decreases |s| - from
  {
    if from + |t| <= |s| && s[from..from + |t|] != t {
      FindSubFromSpec(s, t, from + 1);
    }
  }

  /** The search from 0 stops at the first occurrence. */
  lemma {:induction false} FindSubAt(s: string, t: string, i: nat)
    requires |t| > 0 && OccursAt(s, t, i) && forall k :: 0 <= k < i ==> !OccursAt(s, t, k)
    ensures FindSubFrom(s, t, 0) == Some(i)
  {
    FindSubFromSpec(s, t, 0);
  }

  /** Every piece of `s` between occurrences of `c`, empty pieces included:
      a string with k occurrences has k+1 segments. */
  function Segments(s: string, c: char): (r: seq<string>)
    ensures |r| >= 1
    decreases |s|
  {
    match Find(s, c)
    case None => [s]
    case Some(i) => [s[..i]] + Segments(s[i + 1..], c)
  }

  /** Splitting at the first separator. */
  lemma {:induction false} SegmentsStep(s: string, c: char, i: nat)
    requires Find(s, c) == Some(i)
    ensures Segments(s, c) == [s[..i]] + Segments(s[i + 1..], c)
  {
  }

  /** `s` with every occurrence of `c` removed. */
  function Remove(s: string, c: char): (r: string)
    ensures c !in r
  {
    if s == [] then []
    else if s[0] == c then Remove(s[1..], c)
    else [s[0]] + Remove(s[1..], c)
  }

  /** How many times `c` occurs in `s`. */
  function CountChar(s: string, c: char): (n: nat)
    ensures n <= |s|
    ensures n == 0 <==> c !in s
  {
    if s == [] then 0 else CountChar(s[..|s| - 1], c) + (if s[|s| - 1] == c then 1 else 0)
  }

  function Concat(parts: seq<string>): string {
    if parts == [] then [] else parts[0] + Concat(parts[1..])
  }

  /** Each line followed by a line break: a text file written line by line. */
  function Terminated(lines: seq<string>): (r: string)
    ensures |r| >= |lines|
  {
    if lines == [] then "" else lines[0] + "\n" + Terminated(lines[1..])
  }

  /** `parts` joined with `sep` between neighbours, as Python's `sep.join`. */
  function Join(sep: char, parts: seq<string>): string {
    if |parts| == 0 then []
    else if |parts| == 1 then parts[0]
    else parts[0] + [sep] + Join(sep, parts[1..])
  }

  lemma {:induction false} RemoveAppend(a: string, b: string, c: char)
    ensures Remove(a + b, c) == Remove(a, c) + Remove(b, c)
  {
    if a != [] {
      assert (a + b)[1..] == a[1..] + b;
      RemoveAppend(a[1..], b, c);
    } else {
      assert a + b == b;
    }
  }

  lemma {:induction false} RemoveFree(a: string, c: char)
    requires c !in a
    ensures Remove(a, c) == a
  {
    if a != [] {
      RemoveFree(a[1..], c);
    }
  }

  lemma {:induction false} ConcatAppend(a: seq<string>, b: seq<string>)
    ensures Concat(a + b) == Concat(a) + Concat(b)
  {
    if a != [] {
      assert (a + b)[1..] == a[1..] + b;
      ConcatAppend(a[1..], b);
    } else {
      assert a + b == b;
    }
  }

  lemma {:induction false} SegmentsFree(s: string, c: char)
    ensures forall t :: t in Segments(s, c) ==> c !in t
    decreases |s|
  {
    FindSpec(s, c);
    match Find(s, c)
    case None =>
    case Some(i) =>
      SegmentsFree(s[i + 1..], c);
  }

  /** Joining the segments back with `c` gives the original string. */
  lemma {:induction false} JoinSegments(s: string, c: char)
    ensures Join(c, Segments(s, c)) == s
    decreases |s|
  {
    match Find(s, c)
    case None =>
    case Some(i) =>
      var rest := Segments(s[i + 1..], c);
      var segs := [s[..i]] + rest;
      JoinSegments(s[i + 1..], c);
      assert segs[1..] == rest;
      assert Join(c, segs) == s[..i] + [c] + Join(c, rest);
      assert s == s[..i] + [c] + s[i + 1..];
  }

  /** Writing lines each with its own break is joining them with breaks and
      adding one final break. */
  lemma {:induction false} TerminatedJoin(parts: seq<string>)
    requires |parts| >= 1
    ensures Terminated(parts) == Join('\n', parts) + "\n"
    decreases |parts|
  {
    if |parts| > 1 {
      TerminatedJoin(parts[1..]);
    } else {
      assert parts[1..] == [];
    }
  }

  /** A comma-free (delimiter-free) list of fields is recovered by splitting its join. */
  lemma {:induction false} SegmentsOfJoin(c: char, parts: seq<string>)
    requires |parts| >= 1
    requires forall k :: 0 <= k < |parts| ==> c !in parts[k]
    ensures Segments(Join(c, parts), c) == parts
    decreases |parts|
  {
    if |parts| > 1 {
      var j := Join(c, parts);
      var rest := Join(c, parts[1..]);
      FindAfter(j, parts[0], c, rest);
      SegmentsOfJoin(c, parts[1..]);
    }
  }

  /** A character other than the separator that no part holds is not in the
      joined string either. */
  lemma {:induction false} JoinFree(sep: char, parts: seq<string>, c: char)
    requires c != sep && forall k :: 0 <= k < |parts| ==> c !in parts[k]
    requires |parts| >= 1 && parts[0] != []
    ensures c !in Join(sep, parts) && Join(sep, parts) != []
    decreases |parts|
  {
    if |parts| > 1 {
      if parts[1] != [] {
        JoinFree(sep, parts[1..], c);
      } else {
        JoinFreeAny(sep, parts[1..], c);
      }
    }
  }

  lemma {:induction false} JoinFreeAny(sep: char, parts: seq<string>, c: char)
    requires c != sep && forall k :: 0 <= k < |parts| ==> c !in parts[k]
    ensures c !in Join(sep, parts)
    decreases |parts|
  {
    if |parts| > 1 {
      JoinFreeAny(sep, parts[1..], c);
    }
  }
}
