/** The in-place list filter of src/main.cpp: walk the vector with an
    iterator, erase every element the predicate rejects and step past every
    element it accepts. */
module Filter {

  /** The elements of `s` that `p` accepts, in their order in `s`. */
  function Kept<T>(s: seq<T>, p: T -> bool): (r: seq<T>)
    ensures |r| <= |s|
    decreases |s|
  {
    if s == [] then []
    else (if p(s[0]) then [s[0]] else []) + Kept(s[1..], p)
  }

  /** `sub` is `s` with some elements left out and the rest in order. */
  ghost predicate Subsequence<T>(sub: seq<T>, s: seq<T>)
    decreases |s|
  {
    sub == [] || (s != [] &&
      ((sub[0] == s[0] && Subsequence(sub[1..], s[1..])) || Subsequence(sub, s[1..])))
  }

  /** Filtering a concatenation filters each part. */
  lemma {:induction false} KeptAppend<T>(a: seq<T>, b: seq<T>, p: T -> bool)
    ensures Kept(a + b, p) == Kept(a, p) + Kept(b, p)
    decreases |a|
  {
    if a == [] {
      assert a + b == b;
    } else {
      var h := if p(a[0]) then [a[0]] else [];
      assert (a + b)[0] == a[0] && (a + b)[1..] == a[1..] + b;
      KeptAppend(a[1..], b, p);
      assert Kept(a + b, p) == h + (Kept(a[1..], p) + Kept(b, p));
    }
  }

  /** One more element of the input adds at most that element to the result. */
  lemma {:induction false} KeptStep<T>(v: seq<T>, p: T -> bool, n: nat)
    requires n < |v|
    ensures Kept(v[..n + 1], p) == Kept(v[..n], p) + (if p(v[n]) then [v[n]] else [])
  {
    assert v[..n + 1] == v[..n] + [v[n]];
    KeptAppend(v[..n], [v[n]], p);
    assert [v[n]][1..] == [];
  }

  /** `filter`: the vector as it is left, and the elements the predicate was
      called on, in the order of the calls. */
  method FilterInPlace<T>(v: seq<T>, p: T -> bool) returns (w: seq<T>, calls: seq<T>)
    ensures w == Kept(v, p)
    ensures calls == v
  {
    w := v;
    calls := [];
    var i := 0;
    var n := 0;
    while i != |w|
      invariant 0 <= n <= |v|
      invariant i == |Kept(v[..n], p)|
      invariant w == Kept(v[..n], p) + v[n..]
      invariant calls == v[..n]
      decreases |v| - n
    {
      ghost var k := Kept(v[..n], p);
      Cursor(k, v, n);
      KeptStep(v, p, n);
      calls := calls + [w[i]];
      if !p(w[i]) {
        w := w[..i] + w[i + 1..];
      } else {
        i := i + 1;
      }
      n := n + 1;
    }
    assert v[..n] == v;
  }

  /** The iterator at the first unvisited element: erasing it leaves the
      rest, and stepping past it moves it to the kept part. */
  lemma {:induction false} Cursor<T>(k: seq<T>, v: seq<T>, n: nat)
    requires n < |v|
    ensures (k + v[n..])[|k|] == v[n]
    ensures (k + v[n..])[..|k|] + (k + v[n..])[|k| + 1..] == k + v[n + 1..]
    ensures k + v[n..] == (k + [v[n]]) + v[n + 1..]
    ensures v[..n + 1] == v[..n] + [v[n]]
  {
    var w := k + v[n..];
    assert w[..|k|] == k && w[|k| + 1..] == v[n + 1..];
    assert v[n..] == [v[n]] + v[n + 1..];
  }

  /** An element is kept exactly when it is in the input and accepted. */
  lemma {:induction false} KeptMembers<T>(s: seq<T>, p: T -> bool, x: T)
    ensures x in Kept(s, p) <==> x in s && p(x)
    decreases |s|
  {
    if s != [] {
      KeptMembers(s[1..], p, x);
      assert s == [s[0]] + s[1..];
    }
  }

  /** Every copy of an accepted element is kept, and no copy of a rejected one. */
  lemma {:induction false} KeptCounts<T>(s: seq<T>, p: T -> bool, x: T)
    ensures multiset(Kept(s, p))[x] == if p(x) then multiset(s)[x] else 0
    decreases |s|
  {
    if s != [] {
      KeptCounts(s[1..], p, x);
      assert s == [s[0]] + s[1..];
    }
  }

  /** The kept elements keep their relative order. */
  lemma {:induction false} KeptInOrder<T>(s: seq<T>, p: T -> bool)
    ensures Subsequence(Kept(s, p), s)
    decreases |s|
  {
    if s != [] {
      var rest := Kept(s[1..], p);
      KeptInOrder(s[1..], p);
      if p(s[0]) {
        assert Kept(s, p) == [s[0]] + rest;
        assert ([s[0]] + rest)[1..] == rest;
      } else {
        assert Kept(s, p) == rest;
      }
    }
  }

  /** Filtering a second time with the same predicate changes nothing. */
  lemma {:induction false} KeptIdempotent<T>(s: seq<T>, p: T -> bool)
    ensures Kept(Kept(s, p), p) == Kept(s, p)
    decreases |s|
  {
    if s != [] {
      var rest := Kept(s[1..], p);
      KeptIdempotent(s[1..], p);
      if p(s[0]) {
        assert Kept(s, p) == [s[0]] + rest;
        assert ([s[0]] + rest)[0] == s[0] && ([s[0]] + rest)[1..] == rest;
      } else {
        assert Kept(s, p) == rest;
      }
    }
  }
}
