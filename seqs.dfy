/** Generic sequence operations that the source performs with JavaScript
    array methods (`filter`, `reduce`, `reverse`, `slice`) and with MongoDB
    queries (`sort`), together with the facts the rest of the model needs
    about them. */
module Seqs {

  function Min(a: int, b: int): int { if a <= b then a else b }

  // ---------------------------------------------------------------- filter

  /** `s.filter(p)`: the elements of `s` that satisfy `p`, in their original order. */
  function Filter<T(==,!new)>(s: seq<T>, p: T -> bool): (r: seq<T>)
    ensures |r| <= |s|
    ensures forall x :: x in r <==> x in s && p(x)
  {
    if s == [] then []
    else (if p(s[0]) then [s[0]] else []) + Filter(s[1..], p)
  }

  /** `idx` picks, in strictly increasing order, the positions of `b` whose
      elements make up `a`. */
  ghost predicate Embeds<T>(a: seq<T>, b: seq<T>, idx: seq<int>)
  {
    && |idx| == |a|
    && (forall i :: 0 <= i < |idx| ==> 0 <= idx[i] < |b| && a[i] == b[idx[i]])
    && (forall i, j :: 0 <= i < j < |idx| ==> idx[i] < idx[j])
  }

  /** `a` is `b` with some elements left out and the rest kept in order. */
  ghost predicate IsSubsequence<T>(a: seq<T>, b: seq<T>)
  {
    exists idx :: Embeds(a, b, idx)
  }

  lemma SubsequenceOfItself<T>(s: seq<T>)
    ensures IsSubsequence(s, s)
  {
    assert Embeds(s, s, seq(|s|, i => i));
  }

  lemma {:induction false} FilterIsSubsequence<T(!new)>(s: seq<T>, p: T -> bool)
    ensures IsSubsequence(Filter(s, p), s)
  {
    if s == [] {
      assert Embeds(Filter(s, p), s, []);
    } else {
      FilterIsSubsequence(s[1..], p);
      var idx :| Embeds(Filter(s[1..], p), s[1..], idx);
      EmbedsInTail(Filter(s[1..], p), s, idx);
      var shifted := seq(|idx|, i requires 0 <= i < |idx| => idx[i] + 1);
      if p(s[0]) {
        assert Filter(s, p) == [s[0]] + Filter(s[1..], p);
        assert Embeds(Filter(s, p), s, [0] + shifted);
      } else {
        assert Filter(s, p) == Filter(s[1..], p);
        assert Embeds(Filter(s, p), s, shifted);
      }
    }
  }

  /** An embedding into the tail of `b` is one into `b`, with or without
      `b`'s head in front. */
  lemma EmbedsInTail<T>(a: seq<T>, b: seq<T>, idx: seq<int>)
    requires b != [] && Embeds(a, b[1..], idx)
    ensures var shifted := seq(|idx|, i requires 0 <= i < |idx| => idx[i] + 1);
      Embeds(a, b, shifted) && Embeds([b[0]] + a, b, [0] + shifted)
  {
    var shifted := seq(|idx|, i requires 0 <= i < |idx| => idx[i] + 1);
    forall i | 0 <= i < |shifted| ensures 0 <= shifted[i] < |b| && a[i] == b[shifted[i]] {
      assert b[1..][idx[i]] == b[idx[i] + 1];
    }
    var both := [0] + shifted;
    forall i | 0 <= i < |both| ensures 0 <= both[i] < |b| && ([b[0]] + a)[i] == b[both[i]] {
      if i > 0 {
        assert both[i] == shifted[i - 1];
      }
    }
    forall i, j | 0 <= i < j < |both| ensures both[i] < both[j] {
      if i > 0 {
        assert both[i] == shifted[i - 1] && both[j] == shifted[j - 1];
      }
    }
  }

  lemma {:induction false} FilterAppend<T(!new)>(a: seq<T>, b: seq<T>, p: T -> bool)
    ensures Filter(a + b, p) == Filter(a, p) + Filter(b, p)
  {
    if a == [] {
      assert a + b == b;
    } else {
      assert (a + b)[1..] == a[1..] + b;
      FilterAppend(a[1..], b, p);
    }
  }

  /** How often `x` occurs in a filtered sequence. */
  lemma {:induction false} FilterCount<T(!new)>(s: seq<T>, p: T -> bool, x: T)
    ensures multiset(Filter(s, p))[x] == if p(x) then multiset(s)[x] else 0
  {
    if s != [] {
      FilterCount(s[1..], p, x);
      assert s == [s[0]] + s[1..];
    }
  }

  /** Filtering two arrangements of the same elements keeps the same elements. */
  lemma FilterPermutation<T(!new)>(a: seq<T>, b: seq<T>, p: T -> bool)
    requires multiset(a) == multiset(b)
    ensures multiset(Filter(a, p)) == multiset(Filter(b, p))
  {
    forall x
      ensures multiset(Filter(a, p))[x] == multiset(Filter(b, p))[x]
    {
      FilterCount(a, p, x);
      FilterCount(b, p, x);
    }
  }

  lemma {:induction false} FilterFilter<T(!new)>(s: seq<T>, p: T -> bool, q: T -> bool, pq: T -> bool)
    requires forall x :: pq(x) == (p(x) && q(x))
    ensures Filter(Filter(s, p), q) == Filter(s, pq)
  {
    if s != [] {
      FilterFilter(s[1..], p, q, pq);
      FilterAppend(if p(s[0]) then [s[0]] else [], Filter(s[1..], p), q);
    }
  }

  lemma {:induction false} FilterKeepsAll<T(!new)>(s: seq<T>, p: T -> bool)
    requires forall x :: x in s ==> p(x)
    ensures Filter(s, p) == s
  {
    if s != [] {
      FilterKeepsAll(s[1..], p);
    }
  }

  /** When the test rejects the first `n` elements and keeps the rest, the
      filter drops exactly that prefix. */
  lemma FilterDropsPrefix<T(!new)>(s: seq<T>, n: nat, p: T -> bool)
    requires n <= |s|
    requires Filter(s[..n], p) == [] && Filter(s[n..], p) == s[n..]
    ensures Filter(s, p) == s[n..]
  {
    assert s == s[..n] + s[n..];
    FilterAppend(s[..n], s[n..], p);
  }

  /** Two tests that agree on every element filter alike. */
  lemma {:induction false} FilterSameTest<T(!new)>(s: seq<T>, p: T -> bool, q: T -> bool)
    requires forall x :: x in s ==> p(x) == q(x)
    ensures Filter(s, p) == Filter(s, q)
  {
    if s != [] {
      FilterSameTest(s[1..], p, q);
    }
  }

  lemma FilterKeepsNone<T(!new)>(s: seq<T>, p: T -> bool)
    requires forall x :: x in s ==> !p(x)
    ensures Filter(s, p) == []
  {
  }

  // ------------------------------------------------------------------- sum

  /** `s.reduce((acc, x) => acc + f(x), 0)`, accumulated from the left. */
  function SumBy<T>(s: seq<T>, f: T -> int): int
  {
    if s == [] then 0 else SumBy(s[..|s| - 1], f) + f(s[|s| - 1])
  }

  lemma {:induction false} SumByAppend<T>(a: seq<T>, b: seq<T>, f: T -> int)
    ensures SumBy(a + b, f) == SumBy(a, f) + SumBy(b, f)
  {
    if b != [] {
      assert (a + b)[..|a + b| - 1] == a + b[..|b| - 1];
      SumByAppend(a, b[..|b| - 1], f);
    } else {
      assert a + b == a;
    }
  }

  /** Replacing one term changes the sum by the difference. */
  lemma SumByUpdate<T>(s: seq<T>, i: nat, x: T, f: T -> int)
    requires i < |s|
    ensures SumBy(s[i := x], f) == SumBy(s, f) - f(s[i]) + f(x)
  {
    assert s == s[..i] + [s[i]] + s[i + 1..];
    assert s[i := x] == s[..i] + [x] + s[i + 1..];
    SumByAppend(s[..i] + [s[i]], s[i + 1..], f);
    SumByAppend(s[..i] + [x], s[i + 1..], f);
    SumByAppend(s[..i], [s[i]], f);
    SumByAppend(s[..i], [x], f);
    assert [s[i]][..0] == [] && [x][..0] == [];
  }

  /** Two sequences whose terms agree position by position have the same sum. */
  lemma {:induction false} SumByPointwise<T, U>(s: seq<T>, f: T -> int, t: seq<U>, g: U -> int)
    requires |s| == |t| && forall i :: 0 <= i < |s| ==> f(s[i]) == g(t[i])
    ensures SumBy(s, f) == SumBy(t, g)
  {
    if s != [] {
      SumByPointwise(s[..|s| - 1], f, t[..|t| - 1], g);
    }
  }

  /** Every term lies in [lo, hi], so the sum lies in [lo * |s|, hi * |s|]. */
  lemma {:induction false} SumByBounds<T>(s: seq<T>, f: T -> int, lo: int, hi: int)
    requires forall x :: x in s ==> lo <= f(x) <= hi
    ensures lo * |s| <= SumBy(s, f) <= hi * |s|
  {
    if s != [] {
      var init, last := s[..|s| - 1], s[|s| - 1];
      assert forall x :: x in init ==> x in s;
      SumByBounds(init, f, lo, hi);
      assert SumBy(s, f) == SumBy(init, f) + f(last);
      assert last in s;
      MulSucc(lo, |init|);
      MulSucc(hi, |init|);
    }
  }

  lemma MulSucc(a: int, n: nat)
    ensures a * (n + 1) == a * n + a
  {
  }

  // ------------------------------------------------------------------ sort

  /** `key` does not decrease along `s`. */
  ghost predicate SortedBy<T>(s: seq<T>, key: T -> int)
  {
    forall i, j :: 0 <= i < j < |s| ==> key(s[i]) <= key(s[j])
  }

  function Insert<T(==,!new)>(x: T, s: seq<T>, key: T -> int): (r: seq<T>)
    requires SortedBy(s, key)
    ensures multiset(r) == multiset(s) + multiset{x}
    ensures SortedBy(r, key)
  {
    if s == [] || key(x) <= key(s[0]) then
      SortedCons(x, s, key);
      [x] + s
    else
      var rest := Insert(x, s[1..], key);
      InsertAfterHead(x, s, rest, key);
      [s[0]] + rest
  }

  /** An element no larger than every element of a sorted list can go
      before it. */
  lemma SortedCons<T>(h: T, s: seq<T>, key: T -> int)
    requires SortedBy(s, key)
    requires s != [] ==> key(h) <= key(s[0])
    ensures SortedBy([h] + s, key)
  {
    var r := [h] + s;
    forall i, j | 0 <= i < j < |r| ensures key(r[i]) <= key(r[j]) {
      assert r[j] == s[j - 1];
      if i > 0 {
        assert r[i] == s[i - 1];
      }
    }
  }

  /** The step of `Insert` that keeps the head of `s` in front. */
  lemma InsertAfterHead<T>(x: T, s: seq<T>, rest: seq<T>, key: T -> int)
    requires SortedBy(s, key) && s != [] && key(s[0]) < key(x)
    requires multiset(rest) == multiset(s[1..]) + multiset{x}
    requires SortedBy(rest, key)
    ensures multiset([s[0]] + rest) == multiset(s) + multiset{x}
    ensures SortedBy([s[0]] + rest, key)
  {
    assert s == [s[0]] + s[1..];
    if rest != [] {
      assert rest[0] in multiset(rest);
      assert rest[0] == x || rest[0] in s[1..];
    }
    SortedCons(s[0], rest, key);
  }

  /** A MongoDB `sort` on one key, ascending: the same elements, ordered by
      `key`.  (Insertion sort; it happens to be stable, but nothing in the
      model relies on how ties are ordered.) */
  function SortBy<T(==,!new)>(s: seq<T>, key: T -> int): (r: seq<T>)
    ensures |r| == |s|
    ensures multiset(r) == multiset(s)
    ensures SortedBy(r, key)
  {
    if s == [] then []
    else
      assert s == [s[0]] + s[1..];
      var r := Insert(s[0], SortBy(s[1..], key), key);
      assert |multiset(r)| == |multiset(s)|;
      r
  }

  // --------------------------------------------------------------- reverse

  /** `s.reverse()`. */
  function Reverse<T>(s: seq<T>): (r: seq<T>)
    ensures |r| == |s|
    ensures forall i :: 0 <= i < |s| ==> r[i] == s[|s| - 1 - i]
  {
    if s == [] then [] else Reverse(s[1..]) + [s[0]]
  }

  lemma ReverseMultiset<T>(s: seq<T>)
    ensures multiset(Reverse(s)) == multiset(s)
  {
    if s != [] {
      ReverseMultiset(s[1..]);
      assert s == [s[0]] + s[1..];
    }
  }
}
