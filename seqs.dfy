/** Order-preserving filtering of sequences, the shape shared by every list
    comprehension, `list.remove` loop and row mask of the catalogue pages. */
module Seqs {

  /** No element occurs twice (a DataFrame's column index, a multiselect value). */
  predicate Unique<T(==)>(s: seq<T>) {
    forall i, j :: 0 <= i < j < |s| ==> s[i] != s[j]
  }

  /** `r` is obtained from `s` by deleting elements: what is kept keeps its relative order. */
  predicate IsSubsequence<T(==)>(r: seq<T>, s: seq<T>)
    decreases |s|
  {
    if r == [] then true
    else if s == [] then false
    else (r[0] == s[0] && IsSubsequence(r[1..], s[1..])) || IsSubsequence(r, s[1..])
  }

  /** The elements of `s` that satisfy `keep`, in the order of `s`
      (Python's `[x for x in s if keep(x)]`). */
  function Filter<T(==,!new)>(s: seq<T>, keep: T -> bool): (r: seq<T>)
    ensures |r| <= |s|
    ensures forall x :: x in r <==> x in s && keep(x)
    ensures IsSubsequence(r, s)
  {
    if s == [] then []
    else
      assert s == [s[0]] + s[1..];
      if keep(s[0]) then [s[0]] + Filter(s[1..], keep) else Filter(s[1..], keep)
  }

  /** Each element is kept as often as it occurs, or dropped entirely. */
  lemma {:induction false} FilterMultiset<T(!new)>(s: seq<T>, keep: T -> bool)
    ensures forall x :: multiset(Filter(s, keep))[x] == if keep(x) then multiset(s)[x] else 0
  {
    if s != [] {
      assert s == [s[0]] + s[1..];
      FilterMultiset(s[1..], keep);
    }
  }

  /** Membership tests used as filter conditions. */
  function NotIn<T(==)>(xs: seq<T>): T -> bool {
    x => x !in xs
  }

  function In<T(==)>(xs: seq<T>): T -> bool {
    x => x in xs
  }

  lemma {:induction false} FilterUnique<T(!new)>(s: seq<T>, keep: T -> bool)
    requires Unique(s)
    ensures Unique(Filter(s, keep))
  {
    if s != [] {
      assert Unique(s[1..]) by {
        forall i, j | 0 <= i < j < |s[1..]| ensures s[1..][i] != s[1..][j] {
          assert s[1..][i] == s[i + 1] && s[1..][j] == s[j + 1];
        }
      }
      FilterUnique(s[1..], keep);
      assert s[0] !in s[1..] by {
        forall k | 0 <= k < |s[1..]| ensures s[1..][k] != s[0] {
          assert s[1..][k] == s[k + 1];
        }
      }
    }
  }

  /** Two conditions that agree on the elements of `s` keep the same elements. */
  lemma {:induction false} FilterExt<T(!new)>(s: seq<T>, p: T -> bool, q: T -> bool)
    requires forall x :: x in s ==> p(x) == q(x)
    ensures Filter(s, p) == Filter(s, q)
  {
    if s != [] {
      FilterExt(s[1..], p, q);
    }
  }

  /** Filtering twice is filtering once by the conjunction. */
  lemma {:induction false} FilterFilter<T(!new)>(s: seq<T>, p: T -> bool, q: T -> bool, pq: T -> bool)
    requires forall x :: x in s ==> pq(x) == (p(x) && q(x))
    ensures Filter(Filter(s, p), q) == Filter(s, pq)
  {
    if s != [] {
      FilterFilter(s[1..], p, q, pq);
    }
  }

  /** A condition that holds everywhere keeps everything. */
  lemma {:induction false} FilterAll<T(!new)>(s: seq<T>, p: T -> bool)
    requires forall x :: x in s ==> p(x)
    ensures Filter(s, p) == s
  {
    if s != [] {
      FilterAll(s[1..], p);
    }
  }

  /** Filtering a sequence with a new head. */
  lemma FilterCons<T(!new)>(x: T, s: seq<T>, p: T -> bool)
    ensures Filter([x] + s, p) == (if p(x) then [x] else []) + Filter(s, p)
  {
    assert ([x] + s)[1..] == s;
  }

  /** Filtering short lists element by element (right-nested, as the cons steps give it). */
  lemma FilterOne<T(!new)>(d: T, p: T -> bool)
    ensures Filter([d], p) == (if p(d) then [d] else [])
  {
    assert [d] == [d] + [];
    FilterCons(d, [], p);
  }
  lemma FilterTwo<T(!new)>(c: T, d: T, p: T -> bool)
    ensures Filter([c, d], p) == (if p(c) then [c] else []) + (if p(d) then [d] else [])
  {
    FilterOne(d, p);
    assert [c, d] == [c] + [d];
    FilterCons(c, [d], p);
  }
  lemma FilterThree<T(!new)>(b: T, c: T, d: T, p: T -> bool)
    ensures Filter([b, c, d], p) == (if p(b) then [b] else []) + ((if p(c) then [c] else []) + (if p(d) then [d] else []))
  {
    FilterTwo(c, d, p);
    assert [b, c, d] == [b] + [c, d];
    FilterCons(b, [c, d], p);
  }
  lemma FilterFour<T(!new)>(a: T, b: T, c: T, d: T, p: T -> bool)
    ensures Filter([a, b, c, d], p) ==
      (if p(a) then [a] else []) + ((if p(b) then [b] else []) + ((if p(c) then [c] else []) + (if p(d) then [d] else [])))
  {
    FilterThree(b, c, d, p);
    assert [a, b, c, d] == [a] + [b, c, d];
    FilterCons(a, [b, c, d], p);
  }

  /** Filtering an extended sequence (the step of a loop that appends). */
  lemma {:induction false} FilterAppend<T(!new)>(s: seq<T>, x: T, p: T -> bool)
    ensures Filter(s + [x], p) == Filter(s, p) + (if p(x) then [x] else [])
  {
    if s == [] {
      assert [] + [x] == [x];
    } else {
      assert (s + [x])[1..] == s[1..] + [x];
      FilterAppend(s[1..], x, p);
    }
  }

  /** In a duplicate-free sequence, dropping one present element shortens it by one. */
  lemma {:induction false} DropOneLength<T(!new)>(s: seq<T>, x: T)
    requires Unique(s) && x in s
    ensures |Filter(s, NotIn([x]))| == |s| - 1
  {
    assert Unique(s[1..]) by {
      forall i, j | 0 <= i < j < |s[1..]| ensures s[1..][i] != s[1..][j] {
        assert s[1..][i] == s[i + 1] && s[1..][j] == s[j + 1];
      }
    }
    if s[0] == x {
      assert x !in s[1..] by {
        forall k | 0 <= k < |s[1..]| ensures s[1..][k] != x {
          assert s[1..][k] == s[k + 1];
        }
      }
      FilterAll(s[1..], NotIn([x]));
    } else {
      DropOneLength(s[1..], x);
    }
  }

  /** The complement of a duplicate-free subset has the remaining length. */
  lemma {:induction false} ComplementLength<T(!new)>(s: seq<T>, sel: seq<T>)
    requires Unique(s) && Unique(sel)
    requires forall c :: c in sel ==> c in s
    ensures |Filter(s, NotIn(sel))| == |s| - |sel|
    decreases |sel|
  {
    if sel == [] {
      FilterAll(s, NotIn(sel));
    } else {
      var x, rest := sel[0], sel[1..];
      var s' := Filter(s, NotIn([x]));
      assert x !in rest by {
        forall k | 0 <= k < |rest| ensures rest[k] != x {
          assert rest[k] == sel[k + 1];
        }
      }
      assert Unique(rest) by {
        forall i, j | 0 <= i < j < |rest| ensures rest[i] != rest[j] {
          assert rest[i] == sel[i + 1] && rest[j] == sel[j + 1];
        }
      }
      FilterUnique(s, NotIn([x]));
      ComplementLength(s', rest);
      FilterFilter(s, NotIn([x]), NotIn(rest), NotIn(sel));
      DropOneLength(s, x);
    }
  }

  /** Python's `sub in s` on strings: `sub` occurs in `s` at some position. */
  predicate Contains<T(==)>(s: seq<T>, sub: seq<T>)
    decreases |s|
  {
    sub <= s || (s != [] && Contains(s[1..], sub))
  }

  function Containing<T(==)>(sub: seq<T>): seq<T> -> bool {
    s => Contains(s, sub)
  }

  /** `sub` occurs in `s` starting at position `i`. */
  predicate OccursAt<T(==)>(s: seq<T>, sub: seq<T>, i: int) {
    0 <= i <= |s| - |sub| && s[i..i + |sub|] == sub
  }

  /** The recursive test agrees with "some slice of `s` equals `sub`". */
  lemma {:induction false} ContainsAt<T(!new)>(s: seq<T>, sub: seq<T>)
    ensures Contains(s, sub) <==> exists i :: OccursAt(s, sub, i)
    decreases |s|
  {
    if sub <= s {
      assert OccursAt(s, sub, 0);
    } else if s != [] {
      ContainsAt(s[1..], sub);
      if exists i :: OccursAt(s[1..], sub, i) {
        var i :| OccursAt(s[1..], sub, i);
        assert s[i + 1..i + 1 + |sub|] == s[1..][i..i + |sub|];
        assert OccursAt(s, sub, i + 1);
      }
      if exists i :: OccursAt(s, sub, i) {
        var i :| OccursAt(s, sub, i);
        if i > 0 {
          assert s[1..][i - 1..i - 1 + |sub|] == s[i..i + |sub|];
          assert OccursAt(s[1..], sub, i - 1);
        }
      }
    }
  }
}
