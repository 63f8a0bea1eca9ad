/** Python's `list.remove` and the loops of the pages that call it once per
    name: `for col in names: lst.remove(col)`. */
module Lists {
  import opened Seqs
  import opened Errors

  /** Position of the first occurrence of `x`, where `list.remove` acts. */
  function IndexOf(xs: seq<string>, x: string): (i: nat)
    requires x in xs
    ensures i < |xs| && xs[i] == x && x !in xs[..i]
  {
    if xs[0] == x then 0
    else
      var i := IndexOf(xs[1..], x);
      assert xs[..i + 1] == [xs[0]] + xs[1..][..i];
      1 + i
  }

  /** `xs.remove(x)`: drops the first occurrence of `x`, raises ValueError when
      there is none. */
  function ListRemove(xs: seq<string>, x: string): (r: Result<seq<string>>)
    ensures r.Ok? <==> x in xs
    ensures r.Err? ==> r.error == ValueError(x)
    ensures r.Ok? ==> r.value == xs[..IndexOf(xs, x)] + xs[IndexOf(xs, x) + 1..]
  {
    if xs == [] then Err(ValueError(x))
    else if xs[0] == x then
      assert xs == [x] + xs[1..];
      Ok(xs[1..])
    else
      match ListRemove(xs[1..], x)
      case Err(e) => Err(e)
      case Ok(ys) =>
        var tail, i := xs[1..], IndexOf(xs[1..], x);
        assert IndexOf(xs, x) == i + 1;
        assert xs[..i + 1] == [xs[0]] + tail[..i];
        assert xs[i + 2..] == tail[i + 1..];
        Ok([xs[0]] + ys)
  }

  /** `remove` takes away exactly one copy of `x` and nothing else. */
  lemma ListRemoveMultiset(xs: seq<string>, x: string)
    requires x in xs
    ensures multiset(ListRemove(xs, x).value) == multiset(xs) - multiset{x}
  {
    var i := IndexOf(xs, x);
    assert xs == xs[..i] + [x] + xs[i + 1..];
  }

  /** Removing the names one after the other; the first failing `remove`
      raises and stops the loop. */
  function RemovedAll(xs: seq<string>, names: seq<string>): (r: Result<seq<string>>)
    ensures r.Err? ==> r.error.ValueError? && r.error.item in names
    ensures r.Ok? ==> |r.value| == |xs| - |names|
    decreases |names|
  {
    if names == [] then Ok(xs)
    else
      match ListRemove(xs, names[0])
      case Err(e) => Err(e)
      case Ok(ys) => RemovedAll(ys, names[1..])
  }

  /** The loop itself: a local list variable is reassigned after each
      `remove`, and the loop stops at the first one that raises. */
  method RemoveEach(xs: seq<string>, names: seq<string>) returns (r: Result<seq<string>>)
    ensures r == RemovedAll(xs, names)
  {
    var lst := xs;
    var i := 0;
    while i < |names|
      invariant 0 <= i <= |names|
      invariant RemovedAll(xs, names) == RemovedAll(lst, names[i..])
    {
      assert names[i..][0] == names[i] && names[i..][1..] == names[i + 1..];
      var step := ListRemove(lst, names[i]);
      if step.Err? {
        return Err(step.error);
      }
      lst := step.value;
      i := i + 1;
    }
    assert names[i..] == [];
    return Ok(lst);
  }

  /** In a list without duplicates, `remove` is the same as filtering the name out. */
  lemma {:induction false} RemoveFromUnique(xs: seq<string>, x: string)
    requires Unique(xs) && x in xs
    ensures ListRemove(xs, x) == Ok(Filter(xs, NotIn([x])))
  {
    assert Unique(xs[1..]) by {
      forall i, j | 0 <= i < j < |xs[1..]| ensures xs[1..][i] != xs[1..][j] {
        assert xs[1..][i] == xs[i + 1] && xs[1..][j] == xs[j + 1];
      }
    }
    if xs[0] == x {
      assert x !in xs[1..] by {
        forall k | 0 <= k < |xs[1..]| ensures xs[1..][k] != x {
          assert xs[1..][k] == xs[k + 1];
        }
      }
      FilterAll(xs[1..], NotIn([x]));
    } else {
      RemoveFromUnique(xs[1..], x);
    }
  }

  /** The loop over a duplicate-free list succeeds exactly when the names are
      duplicate-free and all present, and then leaves the list's other
      elements in their original order. */
  lemma {:induction false} RemovedAllUnique(xs: seq<string>, names: seq<string>)
    requires Unique(xs)
    ensures RemovedAll(xs, names).Ok? <==> Unique(names) && forall c :: c in names ==> c in xs
    ensures RemovedAll(xs, names).Ok? ==> RemovedAll(xs, names).value == Filter(xs, NotIn(names))
    decreases |names|
  {
    if names == [] {
      FilterAll(xs, NotIn(names));
    } else {
      var x, rest := names[0], names[1..];
      assert names == [x] + rest;
      assert Unique(names) <==> x !in rest && Unique(rest) by {
        if Unique(names) {
          forall k | 0 <= k < |rest| ensures rest[k] != x {
            assert rest[k] == names[k + 1];
          }
          forall i, j | 0 <= i < j < |rest| ensures rest[i] != rest[j] {
            assert rest[i] == names[i + 1] && rest[j] == names[j + 1];
          }
        }
        if x !in rest && Unique(rest) {
          forall i, j | 0 <= i < j < |names| ensures names[i] != names[j] {
            if i == 0 {
              assert names[j] == rest[j - 1];
            } else {
              assert names[i] == rest[i - 1] && names[j] == rest[j - 1];
            }
          }
        }
      }
      if x in xs {
        var ys := Filter(xs, NotIn([x]));
        RemoveFromUnique(xs, x);
        FilterUnique(xs, NotIn([x]));
        RemovedAllUnique(ys, rest);
        FilterFilter(xs, NotIn([x]), NotIn(rest), NotIn(names));
      }
    }
  }

  /** On a duplicate-free list the loop raises at some name `names[j]` that is
      either not in the list at all or was already removed by an earlier
      occurrence in `names`. */
  lemma {:induction false} RemovedAllFailure(xs: seq<string>, names: seq<string>)
    requires Unique(xs)
    ensures RemovedAll(xs, names).Err? ==>
      exists j :: 0 <= j < |names| && names[j] == RemovedAll(xs, names).error.item
        && (names[j] !in xs || names[j] in names[..j])
    decreases |names|
  {
    if names != [] && RemovedAll(xs, names).Err? {
      var x, rest := names[0], names[1..];
      var item := RemovedAll(xs, names).error.item;
      if x !in xs {
        assert names[0] == item && names[0] !in xs;
      } else {
        var ys := Filter(xs, NotIn([x]));
        RemoveFromUnique(xs, x);
        FilterUnique(xs, NotIn([x]));
        RemovedAllFailure(ys, rest);
        var j :| 0 <= j < |rest| && rest[j] == item && (rest[j] !in ys || rest[j] in rest[..j]);
        assert names[j + 1] == item;
        assert names[..j + 1] == [x] + rest[..j];
        assert names[j + 1] !in xs || names[j + 1] in names[..j + 1];
      }
    }
  }
}
