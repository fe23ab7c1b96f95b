/**
 * The Python list operations the relay uses on its registries, as functions
 * on sequences: a list comprehension with an `if` (Filter) and `list.remove`
 * (RemoveFirst), with the facts about them that the registries rely on.
 */
module Seqs {

  /** `[x for x in s if x not in drop]`: the elements not dropped, in their original order. */
  function Filter<T(!new)>(s: seq<T>, drop: set<T>): (r: seq<T>)
    ensures |r| <= |s|
    ensures forall x :: x in r <==> x in s && x !in drop
  {
    if s == [] then []
    else
      assert s == [s[0]] + s[1..];
      (if s[0] !in drop then [s[0]] else []) + Filter(s[1..], drop)
  }

  /** Filtering distributes over concatenation, so it keeps relative order. */
  lemma {:induction false} FilterAppend<T(!new)>(a: seq<T>, b: seq<T>, drop: set<T>)
    ensures Filter(a + b, drop) == Filter(a, drop) + Filter(b, drop)
  {
    if a == [] {
      assert a + b == b;
    } else {
      assert (a + b)[0] == a[0];
      assert (a + b)[1..] == a[1..] + b;
      FilterAppend(a[1..], b, drop);
    }
  }

  /** When every element passes, filtering changes nothing. */
  lemma {:induction false} FilterKeepsAll<T(!new)>(s: seq<T>, drop: set<T>)
    requires forall x :: x in s ==> x !in drop
    ensures Filter(s, drop) == s
  {
    if s != [] {
      assert s == [s[0]] + s[1..];
      FilterKeepsAll(s[1..], drop);
    }
  }

  /** Only membership of the elements of `s` in the drop set matters. */
  lemma {:induction false} FilterAgree<T(!new)>(s: seq<T>, d1: set<T>, d2: set<T>)
    requires forall x :: x in s ==> (x in d1 <==> x in d2)
    ensures Filter(s, d1) == Filter(s, d2)
  {
    if s != [] {
      assert s == [s[0]] + s[1..];
      FilterAgree(s[1..], d1, d2);
    }
  }

  /** Filtering twice with the same test is filtering once. */
  lemma FilterIdempotent<T(!new)>(s: seq<T>, drop: set<T>)
    ensures Filter(Filter(s, drop), drop) == Filter(s, drop)
  {
    FilterKeepsAll(Filter(s, drop), drop);
  }

  /** `ok` holds of every pair of elements in the order they appear. */
  ghost predicate Pairwise<T>(s: seq<T>, ok: (T, T) -> bool)
  {
    forall i, j :: 0 <= i < j < |s| ==> ok(s[i], s[j])
  }

  /** Filtering keeps order, so it keeps every pairwise property. */
  lemma {:induction false} FilterPairwise<T(!new)>(s: seq<T>, drop: set<T>, ok: (T, T) -> bool)
    requires Pairwise(s, ok)
    ensures Pairwise(Filter(s, drop), ok)
  {
    if s != [] {
      var tail := s[1..];
      assert Pairwise(tail, ok) by {
        forall i, j | 0 <= i < j < |tail| ensures ok(tail[i], tail[j]) {
          assert tail[i] == s[i + 1] && tail[j] == s[j + 1];
        }
      }
      FilterPairwise(tail, drop, ok);
      var rest := Filter(tail, drop);
      if s[0] !in drop {
        var r := [s[0]] + rest;
        forall i, j | 0 <= i < j < |r| ensures ok(r[i], r[j]) {
          if i == 0 {
            assert r[j] in tail;
            var k :| 0 <= k < |tail| && tail[k] == r[j];
            assert s[k + 1] == r[j];
          } else {
            assert r[i] == rest[i - 1] && r[j] == rest[j - 1];
          }
        }
      }
    }
  }

  /** A concatenation is pairwise exactly when both parts are and every pair across them is. */
  lemma PairwiseAppend<T>(a: seq<T>, b: seq<T>, ok: (T, T) -> bool)
    ensures Pairwise(a + b, ok) <==>
      Pairwise(a, ok) && Pairwise(b, ok) && (forall x, y :: x in a && y in b ==> ok(x, y))
  {
    var ab := a + b;
    if Pairwise(ab, ok) {
      assert Pairwise(a, ok) by {
        forall i, j | 0 <= i < j < |a| ensures ok(a[i], a[j]) {
          assert ab[i] == a[i] && ab[j] == a[j];
        }
      }
      assert Pairwise(b, ok) by {
        forall i, j | 0 <= i < j < |b| ensures ok(b[i], b[j]) {
          assert ab[|a| + i] == b[i] && ab[|a| + j] == b[j];
        }
      }
      forall x, y | x in a && y in b ensures ok(x, y) {
        var i :| 0 <= i < |a| && a[i] == x;
        var j :| 0 <= j < |b| && b[j] == y;
        assert ab[i] == x && ab[|a| + j] == y;
      }
    }
    if Pairwise(a, ok) && Pairwise(b, ok) && (forall x, y :: x in a && y in b ==> ok(x, y)) {
      forall i, j | 0 <= i < j < |ab| ensures ok(ab[i], ab[j]) {
        if j < |a| {
          assert ab[i] == a[i] && ab[j] == a[j];
        } else if i < |a| {
          assert ab[i] == a[i] && ab[j] == b[j - |a|];
        } else {
          assert ab[i] == b[i - |a|] && ab[j] == b[j - |a|];
        }
      }
    }
  }

  /** Filtering the front part of a pairwise sequence keeps it pairwise. */
  lemma FilterFrontPairwise<T(!new)>(a: seq<T>, b: seq<T>, drop: set<T>, ok: (T, T) -> bool)
    requires Pairwise(a + b, ok)
    ensures Pairwise(Filter(a, drop) + b, ok)
  {
    PairwiseAppend(a, b, ok);
    FilterPairwise(a, drop, ok);
    PairwiseAppend(Filter(a, drop), b, ok);
  }

  /** Under an irreflexive pairwise property, no element occurs before its own position. */
  lemma PairwiseNotBefore<T>(s: seq<T>, i: nat, ok: (T, T) -> bool)
    requires Pairwise(s, ok) && i < |s|
    requires forall x :: !ok(x, x)
    ensures s[i] !in s[..i]
  {
    forall j | 0 <= j < i ensures s[..i][j] != s[i] {
      assert ok(s[j], s[i]);
    }
  }

  /** A loop's prefix grows by the element it just visited. */
  lemma PrefixExtend<T>(s: seq<T>, i: nat)
    requires i < |s|
    ensures s[..i] + [s[i]] == s[..i + 1]
  {
  }

  /** `i` is the index of the first occurrence of `x` in `s`. */
  predicate FirstAt<T(==)>(s: seq<T>, x: T, i: int)
  {
    0 <= i < |s| && s[i] == x && x !in s[..i]
  }

  /**
   * `s.remove(x)`: drops the first occurrence of `x`. Python raises
   * `ValueError` when there is none, so the caller must show `x in s`.
   */
  function RemoveFirst<T(==)>(s: seq<T>, x: T): (r: seq<T>)
    requires x in s
    ensures |r| == |s| - 1
    ensures exists i :: FirstAt(s, x, i) && r == s[..i] + s[i + 1..]
  {
    if s[0] == x then
      assert FirstAt(s, x, 0) && s[1..] == s[..0] + s[0 + 1..];
      s[1..]
    else
      assert s == [s[0]] + s[1..];
      var t := RemoveFirst(s[1..], x);
      RemoveFirstCons(s[0], s[1..], x, t);
      [s[0]] + t
  }

  /** Putting a head other than `x` in front moves the first occurrence of `x` one place on. */
  lemma RemoveFirstCons<T>(h: T, s: seq<T>, x: T, t: seq<T>)
    requires h != x
    requires exists j :: FirstAt(s, x, j) && t == s[..j] + s[j + 1..]
    ensures exists i :: FirstAt([h] + s, x, i) && [h] + t == ([h] + s)[..i] + ([h] + s)[i + 1..]
  {
    var j :| FirstAt(s, x, j) && t == s[..j] + s[j + 1..];
    var hs := [h] + s;
    assert hs[..j + 1] == [h] + s[..j];
    assert hs[j + 2..] == s[j + 1..];
    assert FirstAt(hs, x, j + 1);
  }

  /** Removing `x` from a list in which `x` first appears after `a` leaves `a` and what follows `x`. */
  lemma {:induction false} RemoveFirstAfter<T>(a: seq<T>, x: T, b: seq<T>)
    requires x !in a
    ensures RemoveFirst(a + ([x] + b), x) == a + b
  {
    var s := a + ([x] + b);
    if a == [] {
      assert s == [x] + b;
      assert s[0] == x && s[1..] == b;
    } else {
      assert s[0] == a[0] != x;
      assert s[1..] == a[1..] + ([x] + b);
      RemoveFirstAfter(a[1..], x, b);
      assert RemoveFirst(s, x) == [a[0]] + RemoveFirst(s[1..], x);
      assert a + b == [a[0]] + (a[1..] + b);
    }
  }

  /**
   * One step of a loop that walks a snapshot `s` of a list and removes from
   * the live list each element in `drop`: when `s[i]` does not occur
   * earlier, it is still in the live list (so `list.remove` finds it) and
   * the live list afterwards is the filtered prefix one element longer.
   */
  lemma FilterStep<T(!new)>(s: seq<T>, i: nat, drop: set<T>)
    requires i < |s| && s[i] !in s[..i]
    ensures var live := Filter(s[..i], drop) + s[i..];
      s[i] in live &&
      (if s[i] !in drop then live else RemoveFirst(live, s[i])) == Filter(s[..i + 1], drop) + s[i + 1..]
  {
    assert s[..i + 1] == s[..i] + [s[i]];
    assert s[i..] == [s[i]] + s[i + 1..];
    FilterMove(s[..i], s[i], s[i + 1..], drop);
  }

  /** FilterStep with the snapshot split as `a + [x] + b`. */
  lemma FilterMove<T(!new)>(a: seq<T>, x: T, b: seq<T>, drop: set<T>)
    requires x !in a
    ensures var live := Filter(a, drop) + ([x] + b);
      x in live &&
      (if x !in drop then live else RemoveFirst(live, x)) == Filter(a + [x], drop) + b
  {
    var front := Filter(a, drop);
    assert (front + ([x] + b))[|front|] == x;
    if x in drop {
      FilterMoveDrop(a, x, b, drop);
    } else {
      FilterMoveKeep(a, x, b, drop);
    }
  }

  /** An element that passes moves from the unvisited part to the end of the filtered part. */
  lemma FilterMoveKeep<T(!new)>(a: seq<T>, x: T, b: seq<T>, drop: set<T>)
    requires x !in drop
    ensures Filter(a, drop) + ([x] + b) == Filter(a + [x], drop) + b
  {
    FilterAppend(a, [x], drop);
    FilterSingle(x, drop);
  }

  /** Removing an element that is dropped makes the filtered part cover it too. */
  lemma FilterMoveDrop<T(!new)>(a: seq<T>, x: T, b: seq<T>, drop: set<T>)
    requires x in drop && x !in a
    ensures RemoveFirst(Filter(a, drop) + ([x] + b), x) == Filter(a + [x], drop) + b
  {
    FilterAppend(a, [x], drop);
    FilterSingle(x, drop);
    var front := Filter(a, drop);
    assert front + [] == front;
    assert Filter(a + [x], drop) == front;
    RemoveFirstAfter(front, x, b);
  }

  /** Filtering a one-element list. */
  lemma FilterSingle<T(!new)>(x: T, drop: set<T>)
    ensures Filter([x], drop) == if x in drop then [] else [x]
  {
    assert [x][1..] == [];
  }
}
