/** Generic operations on ordered tables (sequences of rows) that the queries are built from:
    selection by a boolean mask, grouping by a key, distinct values in first-seen order,
    occurrence counts and the position of the first maximum. */
module Seqs {

  /** The elements of `s` for which `p` holds, in their original order: what indexing a pandas
      frame with a boolean mask returns. */
  function Where<T(!new)>(s: seq<T>, p: T -> bool): (r: seq<T>)
    ensures |r| <= |s|
    ensures forall x :: x in r <==> x in s && p(x)
    decreases |s|
  {
    if s == [] then []
    else
      assert s == s[..|s| - 1] + [s[|s| - 1]];
      Where(s[..|s| - 1], p) + (if p(s[|s| - 1]) then [s[|s| - 1]] else [])
  }

  /** The positions i of `s` with p(s[i]), ascending. */
  function Selected<T>(s: seq<T>, p: T -> bool): seq<nat>
    decreases |s|
  {
    if s == [] then []
    else Selected(s[..|s| - 1], p) + (if p(s[|s| - 1]) then [|s| - 1] else [])
  }

  /** `r` is the list of exactly those elements s[i] with p(s[i]), each taken once, in the order
      of their positions `idx` in `s`. */
  ghost predicate SelectionOf<T>(r: seq<T>, s: seq<T>, p: T -> bool, idx: seq<nat>)
  {
    && |idx| == |r|
    && (forall j :: 0 <= j < |idx| ==> idx[j] < |s| && r[j] == s[idx[j]])
    && (forall j, k :: 0 <= j < k < |idx| ==> idx[j] < idx[k])
    && (forall i :: 0 <= i < |s| ==> (p(s[i]) <==> i in idx))
  }

  lemma WhereSnoc<T(!new)>(s: seq<T>, x: T, p: T -> bool)
    ensures Where(s + [x], p) == Where(s, p) + (if p(x) then [x] else [])
  {
    assert (s + [x])[..|s + [x]| - 1] == s;
  }

  lemma SelectedBelow<T>(s: seq<T>, p: T -> bool)
    ensures forall j :: 0 <= j < |Selected(s, p)| ==> Selected(s, p)[j] < |s|
    decreases |s|
  {
    if s != [] {
      SelectedBelow(s[..|s| - 1], p);
    }
  }

  /** A mask keeps each element satisfying it exactly once and in source order. */
  lemma {:induction false} WhereSelects<T(!new)>(s: seq<T>, p: T -> bool)
    ensures SelectionOf(Where(s, p), s, p, Selected(s, p))
    decreases |s|
  {
    if s != [] {
      var n := |s| - 1;
      var init := s[..n];
      WhereSelects(init, p);
      SelectedBelow(init, p);
      assert s == init + [s[n]];
      SelectionSnoc(Where(init, p), init, s[n], p, Selected(init, p));
    }
  }

  /** Appending an element extends a selection by that element when it satisfies the mask. */
  lemma SelectionSnoc<T>(r: seq<T>, s: seq<T>, x: T, p: T -> bool, idx: seq<nat>)
    requires SelectionOf(r, s, p, idx)
    ensures SelectionOf(r + (if p(x) then [x] else []), s + [x], p, idx + (if p(x) then [|s|] else []))
  {
    var s' := s + [x];
    var r' := r + (if p(x) then [x] else []);
    var idx' := idx + (if p(x) then [|s|] else []);
    forall j | 0 <= j < |idx'| ensures idx'[j] < |s'| && r'[j] == s'[idx'[j]] {
      if j < |idx| {
        assert idx'[j] == idx[j] && r'[j] == r[j];
      }
    }
    forall j, k | 0 <= j < k < |idx'| ensures idx'[j] < idx'[k] {
      if k < |idx| {
        assert idx'[j] == idx[j] && idx'[k] == idx[k];
      } else {
        assert idx'[j] == idx[j] < |s|;
      }
    }
    forall i | 0 <= i < |s'| ensures p(s'[i]) <==> i in idx' {
      if i < |s| {
        assert s'[i] == s[i];
        assert i in idx' <==> i in idx;
      } else {
        assert |s| !in idx;
      }
    }
  }

  /** Applying one mask after another keeps the same rows as applying their conjunction once. */
  lemma {:induction false} WhereWhere<T(!new)>(s: seq<T>, p: T -> bool, q: T -> bool, pq: T -> bool)
    requires forall x :: pq(x) == (p(x) && q(x))
    ensures Where(Where(s, p), q) == Where(s, pq)
    decreases |s|
  {
    if s != [] {
      var n := |s| - 1;
      assert s == s[..n] + [s[n]];
      WhereWhere(s[..n], p, q, pq);
      WhereSnoc(s[..n], s[n], p);
      WhereSnoc(s[..n], s[n], pq);
      if p(s[n]) {
        assert Where(s, p) == Where(s[..n], p) + [s[n]];
        WhereSnoc(Where(s[..n], p), s[n], q);
      } else {
        assert Where(s, p) == Where(s[..n], p);
      }
    }
  }

  /** A mask that holds of every element keeps the sequence as it is. */
  lemma {:induction false} WhereAll<T(!new)>(s: seq<T>, p: T -> bool)
    requires forall x :: x in s ==> p(x)
    ensures Where(s, p) == s
    decreases |s|
  {
    if s != [] {
      var n := |s| - 1;
      assert s == s[..n] + [s[n]];
      WhereAll(s[..n], p);
    }
  }

  /** A predicate no element satisfies keeps nothing. */
  lemma WhereNone<T(!new)>(s: seq<T>, p: T -> bool)
    requires forall x :: x in s ==> !p(x)
    ensures Where(s, p) == []
  {
  }

  /** The predicate "the key of x is k". */
  function KeyIs<T, K(==)>(key: T -> K, k: K): T -> bool
  {
    x => key(x) == k
  }

  /** The rows whose key is `k`, in source order: one group of a group-by. */
  function GroupBy<T(!new), K(==)>(s: seq<T>, key: T -> K, k: K): (r: seq<T>)
    ensures forall x :: x in r <==> x in s && key(x) == k
  {
    Where(s, KeyIs(key, k))
  }

  lemma GroupBySnoc<T(!new), K>(s: seq<T>, x: T, key: T -> K, k: K)
    ensures GroupBy(s + [x], key, k) == GroupBy(s, key, k) + (if key(x) == k then [x] else [])
  {
    WhereSnoc(s, x, KeyIs(key, k));
  }

  /** One column of a table. */
  function Project<T, K>(s: seq<T>, key: T -> K): (r: seq<K>)
    ensures |r| == |s|
    ensures forall i :: 0 <= i < |s| ==> r[i] == key(s[i])
  {
    seq(|s|, i requires 0 <= i < |s| => key(s[i]))
  }

  lemma ProjectMember<T, K>(s: seq<T>, key: T -> K, k: K)
    ensures k in Project(s, key) <==> exists x :: x in s && key(x) == k
  {
    var c := Project(s, key);
    if k in c {
      var i :| 0 <= i < |c| && c[i] == k;
      assert s[i] in s && key(s[i]) == k;
    }
    if exists x :: x in s && key(x) == k {
      var x :| x in s && key(x) == k;
      var i :| 0 <= i < |s| && s[i] == x;
      assert c[i] == k;
    }
  }

  /** No value occurs twice. */
  ghost predicate NoDup<T>(s: seq<T>)
  {
    forall i, j :: 0 <= i < j < |s| ==> s[i] != s[j]
  }

  /** The number of occurrences of `x` in `s`. */
  function Occ<T(==)>(s: seq<T>, x: T): nat
  {
    if s == [] then 0 else (if s[0] == x then 1 else 0) + Occ(s[1..], x)
  }

  lemma {:induction false} OccAbsent<T>(s: seq<T>, x: T)
    requires x !in s
    ensures Occ(s, x) == 0
  {
    if s != [] {
      OccAbsent(s[1..], x);
    }
  }

  /** In a sequence without duplicates every member occurs exactly once. */
  lemma {:induction false} OccNoDup<T>(s: seq<T>, x: T)
    requires NoDup(s) && x in s
    ensures Occ(s, x) == 1
  {
    if s[0] == x {
      assert x !in s[1..];
      OccAbsent(s[1..], x);
    } else {
      OccNoDup(s[1..], x);
    }
  }

  lemma {:induction false} OccSnoc<T>(s: seq<T>, y: T, x: T)
    ensures Occ(s + [y], x) == Occ(s, x) + (if y == x then 1 else 0)
  {
    if s != [] {
      assert (s + [y])[1..] == s[1..] + [y];
      OccSnoc(s[1..], y, x);
    }
  }

  lemma {:induction false} OccPositive<T>(s: seq<T>, x: T)
    requires x in s
    ensures Occ(s, x) > 0
  {
    if s[0] != x {
      OccPositive(s[1..], x);
    }
  }

  /** Total number of occurrences in `s` of the values listed in `keys`. */
  function SumOcc<T(==)>(keys: seq<T>, s: seq<T>): nat
  {
    if keys == [] then 0 else Occ(s, keys[0]) + SumOcc(keys[1..], s)
  }

  lemma {:induction false} SumOccEmpty<T>(keys: seq<T>)
    ensures SumOcc(keys, []) == 0
  {
    if keys != [] {
      SumOccEmpty(keys[1..]);
    }
  }

  lemma {:induction false} SumOccSnoc<T>(keys: seq<T>, s: seq<T>, y: T)
    ensures SumOcc(keys, s + [y]) == SumOcc(keys, s) + Occ(keys, y)
  {
    if keys != [] {
      OccSnoc(s, y, keys[0]);
      SumOccSnoc(keys[1..], s, y);
    }
  }

  /** Counting every value of `s` under a duplicate-free list of keys covering them counts
      each element of `s` once. */
  lemma {:induction false} SumOccCovers<T>(keys: seq<T>, s: seq<T>)
    requires NoDup(keys)
    requires forall x :: x in s ==> x in keys
    ensures SumOcc(keys, s) == |s|
    decreases |s|
  {
    if s == [] {
      SumOccEmpty(keys);
    } else {
      var n := |s| - 1;
      assert s == s[..n] + [s[n]];
      SumOccCovers(keys, s[..n]);
      SumOccSnoc(keys, s[..n], s[n]);
      OccNoDup(keys, s[n]);
    }
  }

  /** The values of `s` as a set. */
  function ToSet<T>(s: seq<T>): set<T>
  {
    set x | x in s
  }

  /** A sequence without duplicates has as many elements as its set of values. */
  lemma {:induction false} NoDupCardinality<T>(s: seq<T>)
    requires NoDup(s)
    ensures |ToSet(s)| == |s|
    decreases |s|
  {
    if s != [] {
      var n := |s| - 1;
      assert s == s[..n] + [s[n]];
      NoDupCardinality(s[..n]);
      assert ToSet(s) == ToSet(s[..n]) + {s[n]};
      assert s[n] !in ToSet(s[..n]);
    }
  }

  /** Position of the first occurrence of `x` in `s`. */
  function IndexOf<T(==)>(s: seq<T>, x: T): (i: nat)
    requires x in s
    ensures i < |s| && s[i] == x
    ensures forall j :: 0 <= j < i ==> s[j] != x
  {
    if s[0] == x then 0 else 1 + IndexOf(s[1..], x)
  }

  lemma {:induction false} IndexOfSnoc<T>(s: seq<T>, y: T, x: T)
    requires x in s
    ensures IndexOf(s + [y], x) == IndexOf(s, x)
  {
    if s[0] != x {
      assert (s + [y])[1..] == s[1..] + [y];
      IndexOfSnoc(s[1..], y, x);
    }
  }

  /** The distinct values of `s`, in the order they are first seen (pandas `unique`). */
  function Distinct<T(==,!new)>(s: seq<T>): (r: seq<T>)
    ensures NoDup(r)
    ensures forall x :: x in r <==> x in s
    decreases |s|
  {
    if s == [] then []
    else
      var d := Distinct(s[..|s| - 1]);
      assert s == s[..|s| - 1] + [s[|s| - 1]];
      if s[|s| - 1] in d then d else d + [s[|s| - 1]]
  }

  /** The distinct values come out in first-seen order. */
  lemma {:induction false} DistinctFirstSeen<T(!new)>(s: seq<T>)
    ensures forall i, j :: 0 <= i < j < |Distinct(s)| ==>
      IndexOf(s, Distinct(s)[i]) < IndexOf(s, Distinct(s)[j])
    decreases |s|
  {
    if s != [] {
      var n := |s| - 1;
      var init := s[..n];
      assert s == init + [s[n]];
      DistinctFirstSeen(init);
      var d0 := Distinct(init);
      var d := Distinct(s);
      forall x | x in d0 ensures IndexOf(s, x) == IndexOf(init, x) {
        IndexOfSnoc(init, s[n], x);
      }
      if s[n] !in d0 {
        assert d == d0 + [s[n]];
        assert IndexOf(s, s[n]) == n;
      }
    }
  }

  /** The position of the first element of `s` at which `f` is maximal (pandas `idxmax` over a
      series in index order). */
  function FirstMaxBy<T>(s: seq<T>, f: T -> real): (i: nat)
    requires |s| > 0
    ensures i < |s|
    ensures forall k :: 0 <= k < |s| ==> f(s[k]) <= f(s[i])
    ensures forall k :: 0 <= k < i ==> f(s[k]) < f(s[i])
    decreases |s|
  {
    if |s| == 1 then 0
    else
      var j := FirstMaxBy(s[..|s| - 1], f);
      if f(s[|s| - 1]) > f(s[j]) then |s| - 1 else j
  }
}
