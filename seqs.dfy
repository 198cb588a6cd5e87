/** Generic list operations used by the model: `Array.prototype.filter`, `map`, and the
    de-duplication done by `Array.from(new Set(xs))`, which keeps first-occurrence order. */
module Seqs {

  /** `xs.filter(p)`. */
  function Filter<T>(s: seq<T>, p: T -> bool): (r: seq<T>)
    ensures |r| <= |s|
    ensures forall i :: 0 <= i < |r| ==> p(r[i])
    ensures forall x :: x in r ==> x in s
    ensures forall x :: x in s && p(x) ==> x in r
  {
    if |s| == 0 then []
    else
      assert s == [s[0]] + s[1..];
      (if p(s[0]) then [s[0]] else []) + Filter(s[1..], p)
  }

  /** Filtering keeps every occurrence of a kept value and none of the others. */
  lemma {:induction false} FilterMultiset<T>(s: seq<T>, p: T -> bool, x: T)
    ensures multiset(Filter(s, p))[x] == if p(x) then multiset(s)[x] else 0
  {
    if |s| > 0 {
      FilterMultiset(s[1..], p, x);
      assert s == [s[0]] + s[1..];
    }
  }

  /** Filtering distributes over concatenation, so it keeps relative order. */
  lemma {:induction false} FilterConcat<T>(a: seq<T>, b: seq<T>, p: T -> bool)
    ensures Filter(a + b, p) == Filter(a, p) + Filter(b, p)
  {
    if |a| == 0 {
      assert a + b == b;
    } else {
      assert (a + b)[1..] == a[1..] + b;
      FilterConcat(a[1..], b, p);
    }
  }

  lemma {:induction false} FilterSnoc<T>(a: seq<T>, x: T, p: T -> bool)
    ensures Filter(a + [x], p) == Filter(a, p) + (if p(x) then [x] else [])
  {
    FilterConcat(a, [x], p);
  }

  /** Overwriting a rejected element with another rejected one does not change the filter. */
  lemma {:induction false} FilterUpdateRejected<T>(s: seq<T>, i: nat, x: T, p: T -> bool)
    requires i < |s| && !p(s[i]) && !p(x)
    ensures Filter(s[i := x], p) == Filter(s, p)
  {
    var t := s[i := x];
    FilterCons(s, p);
    FilterCons(t, p);
    if i > 0 {
      assert t[1..] == s[1..][i - 1 := x];
      FilterUpdateRejected(s[1..], i - 1, x, p);
    } else {
      assert t[1..] == s[1..];
    }
  }

  /** Predicates that agree on every element filter alike. */
  lemma {:induction false} FilterEquiv<T>(s: seq<T>, p: T -> bool, q: T -> bool)
    requires forall i :: 0 <= i < |s| ==> p(s[i]) == q(s[i])
    ensures Filter(s, p) == Filter(s, q)
  {
    if |s| > 0 {
      assert forall i :: 0 <= i < |s[1..]| ==> s[1..][i] == s[i + 1];
      FilterEquiv(s[1..], p, q);
    }
  }

  /** Filtering with a predicate every element satisfies is the identity. */
  lemma {:induction false} FilterAll<T>(s: seq<T>, p: T -> bool)
    requires forall i :: 0 <= i < |s| ==> p(s[i])
    ensures Filter(s, p) == s
  {
    if |s| > 0 {
      FilterAll(s[1..], p);
    }
  }

  /** Filtering with a predicate no element satisfies gives the empty list. */
  lemma {:induction false} FilterNone<T>(s: seq<T>, p: T -> bool)
    requires forall i :: 0 <= i < |s| ==> !p(s[i])
    ensures Filter(s, p) == []
  {
    if |s| > 0 {
      FilterNone(s[1..], p);
    }
  }

  /** `xs.map(f)`. */
  function Map<T, U>(s: seq<T>, f: T -> U): (r: seq<U>)
    ensures |r| == |s|
    ensures forall i :: 0 <= i < |s| ==> r[i] == f(s[i])
  {
    seq(|s|, i requires 0 <= i < |s| => f(s[i]))
  }

  lemma MapConcat<T, U>(a: seq<T>, b: seq<T>, f: T -> U)
    ensures Map(a + b, f) == Map(a, f) + Map(b, f)
  {
    assert forall i :: 0 <= i < |a + b| ==> Map(a + b, f)[i] == (Map(a, f) + Map(b, f))[i];
  }

  lemma {:induction false} FilterCons<T>(s: seq<T>, p: T -> bool)
    requires |s| > 0
    ensures Filter(s, p) == (if p(s[0]) then [s[0]] else []) + Filter(s[1..], p)
  {
  }

  /** Where an element of a filtered list sits in the original list. */
  lemma {:induction false} FilterIndex<T>(s: seq<T>, p: T -> bool, i: nat) returns (k: nat)
    requires i < |Filter(s, p)|
    ensures k < |s| && s[k] == Filter(s, p)[i]
  {
    var f, rest := Filter(s, p), Filter(s[1..], p);
    FilterCons(s, p);
    if p(s[0]) && i == 0 {
      k := 0;
    } else if p(s[0]) {
      assert f[i] == rest[i - 1];
      var m := FilterIndex(s[1..], p, i - 1);
      assert s[1..][m] == s[m + 1];
      k := m + 1;
    } else {
      assert f == rest;
      var m := FilterIndex(s[1..], p, i);
      assert s[1..][m] == s[m + 1];
      k := m + 1;
    }
  }

  /** Shifting positions of the tail by one gives positions of the whole list. */
  lemma TailPositions<T>(s: seq<T>, m: nat)
    requires |s| > 0 && m < |s| - 1
    ensures s[1..][m] == s[m + 1]
  {
  }

  /** Two elements of a filtered list come from positions of the original list in the same order. */
  lemma {:induction false} FilterIndices<T>(s: seq<T>, p: T -> bool, i: nat, j: nat) returns (ki: nat, kj: nat)
    requires i < j < |Filter(s, p)|
    ensures ki < kj < |s| && s[ki] == Filter(s, p)[i] && s[kj] == Filter(s, p)[j]
    decreases |s|, 1
  {
    FilterCons(s, p);
    if p(s[0]) {
      ki, kj := FilterIndicesKept(s, p, i, j);
    } else {
      assert Filter(s, p) == Filter(s[1..], p);
      var mi, mj := FilterIndices(s[1..], p, i, j);
      TailPositions(s, mi);
      TailPositions(s, mj);
      ki, kj := mi + 1, mj + 1;
    }
  }

  lemma {:induction false} FilterIndicesKept<T>(s: seq<T>, p: T -> bool, i: nat, j: nat) returns (ki: nat, kj: nat)
    requires |s| > 0 && p(s[0]) && i < j < |Filter(s, p)|
    ensures ki < kj < |s| && s[ki] == Filter(s, p)[i] && s[kj] == Filter(s, p)[j]
    decreases |s|, 0
  {
    var f, rest := Filter(s, p), Filter(s[1..], p);
    FilterCons(s, p);
    assert f == [s[0]] + rest;
    if i == 0 {
      var m := FilterIndex(s[1..], p, j - 1);
      ConsPositions(s, f, rest, 0, j, 0, m);
      ki, kj := 0, m + 1;
    } else {
      var mi, mj := FilterIndices(s[1..], p, i - 1, j - 1);
      ConsPositions(s, f, rest, i, j, mi, mj);
      ki, kj := mi + 1, mj + 1;
    }
  }

  /** Positions in `rest` found in the tail of `s` give positions in `[s[0]] + rest` found in `s`. */
  lemma ConsPositions<T>(s: seq<T>, f: seq<T>, rest: seq<T>, i: nat, j: nat, mi: nat, mj: nat)
    requires |s| > 0 && f == [s[0]] + rest && i < j < |f| && mi < |s| - 1 && mj < |s| - 1
    requires i > 0 ==> s[1..][mi] == rest[i - 1]
    requires s[1..][mj] == rest[j - 1]
    ensures (if i == 0 then s[0] else s[mi + 1]) == f[i] && s[mj + 1] == f[j]
  {
  }

  /** Filtering a de-duplicated list keeps it free of repetitions and in first-occurrence order. */
  lemma {:induction false} FilterKeepsFirstOccurrenceOrder<T>(d: seq<T>, s: seq<T>, p: T -> bool)
    requires Distinct(d) && FirstOccurrenceOrder(d, s)
    ensures Distinct(Filter(d, p)) && FirstOccurrenceOrder(Filter(d, p), s)
  {
    var f := Filter(d, p);
    forall i, j | 0 <= i < j < |f| ensures f[i] != f[j] && forall k :: 0 <= k < |s| && s[k] == f[j] ==> f[i] in s[..k] {
      var ki, kj := FilterIndices(d, p, i, j);
    }
  }

  predicate Distinct<T(==)>(s: seq<T>) {
    forall i, j :: 0 <= i < j < |s| ==> s[i] != s[j]
  }

  /** Every element of `r` first occurs in `s` before any occurrence of a later element of `r`. */
  ghost predicate FirstOccurrenceOrder<T>(r: seq<T>, s: seq<T>) {
    forall i, j, k :: 0 <= i < j < |r| && 0 <= k < |s| && s[k] == r[j] ==> r[i] in s[..k]
  }

  /** `Array.from(new Set(s))`: a JavaScript Set iterates in insertion order, so each value
      appears once, at the position of its first occurrence. */
  function Dedup<T(==)>(s: seq<T>): (r: seq<T>)
    ensures Distinct(r)
    ensures forall x :: x in r ==> x in s
    ensures forall x :: x in s ==> x in r
    ensures FirstOccurrenceOrder(r, s)
    decreases |s|
  {
    if |s| == 0 then []
    else
      var init := s[..|s| - 1];
      var last := s[|s| - 1];
      var p := Dedup(init);
      assert s == init + [last];
      assert forall k :: 0 <= k < |init| ==> s[..k] == init[..k];
      if last in p then p else p + [last]
  }

  /** A list without repetitions has as many distinct elements as it has positions. */
  lemma {:induction false} DistinctCardinality<T>(s: seq<T>)
    requires Distinct(s)
    ensures |set x | x in s| == |s|
  {
    if |s| > 0 {
      var init := s[..|s| - 1];
      DistinctCardinality(init);
      assert (set x | x in s) == (set x | x in init) + {s[|s| - 1]};
      assert s[|s| - 1] !in init;
    }
  }

  /** A list has as many distinct elements as positions exactly when it has no repetitions
      (`xs.length === new Set(xs).size`). */
  lemma {:induction false} CardinalityIffDistinct<T>(s: seq<T>)
    ensures |set x | x in s| <= |s|
    ensures |set x | x in s| == |s| <==> Distinct(s)
  {
    if |s| == 0 {
      assert (set x | x in s) == {};
    } else {
      var init := s[..|s| - 1];
      var last := s[|s| - 1];
      CardinalityIffDistinct(init);
      assert s == init + [last];
      if last in init {
        assert (set x | x in s) == (set x | x in init);
        var k :| 0 <= k < |init| && init[k] == last;
        assert s[k] == s[|s| - 1];
      } else {
        assert (set x | x in s) == (set x | x in init) + {last};
        if !Distinct(s) {
          var i, j :| 0 <= i < j < |s| && s[i] == s[j];
          assert s[i] == init[i] && init[i] != last;
          assert j < |s| - 1;
          assert init[i] == init[j];
        }
      }
    }
  }

  /** Two repetition-free lists with no common element concatenate to a repetition-free list. */
  lemma DistinctConcat<T>(a: seq<T>, b: seq<T>)
    requires Distinct(a) && Distinct(b)
    requires forall x :: x in a ==> x !in b
    ensures Distinct(a + b)
  {
    var ab := a + b;
    forall i, j | 0 <= i < j < |ab| ensures ab[i] != ab[j] {
      if i < |a| && j >= |a| {
        assert ab[i] == a[i] && ab[j] == b[j - |a|] && a[i] in a;
      } else if i >= |a| {
        assert ab[i] == b[i - |a|] && ab[j] == b[j - |a|];
      } else {
        assert ab[i] == a[i] && ab[j] == a[j];
      }
    }
  }
}
