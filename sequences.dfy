/** List operations the scripts spell with `Set`, `filter` and `find`. */
module Sequences {

  predicate Distinct<T(==)>(s: seq<T>) {
    forall i, j :: 0 <= i < j < |s| ==> s[i] != s[j]
  }

  /** Position of the first occurrence of `x` in `s`. */
  function FirstIndex<T(==)>(s: seq<T>, x: T): (k: nat)
    requires x in s
    ensures k < |s| && s[k] == x && x !in s[..k]
  {
    if s[0] == x then 0 else 1 + FirstIndex(s[1..], x)
  }

  /** `[...new Set(s)]`: a `Set` iterates in insertion order, so this keeps the first
      occurrence of each element, in the order of first appearance. */
  function Dedupe<T(==)>(s: seq<T>): (r: seq<T>)
    ensures |r| <= |s|
  {
    if s == [] then []
    else
      var d := Dedupe(s[..|s| - 1]);
      if s[|s| - 1] in d then d else d + [s[|s| - 1]]
  }

  /** Dedupe keeps every element once and adds none. */
  lemma {:induction false} DedupeSpec<T>(s: seq<T>)
    ensures Distinct(Dedupe(s))
    ensures forall i :: 0 <= i < |Dedupe(s)| ==> Dedupe(s)[i] in s
    ensures forall i :: 0 <= i < |s| ==> s[i] in Dedupe(s)
    decreases |s|
  {
    if s != [] {
      var s' := s[..|s| - 1];
      DedupeSpec(s');
      assert s == s' + [s[|s| - 1]];
    }
  }

  /** The first occurrence is the one with no earlier copy. */
  lemma {:induction false} FirstIndexUnique<T>(s: seq<T>, x: T, i: nat)
    requires i < |s| && s[i] == x && x !in s[..i]
    ensures FirstIndex(s, x) == i
  {
    if i > 0 {
      assert s[0] in s[..i];
      assert s[1..][..i - 1] == s[1..i];
      assert forall y :: y in s[1..i] ==> y in s[..i];
      FirstIndexUnique(s[1..], x, i - 1);
    }
  }

  lemma FirstIndexPrefix<T>(s: seq<T>, k: nat, x: T)
    requires k <= |s| && x in s[..k]
    ensures x in s && FirstIndex(s, x) == FirstIndex(s[..k], x) < k
  {
    var i := FirstIndex(s[..k], x);
    assert s[..k][..i] == s[..i];
    assert s[i] == s[..k][i];
    FirstIndexUnique(s, x, i);
  }

  /** Dedupe keeps elements in the order of their first appearance. */
  lemma {:induction false} DedupeOrder<T>(s: seq<T>)
    ensures forall i :: 0 <= i < |Dedupe(s)| ==> Dedupe(s)[i] in s
    ensures forall i, j :: 0 <= i < j < |Dedupe(s)| ==> FirstIndex(s, Dedupe(s)[i]) < FirstIndex(s, Dedupe(s)[j])
    decreases |s|
  {
    if s != [] {
      var n := |s| - 1;
      var s' := s[..n];
      DedupeOrder(s');
      DedupeSpec(s');
      var d := Dedupe(s');
      DedupeSpec(s);
      forall x | x in d ensures x in s && FirstIndex(s, x) == FirstIndex(s', x) < n {
        FirstIndexPrefix(s, n, x);
      }
      if s[n] !in d {
        FirstIndexUnique(s, s[n], n);
      }
      forall i, j | 0 <= i < j < |Dedupe(s)|
        ensures FirstIndex(s, Dedupe(s)[i]) < FirstIndex(s, Dedupe(s)[j])
      {
        assert Dedupe(s)[i] == d[i] && d[i] in d;
        if j < |d| {
          assert Dedupe(s)[j] == d[j] && d[j] in d;
        }
      }
    }
  }

  /** A list that is already duplicate-free comes back unchanged. */
  lemma {:induction false} DedupeDistinct<T>(s: seq<T>)
    requires Distinct(s)
    ensures Dedupe(s) == s
    decreases |s|
  {
    if s != [] {
      var s' := s[..|s| - 1];
      DedupeDistinct(s');
      assert s[|s| - 1] !in s';
      assert s == s' + [s[|s| - 1]];
    }
  }

  /** `s.filter(keep)` */
  function Filter<T>(s: seq<T>, keep: T -> bool): (r: seq<T>)
    ensures |r| <= |s|
    ensures forall i :: 0 <= i < |r| ==> keep(r[i])
    ensures forall i :: 0 <= i < |r| ==> r[i] in s
  {
    if s == [] then []
    else
      var init := Filter(s[..|s| - 1], keep);
      assert forall i :: 0 <= i < |s| - 1 ==> s[..|s| - 1][i] == s[i];
      init + (if keep(s[|s| - 1]) then [s[|s| - 1]] else [])
  }

  /** Filter keeps every element that passes, and only those. */
  lemma {:induction false} FilterMembership<T>(s: seq<T>, keep: T -> bool, x: T)
    ensures x in Filter(s, keep) <==> x in s && keep(x)
    decreases |s|
  {
    if s != [] {
      FilterMembership(s[..|s| - 1], keep, x);
      assert s == s[..|s| - 1] + [s[|s| - 1]];
    }
  }

  /** Filtering preserves relative order: it distributes over concatenation. */
  lemma {:induction false} FilterAppend<T>(a: seq<T>, b: seq<T>, keep: T -> bool)
    ensures Filter(a + b, keep) == Filter(a, keep) + Filter(b, keep)
    decreases |b|
  {
    if b == [] {
      assert a + b == a;
    } else {
      var b' := b[..|b| - 1];
      FilterAppend(a, b', keep);
      assert (a + b)[..|a + b| - 1] == a + b';
    }
  }

  /** Filtering changes nothing when every element passes. */
  lemma {:induction false} FilterAll<T>(s: seq<T>, keep: T -> bool)
    requires forall i :: 0 <= i < |s| ==> keep(s[i])
    ensures Filter(s, keep) == s
    decreases |s|
  {
    if s != [] {
      FilterAll(s[..|s| - 1], keep);
      assert s == s[..|s| - 1] + [s[|s| - 1]];
    }
  }

  /** A filter keeps a duplicate-free list duplicate-free. */
  lemma {:induction false} FilterDistinct<T>(s: seq<T>, keep: T -> bool)
    requires Distinct(s)
    ensures Distinct(Filter(s, keep))
    decreases |s|
  {
    if s != [] {
      var s' := s[..|s| - 1];
      FilterDistinct(s', keep);
      assert s[|s| - 1] !in s';
    }
  }

  /** The elements of `b` that are not in `a`, in order (`b.filter(x => !a.includes(x))`). */
  function Excluding<T(==)>(b: seq<T>, a: seq<T>): (r: seq<T>)
    ensures forall i :: 0 <= i < |r| ==> r[i] in b && r[i] !in a
  {
    if b == [] then []
    else
      assert forall i :: 0 <= i < |b| - 1 ==> b[..|b| - 1][i] == b[i];
      Excluding(b[..|b| - 1], a) + (if b[|b| - 1] in a then [] else [b[|b| - 1]])
  }

  lemma {:induction false} ExcludingMembership<T>(b: seq<T>, a: seq<T>, x: T)
    ensures x in Excluding(b, a) <==> x in b && x !in a
    decreases |b|
  {
    if b != [] {
      ExcludingMembership(b[..|b| - 1], a, x);
      assert b == b[..|b| - 1] + [b[|b| - 1]];
    }
  }

  lemma DedupeLast<T>(s: seq<T>, x: T)
    ensures Dedupe(s + [x]) == if x in Dedupe(s) then Dedupe(s) else Dedupe(s) + [x]
  {
    assert (s + [x])[..|s|] == s;
  }

  lemma ExcludingLast<T>(b: seq<T>, x: T, a: seq<T>)
    ensures Excluding(b + [x], a) == if x in a then Excluding(b, a) else Excluding(b, a) + [x]
  {
    assert (b + [x])[..|b|] == b;
    assert Excluding(b, a) + [] == Excluding(b, a);
  }

  /** Merging a duplicate-free list with more elements: the list stays in front, then
      come the new elements it lacked, each once, in the order of first appearance. */
  lemma {:induction false} DedupeAfterDistinct<T>(a: seq<T>, b: seq<T>)
    requires Distinct(a)
    ensures Dedupe(a + b) == a + Dedupe(Excluding(b, a))
    decreases |b|
  {
    if b == [] {
      assert a + b == a && Excluding(b, a) == [] && a + [] == a;
      DedupeDistinct(a);
    } else {
      var b' := b[..|b| - 1];
      DedupeAfterDistinct(a, b');
      assert b == b' + [b[|b| - 1]];
      assert a + b == (a + b') + [b[|b| - 1]];
      DedupeAfterDistinctStep(a, b', b[|b| - 1]);
    }
  }

  lemma DedupeAfterDistinctStep<T>(a: seq<T>, b: seq<T>, x: T)
    requires Dedupe(a + b) == a + Dedupe(Excluding(b, a))
    ensures Dedupe((a + b) + [x]) == a + Dedupe(Excluding(b + [x], a))
  {
    ExcludingLast(b, x, a);
    DedupeLast(a + b, x);
    if x in a {
      InPrefix(a, Dedupe(Excluding(b, a)), x);
    } else {
      DedupeLast(Excluding(b, a), x);
      NotInPrefix(a, Dedupe(Excluding(b, a)), x);
    }
  }

  lemma InPrefix<T>(a: seq<T>, d: seq<T>, x: T)
    requires x in a
    ensures x in a + d
  {
  }

  lemma NotInPrefix<T>(a: seq<T>, d: seq<T>, x: T)
    requires x !in a
    ensures (x in a + d <==> x in d) && (a + d) + [x] == a + (d + [x])
  {
  }
}
