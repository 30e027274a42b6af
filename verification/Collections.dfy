/** Option, and the few facts about duplicate-free sequences that every other module uses. */
module Collections {

  datatype Option<+T> = None | Some(value: T)

  ghost predicate Distinct<T>(s: seq<T>) {
    forall i, j :: 0 <= i < j < |s| ==> s[i] != s[j]
  }

  function Elements<T>(s: seq<T>): set<T>
  {
    set x | x in s
  }

  /** A duplicate-free sequence has exactly as many elements as its set of elements. */
  lemma {:induction false} DistinctSize<T>(s: seq<T>)
    requires Distinct(s)
    ensures |Elements(s)| == |s|
  {
    if |s| > 0 {
      var front, last := s[..|s| - 1], s[|s| - 1];
      DistinctSize(front);
      assert Elements(s) == Elements(front) + {last};
      assert last !in front;
    }
  }

  lemma DistinctAppend<T>(s: seq<T>, x: T)
    requires Distinct(s) && x !in s
    ensures Distinct(s + [x])
    ensures Elements(s + [x]) == Elements(s) + {x}
  {
    assert forall y :: y in s + [x] <==> y in s || y == x;
  }

  lemma DistinctCons<T>(x: T, s: seq<T>)
    ensures Distinct([x] + s) <==> x !in s && Distinct(s)
  {
    var longer := [x] + s;
    assert longer[1..] == s && longer[0] == x;
    if Distinct(longer) {
      forall i | 0 <= i < |s|
        ensures s[i] != x && forall j :: i < j < |s| ==> s[i] != s[j]
      {
        assert longer[i + 1] == s[i];
        assert forall j :: i < j < |s| ==> longer[1..][j] == longer[j + 1];
      }
    }
  }

  lemma SomeMember<T>(s: seq<T>)
    ensures s != [] ==> exists x :: x in s
  {
    if s != [] {
      assert s[0] in s;
    }
  }

  lemma SubsetSize<T>(a: set<T>, b: set<T>)
    requires a <= b
    ensures |a| <= |b|
    ensures |a| == |b| ==> a == b
  {
    assert b == a + (b - a);
    assert |b| == |a| + |b - a|;
  }

  lemma DistinctFresh<T>(s: seq<T>, i: nat)
    requires Distinct(s) && i < |s|
    ensures s[i] !in s[..i]
  {
  }

  lemma DistinctPrefix<T>(s: seq<T>, n: nat)
    requires Distinct(s) && n <= |s|
    ensures Distinct(s[..n])
  {
  }

  /** A sequence with as many elements as its set has no duplicates. */
  lemma {:induction false} FullSizeIsDistinct<T>(s: seq<T>)
    requires |Elements(s)| == |s|
    ensures Distinct(s)
  {
    if |s| > 0 {
      var front, last := s[..|s| - 1], s[|s| - 1];
      assert Elements(s) == Elements(front) + {last};
      ElementsBound(front);
      FullSizeIsDistinct(front);
      assert last in front ==> Elements(s) == Elements(front);
    }
  }

  lemma {:induction false} ElementsBound<T>(s: seq<T>)
    ensures |Elements(s)| <= |s|
  {
    if |s| > 0 {
      var front := s[..|s| - 1];
      ElementsBound(front);
      assert Elements(s) == Elements(front) + {s[|s| - 1]};
    }
  }

  lemma {:induction false} DistinctCounts<T>(s: seq<T>, x: T)
    requires Distinct(s)
    ensures multiset(s)[x] == if x in s then 1 else 0
  {
    if |s| > 0 {
      var front, last := s[..|s| - 1], s[|s| - 1];
      assert s == front + [last];
      DistinctCounts(front, x);
    }
  }

  /** Duplicate-free sequences over the same elements are permutations of each other. */
  lemma DistinctPermutation<T>(a: seq<T>, b: seq<T>)
    requires Distinct(a) && Distinct(b) && forall x :: x in a <==> x in b
    ensures multiset(a) == multiset(b)
  {
    forall x | x in multiset(a) + multiset(b)
      ensures multiset(a)[x] == multiset(b)[x]
    {
      DistinctCounts(a, x);
      DistinctCounts(b, x);
    }
  }

  /** A duplicate-free sequence drawn from a finite set is no longer than the set. */
  lemma DistinctWithin<T>(s: seq<T>, bound: set<T>)
    requires Distinct(s)
    requires forall x :: x in s ==> x in bound
    ensures |s| <= |bound|
    ensures |s| == |bound| ==> Elements(s) == bound
  {
    DistinctSize(s);
    SubsetSize(Elements(s), bound);
  }

  /** Longest prefix of length at most `n`. */
  function Take<T>(s: seq<T>, n: nat): (r: seq<T>)
    ensures r <= s && |r| == if |s| <= n then |s| else n
  {
    if |s| <= n then s else s[..n]
  }

  /** The elements of a sequence that are in a set, in order. */
  function Only<T(!new)>(s: seq<T>, keep: set<T>): (r: seq<T>)
    ensures forall x :: x in r <==> x in s && x in keep
  {
    if s == [] then [] else (if s[0] in keep then [s[0]] else []) + Only(s[1..], keep)
  }

  lemma OnlyCons<T(!new)>(x: T, s: seq<T>, keep: set<T>)
    ensures Only([x] + s, keep) == if x in keep then [x] + Only(s, keep) else Only(s, keep)
  {
    assert ([x] + s)[1..] == s;
  }

  /** Only the set's effect on the sequence matters. */
  lemma {:induction false} OnlySame<T(!new)>(s: seq<T>, a: set<T>, b: set<T>)
    requires forall x :: x in s ==> (x in a <==> x in b)
    ensures Only(s, a) == Only(s, b)
  {
    if s != [] {
      assert s[0] in s && forall x :: x in s[1..] ==> x in s;
      OnlySame(s[1..], a, b);
    }
  }

  lemma {:induction false} OnlySnoc<T(!new)>(s: seq<T>, x: T, keep: set<T>)
    ensures Only(s + [x], keep) == Only(s, keep) + if x in keep then [x] else []
  {
    if s == [] {
      assert [] + [x] == [x] && [x][1..] == [];
    } else {
      assert (s + [x])[1..] == s[1..] + [x];
      OnlySnoc(s[1..], x, keep);
    }
  }
}
