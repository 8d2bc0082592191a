/** Small shared vocabulary: optional values, results, and duplicate-free sequences. */
module Prelude {

  datatype Option<+T> = None | Some(value: T)

  datatype Result<+T, +E> = Ok(value: T) | Err(error: E)

  /** No element occurs twice. */
  ghost predicate Distinct<T>(s: seq<T>) {
    forall i, j :: 0 <= i < j < |s| ==> s[i] != s[j]
  }

  function Elems<T>(s: seq<T>): set<T> {
    set x | x in s
  }

  /** The position of the first occurrence of x. */
  function IndexOf<T(==)>(s: seq<T>, x: T): (i: nat)
    requires x in s
    ensures i < |s| && s[i] == x && x !in s[..i]
  {
    if s[0] == x then 0 else 1 + IndexOf(s[1..], x)
  }

  lemma IndexOfDistinct<T>(s: seq<T>, i: nat)
    requires Distinct(s) && i < |s|
    ensures IndexOf(s, s[i]) == i
  {
    assert s[IndexOf(s, s[i])] == s[i];
  }

  /** A duplicate-free sequence has as many elements as its element set. */
  lemma {:induction false} DistinctCard<T>(s: seq<T>)
    requires Distinct(s)
    ensures |Elems(s)| == |s|
  {
    if s == [] {
      assert Elems(s) == {};
    } else {
      var n := |s| - 1;
      DistinctCard(s[..n]);
      assert Elems(s) == Elems(s[..n]) + {s[n]};
    }
  }

  // ----- sequences as bags -----

  lemma {:induction false} Once<T>(s: seq<T>, x: T)
    requires Distinct(s)
    ensures multiset(s)[x] == if x in s then 1 else 0
  {
    if s != [] {
      var n := |s| - 1;
      Once(s[..n], x);
      assert s == s[..n] + [s[n]];
      assert s[n] !in s[..n];
    }
  }

  lemma Twice<T>(s: seq<T>, i: nat, j: nat)
    requires i < j < |s| && s[i] == s[j]
    ensures multiset(s)[s[i]] >= 2
  {
    assert s == s[..j] + s[j..];
    assert s[..j][i] in multiset(s[..j]) && s[j..][0] in multiset(s[j..]);
  }

  lemma BagMembers<T>(a: seq<T>, b: seq<T>)
    requires multiset(a) == multiset(b)
    ensures forall i :: 0 <= i < |a| ==> a[i] in b
  {
    forall i | 0 <= i < |a| ensures a[i] in b {
      assert a[i] in multiset(b);
    }
  }

  lemma BagDistinct<T>(a: seq<T>, b: seq<T>)
    requires multiset(a) == multiset(b) && Distinct(b)
    ensures Distinct(a)
  {
    forall i, j | 0 <= i < j < |a| ensures a[i] != a[j] {
      Once(b, a[i]);
      if a[i] == a[j] { Twice(a, i, j); }
    }
  }

  lemma RemoveAt<T>(s: seq<T>, j: nat)
    requires Distinct(s) && j < |s|
    ensures var rest := s[..j] + s[j + 1..];
      Distinct(rest) && multiset(s) == multiset(rest) + multiset{s[j]} && forall x :: x in rest <==> x in s && x != s[j]
  {
    var rest := s[..j] + s[j + 1..];
    assert s == s[..j] + [s[j]] + s[j + 1..];
    assert forall i :: 0 <= i < |rest| ==> rest[i] == s[if i < j then i else i + 1];
    forall x ensures x in rest <==> x in s && x != s[j] {
      if x in s && x != s[j] {
        var k :| 0 <= k < |s| && s[k] == x;
        assert rest[if k < j then k else k - 1] == x;
      }
    }
  }

  lemma {:induction false} MembersBag<T>(a: seq<T>, b: seq<T>)
    requires |a| == |b| && Distinct(a) && Distinct(b) && forall x :: x in a <==> x in b
    ensures multiset(a) == multiset(b)
    decreases |a|
  {
    hide Distinct;
    if a != [] {
      assert a[0] in b;
      var j :| 0 <= j < |b| && b[j] == a[0];
      RemoveAt(a, 0);
      RemoveAt(b, j);
      MembersBag(a[..0] + a[1..], b[..j] + b[j + 1..]);
    }
  }

  /** A permutation of a duplicate-free sequence: no duplicates and the same elements. */
  lemma SameBag<T>(a: seq<T>, b: seq<T>)
    requires Distinct(b)
    ensures multiset(a) == multiset(b) <==>
      Distinct(a) && (forall i :: 0 <= i < |a| ==> a[i] in b) && (forall i :: 0 <= i < |b| ==> b[i] in a)
  {
    if multiset(a) == multiset(b) {
      BagDistinct(a, b);
      BagMembers(a, b);
      BagMembers(b, a);
    }
    if Distinct(a) && (forall i :: 0 <= i < |a| ==> a[i] in b) && (forall i :: 0 <= i < |b| ==> b[i] in a) {
      assert Elems(a) == Elems(b);
      DistinctCard(a);
      DistinctCard(b);
      MembersBag(a, b);
    }
  }

  /** A sequence with as many distinct elements as its length has no duplicates. */
  lemma {:induction false} CardDistinct<T>(s: seq<T>)
    requires |Elems(s)| == |s|
    ensures Distinct(s)
  {
    if s != [] {
      var n := |s| - 1;
      assert Elems(s) == Elems(s[..n]) + {s[n]};
      ElemsBound(s[..n]);
      assert s[n] !in Elems(s[..n]);
      CardDistinct(s[..n]);
      forall i, j | 0 <= i < j < |s| ensures s[i] != s[j] {
        if j == n { assert s[..n][i] in Elems(s[..n]); } else { assert s[..n][i] != s[..n][j]; }
      }
    }
  }

  lemma {:induction false} ElemsBound<T>(s: seq<T>)
    ensures |Elems(s)| <= |s|
  {
    if s == [] {
      assert Elems(s) == {};
    } else {
      var n := |s| - 1;
      ElemsBound(s[..n]);
      assert Elems(s) == Elems(s[..n]) + {s[n]};
    }
  }

  lemma Assoc<T>(a: seq<T>, b: seq<T>, c: seq<T>)
    ensures a + (b + c) == (a + b) + c
  {}
}
