/** Sorting by a strict total order on keys, for records whose keys differ. */
module Sorting {
  import opened Prelude

  ghost predicate StrictOrder<K(!new)>(less: (K, K) -> bool) {
    && (forall a: K :: !less(a, a))
    && (forall a: K, b: K, c: K :: less(a, b) && less(b, c) ==> less(a, c))
    && (forall a: K, b: K :: a != b ==> less(a, b) || less(b, a))
  }

  type Pair = (string, string)

  /** By the first text, then by the second. */
  function ByPair(text: (string, string) -> bool): (Pair, Pair) -> bool {
    (a: Pair, b: Pair) => text(a.0, b.0) || (a.0 == b.0 && text(a.1, b.1))
  }

  lemma ByPairStrict(text: (string, string) -> bool)
    requires StrictOrder(text)
    ensures StrictOrder(ByPair(text))
  {
    var less := ByPair(text);
    forall a: Pair, b: Pair, c: Pair | less(a, b) && less(b, c) ensures less(a, c) {
      PairChain(text, a, b, c);
    }
    forall a: Pair, b: Pair | a != b ensures less(a, b) || less(b, a) {}
  }

  lemma PairChain(text: (string, string) -> bool, a: Pair, b: Pair, c: Pair)
    requires StrictOrder(text) && ByPair(text)(a, b) && ByPair(text)(b, c)
    ensures ByPair(text)(a, c)
  {
    if text(a.0, b.0) && text(b.0, c.0) {
      assert text(a.0, c.0);
    } else if a.0 == b.0 == c.0 {
      assert text(a.1, c.1);
    }
  }

  ghost predicate StrictlySorted<T, K>(key: T -> K, less: (K, K) -> bool, s: seq<T>) {
    forall i, j :: 0 <= i < j < |s| ==> less(key(s[i]), key(s[j]))
  }

  ghost predicate KeysDiffer<T, K>(key: T -> K, s: seq<T>) {
    forall i, j :: 0 <= i < j < |s| ==> key(s[i]) != key(s[j])
  }

  /** Array.sort, one element at a time. */
  function Insert<T, K>(key: T -> K, less: (K, K) -> bool, a: T, s: seq<T>): seq<T> {
    if s == [] || less(key(a), key(s[0])) then [a] + s else [s[0]] + Insert(key, less, a, s[1..])
  }

  function Sort<T, K>(key: T -> K, less: (K, K) -> bool, s: seq<T>): seq<T> {
    if s == [] then [] else Insert(key, less, s[0], Sort(key, less, s[1..]))
  }

  ghost predicate AllAfter<T, K>(key: T -> K, less: (K, K) -> bool, k: K, s: seq<T>) {
    forall i :: 0 <= i < |s| ==> less(k, key(s[i]))
  }

  lemma SortedCons<T, K>(key: T -> K, less: (K, K) -> bool, a: T, s: seq<T>)
    ensures StrictlySorted(key, less, [a] + s) <==> AllAfter(key, less, key(a), s) && StrictlySorted(key, less, s)
  {
    var all := [a] + s;
    assert forall i :: 0 <= i < |s| ==> all[i + 1] == s[i];
    if StrictlySorted(key, less, all) {
      forall i | 0 <= i < |s| ensures less(key(a), key(s[i])) {
        assert less(key(all[0]), key(all[i + 1]));
      }
      forall i, j | 0 <= i < j < |s| ensures less(key(s[i]), key(s[j])) {
        assert less(key(all[i + 1]), key(all[j + 1]));
      }
    }
  }

  lemma {:induction false} InsertMembers<T, K>(key: T -> K, less: (K, K) -> bool, a: T, s: seq<T>, x: T)
    ensures x in Insert(key, less, a, s) <==> x == a || x in s
  {
    if s != [] {
      assert s == [s[0]] + s[1..];
      InsertMembers(key, less, a, s[1..], x);
    }
  }

  lemma {:induction false} InsertAfter<T, K>(key: T -> K, less: (K, K) -> bool, a: T, s: seq<T>, k: K)
    requires AllAfter(key, less, k, s) && less(k, key(a))
    ensures AllAfter(key, less, k, Insert(key, less, a, s))
  {
    if s != [] && !less(key(a), key(s[0])) {
      InsertAfter(key, less, a, s[1..], k);
    }
  }

  lemma {:induction false} InsertSorted<T, K(!new)>(key: T -> K, less: (K, K) -> bool, a: T, s: seq<T>)
    requires StrictOrder(less) && StrictlySorted(key, less, s) && forall i :: 0 <= i < |s| ==> key(s[i]) != key(a)
    ensures StrictlySorted(key, less, Insert(key, less, a, s))
  {
    if s != [] {
      assert s == [s[0]] + s[1..];
      SortedCons(key, less, s[0], s[1..]);
      if less(key(a), key(s[0])) {
        SortedCons(key, less, a, s);
      } else {
        InsertSorted(key, less, a, s[1..]);
        InsertAfter(key, less, a, s[1..], key(s[0]));
        SortedCons(key, less, s[0], Insert(key, less, a, s[1..]));
      }
    }
  }

  lemma {:induction false} SortMembers<T, K>(key: T -> K, less: (K, K) -> bool, s: seq<T>, x: T)
    ensures x in Sort(key, less, s) <==> x in s
  {
    if s != [] {
      assert s == [s[0]] + s[1..];
      SortMembers(key, less, s[1..], x);
      InsertMembers(key, less, s[0], Sort(key, less, s[1..]), x);
    }
  }

  /** Records with different keys come out in strict order. */
  lemma {:induction false} SortSorted<T, K(!new)>(key: T -> K, less: (K, K) -> bool, s: seq<T>)
    requires StrictOrder(less) && KeysDiffer(key, s)
    ensures StrictlySorted(key, less, Sort(key, less, s))
  {
    hide StrictOrder;
    if s != [] {
      assert forall i :: 0 <= i < |s[1..]| ==> s[1..][i] == s[i + 1];
      SortSorted(key, less, s[1..]);
      var rest := Sort(key, less, s[1..]);
      forall i | 0 <= i < |rest| ensures key(rest[i]) != key(s[0]) {
        SortMembers(key, less, s[1..], rest[i]);
        var j :| 0 <= j < |s[1..]| && s[1..][j] == rest[i];
        assert key(s[0]) != key(s[j + 1]);
      }
      InsertSorted(key, less, s[0], rest);
    }
  }
}
