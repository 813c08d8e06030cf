/**
 * `Array.prototype.sort` with a comparator. The language requires the sort to
 * be stable, so it is modelled by a stable insertion sort: an element is placed
 * before the first element it does not compare greater than, which keeps
 * elements that compare equal in their input order.
 */
module Sorting {
  import Seqs

  /**
   * `localeCompare` is a locale-aware collation outside this model; it is a
   * parameter, and the only property used of it is that swapping its
   * arguments flips the sign of its answer.
   */
  ghost predicate ConsistentCollation(collate: (string, string) -> int) {
    forall a, b :: collate(a, b) < 0 <==> collate(b, a) > 0
  }

  /** Inserts x before the first element of s that x does not compare greater than. */
  function Insert<T>(cmp: (T, T) -> real, x: T, s: seq<T>): (r: seq<T>)
    ensures |r| == |s| + 1
    ensures multiset(r) == multiset(s) + multiset{x}
  {
    if s == [] then [x]
    else if cmp(x, s[0]) <= 0.0 then [x] + s
    else assert s == [s[0]] + s[1..]; [s[0]] + Insert(cmp, x, s[1..])
  }

  /** `[...s].sort(cmp)`. */
  function Sort<T>(cmp: (T, T) -> real, s: seq<T>): (r: seq<T>)
    ensures |r| == |s|
    ensures multiset(r) == multiset(s)
  {
    if s == [] then [] else assert s == [s[0]] + s[1..]; Insert(cmp, s[0], Sort(cmp, s[1..]))
  }

  /** Every neighbouring pair is in order for the comparator. */
  predicate Sorted<T>(cmp: (T, T) -> real, s: seq<T>) {
    forall i :: 0 < i < |s| ==> cmp(s[i - 1], s[i]) <= 0.0
  }

  /** The comparator's sign flips when its arguments are swapped. */
  ghost predicate SignConsistent<T(!new)>(cmp: (T, T) -> real) {
    forall a, b :: cmp(a, b) < 0.0 <==> cmp(b, a) > 0.0
  }

  lemma {:induction false} InsertSorted<T(!new)>(cmp: (T, T) -> real, x: T, s: seq<T>)
    requires SignConsistent(cmp) && Sorted(cmp, s)
    ensures Sorted(cmp, Insert(cmp, x, s))
    ensures s != [] ==> Insert(cmp, x, s)[0] == x || Insert(cmp, x, s)[0] == s[0]
  {
    if s != [] && cmp(x, s[0]) > 0.0 {
      InsertSorted(cmp, x, s[1..]);
      assert cmp(s[0], x) < 0.0;
      var r := Insert(cmp, x, s);
      forall i | 0 < i < |r| ensures cmp(r[i - 1], r[i]) <= 0.0 {
        if i > 1 {
          assert r[i - 1] == Insert(cmp, x, s[1..])[i - 2];
        }
      }
    }
  }

  /** For a sign-consistent comparator the result is in order. */
  lemma {:induction false} SortSorted<T(!new)>(cmp: (T, T) -> real, s: seq<T>)
    requires SignConsistent(cmp)
    ensures Sorted(cmp, Sort(cmp, s))
  {
    if s != [] {
      SortSorted(cmp, s[1..]);
      InsertSorted(cmp, s[0], Sort(cmp, s[1..]));
    }
  }

  /** "Not after" is transitive for the comparator: together with sign consistency, a total preorder. */
  ghost predicate NotAfterTransitive<T(!new)>(cmp: (T, T) -> real) {
    forall a, b, c :: cmp(a, b) <= 0.0 && cmp(b, c) <= 0.0 ==> cmp(a, c) <= 0.0
  }

  /** Under a transitive comparator, ordered neighbours give an ordered list: no element comes after a later one. */
  lemma {:induction false} SortedAllPairs<T(!new)>(cmp: (T, T) -> real, s: seq<T>)
    requires NotAfterTransitive(cmp) && Sorted(cmp, s)
    ensures forall i, j :: 0 <= i < j < |s| ==> cmp(s[i], s[j]) <= 0.0
  {
    if |s| > 1 {
      var init := s[..|s| - 1];
      assert Sorted(cmp, init) by {
        forall i | 0 < i < |init| ensures cmp(init[i - 1], init[i]) <= 0.0 {
          assert init[i - 1] == s[i - 1] && init[i] == s[i];
        }
      }
      SortedAllPairs(cmp, init);
      forall i, j | 0 <= i < j < |s| ensures cmp(s[i], s[j]) <= 0.0 {
        if j < |s| - 1 {
          assert s[i] == init[i] && s[j] == init[j];
        } else if i < j - 1 {
          assert s[i] == init[i] && s[j - 1] == init[j - 1];
          assert cmp(s[i], s[j - 1]) <= 0.0;
        }
      }
    }
  }

  /** A sign-consistent, transitive comparator sorts the whole list into order, not only each neighbouring pair. */
  lemma SortOrdered<T(!new)>(cmp: (T, T) -> real, s: seq<T>)
    requires SignConsistent(cmp) && NotAfterTransitive(cmp)
    ensures var r := Sort(cmp, s); forall i, j :: 0 <= i < j < |r| ==> cmp(r[i], r[j]) <= 0.0
  {
    SortSorted(cmp, s);
    SortedAllPairs(cmp, Sort(cmp, s));
  }

  /** A comparator that calls everything equal leaves the input as it is. */
  lemma {:induction false} SortAllEqual<T(!new)>(cmp: (T, T) -> real, s: seq<T>)
    requires forall a, b :: cmp(a, b) == 0.0
    ensures Sort(cmp, s) == s
  {
    if s != [] {
      SortAllEqual(cmp, s[1..]);
      if s[1..] != [] {
        assert cmp(s[0], s[1]) == 0.0;
      }
      assert [s[0]] + s[1..] == s;
    }
  }

  /**
   * When every element without property p compares greater than every element
   * with it, a sorted sequence holds all elements with p before all without.
   */
  lemma {:induction false} SortedGroupsFirst<T(!new)>(cmp: (T, T) -> real, p: T -> bool, s: seq<T>)
    requires Sorted(cmp, s)
    requires forall a, b :: !p(a) && p(b) ==> cmp(a, b) > 0.0
    ensures forall i, j :: 0 <= i < j < |s| && p(s[j]) ==> p(s[i])
  {
    if s != [] {
      var t := s[1..];
      assert Sorted(cmp, t) by {
        forall i | 0 < i < |t| ensures cmp(t[i - 1], t[i]) <= 0.0 {
          assert t[i - 1] == s[i] && t[i] == s[i + 1];
        }
      }
      SortedGroupsFirst(cmp, p, t);
      forall i, j | 0 <= i < j < |s| && p(s[j]) ensures p(s[i]) {
        if i > 0 {
          assert s[i] == t[i - 1] && s[j] == t[j - 1];
        } else if j > 1 {
          assert s[j] == t[j - 1] && s[1] == t[0];
        }
      }
    }
  }

  /** Sorting never brings two equal elements together where there were none. */
  lemma {:induction false} SortKeepsNoDup<T(!new)>(cmp: (T, T) -> real, s: seq<T>)
    requires Seqs.NoDup(s)
    ensures Seqs.NoDup(Sort(cmp, s))
  {
    if s != [] {
      var t := s[1..];
      assert Seqs.NoDup(t) by {
        forall i, j | 0 <= i < j < |t| ensures t[i] != t[j] {
          assert t[i] == s[i + 1] && t[j] == s[j + 1];
        }
      }
      SortKeepsNoDup(cmp, t);
      assert s[0] !in t by {
        forall i | 0 <= i < |t| ensures t[i] != s[0] {
          assert t[i] == s[i + 1];
        }
      }
      assert s[0] !in multiset(Sort(cmp, t));
      InsertKeepsNoDup(cmp, s[0], Sort(cmp, t));
    }
  }

  lemma {:induction false} InsertKeepsNoDup<T(!new)>(cmp: (T, T) -> real, x: T, s: seq<T>)
    requires Seqs.NoDup(s) && x !in s
    ensures Seqs.NoDup(Insert(cmp, x, s))
  {
    if s != [] && cmp(x, s[0]) > 0.0 {
      var t := s[1..];
      assert Seqs.NoDup(t) by {
        forall i, j | 0 <= i < j < |t| ensures t[i] != t[j] {
          assert t[i] == s[i + 1] && t[j] == s[j + 1];
        }
      }
      assert x !in t by {
        forall i | 0 <= i < |t| ensures t[i] != x {
          assert t[i] == s[i + 1];
        }
      }
      InsertKeepsNoDup(cmp, x, t);
      var u := Insert(cmp, x, t);
      assert s[0] !in multiset(u) by {
        assert s[0] != x;
        forall i | 0 <= i < |t| ensures t[i] != s[0] {
          assert t[i] == s[i + 1];
        }
        assert s[0] !in multiset(t);
      }
      var r := [s[0]] + u;
      forall i, j | 0 <= i < j < |r| ensures r[i] != r[j] {
        if i == 0 {
          assert r[j] == u[j - 1];
          assert u[j - 1] in multiset(u);
        } else {
          assert r[i] == u[i - 1] && r[j] == u[j - 1];
        }
      }
    }
  }
}
