/**
 * Sequence helpers shared by the hide-list, the recents list and the sales
 * aggregation: duplicate freedom, the `includes`-guarded `push`, the
 * insertion-ordered `Set` of JavaScript, and `slice(0, n)`.
 */
module Seqs {

  /** No element occurs twice. */
  predicate NoDup<T(==)>(s: seq<T>) {
    forall i, j :: 0 <= i < j < |s| ==> s[i] != s[j]
  }

  /** `if (!list.includes(x)) list.push(x)`: x is appended only when absent. */
  function AppendNew<T(==,!new)>(s: seq<T>, x: T): (r: seq<T>)
    ensures x in r
    ensures forall y :: y in r <==> y in s || y == x
    ensures |s| <= |r| <= |s| + 1 && r[..|s|] == s
    ensures x in s <==> r == s
    ensures NoDup(s) ==> NoDup(r)
  {
    if x in s then s else s + [x]
  }

  /** Adds the elements of s, in order, to acc as an insertion-ordered set would. */
  function AppendAll<T(==,!new)>(acc: seq<T>, s: seq<T>): (r: seq<T>)
    ensures forall y :: y in r <==> y in acc || y in s
    ensures |acc| <= |r| && r[..|acc|] == acc
    ensures NoDup(acc) ==> NoDup(r)
    decreases |s|
  {
    if s == [] then acc else AppendAll(AppendNew(acc, s[0]), s[1..])
  }

  /** `[...new Set(s)]`: the first occurrence of every element, in order. */
  function Distinct<T(==,!new)>(s: seq<T>): (r: seq<T>)
    ensures NoDup(r)
    ensures forall y :: y in r <==> y in s
  {
    AppendAll([], s)
  }

  /** Adding a + b is adding a, then b. */
  lemma {:induction false} AppendAllConcat<T(!new)>(acc: seq<T>, a: seq<T>, b: seq<T>)
    ensures AppendAll(acc, a + b) == AppendAll(AppendAll(acc, a), b)
    decreases |a|
  {
    if a == [] {
      assert a + b == b;
    } else {
      assert (a + b)[0] == a[0] && (a + b)[1..] == a[1..] + b;
      AppendAllConcat(AppendNew(acc, a[0]), a[1..], b);
    }
  }

  /** Adding elements that are all present already changes nothing. */
  lemma {:induction false} AppendAllPresent<T(!new)>(acc: seq<T>, s: seq<T>)
    requires forall y :: y in s ==> y in acc
    ensures AppendAll(acc, s) == acc
  {
    if s != [] {
      assert s[0] in acc;
      AppendAllPresent(acc, s[1..]);
    }
  }

  /** Adding new, distinct elements appends them unchanged. */
  lemma {:induction false} AppendAllFresh<T(!new)>(acc: seq<T>, s: seq<T>)
    requires NoDup(acc + s)
    ensures AppendAll(acc, s) == acc + s
    decreases |s|
  {
    if s != [] {
      assert s[0] == (acc + s)[|acc|];
      assert s[0] !in acc by {
        forall i | 0 <= i < |acc| ensures acc[i] != s[0] {
          assert acc[i] == (acc + s)[i];
        }
      }
      assert acc + s == (acc + [s[0]]) + s[1..];
      AppendAllFresh(acc + [s[0]], s[1..]);
    }
  }

  /** A list without duplicates is its own `new Set`. */
  lemma DistinctOfNoDup<T(!new)>(s: seq<T>)
    requires NoDup(s)
    ensures Distinct(s) == s
  {
    assert [] + s == s;
    AppendAllFresh([], s);
  }

  /** A prefix one longer is the prefix and the next element. */
  lemma PrefixStep<T>(s: seq<T>, i: nat)
    requires i < |s|
    ensures s[..i + 1] == s[..i] + [s[i]]
  {
  }

  /** Concatenation is associative. */
  lemma ConcatAssoc<T>(a: seq<T>, b: seq<T>, c: seq<T>)
    ensures (a + b) + c == a + (b + c)
  {
  }

  /** Where each of four concatenated parts sits in the whole. */
  lemma PartsOfConcat<T>(p: seq<T>, a: seq<T>, b: seq<T>, c: seq<T>)
    ensures var s := p + (a + b + c);
      && |s| == |p| + |a| + |b| + |c|
      && s[|p|..|p| + |a|] == a
      && s[|p| + |a|..|p| + |a| + |b|] == b
      && s[|p| + |a| + |b|..] == c
  {
    var s := p + (a + b + c);
    assert s[|p|..] == a + b + c;
    assert (a + b + c)[..|a|] == a;
    assert (a + b + c)[|a|..|a| + |b|] == b;
    assert (a + b + c)[|a| + |b|..] == c;
  }

  /** `s.slice(0, n)`. */
  function Take<T>(s: seq<T>, n: nat): (r: seq<T>)
    ensures |r| == if |s| <= n then |s| else n
    ensures r == s[..|r|]
  {
    if |s| <= n then s else s[..n]
  }

  /** `s.filter(x => !drop.includes(x))`. */
  function Without<T(==,!new)>(s: seq<T>, drop: seq<T>): (r: seq<T>)
    ensures forall y :: y in r <==> y in s && y !in drop
    ensures |r| <= |s|
  {
    if s == [] then []
    else if s[0] in drop then Without(s[1..], drop)
    else [s[0]] + Without(s[1..], drop)
  }

  /** How many times x occurs in s. */
  function Count<T(==)>(s: seq<T>, x: T): nat {
    if s == [] then 0 else (if s[0] == x then 1 else 0) + Count(s[1..], x)
  }

  /** Dropping elements that do not occur changes nothing. */
  lemma {:induction false} WithoutNone<T(!new)>(s: seq<T>, drop: seq<T>)
    requires forall y :: y in s ==> y !in drop
    ensures Without(s, drop) == s
  {
    if s != [] {
      WithoutNone(s[1..], drop);
      assert [s[0]] + s[1..] == s;
    }
  }

  /** The filter keeps order: it distributes over concatenation. */
  lemma {:induction false} WithoutConcat<T(!new)>(a: seq<T>, b: seq<T>, drop: seq<T>)
    ensures Without(a + b, drop) == Without(a, drop) + Without(b, drop)
  {
    if a == [] {
      assert a + b == b;
    } else {
      var ab := a + b;
      assert ab[0] == a[0] && ab[1..] == a[1..] + b;
      WithoutConcat(a[1..], b, drop);
      if a[0] !in drop {
        ConcatAssoc([a[0]], Without(a[1..], drop), Without(b, drop));
      }
    }
  }

  /** Every occurrence of a dropped element goes; every other element keeps each of its occurrences. */
  lemma {:induction false} WithoutCount<T(!new)>(s: seq<T>, drop: seq<T>, x: T)
    ensures x in drop ==> Count(Without(s, drop), x) == 0
    ensures x !in drop ==> Count(Without(s, drop), x) == Count(s, x)
  {
    if s != [] {
      WithoutCount(s[1..], drop, x);
    }
  }
}
