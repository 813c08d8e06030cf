/**
 * The `hidden_nfts` entry of local storage: the hide-list, a JSON array of
 * NFT ids that every reader parses whole and every writer replaces whole.
 * A missing entry reads as the empty list. Besides the grid's auto-hide pass,
 * two page actions rewrite it: hiding the selection on the main page and
 * unhiding it on the hidden page.
 */
module HiddenList {
  import opened Seqs

  class HiddenStore {
    var ids: seq<string>

    constructor (ids: seq<string>)
      ensures this.ids == ids
    {
      this.ids := ids;
    }
  }

  /** `[...new Set([...hidden, ...selected])]`: the union, first occurrences in order. */
  function Hide(hidden: seq<string>, selected: seq<string>): (r: seq<string>)
    ensures NoDup(r)
    ensures forall id :: id in r <==> id in hidden || id in selected
  {
    Distinct(hidden + selected)
  }

  /** On a list without duplicates, hiding keeps the old list as it is and appends after it. */
  lemma HideExtends(hidden: seq<string>, selected: seq<string>)
    requires NoDup(hidden)
    ensures |hidden| <= |Hide(hidden, selected)| && Hide(hidden, selected)[..|hidden|] == hidden
    ensures Hide(hidden, selected) == AppendAll(hidden, selected)
  {
    AppendAllConcat([], hidden, selected);
    DistinctOfNoDup(hidden);
  }

  /** Hiding the same selection again changes nothing. */
  lemma HideIdempotent(hidden: seq<string>, selected: seq<string>)
    ensures Hide(Hide(hidden, selected), selected) == Hide(hidden, selected)
  {
    var r := Hide(hidden, selected);
    HideExtends(r, selected);
    AppendAllPresent(r, selected);
  }

  /** `hidden.filter(id => !selected.includes(id))`: every occurrence of a selected id goes. */
  function Unhide(hidden: seq<string>, selected: seq<string>): (r: seq<string>)
    ensures forall id :: id in r <==> id in hidden && id !in selected
    ensures |r| <= |hidden|
  {
    Without(hidden, selected)
  }

  /** Unhiding the same selection again changes nothing. */
  lemma UnhideIdempotent(hidden: seq<string>, selected: seq<string>)
    ensures Unhide(Unhide(hidden, selected), selected) == Unhide(hidden, selected)
  {
    WithoutNone(Unhide(hidden, selected), selected);
  }

  /** Removing ids that are all dropped leaves nothing. */
  lemma {:induction false} WithoutAll(s: seq<string>, drop: seq<string>)
    requires forall id :: id in s ==> id in drop
    ensures Without(s, drop) == []
  {
    if s != [] {
      assert forall id :: id in s[1..] ==> id in s;
      WithoutAll(s[1..], drop);
    }
  }

  /** What hiding appends to a duplicate-free list are selected ids that were not on it. */
  lemma HideTail(hidden: seq<string>, selected: seq<string>)
    requires NoDup(hidden)
    ensures var r := Hide(hidden, selected);
      && |hidden| <= |r| && r == hidden + r[|hidden|..]
      && forall id :: id in r[|hidden|..] ==> id in selected && id !in hidden
  {
    var r := Hide(hidden, selected);
    HideExtends(hidden, selected);
    TailOfExtension(hidden, selected, r);
  }

  /**
   * A duplicate-free list that starts with `hidden` and holds only ids of
   * `hidden` or `selected` continues with selected ids that are not in `hidden`.
   */
  lemma TailOfExtension(hidden: seq<string>, selected: seq<string>, r: seq<string>)
    requires NoDup(r) && |hidden| <= |r| && r[..|hidden|] == hidden
    requires forall id :: id in r ==> id in hidden || id in selected
    ensures r == hidden + r[|hidden|..]
    ensures forall id :: id in r[|hidden|..] ==> id in selected && id !in hidden
  {
    var tail := r[|hidden|..];
    assert r == hidden + tail;
    forall k | 0 <= k < |tail| ensures tail[k] in selected && tail[k] !in hidden {
      assert tail[k] == r[|hidden| + k];
      forall i | 0 <= i < |hidden| ensures hidden[i] != tail[k] {
        assert hidden[i] == r[i];
      }
      assert r[|hidden| + k] in r;
    }
  }

  /**
   * Unhide undoes hide: hiding ids that are not on a duplicate-free list and
   * then unhiding them gives the list back.
   */
  lemma UnhideUndoesHide(hidden: seq<string>, selected: seq<string>)
    requires NoDup(hidden)
    requires forall id :: id in selected ==> id !in hidden
    ensures Unhide(Hide(hidden, selected), selected) == hidden
  {
    var r := Hide(hidden, selected);
    HideTail(hidden, selected);
    var tail := r[|hidden|..];
    WithoutConcat(hidden, tail, selected);
    WithoutNone(hidden, selected);
    WithoutAll(tail, selected);
  }
}
