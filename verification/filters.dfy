/**
 * The list filter of `useFilters` (`frontend/src/hooks/filters.js`): a
 * search text or a selected tag narrows the item list, and the hook shows the
 * filtered list only once a filter run has happened.
 */
module Filters {
  import opened Wrappers
  import opened Strings
  import opened JsValues

  /** One of an item's taggings, read for its `tagId`. */
  datatype TaggingRef = TaggingRef(tagId: JsValue)

  /** The fields the filter destructures; absent ones take the defaults `""` and `[]`. */
  datatype FilterItem = FilterItem(name: Option<string>, taggings: Option<seq<TaggingRef>>)

  function NameOf(x: FilterItem): string {
    match x.name case Some(n) => n case None => ""
  }

  function TaggingsOf(x: FilterItem): seq<TaggingRef> {
    match x.taggings case Some(t) => t case None => []
  }

  /** Some tagging's `tagId` prints as the selected tag. */
  predicate HasTag(x: FilterItem, tag: string) {
    exists i :: 0 <= i < |TaggingsOf(x)| && ToJsString(TaggingsOf(x)[i].tagId) == tag
  }

  /**
   * The callback given to `items.filter`: a non-empty search decides alone by
   * case-sensitive substring; otherwise a non-empty tag decides by string
   * comparison of tag ids; otherwise the item stays.
   */
  predicate Keep(x: FilterItem, search: string, tag: string) {
    if search != "" then Contains(NameOf(x), search)
    else if tag != "" then HasTag(x, tag)
    else true
  }

  /** `a` is `b` with some elements left out, order kept. */
  predicate IsSubsequence<T(==)>(a: seq<T>, b: seq<T>)
    decreases |b|
  {
    if |a| == 0 then true
    else if |b| == 0 then false
    else if a[0] == b[0] then IsSubsequence(a[1..], b[1..])
    else IsSubsequence(a, b[1..])
  }

  /** `items.filter(keep)` */
  function FilterItems(items: seq<FilterItem>, search: string, tag: string): (r: seq<FilterItem>)
    ensures |r| <= |items|
    ensures forall x :: x in r <==> x in items && Keep(x, search, tag)
    ensures IsSubsequence(r, items)
    ensures forall x {:trigger multiset(r)[x]} :: multiset(r)[x] == if Keep(x, search, tag) then multiset(items)[x] else 0
    decreases |items|
  {
    if |items| == 0 then []
    else
      var rest := FilterItems(items[1..], search, tag);
      assert items == [items[0]] + items[1..];
      assert multiset(items) == multiset{items[0]} + multiset(items[1..]);
      assert forall x :: x in items <==> x == items[0] || x in items[1..];
      if Keep(items[0], search, tag) then [items[0]] + rest
      else
        SubsequenceOfTail(rest, items);
        rest
  }

  /** A subsequence of the tail is a subsequence of the whole list. */
  lemma {:induction false} SubsequenceOfTail<T>(a: seq<T>, b: seq<T>)
    requires |b| > 0 && IsSubsequence(a, b[1..])
    ensures IsSubsequence(a, b)
    decreases |b|, 0
  {
    if |a| > 0 && a[0] == b[0] {
      // the head matches: drop it from both, then use the tail
      SubsequenceDropHead(a, b[1..]);
    }
  }

  /** Dropping the first element of a subsequence keeps it a subsequence. */
  lemma {:induction false} SubsequenceDropHead<T>(a: seq<T>, b: seq<T>)
    requires |a| > 0 && IsSubsequence(a, b)
    ensures IsSubsequence(a[1..], b)
    decreases |b|, 1
  {
    assert |b| > 0;
    if a[0] == b[0] {
      if |a[1..]| > 0 {
        SubsequenceOfTail(a[1..], b);
      }
    } else {
      SubsequenceDropHead(a, b[1..]);
      if |a[1..]| > 0 {
        SubsequenceOfTail(a[1..], b);
      }
    }
  }

  /** With no search text and no tag, every item is kept. */
  lemma {:induction false} NoFilterKeepsAll(items: seq<FilterItem>)
    ensures FilterItems(items, "", "") == items
    decreases |items|
  {
    if |items| > 0 {
      NoFilterKeepsAll(items[1..]);
      assert items == [items[0]] + items[1..];
    }
  }

  /** Under a non-empty search an item without a name is never kept. */
  lemma NamelessExcludedBySearch(x: FilterItem, search: string, tag: string)
    requires search != "" && x.name.None?
    ensures !Keep(x, search, tag)
  {
  }

  /** Filtering a filtered list again with the same inputs changes nothing. */
  lemma {:induction false} FilterIdempotent(items: seq<FilterItem>, search: string, tag: string)
    ensures FilterItems(FilterItems(items, search, tag), search, tag) == FilterItems(items, search, tag)
    decreases |items|
  {
    if |items| > 0 {
      FilterIdempotent(items[1..], search, tag);
      var rest := FilterItems(items[1..], search, tag);
      if Keep(items[0], search, tag) {
        assert ([items[0]] + rest)[1..] == rest;
      }
    }
  }

  /** The hook's filtered list and whether it is shown in place of the input. */
  datatype FilterState = FilterState(favorFiltered: bool, filtered: seq<FilterItem>)

  /** The state at mount: nothing filtered yet, the list as first given. */
  function Mount(items: seq<FilterItem>): FilterState { FilterState(false, items) }

  /** `filterItems()`: filter the current list and favour the result from now on. */
  function RunFilter(items: seq<FilterItem>, search: string, tag: string): (s: FilterState)
    ensures s.favorFiltered
    ensures s.filtered == FilterItems(items, search, tag)
  {
    FilterState(true, FilterItems(items, search, tag))
  }

  /** `favorFiltered ? filtered : items` */
  function Shown(s: FilterState, items: seq<FilterItem>): (r: seq<FilterItem>)
    ensures s.favorFiltered ==> r == s.filtered
    ensures !s.favorFiltered ==> r == items
  {
    if s.favorFiltered then s.filtered else items
  }

  /** A tag change runs the filter; re-selecting the same tag does nothing. */
  function TagChanged(s: FilterState, previousTag: string, tag: string, items: seq<FilterItem>, search: string): (r: FilterState)
    ensures previousTag == tag ==> r == s
    ensures previousTag != tag ==> r == RunFilter(items, search, tag)
  {
    if previousTag != tag then RunFilter(items, search, tag) else s
  }

  /** Before any filter run, the shown list is the current input list. */
  lemma UnfilteredBeforeFirstRun(initial: seq<FilterItem>, items: seq<FilterItem>)
    ensures Shown(Mount(initial), items) == items
  {
  }

  /**
   * After a run, the shown list is the filtered one: a subsequence of the
   * items holding every copy of each item the predicate keeps, and nothing else.
   */
  lemma ShownAfterRun(items: seq<FilterItem>, search: string, tag: string, x: FilterItem)
    ensures IsSubsequence(Shown(RunFilter(items, search, tag), items), items)
    ensures x in Shown(RunFilter(items, search, tag), items) <==> x in items && Keep(x, search, tag)
    ensures multiset(Shown(RunFilter(items, search, tag), items))[x] ==
              if Keep(x, search, tag) then multiset(items)[x] else 0
  {
  }
}
