/**
 * The public site's browser script: the instant search over the generated
 * search index, the arrow-key selection among its results, and link
 * prefetching, which asks for each address once.
 */
module SiteScript {
  import opened Php

  /** One record of the search index. */
  datatype Item = Item(title: string, content: string, url: string, excerpt: string)

  /** How many results are shown at most. */
  const MaxResults := 5

  /** The shortest query that is searched for. */
  const MinQueryLength := 2

  /** An item matches when its lower-cased title, a space and its content contain the lower-cased query. */
  predicate Matches(item: Item, query: string)
  {
    Contains(LowerString(item.title + " " + item.content), LowerString(query))
  }

  /** `items.filter(...)`: the matching items, in index order. */
  function Filter(items: seq<Item>, query: string): (r: seq<Item>)
    ensures |r| <= |items|
    ensures forall x :: x in r <==> x in items && Matches(x, query)
  {
    if items == [] then []
    else
      var last := items[|items| - 1];
      Filter(items[..|items| - 1], query) + (if Matches(last, query) then [last] else [])
  }

  /** Filtering keeps the order of the index: it distributes over concatenation. */
  lemma {:induction false} FilterSplits(a: seq<Item>, b: seq<Item>, query: string)
    ensures Filter(a + b, query) == Filter(a, query) + Filter(b, query)
    decreases |b|
  {
    if b == [] {
      assert a + b == a;
    } else {
      assert (a + b)[..|a + b| - 1] == a + b[..|b| - 1];
      FilterSplits(a, b[..|b| - 1], query);
    }
  }

  /** `.slice(0, 5)` of the matches: the first five, in index order. */
  function Search(items: seq<Item>, query: string): (results: seq<Item>)
    ensures |results| <= MaxResults && results <= Filter(items, query)
    ensures |results| == MaxResults || results == Filter(items, query)
    ensures forall x :: x in results ==> x in items && Matches(x, query)
  {
    var all := Filter(items, query);
    if |all| <= MaxResults then all else all[..MaxResults]
  }

  /** A match that comes before the cut is shown. */
  lemma EarlyMatchShown(items: seq<Item>, query: string, i: nat)
    requires i < |items| && Matches(items[i], query)
    requires |Filter(items[..i + 1], query)| <= MaxResults
    ensures items[i] in Search(items, query)
  {
    var head, tail := items[..i + 1], items[i + 1..];
    assert head[..|head| - 1] == items[..i] && head[|head| - 1] == items[i];
    var f := Filter(head, query);
    assert f == Filter(items[..i], query) + [items[i]];
    assert items == head + tail;
    FilterSplits(head, tail, query);
    var all := Filter(items, query);
    assert all[..|f|] == f;
    assert Search(items, query)[|f| - 1] == all[|f| - 1];
  }

  /** The keys the result list reacts to. */
  datatype Key = ArrowDown | ArrowUp | Enter | Escape | OtherKey

  /** What a key press does: nothing, a move, a click on a result, or a failed click on a result that is gone. */
  datatype KeyOutcome = Ignored | Moved | Activated(index: nat) | Missing

  /** The search box: the loaded index, the results shown, whether they are hidden, and the selected result. */
  class SearchBox {
    var index: Option<seq<Item>>
    var results: seq<Item>
    var resultsHidden: bool
    var currentIndex: int

    predicate Valid()
      reads this
    {
      -1 <= currentIndex
    }

    constructor()
      ensures Valid() && index.None? && results == [] && resultsHidden && currentIndex == -1
    {
      index := None;
      results := [];
      resultsHidden := true;
      currentIndex := -1;
    }

    /**
     * `performSearch`: a query of fewer than two characters only hides the
     * list; otherwise the index is loaded once (`fetched` is what the
     * request gave, `None` when it failed, which ends the search), then the
     * first five matches are shown, an empty list showing "no result".
     */
    method PerformSearch(query: string, fetched: Option<seq<Item>>)
      modifies this
      ensures currentIndex == old(currentIndex)
      ensures |query| < MinQueryLength ==> resultsHidden && results == old(results) && index == old(index)
      ensures |query| >= MinQueryLength && old(index).None? && fetched.None? ==>
        results == old(results) && resultsHidden == old(resultsHidden) && index.None?
      ensures |query| >= MinQueryLength && (old(index).Some? || fetched.Some?) ==>
        && index == (if old(index).Some? then old(index) else fetched)
        && results == Search(index.value, query) && !resultsHidden
    {
      if |query| < MinQueryLength {
        resultsHidden := true;
        return;
      }
      if index.None? {
        if fetched.None? {
          return;
        }
        index := fetched;
      }
      results := Search(index.value, query);
      resultsHidden := false;
    }

    /** Any typing in the box drops the selection. */
    method OnInput()
      modifies this`currentIndex
      ensures currentIndex == -1
    {
      currentIndex := -1;
    }

    /**
     * A key press in the box: nothing happens without results; the arrows move
     * the selection within the list, Enter clicks the selected result, Escape
     * hides the list and drops the selection.
     */
    method OnKey(key: Key) returns (outcome: KeyOutcome)
      requires Valid()
      modifies this`currentIndex, this`resultsHidden
      ensures Valid()
      ensures var n := |results|;
        && (n == 0 ==> outcome == Ignored && currentIndex == old(currentIndex) && resultsHidden == old(resultsHidden))
        && (n > 0 && key == ArrowDown ==> outcome == Moved && currentIndex == Min(old(currentIndex) + 1, n - 1))
        && (n > 0 && key == ArrowUp ==> outcome == Moved && currentIndex == Max(old(currentIndex) - 1, 0))
        && (n > 0 && key == Enter && 0 <= old(currentIndex) < n ==> outcome == Activated(old(currentIndex)))
        && (n > 0 && key == Enter && old(currentIndex) >= n ==> outcome == Missing)
        && (n > 0 && key == Enter && old(currentIndex) < 0 ==> outcome == Ignored)
        && (n > 0 && key == Escape ==> outcome == Ignored && currentIndex == -1 && resultsHidden)
        && (n > 0 && key in {Enter, OtherKey} ==> currentIndex == old(currentIndex))
        && (key != Escape ==> resultsHidden == old(resultsHidden))
        && (n > 0 && (key == ArrowDown || key == ArrowUp) ==> 0 <= currentIndex)
        && (old(currentIndex) < n ==> currentIndex < n)
    {
      var n := |results|;
      outcome := Ignored;
      if n == 0 {
        return;
      }
      match key {
        case ArrowDown =>
          currentIndex := Min(currentIndex + 1, n - 1);
          outcome := Moved;
        case ArrowUp =>
          currentIndex := Max(currentIndex - 1, 0);
          outcome := Moved;
        case Enter =>
          if currentIndex >= 0 {
            outcome := if currentIndex < n then Activated(currentIndex) else Missing;
          }
        case Escape =>
          resultsHidden := true;
          currentIndex := -1;
        case OtherKey =>
      }
    }
  }

  function Min(a: int, b: int): int { if a < b then a else b }
  function Max(a: int, b: int): int { if a < b then b else a }

  /** A link under the mouse or the focus: its origin, its address and whether it is a download. */
  datatype Link = Link(origin: string, href: string, download: bool)

  /** The prefetcher: the addresses already asked for and the prefetch links added, in order. */
  class Prefetcher {
    var prefetched: set<string>
    var added: seq<string>

    /** Each address asked for has exactly one link. */
    predicate Valid()
      reads this
    {
      (forall i :: 0 <= i < |added| ==> added[i] in prefetched)
      && (forall u :: u in prefetched ==> u in added)
      && forall i, j :: 0 <= i < j < |added| ==> added[i] != added[j]
    }

    constructor()
      ensures Valid() && prefetched == {} && added == []
    {
      prefetched := {};
      added := [];
    }

    /** `prefetch`: an address is asked for the first time only. */
    method Prefetch(url: string)
      requires Valid()
      modifies this
      ensures Valid()
      ensures prefetched == old(prefetched) + {url}
      ensures url in old(prefetched) ==> added == old(added)
      ensures url !in old(prefetched) ==> added == old(added) + [url]
    {
      if url in prefetched {
        return;
      }
      prefetched := prefetched + {url};
      added := added + [url];
    }

    /** A mouse or focus event: only a same-origin link that is not a download is prefetched. */
    method OnLinkEvent(link: Option<Link>, pageOrigin: string)
      requires Valid()
      modifies this
      ensures Valid()
      ensures link.Some? && link.value.origin == pageOrigin && !link.value.download ==>
        prefetched == old(prefetched) + {link.value.href}
      ensures !(link.Some? && link.value.origin == pageOrigin && !link.value.download) ==>
        prefetched == old(prefetched) && added == old(added)
    {
      if link.Some? && link.value.origin == pageOrigin && !link.value.download {
        Prefetch(link.value.href);
      }
    }
  }
}
