/** The activity history page: the filter pipeline that narrows the fetched
    activities by search term, action type and status, the ten-per-page
    pagination with its previous/next handlers, and the window of at most
    five page buttons. */
module History {
  import opened Seqs
  import opened Text

  /** One activity. `status` is `details.status`, None when absent. */
  datatype HistoryItem = HistoryItem(
    id: string,
    userId: string,
    userName: string,
    actionType: string,
    context: string,
    timestamp: string,
    status: Option<string>)

  /** The search box and the two select filters; "all" switches a select off. */
  datatype Filters = Filters(search: string, typeFilter: string, statusFilter: string)

  const AllFilters: Filters := Filters("", "all", "all")

  /** The search predicate: the lower-cased term occurs in the lower-cased
      action type, context, user name or user id. */
  predicate SearchHit(item: HistoryItem, term: string)
  {
    var t := Lower(term);
    Contains(Lower(item.actionType), t) || Contains(Lower(item.context), t) ||
    Contains(Lower(item.userName), t) || Contains(Lower(item.userId), t)
  }

  /** The term's case does not matter: searching for it and for its
      lower-cased form finds the same activities. */
  lemma SearchIgnoresCase(item: HistoryItem, term: string)
    ensures SearchHit(item, term) <==> SearchHit(item, Lower(term))
  {
    LowerIdempotent(term);
  }

  /** The search stage keeps everything when the term is empty (falsy). */
  predicate SearchKeeps(f: Filters, item: HistoryItem)
  {
    f.search == [] || SearchHit(item, f.search)
  }

  predicate TypeKeeps(f: Filters, item: HistoryItem)
  {
    f.typeFilter == "all" || item.actionType == f.typeFilter
  }

  predicate StatusKeeps(f: Filters, item: HistoryItem)
  {
    f.statusFilter == "all" || item.status == Some(f.statusFilter)
  }

  /** The conjunction of the active filters. */
  predicate Keep(f: Filters, item: HistoryItem)
  {
    SearchKeeps(f, item) && TypeKeeps(f, item) && StatusKeeps(f, item)
  }

  /** The activities the page lists for the given filters. */
  function Matching(history: seq<HistoryItem>, f: Filters): (r: seq<HistoryItem>)
    ensures forall k :: 0 <= k < |r| ==> r[k] in history && Keep(f, r[k])
    ensures forall k :: 0 <= k < |history| && Keep(f, history[k]) ==> history[k] in r
  {
    Filter(history, x => Keep(f, x))
  }

  /** The three `filtered.filter(...)` stages of the filter effect. */
  function SearchStage(items: seq<HistoryItem>, term: string): seq<HistoryItem>
  {
    Filter(items, x => SearchHit(x, term))
  }

  function TypeStage(items: seq<HistoryItem>, actionType: string): seq<HistoryItem>
  {
    Filter(items, (x: HistoryItem) => x.actionType == actionType)
  }

  function StatusStage(items: seq<HistoryItem>, status: string): seq<HistoryItem>
  {
    Filter(items, (x: HistoryItem) => x.status == Some(status))
  }

  /** What the list holds after the search stage and after the type stage. */
  function AfterSearch(history: seq<HistoryItem>, f: Filters): seq<HistoryItem>
  {
    Filter(history, x => SearchKeeps(f, x))
  }

  function AfterType(history: seq<HistoryItem>, f: Filters): seq<HistoryItem>
  {
    Filter(history, x => SearchKeeps(f, x) && TypeKeeps(f, x))
  }

  lemma SearchStep(history: seq<HistoryItem>, f: Filters)
    ensures (if f.search != [] then SearchStage(history, f.search) else history) == AfterSearch(history, f)
  {
    if f.search != [] {
      FilterExt(history, x => SearchHit(x, f.search), x => SearchKeeps(f, x));
    } else {
      FilterAll(history, x => SearchKeeps(f, x));
    }
  }

  lemma TypeStep(history: seq<HistoryItem>, f: Filters)
    ensures (if f.typeFilter != "all" then TypeStage(AfterSearch(history, f), f.typeFilter)
             else AfterSearch(history, f)) == AfterType(history, f)
  {
    var search: HistoryItem -> bool := x => SearchKeeps(f, x);
    var searchType: HistoryItem -> bool := x => SearchKeeps(f, x) && TypeKeeps(f, x);
    if f.typeFilter != "all" {
      FilterFilter(history, search, (x: HistoryItem) => x.actionType == f.typeFilter, searchType);
    } else {
      FilterExt(history, search, searchType);
    }
  }

  lemma StatusStep(history: seq<HistoryItem>, f: Filters)
    ensures (if f.statusFilter != "all" then StatusStage(AfterType(history, f), f.statusFilter)
             else AfterType(history, f)) == Matching(history, f)
  {
    var searchType: HistoryItem -> bool := x => SearchKeeps(f, x) && TypeKeeps(f, x);
    var keep: HistoryItem -> bool := x => Keep(f, x);
    if f.statusFilter != "all" {
      FilterFilter(history, searchType, (x: HistoryItem) => x.status == Some(f.statusFilter), keep);
    } else {
      FilterExt(history, searchType, keep);
    }
  }

  /** The matching activities are an order-preserving selection of the
      history: each satisfies the filters and each activity that does is
      among them. */
  lemma MatchingFacts(history: seq<HistoryItem>, f: Filters)
    ensures IsSubsequence(Matching(history, f), history)
    ensures forall k :: 0 <= k < |Matching(history, f)| ==>
      Matching(history, f)[k] in history && Keep(f, Matching(history, f)[k])
    ensures forall k :: 0 <= k < |history| && Keep(f, history[k]) ==> history[k] in Matching(history, f)
  {
    FilterIsSubsequence(history, x => Keep(f, x));
  }

  /** The filter effect: `filtered` starts as the whole history and each
      active filter replaces it by its filtered copy. The result is the
      history narrowed by the conjunction of the filters, in order. */
  method ApplyFilters(history: seq<HistoryItem>, f: Filters) returns (filtered: seq<HistoryItem>)
    ensures filtered == Matching(history, f)
    ensures IsSubsequence(filtered, history)
    ensures forall k :: 0 <= k < |filtered| ==> filtered[k] in history && Keep(f, filtered[k])
    ensures forall k :: 0 <= k < |history| && Keep(f, history[k]) ==> history[k] in filtered
  {
    filtered := history;
    if f.search != [] {
      filtered := SearchStage(filtered, f.search);
    }
    SearchStep(history, f);
    if f.typeFilter != "all" {
      filtered := TypeStage(filtered, f.typeFilter);
    }
    TypeStep(history, f);
    if f.statusFilter != "all" {
      filtered := StatusStage(filtered, f.statusFilter);
    }
    StatusStep(history, f);
    MatchingFacts(history, f);
  }

  /** With an empty search and both selects on "all" nothing is filtered out. */
  lemma NoFiltersKeepAll(history: seq<HistoryItem>)
    ensures Matching(history, AllFilters) == history
  {
    FilterAll(history, x => Keep(AllFilters, x));
  }

  const ItemsPerPage: nat := 10

  /** `Math.ceil(n / itemsPerPage)`. */
  function TotalPages(n: nat): (p: nat)
    ensures p * ItemsPerPage >= n
    ensures p > 0 ==> (p - 1) * ItemsPerPage < n
  {
    (n + ItemsPerPage - 1) / ItemsPerPage
  }

  function Min(a: int, b: int): int
  {
    if a <= b then a else b
  }

  function Max(a: int, b: int): int
  {
    if a <= b then b else a
  }

  /** `startIndex` of a page. */
  function StartIndex(page: int): int
  {
    (page - 1) * ItemsPerPage
  }

  /** `filteredHistory.slice(startIndex, endIndex)` for a page number of at
      least one: at most ten items, the ones from `startIndex` on. */
  function PageItems<T>(items: seq<T>, page: int): (r: seq<T>)
    requires page >= 1
    ensures |r| <= ItemsPerPage
    ensures |r| == Max(0, Min(StartIndex(page) + ItemsPerPage, |items|) - StartIndex(page))
    ensures forall k :: 0 <= k < |r| ==> r[k] == items[StartIndex(page) + k]
  {
    var start := Min(StartIndex(page), |items|);
    var end := Min(StartIndex(page) + ItemsPerPage, |items|);
    items[start..end]
  }

  /** Every page from 1 to totalPages shows at least one activity, and a
      page past the end shows none. */
  lemma PageNonEmpty<T>(items: seq<T>, page: int)
    requires page >= 1
    ensures |PageItems(items, page)| > 0 <==> page <= TotalPages(|items|)
  {
  }

  /** A page within the valid range is empty exactly when there is nothing
      to show. */
  lemma PageEmptyIff<T>(items: seq<T>, page: int)
    requires 1 <= page <= Max(1, TotalPages(|items|))
    ensures PageItems(items, page) == [] <==> items == []
  {
    PageNonEmpty(items, page);
  }

  /** A valid page of the matching activities is empty only when nothing
      matches, and everything on it satisfies the filters. */
  lemma PageOfMatching(history: seq<HistoryItem>, f: Filters, page: int)
    requires 1 <= page <= Max(1, TotalPages(|Matching(history, f)|))
    ensures PageItems(Matching(history, f), page) == [] <==> Matching(history, f) == []
    ensures forall k :: 0 <= k < |PageItems(Matching(history, f), page)| ==>
      Keep(f, PageItems(Matching(history, f), page)[k])
  {
    PageEmptyIff(Matching(history, f), page);
    MatchingFacts(history, f);
  }

  /** Each activity is shown on exactly one page: item `i` is entry
      `i % 10` of page `i / 10 + 1`. */
  lemma PageOfItem<T>(items: seq<T>, i: nat)
    requires i < |items|
    ensures 1 <= i / ItemsPerPage + 1 <= TotalPages(|items|)
    ensures PageItems(items, i / ItemsPerPage + 1)[i % ItemsPerPage] == items[i]
    ensures forall p :: p >= 1 && p != i / ItemsPerPage + 1 ==>
      !(StartIndex(p) <= i < StartIndex(p) + |PageItems(items, p)|)
  {
    var p := i / ItemsPerPage + 1;
    assert StartIndex(p) + i % ItemsPerPage == i;
    forall q | q >= 1 && q != p
      ensures !(StartIndex(q) <= i < StartIndex(q) + |PageItems(items, q)|)
    {
      if q < p {
        assert StartIndex(q) + ItemsPerPage <= StartIndex(p);
      } else {
        assert StartIndex(q) >= StartIndex(p) + ItemsPerPage;
      }
    }
  }

  /** The "Showing a to b of n" line: `a` is startIndex + 1 and `b` is
      min(endIndex, n); on a page with items, b - a + 1 is how many are shown. */
  function ShowingRange(n: nat, page: int): (r: (int, int))
    ensures page >= 1 ==> r.0 >= 1
    ensures r.1 <= n
  {
    (StartIndex(page) + 1, Min(StartIndex(page) + ItemsPerPage, n))
  }

  lemma ShowingMatchesPage<T>(items: seq<T>, page: int)
    requires 1 <= page <= TotalPages(|items|)
    ensures ShowingRange(|items|, page).1 - ShowingRange(|items|, page).0 + 1 == |PageItems(items, page)|
    ensures ShowingRange(|items|, page).1 <= |items|
  {
  }

  /** The page number on button `i` of the window. */
  function WindowPage(current: int, total: nat, i: nat): int
  {
    if total <= 5 then i + 1
    else if current <= 3 then i + 1
    else if current >= total - 2 then total - 4 + i
    else current - 2 + i
  }

  /** `Array.from({ length: Math.min(5, totalPages) }, ...)`. */
  function PageWindow(current: int, total: nat): (w: seq<int>)
    ensures |w| == Min(5, total)
    ensures forall i :: 0 <= i < |w| ==> w[i] == WindowPage(current, total, i)
  {
    seq(Min(5, total), i requires 0 <= i < Min(5, total) => WindowPage(current, total, i))
  }

  /** The buttons are consecutive page numbers within [1, totalPages], and
      the current page has a button whenever it is a valid page. */
  lemma PageWindowFacts(current: int, total: nat)
    ensures forall i :: 0 <= i < |PageWindow(current, total)| - 1 ==>
      PageWindow(current, total)[i + 1] == PageWindow(current, total)[i] + 1
    ensures forall i :: 0 <= i < |PageWindow(current, total)| ==>
      1 <= PageWindow(current, total)[i] <= total
    ensures current in PageWindow(current, total) <==> 1 <= current <= total
  {
    var w := PageWindow(current, total);
    if 1 <= current <= total {
      var i := if total <= 5 || current <= 3 then current - 1
               else if current >= total - 2 then current - total + 4
               else 2;
      assert w[i] == current;
    }
  }

  /** The state of the page: the fetched activities, the filters, the
      filtered list and the current page. */
  class HistoryView {
    var history: seq<HistoryItem>
    var filters: Filters
    var filtered: seq<HistoryItem>
    var currentPage: int

    /** The filtered list is up to date and the current page lies in
        [1, max(1, totalPages)]. */
    predicate Valid()
      reads this
    {
      filtered == Matching(history, filters) &&
      1 <= currentPage <= Max(1, TotalPages(|filtered|))
    }

    /** The fetch success path: the data becomes both lists; no filter is
        active and the first page is shown. */
    constructor(data: seq<HistoryItem>)
      ensures Valid()
      ensures history == data && filters == AllFilters && filtered == data && currentPage == 1
    {
      history := data;
      filters := AllFilters;
      filtered := data;
      currentPage := 1;
      NoFiltersKeepAll(data);
    }

    /** A setting of the search term and selects. React runs the reset
        effect and the filter effect only when a dependency changed: then
        the list is recomputed and the page returns to 1; setting the same
        filters again changes nothing. */
    method SetFilters(f: Filters)
      requires Valid()
      modifies this
      ensures Valid()
      ensures history == old(history) && filters == f
      ensures filtered == Matching(history, f)
      ensures currentPage == if f != old(filters) then 1 else old(currentPage)
    {
      if f != filters {
        filters := f;
        filtered := ApplyFilters(history, f);
        currentPage := 1;
      }
    }

    /** `goToNextPage`: one page on, unless already on the last page. */
    method GoToNextPage()
      requires Valid()
      modifies this
      ensures Valid()
      ensures history == old(history) && filters == old(filters) && filtered == old(filtered)
      ensures currentPage == if old(currentPage) < TotalPages(|filtered|) then old(currentPage) + 1
                             else old(currentPage)
    {
      if currentPage < TotalPages(|filtered|) {
        currentPage := currentPage + 1;
      }
    }

    /** `goToPreviousPage`: one page back, unless already on the first page. */
    method GoToPreviousPage()
      requires Valid()
      modifies this
      ensures Valid()
      ensures history == old(history) && filters == old(filters) && filtered == old(filtered)
      ensures currentPage == if old(currentPage) > 1 then old(currentPage) - 1 else old(currentPage)
    {
      if currentPage > 1 {
        currentPage := currentPage - 1;
      }
    }

    /** `goToPage` from one of the page buttons. */
    method GoToPage(page: int)
      requires Valid()
      requires page in PageWindow(currentPage, TotalPages(|filtered|))
      modifies this
      ensures Valid()
      ensures history == old(history) && filters == old(filters) && filtered == old(filtered)
      ensures currentPage == page
    {
      PageWindowFacts(currentPage, TotalPages(|filtered|));
      currentPage := page;
    }

    /** The activities on the current page: the filtered activities from
        the page's start index on, at most ten of them, none exactly when
        nothing matches the filters. */
    function CurrentActivities(): (r: seq<HistoryItem>)
      requires Valid()
      reads this
      ensures |r| <= ItemsPerPage
      ensures |r| == Max(0, Min(StartIndex(currentPage) + ItemsPerPage, |filtered|) - StartIndex(currentPage))
      ensures r == filtered[Min(StartIndex(currentPage), |filtered|)..Min(StartIndex(currentPage) + ItemsPerPage, |filtered|)]
      ensures r == [] <==> filtered == []
      ensures forall k :: 0 <= k < |r| ==> Keep(filters, r[k])
    {
      PageOfMatching(history, filters, currentPage);
      PageItems(filtered, currentPage)
    }
  }
}
