/**
 * The browse page's state and handlers.  The loaded listings, the filter
 * record, the filtered and sorted list and the current page are fields;
 * every change to the listings or to the filter record reruns the effect,
 * which recomputes the list and returns to page 1.
 */
module BrowsePage {
  import opened BrowseQuery
  import opened BrowseSort
  import opened BrowsePagination

  /** The filter record before any change: only the search text comes from the address. */
  function InitialFilters(search: string): (f: Filters)
    ensures f.search == search && f.sortBy == "newest"
    ensures f.category == "" && f.extension == "" && f.minPrice == "" && f.maxPrice == ""
    ensures f.minLength == "" && f.maxLength == ""
  {
    Filters(search, "", "", "", "", "", "", "newest")
  }

  /** `{ ...prev, [key]: value }`: a key that is not a filter field adds nothing the effect reads. */
  function WithField(f: Filters, key: string, value: string): (g: Filters)
  {
    if key == "search" then f.(search := value)
    else if key == "category" then f.(category := value)
    else if key == "extension" then f.(extension := value)
    else if key == "minPrice" then f.(minPrice := value)
    else if key == "maxPrice" then f.(maxPrice := value)
    else if key == "minLength" then f.(minLength := value)
    else if key == "maxLength" then f.(maxLength := value)
    else if key == "sortBy" then f.(sortBy := value)
    else f
  }

  /** The named field takes the new value and every other field keeps its old one. */
  lemma WithFieldChangesOnlyKey(f: Filters, key: string, value: string)
    ensures var g := WithField(f, key, value);
      (g.search == if key == "search" then value else f.search) &&
      (g.category == if key == "category" then value else f.category) &&
      (g.extension == if key == "extension" then value else f.extension) &&
      (g.minPrice == if key == "minPrice" then value else f.minPrice) &&
      (g.maxPrice == if key == "maxPrice" then value else f.maxPrice) &&
      (g.minLength == if key == "minLength" then value else f.minLength) &&
      (g.maxLength == if key == "maxLength" then value else f.maxLength) &&
      (g.sortBy == if key == "sortBy" then value else f.sortBy)
  {
  }

  /** The list the page shows for given listings and filters: filtered, then sorted. */
  function Shown(domains: seq<Listing>, f: Filters): seq<Listing>
  {
    SortBy(f.sortBy, Matching(domains, f))
  }

  class BrowseView {
    var domains: seq<Listing>
    var filters: Filters
    var filteredDomains: seq<Listing>
    var currentPage: int
    var error: string

    /** The shown list is always the effect's result for the current listings and filters. */
    ghost predicate Valid()
      reads this
    {
      filteredDomains == Shown(domains, filters)
    }

    /** Mount: nothing loaded yet, the search text from the address, page 1. */
    constructor (initialSearch: string)
      ensures Valid()
      ensures domains == [] && filters == InitialFilters(initialSearch)
      ensures filteredDomains == [] && currentPage == 1 && error == ""
    {
      domains := [];
      filters := InitialFilters(initialSearch);
      filteredDomains := [];
      currentPage := 1;
      error := "";
    }

    /** The body of the effect over `[domains, filters]`. */
    method RunEffect()
      modifies this
      ensures filteredDomains == Shown(domains, filters) && currentPage == 1
      ensures domains == old(domains) && filters == old(filters) && error == old(error)
    {
      var filtered := FilterDomains(domains, filters);
      if IsSortKey(filters.sortBy) {
        filtered := InsertionSort(filters.sortBy, filtered);
      }
      filteredDomains := filtered;
      currentPage := 1;
    }

    /** `loadDomains` succeeded: the listings are replaced and the effect reruns. */
    method LoadSucceeded(data: seq<Listing>)
      modifies this
      ensures Valid()
      ensures domains == data && filters == old(filters) && error == ""
      ensures currentPage == 1
    {
      error := "";
      domains := data;
      RunEffect();
    }

    /** `loadDomains` failed: the message is kept and nothing else changes. */
    method LoadFailed(message: string)
      requires Valid()
      modifies this
      ensures Valid()
      ensures error == message
      ensures domains == old(domains) && filters == old(filters)
      ensures filteredDomains == old(filteredDomains) && currentPage == old(currentPage)
    {
      error := message;
    }

    /** `handleFilterChange(key, value)`. */
    method HandleFilterChange(key: string, value: string)
      modifies this
      ensures Valid()
      ensures filters == WithField(old(filters), key, value)
      ensures domains == old(domains) && error == old(error) && currentPage == 1
    {
      filters := WithField(filters, key, value);
      RunEffect();
    }

    /** `handleSearch(query)`: only the search text changes. */
    method HandleSearch(query: string)
      modifies this
      ensures Valid()
      ensures filters == old(filters).(search := query)
      ensures domains == old(domains) && error == old(error) && currentPage == 1
    {
      filters := filters.(search := query);
      RunEffect();
    }

    /** `handleClearFilters()`: every field empty, newest first. */
    method HandleClearFilters()
      modifies this
      ensures Valid()
      ensures filters == InitialFilters("")
      ensures filteredDomains == SortBy("newest", domains)
      ensures domains == old(domains) && error == old(error) && currentPage == 1
    {
      filters := InitialFilters("");
      RunEffect();
      NoFiltersKeepAll(domains, filters);
    }

    /** `handlePageChange(page)`: only the page number changes. */
    method HandlePageChange(page: int)
      requires Valid()
      modifies this
      ensures Valid()
      ensures currentPage == page
      ensures domains == old(domains) && filters == old(filters)
      ensures filteredDomains == old(filteredDomains) && error == old(error)
    {
      currentPage := page;
    }

    /** `paginatedDomains`. */
    function Visible(): (r: seq<Listing>)
      reads this
      ensures |r| <= PageSize
      ensures currentPage >= 1 ==> forall i | 0 <= i < |r| ::
        StartIndex(currentPage) + i < |filteredDomains| && r[i] == filteredDomains[StartIndex(currentPage) + i]
      ensures currentPage >= 1 ==> (r != [] <==> currentPage <= Pages())
    {
      if currentPage >= 1 then
        PageSliceContents(filteredDomains, currentPage);
        PageSlice(filteredDomains, currentPage)
      else
        PageSlice(filteredDomains, currentPage)
    }

    /** `totalPages`. */
    function Pages(): nat
      reads this
    {
      TotalPages(|filteredDomains|)
    }
  }

  /** Sorting neither adds nor drops listings: a listing is shown exactly when it matches. */
  lemma ShownMembership(domains: seq<Listing>, f: Filters, d: Listing)
    ensures d in Shown(domains, f) <==> d in Matching(domains, f)
  {
    SortByProperties(f.sortBy, Matching(domains, f), d);
    assert d in Shown(domains, f) <==> d in multiset(Shown(domains, f));
  }
}
