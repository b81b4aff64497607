/**
 * The filter button of the public viewer's sidebar: clicking appends the button's query
 * parameter object to the list of map filters, and a button shows as active while its
 * object is in the list. Objects are compared by identity.
 */
module Sidebar {

  /** One entry of the `queryParameters` table: an object holding its where-clause. */
  class QueryParameter {
    const syntax: string

    constructor(syntax: string)
      ensures this.syntax == syntax
    {
      this.syntax := syntax;
    }
  }

  class SideBar {
    /** `queryParameters.pedestrian`, the table's one entry. */
    const pedestrian: QueryParameter
    /** `mapFilters`; `null` stands for the `undefined` a click on an unknown id appends. */
    var mapFilters: seq<QueryParameter?>

    constructor()
      ensures fresh(pedestrian) && pedestrian.syntax == "&$where=pedestrian_fl = \"Y\""
      ensures mapFilters == []
    {
      pedestrian := new QueryParameter("&$where=pedestrian_fl = \"Y\"");
      mapFilters := [];
    }

    /** `queryParameters[id]`: the table's object for a known id, `undefined` otherwise. */
    function QueryParameters(id: string): (p: QueryParameter?)
      reads this
      ensures p != null <==> id == "pedestrian"
    {
      if id == "pedestrian" then pedestrian else null
    }

    /** A filter is set when the list holds the very object the table has for it. */
    predicate FilterSet(filterName: string)
      reads this
    {
      QueryParameters(filterName) != null && QueryParameters(filterName) in mapFilters
    }

    /** `handleFilterClick`: the clicked id's object goes at the end, and nothing is removed. */
    method HandleFilterClick(id: string)
      modifies this
      ensures mapFilters == old(mapFilters) + [QueryParameters(id)]
      ensures forall name :: old(FilterSet(name)) ==> FilterSet(name)
      ensures id == "pedestrian" ==> FilterSet(id)
    {
      mapFilters := mapFilters + [QueryParameters(id)];
    }

    /**
     * `isFilterSet`: `find` returns the first entry identical to the table's object, and `!!`
     * makes it a boolean; for an unknown name the entry found is `undefined` itself, which is false.
     */
    method IsFilterSet(filterName: string) returns (isSet: bool)
      ensures isSet <==> FilterSet(filterName)
    {
      var clickedFilter := QueryParameters(filterName);
      var i := 0;
      while i < |mapFilters|
        invariant 0 <= i <= |mapFilters|
        invariant clickedFilter !in mapFilters[..i]
      {
        if mapFilters[i] == clickedFilter {
          return mapFilters[i] != null;
        }
        i := i + 1;
      }
      assert mapFilters[..i] == mapFilters;
      return false;
    }
  }

  /** Occurrences of one object in the list. */
  function Occurrences(filters: seq<QueryParameter?>, p: QueryParameter?): (n: nat)
    ensures n == multiset(filters)[p]
  {
    if filters == [] then 0
    else
      assert filters == [filters[0]] + filters[1..];
      (if filters[0] == p then 1 else 0) + Occurrences(filters[1..], p)
  }

  /** Clicks only ever add: every click adds one more occurrence of its object, so clicking a set filter again duplicates it. */
  lemma {:induction false} ClicksAccumulate(filters: seq<QueryParameter?>, clicks: seq<QueryParameter?>, p: QueryParameter?)
    ensures Occurrences(filters + clicks, p) == Occurrences(filters, p) + Occurrences(clicks, p)
    ensures (filters + clicks)[..|filters|] == filters
  {
    assert multiset(filters + clicks) == multiset(filters) + multiset(clicks);
    assert (filters + clicks)[..|filters|] == filters;
  }
}
