/**
  `getSortParam`: the mapping from the table's sort column and direction to
  the search API's sort value. An unset column counts as `'name'` and an
  unset direction as `'asc'`; an unset global is modelled by the empty
  string, which `||` treats the same way.

  The request builder does not call this mapping: it sends the raw sort
  column, which `SortSentIsRawColumn` makes precise.
 */
module Sorting {
  import opened JsValues
  import Entries
  import Params

  /** The four sort values the search API accepts. */
  const ApiSortValues: set<string> := {"price_asc", "price_desc", "name", "relevance"}

  function GetSortParam(sortColumn: string, sortDirection: string): (r: string)
    ensures r in ApiSortValues
    ensures r == "price_asc"
        <==> sortColumn == "base_price" && (sortDirection == "asc" || sortDirection == "")
    ensures r == "price_desc"
        <==> sortColumn == "base_price" && sortDirection != "asc" && sortDirection != ""
    ensures r == "name" <==> sortColumn == "name" || sortColumn == ""
    ensures r == "relevance"
        <==> sortColumn != "" && sortColumn != "name" && sortColumn != "base_price"
  {
    var column := if sortColumn != "" then sortColumn else "name";
    var direction := if sortDirection != "" then sortDirection else "asc";
    if column == "base_price" then
      (if direction == "asc" then "price_asc" else "price_desc")
    else if column == "name" then "name"
    else "relevance"
  }

  /** The mapping ignores the direction for every column but `base_price`. */
  lemma SortDirectionMattersOnlyForPrice(column: string, d1: string, d2: string)
    requires column != "base_price"
    ensures GetSortParam(column, d1) == GetSortParam(column, d2)
  {
  }

  /** The request sends the sort column as it is, not the mapped API value:
      the two agree only for the columns `name` and `relevance`, so sorting
      by price asks the API for `base_price` where the mapping gives
      `price_asc` or `price_desc`. */
  lemma SortSentIsRawColumn(inp: Params.RequestInputs, sortDirection: string)
    requires Entries.DistinctKeys(inp.appliedFilters)
    requires !Truthy(Entries.Get(inp.appliedFilters, "sort"))
    requires inp.sortColumn != ""
    ensures Entries.Get(Params.BuildParams(inp), "sort") == Str(inp.sortColumn)
    ensures Entries.Get(Params.BuildParams(inp), "sort") == Str(GetSortParam(inp.sortColumn, sortDirection))
        <==> inp.sortColumn == "name" || inp.sortColumn == "relevance"
  {
    Params.ParamsDefaults(inp);
  }
}
