/**
  The query parameters `fetchProducts` sends to the search endpoint: five
  base parameters, each defaulted with `||`, followed by every truthy
  applied filter other than `search`, copied in the filters' property
  order. A filter whose key is a base key overwrites that parameter in
  place. Percent-encoding into a query string is not part of this model.
 */
module Params {
  import opened JsValues
  import opened Entries

  /** The base parameter keys, in the order the object literal lists them. */
  const BaseKeys: seq<string> := ["q", "page", "limit", "sort", "city_id"]

  /** The filter key that feeds `q` instead of being copied. */
  const SearchKey: string := "search"

  /** The ambient inputs of one request. `currentPage` and `itemsPerPage`
      are `None` when the global is unset; the pagination update reads them
      as they are. An unset `sortColumn` is represented by the empty string,
      which `||` treats exactly as it treats `undefined`, and `sortColumn`
      is read nowhere else. `citySelect` is `None` when the `#citySelect`
      element is missing. */
  datatype RequestInputs = RequestInputs(
    appliedFilters: Entries,
    currentPage: Option<int>,
    itemsPerPage: Option<int>,
    sortColumn: string,
    citySelect: Option<string>)

  /** The object literal of the base parameters. Every value is truthy,
      since each falls back to a truthy default, except an empty `q`. */
  function BaseParams(inp: RequestInputs): (r: Entries)
    ensures KeysOf(r) == BaseKeys
    ensures DistinctKeys(r) && AllDefined(r)
    ensures forall i :: 0 <= i < |r| ==> Truthy(r[i].1) || r[i] == ("q", Str(""))
    ensures forall e :: e in r ==> e.0 != SearchKey && Defined(e.1)
  {
    var r := [ ("q", Or(Get(inp.appliedFilters, SearchKey), Str(""))),
               ("page", Or(OptionalNum(inp.currentPage), Num(1))),
               ("limit", Or(OptionalNum(inp.itemsPerPage), Num(20))),
               ("sort", Or(Str(inp.sortColumn), Str("name"))),
               ("city_id", Or(OptionalStr(inp.citySelect), Str("1"))) ];
    assert KeysOf(r) == BaseKeys;
    BaseKeysDistinct();
    r
  }

  /** No base key repeats, and none is `search`. */
  lemma BaseKeysDistinct()
    ensures forall i, j :: 0 <= i < j < |BaseKeys| ==> BaseKeys[i] != BaseKeys[j]
    ensures SearchKey !in BaseKeys
  {
  }

  /** Whether the `forEach` over the filters copies this entry. */
  predicate Copied(key: string, value: JsValue) {
    key != SearchKey && Truthy(value)
  }

  /** The `forEach` over `Object.entries(appliedFilters)`. The keys already
      present keep their order at the front, and every resulting property
      is either one that was already present or a copied filter entry. */
  function CopyFilters(params: Entries, filters: Entries): (r: Entries)
    ensures KeysOf(params) <= KeysOf(r)
    ensures forall i :: 0 <= i < |r| ==>
      r[i] in params || (Copied(r[i].0, r[i].1) && r[i] in filters)
    decreases |filters|
  {
    if |filters| == 0 then params
    else
      var (k, v) := filters[0];
      var next := if Copied(k, v) then Assign(params, k, v) else params;
      AssignOrigin(params, k, v);
      assert filters == [filters[0]] + filters[1..];
      CopyFilters(next, filters[1..])
  }

  /** The parameters of one request: the base keys come first, `search` is
      never a key, and no value is `undefined` or `null`. */
  function BuildParams(inp: RequestInputs): (r: Entries)
    ensures BaseKeys <= KeysOf(r)
    ensures forall i :: 0 <= i < |r| ==> r[i].0 != SearchKey && Defined(r[i].1)
  {
    var b := BaseParams(inp);
    CopyFilters(b, inp.appliedFilters)
  }

  /** The copied keys of `filters` that `present` does not already hold, in
      filter order: the keys the copy appends. */
  function NewKeys(filters: Entries, present: seq<string>): (ks: seq<string>)
    ensures forall k :: k in ks ==> k != SearchKey && k !in present
    decreases |filters|
  {
    if |filters| == 0 then []
    else
      var (k, v) := filters[0];
      (if Copied(k, v) && k !in present then [k] else []) + NewKeys(filters[1..], present)
  }

  // ---------------------------------------------------------------------
  // The copy loop
  // ---------------------------------------------------------------------

  /** After the copy, each key holds the filter's value when the filter is
      copied and its earlier value otherwise. */
  lemma {:induction false} CopyFiltersGet(params: Entries, filters: Entries, k: string)
    requires DistinctKeys(filters)
    ensures Get(CopyFilters(params, filters), k)
         == if Copied(k, Get(filters, k)) then Get(filters, k) else Get(params, k)
    decreases |filters|
  {
    if |filters| > 0 {
      var (k0, v0) := filters[0];
      var next := if Copied(k0, v0) then Assign(params, k0, v0) else params;
      DistinctTail(filters);
      CopyFiltersGet(next, filters[1..], k);
      if k == k0 {
        GetPresent(filters[1..], k0);
      }
    }
  }

  /** A key is present after the copy exactly when it was present before or
      the filters copy it. */
  lemma {:induction false} CopyFiltersHasKey(params: Entries, filters: Entries, k: string)
    requires DistinctKeys(filters)
    ensures k in KeysOf(CopyFilters(params, filters))
        <==> k in KeysOf(params) || Copied(k, Get(filters, k))
    decreases |filters|
  {
    if |filters| > 0 {
      var (k0, v0) := filters[0];
      var next := if Copied(k0, v0) then Assign(params, k0, v0) else params;
      DistinctTail(filters);
      CopyFiltersHasKey(next, filters[1..], k);
      if k == k0 {
        GetPresent(filters[1..], k0);
      }
    }
  }

  /** Appending a key the filters never mention does not change which keys
      the copy appends. */
  lemma {:induction false} NewKeysIgnoresForeignKey(filters: Entries, present: seq<string>, x: string)
    requires x !in KeysOf(filters)
    ensures NewKeys(filters, present + [x]) == NewKeys(filters, present)
    decreases |filters|
  {
    if |filters| > 0 {
      assert KeysOf(filters) == [filters[0].0] + KeysOf(filters[1..]);
      NewKeysIgnoresForeignKey(filters[1..], present, x);
    }
  }

  /** The copy keeps the existing keys in place and appends the new ones in
      filter order. */
  lemma {:induction false} CopyFiltersKeys(params: Entries, filters: Entries)
    requires DistinctKeys(filters)
    ensures KeysOf(CopyFilters(params, filters)) == KeysOf(params) + NewKeys(filters, KeysOf(params))
    decreases |filters|
  {
    if |filters| > 0 {
      var k0, v0 := filters[0].0, filters[0].1;
      var ks := KeysOf(params);
      DistinctTail(filters);
      if !Copied(k0, v0) {
        CopyFiltersKeys(params, filters[1..]);
        assert NewKeys(filters, ks) == NewKeys(filters[1..], ks);
      } else if k0 in ks {
        CopyFiltersKeys(Assign(params, k0, v0), filters[1..]);
        assert NewKeys(filters, ks) == NewKeys(filters[1..], ks);
      } else {
        var next := Assign(params, k0, v0);
        CopyFiltersKeys(next, filters[1..]);
        assert KeysOf(next) == ks + [k0];
        NewKeysIgnoresForeignKey(filters[1..], ks, k0);
        assert NewKeys(filters, ks) == [k0] + NewKeys(filters[1..], ks);
      }
    }
  }

  /** The copy keeps keys distinct and, since it copies only truthy values,
      never introduces `undefined` or `null`. */
  lemma {:induction false} CopyFiltersWellFormed(params: Entries, filters: Entries)
    requires DistinctKeys(params) && AllDefined(params)
    ensures DistinctKeys(CopyFilters(params, filters))
    ensures AllDefined(CopyFilters(params, filters))
    decreases |filters|
  {
    if |filters| > 0 {
      var (k0, v0) := filters[0];
      if Copied(k0, v0) {
        AssignDistinct(params, k0, v0);
        AssignDefined(params, k0, v0);
        CopyFiltersWellFormed(Assign(params, k0, v0), filters[1..]);
      } else {
        CopyFiltersWellFormed(params, filters[1..]);
      }
    }
  }

  /** Reading a base key of the base parameters gives the defaulted input
      listed under it. */
  lemma BaseParamsShape(inp: RequestInputs)
    ensures forall i :: 0 <= i < 5 ==> Get(BaseParams(inp), BaseKeys[i]) == BaseParams(inp)[i].1
  {
    var b := BaseParams(inp);
    forall i | 0 <= i < 5 ensures Get(b, BaseKeys[i]) == b[i].1 {
      GetPresent(b, BaseKeys[i]);
    }
  }

  // ---------------------------------------------------------------------
  // Properties of the request parameters
  // ---------------------------------------------------------------------

  /** `q` carries the `search` filter when it is truthy and `''` otherwise,
      unless a truthy filter named `q` overwrites it; the key `search` is
      never sent. */
  lemma ParamsQuery(inp: RequestInputs)
    requires DistinctKeys(inp.appliedFilters)
    ensures Get(BuildParams(inp), "q")
         == if Truthy(Get(inp.appliedFilters, "q")) then Get(inp.appliedFilters, "q")
            else if Truthy(Get(inp.appliedFilters, "search")) then Get(inp.appliedFilters, "search")
            else Str("")
    ensures "search" !in KeysOf(BuildParams(inp))
  {
    BaseParamsShape(inp);
    assert "q" == BaseKeys[0];
    CopyFiltersGet(BaseParams(inp), inp.appliedFilters, "q");
    CopyFiltersHasKey(BaseParams(inp), inp.appliedFilters, "search");
  }

  /** `page`, `limit`, `sort` and `city_id` take their input when it is
      truthy and default to 1, 20, `'name'` and `'1'` otherwise, unless a
      truthy filter of the same name overwrites them. */
  lemma ParamsDefaults(inp: RequestInputs)
    requires DistinctKeys(inp.appliedFilters)
    ensures var f := inp.appliedFilters; var r := BuildParams(inp);
      && Get(r, "page")
         == (if Truthy(Get(f, "page")) then Get(f, "page")
             else if inp.currentPage.Some? && inp.currentPage.value != 0 then Num(inp.currentPage.value)
             else Num(1))
      && Get(r, "limit")
         == (if Truthy(Get(f, "limit")) then Get(f, "limit")
             else if inp.itemsPerPage.Some? && inp.itemsPerPage.value != 0 then Num(inp.itemsPerPage.value)
             else Num(20))
      && Get(r, "sort")
         == (if Truthy(Get(f, "sort")) then Get(f, "sort")
             else if inp.sortColumn != "" then Str(inp.sortColumn) else Str("name"))
      && Get(r, "city_id")
         == (if Truthy(Get(f, "city_id")) then Get(f, "city_id")
             else if inp.citySelect.Some? && inp.citySelect.value != "" then Str(inp.citySelect.value)
             else Str("1"))
  {
    var b := BaseParams(inp);
    BaseParamsShape(inp);
    assert "page" == BaseKeys[1] && "limit" == BaseKeys[2];
    assert "sort" == BaseKeys[3] && "city_id" == BaseKeys[4];
    CopyFiltersGet(b, inp.appliedFilters, "page");
    CopyFiltersGet(b, inp.appliedFilters, "limit");
    CopyFiltersGet(b, inp.appliedFilters, "sort");
    CopyFiltersGet(b, inp.appliedFilters, "city_id");
  }

  /** Every truthy filter other than `search` is sent with its own value; a
      key that is neither a base key nor such a filter is not sent at all. */
  lemma ParamsFilters(inp: RequestInputs, k: string)
    requires DistinctKeys(inp.appliedFilters)
    ensures var f := inp.appliedFilters;
      Copied(k, Get(f, k)) ==> Get(BuildParams(inp), k) == Get(f, k)
    ensures var f := inp.appliedFilters;
      k !in BaseKeys ==> (k in KeysOf(BuildParams(inp)) <==> Copied(k, Get(f, k)))
  {
    var b := BaseParams(inp);
    CopyFiltersGet(b, inp.appliedFilters, k);
    CopyFiltersHasKey(b, inp.appliedFilters, k);
    assert KeysOf(b) == BaseKeys;
  }

  /** The parameters list the five base keys first, in their literal order,
      then the extra filter keys in filter order (for keys that are not
      integer-like); no key is repeated and no value is `undefined` or
      `null`. */
  lemma ParamsShape(inp: RequestInputs)
    requires DistinctKeys(inp.appliedFilters)
    ensures KeysOf(BuildParams(inp)) == BaseKeys + NewKeys(inp.appliedFilters, BaseKeys)
    ensures DistinctKeys(BuildParams(inp))
    ensures AllDefined(BuildParams(inp))
  {
    var b := BaseParams(inp);
    BaseParamsShape(inp);
    CopyFiltersKeys(b, inp.appliedFilters);
    CopyFiltersWellFormed(b, inp.appliedFilters);
  }

  /** Filters holding `search` and then one truthy key that is not a base
      key give the base parameters followed by that key. */
  lemma BuildParamsSearchThenNew(inp: RequestInputs)
    requires |inp.appliedFilters| == 2 && inp.appliedFilters[0].0 == SearchKey
    requires Copied(inp.appliedFilters[1].0, inp.appliedFilters[1].1)
    requires inp.appliedFilters[1].0 !in BaseKeys
    ensures BuildParams(inp) == BaseParams(inp) + [inp.appliedFilters[1]]
  {
    var f := inp.appliedFilters;
    var b := BaseParams(inp);
    assert f[1..] == [f[1]] && f[1..][1..] == [];
    assert CopyFilters(b, f) == CopyFilters(b, f[1..]);
    AssignAppends(b, f[1].0, f[1].1);
  }

  /** The inputs of the worked example below. */
  const ExampleInputs: RequestInputs :=
    RequestInputs([("search", Str("milk")), ("brand", Str("X"))], Some(2), Some(20), "", None)

  lemma ExampleBase()
    ensures BaseParams(ExampleInputs)
         == [ ("q", Str("milk")), ("page", Num(2)), ("limit", Num(20)),
              ("sort", Str("name")), ("city_id", Str("1")) ]
  {
    assert Get(ExampleInputs.appliedFilters, SearchKey) == Str("milk");
  }

  /** Filters `{search: 'milk', brand: 'X'}` on page 2 with 20 items per
      page, no sort column and no city selector. */
  lemma ParamsExample()
    ensures BuildParams(ExampleInputs)
         == [ ("q", Str("milk")), ("page", Num(2)), ("limit", Num(20)),
              ("sort", Str("name")), ("city_id", Str("1")), ("brand", Str("X")) ]
  {
    BuildParamsSearchThenNew(ExampleInputs);
    ExampleBase();
  }
}
