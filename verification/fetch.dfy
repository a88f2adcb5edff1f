/**
  `fetchProducts` as a state machine over the page's state. `Begin` is the
  synchronous part up to the first `await`: show the loading indicator,
  build the parameters and issue the request. `Complete` handles the
  response: on success it stores the products and total, renders, updates
  the pagination and asks for availability; any failure lands in the
  `catch`, which shows one error toast, empties the products and renders
  again; the `finally` always hides the indicator.

  The browser and the collaborators the code calls (the table renderer,
  the availability loader, the toast and pagination DOM writes) appear as
  entries of one ordered effect log.
 */
module Fetch {
  import opened JsValues
  import opened Entries
  import Params
  import Pagination
  import Loading

  /** A product record; only its `product_id` is read here. */
  datatype Product = Product(productId: JsValue, fields: Entries)

  /** `result.data`: `products` is `None` when the field is missing. */
  datatype Data = Data(products: Option<seq<Product>>, total: int)

  /** The parsed JSON body, or a body `response.json()` rejects. */
  datatype Body =
    | Unparsable
    | Json(success: JsValue, data: Option<Data>, error: JsValue)

  /** What `fetch` yields: a rejection, or a response with a status. */
  datatype Response =
    | NetworkFailure
    | HttpResponse(status: int, body: Body)

  /** `response.ok`. */
  predicate Ok(status: int) {
    200 <= status <= 299
  }

  datatype Toast = Toast(message: string, isError: bool)

  /** The text of the toast every failure shows. */
  const LoadFailedMessage: string := "Ошибка загрузки товаров"

  /** One observable step, in the order the code performs them. */
  datatype Effect =
    | Request(params: Entries)
    | ShowToast(toast: Toast)
    | Render
    | UpdatePagination(view: Pagination.PaginationView)
    | LoadAvailability(ids: seq<JsValue>)

  /** The page: the request inputs the code reads, the products and total
      it writes, the number of loading indicators in the document and the
      effects so far. `productsData` is `None` while it holds `undefined`. */
  datatype PageState = PageState(
    inputs: Params.RequestInputs,
    productsData: Option<seq<Product>>,
    totalProducts: int,
    indicators: nat,
    effects: seq<Effect>)

  /** `productsData.map(p => p.product_id)`. */
  function Ids(products: seq<Product>): seq<JsValue> {
    seq(|products|, i requires 0 <= i < |products| => products[i].productId)
  }

  // ---------------------------------------------------------------------
  // The effect log, summarised
  // ---------------------------------------------------------------------

  /** The effects of a log sorted by kind, each kind in log order. */
  datatype Views = Views(
    requests: seq<Entries>,
    toasts: seq<Toast>,
    renders: nat,
    paginations: seq<Pagination.PaginationView>,
    availabilityCalls: seq<seq<JsValue>>)

  const NoViews: Views := Views([], [], 0, [], [])

  /** The views of one log followed by another. */
  function Combine(a: Views, b: Views): Views {
    Views(a.requests + b.requests, a.toasts + b.toasts, a.renders + b.renders,
          a.paginations + b.paginations, a.availabilityCalls + b.availabilityCalls)
  }

  function ViewOf(e: Effect): Views {
    match e
    case Request(p) => NoViews.(requests := [p])
    case ShowToast(t) => NoViews.(toasts := [t])
    case Render => NoViews.(renders := 1)
    case UpdatePagination(v) => NoViews.(paginations := [v])
    case LoadAvailability(ids) => NoViews.(availabilityCalls := [ids])
  }

  function ViewsOf(effects: seq<Effect>): Views
    decreases |effects|
  {
    if |effects| == 0 then NoViews else Combine(ViewOf(effects[0]), ViewsOf(effects[1..]))
  }

  lemma CombineAssoc(a: Views, b: Views, c: Views)
    ensures Combine(Combine(a, b), c) == Combine(a, Combine(b, c))
  {
    assert (a.requests + b.requests) + c.requests == a.requests + (b.requests + c.requests);
    assert (a.toasts + b.toasts) + c.toasts == a.toasts + (b.toasts + c.toasts);
    assert (a.paginations + b.paginations) + c.paginations == a.paginations + (b.paginations + c.paginations);
    assert (a.availabilityCalls + b.availabilityCalls) + c.availabilityCalls
        == a.availabilityCalls + (b.availabilityCalls + c.availabilityCalls);
  }

  lemma CombineNoViews(a: Views)
    ensures Combine(NoViews, a) == a && Combine(a, NoViews) == a
  {
    assert a.requests + [] == a.requests && a.toasts + [] == a.toasts;
    assert a.paginations + [] == a.paginations && a.availabilityCalls + [] == a.availabilityCalls;
  }

  /** The views of a concatenation combine the views of its parts. */
  lemma {:induction false} ViewsOfAppend(a: seq<Effect>, b: seq<Effect>)
    ensures ViewsOf(a + b) == Combine(ViewsOf(a), ViewsOf(b))
    decreases |a|
  {
    if |a| == 0 {
      assert a + b == b;
      CombineNoViews(ViewsOf(b));
    } else {
      assert (a + b)[0] == a[0];
      assert (a + b)[1..] == a[1..] + b;
      ViewsOfAppend(a[1..], b);
      CombineAssoc(ViewOf(a[0]), ViewsOf(a[1..]), ViewsOf(b));
    }
  }

  /** The views of a single effect. */
  lemma ViewsOfOne(e: Effect)
    ensures ViewsOf([e]) == ViewOf(e)
  {
    assert [e][1..] == [];
    CombineNoViews(ViewOf(e));
  }

  /** `after` extends the log of `before` by effects whose views are `v`. */
  predicate Appended(before: PageState, after: PageState, v: Views) {
    before.effects <= after.effects && ViewsOf(after.effects[|before.effects|..]) == v
  }

  /** Two successive extensions of the log extend it by both. */
  lemma AppendedTrans(s: PageState, m: PageState, r: PageState, v1: Views, v2: Views)
    requires Appended(s, m, v1) && Appended(m, r, v2)
    ensures Appended(s, r, Combine(v1, v2))
  {
    assert r.effects[|s.effects|..] == m.effects[|s.effects|..] + r.effects[|m.effects|..];
    ViewsOfAppend(m.effects[|s.effects|..], r.effects[|m.effects|..]);
  }

  /** The pagination a response with this total writes. */
  function PaginationFor(s: PageState, total: int): Pagination.PaginationView {
    Pagination.UpdatePaginationInfo(s.inputs.currentPage, s.inputs.itemsPerPage, total)
  }

  /** The availability requests for a product list: one, with the ids in
      list order, unless the list is empty. */
  function AvailabilityFor(products: seq<Product>): seq<seq<JsValue>> {
    if |products| > 0 then [Ids(products)] else []
  }

  /** The error toast every failure shows. */
  const FailureToast: Toast := Toast(LoadFailedMessage, true)

  /** The effects of the success branch, in the order the code performs
      them: render, pagination, then availability for a non-empty list. */
  function StoreEffects(s: PageState, products: seq<Product>, total: int): seq<Effect> {
    [Render, UpdatePagination(PaginationFor(s, total))]
      + (if |products| > 0 then [LoadAvailability(Ids(products))] else [])
  }

  /** The effects of the success branch when `data.products` is missing,
      up to the throw at `.length`. */
  function TotalOnlyEffects(s: PageState, total: int): seq<Effect> {
    [Render, UpdatePagination(PaginationFor(s, total))]
  }

  lemma StoreEffectsViews(s: PageState, products: seq<Product>, total: int)
    ensures ViewsOf(StoreEffects(s, products, total))
         == Views([], [], 1, [PaginationFor(s, total)], AvailabilityFor(products))
  {
    var avail := if |products| > 0 then [LoadAvailability(Ids(products))] else [];
    assert StoreEffects(s, products, total) == [Render] + ([UpdatePagination(PaginationFor(s, total))] + avail);
    ViewsOfAppend([Render], [UpdatePagination(PaginationFor(s, total))] + avail);
    ViewsOfAppend([UpdatePagination(PaginationFor(s, total))], avail);
    ViewsOfOne(Render);
    ViewsOfOne(UpdatePagination(PaginationFor(s, total)));
    if |products| > 0 {
      ViewsOfOne(LoadAvailability(Ids(products)));
    }
  }

  /** The effects the `catch` block appends: the toast, then the render. */
  const CatchEffects: seq<Effect> := [ShowToast(FailureToast), Render]

  // ---------------------------------------------------------------------
  // Transitions
  // ---------------------------------------------------------------------

  /** From the call up to the `await fetch(...)`: the indicator is shown
      and one request with the built parameters is issued. */
  function Begin(s: PageState): (r: PageState)
    ensures r.inputs == s.inputs && r.productsData == s.productsData && r.totalProducts == s.totalProducts
    ensures r.indicators >= 1 && (s.indicators >= 1 ==> r.indicators == s.indicators)
    ensures r.effects == s.effects + [Request(Params.BuildParams(s.inputs))]
    ensures Appended(s, r, NoViews.(requests := [Params.BuildParams(s.inputs)]))
  {
    var req := Request(Params.BuildParams(s.inputs));
    var r := s.(indicators := Loading.Show(s.indicators), effects := s.effects + [req]);
    assert r.effects[|s.effects|..] == [req];
    ViewsOfOne(req);
    r
  }

  /** How the `try` block ends. `LoadedWithoutList` is a successful body
      whose `data` has no `products`: the total is stored, the table is
      rendered and the pagination updated, and only then does reading
      `.length` of `undefined` throw into the `catch`. */
  datatype Outcome =
    | Loaded(products: seq<Product>, total: int)
    | LoadedWithoutList(total: int)
    | Failed

  /** The response makes the `try` throw before anything is stored: the
      request fails, the status is not 2xx, the body is not JSON,
      `success` is falsy, or `data` is missing. */
  predicate FailsEarly(resp: Response) {
    || resp.NetworkFailure?
    || (resp.HttpResponse? && !Ok(resp.status))
    || (resp.HttpResponse? && resp.body.Unparsable?)
    || (resp.HttpResponse? && resp.body.Json?
        && (!Truthy(resp.body.success) || resp.body.data.None?))
  }

  function Classify(resp: Response): (r: Outcome)
    ensures r.Failed? <==> FailsEarly(resp)
    ensures !r.Failed? ==>
      && resp.HttpResponse? && Ok(resp.status) && resp.body.Json? && Truthy(resp.body.success)
      && resp.body.data.Some? && r.total == resp.body.data.value.total
    ensures r.Loaded? <==> !FailsEarly(resp) && resp.body.data.value.products.Some?
    ensures r.Loaded? ==> r.products == resp.body.data.value.products.value
  {
    match resp
    case NetworkFailure => Failed
    case HttpResponse(status, body) =>
      if !Ok(status) then Failed
      else match body
        case Unparsable => Failed
        case Json(success, data, _) =>
          if !Truthy(success) then Failed
          else match data
            case None => Failed
            case Some(Data(None, total)) => LoadedWithoutList(total)
            case Some(Data(Some(products), total)) => Loaded(products, total)
  }

  /** The success branch of the `try`: the response's products and total
      are stored, the table is rendered once, the pagination is updated
      once, and availability is requested for a non-empty list. */
  function StoreResult(s: PageState, products: seq<Product>, total: int): (r: PageState)
    ensures r.inputs == s.inputs && r.indicators == s.indicators
    ensures r.productsData == Some(products) && r.totalProducts == total
    ensures r.effects == s.effects + StoreEffects(s, products, total)
    ensures Appended(s, r, Views([], [], 1, [PaginationFor(s, total)], AvailabilityFor(products)))
  {
    var r := s.(productsData := Some(products), totalProducts := total,
                effects := s.effects + StoreEffects(s, products, total));
    assert r.effects[|s.effects|..] == StoreEffects(s, products, total);
    StoreEffectsViews(s, products, total);
    r
  }

  /** The success branch when `data` has no `products`, up to the throw:
      `productsData` becomes `undefined`, the total is stored, the table is
      rendered once and the pagination updated once. */
  function StoreTotalOnly(s: PageState, total: int): (r: PageState)
    ensures r.inputs == s.inputs && r.indicators == s.indicators
    ensures r.productsData == None && r.totalProducts == total
    ensures r.effects == s.effects + TotalOnlyEffects(s, total)
    ensures Appended(s, r, Views([], [], 1, [PaginationFor(s, total)], []))
  {
    var added := [Render] + [UpdatePagination(PaginationFor(s, total))];
    var r := s.(productsData := None, totalProducts := total, effects := s.effects + added);
    assert r.effects[|s.effects|..] == added;
    ViewsOfAppend([Render], [UpdatePagination(PaginationFor(s, total))]);
    ViewsOfOne(Render);
    ViewsOfOne(UpdatePagination(PaginationFor(s, total)));
    r
  }

  lemma CatchEffectsViews()
    ensures ViewsOf(CatchEffects) == Views([], [FailureToast], 1, [], [])
  {
    assert CatchEffects == [ShowToast(FailureToast)] + [Render];
    ViewsOfAppend([ShowToast(FailureToast)], [Render]);
    ViewsOfOne(ShowToast(FailureToast));
    ViewsOfOne(Render);
  }

  /** The `catch` block: one error toast, the products emptied, the total
      zeroed, and one more render. */
  function Recover(s: PageState): (r: PageState)
    ensures r.inputs == s.inputs && r.indicators == s.indicators
    ensures r.productsData == Some([]) && r.totalProducts == 0
    ensures r.effects == s.effects + CatchEffects
    ensures Appended(s, r, Views([], [FailureToast], 1, [], []))
  {
    var r := s.(productsData := Some([]), totalProducts := 0, effects := s.effects + CatchEffects);
    assert r.effects[|s.effects|..] == CatchEffects;
    CatchEffectsViews();
    r
  }

  /** From the response to the end of the `finally`: no further request,
      the indicator removed, and per outcome the stored state and the
      effects of the `try` and `catch` blocks, in order and counted by
      kind. */
  function Complete(s: PageState, resp: Response): (r: PageState)
    ensures r.inputs == s.inputs
    ensures s.indicators <= 1 ==> r.indicators == 0
    ensures s.indicators >= 1 ==> r.indicators + 1 == s.indicators
    ensures Classify(resp).Loaded? ==>
      var o := Classify(resp);
      && r.productsData == Some(o.products) && r.totalProducts == o.total
      && r.effects == s.effects + StoreEffects(s, o.products, o.total)
      && Appended(s, r, Views([], [], 1, [PaginationFor(s, o.total)], AvailabilityFor(o.products)))
    ensures Classify(resp).LoadedWithoutList? ==>
      && r.productsData == Some([]) && r.totalProducts == 0
      && r.effects == s.effects + TotalOnlyEffects(s, Classify(resp).total) + CatchEffects
      && Appended(s, r, Views([], [FailureToast], 2, [PaginationFor(s, Classify(resp).total)], []))
    ensures Classify(resp).Failed? ==>
      && r.productsData == Some([]) && r.totalProducts == 0
      && r.effects == s.effects + CatchEffects
      && Appended(s, r, Views([], [FailureToast], 1, [], []))
  {
    var done := (match Classify(resp)
      case Loaded(products, total) => StoreResult(s, products, total)
      case LoadedWithoutList(total) =>
        var m := StoreTotalOnly(s, total);
        AppendedTrans(s, m, Recover(m), Views([], [], 1, [PaginationFor(s, total)], []), Views([], [FailureToast], 1, [], []));
        Recover(m)
      case Failed => Recover(s));
    done.(indicators := Loading.Hide(done.indicators))
  }

  /** One whole call of `fetchProducts` answered by `resp`. */
  function FetchProducts(s: PageState, resp: Response): PageState {
    Complete(Begin(s), resp)
  }

  // ---------------------------------------------------------------------
  // Properties of one call
  // ---------------------------------------------------------------------

  /** A request followed by effects without one. */
  lemma RequestFirst(p: Entries, v: Views)
    requires v.requests == []
    ensures Combine(NoViews.(requests := [p]), v) == v.(requests := [p])
  {
    assert [p] + [] == [p];
    assert [] + v.toasts == v.toasts && [] + v.paginations == v.paginations;
    assert [] + v.availabilityCalls == v.availabilityCalls;
  }

  /** A call's effects are the request, then whatever `Complete` appends. */
  lemma FetchAppends(s: PageState, resp: Response, v: Views)
    requires Appended(Begin(s), Complete(Begin(s), resp), v)
    ensures Appended(s, FetchProducts(s, resp), Combine(NoViews.(requests := [Params.BuildParams(s.inputs)]), v))
  {
    AppendedTrans(s, Begin(s), Complete(Begin(s), resp), NoViews.(requests := [Params.BuildParams(s.inputs)]), v);
  }

  /** Every call never changes the inputs, only appends to the effect log,
      sends exactly one request built from the inputs, and leaves no
      loading indicator behind when it started with at most one; while the
      response is pending the indicator is shown. */
  lemma FetchCommon(s: PageState, resp: Response)
    ensures Begin(s).indicators >= 1
    ensures var r := FetchProducts(s, resp);
      && r.inputs == s.inputs
      && s.effects <= r.effects
      && ViewsOf(r.effects[|s.effects|..]).requests == [Params.BuildParams(s.inputs)]
      && (s.indicators <= 1 ==> r.indicators == 0)
  {
    var b := Begin(s);
    var r := FetchProducts(s, resp);
    var o := Classify(resp);
    var v := if o.Loaded? then Views([], [], 1, [PaginationFor(b, o.total)], AvailabilityFor(o.products))
             else if o.LoadedWithoutList? then Views([], [FailureToast], 2, [PaginationFor(b, o.total)], [])
             else Views([], [FailureToast], 1, [], []);
    AppendedTrans(s, b, r, NoViews.(requests := [Params.BuildParams(s.inputs)]), v);
  }

  /** A successful response replaces the products and total, renders once,
      updates the pagination once, shows no toast, and asks for the
      availability of the returned ids, in list order, exactly when the
      list is non-empty. */
  lemma FetchLoaded(s: PageState, status: int, success: JsValue, products: seq<Product>, total: int, error: JsValue)
    requires Ok(status) && Truthy(success)
    ensures var r := FetchProducts(s, HttpResponse(status, Json(success, Some(Data(Some(products), total)), error)));
      && r.productsData == Some(products)
      && r.totalProducts == total
      && r.effects == s.effects + [Request(Params.BuildParams(s.inputs))] + StoreEffects(s, products, total)
      && Appended(s, r, Views([Params.BuildParams(s.inputs)], [], 1, [PaginationFor(s, total)], AvailabilityFor(products)))
  {
    var resp := HttpResponse(status, Json(success, Some(Data(Some(products), total)), error));
    assert Classify(resp) == Loaded(products, total);
    assert StoreEffects(Begin(s), products, total) == StoreEffects(s, products, total);
    var v := Views([], [], 1, [PaginationFor(s, total)], AvailabilityFor(products));
    assert Appended(Begin(s), Complete(Begin(s), resp), v);
    FetchAppends(s, resp, v);
    RequestFirst(Params.BuildParams(s.inputs), v);
  }

  /** A response that fails early (see `FailsEarly`) empties the products,
      zeroes the total, shows exactly one error toast, renders once, and
      neither updates the pagination nor asks for availability. */
  lemma FetchFailed(s: PageState, resp: Response)
    requires FailsEarly(resp)
    ensures var r := FetchProducts(s, resp);
      && r.productsData == Some([])
      && r.totalProducts == 0
      && r.effects == s.effects + [Request(Params.BuildParams(s.inputs))] + CatchEffects
      && Appended(s, r, Views([Params.BuildParams(s.inputs)], [FailureToast], 1, [], []))
  {
    var v := Views([], [FailureToast], 1, [], []);
    FetchAppends(s, resp, v);
    RequestFirst(Params.BuildParams(s.inputs), v);
  }

  /** A successful body without a product list renders twice: once with
      the list missing and once more from the `catch`. The pagination shows
      the server's total although the products end up empty. */
  lemma FetchLoadedWithoutList(s: PageState, status: int, success: JsValue, total: int, error: JsValue)
    requires Ok(status) && Truthy(success)
    ensures var r := FetchProducts(s, HttpResponse(status, Json(success, Some(Data(None, total)), error)));
      && r.productsData == Some([])
      && r.totalProducts == 0
      && r.effects == s.effects + [Request(Params.BuildParams(s.inputs))] + TotalOnlyEffects(s, total) + CatchEffects
      && Appended(s, r, Views([Params.BuildParams(s.inputs)], [FailureToast], 2, [PaginationFor(s, total)], []))
  {
    var resp := HttpResponse(status, Json(success, Some(Data(None, total)), error));
    assert Classify(resp) == LoadedWithoutList(total);
    assert TotalOnlyEffects(Begin(s), total) == TotalOnlyEffects(s, total);
    var v := Views([], [FailureToast], 2, [PaginationFor(s, total)], []);
    assert Appended(Begin(s), Complete(Begin(s), resp), v);
    FetchAppends(s, resp, v);
    RequestFirst(Params.BuildParams(s.inputs), v);
  }

  /** An HTTP error status and a network failure leave the page exactly as
      an explicit `success: false` does. */
  lemma FailuresAreIndistinguishable(s: PageState, status: int, body: Body)
    requires !Ok(status)
    ensures FetchProducts(s, HttpResponse(status, body))
         == FetchProducts(s, HttpResponse(200, Json(Bool(false), None, Undefined)))
    ensures FetchProducts(s, NetworkFailure)
         == FetchProducts(s, HttpResponse(200, Json(Bool(false), None, Undefined)))
  {
  }

  /** An unset page size makes the pagination of a successful response
      read NaN pages, although the request itself asked for 20 per page. */
  lemma UnsetPageSizeGivesNaN(s: PageState, status: int, success: JsValue, products: seq<Product>, total: int, error: JsValue)
    requires Ok(status) && Truthy(success) && s.inputs.itemsPerPage.None?
    requires DistinctKeys(s.inputs.appliedFilters) && !Truthy(Get(s.inputs.appliedFilters, "limit"))
    ensures var r := FetchProducts(s, HttpResponse(status, Json(success, Some(Data(Some(products), total)), error)));
      && ViewsOf(r.effects[|s.effects|..]).paginations == [Pagination.PaginationView(s.inputs.currentPage, Pagination.NaN, total)]
      && Get(Params.BuildParams(s.inputs), "limit") == Num(20)
  {
    FetchLoaded(s, status, success, products, total, error);
    Params.ParamsDefaults(s.inputs);
  }
}
