/**
 * The category page of src/js/category.js: its URL parameters, its page state (category,
 * subcategories, page counter, `hasMore`), `loadCategory`, the more button and the promo
 * section filled by `loadPromoProducts`.
 *
 * The tree comes from the shared cache (it is never fetched here); products come from awaited
 * `api` calls whose results are parameters.
 */
module CategoryPage {
  import opened Wrappers
  import opened CategoryTree
  import opened Discounts
  import Cache
  import Api

  /** At most this many promo products are shown. */
  const PromoShelfSize: nat := 12

  /** Where the page goes given its `city` and `cat` URL parameters. */
  datatype Entry = Redirect | Open(cityId: string, catId: string)

  /** Both parameters must be present and non-empty; otherwise the page leaves for index.html. */
  function Enter(cityParam: Option<string>, catParam: Option<string>): (e: Entry)
    ensures e.Open? <==> cityParam.Some? && cityParam.value != "" && catParam.Some? && catParam.value != ""
    ensures e.Open? ==> cityParam == Some(e.cityId) && catParam == Some(e.catId)
  {
    if cityParam.None? || cityParam.value == "" || catParam.None? || catParam.value == "" then Redirect
    else Open(cityParam.value, catParam.value)
  }

  /** `/catalog/products?city_id=…&category_id=<cat parameter>&page=…` */
  datatype CategoryRequest = CategoryRequest(cityId: string, catKey: string, page: int)

  /** `/catalog/products?city_id=…&category_id=<promo id>&page=1` */
  datatype PromoRequest = PromoRequest(cityId: string, categoryId: CategoryId)

  /** What `loadPromoProducts` does to the promo section. */
  datatype PromoShelf =
    | NoTree                                        // no cached tree: nothing happens
    | NoPromoCategory                               // no truthy promo id: nothing is requested
    | PromoFailed(request: PromoRequest, error: Api.Error)  // caught and logged
    | PromoHidden(request: PromoRequest)            // the response has no items
    | PromoShown(request: PromoRequest, items: seq<Product>)

  /** `loadPromoProducts()`, `cached` being what `getCached` returns for the city's tree key. */
  function PromoShelfFor(cityId: string, cached: Option<TreeValue>, response: Api.ApiResult<ProductsPage>): PromoShelf {
    if !TreeTruthy(cached) then NoTree
    else
      var id := PromoIdWithoutFallback(cached.value);
      if !Truthy(id) then NoPromoCategory
      else
        var request := PromoRequest(cityId, id.value);
        match response
        case Failure(e) => PromoFailed(request, e)
        case Success(data) =>
          var shown := ProductsToShow(data.items, PromoShelfSize);
          if shown == [] then PromoHidden(request) else PromoShown(request, shown)
  }

  /** How `loadCategory` ends: the grid it renders (all items of the page, appended after
      page 1) and the promo section, or the error that escapes it before the promo section. */
  datatype CategoryLoad =
    | CategoryFailed(request: CategoryRequest, error: Api.Error)
    | CategoryShown(request: CategoryRequest, items: seq<Product>, append: bool, promo: PromoShelf)

  // ---------------------------------------------------------------------------
  // Properties of the promo section
  // ---------------------------------------------------------------------------

  /** Without a promo node nothing is requested, even when the tree has main categories (the
      home page would fall back to the first of them); a falsy cached value counts as no tree. */
  lemma NoPromoNodeNoRequest(cityId: string, tree: TreeValue, response: Api.ApiResult<ProductsPage>)
    requires forall c :: c in Flattened(tree) ==> !c.isInout
    ensures PromoShelfFor(cityId, Some(tree), response) ==
              if TreeTruthy(Some(tree)) then NoPromoCategory else NoTree
  {
  }

  /** With a promo node the section asks for the same category as the home page, page 1. */
  lemma PromoRequestMatchesHomePage(cityId: string, tree: TreeValue, response: Api.ApiResult<ProductsPage>)
    requires exists c :: c in Flattened(tree) && c.isInout
    requires Truthy(FindPromoCategoryId(tree))
    ensures var shelf := PromoShelfFor(cityId, Some(tree), response);
      (shelf.PromoFailed? || shelf.PromoHidden? || shelf.PromoShown?) &&
      shelf.request == PromoRequest(cityId, FindPromoCategoryId(tree).value)
  {
    var flat := Flattened(tree);
    var c :| c in flat && c.isInout;
    var k := InoutIndex(flat);
    if k == |flat| {
      assert false;
    }
    PromoVariantsAgree(tree);
  }

  /** The section shows the discounted items of the response when it has any, else all of
      them, at most 12, and hides exactly when the response has no items. */
  lemma PromoShelfContents(cityId: string, tree: TreeValue, data: ProductsPage)
    requires Truthy(PromoIdWithoutFallback(tree))
    ensures var shelf := PromoShelfFor(cityId, Some(tree), Api.Success(data));
      && (shelf.PromoHidden? <==> data.items == [])
      && (shelf.PromoShown? ==>
            && 1 <= |shelf.items| <= PromoShelfSize
            && ((exists p :: p in data.items && IsDiscounted(p)) ==> forall p :: p in shelf.items ==> IsDiscounted(p))
            && ((forall p :: p in data.items ==> !IsDiscounted(p)) ==>
                 |shelf.items| <= |data.items| && shelf.items == data.items[..|shelf.items|]))
  {
    ProductsToShowSpec(data.items, PromoShelfSize);
  }

  // ---------------------------------------------------------------------------
  // The page state
  // ---------------------------------------------------------------------------

  class CategoryPage {
    const cityId: string
    const catId: string
    var city: Cache.City
    var category: Option<Node>
    var subcategories: seq<Node>
    var page: int
    var hasMore: bool

    /** The page state as declared: the saved city or an unnamed one with the URL's id. */
    constructor (store: Cache.Storage<TreeValue>, cityId: string, catId: string)
      requires Enter(Some(cityId), Some(catId)) == Open(cityId, catId)
      ensures this.cityId == cityId && this.catId == catId
      ensures city == Cache.SavedCity(store.items).GetOr(Cache.City(cityId, "Город"))
      ensures category.None? && subcategories == [] && page == 1 && !hasMore
    {
      this.cityId := cityId;
      this.catId := catId;
      category := None;
      subcategories := [];
      page := 1;
      hasMore := false;
      city := Cache.City(cityId, "Город");
      new;
      var saved := store.GetCity();
      if saved.Some? {
        city := saved.value;
      }
    }

    /** `loadCategory()`: looks the category up in the cached tree by its printed id, takes its
        children as subcategories only when there are some, loads page `page` of the category
        and then the promo section. */
    method LoadCategory(store: Cache.Storage<TreeValue>, now: int, response: Api.ApiResult<ProductsPage>,
                        promoResponse: Api.ApiResult<ProductsPage>) returns (r: CategoryLoad)
      modifies this
      ensures var cached := Cache.Lookup(store.items, Cache.TreeKey(cityId), Cache.TreeCacheTtl, now);
        && city == old(city) && page == old(page)
        && category == (if TreeTruthy(cached) then FindByKey(Flattened(cached.value), catId) else old(category))
        && subcategories == (if TreeTruthy(cached) && category.Some? && |category.value.children| > 0
                             then category.value.children else old(subcategories))
        && hasMore == (if response.Success? then response.json.next else old(hasMore))
        && r == match response
                case Failure(e) => CategoryFailed(CategoryRequest(cityId, catId, page), e)
                case Success(data) => CategoryShown(CategoryRequest(cityId, catId, page), data.items,
                                                    page > 1, PromoShelfFor(cityId, cached, promoResponse))
    {
      var tree := store.GetCached(Cache.TreeKey(cityId), Cache.TreeCacheTtl, now);
      if TreeTruthy(tree) {
        category := FindByKey(Flattened(tree.value), catId);
        if category.Some? && |category.value.children| > 0 {
          subcategories := category.value.children;
        }
      }
      var request := CategoryRequest(cityId, catId, page);
      if response.Failure? {
        return CategoryFailed(request, response.error);
      }
      var data := response.json;
      hasMore := data.next;
      var promo := LoadPromoProducts(store, now, promoResponse);
      r := CategoryShown(request, data.items, page > 1, promo);
    }

    /** `loadPromoProducts()`; it changes no page state. */
    method LoadPromoProducts(store: Cache.Storage<TreeValue>, now: int, response: Api.ApiResult<ProductsPage>)
      returns (shelf: PromoShelf)
      ensures shelf == PromoShelfFor(cityId, Cache.Lookup(store.items, Cache.TreeKey(cityId), Cache.TreeCacheTtl, now), response)
    {
      var tree := store.GetCached(Cache.TreeKey(cityId), Cache.TreeCacheTtl, now);
      if !TreeTruthy(tree) {
        return NoTree;
      }
      var promoCatId := PromoIdWithoutFallback(tree.value);
      if !Truthy(promoCatId) {
        return NoPromoCategory;
      }
      var request := PromoRequest(cityId, promoCatId.value);
      if response.Failure? {
        return PromoFailed(request, response.error);
      }
      var shown := ProductsToShow(response.json.items, PromoShelfSize);
      shelf := if shown == [] then PromoHidden(request) else PromoShown(request, shown);
    }

    /** The more button: the next page, appended. The counter advances before the request,
        so it has advanced even when the request fails. */
    method More(store: Cache.Storage<TreeValue>, now: int, response: Api.ApiResult<ProductsPage>,
                promoResponse: Api.ApiResult<ProductsPage>) returns (r: CategoryLoad)
      requires page >= 1
      modifies this
      ensures var cached := Cache.Lookup(store.items, Cache.TreeKey(cityId), Cache.TreeCacheTtl, now);
        && city == old(city) && page == old(page) + 1
        && category == (if TreeTruthy(cached) then FindByKey(Flattened(cached.value), catId) else old(category))
        && subcategories == (if TreeTruthy(cached) && category.Some? && |category.value.children| > 0
                             then category.value.children else old(subcategories))
        && hasMore == (if response.Success? then response.json.next else old(hasMore))
        && r == match response
                case Failure(e) => CategoryFailed(CategoryRequest(cityId, catId, old(page) + 1), e)
                case Success(data) => CategoryShown(CategoryRequest(cityId, catId, old(page) + 1), data.items,
                                                    true, PromoShelfFor(cityId, cached, promoResponse))
    {
      page := page + 1;
      r := LoadCategory(store, now, response, promoResponse);
    }
  }
}
