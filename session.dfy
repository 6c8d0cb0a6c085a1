/**
 * The `state` object of the home page in src/app.js and the handlers that mutate it:
 * choosing the city at start-up (`init`) and from the picker (`selectCity`), loading the
 * category tree (`loadTree`), the promo shelf (`loadPromo`), a category (`selectCategory`),
 * the next page (`loadMore`) and the start-up sequence (`initData`).
 *
 * Every awaited `api(...)` is replaced by the result it settles to, passed in as a
 * parameter; the request the handler would send is returned so that its parameters can be
 * stated. The pure step functions below say what each handler does to the state; the
 * `Session` class performs the same updates field by field and is proved to follow them.
 */
module Session {
  import opened Wrappers
  import opened CategoryTree
  import opened Discounts
  import Text
  import Cache
  import Api

  datatype Mode = PromoMode | CategoryMode

  /** `/catalog/products?city_id=…&category_id=…&page=…` */
  datatype Request = ProductsRequest(cityId: string, categoryId: CategoryId, page: int)

  /** What `renderProducts` is handed, whether it appends, and whether the more button hides. */
  datatype View = View(items: seq<Product>, append: bool, moreHidden: bool)

  /** How a products handler ends. */
  datatype Load =
    | Skipped                                     // it returned before sending a request
    | NoPromoCategory                             // no promo category could be found
    | Shown(request: Request, view: View)         // the response was rendered
    | Failed(request: Request, error: Api.Error)  // the awaited `api` rejected

  /** How `loadTree` ends; the count is the number of main categories in the hint. */
  datatype TreeLoad = FromCache(count: nat) | Fetched(count: nat) | TreeFailed(error: Api.Error)

  /** The city used when neither the URL nor the store names one. */
  const DefaultCity: Cache.City := Cache.City("0c5b2444-70a0-4932-980c-b4dc0d3f02b5", "Москва")

  /** The name given to a city whose name is not known. */
  const UnnamedCity: string := "Город"

  /** At most this many products are rendered per response. */
  const ShelfSize: nat := 24

  /** A city the pages accept: a UUID and a non-empty name. */
  predicate IsCity(c: Cache.City) {
    Text.IsUUID(c.id) && c.name != ""
  }

  // ---------------------------------------------------------------------------
  // The state as a value, and what each handler does to it
  // ---------------------------------------------------------------------------

  datatype State = State(
    city: Option<Cache.City>,
    tree: Option<TreeValue>,          // None is `null`
    mainCats: seq<Node>,
    selectedCat: Option<Node>,
    promoCatId: Option<CategoryId>,
    page: int,
    mode: Mode,
    lastProducts: Option<ProductsPage>)

  /** The state as the page script declares it. */
  const Initial: State := State(None, None, [], None, None, 1, PromoMode, None)

  /** `extractMainCats(state.tree)`, `[]` for a null tree. */
  function TreeMainCats(t: Option<TreeValue>): seq<Node> {
    if t.Some? then MainCats(t.value) else []
  }

  /** What every handler keeps: pages count from 1, the category mode is exactly the state
      with a selected category, a tree is only loaded for a chosen valid city, and the main
      categories are those of the loaded tree. */
  predicate Valid(s: State) {
    && s.page >= 1
    && (s.mode == CategoryMode <==> s.selectedCat.Some?)
    && (s.city.Some? ==> IsCity(s.city.value))
    && (s.tree.Some? ==> s.city.Some?)
    && s.mainCats == TreeMainCats(s.tree)
  }

  datatype Step = Step(state: State, load: Load)
  datatype TreeStep = TreeStep(state: State, load: TreeLoad)

  /** `init`'s choice of city from the `city` URL parameter and the saved city. */
  function ChooseCity(saved: Option<Cache.City>, fromUrl: Option<string>): (c: Cache.City)
    requires saved.Some? ==> IsCity(saved.value)
    ensures IsCity(c)
    ensures fromUrl.Some? && Text.IsUUID(fromUrl.value) ==> c.id == fromUrl.value
    ensures saved.Some? && saved.value.id == c.id ==> c == saved.value
    ensures fromUrl.Some? && Text.IsUUID(fromUrl.value) && !(saved.Some? && saved.value.id == fromUrl.value) ==>
              c.name == UnnamedCity
    ensures !(fromUrl.Some? && Text.IsUUID(fromUrl.value)) && saved.Some? ==> c == saved.value
    ensures !(fromUrl.Some? && Text.IsUUID(fromUrl.value)) && saved.None? ==> c == DefaultCity
    ensures c == DefaultCity || c.name == UnnamedCity || Some(c) == saved
  {
    if fromUrl.Some? && fromUrl.value != "" && Text.IsUUID(fromUrl.value) then
      Cache.City(fromUrl.value, if saved.Some? && saved.value.id == fromUrl.value then saved.value.name else UnnamedCity)
    else if saved.Some? then saved.value
    else
      DefaultCityIsCity();
      DefaultCity
  }

  lemma DefaultCityIsCity()
    ensures IsCity(DefaultCity)
  {
    var g1, g2, g3, g4, g5 := "0c5b2444", "70a0", "4932", "980c", "b4dc0d3f02b5";
    assert DefaultCity.id == Text.JoinGroups(g1, g2, g3, g4, g5);
    Text.JoinedGroupsAreUUID(g1, g2, g3, g4, g5);
  }

  /** Whether `init` writes its chosen city to the store (it does unless the saved city is used). */
  predicate InitWritesCity(saved: Option<Cache.City>, fromUrl: Option<string>) {
    (fromUrl.Some? && fromUrl.value != "" && Text.IsUUID(fromUrl.value)) || saved.None?
  }

  /** `selectCity({id, name})`, `""` standing for a missing field. */
  function SelectCityStep(s: State, id: string, name: string): State {
    if id == "" || !Text.IsUUID(id) then s
    else State(Some(Cache.City(id, if name != "" then name else UnnamedCity)),
               None, [], None, None, 1, PromoMode, s.lastProducts)
  }

  /** `loadTree()`, `cached` being what `getCached` returns for the city's tree key. */
  function LoadTreeStep(s: State, cached: Option<TreeValue>, response: Api.ApiResult<Option<TreeValue>>): TreeStep {
    if TreeTruthy(cached) then
      TreeStep(s.(tree := cached, mainCats := MainCats(cached.value)), FromCache(|MainCats(cached.value)|))
    else match response
      case Failure(e) => TreeStep(s, TreeFailed(e))
      case Success(t) => TreeStep(s.(tree := t, mainCats := TreeMainCats(t)), Fetched(|TreeMainCats(t)|))
  }

  /** Receiving a products response: on success it becomes `lastProductsResponse` and the
      discounted items (or all when none is discounted) are rendered, 24 at most. */
  function Receive(s: State, request: Request, response: Api.ApiResult<ProductsPage>, append: bool): Step {
    match response
    case Failure(e) => Step(s, Failed(request, e))
    case Success(data) =>
      Step(s.(lastProducts := Some(data)),
           Shown(request, View(ProductsToShow(data.items, ShelfSize), append, !data.next)))
  }

  /** `loadPromo(reset)`. */
  function LoadPromoStep(s: State, reset: bool, response: Api.ApiResult<ProductsPage>): Step
    requires s.tree.Some? ==> s.city.Some?
  {
    if !TreeTruthy(s.tree) then Step(s, Skipped)
    else
      var id := if Truthy(s.promoCatId) then s.promoCatId else FindPromoCategoryId(s.tree.value);
      var s1 := s.(page := if reset then 1 else s.page, mode := PromoMode, selectedCat := None, promoCatId := id);
      if !Truthy(id) then Step(s1, NoPromoCategory)
      else Receive(s1, ProductsRequest(s.city.value.id, id.value, s1.page), response, !reset)
  }

  /** `selectCategory(cat)`. */
  function SelectCategoryStep(s: State, cat: Node, response: Api.ApiResult<ProductsPage>): Step
    requires s.city.Some?
  {
    var s1 := s.(selectedCat := Some(cat), mode := CategoryMode, page := 1);
    Receive(s1, ProductsRequest(s.city.value.id, cat.id, 1), response, false)
  }

  /** `loadMore()`. */
  function LoadMoreStep(s: State, response: Api.ApiResult<ProductsPage>): Step
    requires s.tree.Some? ==> s.city.Some?
  {
    if s.city.None? then Step(s, Skipped)
    else
      var s1 := s.(page := s.page + 1);
      if s.mode == CategoryMode && s.selectedCat.Some? then
        Receive(s1, ProductsRequest(s.city.value.id, s.selectedCat.value.id, s1.page), response, true)
      else LoadPromoStep(s1, false, response)
  }

  /** The category `initData` opens from the `cat` URL parameter: only an all-digit parameter
      is looked up, by the printed ids of the flattened tree. */
  function OpenedCategory(tree: Option<TreeValue>, catParam: Option<string>): Option<Node> {
    if catParam.Some? && Text.IsDigits(catParam.value) && TreeTruthy(tree) then
      FindByKey(Flattened(tree.value), catParam.value)
    else None
  }

  /** `initData()` after the offers banner: the tree, then the category named by the URL
      or else the promo shelf. A failed tree load ends it before any products request. */
  function InitDataStep(s: State, cached: Option<TreeValue>, treeResponse: Api.ApiResult<Option<TreeValue>>,
                        catParam: Option<string>, response: Api.ApiResult<ProductsPage>): (TreeLoad, Step)
    requires s.city.Some?
  {
    var t := LoadTreeStep(s, cached, treeResponse);
    if t.load.TreeFailed? then (t.load, Step(t.state, Skipped))
    else
      var cat := OpenedCategory(t.state.tree, catParam);
      if cat.Some? then (t.load, SelectCategoryStep(t.state, cat.value, response))
      else (t.load, LoadPromoStep(t.state, true, response))
  }

  // ---------------------------------------------------------------------------
  // Properties of the handlers
  // ---------------------------------------------------------------------------

  lemma InitialIsValid()
    ensures Valid(Initial)
  {
  }

  /** Every handler keeps the state valid. */
  lemma SelectCityKeepsValid(s: State, id: string, name: string)
    requires Valid(s)
    ensures Valid(SelectCityStep(s, id, name))
  {
  }

  lemma LoadTreeKeepsValid(s: State, cached: Option<TreeValue>, response: Api.ApiResult<Option<TreeValue>>)
    requires Valid(s) && s.city.Some?
    ensures Valid(LoadTreeStep(s, cached, response).state)
  {
  }

  /** `loadTree` treats a falsy cached value like a miss and fetches the tree, while a truthy
      non-array is used as a tree with no categories and nothing is fetched. */
  lemma LoadTreeTruthiness(s: State, cached: Option<TreeValue>, response: Api.ApiResult<Option<TreeValue>>)
    ensures !TreeTruthy(cached) ==> LoadTreeStep(s, cached, response) == LoadTreeStep(s, None, response)
    ensures cached == Some(NotArray(true)) ==>
              LoadTreeStep(s, cached, response) == TreeStep(s.(tree := cached, mainCats := []), FromCache(0))
  {
  }

  lemma ReceiveKeepsValid(s: State, request: Request, response: Api.ApiResult<ProductsPage>, append: bool)
    requires Valid(s)
    ensures Valid(Receive(s, request, response, append).state)
  {
  }

  lemma LoadPromoKeepsValid(s: State, reset: bool, response: Api.ApiResult<ProductsPage>)
    requires Valid(s)
    ensures Valid(LoadPromoStep(s, reset, response).state)
  {
    if TreeTruthy(s.tree) {
      var id := if Truthy(s.promoCatId) then s.promoCatId else FindPromoCategoryId(s.tree.value);
      var s1 := s.(page := if reset then 1 else s.page, mode := PromoMode, selectedCat := None, promoCatId := id);
      assert Valid(s1);
      if Truthy(id) {
        ReceiveKeepsValid(s1, ProductsRequest(s.city.value.id, id.value, s1.page), response, !reset);
      }
    }
  }

  lemma SelectCategoryKeepsValid(s: State, cat: Node, response: Api.ApiResult<ProductsPage>)
    requires Valid(s) && s.city.Some?
    ensures Valid(SelectCategoryStep(s, cat, response).state)
  {
    var s1 := s.(selectedCat := Some(cat), mode := CategoryMode, page := 1);
    ReceiveKeepsValid(s1, ProductsRequest(s.city.value.id, cat.id, 1), response, false);
  }

  lemma LoadMoreKeepsValid(s: State, response: Api.ApiResult<ProductsPage>)
    requires Valid(s)
    ensures Valid(LoadMoreStep(s, response).state)
  {
    if s.city.Some? {
      var s1 := s.(page := s.page + 1);
      if s.mode == CategoryMode && s.selectedCat.Some? {
        ReceiveKeepsValid(s1, ProductsRequest(s.city.value.id, s.selectedCat.value.id, s1.page), response, true);
      } else {
        LoadPromoKeepsValid(s1, false, response);
      }
    }
  }

  /** `selectCity` ignores ids that are missing or not UUIDs; otherwise it keeps the id, names
      the city ("Город" when no name is given) and clears everything loaded for the old city. */
  lemma SelectCityResets(s: State, id: string, name: string)
    ensures var t := SelectCityStep(s, id, name);
      if Text.IsUUID(id) then
        && t.city == Some(Cache.City(id, if name == "" then UnnamedCity else name))
        && t.tree.None? && t.mainCats == [] && t.selectedCat.None? && t.promoCatId.None?
        && t.page == 1 && t.mode == PromoMode
      else t == s
  {
  }

  /** Right after `selectCity` the promo shelf cannot load: the tree has been cleared. */
  lemma SelectCityThenPromoSkips(s: State, id: string, name: string, reset: bool, response: Api.ApiResult<ProductsPage>)
    requires Text.IsUUID(id)
    ensures LoadPromoStep(SelectCityStep(s, id, name), reset, response).load == Skipped
  {
  }

  /** `loadPromo` asks for the page it keeps (1 after a reset) of the promo category: the one
      already chosen when truthy, else the tree heuristic; it leaves promo mode selected. */
  lemma {:induction false} LoadPromoRequest(s: State, reset: bool, response: Api.ApiResult<ProductsPage>)
    requires Valid(s) && TreeTruthy(s.tree)
    ensures var st := LoadPromoStep(s, reset, response);
      && st.state.mode == PromoMode && st.state.selectedCat.None?
      && st.state.page == (if reset then 1 else s.page)
      && st.state.promoCatId == (if Truthy(s.promoCatId) then s.promoCatId else FindPromoCategoryId(s.tree.value))
      && (st.load.NoPromoCategory? <==> !Truthy(st.state.promoCatId))
      && (st.load.Shown? || st.load.Failed? ==>
            st.load.request == ProductsRequest(s.city.value.id, st.state.promoCatId.value, st.state.page))
      && (st.load.Shown? ==> st.load.view.append == !reset)
  {
  }

  /** A promo id once found is kept, even after the tree is replaced by another city's. */
  lemma PromoIdIsKept(s: State, t: Option<TreeValue>, reset: bool, response: Api.ApiResult<ProductsPage>)
    requires Valid(s) && Truthy(s.promoCatId) && TreeTruthy(t) && s.city.Some?
    ensures LoadPromoStep(s.(tree := t, mainCats := TreeMainCats(t)), reset, response).state.promoCatId == s.promoCatId
  {
  }

  /** `loadMore` advances the page by exactly one and asks for that page of the current
      category (or of the promo shelf), appending what it receives. */
  lemma {:induction false} LoadMoreAdvancesOnePage(s: State, response: Api.ApiResult<ProductsPage>)
    requires Valid(s) && s.city.Some?
    ensures var st := LoadMoreStep(s, response);
      && st.state.page == s.page + 1
      && st.state.mode == s.mode
      && (st.load.Shown? || st.load.Failed? ==> st.load.request.page == s.page + 1)
      && (s.mode == CategoryMode && (st.load.Shown? || st.load.Failed?) ==>
            st.load.request.categoryId == s.selectedCat.value.id)
      && (st.load.Shown? ==> st.load.view.append)
  {
    if s.mode != CategoryMode && TreeTruthy(s.tree) {
      LoadPromoRequest(s.(page := s.page + 1), false, response);
    }
  }

  /** Opening a category starts it at page 1 with a fresh grid. */
  lemma SelectCategoryStartsOver(s: State, cat: Node, response: Api.ApiResult<ProductsPage>)
    requires s.city.Some?
    ensures var st := SelectCategoryStep(s, cat, response);
      && st.state.page == 1 && st.state.mode == CategoryMode && st.state.selectedCat == Some(cat)
      && (st.load.Shown? ==> !st.load.view.append && st.load.request == ProductsRequest(s.city.value.id, cat.id, 1))
  {
  }

  /** A successful response is recorded and shown with the discounts-first selection; the more
      button hides exactly when there is no next page. A failed one leaves the last response. */
  lemma ReceiveShows(s: State, request: Request, response: Api.ApiResult<ProductsPage>, append: bool)
    ensures var st := Receive(s, request, response, append);
      && (response.Success? ==>
            && st.state.lastProducts == Some(response.json)
            && st.load.Shown?
            && st.load.view.items == ProductsToShow(response.json.items, ShelfSize)
            && (st.load.view.moreHidden <==> !response.json.next))
      && (response.Failure? ==> st.state == s && st.load == Failed(request, response.error))
  {
  }

  /** The URL's `cat` parameter opens a node of the tree whose printed id it is; the printed id
      of any node with a non-negative id opens that node's first occurrence. */
  lemma OpenedCategoryById(t: TreeValue, key: string, id: CategoryId)
    ensures OpenedCategory(Some(t), Some(key)).Some? ==>
      var c := OpenedCategory(Some(t), Some(key)).value;
      c in Flattened(t) && Text.IntToString(c.id) == key && c.id >= 0
    ensures id >= 0 ==> OpenedCategory(Some(t), Some(Text.IntToString(id))) == FindById(Flattened(t), id)
  {
    if OpenedCategory(Some(t), Some(key)).Some? {
      var c := OpenedCategory(Some(t), Some(key)).value;
      Text.IntToStringInjective(c.id, c.id);
    }
    Text.IntToStringInjective(id, id);
    FindByKeyOfId(Flattened(t), id);
  }

  // ---------------------------------------------------------------------------
  // The state object
  // ---------------------------------------------------------------------------

  class Session {
    var city: Option<Cache.City>
    var tree: Option<TreeValue>
    var mainCats: seq<Node>
    var selectedCat: Option<Node>
    var promoCatId: Option<CategoryId>
    var page: int
    var mode: Mode
    var lastProducts: Option<ProductsPage>

    function Snapshot(): State
      reads this
    {
      State(city, tree, mainCats, selectedCat, promoCatId, page, mode, lastProducts)
    }

    constructor ()
      ensures Snapshot() == Initial
    {
      city, tree, mainCats, selectedCat, promoCatId := None, None, [], None, None;
      page, mode, lastProducts := 1, PromoMode, None;
    }

    /** `init()` up to `initData`: the city from the URL, the store, or the default. The
        store then holds the chosen city. */
    method Init(store: Cache.Storage<TreeValue>, fromUrl: Option<string>)
      requires Valid(Snapshot())
      modifies this, store
      ensures var saved := Cache.SavedCity(old(store.items));
        && Snapshot() == old(Snapshot()).(city := Some(ChooseCity(saved, fromUrl)))
        && store.items == if InitWritesCity(saved, fromUrl)
                          then old(store.items)[Cache.CityKey := Cache.CityRecord(city.value.id, city.value.name)]
                          else old(store.items)
      ensures Cache.SavedCity(store.items) == city
      ensures Valid(Snapshot())
    {
      var saved := store.GetCity();
      if fromUrl.Some? && fromUrl.value != "" && Text.IsUUID(fromUrl.value) {
        var name := if saved.Some? && saved.value.id == fromUrl.value then saved.value.name else UnnamedCity;
        city := Some(Cache.City(fromUrl.value, name));
        store.SetCity(city.value);
      } else if saved.Some? {
        city := saved;
      } else {
        DefaultCityIsCity();
        city := Some(DefaultCity);
        store.SetCity(DefaultCity);
      }
      Cache.SetCityThenGetCity(old(store.items), city.value);
    }

    /** `selectCity({id, name})`; the reload that follows is `InitData`. */
    method SelectCity(store: Cache.Storage<TreeValue>, id: string, name: string)
      requires Valid(Snapshot())
      modifies this, store
      ensures Snapshot() == SelectCityStep(old(Snapshot()), id, name)
      ensures store.items == if id != "" && Text.IsUUID(id)
                             then old(store.items)[Cache.CityKey := Cache.CityRecord(city.value.id, city.value.name)]
                             else old(store.items)
      ensures id != "" && Text.IsUUID(id) ==> Cache.SavedCity(store.items) == city
      ensures Valid(Snapshot())
    {
      if id == "" || !Text.IsUUID(id) {
        return;
      }
      city := Some(Cache.City(id, if name != "" then name else UnnamedCity));
      store.SetCity(city.value);
      Cache.SetCityThenGetCity(old(store.items), city.value);
      tree := None;
      mainCats := [];
      selectedCat := None;
      promoCatId := None;
      page := 1;
      mode := PromoMode;
    }

    /** `loadTree()`: the cached tree of the city when young enough, else the fetched one,
        which is then cached (a refused write is a no-op). `now` is the clock at the lookup,
        `written` the clock when the fetch has settled and the entry is stamped. */
    method LoadTree(store: Cache.Storage<TreeValue>, now: int, response: Api.ApiResult<Option<TreeValue>>,
                    written: int, accepted: bool) returns (r: TreeLoad)
      requires Valid(Snapshot()) && city.Some?
      modifies this, store
      ensures var key := Cache.TreeKey(old(city).value.id);
        var cached := Cache.Lookup(old(store.items), key, Cache.TreeCacheTtl, now);
        && TreeStep(Snapshot(), r) == LoadTreeStep(old(Snapshot()), cached, response)
        && store.items == if !TreeTruthy(cached) && response.Success? && accepted
                          then old(store.items)[key := Cache.CacheEntry(Some(written), response.json)]
                          else old(store.items)
      ensures Valid(Snapshot())
    {
      var key := Cache.TreeKey(city.value.id);
      var cached := store.GetCached(key, Cache.TreeCacheTtl, now);
      if TreeTruthy(cached) {
        tree := cached;
        mainCats := MainCats(cached.value);
        return FromCache(|mainCats|);
      }
      if response.Failure? {
        return TreeFailed(response.error);
      }
      tree := response.json;
      store.SetCached(key, tree, written, accepted);
      mainCats := if tree.Some? then MainCats(tree.value) else [];
      r := Fetched(|mainCats|);
    }

    /** Records a products response and says what is rendered. */
    method Show(request: Request, response: Api.ApiResult<ProductsPage>, append: bool) returns (r: Load)
      modifies this
      ensures Step(Snapshot(), r) == Receive(old(Snapshot()), request, response, append)
    {
      if response.Failure? {
        return Failed(request, response.error);
      }
      var data := response.json;
      lastProducts := Some(data);
      r := Shown(request, View(ProductsToShow(data.items, ShelfSize), append, !data.next));
    }

    /** `loadPromo(reset)`. */
    method LoadPromo(reset: bool, response: Api.ApiResult<ProductsPage>) returns (r: Load)
      requires Valid(Snapshot())
      modifies this
      ensures Step(Snapshot(), r) == LoadPromoStep(old(Snapshot()), reset, response)
      ensures Valid(Snapshot())
    {
      if !TreeTruthy(tree) {
        return Skipped;
      }
      if reset {
        page := 1;
      }
      mode := PromoMode;
      selectedCat := None;
      if !Truthy(promoCatId) {
        promoCatId := FindPromoCategoryId(tree.value);
      }
      if !Truthy(promoCatId) {
        return NoPromoCategory;
      }
      r := Show(ProductsRequest(city.value.id, promoCatId.value, page), response, !reset);
    }

    /** `selectCategory(cat)`. */
    method SelectCategory(cat: Node, response: Api.ApiResult<ProductsPage>) returns (r: Load)
      requires Valid(Snapshot()) && city.Some?
      modifies this
      ensures Step(Snapshot(), r) == SelectCategoryStep(old(Snapshot()), cat, response)
      ensures Valid(Snapshot())
    {
      selectedCat := Some(cat);
      mode := CategoryMode;
      page := 1;
      r := Show(ProductsRequest(city.value.id, cat.id, page), response, false);
    }

    /** `loadMore()`. */
    method LoadMore(response: Api.ApiResult<ProductsPage>) returns (r: Load)
      requires Valid(Snapshot())
      modifies this
      ensures Step(Snapshot(), r) == LoadMoreStep(old(Snapshot()), response)
      ensures Valid(Snapshot())
    {
      if city.None? {
        return Skipped;
      }
      page := page + 1;
      if mode == CategoryMode && selectedCat.Some? {
        r := Show(ProductsRequest(city.value.id, selectedCat.value.id, page), response, true);
        return;
      }
      r := LoadPromo(false, response);
    }

    /** `initData()` without the offers banner. */
    method InitData(store: Cache.Storage<TreeValue>, now: int, treeResponse: Api.ApiResult<Option<TreeValue>>,
                    written: int, accepted: bool, catParam: Option<string>, response: Api.ApiResult<ProductsPage>)
      returns (t: TreeLoad, r: Load)
      requires Valid(Snapshot()) && city.Some?
      modifies this, store
      ensures var key := Cache.TreeKey(old(city).value.id);
        var cached := Cache.Lookup(old(store.items), key, Cache.TreeCacheTtl, now);
        var (tl, st) := InitDataStep(old(Snapshot()), cached, treeResponse, catParam, response);
        && t == tl && Step(Snapshot(), r) == st
        && store.items == if !TreeTruthy(cached) && treeResponse.Success? && accepted
                          then old(store.items)[key := Cache.CacheEntry(Some(written), treeResponse.json)]
                          else old(store.items)
      ensures Valid(Snapshot())
    {
      t := LoadTree(store, now, treeResponse, written, accepted);
      if t.TreeFailed? {
        return t, Skipped;
      }
      var cat := OpenedCategory(tree, catParam);
      if cat.Some? {
        r := SelectCategory(cat.value, response);
      } else {
        r := LoadPromo(true, response);
      }
    }
  }
}
