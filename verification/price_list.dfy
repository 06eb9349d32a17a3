/**
 * The price list page: its filter (search, category, in-stock; the
 * price-range select is stored but never consulted) and the choice of
 * what the body shows: the loading spinner, the "nothing found" notice, or
 * the renderer of the chosen view.
 */
module PriceList {
  import opened Common
  import opened Catalog

  datatype Page = Page(loading: bool, products: seq<Product>, filters: Filters, view: string)

  /** The page while its products load: no search, no category, price
      range 'all', not only in stock, the table view. */
  const InitialPage := Page(true, [], InitialFilters, "table")

  /** `handleFilterChange` on this page. */
  function HandleFilterChange(p: Page, change: FilterChange): (r: Page)
    ensures r == p.(filters := r.filters)
    ensures r.filters == Catalog.HandleFilterChange(p.filters, change)
  {
    p.(filters := Catalog.HandleFilterChange(p.filters, change))
  }

  /** The three tests of `filteredProducts`. */
  predicate Passes(p: Product, f: Filters) {
    MatchesNameOrCode(p, f.searchTerm) && MatchesCategory(p, f.category) && MatchesStock(p, f.inStock)
  }

  /** `filteredProducts`: the loaded rows passing all three tests, in
      loaded order. */
  function FilteredProducts(ps: seq<Product>, f: Filters): (r: seq<Product>)
    ensures forall q :: q in r <==> (q in ps
      && (ContainsIgnoringCase(q.name, f.searchTerm) || ContainsIgnoringCase(q.code, f.searchTerm))
      && (f.category == "" || q.category == f.category)
      && (!f.inStock || q.stock > 0))
    ensures forall q :: multiset(r)[q] == if Passes(q, f) then multiset(ps)[q] else 0
    ensures IsSubsequence(r, ps)
  {
    FilterIsSubsequence(ps, (q: Product) => Passes(q, f));
    Filter(ps, (q: Product) => Passes(q, f))
  }

  /** The price-range filter has no effect on the rows shown. */
  lemma {:induction false} PriceRangeIgnored(ps: seq<Product>, f: Filters, range: string)
    ensures FilteredProducts(ps, f.(priceRange := range)) == FilteredProducts(ps, f)
    decreases |ps|
  {
    if |ps| > 0 {
      PriceRangeIgnored(ps[1..], f, range);
    }
  }

  /** The filters the page opens with keep every product, in order. */
  lemma InitialFiltersKeepAll(ps: seq<Product>)
    ensures FilteredProducts(ps, InitialFilters) == ps
  {
    forall q | q in ps
      ensures Passes(q, InitialFilters)
    {
      DefaultTestsPass(q);
    }
    FilterAll(ps, (q: Product) => Passes(q, InitialFilters));
  }

  /** The three renderers of the rows. */
  datatype Renderer = TableView | ListView | GridView

  /** What the body of the page shows. */
  datatype Body = Spinner | NothingFound | Rows(renderers: set<Renderer>)

  /** The three `view === ...` tests. */
  function Renderers(view: string): (r: set<Renderer>)
    ensures TableView in r <==> view == "table"
    ensures ListView in r <==> view == "list"
    ensures GridView in r <==> view == "grid"
  {
    (if view == "table" then {TableView} else {})
    + (if view == "list" then {ListView} else {})
    + (if view == "grid" then {GridView} else {})
  }

  /** At most one renderer is drawn, and exactly one when the view is one
      of the three names. */
  lemma OneRendererAtMost(view: string)
    ensures |Renderers(view)| <= 1
    ensures |Renderers(view)| == 1 <==> view in {"table", "list", "grid"}
  {
    var r := Renderers(view);
    if view == "table" {
      assert r == {TableView};
    } else if view == "list" {
      assert r == {ListView};
    } else if view == "grid" {
      assert r == {GridView};
    } else {
      assert r == {};
    }
  }

  /** The body: the spinner while loading, else the notice when no row
      passes, else the chosen renderers. */
  function RenderBody(p: Page): (b: Body)
    ensures b == Spinner <==> p.loading
    ensures b == NothingFound <==> !p.loading && |FilteredProducts(p.products, p.filters)| == 0
    ensures b.Rows? ==> b.renderers == Renderers(p.view) && |FilteredProducts(p.products, p.filters)| > 0
  {
    if p.loading then Spinner
    else if |FilteredProducts(p.products, p.filters)| == 0 then NothingFound
    else Rows(Renderers(p.view))
  }
}
