/**
 * What the product pages share: the product row, the filter record with
 * its `handleFilterChange`, and the text and category tests every page's
 * filter is built from.
 */
module Catalog {
  import opened Common

  /** A loaded product row (the fields the list pages read). */
  datatype Product = Product(
    id: int,
    code: string,
    name: string,
    category: string,
    barcode: string,
    sellPrice: real,
    stock: int)

  /** The filter record. Each page uses a subset of the fields:
      the product list all but `priceRange`, the price list `searchTerm`,
      `category`, `priceRange` and `inStock`, the batch pages `searchTerm`
      and `category` (the batch price page also carries `priceRange`). */
  datatype Filters = Filters(
    searchTerm: string,
    category: string,
    minPrice: string,
    maxPrice: string,
    inStock: bool,
    priceRange: string)

  /** The initial filters: nothing typed, no category, `priceRange` 'all'. */
  const InitialFilters := Filters("", "", "", "", false, "all")

  /** One `handleFilterChange(name, value)` call, by filter name. */
  datatype FilterChange =
    | SetSearchTerm(term: string)
    | SetCategory(category: string)
    | SetMinPrice(minPrice: string)
    | SetMaxPrice(maxPrice: string)
    | SetInStock(inStock: bool)
    | SetPriceRange(priceRange: string)

  /** `setFilters(prev => ({ ...prev, [name]: value }))`: the named filter
      takes the new value and every other filter keeps its own. */
  function HandleFilterChange(f: Filters, change: FilterChange): (r: Filters)
    ensures r.searchTerm == (if change.SetSearchTerm? then change.term else f.searchTerm)
    ensures r.category == (if change.SetCategory? then change.category else f.category)
    ensures r.minPrice == (if change.SetMinPrice? then change.minPrice else f.minPrice)
    ensures r.maxPrice == (if change.SetMaxPrice? then change.maxPrice else f.maxPrice)
    ensures r.inStock == (if change.SetInStock? then change.inStock else f.inStock)
    ensures r.priceRange == (if change.SetPriceRange? then change.priceRange else f.priceRange)
  {
    match change
    case SetSearchTerm(t) => f.(searchTerm := t)
    case SetCategory(c) => f.(category := c)
    case SetMinPrice(m) => f.(minPrice := m)
    case SetMaxPrice(m) => f.(maxPrice := m)
    case SetInStock(b) => f.(inStock := b)
    case SetPriceRange(p) => f.(priceRange := p)
  }

  /** Setting a filter to the value it already has changes nothing, and a
      second change of the same filter overrides the first. */
  lemma FilterChangeOverrides(f: Filters, c1: FilterChange, c2: FilterChange)
    requires c1.SetSearchTerm? == c2.SetSearchTerm? && c1.SetCategory? == c2.SetCategory?
    requires c1.SetMinPrice? == c2.SetMinPrice? && c1.SetMaxPrice? == c2.SetMaxPrice?
    requires c1.SetInStock? == c2.SetInStock? && c1.SetPriceRange? == c2.SetPriceRange?
    ensures HandleFilterChange(HandleFilterChange(f, c1), c2) == HandleFilterChange(f, c2)
  {
  }

  /** `name` or `code` contains the search term, ignoring case. */
  predicate MatchesNameOrCode(p: Product, term: string) {
    ContainsIgnoringCase(p.name, term) || ContainsIgnoringCase(p.code, term)
  }

  /** `!filters.category || product.category === filters.category`. */
  predicate MatchesCategory(p: Product, category: string) {
    !Truthy(category) || p.category == category
  }

  /** `!filters.inStock || product.stock > 0`. */
  predicate MatchesStock(p: Product, inStock: bool) {
    !inStock || p.stock > 0
  }

  /** The ids of the loaded rows, in order: `products.map(p => p.id)`. */
  function Ids(ps: seq<Product>): (r: seq<int>)
    ensures |r| == |ps|
    ensures forall i :: 0 <= i < |ps| ==> r[i] == ps[i].id
  {
    seq(|ps|, i requires 0 <= i < |ps| => ps[i].id)
  }

  /** The empty search term, no category and no stock requirement let
      every product through. */
  lemma DefaultTestsPass(p: Product)
    ensures MatchesNameOrCode(p, "")
    ensures MatchesCategory(p, "")
    ensures MatchesStock(p, false)
  {
    ContainsEmpty(Lower(p.name));
  }
  /** The test of the two batch pages' filter. */
  predicate PassesNameAndCategory(p: Product, f: Filters) {
    MatchesNameOrCode(p, f.searchTerm) && MatchesCategory(p, f.category)
  }

  /** The filter of the two batch pages (prices and barcodes): name or
      code contains the term ignoring case, and the category is unset or
      equal. `row` gives the product a list entry stands for. */
  function FilterByNameAndCategory<T(!new)>(rows: seq<T>, row: T -> Product, f: Filters): (r: seq<T>)
    ensures forall x :: x in r <==> (x in rows
      && (ContainsIgnoringCase(row(x).name, f.searchTerm) || ContainsIgnoringCase(row(x).code, f.searchTerm))
      && (f.category == "" || row(x).category == f.category))
    ensures forall x :: multiset(r)[x] == if PassesNameAndCategory(row(x), f) then multiset(rows)[x] else 0
    ensures IsSubsequence(r, rows)
    ensures f.searchTerm == "" && f.category == "" ==> r == rows
  {
    var keep := (x: T) => PassesNameAndCategory(row(x), f);
    FilterIsSubsequence(rows, keep);
    if f.searchTerm == "" && f.category == "" then
      NoFilterKeepsAll(rows, row, f);
      Filter(rows, keep)
    else
      Filter(rows, keep)
  }

  lemma NoFilterKeepsAll<T(!new)>(rows: seq<T>, row: T -> Product, f: Filters)
    requires f.searchTerm == "" && f.category == ""
    ensures Filter(rows, (x: T) => PassesNameAndCategory(row(x), f)) == rows
  {
    var keep := (x: T) => PassesNameAndCategory(row(x), f);
    forall x | x in rows
      ensures keep(x)
    {
      DefaultTestsPass(row(x));
    }
    FilterAll(rows, keep);
  }
}
