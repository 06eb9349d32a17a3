/**
 * The product list page: the filter bar, the column sort, the row
 * checkboxes with "select all", the bulk delete, and the rows shown.
 * `Number(...)` of the price bounds is the parameter `toNumber`, whose
 * `None` stands for NaN.
 */
module ProductList {
  import opened Common
  import opened Catalog
  import opened Sorting
  import opened Selection

  /** The sortable columns. */
  datatype Column = CodeColumn | NameColumn | PriceColumn | StockColumn

  function ColumnValue(p: Product, c: Column): SortValue {
    match c
    case CodeColumn => Text(p.code)
    case NameColumn => Text(p.name)
    case PriceColumn => Num(p.sellPrice)
    case StockColumn => Num(p.stock as real)
  }

  datatype Page = Page(
    products: seq<Product>,
    filters: Filters,
    sort: SortConfig<Column>,
    selection: SelectionState)

  /** The page as it opens on the loaded rows: sorted by code, ascending. */
  function InitialPage(loaded: seq<Product>): Page {
    Page(loaded, Filters("", "", "", "", false, ""), SortConfig(CodeColumn, Asc), NothingSelected)
  }

  /** `handleFilterChange` on this page. */
  function HandleFilterChange(p: Page, change: FilterChange): (r: Page)
    ensures r == p.(filters := r.filters)
    ensures r.filters == Catalog.HandleFilterChange(p.filters, change)
  {
    p.(filters := Catalog.HandleFilterChange(p.filters, change))
  }

  /** `handleSort` on this page. */
  function HandleSortColumn(p: Page, c: Column): (r: Page)
    ensures r.sort.key == c
    ensures r.sort.direction == Desc <==> p.sort.key == c && p.sort.direction == Asc
    ensures r == p.(sort := r.sort)
  {
    p.(sort := HandleSort(p.sort, c))
  }

  /** `handleSelectAll`: checking selects every loaded product id (not
      just the shown ones); unchecking clears the selection. */
  function HandleSelectAll(p: Page, checked: bool): (r: Page)
    ensures r == p.(selection := r.selection)
    ensures r.selection.selectAll == checked
    ensures checked ==> forall i :: 0 <= i < |p.products| ==> p.products[i].id in r.selection.selected
    ensures checked ==> SelectedAmong(r.selection, Ids(p.products))
    ensures !checked ==> r.selection.selected == []
  {
    p.(selection := SelectAll(p.selection, checked, Ids(p.products)))
  }

  /** `handleSelectProduct`: flips one id and nothing else. */
  function HandleSelectProduct(p: Page, id: int): (r: Page)
    ensures r == p.(selection := r.selection)
    ensures id in r.selection.selected <==> id !in p.selection.selected
    ensures forall y :: y != id ==> (y in r.selection.selected <==> y in p.selection.selected)
    ensures NoDuplicates(p.selection.selected) ==> NoDuplicates(r.selection.selected)
  {
    p.(selection := SelectOne(p.selection, id))
  }

  datatype DeleteOutcome = NothingToDelete | Cancelled | Deleted

  /** `handleDeleteSelected`: an empty selection is an error and changes
      nothing; an unconfirmed delete changes nothing; a confirmed one
      reloads the list (`reloaded`) and clears both the selection and the
      "select all" checkbox. */
  function HandleDeleteSelected(p: Page, confirmed: bool, reloaded: seq<Product>): (r: (DeleteOutcome, Page))
    ensures r.0 == NothingToDelete <==> |p.selection.selected| == 0
    ensures r.0 != Deleted ==> r.1 == p
    ensures r.0 == Deleted <==> |p.selection.selected| > 0 && confirmed
    ensures r.0 == Deleted ==>
      r.1.selection.selected == [] && !r.1.selection.selectAll && r.1.products == reloaded
      && r.1.filters == p.filters && r.1.sort == p.sort
  {
    if |p.selection.selected| == 0 then (NothingToDelete, p)
    else if !confirmed then (Cancelled, p)
    else (Deleted, p.(products := reloaded, selection := NothingSelected))
  }

  /** `sortedProducts`. */
  function SortedProducts(ps: seq<Product>, sort: SortConfig<Column>): (r: seq<Product>)
    ensures multiset(r) == multiset(ps)
    ensures DistinctKeys(ps, (q: Product) => ColumnValue(q, sort.key)) ==>
      forall i, j :: 0 <= i < j < |r| ==>
        Precedes(ColumnValue(r[i], sort.key), ColumnValue(r[j], sort.key), sort.direction)
  {
    var key := (q: Product) => ColumnValue(q, sort.key);
    if DistinctKeys(ps, key) then
      SortByOrdered(ps, key, sort.direction);
      SortBy(ps, key, sort.direction)
    else
      SortBy(ps, key, sort.direction)
  }

  /** A price bound: an empty bound is off; otherwise `Number(bound)` is
      compared, and NaN fails every comparison. */
  predicate AtLeast(price: real, bound: string, toNumber: string -> Option<real>) {
    !Truthy(bound) || (toNumber(bound).Some? && price >= toNumber(bound).value)
  }

  predicate AtMost(price: real, bound: string, toNumber: string -> Option<real>) {
    !Truthy(bound) || (toNumber(bound).Some? && price <= toNumber(bound).value)
  }

  /** The filter of the list page: the five tests all hold. */
  predicate Passes(p: Product, f: Filters, toNumber: string -> Option<real>) {
    && (ContainsIgnoringCase(p.name, f.searchTerm) || ContainsIgnoringCase(p.code, f.searchTerm)
        || ContainsIgnoringCase(p.barcode, f.searchTerm))
    && MatchesCategory(p, f.category)
    && AtLeast(p.sellPrice, f.minPrice, toNumber)
    && AtMost(p.sellPrice, f.maxPrice, toNumber)
    && MatchesStock(p, f.inStock)
  }

  /** `filteredProducts`: the sorted rows passing all five tests, in
      sorted order. */
  function FilteredProducts(sorted: seq<Product>, f: Filters, toNumber: string -> Option<real>): (r: seq<Product>)
    ensures forall p :: p in r <==> (p in sorted
      && (ContainsIgnoringCase(p.name, f.searchTerm) || ContainsIgnoringCase(p.code, f.searchTerm)
          || ContainsIgnoringCase(p.barcode, f.searchTerm))
      && (f.category == "" || p.category == f.category)
      && (f.minPrice == "" || (toNumber(f.minPrice).Some? && p.sellPrice >= toNumber(f.minPrice).value))
      && (f.maxPrice == "" || (toNumber(f.maxPrice).Some? && p.sellPrice <= toNumber(f.maxPrice).value))
      && (!f.inStock || p.stock > 0))
    ensures forall p :: multiset(r)[p] == if Passes(p, f, toNumber) then multiset(sorted)[p] else 0
    ensures IsSubsequence(r, sorted)
  {
    FilterIsSubsequence(sorted, (p: Product) => Passes(p, f, toNumber));
    Filter(sorted, (p: Product) => Passes(p, f, toNumber))
  }

  /** A price bound that is not a number hides every product. */
  lemma UnparsableBoundHidesAll(sorted: seq<Product>, f: Filters, toNumber: string -> Option<real>)
    requires Truthy(f.minPrice) && toNumber(f.minPrice).None?
    ensures FilteredProducts(sorted, f, toNumber) == []
  {
    var r := FilteredProducts(sorted, f, toNumber);
    assert forall p :: p !in r;
  }

  /** With the filters the page opens with, every loaded product is shown,
      in sorted order. */
  lemma InitialFiltersShowAll(sorted: seq<Product>, toNumber: string -> Option<real>)
    ensures FilteredProducts(sorted, Filters("", "", "", "", false, ""), toNumber) == sorted
  {
    var f := Filters("", "", "", "", false, "");
    forall p | p in sorted
      ensures Passes(p, f, toNumber)
    {
      DefaultTestsPass(p);
    }
    FilterAll(sorted, (p: Product) => Passes(p, f, toNumber));
  }

  /** What the table shows. */
  function VisibleProducts(p: Page, toNumber: string -> Option<real>): (r: seq<Product>)
    ensures |r| <= |p.products|
    ensures forall q :: q in r <==> q in p.products && Passes(q, p.filters, toNumber)
  {
    var sorted := SortedProducts(p.products, p.sort);
    assert forall q :: q in sorted <==> q in multiset(sorted);
    assert |sorted| == |multiset(sorted)| == |p.products|;
    FilteredProducts(sorted, p.filters, toNumber)
  }
}
