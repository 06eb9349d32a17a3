/**
 * The batch barcode page: each listed product carries the number of
 * labels to print; the page keeps a checkbox selection, a filter and the
 * shared label settings, and `handlePrint` totals the labels of the
 * selected rows. `parseInt` of the count input is passed in as an
 * `Option<int>`, whose `None` stands for NaN.
 */
module PrintBarcodes {
  import opened Common
  import opened Catalog
  import opened Selection
  import opened Labels

  /** A listed product with its label count. */
  datatype Row = Row(product: Product, printCount: int)

  function RowIds(rows: seq<Row>): (r: seq<int>)
    ensures |r| == |rows|
    ensures forall i :: 0 <= i < |rows| ==> r[i] == rows[i].product.id
  {
    seq(|rows|, i requires 0 <= i < |rows| => rows[i].product.id)
  }

  /** `Math.max(1, parseInt(value) || 1)`: NaN and 0 are falsy and become
      1, a negative count becomes 1, a positive one is kept. */
  function CountFromInput(parsed: Option<int>): (n: int)
    ensures n >= 1
    ensures parsed.Some? && parsed.value >= 1 ==> n == parsed.value
    ensures parsed.None? || parsed.value < 1 ==> n == 1
  {
    var orOne := if parsed.None? || parsed.value == 0 then 1 else parsed.value;
    if 1 >= orOne then 1 else orOne
  }

  /** `handlePrintCountChange(productId, value)`: the rows of that product
      get the new count; every other row, and every product field, stays. */
  function HandlePrintCountChange(rows: seq<Row>, id: int, parsed: Option<int>): (r: seq<Row>)
    ensures |r| == |rows|
    ensures forall i :: 0 <= i < |rows| ==> r[i].product == rows[i].product
    ensures forall i :: 0 <= i < |rows| && rows[i].product.id != id ==> r[i] == rows[i]
    ensures forall i :: 0 <= i < |rows| && rows[i].product.id == id ==> r[i].printCount == CountFromInput(parsed)
  {
    seq(|rows|, i requires 0 <= i < |rows| =>
      if rows[i].product.id == id then rows[i].(printCount := CountFromInput(parsed)) else rows[i])
  }

  /** The sum of the label counts of some rows. */
  function Sum(rows: seq<Row>): int {
    if |rows| == 0 then 0 else rows[0].printCount + Sum(rows[1..])
  }

  /** Every row asks for at least one label. */
  predicate CountsPositive(rows: seq<Row>) {
    forall i :: 0 <= i < |rows| ==> rows[i].printCount >= 1
  }

  /** With every count at least one, the total is at least the number of
      rows. */
  lemma {:induction false} SumAtLeastLength(rows: seq<Row>)
    requires CountsPositive(rows)
    ensures Sum(rows) >= |rows|
    decreases |rows|
  {
    if |rows| > 0 {
      assert CountsPositive(rows[1..]) by {
        forall i | 0 <= i < |rows[1..]|
          ensures rows[1..][i].printCount >= 1
        {
          assert rows[1..][i] == rows[i + 1];
        }
      }
      SumAtLeastLength(rows[1..]);
    }
  }

  /** `products.filter(p => selectedProducts.includes(p.id))
      .reduce((sum, p) => sum + p.printCount, 0)`. */
  function TotalLabels(rows: seq<Row>, selected: seq<int>): int {
    Sum(Filter(rows, (x: Row) => x.product.id in selected))
  }

  /** The page state. */
  datatype Page = Page(
    rows: seq<Row>,
    selection: SelectionState,
    filters: Filters,
    settings: LabelSettings)

  /** The page on the loaded products: one label each. */
  function InitialPage(loaded: seq<Product>): (p: Page)
    ensures |p.rows| == |loaded|
    ensures forall i :: 0 <= i < |loaded| ==> p.rows[i] == Row(loaded[i], 1)
  {
    Page(seq(|loaded|, i requires 0 <= i < |loaded| => Row(loaded[i], 1)),
         NothingSelected, InitialFilters, InitialSettings)
  }

  /** What the handlers keep true: every count is at least one and every
      selected id is a listed product. */
  predicate Consistent(p: Page) {
    CountsPositive(p.rows) && SelectedAmong(p.selection, RowIds(p.rows))
  }

  datatype Outcome = NoSelection | NoLabels | Queued(total: int)

  /** `handlePrint`: an empty selection is an error; so is a zero label
      total; otherwise the labels are queued. */
  function HandlePrint(p: Page): (r: Outcome)
    ensures r == NoSelection <==> |p.selection.selected| == 0
    ensures r == NoLabels <==> |p.selection.selected| > 0 && TotalLabels(p.rows, p.selection.selected) == 0
    ensures r.Queued? ==> r.total == TotalLabels(p.rows, p.selection.selected) != 0
  {
    if |p.selection.selected| == 0 then NoSelection
    else
      var total := TotalLabels(p.rows, p.selection.selected);
      if total == 0 then NoLabels else Queued(total)
  }

  /** On a consistent page the zero-total error cannot happen: a non-empty
      selection names a listed row, whose count is at least one. */
  lemma NoLabelsUnreachable(p: Page)
    requires Consistent(p)
    ensures HandlePrint(p) != NoLabels
    ensures |p.selection.selected| > 0 ==> HandlePrint(p).Queued? && HandlePrint(p).total >= 1
  {
    if |p.selection.selected| > 0 {
      var id := p.selection.selected[0];
      assert id in RowIds(p.rows);
      var k :| 0 <= k < |p.rows| && RowIds(p.rows)[k] == id;
      var keep := (x: Row) => x.product.id in p.selection.selected;
      var picked := Filter(p.rows, keep);
      assert p.rows[k] in picked;
      assert CountsPositive(picked) by {
        forall i | 0 <= i < |picked|
          ensures picked[i].printCount >= 1
        {
          assert picked[i] in p.rows;
        }
      }
      SumAtLeastLength(picked);
    }
  }

  /** `handlePrintCountChange` on this page. */
  function HandleCountChange(p: Page, id: int, parsed: Option<int>): (r: Page)
    ensures r == p.(rows := r.rows)
    ensures r.rows == HandlePrintCountChange(p.rows, id, parsed)
  {
    p.(rows := HandlePrintCountChange(p.rows, id, parsed))
  }

  /** `handleSelectAll` on this page. */
  function HandleSelectAll(p: Page, checked: bool): (r: Page)
    ensures r == p.(selection := r.selection)
    ensures r.selection.selectAll == checked
    ensures checked ==> forall i :: 0 <= i < |p.rows| ==> p.rows[i].product.id in r.selection.selected
    ensures !checked ==> r.selection.selected == []
  {
    p.(selection := SelectAll(p.selection, checked, RowIds(p.rows)))
  }

  /** `handleSelectProduct` on this page. */
  function HandleSelectProduct(p: Page, id: int): (r: Page)
    ensures r == p.(selection := r.selection)
    ensures id in r.selection.selected <==> id !in p.selection.selected
    ensures forall y :: y != id ==> (y in r.selection.selected <==> y in p.selection.selected)
  {
    p.(selection := SelectOne(p.selection, id))
  }

  /** `handleFilterChange` on this page. */
  function HandleFilterChange(p: Page, change: FilterChange): (r: Page)
    ensures r == p.(filters := r.filters)
    ensures r.filters == Catalog.HandleFilterChange(p.filters, change)
  {
    p.(filters := Catalog.HandleFilterChange(p.filters, change))
  }

  /** `handleSettingChange` on this page. */
  function HandleSetting(p: Page, change: SettingChange): (r: Page)
    ensures r == p.(settings := r.settings)
    ensures r.settings == HandleSettingChange(p.settings, change)
  {
    p.(settings := HandleSettingChange(p.settings, change))
  }

  /** The page opens consistent, and every handler keeps it so (the row
      checkboxes only offer listed products). */
  lemma HandlersKeepConsistent(p: Page, loaded: seq<Product>, id: int, parsed: Option<int>, checked: bool,
                               fc: FilterChange, sc: SettingChange)
    requires Consistent(p)
    ensures Consistent(InitialPage(loaded))
    ensures Consistent(HandleCountChange(p, id, parsed))
    ensures Consistent(HandleSelectAll(p, checked))
    ensures id in RowIds(p.rows) ==> Consistent(HandleSelectProduct(p, id))
    ensures Consistent(HandleFilterChange(p, fc))
    ensures Consistent(HandleSetting(p, sc))
  {
    assert RowIds(HandleCountChange(p, id, parsed).rows) == RowIds(p.rows);
  }

  /** `filteredProducts`: the rows whose name or code contains the term
      (ignoring case) and whose category matches, in list order. */
  function VisibleRows(p: Page): (r: seq<Row>)
    ensures forall x :: x in r <==> (x in p.rows
      && (ContainsIgnoringCase(x.product.name, p.filters.searchTerm)
          || ContainsIgnoringCase(x.product.code, p.filters.searchTerm))
      && (p.filters.category == "" || x.product.category == p.filters.category))
    ensures IsSubsequence(r, p.rows)
    ensures p.filters.searchTerm == "" && p.filters.category == "" ==> r == p.rows
  {
    FilterByNameAndCategory(p.rows, (x: Row) => x.product, p.filters)
  }
}
