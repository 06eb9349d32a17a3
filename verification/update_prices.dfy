/**
 * The batch price update page: the change settings (increase or
 * decrease, by a percentage or by a fixed amount), `calculateNewPrice`,
 * the guarded `handleUpdatePrices`, and the page's selection and filter.
 * `parseFloat` is the parameter `parse`, whose `None` stands for NaN.
 */
module UpdatePrices {
  import opened Common
  import opened Catalog
  import opened Selection

  /** The `updateMethod` radio buttons. */
  datatype Method = Percentage | Fixed

  /** The `updateType` radio buttons. */
  datatype Kind = Increase | Decrease

  /** The three settings of a change. */
  datatype Update = Update(mode: Method, kind: Kind, value: string)

  /** `Math.round` on the values used here: the nearest integer, halves
      rounding up. */
  function Round(x: real): (n: int)
    ensures n as real <= x + 0.5 < n as real + 1.0
  {
    (x + 0.5).Floor
  }

  lemma RoundIntegral(n: int)
    ensures Round(n as real) == n
  {
  }

  lemma RoundMonotone(x: real, y: real)
    requires x <= y
    ensures Round(x) <= Round(y)
  {
  }

  /** A price with no fractional part. */
  predicate Integral(x: real) {
    x == x.Floor as real
  }

  /** The exact, unrounded result of a percentage change. */
  function Scaled(current: real, kind: Kind, v: real): real {
    current * (if kind == Increase then 1.0 + v / 100.0 else 1.0 - v / 100.0)
  }

  /** `calculateNewPrice`: a NaN or negative change value leaves the price
      as it is; a percentage change rounds the scaled price to the nearest
      integer; a fixed change adds or subtracts the amount, with no floor
      at zero. */
  function CalculateNewPrice(current: real, u: Update, parse: string -> Option<real>): (r: real)
    ensures parse(u.value).None? || parse(u.value).value < 0.0 ==> r == current
    ensures parse(u.value).Some? && parse(u.value).value >= 0.0 && u.mode == Percentage ==>
      Integral(r)
      && Scaled(current, u.kind, parse(u.value).value) - 0.5 < r <= Scaled(current, u.kind, parse(u.value).value) + 0.5
    ensures parse(u.value).Some? && parse(u.value).value >= 0.0 && u.mode == Fixed ==>
      (u.kind == Increase ==> r - current == parse(u.value).value)
      && (u.kind == Decrease ==> current - r == parse(u.value).value)
  {
    match parse(u.value)
    case None => current
    case Some(v) =>
      if v < 0.0 then current
      else if u.mode == Percentage then Round(Scaled(current, u.kind, v)) as real
      else if u.kind == Increase then current + v
      else current - v
  }

  /** A fixed decrease undoes a fixed increase by the same amount. */
  lemma FixedChangeReversible(current: real, value: string, parse: string -> Option<real>)
    ensures CalculateNewPrice(CalculateNewPrice(current, Update(Fixed, Increase, value), parse),
                              Update(Fixed, Decrease, value), parse) == current
  {
  }

  /** A percentage change is not reversible: ten percent up and then ten
      percent down takes 100 to 99. */
  lemma PercentageChangeNotReversible(parse: string -> Option<real>)
    requires parse("10") == Some(10.0)
    ensures CalculateNewPrice(100.0, Update(Percentage, Increase, "10"), parse) == 110.0
    ensures CalculateNewPrice(110.0, Update(Percentage, Decrease, "10"), parse) == 99.0
  {
    RoundIntegral(110);
    RoundIntegral(99);
  }

  /** A zero percent change leaves a whole price as it is. */
  lemma ZeroPercentKeepsPrice(current: real, kind: Kind, value: string, parse: string -> Option<real>)
    requires Integral(current)
    requires parse(value) == Some(0.0)
    ensures CalculateNewPrice(current, Update(Percentage, kind, value), parse) == current
  {
    RoundIntegral(current.Floor);
  }

  /** On a non-negative whole price, an increase never lowers the price and
      a decrease never raises it, by either method. */
  lemma ChangeIsMonotone(current: real, u: Update, parse: string -> Option<real>)
    requires Integral(current) && current >= 0.0
    ensures u.kind == Increase ==> CalculateNewPrice(current, u, parse) >= current
    ensures u.kind == Decrease ==> CalculateNewPrice(current, u, parse) <= current
  {
    if parse(u.value).Some? && parse(u.value).value >= 0.0 && u.mode == Percentage {
      var v := parse(u.value).value;
      RoundIntegral(current.Floor);
      if u.kind == Increase {
        assert current * (1.0 + v / 100.0) >= current;
        RoundMonotone(current, Scaled(current, u.kind, v));
      } else {
        assert current * (1.0 - v / 100.0) <= current;
        RoundMonotone(Scaled(current, u.kind, v), current);
      }
    }
  }

  /** A fixed decrease larger than the price gives a negative price. */
  lemma FixedDecreaseNotClamped(current: real, value: string, parse: string -> Option<real>)
    requires parse(value).Some? && parse(value).value > current && parse(value).value >= 0.0
    ensures CalculateNewPrice(current, Update(Fixed, Decrease, value), parse) < 0.0
  {
  }

  /** The page state. */
  datatype Page = Page(
    products: seq<Product>,
    selection: SelectionState,
    filters: Filters,
    update: Update)

  /** The page as it opens: an increase by a percentage, nothing typed. */
  function InitialPage(loaded: seq<Product>): Page {
    Page(loaded, NothingSelected, InitialFilters, Update(Percentage, Increase, ""))
  }

  /** The second guard of `handleUpdatePrices`: a non-empty change value
      that parses to a non-negative number. */
  predicate AcceptableValue(value: string, parse: string -> Option<real>) {
    Truthy(value) && parse(value).Some? && parse(value).value >= 0.0
  }

  datatype Outcome = NoSelection | InvalidValue | Updated

  /** `handleUpdatePrices`: an empty selection and then an unacceptable
      value are errors that change nothing; otherwise each selected
      product gets its new price and every other field and product stays. */
  function HandleUpdatePrices(p: Page, parse: string -> Option<real>): (r: (Outcome, Page))
    ensures r.0 == NoSelection <==> |p.selection.selected| == 0
    ensures r.0 == InvalidValue <==> |p.selection.selected| > 0 && !AcceptableValue(p.update.value, parse)
    ensures r.0 != Updated ==> r.1 == p
    ensures r.1 == p.(products := r.1.products)
    ensures |r.1.products| == |p.products|
    ensures forall i :: 0 <= i < |p.products| ==>
      r.1.products[i] == p.products[i].(sellPrice := r.1.products[i].sellPrice)
    ensures forall i :: 0 <= i < |p.products| && p.products[i].id !in p.selection.selected ==>
      r.1.products[i] == p.products[i]
    ensures r.0 == Updated ==> forall i :: 0 <= i < |p.products| && p.products[i].id in p.selection.selected ==>
      r.1.products[i].sellPrice == CalculateNewPrice(p.products[i].sellPrice, p.update, parse)
  {
    if |p.selection.selected| == 0 then (NoSelection, p)
    else if !AcceptableValue(p.update.value, parse) then (InvalidValue, p)
    else
      var updated := seq(|p.products|, i requires 0 <= i < |p.products| =>
        if p.products[i].id in p.selection.selected
        then p.products[i].(sellPrice := CalculateNewPrice(p.products[i].sellPrice, p.update, parse))
        else p.products[i]);
      (Updated, p.(products := updated))
  }

  /** Increasing the selected prices by a fixed amount and then decreasing
      them by the same amount gives back the original products. */
  lemma FixedUpdateRoundTrip(p: Page, value: string, parse: string -> Option<real>)
    ensures var up := HandleUpdatePrices(p.(update := Update(Fixed, Increase, value)), parse).1;
            var down := HandleUpdatePrices(up.(update := Update(Fixed, Decrease, value)), parse).1;
            down.products == p.products
  {
    var up := HandleUpdatePrices(p.(update := Update(Fixed, Increase, value)), parse).1;
    var down := HandleUpdatePrices(up.(update := Update(Fixed, Decrease, value)), parse).1;
    forall i | 0 <= i < |p.products|
      ensures down.products[i] == p.products[i]
    {
      FixedChangeReversible(p.products[i].sellPrice, value, parse);
    }
  }

  /** `handleSelectAll` on this page. */
  function HandleSelectAll(p: Page, checked: bool): (r: Page)
    ensures r == p.(selection := r.selection)
    ensures r.selection.selectAll == checked
    ensures checked ==> forall i :: 0 <= i < |p.products| ==> p.products[i].id in r.selection.selected
    ensures checked ==> SelectedAmong(r.selection, Ids(p.products))
    ensures !checked ==> r.selection.selected == []
  {
    p.(selection := SelectAll(p.selection, checked, Ids(p.products)))
  }

  /** `handleSelectProduct` on this page. */
  function HandleSelectProduct(p: Page, id: int): (r: Page)
    ensures r == p.(selection := r.selection)
    ensures id in r.selection.selected <==> id !in p.selection.selected
    ensures forall y :: y != id ==> (y in r.selection.selected <==> y in p.selection.selected)
  {
    p.(selection := SelectOne(p.selection, id))
  }

  /** `handleFilterChange` on this page. */
  function HandleFilterChange(p: Page, change: FilterChange): (r: Page)
    ensures r == p.(filters := r.filters)
    ensures r.filters == Catalog.HandleFilterChange(p.filters, change)
  {
    p.(filters := Catalog.HandleFilterChange(p.filters, change))
  }

  /** `filteredProducts`: the loaded rows whose name or code contains the
      term (ignoring case) and whose category matches, in loaded order. */
  function VisibleProducts(p: Page): (r: seq<Product>)
    ensures forall q :: q in r <==> (q in p.products
      && (ContainsIgnoringCase(q.name, p.filters.searchTerm) || ContainsIgnoringCase(q.code, p.filters.searchTerm))
      && (p.filters.category == "" || q.category == p.filters.category))
    ensures IsSubsequence(r, p.products)
    ensures p.filters.searchTerm == "" && p.filters.category == "" ==> r == p.products
  {
    FilterByNameAndCategory(p.products, (q: Product) => q, p.filters)
  }
}
