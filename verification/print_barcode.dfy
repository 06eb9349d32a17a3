/**
 * The single-product barcode page: a search box whose effect looks
 * products up once the query is long enough, the pick from the result
 * list, the label settings with the label count, and the print guards.
 * The search's answer is the parameter `found`; `parseInt` of the number
 * inputs arrives as an `Option<int>`, whose `None` stands for NaN.
 */
module PrintBarcode {
  import opened Common
  import opened Labels

  /** A product as the search returns it. */
  datatype SearchProduct = SearchProduct(id: int, code: string, name: string, barcode: string, price: real)

  /** This page's settings: the label count and the shared settings. */
  datatype Settings = Settings(count: Option<int>, labels: LabelSettings)

  const InitialSettings := Settings(Some(1), Labels.InitialSettings)

  datatype Page = Page(
    selected: Option<SearchProduct>,
    query: string,
    results: seq<SearchProduct>,
    showResults: bool,
    settings: Settings)

  const InitialPage := Page(None, "", [], false, InitialSettings)

  /** The shortest query that starts a search. */
  const MinQueryLength := 2

  /** The search effect, run after `searchQuery` changes: a query of at
      least two characters fetches `found` and opens the result list;
      a shorter one empties and closes it. */
  function SearchEffect(p: Page, found: seq<SearchProduct>): (r: Page)
    ensures r.showResults <==> |p.query| >= MinQueryLength
    ensures r.results == (if |p.query| >= MinQueryLength then found else [])
    ensures r == p.(results := r.results, showResults := r.showResults)
  {
    if |p.query| >= MinQueryLength then p.(results := found, showResults := true)
    else p.(results := [], showResults := false)
  }

  /** A new query: the effect runs only when the query is a different
      string from the current one. */
  function ChangeQuery(p: Page, q: string, found: seq<SearchProduct>): (r: Page)
    ensures r.query == q && r.selected == p.selected && r.settings == p.settings
    ensures q == p.query ==> r == p
    ensures q != p.query ==> (r.showResults <==> |q| >= MinQueryLength)
  {
    if q == p.query then p else SearchEffect(p.(query := q), found)
  }

  /** The text the query box shows after a pick: `${code} - ${name}`. */
  function PickLabel(prod: SearchProduct): (s: string)
    ensures |s| == |prod.code| + 3 + |prod.name|
    ensures |s| >= MinQueryLength
  {
    prod.code + " - " + prod.name
  }

  /** `handleProductSelect` alone: the product is picked, its label is put
      in the query box, and the result list is closed. */
  function HandleProductSelect(p: Page, prod: SearchProduct): (r: Page)
    ensures r.selected == Some(prod) && r.query == PickLabel(prod) && !r.showResults
    ensures r.results == p.results && r.settings == p.settings
  {
    p.(selected := Some(prod), query := PickLabel(prod), showResults := false)
  }

  /** A pick as it plays out: the handler, then the search effect, which
      runs again because the query changed. */
  function PickProduct(p: Page, prod: SearchProduct, found: seq<SearchProduct>): (r: Page)
    ensures r.selected == Some(prod) && r.query == PickLabel(prod)
    ensures PickLabel(prod) == p.query ==> !r.showResults
  {
    var picked := HandleProductSelect(p, prod);
    if picked.query == p.query then picked else SearchEffect(picked, found)
  }

  /** The pick does not keep the result list closed: whenever the label
      differs from the typed query, the effect reopens the list, since
      every label is long enough to trigger a search. */
  lemma PickReopensResults(p: Page, prod: SearchProduct, found: seq<SearchProduct>)
    requires PickLabel(prod) != p.query
    ensures PickProduct(p, prod, found).showResults
    ensures PickProduct(p, prod, found).results == found
  {
  }

  /** The search effect that leaves the list alone when the query is the
      label of the picked product. */
  function SearchEffectAfterPick(p: Page, found: seq<SearchProduct>): (r: Page)
    ensures p.selected.Some? && p.query == PickLabel(p.selected.value) ==> r == p
    ensures !(p.selected.Some? && p.query == PickLabel(p.selected.value)) ==> r == SearchEffect(p, found)
  {
    if p.selected.Some? && p.query == PickLabel(p.selected.value) then p else SearchEffect(p, found)
  }

  /** A pick with that effect: the result list stays closed. */
  function PickProductClosing(p: Page, prod: SearchProduct, found: seq<SearchProduct>): (r: Page)
    ensures r.selected == Some(prod) && r.query == PickLabel(prod)
    ensures !r.showResults
  {
    var picked := HandleProductSelect(p, prod);
    if picked.query == p.query then picked else SearchEffectAfterPick(picked, found)
  }

  /** Typing a query other than the picked product's label still searches
      exactly as before. */
  lemma TypedQueriesStillSearch(p: Page, q: string, found: seq<SearchProduct>)
    requires q != p.query
    requires p.selected.None? || q != PickLabel(p.selected.value)
    ensures SearchEffectAfterPick(p.(query := q), found) == ChangeQuery(p, q, found)
  {
  }

  /** One `handleSettingChange(name, value)` call on this page. */
  datatype SettingChange = SetCount(count: Option<int>) | SetLabel(change: Labels.SettingChange)

  function HandleSettingChange(p: Page, c: SettingChange): (r: Page)
    ensures r == p.(settings := r.settings)
    ensures r.settings.count == (if c.SetCount? then c.count else p.settings.count)
    ensures c.SetCount? ==> r.settings.labels == p.settings.labels
    ensures c.SetLabel? ==> r.settings.labels == Labels.HandleSettingChange(p.settings.labels, c.change)
  {
    match c
    case SetCount(n) => p.(settings := p.settings.(count := n))
    case SetLabel(change) => p.(settings := p.settings.(labels := Labels.HandleSettingChange(p.settings.labels, change)))
  }

  datatype Outcome = NoProduct | BadCount | Queued

  /** `handlePrint` as written: no picked product is reported first; then
      a count below one; a NaN count is not below one, so it passes. */
  function HandlePrint(p: Page): (r: Outcome)
    ensures r == NoProduct <==> p.selected.None?
    ensures r == BadCount <==> p.selected.Some? && p.settings.count.Some? && p.settings.count.value < 1
    ensures r == Queued <==> p.selected.Some? && (p.settings.count.None? || p.settings.count.value >= 1)
  {
    if p.selected.None? then NoProduct
    else if p.settings.count.Some? && p.settings.count.value < 1 then BadCount
    else Queued
  }

  /** Clearing the count box (`parseInt("")` is NaN) and printing queues
      the labels with no count. */
  lemma ClearedCountIsQueued(prod: SearchProduct)
    ensures HandlePrint(InitialPage.(selected := Some(prod), settings := InitialSettings.(count := None))) == Queued
  {
  }

  /** `handlePrint` with NaN rejected along with counts below one: a
      queued print always has a count of at least one. */
  function HandlePrintChecked(p: Page): (r: Outcome)
    ensures r == NoProduct <==> p.selected.None?
    ensures r == Queued <==> p.selected.Some? && p.settings.count.Some? && p.settings.count.value >= 1
    ensures p.settings.count.Some? ==> r == HandlePrint(p)
  {
    if p.selected.None? then NoProduct
    else if p.settings.count.None? || p.settings.count.value < 1 then BadCount
    else Queued
  }
}
