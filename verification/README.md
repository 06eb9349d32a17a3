# hesabdari-tailwind page logic in Dafny

A model of the logic inside the React accounting dashboard hesabdari-tailwind, with proofs about it.
The dashboard is written in Persian and built with Tailwind. Its pages keep their state in React hooks
and change it in event handlers. Here every handler is a pure function from the page state, plus the
event's inputs, to the new page state.

- **Form validators.** The new-product and new-person forms (`validateForm`), the new-service form (its
  inline checks) and the new-bank-account form (its early-return checks). Each validator gives an error
  map or a first failing check.
- **Checkbox selection.** `handleSelectProduct` and `handleSelectAll` of the product list, the batch
  price update and the batch barcode pages.
- **Sort and filter pipelines.**
  - The column sort toggle `handleSort`.
  - The comparator sort `[...rows].sort(cmp)`. Its comparator answers only 1 or -1.
  - The search, category, price and stock filters of the list pages.
- **Batch price update.** `calculateNewPrice` and the guarded `handleUpdatePrices`.
- **Barcode pages.**
  - Label counts and their total.
  - The label settings.
  - The single-product search and pick.
  - The print guards.
- **In-memory record pages** (vendors, shareholders, receipts, people).
  - Add with `id = length + 1`.
  - Edit by id and delete by id.
  - Case-sensitive search.
  - The status and payment-method label maps.
- **Sidebar.** The accordion `handleMenuToggle`, the `classNames` helper and the highlighting of the
  current link.

JavaScript behaviour is modelled explicitly where it matters:
- String truthiness: only `""` is falsy.
- `includes`: substring occurrence.
- `toLowerCase`: ASCII letters only.
- NaN: an `Option` whose `None` fails every comparison.
- `Math.round(x)`: `floor(x + 0.5)`.
- `parseInt(v) || 1`: NaN and 0 become 1.

`Number`, `parseFloat` and `parseInt` are function parameters, or parsed values passed in. The user's
answer to a confirm dialog is a boolean parameter. Rows that a page fetches, and today's date, are
parameters too.

Modules: `Common` (options, strings, filter, subsequences), `Selection`, `Sorting`, `Catalog` (the
product row and the filter record), `ProductForm`, `PersonForm`, `ServiceForm`, `Banks`, `ProductList`,
`UpdatePrices`, `Labels`, `PrintBarcodes`, `PrintBarcode`, `PriceList`, `Records` (the shared record-page
logic), `Vendors`, `Shareholders`, `Receives`, `People`, `Status`, `Sidebar`.

## Model

| member | source | states |
|---|---|---|
| Common.ContainsIffOccurs | src/pages/persons/list.jsx:24-28 | `includes` holds exactly when the term occurs at some position of the string |
| Common.Filter | src/pages/persons/list.jsx:24-28 | `filter` keeps exactly the elements passing the test, with their multiplicities, and never grows the list |
| Common.FilterIsSubsequence | src/pages/products/list.jsx:169-181 | a filtered list is an order-preserving subsequence of its input |
| Common.FilterAll | src/pages/persons/list.jsx:24-28 | a filter whose test holds everywhere returns its input unchanged |
| Selection.Without | src/pages/products/list.jsx:122-130 | `filter(id => id !== x)` removes every x, keeps every other id with its multiplicity, and keeps a duplicate-free list duplicate-free |
| Selection.Toggle | src/pages/products/list.jsx:122-130 | a toggle flips the membership of x only and never introduces duplicates |
| Selection.ToggleTwice | src/pages/products/list.jsx:122-130 | toggling twice restores membership of every id, and restores the exact list when x was not selected |
| Selection.SelectAll | src/pages/products/list.jsx:113-120 | checking selects every loaded id, unchecking empties the selection, and the checkbox state is stored |
| Selection.SelectOne | src/pages/products/list.jsx:122-130 | the row toggle flips one id, keeps the others and leaves "select all" as it was |
| Selection.HandlersKeepSelectionAmong | src/pages/products/list.jsx:113-130 | both handlers keep every selected id among the loaded ids |
| Sorting.HandleSort | src/pages/banking/banks.jsx:92-100 | the result sorts by the clicked key, descending exactly when that key was already ascending |
| Sorting.HandleSortRepeated | src/pages/products/list.jsx:103-111 | a second click on the same header flips the direction, and a third restores the first |
| Sorting.LessIsStrictOrder | src/pages/banking/banks.jsx:147-152 | the comparator's `<` is irreflexive, transitive and total on values of one kind |
| Sorting.PrecedesIsStrictOrder | src/pages/banking/banks.jsx:147-152 | "before" in either direction is a strict total order on values of one kind |
| Sorting.Insert | src/pages/banking/banks.jsx:147-152 | one insertion step adds exactly the element |
| Sorting.SortBy | src/pages/banking/banks.jsx:147-152 | the comparator sort returns a permutation of its input |
| Sorting.InsertOrdered | src/pages/banking/banks.jsx:147-152 | inserting a row with a new key into ordered rows keeps them ordered |
| Sorting.SortByOrdered | src/pages/banking/banks.jsx:147-152 | with distinct keys of one kind, the sort is strictly ordered in the configured direction |
| Catalog.HandleFilterChange | src/pages/products/list.jsx:99-101 | `{...prev, [name]: value}`: the named filter takes the value and every other filter keeps its own |
| Catalog.FilterChangeOverrides | src/pages/products/list.jsx:99-101 | a later change of the same filter overrides an earlier one |
| Catalog.Ids | src/pages/products/list.jsx:113-120 | `products.map(p => p.id)`: the ids, position by position |
| Catalog.DefaultTestsPass | src/pages/products/list.jsx:30-36 | an empty term, no category and no stock requirement let every product through |
| Catalog.FilterByNameAndCategory | src/pages/products/update-prices.jsx:133-138 | a row is kept exactly when its name or code contains the term ignoring case and its category is unset or equal, with its multiplicity; order is kept; empty filters keep every row |
| Catalog.NoFilterKeepsAll | src/pages/products/print-barcodes.jsx:146-151 | empty filters keep every row |
| ProductForm.Validate | src/pages/products/new.jsx:107-146 | the error map field by field: a required-field error exactly for the empty required text fields; for the price, required, then not positive, never both; the barcode optional but of length 13; the tax code checked only when taxed |
| ProductForm.MessagesDistinct | src/pages/products/new.jsx:107-146 | different fields have different messages, and the price and tax code tell their two problems apart |
| ProductForm.RequiredTextErrors | src/pages/products/new.jsx:110-124 | an error on code, name, category or unit exactly when that field is empty, and on nothing else |
| ProductForm.ValidIffWellFormed | src/pages/products/new.jsx:144-145 | `validateForm` answers true exactly for forms meeting every field rule |
| ProductForm.EmptyRequiredFieldAlone | src/pages/products/new.jsx:110-124 | emptying one required text field of an acceptable form gives an error on that field and on no other |
| ProductForm.UnparsablePriceAccepted | src/pages/products/new.jsx:126-130 | a price that does not parse (NaN) gives no price error, since `NaN <= 0` is false |
| ProductForm.PropertiesNotValidated | src/pages/products/new.jsx:107-146 | the additional-property rows play no part in validation |
| ProductForm.SubmitTo | src/pages/products/new.jsx:148-166 | an invalid form stops with its non-empty error map before any navigation; a valid one navigates to the target |
| ProductForm.HandleSubmit | src/pages/products/new.jsx:148-166 | the product page saves exactly well-formed forms and then navigates to `/products` |
| ProductForm.AddProperty | src/pages/products/new.jsx:78-86 | one empty key/value row is appended and the existing rows are unchanged |
| ProductForm.RemoveProperty | src/pages/products/new.jsx:88-93 | exactly the row at the index is dropped and the rest keep their order; an index outside the list removes nothing |
| ProductForm.ChangeProperty | src/pages/products/new.jsx:95-105 | only the named column of the indexed row changes |
| ProductForm.AddThenRemove | src/pages/products/new.jsx:78-93 | removing the row just added gives back the original rows |
| ProductForm.HandleAddProperty | src/pages/products/new.jsx:78-86 | adding a row touches only the property rows, which grow by one |
| ProductForm.HandleRemoveProperty | src/pages/products/new.jsx:88-93 | removing a row touches only the property rows, which shrink by one for an index in range |
| ProductForm.HandlePropertyChange | src/pages/products/new.jsx:95-105 | editing a row touches only the property rows and keeps their number |
| PersonForm.Validate | src/pages/persons/new.jsx:91-130 | the same rules: no error exactly for well-formed forms; the price is "required" when empty and otherwise "positive" when not above zero, never both; the barcode is optional with length 13; the tax code is checked only when taxed |
| PersonForm.HandleChange | src/pages/persons/new.jsx:153-159 | the named field takes `checked` for the checkbox and `value` otherwise, and every other field is unchanged |
| PersonForm.UnvalidatedInputsIrrelevant | src/pages/persons/new.jsx:91-130 | typing into the buy price, stock, minimum stock or tax rate never changes the validation |
| PersonForm.HandleSubmit | src/pages/persons/new.jsx:132-151 | an invalid form returns with its errors before the success notice; a valid one navigates to `/persons` |
| PersonForm.PropertyHandlersPreserveOthers | src/pages/persons/new.jsx:65-89 | add, remove and change keep every property row they do not target; remove drops exactly the indexed row and keeps the others in order |
| ServiceForm.Validate | src/pages/services/new.jsx:44-60 | the errors: the name when empty or longer than 200; the code when longer than 100; the description when longer than 1000; a non-empty tax code of length other than 13 |
| ServiceForm.MessagesDistinct | src/pages/services/new.jsx:44-60 | different fields have different messages, and an empty name and a too-long name get different ones |
| ServiceForm.UnvalidatedFields | src/pages/services/new.jsx:44-60 | category, price, tax rate, tax type and even the `hasTax` switch never affect validation |
| ServiceForm.HandleSubmit | src/pages/services/new.jsx:61-70 | success is reported exactly when the error map is empty; otherwise the map is stored and the handler returns; success leaves the page state as it was |
| ServiceForm.StaleErrorsSurviveSuccess | src/pages/services/new.jsx:61-70 | a submit that fails, then a fix, then a submit that succeeds still shows the old name error |
| ServiceForm.HandleSubmitClearing | src/pages/services/new.jsx:61-70 | with the map stored in both branches, the page always shows exactly the submitted form's errors |
| Banks.FirstProblem | src/pages/banking/banks.jsx:106-121 | the one reported problem follows the check order (bank name, account number, 16-character card, 26-character IBAN), and none exactly when every check passes |
| Banks.MessagesDistinct | src/pages/banking/banks.jsx:106-121 | each check has its own message |
| Banks.FirstProblemIsFirstOfAll | src/pages/banking/banks.jsx:106-121 | the reported problem is the first of all failing checks |
| Banks.HandleSubmit | src/pages/banking/banks.jsx:102-145 | a failing check changes nothing; success closes the form, reloads the list and resets the form to `current`, `IRR`, balance `0`, active and empty strings |
| Banks.ResetFormIsIncomplete | src/pages/banking/banks.jsx:127-140 | the reset form itself fails the bank-name check |
| Banks.HandleSortColumn | src/pages/banking/banks.jsx:92-100 | the sort toggle on this page changes only the sort configuration |
| Banks.SortedBanks | src/pages/banking/banks.jsx:147-152 | the sorted accounts are a permutation of the accounts |
| Banks.SortedBanksOrdered | src/pages/banking/banks.jsx:147-152 | with distinct column values, the accounts are strictly ordered by the column |
| Banks.FilteredBanks | src/pages/banking/banks.jsx:154-160 | an account is kept exactly when its bank name contains the term ignoring case, or an account, card or IBAN number contains it as typed; order is kept; an empty term keeps all |
| Banks.EmptySearchKeepsAll | src/pages/banking/banks.jsx:154-160 | the empty search keeps every account in order |
| Banks.VisibleBanks | src/pages/banking/banks.jsx:147-160 | the table shows exactly the loaded accounts matching the search |
| ProductList.HandleFilterChange | src/pages/products/list.jsx:99-101 | a filter change updates only the named filter and nothing else on the page |
| ProductList.HandleSortColumn | src/pages/products/list.jsx:103-111 | the same key when ascending flips to descending; any other click sorts ascending |
| ProductList.HandleSelectAll | src/pages/products/list.jsx:113-120 | checking selects every loaded product id; unchecking empties the selection |
| ProductList.HandleSelectProduct | src/pages/products/list.jsx:122-130 | flips one id's membership only, without duplicates |
| ProductList.HandleDeleteSelected | src/pages/products/list.jsx:132-151 | an empty selection is an error that changes nothing; a cancelled confirm changes nothing; a delete reloads and clears both the selection and "select all" |
| ProductList.SortedProducts | src/pages/products/list.jsx:162-167 | a permutation of the products, strictly ordered by the column when its values are distinct |
| ProductList.FilteredProducts | src/pages/products/list.jsx:169-181 | a product is kept exactly when all five tests hold (text, category, minimum, maximum, stock), with its multiplicity, in sorted order |
| ProductList.UnparsableBoundHidesAll | src/pages/products/list.jsx:174-175 | a minimum price that is not a number hides every product |
| ProductList.InitialFiltersShowAll | src/pages/products/list.jsx:30-36 | the opening filters show every product in sorted order |
| ProductList.VisibleProducts | src/pages/products/list.jsx:162-181 | the table shows exactly the loaded products passing the filter |
| UpdatePrices.Round | src/pages/products/update-prices.jsx:96-98 | `Math.round` gives the integer n with n ≤ x + 0.5 < n + 1 |
| UpdatePrices.RoundIntegral | src/pages/products/update-prices.jsx:96-98 | rounding a whole number gives it back |
| UpdatePrices.RoundMonotone | src/pages/products/update-prices.jsx:96-98 | rounding is monotone |
| UpdatePrices.CalculateNewPrice | src/pages/products/update-prices.jsx:92-102 | NaN or negative value: the price is unchanged; percentage: a whole number within half a unit of the scaled price; fixed: exactly the amount added or subtracted |
| UpdatePrices.FixedChangeReversible | src/pages/products/update-prices.jsx:99-101 | on exact prices, a fixed decrease undoes a fixed increase by the same amount |
| UpdatePrices.PercentageChangeNotReversible | src/pages/products/update-prices.jsx:96-98 | ten percent up, then ten percent down, takes 100 to 99 |
| UpdatePrices.ZeroPercentKeepsPrice | src/pages/products/update-prices.jsx:96-98 | a zero percent change keeps a whole price |
| UpdatePrices.ChangeIsMonotone | src/pages/products/update-prices.jsx:92-102 | on a non-negative whole price an increase never lowers it and a decrease never raises it |
| UpdatePrices.FixedDecreaseNotClamped | src/pages/products/update-prices.jsx:99-101 | a fixed decrease larger than the price gives a negative price |
| UpdatePrices.HandleUpdatePrices | src/pages/products/update-prices.jsx:104-131 | an empty selection, then an empty, NaN or negative value, are errors that change nothing; otherwise only selected products get the new price, and every other field, product, the length and the order stay |
| UpdatePrices.FixedUpdateRoundTrip | src/pages/products/update-prices.jsx:104-131 | on exact prices, a fixed increase then a fixed decrease by the same amount gives back the products |
| UpdatePrices.HandleSelectAll | src/pages/products/update-prices.jsx:69-76 | checking selects every product id; unchecking empties the selection |
| UpdatePrices.HandleSelectProduct | src/pages/products/update-prices.jsx:78-86 | flips one id's membership only |
| UpdatePrices.HandleFilterChange | src/pages/products/update-prices.jsx:88-90 | only the named filter changes |
| UpdatePrices.VisibleProducts | src/pages/products/update-prices.jsx:133-138 | a product is shown exactly when its name or code contains the term ignoring case and its category is unset or equal |
| Labels.HandleSettingChange | src/pages/products/print-barcodes.jsx:91-93 | only the named setting changes |
| Labels.SettingChangesCommute | src/pages/products/print-barcodes.jsx:91-93 | changes of different settings commute; of the same setting, the later wins |
| PrintBarcodes.RowIds | src/pages/products/print-barcodes.jsx:95-102 | the ids of the listed rows, position by position |
| PrintBarcodes.CountFromInput | src/pages/products/print-barcodes.jsx:114-121 | `Math.max(1, parseInt(value) \|\| 1)` is always at least 1: a positive count is kept, anything else becomes 1 |
| PrintBarcodes.HandlePrintCountChange | src/pages/products/print-barcodes.jsx:114-121 | only the rows of that product get the new count; no product field changes |
| PrintBarcodes.SumAtLeastLength | src/pages/products/print-barcodes.jsx:129-131 | with every count at least one, the total is at least the number of rows |
| PrintBarcodes.InitialPage | src/pages/products/print-barcodes.jsx:50-84 | every loaded product is listed once, with one label |
| PrintBarcodes.HandlePrint | src/pages/products/print-barcodes.jsx:123-143 | an empty selection is an error; a zero total is an error; otherwise the total of the selected counts is queued |
| PrintBarcodes.NoLabelsUnreachable | src/pages/products/print-barcodes.jsx:133-136 | on a page whose counts are at least one and whose selection names listed rows, the zero-total error never happens |
| PrintBarcodes.HandleCountChange | src/pages/products/print-barcodes.jsx:114-121 | a count change touches only the rows |
| PrintBarcodes.HandleSelectAll | src/pages/products/print-barcodes.jsx:95-102 | checking selects every listed id; unchecking empties the selection |
| PrintBarcodes.HandleSelectProduct | src/pages/products/print-barcodes.jsx:104-112 | flips one id's membership only |
| PrintBarcodes.HandleFilterChange | src/pages/products/print-barcodes.jsx:87-89 | only the named filter changes |
| PrintBarcodes.HandleSetting | src/pages/products/print-barcodes.jsx:91-93 | only the named label setting changes |
| PrintBarcodes.HandlersKeepConsistent | src/pages/products/print-barcodes.jsx:95-121 | the page opens consistent, and every handler keeps counts at least one and the selection among the listed ids |
| PrintBarcodes.VisibleRows | src/pages/products/print-barcodes.jsx:146-151 | a row is shown exactly when its name or code contains the term ignoring case and its category is unset or equal |
| PrintBarcode.SearchEffect | src/pages/products/print-barcode.jsx:45-52 | a query of at least two characters opens the found results; a shorter one empties and closes the list |
| PrintBarcode.ChangeQuery | src/pages/products/print-barcode.jsx:45-52 | the effect runs only when the query changes |
| PrintBarcode.PickLabel | src/pages/products/print-barcode.jsx:69-73 | the label `code - name` is always at least two characters long |
| PrintBarcode.HandleProductSelect | src/pages/products/print-barcode.jsx:69-73 | the product is picked, the query becomes its label and the results are hidden |
| PrintBarcode.PickProduct | src/pages/products/print-barcode.jsx:45-73 | a pick followed by the effect, which runs again when the label differs from the typed query |
| PrintBarcode.PickReopensResults | src/pages/products/print-barcode.jsx:45-73 | whenever the label differs from the typed query, the pick ends with the result list open again |
| PrintBarcode.SearchEffectAfterPick | src/pages/products/print-barcode.jsx:45-52 | the effect leaves the page alone when the query is the picked product's label, and searches otherwise |
| PrintBarcode.PickProductClosing | src/pages/products/print-barcode.jsx:69-73 | with that effect, a pick keeps the result list closed |
| PrintBarcode.TypedQueriesStillSearch | src/pages/products/print-barcode.jsx:45-52 | typed queries other than the label still search as before |
| PrintBarcode.HandleSettingChange | src/pages/products/print-barcode.jsx:75-77 | only the named setting (count or label setting) changes |
| PrintBarcode.HandlePrint | src/pages/products/print-barcode.jsx:79-95 | no product is reported first; then a count below one; a NaN count passes |
| PrintBarcode.ClearedCountIsQueued | src/pages/products/print-barcode.jsx:85-88 | a cleared count box (NaN) is queued for printing |
| PrintBarcode.HandlePrintChecked | src/pages/products/print-barcode.jsx:79-95 | with NaN rejected, a queued print always has a count of at least one |
| PriceList.HandleFilterChange | src/pages/products/price-list.jsx:74-76 | only the named filter changes |
| PriceList.FilteredProducts | src/pages/products/price-list.jsx:96-102 | a product is kept exactly when its name or code contains the term ignoring case, its category is unset or equal, and it is in stock if required; multiplicities and order are kept |
| PriceList.PriceRangeIgnored | src/pages/products/price-list.jsx:23-28 | the price-range filter never changes the rows shown |
| PriceList.InitialFiltersKeepAll | src/pages/products/price-list.jsx:96-102 | the opening filters keep every product in order |
| PriceList.Renderers | src/pages/products/price-list.jsx:386-388 | each renderer is drawn exactly when `view` names it |
| PriceList.OneRendererAtMost | src/pages/products/price-list.jsx:386-388 | at most one renderer is drawn, and exactly one when `view` is table, list or grid |
| PriceList.RenderBody | src/pages/products/price-list.jsx:370-391 | the spinner while loading, the notice exactly when no product passes, otherwise the chosen renderer |
| Records.EntryIds | src/pages/persons/vendors.jsx:64-69 | the ids of the rows, position by position |
| Records.Replace | src/pages/persons/vendors.jsx:57-61 | every row with the edited id becomes the edited record; the other rows, and the length, stay |
| Records.ReplaceKeepsIds | src/pages/persons/vendors.jsx:57-61 | an edit keeps every id in place, so unique ids stay unique |
| Records.Submit | src/pages/persons/vendors.jsx:55-70 | an edit replaces the rows with its id; a new record is appended with id `length + 1` |
| Records.Delete | src/pages/persons/vendors.jsx:92-98 | a confirmed delete keeps exactly the rows with another id, each as often as before, in order; an unconfirmed one changes nothing |
| Records.SubsequenceKeepsUnique | src/pages/persons/vendors.jsx:92-98 | leaving rows out keeps ids unique |
| Records.LengthIdFreshWithoutGaps | src/pages/persons/vendors.jsx:64-69 | while the ids are 1..n in order, `length + 1` is new |
| Records.LengthIdCollidesAfterDelete | src/pages/persons/vendors.jsx:64-69 | after deleting row 1 of two rows, an add gives two rows with id 2 |
| Records.MaxId | src/pages/persons/vendors.jsx:64-69 | a bound at or above every id in use |
| Records.SubmitFresh | src/pages/persons/vendors.jsx:55-70 | the add branch with an id above every id in use: the new id is unused, and unique ids stay unique |
| Records.HandleSubmit | src/pages/persons/vendors.jsx:55-85 | the list update, then the form closes and resets to the blank record |
| Records.HandleSubmitFresh | src/pages/persons/vendors.jsx:55-85 | the same, with fresh ids |
| Records.HandleEdit | src/pages/persons/vendors.jsx:87-90 | the row goes into the form with its id, and the form opens |
| Records.EditThenSaveUnchanged | src/pages/persons/vendors.jsx:55-90 | opening a row and saving it untouched leaves the rows as they were |
| Records.HandleDelete | src/pages/persons/vendors.jsx:92-98 | after a confirmed delete no row has that id |
| Records.FreshHandlersKeepUnique | src/pages/persons/vendors.jsx:55-98 | with fresh ids, add, edit and delete all keep ids unique |
| Records.Search | src/pages/persons/vendors.jsx:122-127 | the search keeps exactly the matching rows, each as often as before, in order, and keeps all when every row matches |
| Vendors.HandleSubmit | src/pages/persons/vendors.jsx:55-85 | an edit replaces; an add appends with id `length + 1`; the form resets to empty fields, today's date and status `active` |
| Vendors.FilteredVendors | src/pages/persons/vendors.jsx:122-127 | a vendor is kept exactly when the term occurs, case-sensitively, in the name, national code, mobile or phone; an empty term keeps all |
| Shareholders.HandleSubmit | src/pages/persons/shareholders.jsx:40-65 | an edit replaces; an add appends with id `length + 1`; the form resets to empty fields, today's date and status `active` |
| Shareholders.FilteredShareholders | src/pages/persons/shareholders.jsx:102-105 | a shareholder is kept exactly when the term occurs in the name or national code; an empty term keeps all |
| Receives.FilteredReceives | src/pages/persons/receives.jsx:73-77 | a receipt is kept exactly when the term occurs in the person, amount or date, in order |
| Receives.HandleDelete | src/pages/persons/receives.jsx:30-36 | a confirmed delete removes exactly the receipts with that id |
| Receives.DeleteCommutesWithSearch | src/pages/persons/receives.jsx:30-36 | deleting then searching shows the same receipts as searching then deleting |
| People.FilteredPeople | src/pages/persons/list.jsx:24-28 | a person is kept exactly when the term occurs in the name, national code or mobile; an empty term keeps all, in order |
| People.HandleDelete | src/pages/persons/list.jsx:16-22 | a confirmed delete removes exactly the persons with that id |
| People.TypeLabel | src/pages/persons/list.jsx:78 | حقیقی exactly for `real`, حقوقی for anything else |
| Status.ActivityColor | src/pages/persons/vendors.jsx:100-109 | green exactly for `active`, red exactly for `inactive`, gray otherwise |
| Status.ActivityText | src/pages/persons/vendors.jsx:111-120 | فعال for `active`, غیرفعال for `inactive`, the raw status otherwise |
| Status.ActivityTextRawIffGray | src/pages/persons/shareholders.jsx:80-100 | the label is the raw status exactly when the badge is gray |
| Status.ReceiptColor | src/pages/persons/receives.jsx:38-47 | green exactly for `completed`, yellow exactly for `pending`, gray otherwise |
| Status.ReceiptText | src/pages/persons/receives.jsx:49-58 | fixed labels for `completed` and `pending`, the raw status otherwise |
| Status.ReceiptTextRawIffGray | src/pages/persons/receives.jsx:38-58 | the label is the raw status exactly when the badge is gray |
| Status.PaymentMethodText | src/pages/persons/receives.jsx:60-71 | fixed labels for cash, cheque and transfer; other methods pass through |
| Status.PaymentMethodTextRaw | src/pages/persons/receives.jsx:60-71 | the label is raw exactly for unknown methods, and the three labels differ |
| Sidebar.Toggle | src/components/layout/Sidebar.jsx:182-184 | toggling the open menu closes it; toggling another menu makes it the only open one |
| Sidebar.ToggleTwice | src/components/layout/Sidebar.jsx:182-184 | toggling twice returns to the menu open if it was, and otherwise to all closed |
| Sidebar.AtMostOneExpanded | src/components/layout/Sidebar.jsx:180-184 | with distinct names at most one menu is expanded, and one exactly when `openMenu` names a menu |
| Sidebar.ToggleKeepsAtMostOne | src/components/layout/Sidebar.jsx:182-184 | after a toggle, exactly the toggled menu or none is expanded |
| Sidebar.Kept | src/components/layout/Sidebar.jsx:174-176 | `filter(Boolean)` keeps exactly the non-empty class strings |
| Sidebar.FirstSpace | src/components/layout/Sidebar.jsx:174-176 | the first space of a string |
| Sidebar.Split | src/components/layout/Sidebar.jsx:174-176 | splitting on spaces gives at least one piece |
| Sidebar.SplitJoin | src/components/layout/Sidebar.jsx:174-176 | splitting words joined with single spaces gives the words back |
| Sidebar.ClassNamesRoundTrip | src/components/layout/Sidebar.jsx:174-176 | the attribute splits back into exactly the kept classes |
| Sidebar.ClassNamesOfFalsy | src/components/layout/Sidebar.jsx:174-176 | arguments that are all falsy give the empty string |
| Sidebar.JoinNonEmpty | src/components/layout/Sidebar.jsx:174-176 | joining words whose first word is non-empty gives a non-empty string |
| Sidebar.EmptyOnlyFromFalsy | src/components/layout/Sidebar.jsx:174-176 | conversely, the empty string comes only from arguments that are all falsy |
| Sidebar.HighlightClass | src/components/layout/Sidebar.jsx:256-261 | the attribute starts with the highlight classes exactly when the entry is current |
| Sidebar.LinkClass | src/components/layout/Sidebar.jsx:256-261 | a top-level link is highlighted exactly when `location.pathname` is its href |
| Sidebar.ChildLinkClass | src/components/layout/Sidebar.jsx:294-299 | a menu link is highlighted exactly when `location.pathname` is its href |
| Sidebar.MenuButtonClass | src/components/layout/Sidebar.jsx:271-276 | a menu button is highlighted exactly when its menu is open |
| Sidebar.ToggleFlipsHighlight | src/components/layout/Sidebar.jsx:271-276 | a toggle flips its button's highlight |
| Sidebar.ShownChildren | src/components/layout/Sidebar.jsx:288-303 | exactly the open menu's links are shown: every shown link belongs to the open menu, every link of the open menu is shown, and none is shown when no menu is open |

## Left out

- Rendering:
  - JSX, icons, Headless UI dialogs and transitions, and Tailwind classes other than the sidebar highlighting.
  - The print preview and the export buttons.
  - `Intl.NumberFormat` display formatting.
- Toasts and SweetAlert messages. A handler's outcome is a result value instead. The answer to `window.confirm` is a boolean parameter.
- Fetching and timing. The mock fetches, the loading delays and `useEffect` timing are left out. The fetched rows are parameters (`reloaded`, `loaded`, `found`).
- The print-barcode search effect is modelled only as the state change it causes. Its delay is left out.
- Navigation and routing: `useNavigate`, React Router and `App.jsx`. A submit reports the path it would navigate to.
- The product and person image (`FileReader` preview). It is not part of the form record.
- `new Date().toISOString()` default dates. They are a `today` parameter.
- `Number`, `parseFloat` and `parseInt`. They are parameters, or parsed values passed in, with NaN as `None`. No string-to-number parser is written out.
- Floating point. Prices and scaled prices are exact reals. `Math.round` is `floor(x + 0.5)`, which is exact on reals but not on binary doubles.
- Text length and string order. JavaScript's `.length` and `<` count UTF-16 code units; here a string is a sequence of code points. Text outside the Basic Multilingual Plane (an emoji, say) counts as one character here but two in the browser. So the 13-character barcode and tax code, the 16-character card number, the 26-character IBAN and the 200/100/1000 limits of the service form match the browser only for text without such characters. The same holds for the sort order of text columns.
- Unicode case mapping. Lower-casing covers ASCII letters only; Persian text has no case.
- The plain input setters of the vendor, shareholder, bank and service forms. Each only assigns one field of the form record.
- `handleExport` and `handlePrint` of the list and price-list pages. They only show a notice.
- The dashboard page, the Navbar, `PaymentForm`, `persons/payment.jsx` and `payments/new.jsx`. They hold no logic beyond setting state and logging.
- Sorting.SortBy: stated as a permutation, and as an ordering only when the keys are distinct and of one kind. With repeated keys the comparator never answers 0, and the order the JavaScript engine gives is left open.
- Records.Search, Vendors.FilteredVendors, Shareholders.FilteredShareholders, Receives.FilteredReceives and People.FilteredPeople: `includes` on the raw strings, with no Unicode normalisation.
- UpdatePrices.FixedChangeReversible: holds on exact prices only. With binary doubles a fixed increase and decrease need not cancel (`0.1 + 0.2 - 0.2` is `0.10000000000000003`).
- UpdatePrices.FixedUpdateRoundTrip: holds on exact prices only, for the same reason.
- Receives.DeleteCommutesWithSearch: states that the same rows are shown, not that they are in the same order.

## Findings

| source | as written | input that shows it | evidently intended | confidence | as-written member | corrected member |
|---|---|---|---|---|---|---|
| src/pages/persons/vendors.jsx:64-69 (likewise src/pages/persons/shareholders.jsx:48-55) | a new row gets id `length + 1` | rows with ids 1 and 2; delete 1; add a row: two rows now have id 2, so editing or deleting one hits both | a new row gets an id no row has | high (not executed) | Records.LengthIdCollidesAfterDelete | Records.SubmitFresh, Records.FreshHandlersKeepUnique |
| src/pages/products/print-barcode.jsx:45-52, 69-73 | `handleProductSelect` hides the results, but it also sets the query to `code - name`, and every such label is at least 2 characters long, so the search effect runs again and shows them | any pick whose label differs from the typed query, e.g. type "ab" and pick product `P1`/`x` (label "P1 - x") | the result list stays closed after a pick | medium (not executed) | PrintBarcode.PickReopensResults | PrintBarcode.PickProductClosing |
| src/pages/products/print-barcode.jsx:85-88, 165 | the count guard is `count < 1`; clearing the box stores `parseInt("")`, which is NaN, and `NaN < 1` is false | pick a product, clear the count box, print: the print is queued with count NaN | a count that is not a number is rejected like one below 1 | high (not executed) | PrintBarcode.ClearedCountIsQueued | PrintBarcode.HandlePrintChecked |
| src/pages/services/new.jsx:61-70 | errors are stored only when some check fails, so a successful submit keeps the errors of an earlier failed one | submit with an empty name, type a name, submit again: success is reported and the name error is still shown | a successful submit clears the errors | high (not executed) | ServiceForm.StaleErrorsSurviveSuccess | ServiceForm.HandleSubmitClearing |
