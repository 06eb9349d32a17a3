/**
 * The new-person page. Its form is a copy of the new-product form (same
 * fields, same validation rules, same property rows); what is its own is
 * the generic `handleChange` binding of the inputs and the submit that
 * navigates back to the person list.
 */
module PersonForm {
  import opened Common
  import ProductForm

  type Form = ProductForm.Form

  /** This page's `validateForm`: the same rules as the product form. */
  function Validate(f: Form, toNumber: string -> Option<real>): (errors: map<ProductForm.Field, ProductForm.Problem>)
    ensures |errors.Keys| == 0 <==> ProductForm.WellFormed(f, toNumber)
    ensures !Truthy(f.sellPrice) ==> ProductForm.SellPrice in errors && errors[ProductForm.SellPrice] == ProductForm.Required
    ensures Truthy(f.sellPrice) ==>
      (ProductForm.SellPrice in errors <==> ProductForm.AtMostZero(f.sellPrice, toNumber))
    ensures ProductForm.SellPrice in errors ==>
      (errors[ProductForm.SellPrice] == ProductForm.Required <==> !Truthy(f.sellPrice))
    ensures ProductForm.Barcode in errors <==> Truthy(f.barcode) && |f.barcode| != ProductForm.CodeLength
    ensures ProductForm.TaxCode in errors ==> f.hasTax
  {
    ProductForm.ValidIffWellFormed(f, toNumber);
    ProductForm.Validate(f, toNumber)
  }

  /** The inputs bound to `handleChange`, by their `name` attribute. */
  datatype Input =
    | CodeInput | NameInput | CategoryInput | UnitInput | BarcodeInput
    | BuyPriceInput | SellPriceInput | StockInput | MinStockInput
    | TaxCodeInput | TaxRateInput | HasTaxCheckbox

  /** The part of a change event `handleChange` reads. */
  datatype ChangeEvent = ChangeEvent(name: Input, isCheckbox: bool, value: string, checked: bool)

  /** What an input currently holds in the form. */
  datatype FieldValue = TextValue(text: string) | FlagValue(flag: bool)

  function Read(f: Form, name: Input): FieldValue {
    match name
    case CodeInput => TextValue(f.code)
    case NameInput => TextValue(f.name)
    case CategoryInput => TextValue(f.category)
    case UnitInput => TextValue(f.unit)
    case BarcodeInput => TextValue(f.barcode)
    case BuyPriceInput => TextValue(f.buyPrice)
    case SellPriceInput => TextValue(f.sellPrice)
    case StockInput => TextValue(f.stock)
    case MinStockInput => TextValue(f.minStock)
    case TaxCodeInput => TextValue(f.taxCode)
    case TaxRateInput => TextValue(f.taxRate)
    case HasTaxCheckbox => FlagValue(f.hasTax)
  }

  /** `handleChange`: the named field takes `checked` when the input is a
      checkbox and `value` otherwise; every other field is unchanged.
      Only `hasTax` is bound to a checkbox, so the event's kind matches
      the field's. */
  function HandleChange(f: Form, e: ChangeEvent): (r: Form)
    requires e.isCheckbox <==> e.name == HasTaxCheckbox
    ensures Read(r, e.name) == (if e.isCheckbox then FlagValue(e.checked) else TextValue(e.value))
    ensures forall other :: other != e.name ==> Read(r, other) == Read(f, other)
    ensures r.description == f.description && r.isActive == f.isActive
    ensures r.additionalProperties == f.additionalProperties
  {
    match e.name
    case CodeInput => f.(code := e.value)
    case NameInput => f.(name := e.value)
    case CategoryInput => f.(category := e.value)
    case UnitInput => f.(unit := e.value)
    case BarcodeInput => f.(barcode := e.value)
    case BuyPriceInput => f.(buyPrice := e.value)
    case SellPriceInput => f.(sellPrice := e.value)
    case StockInput => f.(stock := e.value)
    case MinStockInput => f.(minStock := e.value)
    case TaxCodeInput => f.(taxCode := e.value)
    case TaxRateInput => f.(taxRate := e.value)
    case HasTaxCheckbox => f.(hasTax := e.checked)
  }

  /** Typing into a field the validator ignores never changes the
      verdict. */
  lemma UnvalidatedInputsIrrelevant(f: Form, e: ChangeEvent, toNumber: string -> Option<real>)
    requires e.name in {BuyPriceInput, StockInput, MinStockInput, TaxRateInput} && !e.isCheckbox
    ensures Validate(HandleChange(f, e), toNumber) == Validate(f, toNumber)
  {
  }

  /** This page's `handleSubmit`: an invalid form returns before the
      success notice; a valid one navigates to the person list. */
  function HandleSubmit(f: Form, toNumber: string -> Option<real>): (r: ProductForm.Submit)
    ensures r.Saved? <==> |Validate(f, toNumber).Keys| == 0
    ensures r.Rejected? ==> r.errors == Validate(f, toNumber)
    ensures r.Saved? ==> r.navigateTo == "/persons"
  {
    ProductForm.SubmitTo(f, toNumber, "/persons")
  }

  /** The property-row handlers of this page are the product form's; none
      of them disturbs a row it does not target. */
  lemma PropertyHandlersPreserveOthers(f: Form, index: int, field: ProductForm.PropertyField, value: string)
    ensures ProductForm.HandleAddProperty(f).additionalProperties[..|f.additionalProperties|] == f.additionalProperties
    ensures var ps := f.additionalProperties;
            var r := ProductForm.HandleRemoveProperty(f, index).additionalProperties;
            forall i :: 0 <= i < |ps| && i != index ==> ps[i] in r
    ensures var ps := f.additionalProperties;
            var r := ProductForm.HandleRemoveProperty(f, index).additionalProperties;
            (0 <= index < |ps| ==> r == ps[..index] + ps[index + 1..]) && (!(0 <= index < |ps|) ==> r == ps)
    ensures var ps := f.additionalProperties;
            var r := ProductForm.HandlePropertyChange(f, index, field, value).additionalProperties;
            forall i :: 0 <= i < |ps| && i != index ==> r[i] == ps[i]
  {
    var ps := f.additionalProperties;
    var r := ProductForm.HandleRemoveProperty(f, index).additionalProperties;
    forall i | 0 <= i < |ps| && i != index
      ensures ps[i] in r
    {
      if 0 <= index < |ps| {
        assert r == ps[..index] + ps[index + 1..];
        if i < index {
          assert r[i] == ps[i];
        } else {
          assert r[i - 1] == ps[i];
        }
      }
    }
  }
}
