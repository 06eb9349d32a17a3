/**
 * The new-product form: its field record, the additional-property rows
 * (add, remove, edit), `validateForm` and the submit guard.
 * `Number(...)` is a parameter `toNumber`, whose `None` stands for NaN.
 */
module ProductForm {
  import opened Common

  /** One row of `additionalProperties`. */
  datatype Property = Property(key: string, value: string)

  /** The form state (the image file is not modelled). */
  datatype Form = Form(
    code: string,
    name: string,
    category: string,
    description: string,
    unit: string,
    barcode: string,
    buyPrice: string,
    sellPrice: string,
    stock: string,
    minStock: string,
    hasTax: bool,
    taxRate: string,
    taxCode: string,
    isActive: bool,
    additionalProperties: seq<Property>)

  /** The form as the page opens. */
  const InitialForm := Form("", "", "", "", "", "", "", "", "0", "0", false, "9", "", true, [])

  /** The keys the error map can hold. */
  datatype Field = Code | Name | Category | Unit | SellPrice | Barcode | TaxCode

  /** Why a field was rejected. */
  datatype Problem = Required | NotPositive | WrongLength

  /** The message shown under a rejected field. */
  function Message(field: Field, problem: Problem): string {
    match (field, problem)
    case (Code, _) => "کد محصول اجباری است"
    case (Name, _) => "نام محصول اجباری است"
    case (Category, _) => "دسته‌بندی اجباری است"
    case (Unit, _) => "واحد اجباری است"
    case (SellPrice, Required) => "قیمت فروش اجباری است"
    case (SellPrice, _) => "قیمت فروش باید بزرگتر از صفر باشد"
    case (Barcode, _) => "بارکد باید 13 رقم باشد"
    case (TaxCode, Required) => "کد مالیاتی اجباری است"
    case (TaxCode, _) => "کد مالیاتی باید 13 رقم باشد"
  }

  /** Different fields have different messages, and the price and the tax
      code tell their two problems apart. */
  lemma MessagesDistinct(f: Field, g: Field, p: Problem, q: Problem)
    requires f != g
    ensures Message(f, p) != Message(g, q)
    ensures Message(SellPrice, Required) != Message(SellPrice, NotPositive)
    ensures Message(TaxCode, Required) != Message(TaxCode, WrongLength)
  {
  }

  /** The length both the barcode and the tax code must have. */
  const CodeLength := 13

  /** `Number(s) <= 0`; NaN compares false. */
  predicate AtMostZero(s: string, toNumber: string -> Option<real>) {
    toNumber(s).Some? && toNumber(s).value <= 0.0
  }

  /** `validateForm`'s error map, built check by check in source order. */
  function Validate(f: Form, toNumber: string -> Option<real>): (errors: map<Field, Problem>)
    // the four required text fields
    ensures Code in errors <==> !Truthy(f.code)
    ensures Name in errors <==> !Truthy(f.name)
    ensures Category in errors <==> !Truthy(f.category)
    ensures Unit in errors <==> !Truthy(f.unit)
    ensures forall k :: k in errors && k in {Code, Name, Category, Unit} ==> errors[k] == Required
    // the selling price: required, then positive
    ensures !Truthy(f.sellPrice) ==> SellPrice in errors && errors[SellPrice] == Required
    ensures Truthy(f.sellPrice) && AtMostZero(f.sellPrice, toNumber) ==> SellPrice in errors && errors[SellPrice] == NotPositive
    ensures Truthy(f.sellPrice) && !AtMostZero(f.sellPrice, toNumber) ==> SellPrice !in errors
    // the barcode is optional
    ensures Barcode in errors <==> Truthy(f.barcode) && |f.barcode| != CodeLength
    ensures Barcode in errors ==> errors[Barcode] == WrongLength
    // the tax code only counts when the product is taxed
    ensures !f.hasTax ==> TaxCode !in errors
    ensures f.hasTax && !Truthy(f.taxCode) ==> TaxCode in errors && errors[TaxCode] == Required
    ensures f.hasTax && Truthy(f.taxCode) && |f.taxCode| != CodeLength ==> TaxCode in errors && errors[TaxCode] == WrongLength
    ensures f.hasTax && |f.taxCode| == CodeLength ==> TaxCode !in errors
  {
    var e4 := RequiredTextErrors(f);
    var e5 :=
      if !Truthy(f.sellPrice) then e4[SellPrice := Required]
      else if AtMostZero(f.sellPrice, toNumber) then e4[SellPrice := NotPositive]
      else e4;
    var e6 := if Truthy(f.barcode) && |f.barcode| != CodeLength then e5[Barcode := WrongLength] else e5;
    var e7 :=
      if f.hasTax then
        if !Truthy(f.taxCode) then e6[TaxCode := Required]
        else if |f.taxCode| != CodeLength then e6[TaxCode := WrongLength]
        else e6
      else e6;
    e7
  }

  /** The first four checks of `validateForm`: the required text fields. */
  function RequiredTextErrors(f: Form): (errors: map<Field, Problem>)
    ensures Code in errors <==> !Truthy(f.code)
    ensures Name in errors <==> !Truthy(f.name)
    ensures Category in errors <==> !Truthy(f.category)
    ensures Unit in errors <==> !Truthy(f.unit)
    ensures errors.Keys <= {Code, Name, Category, Unit}
    ensures forall k :: k in errors ==> errors[k] == Required
  {
    var e0: map<Field, Problem> := map[];
    var e1 := if !Truthy(f.code) then e0[Code := Required] else e0;
    var e2 := if !Truthy(f.name) then e1[Name := Required] else e1;
    var e3 := if !Truthy(f.category) then e2[Category := Required] else e2;
    if !Truthy(f.unit) then e3[Unit := Required] else e3
  }

  /** `Object.keys(newErrors).length === 0`. */
  predicate IsValid(f: Form, toNumber: string -> Option<real>) {
    |Validate(f, toNumber).Keys| == 0
  }

  /** What an acceptable product form looks like, field by field. */
  predicate WellFormed(f: Form, toNumber: string -> Option<real>) {
    && Truthy(f.code) && Truthy(f.name) && Truthy(f.category) && Truthy(f.unit)
    && Truthy(f.sellPrice) && !AtMostZero(f.sellPrice, toNumber)
    && (!Truthy(f.barcode) || |f.barcode| == CodeLength)
    && (!f.hasTax || |f.taxCode| == CodeLength)
  }

  /** `validateForm()` answers true exactly for well-formed forms. */
  lemma ValidIffWellFormed(f: Form, toNumber: string -> Option<real>)
    ensures IsValid(f, toNumber) <==> WellFormed(f, toNumber)
  {
    var e := Validate(f, toNumber);
    if !WellFormed(f, toNumber) {
      assert exists k :: k in e;
    }
  }

  /** Starting from an acceptable form, emptying one of the four required
      text fields yields an error on that field and on no other. */
  lemma EmptyRequiredFieldAlone(f: Form, toNumber: string -> Option<real>)
    requires WellFormed(f, toNumber)
    ensures Validate(f.(code := ""), toNumber).Keys == {Code}
    ensures Validate(f.(name := ""), toNumber).Keys == {Name}
    ensures Validate(f.(category := ""), toNumber).Keys == {Category}
    ensures Validate(f.(unit := ""), toNumber).Keys == {Unit}
  {
  }

  /** A selling price that does not parse as a number (NaN) passes, since
      `NaN <= 0` is false. */
  lemma UnparsablePriceAccepted(f: Form, toNumber: string -> Option<real>)
    requires Truthy(f.sellPrice) && toNumber(f.sellPrice).None?
    ensures SellPrice !in Validate(f, toNumber)
  {
  }

  /** What a submit does. */
  datatype Submit =
    | Rejected(errors: map<Field, Problem>)
    | Saved(navigateTo: string)

  /** `handleSubmit`: an invalid form stops with its error map before any
      saving or navigation; a valid one is saved and the page navigates to
      `target`. */
  function SubmitTo(f: Form, toNumber: string -> Option<real>, target: string): (r: Submit)
    ensures r.Saved? <==> WellFormed(f, toNumber)
    ensures r.Rejected? ==> r.errors == Validate(f, toNumber) && |r.errors| > 0
    ensures r.Saved? ==> r.navigateTo == target
  {
    ValidIffWellFormed(f, toNumber);
    if !IsValid(f, toNumber) then Rejected(Validate(f, toNumber)) else Saved(target)
  }

  /** The product page's submit, which navigates to the product list. */
  function HandleSubmit(f: Form, toNumber: string -> Option<real>): (r: Submit)
    ensures r.Saved? <==> WellFormed(f, toNumber)
    ensures r.Rejected? ==> |r.errors| > 0 && (Code in r.errors <==> !Truthy(f.code))
    ensures r.Saved? ==> r.navigateTo == "/products"
  {
    SubmitTo(f, toNumber, "/products")
  }

  /** `handleAddProperty`: one empty row is appended. */
  function AddProperty(ps: seq<Property>): (r: seq<Property>)
    ensures |r| == |ps| + 1
    ensures r[..|ps|] == ps
    ensures r[|ps|] == Property("", "")
  {
    ps + [Property("", "")]
  }

  /** `handleRemoveProperty(index)`: `filter((_, i) => i !== index)`.
      Position `index` is dropped and the other rows keep their order; an
      index outside the list removes nothing. */
  function RemoveProperty(ps: seq<Property>, index: int): (r: seq<Property>)
    ensures 0 <= index < |ps| ==> r == ps[..index] + ps[index + 1..]
    ensures !(0 <= index < |ps|) ==> r == ps
    decreases |ps|
  {
    if |ps| == 0 then []
    else
      assert ps == [ps[0]] + ps[1..];
      (if index == 0 then [] else [ps[0]]) + RemoveProperty(ps[1..], index - 1)
  }

  /** Which column of a property row is edited. */
  datatype PropertyField = KeyColumn | ValueColumn

  /** `handlePropertyChange(index, field, value)`: only the named column
      of row `index` changes. */
  function ChangeProperty(ps: seq<Property>, index: int, field: PropertyField, value: string): (r: seq<Property>)
    ensures |r| == |ps|
    ensures forall i :: 0 <= i < |ps| && i != index ==> r[i] == ps[i]
    ensures 0 <= index < |ps| ==> r[index].key == (if field == KeyColumn then value else ps[index].key)
    ensures 0 <= index < |ps| ==> r[index].value == (if field == ValueColumn then value else ps[index].value)
  {
    seq(|ps|, i requires 0 <= i < |ps| =>
      if i == index then
        match field
        case KeyColumn => ps[i].(key := value)
        case ValueColumn => ps[i].(value := value)
      else ps[i])
  }

  /** Adding a row and then removing it gives back the original rows. */
  lemma AddThenRemove(ps: seq<Property>)
    ensures RemoveProperty(AddProperty(ps), |ps|) == ps
  {
    assert AddProperty(ps)[..|ps|] == ps;
  }

  /** The property handlers applied to the whole form touch only
      `additionalProperties`. */
  function HandleAddProperty(f: Form): (r: Form)
    ensures r == f.(additionalProperties := r.additionalProperties)
    ensures |r.additionalProperties| == |f.additionalProperties| + 1
  {
    f.(additionalProperties := AddProperty(f.additionalProperties))
  }

  function HandleRemoveProperty(f: Form, index: int): (r: Form)
    ensures r == f.(additionalProperties := r.additionalProperties)
    ensures 0 <= index < |f.additionalProperties| ==> |r.additionalProperties| == |f.additionalProperties| - 1
  {
    f.(additionalProperties := RemoveProperty(f.additionalProperties, index))
  }

  function HandlePropertyChange(f: Form, index: int, field: PropertyField, value: string): (r: Form)
    ensures r == f.(additionalProperties := r.additionalProperties)
    ensures |r.additionalProperties| == |f.additionalProperties|
  {
    f.(additionalProperties := ChangeProperty(f.additionalProperties, index, field, value))
  }

  /** The property rows play no part in validation. */
  lemma PropertiesNotValidated(f: Form, ps: seq<Property>, toNumber: string -> Option<real>)
    ensures Validate(f.(additionalProperties := ps), toNumber) == Validate(f, toNumber)
  {
  }
}
