/**
 * The new-service page: the checks inlined in its `handleSubmit` and the
 * error map the page shows under the fields.
 */
module ServiceForm {
  import opened Common

  datatype Form = Form(
    accountingCode: string,
    isAutoCode: bool,
    isActive: bool,
    name: string,
    code: string,
    category: string,
    description: string,
    sellPrice: string,
    sellDescription: string,
    hasTax: bool,
    taxRate: string,
    taxType: string,
    taxCode: string,
    taxUnit: string)

  const InitialForm := Form("2001", true, true, "", "", "", "", "", "", true, "9", "", "", "")

  datatype Field = Name | Code | Description | TaxCode

  datatype Problem = Required | TooLong | WrongLength

  function Message(field: Field, problem: Problem): string {
    match (field, problem)
    case (Name, Required) => "نام خدمت اجباری است"
    case (Name, _) => "نام خدمت نمی‌تواند بیشتر از 200 کاراکتر باشد"
    case (Code, _) => "کد خدمت نمی‌تواند بیشتر از 100 کاراکتر باشد"
    case (Description, _) => "توضیحات نمی‌تواند بیشتر از 1000 کاراکتر باشد"
    case (TaxCode, _) => "کد مالیاتی باید 13 رقم باشد"
  }

  /** The four fields have different messages, and the empty name and the
      too-long name are told apart. */
  lemma MessagesDistinct(f: Field, g: Field, p: Problem, q: Problem)
    requires f != g
    ensures Message(f, p) != Message(g, q)
    ensures Message(Name, Required) != Message(Name, TooLong)
  {
  }

  const MaxNameLength := 200
  const MaxCodeLength := 100
  const MaxDescriptionLength := 1000
  const TaxCodeLength := 13

  /** The error map of `handleSubmit`, check by check in source order (a
      too-long name overwrites the name entry, which cannot already be
      there since a too-long name is not empty). */
  function Validate(f: Form): (errors: map<Field, Problem>)
    ensures Name in errors <==> !Truthy(f.name) || |f.name| > MaxNameLength
    ensures !Truthy(f.name) ==> errors[Name] == Required
    ensures |f.name| > MaxNameLength ==> errors[Name] == TooLong
    ensures Code in errors <==> |f.code| > MaxCodeLength
    ensures Description in errors <==> |f.description| > MaxDescriptionLength
    ensures TaxCode in errors <==> Truthy(f.taxCode) && |f.taxCode| != TaxCodeLength
    ensures forall k :: k in errors && k in {Code, Description} ==> errors[k] == TooLong
    ensures TaxCode in errors ==> errors[TaxCode] == WrongLength
  {
    var e0: map<Field, Problem> := map[];
    var e1 := if !Truthy(f.name) then e0[Name := Required] else e0;
    var e2 := if |f.name| > MaxNameLength then e1[Name := TooLong] else e1;
    var e3 := if |f.code| > MaxCodeLength then e2[Code := TooLong] else e2;
    var e4 := if |f.description| > MaxDescriptionLength then e3[Description := TooLong] else e3;
    if Truthy(f.taxCode) && |f.taxCode| != TaxCodeLength then e4[TaxCode := WrongLength] else e4
  }

  /** The category, the price, the tax rate, the tax type and even the
      `hasTax` switch play no part in validation: the tax code is checked
      whether or not the service is taxed. */
  lemma UnvalidatedFields(f: Form, category: string, sellPrice: string, taxRate: string, taxType: string, hasTax: bool)
    ensures Validate(f.(category := category, sellPrice := sellPrice, taxRate := taxRate, taxType := taxType, hasTax := hasTax))
         == Validate(f)
  {
  }

  /** The page: its form and the error map shown under the fields. */
  datatype Page = Page(form: Form, errors: map<Field, Problem>)

  datatype Outcome = Invalid | Created

  /** `handleSubmit` as written: a non-empty error map is stored and the
      handler returns; otherwise the service is reported created, and the
      stored error map is left as it was. */
  function HandleSubmit(p: Page): (r: (Outcome, Page))
    ensures r.0 == Created <==> |Validate(p.form).Keys| == 0
    ensures r.0 == Invalid ==> r.1.errors == Validate(p.form) && |r.1.errors| > 0
    ensures r.0 == Created ==> r.1 == p
    ensures r.1.form == p.form
  {
    var errors := Validate(p.form);
    if |errors.Keys| > 0 then (Invalid, p.(errors := errors)) else (Created, p)
  }

  /** Errors from an earlier failed submit are still shown after a
      successful one: empty name, then a name is typed, then submit. */
  lemma StaleErrorsSurviveSuccess()
    ensures var failed := HandleSubmit(Page(InitialForm, map[])).1;
            var fixed := failed.(form := failed.form.(name := "خدمت"));
            var r := HandleSubmit(fixed);
            r.0 == Created && Name in r.1.errors
  {
    var failed := HandleSubmit(Page(InitialForm, map[])).1;
    assert Name in failed.errors;
    var fixed := failed.(form := failed.form.(name := "خدمت"));
    assert |fixed.form.name| == 4;
    assert Validate(fixed.form) == map[];
  }

  /** The submit with the stored error map replaced in both branches: the
      page always shows exactly the errors of the submitted form. */
  function HandleSubmitClearing(p: Page): (r: (Outcome, Page))
    ensures r.0 == Created <==> |Validate(p.form).Keys| == 0
    ensures r.1.errors == Validate(p.form)
    ensures r.0 == Created ==> |r.1.errors| == 0
    ensures r.1.form == p.form
  {
    var errors := Validate(p.form);
    (if |errors.Keys| > 0 then Invalid else Created, p.(errors := errors))
  }
}
