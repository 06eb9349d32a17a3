/**
 * The bank-accounts page: the new-account form with its early-return
 * checks and reset, and the account table with its column sort and
 * search box.
 */
module Banks {
  import opened Common
  import opened Sorting

  /** A loaded bank account row. */
  datatype Bank = Bank(
    id: int,
    bankName: string,
    branchName: string,
    branchCode: string,
    accountNumber: string,
    cardNumber: string,
    ibanNumber: string,
    accountType: string,
    currency: string,
    balance: real,
    isActive: bool,
    lastTransaction: string)

  /** The new-account form. */
  datatype Form = Form(
    bankName: string,
    branchName: string,
    branchCode: string,
    accountNumber: string,
    cardNumber: string,
    ibanNumber: string,
    accountType: string,
    currency: string,
    description: string,
    isActive: bool,
    openingBalance: string,
    openingDate: string)

  /** The empty form; `today` stands for the current date. */
  function DefaultForm(today: string): Form {
    Form("", "", "", "", "", "", "current", "IRR", "", true, "0", today)
  }

  const CardNumberLength := 16
  const IbanLength := 26

  /** The checks of `handleSubmit`, in the order they run. */
  datatype Problem = BankNameRequired | AccountNumberRequired | BadCardNumber | BadIban

  function Message(p: Problem): string {
    match p
    case BankNameRequired => "نام بانک اجباری است"
    case AccountNumberRequired => "شماره حساب اجباری است"
    case BadCardNumber => "شماره کارت باید 16 رقم باشد"
    case BadIban => "شماره شبا باید 26 کاراکتر باشد"
  }

  /** Each check has its own message, so the one shown names the failed
      check. */
  lemma MessagesDistinct(p: Problem, q: Problem)
    requires p != q
    ensures Message(p) != Message(q)
  {
  }

  /** The first failing check, or `None` when all pass: each check
      returns early, so only one message is ever shown. */
  function FirstProblem(f: Form): (r: Option<Problem>)
    ensures r == Some(BankNameRequired) <==> !Truthy(f.bankName)
    ensures r == Some(AccountNumberRequired) <==> Truthy(f.bankName) && !Truthy(f.accountNumber)
    ensures r == Some(BadCardNumber) <==>
      Truthy(f.bankName) && Truthy(f.accountNumber) && Truthy(f.cardNumber) && |f.cardNumber| != CardNumberLength
    ensures r.None? <==>
      Truthy(f.bankName) && Truthy(f.accountNumber)
      && (!Truthy(f.cardNumber) || |f.cardNumber| == CardNumberLength)
      && (!Truthy(f.ibanNumber) || |f.ibanNumber| == IbanLength)
  {
    if !Truthy(f.bankName) then Some(BankNameRequired)
    else if !Truthy(f.accountNumber) then Some(AccountNumberRequired)
    else if Truthy(f.cardNumber) && |f.cardNumber| != CardNumberLength then Some(BadCardNumber)
    else if Truthy(f.ibanNumber) && |f.ibanNumber| != IbanLength then Some(BadIban)
    else None
  }

  /** Every check the form fails, in check order, independently of the
      early return. */
  function AllProblems(f: Form): seq<Problem> {
    (if !Truthy(f.bankName) then [BankNameRequired] else [])
    + (if !Truthy(f.accountNumber) then [AccountNumberRequired] else [])
    + (if Truthy(f.cardNumber) && |f.cardNumber| != CardNumberLength then [BadCardNumber] else [])
    + (if Truthy(f.ibanNumber) && |f.ibanNumber| != IbanLength then [BadIban] else [])
  }

  /** The reported problem is the first of all failing checks, and the form
      passes exactly when no check fails. */
  lemma FirstProblemIsFirstOfAll(f: Form)
    ensures FirstProblem(f).None? <==> |AllProblems(f)| == 0
    ensures FirstProblem(f).Some? ==> FirstProblem(f).value == AllProblems(f)[0]
  {
  }

  /** The sortable columns. */
  datatype Column = BankName | AccountNumber | Balance

  function ColumnValue(b: Bank, c: Column): SortValue {
    match c
    case BankName => Text(b.bankName)
    case AccountNumber => Text(b.accountNumber)
    case Balance => Num(b.balance)
  }

  /** The page state. */
  datatype Page = Page(
    banks: seq<Bank>,
    showNewForm: bool,
    searchTerm: string,
    sort: SortConfig<Column>,
    form: Form)

  datatype Outcome = Rejected(problem: Problem) | Registered

  /** `handleSubmit`: a failing check leaves the page as it was; success
      closes the form, resets it to its defaults and reloads the list
      (`reloaded` stands for the fetched rows). */
  function HandleSubmit(p: Page, today: string, reloaded: seq<Bank>): (r: (Outcome, Page))
    ensures r.0.Rejected? <==> FirstProblem(p.form).Some?
    ensures r.0.Rejected? ==> r.0.problem == FirstProblem(p.form).value && r.1 == p
    ensures r.0.Registered? ==>
      && !r.1.showNewForm
      && r.1.banks == reloaded
      && r.1.form.accountType == "current" && r.1.form.currency == "IRR"
      && r.1.form.openingBalance == "0" && r.1.form.isActive
      && r.1.form.bankName == "" && r.1.form.accountNumber == ""
      && r.1.form.cardNumber == "" && r.1.form.ibanNumber == ""
      && r.1.form.branchName == "" && r.1.form.branchCode == "" && r.1.form.description == ""
      && r.1.form.openingDate == today
    ensures r.1.searchTerm == p.searchTerm && r.1.sort == p.sort
  {
    match FirstProblem(p.form)
    case Some(problem) => (Rejected(problem), p)
    case None => (Registered, p.(showNewForm := false, form := DefaultForm(today), banks := reloaded))
  }

  /** The reset form itself is rejected: a freshly reset form has no bank
      name. */
  lemma ResetFormIsIncomplete(today: string)
    ensures FirstProblem(DefaultForm(today)) == Some(BankNameRequired)
  {
  }

  /** `handleSort` on this page. */
  function HandleSortColumn(p: Page, c: Column): (r: Page)
    ensures r.sort.key == c
    ensures r.sort.direction == Desc <==> p.sort.key == c && p.sort.direction == Asc
    ensures r == p.(sort := r.sort)
  {
    p.(sort := HandleSort(p.sort, c))
  }

  /** `sortedBanks`. */
  function SortedBanks(banks: seq<Bank>, sort: SortConfig<Column>): (r: seq<Bank>)
    ensures multiset(r) == multiset(banks)
  {
    SortBy(banks, (b: Bank) => ColumnValue(b, sort.key), sort.direction)
  }

  /** With distinct column values, `sortedBanks` is strictly ordered by
      the column in the configured direction. */
  lemma SortedBanksOrdered(banks: seq<Bank>, sort: SortConfig<Column>)
    requires DistinctKeys(banks, (b: Bank) => ColumnValue(b, sort.key))
    ensures var r := SortedBanks(banks, sort);
            forall i, j :: 0 <= i < j < |r| ==>
              Precedes(ColumnValue(r[i], sort.key), ColumnValue(r[j], sort.key), sort.direction)
  {
    SortByOrdered(banks, (b: Bank) => ColumnValue(b, sort.key), sort.direction);
  }

  /** The search test: the bank name ignoring case, the three numbers as
      typed. */
  predicate MatchesSearch(b: Bank, term: string) {
    || ContainsIgnoringCase(b.bankName, term)
    || Contains(b.accountNumber, term)
    || Contains(b.cardNumber, term)
    || Contains(b.ibanNumber, term)
  }

  /** `filteredBanks`: the sorted rows that match the search, in sorted
      order. */
  function FilteredBanks(sorted: seq<Bank>, term: string): (r: seq<Bank>)
    ensures forall b :: b in r <==> (b in sorted &&
      (ContainsIgnoringCase(b.bankName, term) || Contains(b.accountNumber, term)
       || Contains(b.cardNumber, term) || Contains(b.ibanNumber, term)))
    ensures IsSubsequence(r, sorted)
    ensures term == "" ==> r == sorted
  {
    FilterIsSubsequence(sorted, (b: Bank) => MatchesSearch(b, term));
    EmptySearchKeepsAll(sorted, term);
    Filter(sorted, (b: Bank) => MatchesSearch(b, term))
  }

  lemma EmptySearchKeepsAll(sorted: seq<Bank>, term: string)
    ensures term == "" ==> Filter(sorted, (b: Bank) => MatchesSearch(b, term)) == sorted
  {
    if term == "" {
      forall b | b in sorted
        ensures MatchesSearch(b, term)
      {
        ContainsEmpty(Lower(b.bankName));
      }
      FilterAll(sorted, (b: Bank) => MatchesSearch(b, term));
    }
  }

  /** What the table shows: the filtered rows of the sorted rows. */
  function VisibleBanks(p: Page): (r: seq<Bank>)
    ensures |r| <= |p.banks|
    ensures forall b :: b in r <==> b in p.banks && MatchesSearch(b, p.searchTerm)
  {
    var sorted := SortedBanks(p.banks, p.sort);
    assert forall b :: b in sorted <==> b in multiset(sorted);
    assert |sorted| == |multiset(sorted)| == |p.banks|;
    FilteredBanks(sorted, p.searchTerm)
  }
}
