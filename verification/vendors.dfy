/**
 * The vendors page: the vendor record, its blank form, the add/edit
 * submit, delete and the search box.
 */
module Vendors {
  import opened Common
  import opened Records

  datatype Vendor = Vendor(
    name: string,
    nationalCode: string,
    economicCode: string,
    registrationNumber: string,
    mobile: string,
    phone: string,
    address: string,
    products: string,
    credit: string,
    contractDate: string,
    status: string)

  /** The form after a reset: every field empty, the contract date today
      (`today` stands for the current date) and the status 'active'. */
  function Blank(today: string): Vendor {
    Vendor("", "", "", "", "", "", "", "", "", today, "active")
  }

  /** `handleSubmit`: an edited vendor replaces the rows with its id; a new
      one is appended with id `length + 1`; then the form closes and is
      reset. */
  function HandleSubmit(p: Page<Vendor>, today: string): (r: Page<Vendor>)
    ensures HasId(p.current) ==> r.entries == Replace(p.entries, p.current.id.value, p.current.data)
    ensures !HasId(p.current) ==>
      |r.entries| == |p.entries| + 1 && r.entries[..|p.entries|] == p.entries
      && r.entries[|p.entries|] == Entry(|p.entries| + 1, p.current.data)
    ensures !r.showForm && r.current.id.None?
    ensures r.current.data == Vendor("", "", "", "", "", "", "", "", "", today, "active")
  {
    Records.HandleSubmit(p, Blank(today))
  }

  /** `filteredVendors`' test: the term occurs, case-sensitively, in the
      name, the national code, the mobile or the phone. */
  predicate Matches(v: Vendor, term: string) {
    Contains(v.name, term) || Contains(v.nationalCode, term) || Contains(v.mobile, term) || Contains(v.phone, term)
  }

  function FilteredVendors(entries: seq<Entry<Vendor>>, term: string): (r: seq<Entry<Vendor>>)
    ensures forall e :: e in r <==> (e in entries && (Contains(e.data.name, term) || Contains(e.data.nationalCode, term)
                                                      || Contains(e.data.mobile, term) || Contains(e.data.phone, term)))
    ensures IsSubsequence(r, entries)
    ensures term == "" ==> r == entries
  {
    if term == "" then
      forall e | e in entries
        ensures Matches(e.data, term)
      {
        ContainsEmpty(e.data.name);
      }
      Search(entries, (v: Vendor) => Matches(v, term))
    else
      Search(entries, (v: Vendor) => Matches(v, term))
  }
}
