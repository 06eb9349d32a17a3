/**
 * The shareholders page: the shareholder record, its blank form, the
 * add/edit submit, delete and the search box.
 */
module Shareholders {
  import opened Common
  import opened Records

  datatype Shareholder = Shareholder(
    name: string,
    shares: string,
    nationalCode: string,
    investmentAmount: string,
    date: string,
    status: string)

  /** The form after a reset: every field empty, the date today (`today`
      stands for the current date) and the status 'active'. */
  function Blank(today: string): Shareholder {
    Shareholder("", "", "", "", today, "active")
  }

  /** `handleSubmit`: an edited shareholder replaces the rows with its id;
      a new one is appended with id `length + 1`; then the form closes and
      is reset. */
  function HandleSubmit(p: Page<Shareholder>, today: string): (r: Page<Shareholder>)
    ensures HasId(p.current) ==> r.entries == Replace(p.entries, p.current.id.value, p.current.data)
    ensures !HasId(p.current) ==>
      |r.entries| == |p.entries| + 1 && r.entries[..|p.entries|] == p.entries
      && r.entries[|p.entries|] == Entry(|p.entries| + 1, p.current.data)
    ensures !r.showForm && r.current.id.None?
    ensures r.current.data == Shareholder("", "", "", "", today, "active")
  {
    Records.HandleSubmit(p, Blank(today))
  }

  /** `filteredShareholders`' test: the term occurs, case-sensitively, in
      the name or the national code. */
  predicate Matches(s: Shareholder, term: string) {
    Contains(s.name, term) || Contains(s.nationalCode, term)
  }

  function FilteredShareholders(entries: seq<Entry<Shareholder>>, term: string): (r: seq<Entry<Shareholder>>)
    ensures forall e :: e in r <==> (e in entries && (Contains(e.data.name, term) || Contains(e.data.nationalCode, term)))
    ensures IsSubsequence(r, entries)
    ensures term == "" ==> r == entries
  {
    if term == "" then
      forall e | e in entries
        ensures Matches(e.data, term)
      {
        ContainsEmpty(e.data.name);
      }
      Search(entries, (s: Shareholder) => Matches(s, term))
    else
      Search(entries, (s: Shareholder) => Matches(s, term))
  }
}
