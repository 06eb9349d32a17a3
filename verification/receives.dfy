/**
 * The receipts page: the list of money received, delete, the search box
 * (the badges and labels are in the status module).
 */
module Receives {
  import opened Common
  import opened Records

  datatype Receive = Receive(person: string, amount: string, date: string, paymentMethod: string, status: string)

  /** `filteredReceives`' test: the term occurs, case-sensitively, in the
      person, the amount as written, or the date. */
  predicate Matches(r: Receive, term: string) {
    Contains(r.person, term) || Contains(r.amount, term) || Contains(r.date, term)
  }

  function FilteredReceives(entries: seq<Entry<Receive>>, term: string): (r: seq<Entry<Receive>>)
    ensures forall e :: e in r <==> (e in entries
      && (Contains(e.data.person, term) || Contains(e.data.amount, term) || Contains(e.data.date, term)))
    ensures IsSubsequence(r, entries)
    ensures term == "" ==> r == entries
  {
    if term == "" then
      forall e | e in entries
        ensures Matches(e.data, term)
      {
        ContainsEmpty(e.data.person);
      }
      Search(entries, (x: Receive) => Matches(x, term))
    else
      Search(entries, (x: Receive) => Matches(x, term))
  }

  /** `handleDelete`: a confirmed delete removes exactly the receipts with
      that id and keeps the others in order. */
  function HandleDelete(entries: seq<Entry<Receive>>, id: int, confirmed: bool): (r: seq<Entry<Receive>>)
    ensures !confirmed ==> r == entries
    ensures confirmed ==> forall e :: e in r <==> e in entries && e.id != id
    ensures IsSubsequence(r, entries)
  {
    Delete(entries, id, confirmed)
  }

  /** Deleting and then searching is searching and then deleting. */
  lemma DeleteCommutesWithSearch(entries: seq<Entry<Receive>>, id: int, term: string)
    ensures forall e :: e in FilteredReceives(HandleDelete(entries, id, true), term)
                    <==> e in HandleDelete(FilteredReceives(entries, term), id, true)
  {
  }
}
