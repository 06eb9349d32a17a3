/**
 * The person list page: delete, the search box and the person-type
 * label.
 */
module People {
  import opened Common
  import opened Records

  datatype Person = Person(name: string, nationalCode: string, mobile: string, personType: string)

  /** `filteredPeople`' test: the term occurs, case-sensitively, in the
      name, the national code or the mobile. */
  predicate Matches(p: Person, term: string) {
    Contains(p.name, term) || Contains(p.nationalCode, term) || Contains(p.mobile, term)
  }

  function FilteredPeople(entries: seq<Entry<Person>>, term: string): (r: seq<Entry<Person>>)
    ensures forall e :: e in r <==> (e in entries
      && (Contains(e.data.name, term) || Contains(e.data.nationalCode, term) || Contains(e.data.mobile, term)))
    ensures IsSubsequence(r, entries)
    ensures term == "" ==> r == entries
  {
    if term == "" then
      forall e | e in entries
        ensures Matches(e.data, term)
      {
        ContainsEmpty(e.data.name);
      }
      Search(entries, (x: Person) => Matches(x, term))
    else
      Search(entries, (x: Person) => Matches(x, term))
  }

  /** `handleDelete`: a confirmed delete removes exactly the persons with
      that id and keeps the others in order. */
  function HandleDelete(entries: seq<Entry<Person>>, id: int, confirmed: bool): (r: seq<Entry<Person>>)
    ensures !confirmed ==> r == entries
    ensures confirmed ==> forall e :: e in r <==> e in entries && e.id != id
    ensures IsSubsequence(r, entries)
  {
    Delete(entries, id, confirmed)
  }

  /** The type column: حقیقی (natural person) for 'real', حقوقی (legal
      person) for anything else. */
  function TypeLabel(personType: string): (t: string)
    ensures t == "حقیقی" <==> personType == "real"
    ensures t != "حقیقی" ==> t == "حقوقی"
  {
    if personType == "real" then "حقیقی" else "حقوقی"
  }
}
