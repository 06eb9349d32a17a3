/**
 * The in-memory record pages (vendors, shareholders, receipts, people):
 * a list of rows with numeric ids, the form's draft row, and the add,
 * edit and delete handlers they share. A row is an id plus the page's
 * own data record `D`.
 */
module Records {
  import opened Common

  datatype Entry<D> = Entry(id: int, data: D)

  /** The row being edited. A new row has no id; a row opened for editing
      keeps its own. */
  datatype Draft<D> = Draft(id: Option<int>, data: D)

  /** `if (current.id)`: the id is present and not 0. */
  predicate HasId<D>(d: Draft<D>) {
    d.id.Some? && d.id.value != 0
  }

  function EntryIds<D>(list: seq<Entry<D>>): (r: seq<int>)
    ensures |r| == |list|
    ensures forall i :: 0 <= i < |list| ==> r[i] == list[i].id
  {
    seq(|list|, i requires 0 <= i < |list| => list[i].id)
  }

  /** No two rows share an id. */
  predicate UniqueIds<D>(list: seq<Entry<D>>) {
    forall i, j :: 0 <= i < j < |list| ==> list[i].id != list[j].id
  }

  /** `list.map(v => v.id === id ? { ...draft } : v)`: every row with that
      id becomes the draft; the others stay. */
  function Replace<D>(list: seq<Entry<D>>, id: int, data: D): (r: seq<Entry<D>>)
    ensures |r| == |list|
    ensures forall i :: 0 <= i < |list| && list[i].id != id ==> r[i] == list[i]
    ensures forall i :: 0 <= i < |list| && list[i].id == id ==> r[i] == Entry(id, data)
  {
    seq(|list|, i requires 0 <= i < |list| => if list[i].id == id then Entry(id, data) else list[i])
  }

  /** Replacing keeps every id where it was, so it keeps ids unique. */
  lemma ReplaceKeepsIds<D>(list: seq<Entry<D>>, id: int, data: D)
    ensures EntryIds(Replace(list, id, data)) == EntryIds(list)
    ensures UniqueIds(list) ==> UniqueIds(Replace(list, id, data))
  {
  }

  /** `handleSubmit`'s list update as written: a draft with an id replaces
      the rows with that id; any other draft is appended with id
      `length + 1`. */
  function Submit<D>(list: seq<Entry<D>>, d: Draft<D>): (r: seq<Entry<D>>)
    ensures HasId(d) ==> r == Replace(list, d.id.value, d.data)
    ensures !HasId(d) ==> |r| == |list| + 1 && r[..|list|] == list && r[|list|] == Entry(|list| + 1, d.data)
  {
    if HasId(d) then Replace(list, d.id.value, d.data)
    else list + [Entry(|list| + 1, d.data)]
  }

  /** `handleDelete(id)`: a confirmed delete keeps exactly the rows with
      another id, in order; an unconfirmed one changes nothing. */
  function Delete<D(==,!new)>(list: seq<Entry<D>>, id: int, confirmed: bool): (r: seq<Entry<D>>)
    ensures !confirmed ==> r == list
    ensures confirmed ==> forall e :: e in r <==> e in list && e.id != id
    ensures confirmed ==> forall e :: multiset(r)[e] == if e.id != id then multiset(list)[e] else 0
    ensures IsSubsequence(r, list)
  {
    if confirmed then
      FilterIsSubsequence(list, (e: Entry<D>) => e.id != id);
      Filter(list, (e: Entry<D>) => e.id != id)
    else
      SubsequenceReflexive(list);
      list
  }

  lemma {:induction false} SubsequenceReflexive<T>(s: seq<T>)
    ensures IsSubsequence(s, s)
    decreases |s|
  {
    if |s| > 0 {
      SubsequenceReflexive(s[1..]);
    }
  }

  /** Leaving rows out keeps ids unique. */
  lemma {:induction false} SubsequenceKeepsUnique<D>(a: seq<Entry<D>>, b: seq<Entry<D>>)
    requires IsSubsequence(a, b) && UniqueIds(b)
    ensures UniqueIds(a)
    ensures forall e :: e in a ==> e in b
    decreases |b|
  {
    if |a| > 0 {
      assert UniqueIds(b[1..]) by {
        forall i, j | 0 <= i < j < |b[1..]|
          ensures b[1..][i].id != b[1..][j].id
        {
          assert b[1..][i] == b[i + 1] && b[1..][j] == b[j + 1];
        }
      }
      if a[0] == b[0] {
        SubsequenceKeepsUnique(a[1..], b[1..]);
        forall j | 0 < j < |a|
          ensures a[0].id != a[j].id
        {
          assert a[j] == a[1..][j - 1];
          assert a[j] in a[1..];
          var k :| 0 <= k < |b[1..]| && b[1..][k] == a[j];
          assert b[k + 1] == a[j];
        }
        forall e | e in a
          ensures e in b
        {
          if e != a[0] {
            assert e in a[1..];
          }
        }
      } else {
        SubsequenceKeepsUnique(a, b[1..]);
      }
    }
  }

  /** The adding branch numbers rows correctly only as long as nothing was
      deleted: when the ids are 1..n in order, `n + 1` is new. */
  lemma LengthIdFreshWithoutGaps<D>(list: seq<Entry<D>>, d: Draft<D>)
    requires forall i :: 0 <= i < |list| ==> list[i].id == i + 1
    requires !HasId(d)
    ensures UniqueIds(Submit(list, d))
  {
  }

  /** After a delete, `length + 1` can be an id already in use: delete row
      1 of two rows, add a row, and two rows have id 2. */
  lemma LengthIdCollidesAfterDelete<D(!new)>(a: D, b: D, c: D)
    ensures var afterDelete := Delete([Entry(1, a), Entry(2, b)], 1, true);
            var afterAdd := Submit(afterDelete, Draft(None, c));
            afterAdd == [Entry(2, b), Entry(2, c)] && !UniqueIds(afterAdd)
  {
    var list := [Entry(1, a), Entry(2, b)];
    var afterDelete := Delete(list, 1, true);
    assert Entry(2, b) in afterDelete;
    assert |afterDelete| <= 1 by {
      assert Entry(1, a) !in afterDelete;
      assert afterDelete == Filter(list, (e: Entry<D>) => e.id != 1);
    }
    assert afterDelete == [Entry(2, b)];
    var afterAdd := Submit(afterDelete, Draft(None, c));
    assert afterAdd[0].id == afterAdd[1].id;
  }

  /** The largest id in use, or 0 for an empty list. */
  function MaxId<D>(list: seq<Entry<D>>): (m: int)
    ensures m >= 0
    ensures forall i :: 0 <= i < |list| ==> list[i].id <= m
  {
    if |list| == 0 then 0
    else
      var rest := MaxId(list[1..]);
      assert forall i :: 1 <= i < |list| ==> list[i] == list[1..][i - 1];
      if list[0].id > rest then list[0].id else rest
  }

  /** The add branch with an id above every id in use. */
  function SubmitFresh<D>(list: seq<Entry<D>>, d: Draft<D>): (r: seq<Entry<D>>)
    ensures HasId(d) ==> r == Replace(list, d.id.value, d.data)
    ensures !HasId(d) ==> |r| == |list| + 1 && r[..|list|] == list && r[|list|].data == d.data
    ensures !HasId(d) ==> r[|list|].id !in EntryIds(list)
    ensures UniqueIds(list) ==> UniqueIds(r)
  {
    if HasId(d) then
      ReplaceKeepsIds(list, d.id.value, d.data);
      Replace(list, d.id.value, d.data)
    else
      list + [Entry(MaxId(list) + 1, d.data)]
  }

  /** A page of records: the rows, the search box, whether the form is
      open, and the draft in the form. */
  datatype Page<D> = Page(entries: seq<Entry<D>>, searchTerm: string, showForm: bool, current: Draft<D>)

  /** `handleSubmit` as written: the list update, then the form is closed
      and reset to the page's blank record. */
  function HandleSubmit<D>(p: Page<D>, blank: D): (r: Page<D>)
    ensures r.entries == Submit(p.entries, p.current)
    ensures !r.showForm && r.current == Draft(None, blank)
    ensures r.searchTerm == p.searchTerm
  {
    Page(Submit(p.entries, p.current), p.searchTerm, false, Draft(None, blank))
  }

  /** `handleSubmit` with fresh ids. */
  function HandleSubmitFresh<D>(p: Page<D>, blank: D): (r: Page<D>)
    ensures r.entries == SubmitFresh(p.entries, p.current)
    ensures !r.showForm && r.current == Draft(None, blank)
    ensures r.searchTerm == p.searchTerm
  {
    Page(SubmitFresh(p.entries, p.current), p.searchTerm, false, Draft(None, blank))
  }

  /** `handleEdit(row)`: the row goes into the form, which opens. */
  function HandleEdit<D>(p: Page<D>, e: Entry<D>): (r: Page<D>)
    ensures r.current.id == Some(e.id) && r.current.data == e.data && r.showForm
    ensures r.entries == p.entries && r.searchTerm == p.searchTerm
  {
    p.(showForm := true, current := Draft(Some(e.id), e.data))
  }

  /** Opening a row for editing and saving it untouched leaves the rows as
      they were, when ids are unique. */
  lemma EditThenSaveUnchanged<D>(p: Page<D>, i: int, blank: D)
    requires UniqueIds(p.entries)
    requires 0 <= i < |p.entries| && p.entries[i].id != 0
    ensures HandleSubmit(HandleEdit(p, p.entries[i]), blank).entries == p.entries
  {
    var e := p.entries[i];
    var r := Replace(p.entries, e.id, e.data);
    forall j | 0 <= j < |p.entries|
      ensures r[j] == p.entries[j]
    {
      if p.entries[j].id == e.id {
        assert j == i;
      }
    }
  }

  /** `handleDelete` on the page. */
  function HandleDelete<D(==,!new)>(p: Page<D>, id: int, confirmed: bool): (r: Page<D>)
    ensures r == p.(entries := Delete(p.entries, id, confirmed))
    ensures confirmed ==> id !in EntryIds(r.entries)
    ensures |r.entries| <= |p.entries|
  {
    var r := p.(entries := Delete(p.entries, id, confirmed));
    if confirmed then
      assert forall i :: 0 <= i < |r.entries| ==> r.entries[i] in r.entries;
      r
    else
      r
  }

  /** With fresh ids, adding, editing and deleting all keep ids unique. */
  lemma FreshHandlersKeepUnique<D(!new)>(p: Page<D>, blank: D, e: Entry<D>, id: int, confirmed: bool)
    requires UniqueIds(p.entries)
    ensures UniqueIds(HandleSubmitFresh(p, blank).entries)
    ensures UniqueIds(HandleEdit(p, e).entries)
    ensures UniqueIds(HandleDelete(p, id, confirmed).entries)
  {
    SubsequenceKeepsUnique(Delete(p.entries, id, confirmed), p.entries);
  }
  /** A search box filter: the rows whose data pass `matches`, in order;
      when every row passes, all rows, unchanged. */
  function Search<D(==,!new)>(entries: seq<Entry<D>>, matches: D -> bool): (r: seq<Entry<D>>)
    ensures forall e :: e in r <==> e in entries && matches(e.data)
    ensures forall e :: multiset(r)[e] == if matches(e.data) then multiset(entries)[e] else 0
    ensures IsSubsequence(r, entries)
    ensures (forall e :: e in entries ==> matches(e.data)) ==> r == entries
  {
    FilterIsSubsequence(entries, (e: Entry<D>) => matches(e.data));
    if forall e :: e in entries ==> matches(e.data) then
      FilterAll(entries, (e: Entry<D>) => matches(e.data));
      Filter(entries, (e: Entry<D>) => matches(e.data))
    else
      Filter(entries, (e: Entry<D>) => matches(e.data))
  }
}
