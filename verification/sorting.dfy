/**
 * Column sorting of the list pages: the sort configuration toggled by a
 * click on a column header, and `[...rows].sort(cmp)` with the comparator
 * the pages write, which answers 1 or -1 and never 0.
 */
module Sorting {

  datatype Direction = Asc | Desc

  /** `sortConfig`: the column key and the direction. */
  datatype SortConfig<K> = SortConfig(key: K, direction: Direction)

  /** `handleSort(key)`: a click on the column sorted ascending turns it
      descending; any other click sorts the clicked column ascending. */
  function HandleSort<K(==)>(cfg: SortConfig<K>, key: K): (r: SortConfig<K>)
    ensures r.key == key
    ensures r.direction == Desc <==> cfg.key == key && cfg.direction == Asc
  {
    SortConfig(key, if cfg.key == key && cfg.direction == Asc then Desc else Asc)
  }

  /** A second click on the same header always flips the direction, and a
      third click restores the direction of the first. */
  lemma HandleSortRepeated<K>(cfg: SortConfig<K>, key: K)
    ensures HandleSort(HandleSort(cfg, key), key).direction != HandleSort(cfg, key).direction
    ensures HandleSort(HandleSort(HandleSort(cfg, key), key), key) == HandleSort(cfg, key)
  {
  }

  /** The value of a sort column: a string or a number. */
  datatype SortValue = Text(s: string) | Num(n: real)

  /** JavaScript `<` on two strings: lexicographic by character, a proper
      prefix before the longer string. */
  predicate LexLess(a: string, b: string)
    decreases |a|
  {
    |b| > 0 && (|a| == 0 || a[0] < b[0] || (a[0] == b[0] && LexLess(a[1..], b[1..])))
  }

  /** JavaScript `<` on two column values of the same kind; values of
      different kinds never occur in one column and are left unordered. */
  predicate Less(x: SortValue, y: SortValue) {
    match (x, y)
    case (Text(a), Text(b)) => LexLess(a, b)
    case (Num(a), Num(b)) => a < b
    case _ => false
  }

  predicate SameKind(x: SortValue, y: SortValue) {
    x.Text? == y.Text?
  }

  lemma {:induction false} LexLessIrreflexive(a: string)
    ensures !LexLess(a, a)
    decreases |a|
  {
    if |a| > 0 {
      LexLessIrreflexive(a[1..]);
    }
  }

  lemma {:induction false} LexLessTransitive(a: string, b: string, c: string)
    requires LexLess(a, b) && LexLess(b, c)
    ensures LexLess(a, c)
    decreases |a|
  {
    if |a| > 0 && a[0] == b[0] && b[0] == c[0] {
      LexLessTransitive(a[1..], b[1..], c[1..]);
    }
  }

  lemma {:induction false} LexLessTotal(a: string, b: string)
    requires a != b
    ensures LexLess(a, b) || LexLess(b, a)
    decreases |a|
  {
    if |a| > 0 && |b| > 0 && a[0] == b[0] {
      assert a == [a[0]] + a[1..] && b == [b[0]] + b[1..];
      LexLessTotal(a[1..], b[1..]);
    }
  }

  /** `Less` is a strict total order on values of one kind. */
  lemma LessIsStrictOrder(x: SortValue, y: SortValue, z: SortValue)
    ensures !Less(x, x)
    ensures Less(x, y) && Less(y, z) ==> Less(x, z)
    ensures x != y && SameKind(x, y) ==> Less(x, y) || Less(y, x)
  {
    if x.Text? {
      LexLessIrreflexive(x.s);
    }
    if Less(x, y) && Less(y, z) && x.Text? {
      LexLessTransitive(x.s, y.s, z.s);
    }
    if x != y && SameKind(x, y) && x.Text? {
      LexLessTotal(x.s, y.s);
    }
  }

  /** The comparator of the list pages: ascending answers
      `a > b ? 1 : -1`, descending answers `a < b ? 1 : -1`. */
  function Compare(a: SortValue, b: SortValue, dir: Direction): int {
    match dir
    case Asc => if Less(b, a) then 1 else -1
    case Desc => if Less(a, b) then 1 else -1
  }

  /** `a` comes strictly before `b` in direction `dir`. */
  predicate Precedes(a: SortValue, b: SortValue, dir: Direction) {
    match dir
    case Asc => Less(a, b)
    case Desc => Less(b, a)
  }

  /** Inserts `x` into `r`, after every element the comparator places
      before it. */
  function Insert<T(!new)>(x: T, r: seq<T>, key: T -> SortValue, dir: Direction): (r': seq<T>)
    ensures multiset(r') == multiset(r) + multiset{x}
    ensures |r'| == |r| + 1
  {
    if |r| == 0 then [x]
    else if Compare(key(x), key(r[0]), dir) > 0 then
      assert r == [r[0]] + r[1..];
      [r[0]] + Insert(x, r[1..], key, dir)
    else [x] + r
  }

  /** `[...rows].sort(cmp)`, as an insertion sort driven by the same
      comparator. */
  function SortBy<T(!new)>(rows: seq<T>, key: T -> SortValue, dir: Direction): (r: seq<T>)
    ensures multiset(r) == multiset(rows)
    ensures |r| == |rows|
    decreases |rows|
  {
    if |rows| == 0 then []
    else
      assert rows == rows[..|rows| - 1] + [rows[|rows| - 1]];
      Insert(rows[|rows| - 1], SortBy(rows[..|rows| - 1], key, dir), key, dir)
  }

  /** The rows are in strict order of their keys. */
  predicate Ordered<T>(r: seq<T>, key: T -> SortValue, dir: Direction) {
    forall i, j :: 0 <= i < j < |r| ==> Precedes(key(r[i]), key(r[j]), dir)
  }

  /** No two rows share a key, and all keys are of one kind. */
  predicate DistinctKeys<T>(rows: seq<T>, key: T -> SortValue) {
    forall i, j :: 0 <= i < j < |rows| ==> key(rows[i]) != key(rows[j]) && SameKind(key(rows[i]), key(rows[j]))
  }

  lemma PrecedesIsStrictOrder(a: SortValue, b: SortValue, c: SortValue, dir: Direction)
    ensures Precedes(a, b, dir) && Precedes(b, c, dir) ==> Precedes(a, c, dir)
    ensures a != b && SameKind(a, b) ==> Precedes(a, b, dir) || Precedes(b, a, dir)
    ensures !(Precedes(a, b, dir) && Precedes(b, a, dir))
  {
    LessIsStrictOrder(a, b, c);
    LessIsStrictOrder(c, b, a);
    if Less(a, b) && Less(b, a) {
      LessIsStrictOrder(a, b, a);
    }
  }

  lemma {:induction false} InsertOrdered<T(!new)>(x: T, r: seq<T>, key: T -> SortValue, dir: Direction)
    requires Ordered(r, key, dir)
    requires forall y :: y in r ==> key(y) != key(x) && SameKind(key(y), key(x))
    ensures Ordered(Insert(x, r, key, dir), key, dir)
    decreases |r|
  {
    if |r| > 0 {
      var r' := Insert(x, r, key, dir);
      if Compare(key(x), key(r[0]), dir) > 0 {
        assert forall y :: y in r[1..] ==> y in r;
        InsertOrdered(x, r[1..], key, dir);
        var tail := Insert(x, r[1..], key, dir);
        assert r' == [r[0]] + tail;
        assert Precedes(key(r[0]), key(x), dir);
        forall j | 0 < j < |r'|
          ensures Precedes(key(r'[0]), key(r'[j]), dir)
        {
          var y := tail[j - 1];
          assert y in multiset(tail);
          if y != x {
            assert y in r[1..];
            var k :| 0 <= k < |r[1..]| && r[1..][k] == y;
            assert r[k + 1] == y;
          }
        }
      } else {
        assert r[0] in r;
        PrecedesIsStrictOrder(key(x), key(r[0]), key(r[0]), dir);
        assert Precedes(key(x), key(r[0]), dir);
        forall j | 0 < j < |r'|
          ensures Precedes(key(r'[0]), key(r'[j]), dir)
        {
          if j > 1 {
            PrecedesIsStrictOrder(key(x), key(r[0]), key(r[j - 1]), dir);
          }
        }
      }
    }
  }

  /** When the keys are distinct, the sort orders the rows strictly by
      key. (With repeated keys the comparator is inconsistent and the
      order of ties is left to the engine.) */
  lemma {:induction false} SortByOrdered<T(!new)>(rows: seq<T>, key: T -> SortValue, dir: Direction)
    requires DistinctKeys(rows, key)
    ensures Ordered(SortBy(rows, key, dir), key, dir)
    decreases |rows|
  {
    if |rows| > 0 {
      var n := |rows| - 1;
      var prefix := rows[..n];
      var x := rows[n];
      SortByOrdered(prefix, key, dir);
      var sorted := SortBy(prefix, key, dir);
      forall y | y in sorted
        ensures key(y) != key(x) && SameKind(key(y), key(x))
      {
        assert y in multiset(prefix);
        var k :| 0 <= k < n && prefix[k] == y;
        assert rows[k] == y;
      }
      InsertOrdered(x, sorted, key, dir);
    }
  }
}
