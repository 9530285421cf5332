/** Selecting, ordering and projecting table rows, as queries do. */
module Tables {

  import TextOrder

  /** WHERE: the rows that satisfy a condition, in table order. */
  function Keep<T>(rows: seq<T>, p: T -> bool): seq<T> {
    if rows == [] then []
    else Keep(rows[..|rows| - 1], p) + if p(rows[|rows| - 1]) then [rows[|rows| - 1]] else []
  }

  /** SELECT: a value for every row. */
  function Project<T, U>(rows: seq<T>, f: T -> U): (values: seq<U>)
    ensures |values| == |rows| && forall i :: 0 <= i < |rows| ==> values[i] == f(rows[i])
  {
    seq(|rows|, i requires 0 <= i < |rows| => f(rows[i]))
  }

  /** Rows with their positions, which stand for their ids. */
  function Numbered<T>(rows: seq<T>): (numbered: seq<(nat, T)>)
    ensures |numbered| == |rows| && forall i :: 0 <= i < |rows| ==> numbered[i] == (i, rows[i])
  {
    seq(|rows|, i requires 0 <= i < |rows| => (i, rows[i]))
  }

  /** ORDER BY: a stable insertion sort, so rows that tie stay in id order. */
  function Sort<T>(rows: seq<T>, before: (T, T) -> bool): seq<T> {
    if rows == [] then [] else Insert(Sort(rows[..|rows| - 1], before), rows[|rows| - 1], before)
  }

  function Insert<T>(sorted: seq<T>, row: T, before: (T, T) -> bool): seq<T> {
    if sorted == [] || !before(row, sorted[|sorted| - 1]) then sorted + [row]
    else Insert(sorted[..|sorted| - 1], row, before) + [sorted[|sorted| - 1]]
  }

  /** LIMIT 1: the position of the first row that satisfies the condition, or the table's length. */
  function Find<T>(rows: seq<T>, p: T -> bool): (at: nat)
    ensures at <= |rows| && (at < |rows| ==> p(rows[at]))
    ensures forall i :: 0 <= i < at ==> !p(rows[i])
  {
    if rows == [] || p(rows[0]) then 0 else 1 + Find(rows[1..], p)
  }

  ghost predicate Sorted<T(!new)>(rows: seq<T>, before: (T, T) -> bool) {
    forall i, j :: 0 <= i < j < |rows| ==> !before(rows[j], rows[i])
  }

  /** A strict weak order: what ORDER BY needs. */
  ghost predicate Orders<T(!new)>(before: (T, T) -> bool) {
    && (forall a, b :: before(a, b) ==> !before(b, a))
    && (forall a, b, c :: !before(b, a) && !before(c, b) ==> !before(c, a))
  }

  // ---------------------------------------------------------------- selecting

  lemma {:induction false} KeepSplit<T>(a: seq<T>, b: seq<T>, p: T -> bool)
    ensures Keep(a + b, p) == Keep(a, p) + Keep(b, p)
  {
    if b == [] {
      assert a + b == a;
    } else {
      KeepSplit(a, b[..|b| - 1], p);
      assert (a + b)[..|a + b| - 1] == a + b[..|b| - 1];
    }
  }

  lemma {:induction false} KeepNone<T>(rows: seq<T>, p: T -> bool)
    requires forall i :: 0 <= i < |rows| ==> !p(rows[i])
    ensures Keep(rows, p) == []
  {
    if rows != [] {
      KeepNone(rows[..|rows| - 1], p);
    }
  }

  lemma {:induction false} KeepAll<T>(rows: seq<T>, p: T -> bool)
    requires forall i :: 0 <= i < |rows| ==> p(rows[i])
    ensures Keep(rows, p) == rows
  {
    if rows != [] {
      KeepAll(rows[..|rows| - 1], p);
    }
  }

  lemma {:induction false} KeepSame<T>(rows: seq<T>, p: T -> bool, q: T -> bool)
    requires forall i :: 0 <= i < |rows| ==> p(rows[i]) == q(rows[i])
    ensures Keep(rows, p) == Keep(rows, q)
  {
    if rows != [] {
      KeepSame(rows[..|rows| - 1], p, q);
    }
  }

  lemma {:induction false} KeepMember<T>(rows: seq<T>, p: T -> bool, x: T)
    ensures x in Keep(rows, p) <==> x in rows && p(x)
  {
    if rows != [] {
      KeepMember(rows[..|rows| - 1], p, x);
      assert rows == rows[..|rows| - 1] + [rows[|rows| - 1]];
    }
  }

  // ---------------------------------------------------------------- ordering

  lemma {:induction false} SortFixed<T(!new)>(rows: seq<T>, before: (T, T) -> bool)
    requires Sorted(rows, before)
    ensures Sort(rows, before) == rows
  {
    if rows != [] {
      var rest, last := rows[..|rows| - 1], rows[|rows| - 1];
      SortFixed(rest, before);
      assert rest != [] ==> rest[|rest| - 1] == rows[|rows| - 2];
      InsertAtEnd(rest, last, before);
      assert rows == rest + [last];
    }
  }

  lemma {:induction false} InsertAtEnd<T(!new)>(sorted: seq<T>, row: T, before: (T, T) -> bool)
    requires sorted != [] ==> !before(row, sorted[|sorted| - 1])
    ensures Insert(sorted, row, before) == sorted + [row]
  {
  }

  lemma {:induction false} InsertSorts<T(!new)>(sorted: seq<T>, row: T, before: (T, T) -> bool)
    requires Orders(before) && Sorted(sorted, before)
    ensures Sorted(Insert(sorted, row, before), before)
  {
    if sorted != [] {
      var rest, last := sorted[..|sorted| - 1], sorted[|sorted| - 1];
      if before(row, last) {
        InsertSorts(rest, row, before);
        InsertAdds(rest, row, before);
        var inserted := Insert(rest, row, before);
        forall i | 0 <= i < |inserted| ensures !before(last, inserted[i]) {
          assert inserted[i] in multiset(inserted);
          assert inserted[i] == row || inserted[i] in rest;
        }
      }
    }
  }

  lemma {:induction false} InsertAdds<T(!new)>(sorted: seq<T>, row: T, before: (T, T) -> bool)
    ensures multiset(Insert(sorted, row, before)) == multiset(sorted) + multiset{row}
  {
    if sorted != [] && before(row, sorted[|sorted| - 1]) {
      InsertAdds(sorted[..|sorted| - 1], row, before);
      assert sorted == sorted[..|sorted| - 1] + [sorted[|sorted| - 1]];
    }
  }

  lemma {:induction false} SortSorts<T(!new)>(rows: seq<T>, before: (T, T) -> bool)
    requires Orders(before)
    ensures Sorted(Sort(rows, before), before) && multiset(Sort(rows, before)) == multiset(rows)
  {
    if rows != [] {
      SortSorts(rows[..|rows| - 1], before);
      InsertSorts(Sort(rows[..|rows| - 1], before), rows[|rows| - 1], before);
      InsertAdds(Sort(rows[..|rows| - 1], before), rows[|rows| - 1], before);
      assert rows == rows[..|rows| - 1] + [rows[|rows| - 1]];
    }
  }

  lemma {:induction false} SameMembers<T>(a: seq<T>, b: seq<T>)
    requires multiset(a) == multiset(b)
    ensures |a| == |b| && forall x :: x in a <==> x in b
  {
    assert |multiset(a)| == |a| && |multiset(b)| == |b|;
    forall x ensures x in a <==> x in b {
      assert x in a <==> x in multiset(a);
      assert x in b <==> x in multiset(b);
    }
  }

  // ---------------------------------------------------------------- what holds between any two rows

  ghost predicate AllPairs<T(!new)>(rows: seq<T>, r: (T, T) -> bool) {
    forall i, j :: 0 <= i < j < |rows| ==> r(rows[i], rows[j])
  }

  ghost predicate Symmetric<T(!new)>(r: (T, T) -> bool) { forall a, b :: r(a, b) ==> r(b, a) }

  lemma {:induction false} KeepPairs<T(!new)>(rows: seq<T>, p: T -> bool, r: (T, T) -> bool)
    requires forall i, j :: 0 <= i < j < |rows| && p(rows[i]) && p(rows[j]) ==> r(rows[i], rows[j])
    ensures AllPairs(Keep(rows, p), r)
  {
    if rows != [] {
      var before, last := rows[..|rows| - 1], rows[|rows| - 1];
      KeepPairs(before, p, r);
      var kept := Keep(before, p);
      if p(last) {
        forall i | 0 <= i < |kept| ensures r(kept[i], last) {
          KeepMember(before, p, kept[i]);
          assert kept[i] in before;
          var at :| 0 <= at < |before| && before[at] == kept[i];
          assert rows[at] == kept[i];
        }
      }
    }
  }

  lemma {:induction false} InsertPairs<T(!new)>(sorted: seq<T>, row: T, before: (T, T) -> bool, r: (T, T) -> bool)
    requires Symmetric(r) && AllPairs(sorted, r) && forall i :: 0 <= i < |sorted| ==> r(sorted[i], row)
    ensures AllPairs(Insert(sorted, row, before), r)
    ensures forall x :: x in Insert(sorted, row, before) ==> x == row || x in sorted
  {
    if sorted != [] {
      var rest, last := sorted[..|sorted| - 1], sorted[|sorted| - 1];
      if before(row, last) {
        InsertPairs(rest, row, before, r);
        var inserted := Insert(rest, row, before);
        forall i | 0 <= i < |inserted| ensures r(inserted[i], last) {
          assert inserted[i] in inserted;
          assert inserted[i] == row || inserted[i] in rest;
        }
      }
    }
  }

  lemma {:induction false} SortPairs<T(!new)>(rows: seq<T>, before: (T, T) -> bool, r: (T, T) -> bool)
    requires Symmetric(r) && AllPairs(rows, r)
    ensures AllPairs(Sort(rows, before), r)
    ensures forall x :: x in Sort(rows, before) ==> x in rows
  {
    if rows != [] {
      var rest, last := rows[..|rows| - 1], rows[|rows| - 1];
      SortPairs(rest, before, r);
      var sorted := Sort(rest, before);
      forall i | 0 <= i < |sorted| ensures r(sorted[i], last) {
        assert sorted[i] in sorted;
        var at :| 0 <= at < |rest| && rest[at] == sorted[i];
        assert rows[at] == rest[at];
      }
      InsertPairs(sorted, last, before, r);
    }
  }

  lemma {:induction false} KeepSorted<T(!new)>(rows: seq<T>, p: T -> bool, before: (T, T) -> bool)
    requires Sorted(rows, before)
    ensures Sorted(Keep(rows, p), before)
  {
    if rows != [] {
      var rest, last := rows[..|rows| - 1], rows[|rows| - 1];
      KeepSorted(rest, p, before);
      var kept := Keep(rest, p);
      forall i | 0 <= i < |kept| ensures !before(last, kept[i]) {
        KeepMember(rest, p, kept[i]);
        assert kept[i] in rest;
        var at :| 0 <= at < |rest| && rest[at] == kept[i];
        assert rows[at] == kept[i];
      }
    }
  }

  // ---------------------------------------------------------------- text keys

  lemma {:induction false} NotLessTransitive(a: string, b: string, c: string)
    requires !TextOrder.Less(b, a) && !TextOrder.Less(c, b)
    ensures !TextOrder.Less(c, a)
  {
    TextOrder.Total(a, b);
    TextOrder.Total(b, c);
    if TextOrder.Less(c, a) {
      if b != c {
        TextOrder.Transitive(b, c, a);
      }
      assert false;
    }
  }

  lemma {:induction false} LessAsymmetric(a: string, b: string)
    requires TextOrder.Less(a, b)
    ensures !TextOrder.Less(b, a) && a != b
  {
    TextOrder.Irreflexive(a);
    if TextOrder.Less(b, a) {
      TextOrder.Transitive(a, b, a);
    }
  }

  /** Ordering rows by a text column. */
  function ByText<T>(key: T -> string): (T, T) -> bool {
    (a, b) => TextOrder.Less(key(a), key(b))
  }

  lemma {:induction false} ByTextOrders<T(!new)>(key: T -> string)
    ensures Orders(ByText(key))
  {
    var before := ByText(key);
    forall a, b | before(a, b) ensures !before(b, a) {
      LessAsymmetric(key(a), key(b));
    }
    forall a, b, c | !before(b, a) && !before(c, b) ensures !before(c, a) {
      NotLessTransitive(key(a), key(b), key(c));
    }
  }
}
