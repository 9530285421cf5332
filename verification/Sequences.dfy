/** What several modules say about lists. */
module Sequences {

  import TextOrder

  ghost predicate Distinct<T>(xs: seq<T>) { forall i, j :: 0 <= i < j < |xs| ==> xs[i] != xs[j] }

  ghost predicate Ascending(xs: seq<int>) { forall i, j :: 0 <= i < j < |xs| ==> xs[i] < xs[j] }

  ghost predicate AscendingText(xs: seq<string>) {
    forall i, j :: 0 <= i < j < |xs| ==> TextOrder.Less(xs[i], xs[j])
  }

  function Elements<T(==)>(xs: seq<T>): set<T> { set x | x in xs }
}
