/**
 Union-find closure of provider-duplicate groups over canonical series.

 `equivalent_series_clusters` keeps one parent pointer per series, halves paths while it looks
 for a root and always hangs the larger root under the smaller.  The specification below does
 not mention parents at all: two series belong together when a chain of duplicate groups links
 them.
 */
module SeriesClusters {

  import opened Sequences

  type SeriesId = nat

  /** Every ordered pair of series that occurs together in one duplicate group. */
  ghost function GroupPairs(groups: seq<seq<SeriesId>>): set<(SeriesId, SeriesId)> {
    set g, a, b | g in groups && a in g && b in g :: (a, b)
  }

  /** A chain of exactly `n` group-sharing steps from `a` to `b`. */
  ghost predicate Chain(pairs: set<(SeriesId, SeriesId)>, a: SeriesId, b: SeriesId, n: nat)
    decreases n
  {
    if n == 0 then a == b
    else exists c: SeriesId :: (a, c) in pairs && Chain(pairs, c, b, n - 1)
  }

  /** Reflexive-transitive closure of "shares a group". */
  ghost predicate Connected(groups: seq<seq<SeriesId>>, a: SeriesId, b: SeriesId) {
    exists n: nat :: Chain(GroupPairs(groups), a, b, n)
  }

  lemma {:induction false} ChainAppend(pairs: set<(SeriesId, SeriesId)>,
                                       a: SeriesId, b: SeriesId, c: SeriesId, m: nat, n: nat)
    requires Chain(pairs, a, b, m) && Chain(pairs, b, c, n)
    ensures Chain(pairs, a, c, m + n)
    decreases m
  {
    if m > 0 {
      var next: SeriesId :| (a, next) in pairs && Chain(pairs, next, b, m - 1);
      ChainAppend(pairs, next, b, c, m - 1, n);
    }
  }

  lemma {:induction false} ChainReverse(groups: seq<seq<SeriesId>>, a: SeriesId, b: SeriesId, n: nat)
    requires Chain(GroupPairs(groups), a, b, n)
    ensures Chain(GroupPairs(groups), b, a, n)
    decreases n
  {
    var pairs := GroupPairs(groups);
    if n > 0 {
      var next: SeriesId :| (a, next) in pairs && Chain(pairs, next, b, n - 1);
      ChainReverse(groups, next, b, n - 1);
      assert (next, a) in pairs;
      assert Chain(pairs, a, a, 0);
      assert Chain(pairs, next, a, 1);
      ChainAppend(pairs, b, next, a, n - 1, 1);
    }
  }

  lemma {:induction false} ConnectedReflexive(groups: seq<seq<SeriesId>>, a: SeriesId)
    ensures Connected(groups, a, a)
  {
    assert Chain(GroupPairs(groups), a, a, 0);
  }

  lemma {:induction false} ConnectedSymmetric(groups: seq<seq<SeriesId>>, a: SeriesId, b: SeriesId)
    requires Connected(groups, a, b)
    ensures Connected(groups, b, a)
  {
    var n: nat :| Chain(GroupPairs(groups), a, b, n);
    ChainReverse(groups, a, b, n);
  }

  lemma {:induction false} ConnectedTransitive(groups: seq<seq<SeriesId>>, a: SeriesId, b: SeriesId, c: SeriesId)
    requires Connected(groups, a, b) && Connected(groups, b, c)
    ensures Connected(groups, a, c)
  {
    var m: nat :| Chain(GroupPairs(groups), a, b, m);
    var n: nat :| Chain(GroupPairs(groups), b, c, n);
    ChainAppend(GroupPairs(groups), a, b, c, m, n);
  }

  lemma {:induction false} GroupConnects(groups: seq<seq<SeriesId>>, group: seq<SeriesId>, a: SeriesId, b: SeriesId)
    requires group in groups && a in group && b in group
    ensures Connected(groups, a, b)
  {
    assert (a, b) in GroupPairs(groups);
    assert Chain(GroupPairs(groups), b, b, 0);
    assert Chain(GroupPairs(groups), a, b, 1);
  }

  /** A parent pointer stays inside the table and never points at a larger id. */
  ghost predicate ParentOk(parents: map<SeriesId, SeriesId>, x: SeriesId) {
    x in parents ==> parents[x] in parents && parents[x] <= x
  }

  /** Parent maps reachable by the code. */
  ghost predicate Forest(parents: map<SeriesId, SeriesId>) {
    forall x: SeriesId :: ParentOk(parents, x)
  }

  ghost function Root(parents: map<SeriesId, SeriesId>, x: SeriesId): (r: SeriesId)
    requires Forest(parents) && x in parents
    ensures r in parents && parents[r] == r && r <= x
    decreases x
  {
    assert ParentOk(parents, x);
    if parents[x] == x then x else Root(parents, parents[x])
  }

  ghost predicate RootIs(parents: map<SeriesId, SeriesId>, roots: map<SeriesId, SeriesId>, x: SeriesId)
    requires Forest(parents)
  {
    x in parents ==> x in roots && roots[x] == Root(parents, x)
  }

  /** `roots` lists the root of every element: all the later reasoning sees of a parent table. */
  ghost predicate RootTable(parents: map<SeriesId, SeriesId>, roots: map<SeriesId, SeriesId>) {
    && Forest(parents)
    && roots.Keys == parents.Keys
    && forall x: SeriesId :: RootIs(parents, roots, x)
  }

  /** Path halving never changes the root of any element. */
  lemma {:induction false} HalvingKeepsRoot(parents: map<SeriesId, SeriesId>, v: SeriesId, x: SeriesId)
    requires Forest(parents) && v in parents && parents[v] in parents && x in parents
    requires Forest(parents[v := parents[parents[v]]])
    ensures Root(parents[v := parents[parents[v]]], x) == Root(parents, x)
    decreases x
  {
    var halved := parents[v := parents[parents[v]]];
    assert ParentOk(halved, x) && ParentOk(parents, x);
    if halved[x] != x {
      HalvingKeepsRoot(parents, v, halved[x]);
    }
    if x == v {
      assert ParentOk(parents, parents[x]);
    }
  }

  lemma {:induction false} HalvingKeepsForest(parents: map<SeriesId, SeriesId>, v: SeriesId)
    requires Forest(parents) && v in parents
    ensures ParentOk(parents, v) && ParentOk(parents, parents[v])
    ensures Forest(parents[v := parents[parents[v]]])
    ensures parents[v] != v ==> parents[parents[v]] < v
  {
    assert ParentOk(parents, v) && ParentOk(parents, parents[v]);
    var halved := parents[v := parents[parents[v]]];
    forall x: SeriesId ensures ParentOk(halved, x) {
      assert ParentOk(parents, x);
    }
  }

  lemma {:induction false} HalvingKeepsTable(parents: map<SeriesId, SeriesId>, roots: map<SeriesId, SeriesId>,
                                             v: SeriesId)
    requires RootTable(parents, roots) && v in parents
    ensures ParentOk(parents, v) && ParentOk(parents, parents[v])
    ensures RootTable(parents[v := parents[parents[v]]], roots)
    ensures parents[v] != v ==> parents[parents[v]] < v
    ensures parents[parents[v]] in roots && roots[parents[parents[v]]] == roots[v]
  {
    HalvingKeepsForest(parents, v);
    var halved := parents[v := parents[parents[v]]];
    forall x: SeriesId ensures RootIs(halved, roots, x) {
      assert RootIs(parents, roots, x);
      if x in parents {
        HalvingKeepsRoot(parents, v, x);
      }
    }
    assert RootIs(parents, roots, v);
    assert RootIs(parents, roots, parents[parents[v]]);
    assert Root(parents, parents[v]) == Root(parents, parents[parents[v]]);
  }

  /** Hanging one root under a smaller one merges exactly their two classes. */
  lemma {:induction false} LinkingMergesRoot(parents: map<SeriesId, SeriesId>,
                                             high: SeriesId, low: SeriesId, x: SeriesId)
    requires Forest(parents) && Forest(parents[high := low]) && x in parents
    requires high in parents && low in parents && parents[high] == high && parents[low] == low
    requires low < high
    ensures Root(parents[high := low], x)
         == if Root(parents, x) == high then low else Root(parents, x)
    decreases x
  {
    var linked := parents[high := low];
    assert ParentOk(parents, x);
    if x == high {
      assert Root(linked, low) == low;
    } else if parents[x] != x {
      LinkingMergesRoot(parents, high, low, parents[x]);
    }
  }

  /** Two classes become one, named by the smaller of their roots. */
  ghost function MergeRoots(roots: map<SeriesId, SeriesId>, l: SeriesId, r: SeriesId): map<SeriesId, SeriesId> {
    map x | x in roots :: if roots[x] == l || roots[x] == r then (if l < r then l else r) else roots[x]
  }

  lemma {:induction false} LinkingMergesTable(parents: map<SeriesId, SeriesId>, roots: map<SeriesId, SeriesId>,
                                              high: SeriesId, low: SeriesId)
    requires RootTable(parents, roots)
    requires high in parents && low in parents && parents[high] == high && parents[low] == low
    requires low < high
    ensures RootTable(parents[high := low], MergeRoots(roots, low, high))
    ensures MergeRoots(roots, high, low) == MergeRoots(roots, low, high)
  {
    var linked := parents[high := low];
    forall x: SeriesId ensures ParentOk(linked, x) {
      assert ParentOk(parents, x);
    }
    forall x: SeriesId ensures RootIs(linked, MergeRoots(roots, low, high), x) {
      assert RootIs(parents, roots, x);
      if x in parents {
        LinkingMergesRoot(parents, high, low, x);
      }
    }
  }

  /** Every element is connected, through duplicate groups, to the root of its class. */
  ghost predicate RootsConnected(roots: map<SeriesId, SeriesId>, groups: seq<seq<SeriesId>>) {
    forall x :: x in roots ==> Connected(groups, x, roots[x])
  }

  ghost predicate SameRoot(roots: map<SeriesId, SeriesId>, group: seq<SeriesId>) {
    forall i, j :: 0 <= i < |group| && 0 <= j < |group| && group[i] in roots && group[j] in roots ==>
      roots[group[i]] == roots[group[j]]
  }

  /** Members that share a root in `before` still share one in `after`. */
  ghost predicate Coarser(before: map<SeriesId, SeriesId>, after: map<SeriesId, SeriesId>) {
    && before.Keys == after.Keys
    && forall a, b :: a in before && b in before && before[a] == before[b] ==> after[a] == after[b]
  }

  lemma {:induction false} ChainKeepsRoot(roots: map<SeriesId, SeriesId>, groups: seq<seq<SeriesId>>,
                                          a: SeriesId, b: SeriesId, n: nat)
    requires forall g, x :: g in groups && x in g ==> x in roots
    requires forall i :: 0 <= i < |groups| ==> SameRoot(roots, groups[i])
    requires a in roots && b in roots && Chain(GroupPairs(groups), a, b, n)
    ensures roots[a] == roots[b]
    decreases n
  {
    if n > 0 {
      var c: SeriesId :| (a, c) in GroupPairs(groups) && Chain(GroupPairs(groups), c, b, n - 1);
      var g :| g in groups && a in g && c in g;
      var i :| 0 <= i < |groups| && groups[i] == g;
      ChainKeepsRoot(roots, groups, c, b, n - 1);
    }
  }

  /** Equal roots characterise the closure, in both directions. */
  lemma {:induction false} RootsDecideConnected(roots: map<SeriesId, SeriesId>, groups: seq<seq<SeriesId>>,
                                                a: SeriesId, b: SeriesId)
    requires forall g, x :: g in groups && x in g ==> x in roots
    requires forall i :: 0 <= i < |groups| ==> SameRoot(roots, groups[i])
    requires RootsConnected(roots, groups)
    requires a in roots && b in roots
    ensures roots[a] == roots[b] <==> Connected(groups, a, b)
  {
    if Connected(groups, a, b) {
      var n: nat :| Chain(GroupPairs(groups), a, b, n);
      ChainKeepsRoot(roots, groups, a, b, n);
    }
    if roots[a] == roots[b] {
      assert Connected(groups, a, roots[a]) && Connected(groups, b, roots[b]);
      ConnectedSymmetric(groups, b, roots[b]);
      ConnectedTransitive(groups, a, roots[a], b);
    }
  }

  /** Strictly ascending, as `tuple(sorted(values))` is for distinct values. */
  lemma {:induction false} InsertId(sorted: seq<SeriesId>, id: SeriesId, at: nat)
    requires Ascending(sorted) && id !in sorted && at <= |sorted|
    requires (forall i :: 0 <= i < at ==> sorted[i] < id) && (at < |sorted| ==> sorted[at] >= id)
    ensures var after := sorted[..at] + [id] + sorted[at..];
      Ascending(after) && forall x :: x in after <==> x == id || x in sorted
  {
    assert sorted == sorted[..at] + sorted[at..];
    forall i | at <= i < |sorted| ensures id < sorted[i] {
      assert sorted[i] in sorted;
    }
  }

  method SortIds(values: seq<SeriesId>) returns (sorted: seq<SeriesId>)
    requires forall i, j :: 0 <= i < j < |values| ==> values[i] != values[j]
    ensures Ascending(sorted) && (forall x :: x in sorted <==> x in values)
  {
    sorted := [];
    for k := 0 to |values|
      invariant Ascending(sorted)
      invariant forall x :: x in sorted <==> x in values[..k]
    {
      var at := 0;
      while at < |sorted| && sorted[at] < values[k]
        invariant at <= |sorted|
        invariant forall i :: 0 <= i < at ==> sorted[i] < values[k]
      {
        at := at + 1;
      }
      assert values[..k + 1] == values[..k] + [values[k]];
      assert values[k] !in values[..k];
      InsertId(sorted, values[k], at);
      sorted := sorted[..at] + [values[k]] + sorted[at..];
    }
    assert values[..|values|] == values;
  }

  lemma {:induction false} MergeKeepsConnected(roots: map<SeriesId, SeriesId>, groups: seq<seq<SeriesId>>,
                                               group: seq<SeriesId>, left: SeriesId, right: SeriesId)
    requires group in groups && left in group && right in group && left in roots && right in roots
    requires RootsConnected(roots, groups)
    ensures RootsConnected(MergeRoots(roots, roots[left], roots[right]), groups)
    ensures Coarser(roots, MergeRoots(roots, roots[left], roots[right]))
  {
    var l, r := roots[left], roots[right];
    GroupConnects(groups, group, left, right);
    ConnectedTransitive(groups, left, right, r);
    ConnectedSymmetric(groups, left, l);
    ConnectedTransitive(groups, l, left, r);
    ConnectedSymmetric(groups, l, r);
    var merged := MergeRoots(roots, l, r);
    forall x | x in merged ensures Connected(groups, x, merged[x]) {
      if merged[x] != roots[x] {
        ConnectedTransitive(groups, x, roots[x], merged[x]);
      }
    }
  }

  class UnionFind {
    var parents: map<SeriesId, SeriesId>
    ghost var roots: map<SeriesId, SeriesId>

    ghost predicate Valid()
      reads this
    {
      RootTable(parents, roots)
    }

    constructor (ids: set<SeriesId>)
      ensures Valid() && parents.Keys == ids && roots == map x | x in ids :: x
    {
      var table: map<SeriesId, SeriesId> := map x | x in ids :: x;
      parents, roots := table, table;
      assert forall x: SeriesId :: ParentOk(table, x);
      assert forall x: SeriesId :: RootIs(table, table, x);
    }

    /** Returns the root while halving the path; nobody's root changes. */
    method Find(value: SeriesId) returns (root: SeriesId)
      requires Valid() && value in parents
      modifies this`parents
      ensures Valid() && parents.Keys == old(parents.Keys)
      ensures root == roots[value] && root in parents && parents[root] == root
    {
      root := value;
      while parents[root] != root
        invariant Valid() && parents.Keys == old(parents.Keys)
        invariant root in parents && roots[root] == roots[value]
        decreases root
      {
        HalvingKeepsTable(parents, roots, root);
        parents := parents[root := parents[parents[root]]];
        root := parents[root];
      }
      assert RootIs(parents, roots, root);
    }

    /** Merges the two classes under the smaller root and touches no other class. */
    method Union(left: SeriesId, right: SeriesId)
      requires Valid() && left in parents && right in parents
      modifies this
      ensures Valid() && roots == MergeRoots(old(roots), old(roots[left]), old(roots[right]))
    {
      var leftRoot := Find(left);
      var rightRoot := Find(right);
      assert RootIs(parents, roots, left) && RootIs(parents, roots, right);
      if leftRoot < rightRoot {
        LinkingMergesTable(parents, roots, rightRoot, leftRoot);
        parents, roots := parents[rightRoot := leftRoot], MergeRoots(roots, leftRoot, rightRoot);
      } else if rightRoot < leftRoot {
        LinkingMergesTable(parents, roots, leftRoot, rightRoot);
        parents, roots := parents[leftRoot := rightRoot], MergeRoots(roots, leftRoot, rightRoot);
      } else {
        assert roots == MergeRoots(roots, leftRoot, leftRoot);
      }
    }

    /** Unites one member with all the later members of its group. */
    method UniteMember(group: seq<SeriesId>, i: nat, ghost start: map<SeriesId, SeriesId>,
                       ghost groups: seq<seq<SeriesId>>)
      requires Valid() && group in groups && i < |group| && forall x :: x in group ==> x in start
      requires Uniting(start, roots, groups)
      requires SameRoot(roots, if i > 0 then group else group[..1])
      modifies this
      ensures Valid() && Uniting(start, roots, groups) && SameRoot(roots, group)
    {
      for j := i + 1 to |group|
        invariant Valid() && Uniting(start, roots, groups)
        invariant SameRoot(roots, if i > 0 then group else group[..j])
      {
        UnitePair(start, roots, groups, group, i, j);
        Union(group[i], group[j]);
      }
      assert group[..|group|] == group;
    }

    /** Unites every pair of a group, in `combinations(group, 2)` order. */
    method UniteGroup(group: seq<SeriesId>, ghost groups: seq<seq<SeriesId>>)
      requires Valid() && group in groups && forall x :: x in group ==> x in roots
      requires RootsConnected(roots, groups)
      modifies this
      ensures Valid() && Uniting(old(roots), roots, groups) && SameRoot(roots, group)
    {
      ghost var start := roots;
      UnitingStarts(roots, groups);
      for i := 0 to |group|
        invariant Valid() && Uniting(start, roots, groups)
        invariant SameRoot(roots, if i > 0 then group else group[..i])
      {
        SingleRoot(roots, group);
        UniteMember(group, i, start, groups);
      }
    }
  }

  /** What every union keeps: classes only grow, and only along group links. */
  ghost predicate Uniting(start: map<SeriesId, SeriesId>, roots: map<SeriesId, SeriesId>, groups: seq<seq<SeriesId>>)
  {
    Coarser(start, roots) && RootsConnected(roots, groups)
  }

  lemma {:induction false} UnitingStarts(roots: map<SeriesId, SeriesId>, groups: seq<seq<SeriesId>>)
    requires RootsConnected(roots, groups)
    ensures Uniting(roots, roots, groups)
  {
  }

  /** One element trivially shares its root. */
  lemma {:induction false} SingleRoot(roots: map<SeriesId, SeriesId>, group: seq<SeriesId>)
    requires group != []
    ensures SameRoot(roots, group[..1])
  {
  }

  lemma {:induction false} UnitePair(start: map<SeriesId, SeriesId>, roots: map<SeriesId, SeriesId>,
                                     groups: seq<seq<SeriesId>>, group: seq<SeriesId>, i: nat, j: nat)
    requires group in groups && i < j < |group| && forall x :: x in group ==> x in start
    requires Uniting(start, roots, groups)
    requires SameRoot(roots, if i > 0 then group else group[..j])
    ensures group[i] in roots && group[j] in roots
    ensures var merged := MergeRoots(roots, roots[group[i]], roots[group[j]]);
      Uniting(start, merged, groups) && SameRoot(merged, if i > 0 then group else group[..j + 1])
  {
    assert group[i] in group && group[j] in group;
    MergeKeepsConnected(roots, groups, group, group[i], group[j]);
    MergeExtendsSameRoot(roots, group, i, j);
    CoarserTransitive(start, roots, MergeRoots(roots, roots[group[i]], roots[group[j]]));
  }

  lemma {:induction false} CoarserTransitive(a: map<SeriesId, SeriesId>, b: map<SeriesId, SeriesId>, c: map<SeriesId,
                                             SeriesId>)
    requires Coarser(a, b) && Coarser(b, c)
    ensures Coarser(a, c)
  {
  }

  lemma {:induction false} MergeExtendsSameRoot(roots: map<SeriesId, SeriesId>, group: seq<SeriesId>, i: nat, j: nat)
    requires i < j < |group| && forall x :: x in group ==> x in roots
    ensures var merged := MergeRoots(roots, roots[group[i]], roots[group[j]]);
      && (SameRoot(roots, group) ==> SameRoot(merged, group))
      && (SameRoot(roots, group[..j]) ==> SameRoot(merged, group[..j + 1]))
  {
    assert forall k :: 0 <= k < |group| ==> group[k] in roots;
  }

  /** The first `k` groups have been united, and nothing else has. */
  ghost predicate ClosedUpTo(roots: map<SeriesId, SeriesId>, groups: seq<seq<SeriesId>>, k: nat)
    requires k <= |groups|
  {
    RootsConnected(roots, groups) && forall i :: 0 <= i < k ==> SameRoot(roots, groups[i])
  }

  lemma {:induction false} CloseOneMore(before: map<SeriesId, SeriesId>, after: map<SeriesId, SeriesId>,
                                        groups: seq<seq<SeriesId>>, k: nat)
    requires k < |groups| && ClosedUpTo(before, groups, k)
    requires Uniting(before, after, groups) && SameRoot(after, groups[k])
    ensures ClosedUpTo(after, groups, k + 1)
  {
    forall i | 0 <= i < k ensures SameRoot(after, groups[i]) {
      CoarserKeepsSameRoot(before, after, groups[i]);
    }
  }

  lemma {:induction false} IdentityRootsConnected(roots: map<SeriesId, SeriesId>, groups: seq<seq<SeriesId>>)
    requires forall x :: x in roots ==> roots[x] == x
    ensures RootsConnected(roots, groups)
  {
    forall x | x in roots ensures Connected(groups, x, x) {
      ConnectedReflexive(groups, x);
    }
  }

  /** Runs every union the duplicate groups ask for. */
  method CloseGroups(ids: set<SeriesId>, groups: seq<seq<SeriesId>>) returns (forest: UnionFind)
    requires forall g, x :: g in groups && x in g ==> x in ids
    ensures fresh(forest) && forest.Valid() && forest.roots.Keys == ids
    ensures Decides(forest.roots, groups)
  {
    forest := new UnionFind(ids);
    IdentityRootsConnected(forest.roots, groups);
    for k := 0 to |groups|
      invariant forest.Valid() && forest.roots.Keys == ids
      invariant ClosedUpTo(forest.roots, groups, k)
    {
      ghost var before := forest.roots;
      assert forall x :: x in groups[k] ==> x in ids;
      forest.UniteGroup(groups[k], groups);
      CloseOneMore(before, forest.roots, groups, k);
    }
    ClosedDecides(forest.roots, groups);
  }

  lemma {:induction false} CoarserKeepsSameRoot(before: map<SeriesId, SeriesId>, after: map<SeriesId, SeriesId>,
                                                group: seq<SeriesId>)
    requires Coarser(before, after) && SameRoot(before, group)
    ensures SameRoot(after, group)
  {
  }

  /** Each class holds exactly the series outside `todo` with that root, each once. */
  ghost predicate Collected(clusters: map<SeriesId, seq<SeriesId>>, roots: map<SeriesId, SeriesId>, todo: set<SeriesId>)
  {
    && (forall r, x :: r in clusters && x in clusters[r] ==> x in roots && x !in todo && roots[x] == r)
    && (forall x :: x in roots && x !in todo ==> roots[x] in clusters && x in clusters[roots[x]])
    && (forall r :: r in clusters ==> Distinct(clusters[r]))
  }

  lemma {:induction false} CollectOne(clusters: map<SeriesId, seq<SeriesId>>, roots: map<SeriesId, SeriesId>,
                                      todo: set<SeriesId>, s: SeriesId)
    requires Collected(clusters, roots, todo) && s in todo && s in roots
    ensures var members := if roots[s] in clusters then clusters[roots[s]] else [];
      Collected(clusters[roots[s] := members + [s]], roots, todo - {s})
  {
  }

  /** Collects the members of each class, in whatever order the set yields them. */
  method CollectClusters(forest: UnionFind, ids: set<SeriesId>) returns (clusters: map<SeriesId, seq<SeriesId>>)
    requires forest.Valid() && forest.parents.Keys == ids
    modifies forest`parents
    ensures forest.Valid() && Collected(clusters, forest.roots, {})
  {
    clusters := map[];
    var todo := ids;
    while todo != {}
      invariant todo <= ids && forest.Valid() && forest.parents.Keys == ids
      invariant Collected(clusters, forest.roots, todo)
      decreases |todo|
    {
      var s :| s in todo;
      CollectOne(clusters, forest.roots, todo, s);
      var root := forest.Find(s);
      var members := if root in clusters then clusters[root] else [];
      clusters := clusters[root := members + [s]];
      todo := todo - {s};
    }
  }

  /** The finished entries: ascending, and exactly the series with the same root. */
  ghost predicate Published(bySeries: map<SeriesId, seq<SeriesId>>, roots: map<SeriesId, SeriesId>,
                            pending: set<SeriesId>)
  {
    && (forall x :: x in bySeries <==> x in roots && roots[x] !in pending)
    && (forall s :: s in bySeries ==> Ascending(bySeries[s]))
    && (forall s, t :: s in bySeries ==> (t in bySeries[s] <==> t in roots && roots[s] == roots[t]))
  }

  lemma {:induction false} PublishOne(bySeries: map<SeriesId, seq<SeriesId>>, clusters: map<SeriesId, seq<SeriesId>>,
                                      roots: map<SeriesId, SeriesId>, pending: set<SeriesId>, r: SeriesId,
                                      cluster: seq<SeriesId>)
    requires Collected(clusters, roots, {}) && Published(bySeries, roots, pending)
    requires r in pending && r in clusters
    requires Ascending(cluster) && forall x :: x in cluster <==> x in clusters[r]
    ensures Published(bySeries + (map s | s in clusters[r] :: cluster), roots, pending - {r})
  {
    assert forall x :: x in clusters[r] <==> x in roots && roots[x] == r;
  }

  /** Gives every member of every class the sorted tuple of that class. */
  method PublishClusters(clusters: map<SeriesId, seq<SeriesId>>, ghost roots: map<SeriesId, SeriesId>)
    returns (bySeries: map<SeriesId, seq<SeriesId>>)
    requires Collected(clusters, roots, {})
    ensures Published(bySeries, roots, {})
  {
    bySeries := map[];
    var pending := clusters.Keys;
    while pending != {}
      invariant pending <= clusters.Keys && Published(bySeries, roots, pending)
      decreases |pending|
    {
      var r :| r in pending;
      var cluster := SortIds(clusters[r]);
      PublishOne(bySeries, clusters, roots, pending, r, cluster);
      bySeries := bySeries + (map s | s in clusters[r] :: cluster);
      pending := pending - {r};
    }
  }

  /** Equal roots mean exactly "connected by duplicate groups". */
  ghost predicate Decides(roots: map<SeriesId, SeriesId>, groups: seq<seq<SeriesId>>) {
    forall s, t :: s in roots && t in roots ==> (roots[s] == roots[t] <==> Connected(groups, s, t))
  }

  lemma {:induction false} ClosedDecides(roots: map<SeriesId, SeriesId>, groups: seq<seq<SeriesId>>)
    requires forall g, x :: g in groups && x in g ==> x in roots
    requires ClosedUpTo(roots, groups, |groups|)
    ensures Decides(roots, groups)
  {
    forall s, t | s in roots && t in roots ensures roots[s] == roots[t] <==> Connected(groups, s, t) {
      RootsDecideConnected(roots, groups, s, t);
    }
  }

  /**
   Every series has an entry, and the entry is the ascending list of exactly the series connected
   to it; its first element is therefore the class minimum.
   */
  ghost predicate ExactClusters(bySeries: map<SeriesId, seq<SeriesId>>, ids: set<SeriesId>,
                                groups: seq<seq<SeriesId>>)
  {
    && bySeries.Keys == ids
    && (forall s :: s in ids ==> Ascending(bySeries[s]))
    && (forall s, t :: s in ids ==> (t in bySeries[s] <==> t in ids && Connected(groups, s, t)))
  }

  lemma {:induction false} PublishedClosure(bySeries: map<SeriesId, seq<SeriesId>>, roots: map<SeriesId, SeriesId>,
                                            groups: seq<seq<SeriesId>>)
    requires Published(bySeries, roots, {}) && Decides(roots, groups)
    ensures ExactClusters(bySeries, roots.Keys, groups)
  {
  }

  /** Maps every series to its complete provider-duplicate cluster. */
  method EquivalentSeriesClusters(ids: set<SeriesId>, groups: seq<seq<SeriesId>>)
    returns (bySeries: map<SeriesId, seq<SeriesId>>)
    requires forall g, x :: g in groups && x in g ==> x in ids
    ensures ExactClusters(bySeries, ids, groups)
  {
    var forest := CloseGroups(ids, groups);
    ghost var roots := forest.roots;
    var clusters := CollectClusters(forest, ids);
    bySeries := PublishClusters(clusters, roots);
    PublishedClosure(bySeries, roots, groups);
  }
}
