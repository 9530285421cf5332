/** Which snapshots an import into a catalogue in use refuses. */
module PortablePlans {

  import opened Options
  import opened Tables
  import opened PortableState

  // ---------------------------------------------------------------- what planning refuses

  /** The local series an entry of the snapshot resolves to. */
  ghost function ClaimedBy(rules: Rules, c: Catalog, keys: map<Key, nat>, p: Series): set<nat> {
    Homes(c, Resolutions(rules, Importing(c, keys, map[]), p.sources))
  }

  /** Entries that claim one local series have one title. */
  ghost predicate ClaimsAgree(rules: Rules, c: Catalog, keys: map<Key, nat>, series: seq<Series>) {
    forall i, j, h :: 0 <= i < j < |series| && ClaimBoth(rules, c, keys, series[i], series[j], h) ==>
      series[i].title == series[j].title
  }

  ghost predicate ClaimBoth(rules: Rules, c: Catalog, keys: map<Key, nat>, p: Series, q: Series, h: nat) {
    h in ClaimedBy(rules, c, keys, p) && h in ClaimedBy(rules, c, keys, q)
  }

  /** The plan remembers who claimed what, and under which title if nothing is contested. */
  ghost predicate Remembers(rules: Rules, c: Catalog, keys: map<Key, nat>, series: seq<Series>, plan: Plan) {
    (forall i, h :: 0 <= i < |series| && h in ClaimedBy(rules, c, keys, series[i]) ==>
       Remembered(plan, h, series[i].title))
    && forall h :: h in plan.claimed ==> Claimed(rules, c, keys, series, h)
  }

  ghost predicate Remembered(plan: Plan, h: nat, title: string) {
    h in plan.claimed && (plan.conflicts == 0 ==> plan.claimed[h] == title)
  }

  ghost predicate Claimed(rules: Rules, c: Catalog, keys: map<Key, nat>, series: seq<Series>, h: nat) {
    exists i :: 0 <= i < |series| && h in ClaimedBy(rules, c, keys, series[i])
  }

  lemma {:induction false} ContestedOneMore(rules: Rules, c: Catalog, keys: map<Key, nat>, series: seq<Series>,
                                            plan: Plan)
    requires series != [] && Remembers(rules, c, keys, series[..|series| - 1], plan) && plan.conflicts == 0
    requires ClaimsAgree(rules, c, keys, series[..|series| - 1])
    ensures var last := series[|series| - 1];
      Contested(plan, ClaimedBy(rules, c, keys, last), last.title) == {} <==> ClaimsAgree(rules, c, keys, series)
  {
    var n := |series| - 1;
    var before, last := series[..n], series[n];
    var contested := Contested(plan, ClaimedBy(rules, c, keys, last), last.title);
    if h :| h in contested {
      assert Claimed(rules, c, keys, before, h);
      var i :| 0 <= i < |before| && h in ClaimedBy(rules, c, keys, before[i]);
      assert Remembered(plan, h, before[i].title);
      assert before[i] == series[i] && series[i].title != series[n].title;
      assert ClaimBoth(rules, c, keys, series[i], series[n], h);
    }
    if contested == {} {
      forall i, j, h | 0 <= i < j < |series| && ClaimBoth(rules, c, keys, series[i], series[j], h)
        ensures series[i].title == series[j].title
      {
        assert before[i] == series[i];
        if j == n {
          assert Remembered(plan, h, before[i].title);
          assert h !in contested;
        } else {
          assert before[j] == series[j] && ClaimBoth(rules, c, keys, before[i], before[j], h);
        }
      }
    }
  }

  lemma {:induction false} RemembersOneMore(rules: Rules, c: Catalog, keys: map<Key, nat>, series: seq<Series>,
                                            plan: Plan, missing: nat)
    requires series != [] && Remembers(rules, c, keys, series[..|series| - 1], plan)
    ensures var last := series[|series| - 1];
      Remembers(rules, c, keys, series, PlanOne(plan, ClaimedBy(rules, c, keys, last), missing, last.title))
  {
    var last := series[|series| - 1];
    var next := PlanOne(plan, ClaimedBy(rules, c, keys, last), missing, last.title);
    forall i, h | 0 <= i < |series| && h in ClaimedBy(rules, c, keys, series[i])
      ensures Remembered(next, h, series[i].title)
    {
      RememberedNow(rules, c, keys, series, plan, missing, i, h);
    }
    forall h | h in next.claimed ensures Claimed(rules, c, keys, series, h) {
      ClaimHasOwner(rules, c, keys, series, plan, h);
    }
  }

  lemma {:induction false} RememberedNow(rules: Rules, c: Catalog, keys: map<Key, nat>, series: seq<Series>,
                                         plan: Plan, missing: nat, i: nat, h: nat)
    requires series != [] && Remembers(rules, c, keys, series[..|series| - 1], plan)
    requires i < |series| && h in ClaimedBy(rules, c, keys, series[i])
    ensures var last := series[|series| - 1];
      Remembered(PlanOne(plan, ClaimedBy(rules, c, keys, last), missing, last.title), h, series[i].title)
  {
    var last := series[|series| - 1];
    ClaimKept(plan, ClaimedBy(rules, c, keys, last), missing, last.title, h);
    if i < |series| - 1 {
      EarlierClaim(rules, c, keys, series, plan, i, h);
    }
  }

  lemma {:induction false} EarlierClaim(rules: Rules, c: Catalog, keys: map<Key, nat>, series: seq<Series>, plan: Plan,
                                        i: nat, h: nat)
    requires series != [] && Remembers(rules, c, keys, series[..|series| - 1], plan)
    requires i < |series| - 1 && h in ClaimedBy(rules, c, keys, series[i])
    ensures Remembered(plan, h, series[i].title)
  {
    assert series[..|series| - 1][i] == series[i];
  }

  lemma {:induction false} ClaimHasOwner(rules: Rules, c: Catalog, keys: map<Key, nat>, series: seq<Series>,
                                         plan: Plan, h: nat)
    requires series != [] && Remembers(rules, c, keys, series[..|series| - 1], plan)
    requires h in plan.claimed || h in ClaimedBy(rules, c, keys, series[|series| - 1])
    ensures Claimed(rules, c, keys, series, h)
  {
    var before := series[..|series| - 1];
    if h in plan.claimed {
      assert Claimed(rules, c, keys, before, h);
      var i :| 0 <= i < |before| && h in ClaimedBy(rules, c, keys, before[i]);
      assert before[i] == series[i];
    }
  }

  /** A claim, new or old, is remembered under its title unless it is contested. */
  lemma {:induction false} ClaimKept(plan: Plan, homes: set<nat>, missing: nat, title: string, h: nat)
    ensures var next := PlanOne(plan, homes, missing, title);
      && (h in homes ==> h in next.claimed && next.claimed[h] == title)
      && (h in plan.claimed ==>
           h in next.claimed && (next.conflicts == 0 ==> plan.conflicts == 0 && next.claimed[h] == plan.claimed[h]))
  {
    var next := PlanOne(plan, homes, missing, title);
    if h in plan.claimed && h in homes && next.conflicts == 0 {
      assert h !in Contested(plan, homes, title);
    }
  }

  lemma {:induction false} PlanStep(rules: Rules, c: Catalog, keys: map<Key, nat>, series: seq<Series>)
    returns (missing: nat)
    requires series != [] && PlanSeries(rules, c, keys, series).Some?
    ensures PlanSeries(rules, c, keys, series[..|series| - 1]).Some?
    ensures var last := series[|series| - 1];
      PlanSeries(rules, c, keys, series).value
        == PlanOne(PlanSeries(rules, c, keys, series[..|series| - 1]).value, ClaimedBy(rules, c, keys, last), missing,
                   last.title)
    ensures missing == CountMissing(Resolutions(rules, Importing(c, keys, map[]), series[|series| - 1].sources))
  {
    missing := CountMissing(Resolutions(rules, Importing(c, keys, map[]), series[|series| - 1].sources));
  }

  /** Planning counts no conflict among the series exactly when entries that claim one local series have one title. */
  lemma {:induction false} PlanConflictsExactlyWhen(rules: Rules, c: Catalog, keys: map<Key, nat>,
                                                    series: seq<Series>)
    requires PlanSeries(rules, c, keys, series).Some?
    ensures Remembers(rules, c, keys, series, PlanSeries(rules, c, keys, series).value)
    ensures PlanSeries(rules, c, keys, series).value.conflicts == 0 <==> ClaimsAgree(rules, c, keys, series)
  {
    if series != [] {
      var missing := PlanStep(rules, c, keys, series);
      PlanConflictsExactlyWhen(rules, c, keys, series[..|series| - 1]);
      var plan := PlanSeries(rules, c, keys, series[..|series| - 1]).value;
      RemembersOneMore(rules, c, keys, series, plan, missing);
      AgreeBefore(rules, c, keys, series);
      if plan.conflicts == 0 {
        ContestedOneMore(rules, c, keys, series, plan);
      }
    }
  }

  lemma {:induction false} AgreeBefore(rules: Rules, c: Catalog, keys: map<Key, nat>, series: seq<Series>)
    requires series != []
    ensures ClaimsAgree(rules, c, keys, series) ==> ClaimsAgree(rules, c, keys, series[..|series| - 1])
  {
    var before := series[..|series| - 1];
    assert forall i :: 0 <= i < |before| ==> before[i] == series[i];
  }

  /** One entry of the snapshot lists both sides of the separation. */
  ghost predicate MergedInSnapshot(rules: Rules, series: seq<Series>, s: Separation) {
    Owner(rules, series, RefKey(rules, s.left)) == Owner(rules, series, RefKey(rules, s.right))
  }

  /** An import goes ahead only if no local series is claimed under two titles and no separated pair is merged. */
  lemma {:induction false} ImportNeedsAgreement(rules: Rules, c: Catalog, s: Snapshot)
    requires Import(rules, c, s).Some?
    ensures ClaimsAgree(rules, c, IdentityMap(rules, c.identities), s.series)
    ensures forall n :: 0 <= n < |s.separations| ==> !MergedInSnapshot(rules, s.series, s.separations[n])
  {
    PlanConflictsExactlyWhen(rules, c, IdentityMap(rules, c.identities), s.series);
    forall n | 0 <= n < |s.separations| ensures !MergedInSnapshot(rules, s.series, s.separations[n]) {
      KeepMember(s.separations, MergedAndSeparated(rules, s.series), s.separations[n]);
    }
  }

  // ---------------------------------------------------------------- which listing a key names

  ghost function KeyAt(rules: Rules, rows: seq<IdentityRow>, i: nat): Key
    requires i < |rows|
  {
    KeyOf(rules, rows[i].source, rows[i].sourceId)
  }

  /** A key names the first listing that has it. */
  lemma {:induction false} KeyNamesFirstListing(rules: Rules, rows: seq<IdentityRow>, key: Key)
    ensures key in IdentityMap(rules, rows) <==> exists i: nat :: i < |rows| && KeyAt(rules, rows, i) == key
    ensures key in IdentityMap(rules, rows) ==>
      var at := IdentityMap(rules, rows)[key];
      && at < |rows| && KeyAt(rules, rows, at) == key
      && forall i: nat :: i < at ==> KeyAt(rules, rows, i) != key
  {
    if rows != [] {
      var n := |rows| - 1;
      var before := rows[..n];
      KeyNamesFirstListing(rules, before, key);
      assert forall i: nat :: i < n ==> KeyAt(rules, rows, i) == KeyAt(rules, before, i);
      assert KeyAt(rules, rows, n) == KeyOf(rules, rows[n].source, rows[n].sourceId);
    }
  }

  // ---------------------------------------------------------------- what planning counts

  lemma {:induction false} NoneMissingExactlyWhen(resolutions: seq<Resolution>)
    ensures CountMissing(resolutions) == 0 <==> Missing !in resolutions
  {
    if resolutions != [] {
      var n := |resolutions| - 1;
      NoneMissingExactlyWhen(resolutions[..n]);
      assert resolutions == resolutions[..n] + [resolutions[n]];
    }
  }

  ghost predicate AllResolve(rules: Rules, c: Catalog, keys: map<Key, nat>, p: Series) {
    Missing !in Resolutions(rules, Importing(c, keys, map[]), p.sources)
  }

  ghost predicate AllKnown(rules: Rules, c: Catalog, keys: map<Key, nat>, series: seq<Series>) {
    forall i :: 0 <= i < |series| ==> ClaimedBy(rules, c, keys, series[i]) != {}
  }

  ghost predicate AllResolved(rules: Rules, c: Catalog, keys: map<Key, nat>, series: seq<Series>) {
    forall i :: 0 <= i < |series| ==> AllResolve(rules, c, keys, series[i])
  }

  ghost predicate AllInOnePlace(rules: Rules, c: Catalog, keys: map<Key, nat>, series: seq<Series>) {
    forall i :: 0 <= i < |series| ==> |ClaimedBy(rules, c, keys, series[i])| <= 1
  }

  lemma {:induction false} AllOneMore(rules: Rules, c: Catalog, keys: map<Key, nat>, before: seq<Series>, p: Series)
    ensures AllKnown(rules, c, keys, before + [p]) <==>
      AllKnown(rules, c, keys, before) && ClaimedBy(rules, c, keys, p) != {}
    ensures AllResolved(rules, c, keys, before + [p]) <==>
      AllResolved(rules, c, keys, before) && AllResolve(rules, c, keys, p)
    ensures AllInOnePlace(rules, c, keys, before + [p]) <==>
      AllInOnePlace(rules, c, keys, before) && |ClaimedBy(rules, c, keys, p)| <= 1
  {
    var series := before + [p];
    assert forall i :: 0 <= i < |before| ==> series[i] == before[i];
    assert series[|before|] == p;
  }

  /**
   Planning counts no series to create exactly when every entry is known, no source to create exactly when
   every source resolves, and no merge exactly when no entry is spread over several local series.
   */
  lemma {:induction false} PlanCountsExactlyWhen(rules: Rules, c: Catalog, keys: map<Key, nat>, series: seq<Series>)
    requires PlanSeries(rules, c, keys, series).Some?
    ensures var plan := PlanSeries(rules, c, keys, series).value;
      && (plan.createSeries == 0 <==> AllKnown(rules, c, keys, series))
      && (plan.createSources == 0 <==> AllResolved(rules, c, keys, series))
      && (plan.mergeSeries == 0 <==> AllInOnePlace(rules, c, keys, series))
  {
    if series != [] {
      var before, last := series[..|series| - 1], series[|series| - 1];
      var missing := PlanStep(rules, c, keys, series);
      PlanCountsExactlyWhen(rules, c, keys, before);
      NoneMissingExactlyWhen(Resolutions(rules, Importing(c, keys, map[]), last.sources));
      AllOneMore(rules, c, keys, before, last);
      assert before + [last] == series;
      OneMoreCounts(PlanSeries(rules, c, keys, before).value, ClaimedBy(rules, c, keys, last), missing, last.title);
    }
  }

  lemma {:induction false} OneMoreCounts(plan: Plan, homes: set<nat>, missing: nat, title: string)
    ensures var next := PlanOne(plan, homes, missing, title);
      && (next.createSeries == 0 <==> plan.createSeries == 0 && homes != {})
      && (next.createSources == 0 <==> plan.createSources == 0 && missing == 0)
      && (next.mergeSeries == 0 <==> plan.mergeSeries == 0 && |homes| <= 1)
  {
    assert homes != {} ==> |homes| >= 1;
  }
}
