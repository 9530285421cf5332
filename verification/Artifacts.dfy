/** Artifact activation, its library projection, and preferred-provider upgrades. */
module Artifacts {
  import opened Options
  import opened DownloadPlans

  datatype ArtifactState = ActiveArtifact | InactiveArtifact | Quarantined

  datatype Artifact = Artifact(chapter: nat, release: Option<nat>, checksum: string, state: ArtifactState,
                               provenance: string, source: string, quality: int)
  datatype Projection = Projection(artifact: nat, path: string)

  datatype Library = Library(artifacts: map<nat, Artifact>, projections: map<nat, Projection>, nextArtifact: nat)

  datatype Request = Request(chapter: nat, release: Option<nat>, checksum: string, path: string,
                             provenance: string, source: string, quality: int, replace: bool)

  datatype Result = Duplicate(id: nat) | ConflictWith(id: nat) | Activated(id: nat)

  predicate ActiveFor(artifacts: map<nat, Artifact>, id: nat, chapter: nat) {
    id in artifacts && artifacts[id].chapter == chapter && artifacts[id].state == ActiveArtifact
  }

  /** The chapter's active artifact with an id below `limit`, newest first. */
  function FindActive(artifacts: map<nat, Artifact>, limit: nat, chapter: nat): (r: Option<nat>)
    ensures r != None ==> r.value < limit && ActiveFor(artifacts, r.value, chapter)
  {
    if limit == 0 then None
    else if ActiveFor(artifacts, limit - 1, chapter) then Some(limit - 1)
    else FindActive(artifacts, limit - 1, chapter)
  }

  function Refreshed(previous: Artifact, q: Request): Artifact {
    previous.(release := if q.release != None then q.release else previous.release,
          source := if q.source != "" then q.source else previous.source,
          quality := if q.quality > previous.quality then q.quality else previous.quality)
  }

  function NewArtifact(q: Request, state: ArtifactState): Artifact {
    Artifact(q.chapter, q.release, q.checksum, state, q.provenance, q.source, q.quality)
  }

  function Activate(lib: Library, q: Request): (Library, Result) {
    var active := FindActive(lib.artifacts, lib.nextArtifact, q.chapter);
    var id := lib.nextArtifact;
    if active != None && lib.artifacts[active.value].checksum == q.checksum then
      (lib.(artifacts := lib.artifacts[active.value := Refreshed(lib.artifacts[active.value], q)],
            projections := lib.projections[q.chapter := Projection(active.value, q.path)]),
       Duplicate(active.value))
    else if active != None && !q.replace then
      (lib.(artifacts := lib.artifacts[id := NewArtifact(q, Quarantined)], nextArtifact := id + 1), ConflictWith(id))
    else
      var retired := if active != None
        then lib.artifacts[active.value := lib.artifacts[active.value].(state := InactiveArtifact)] else lib.artifacts;
      (lib.(artifacts := retired[id := NewArtifact(q, ActiveArtifact)],
            projections := lib.projections[q.chapter := Projection(id, q.path)], nextArtifact := id + 1),
       Activated(id))
  }

  class ArtifactRepository {
    var artifacts: map<nat, Artifact>
    var projections: map<nat, Projection>
    var nextArtifact: nat

    ghost function Rows(): Library
      reads this
    {
      Library(artifacts, projections, nextArtifact)
    }

    method ActivateArtifact(q: Request) returns (result: Result)
      modifies this
      ensures (Rows(), result) == Activate(old(Rows()), q)
    {
      var active := FindActive(artifacts, nextArtifact, q.chapter);
      if active != None && artifacts[active.value].checksum == q.checksum {
        artifacts := artifacts[active.value := Refreshed(artifacts[active.value], q)];
        projections := projections[q.chapter := Projection(active.value, q.path)];
        return Duplicate(active.value);
      }
      var id := nextArtifact;
      nextArtifact := nextArtifact + 1;
      if active != None && !q.replace {
        artifacts := artifacts[id := NewArtifact(q, Quarantined)];
        return ConflictWith(id);
      }
      if active != None {
        artifacts := artifacts[active.value := artifacts[active.value].(state := InactiveArtifact)];
      }
      artifacts := artifacts[id := NewArtifact(q, ActiveArtifact)];
      projections := projections[q.chapter := Projection(id, q.path)];
      return Activated(id);
    }
  }

  // ---------------------------------------------------------------- one active artifact, projected

  ghost predicate IdsBelow(lib: Library) {
    forall id :: id in lib.artifacts ==> id < lib.nextArtifact
  }

  lemma {:induction false} FindActiveFinds(artifacts: map<nat, Artifact>, limit: nat, chapter: nat)
    ensures match FindActive(artifacts, limit, chapter)
      case Some(id) => id < limit && ActiveFor(artifacts, id, chapter)
      case None => forall id :: 0 <= id < limit ==> !ActiveFor(artifacts, id, chapter)
  {
    if limit > 0 {
      FindActiveFinds(artifacts, limit - 1, chapter);
    }
  }

  /** At most one artifact of a chapter is active, and the chapter's projection names it. */
  ghost predicate ChapterOk(lib: Library, chapter: nat) {
    && (forall a, b :: ActiveFor(lib.artifacts, a, chapter) && ActiveFor(lib.artifacts, b, chapter) ==> a == b)
    && (forall a :: ActiveFor(lib.artifacts, a, chapter) ==>
         chapter in lib.projections && lib.projections[chapter].artifact == a)
  }

  ghost predicate LibraryOk(lib: Library) {
    IdsBelow(lib) && forall chapter: nat :: ChapterOk(lib, chapter)
  }

  lemma {:induction false} ActivateKeeps(lib: Library, q: Request)
    requires LibraryOk(lib)
    ensures LibraryOk(Activate(lib, q).0)
  {
    var t := Activate(lib, q).0;
    FindActiveFinds(lib.artifacts, lib.nextArtifact, q.chapter);
    assert ChapterOk(lib, q.chapter);
    var active := FindActive(lib.artifacts, lib.nextArtifact, q.chapter);
    assert forall a: nat :: ActiveFor(lib.artifacts, a, q.chapter) ==> active == Some(a);
    forall c: nat ensures ChapterOk(t, c) {
      assert ChapterOk(lib, c);
      if c != q.chapter {
        assert forall a :: ActiveFor(t.artifacts, a, c) <==> ActiveFor(lib.artifacts, a, c);
      } else if Activate(lib, q).1.Activated? {
        forall a: nat | a != lib.nextArtifact ensures !ActiveFor(t.artifacts, a, c) {
          if ActiveFor(lib.artifacts, a, c) {
            assert active == Some(a) && t.artifacts[a].state == InactiveArtifact;
          }
        }
      } else {
        assert forall a :: ActiveFor(t.artifacts, a, c) ==> ActiveFor(lib.artifacts, a, c);
      }
    }
  }

  ghost function ActivateAll(lib: Library, requests: seq<Request>): Library
    decreases |requests|
  {
    if requests == [] then lib
    else ActivateAll(Activate(lib, requests[0]).0, requests[1..])
  }

  /** Over any sequence of activations. */
  lemma {:induction false} ActivationsKeep(lib: Library, requests: seq<Request>)
    requires LibraryOk(lib)
    ensures LibraryOk(ActivateAll(lib, requests))
    decreases |requests|
  {
    if requests != [] {
      ActivateKeeps(lib, requests[0]);
      ActivationsKeep(Activate(lib, requests[0]).0, requests[1..]);
    }
  }

  // ---------------------------------------------------------------- upgrades

  predicate RankAbove(sourceA: string, qualityA: int, sourceB: string, qualityB: int) {
    var a, b := SourcePriority(sourceA), SourcePriority(sourceB);
    a > b || (a == b && qualityA > qualityB)
  }

  /** The release an upgrade pass would fetch for this artifact. */
  function UpgradeFor(a: Artifact, releases: seq<Release>, now: int): Option<Release> {
    if a.state != ActiveArtifact || !(a.provenance == "fallback" || a.source != "asura") then None
    else
      var best := BestRelease(releases, a.chapter, now);
      if best == None || !RankAbove(best.value.source, best.value.quality, a.source, a.quality) then None else best
  }

  /** The activation an upgrade job performs once it has downloaded `release`. */
  function UpgradeRequest(release: Release, checksum: string, path: string): Request {
    Request(release.chapter, Some(release.id), checksum, path, "upgrade", release.source, release.quality, true)
  }

  /**
   A planned upgrade strictly raises (provider priority, quality), whether the download is new or
   identical to the stored file, and with the same releases no further upgrade is planned.
   */
  lemma {:induction false} UpgradeRaises(lib: Library, id: nat, releases: seq<Release>, now: int, checksum: string,
                                         path: string)
    requires LibraryOk(lib) && id in lib.artifacts && UpgradeFor(lib.artifacts[id], releases, now) != None
    ensures var release := UpgradeFor(lib.artifacts[id], releases, now).value;
      var (t, result) := Activate(lib, UpgradeRequest(release, checksum, path));
      && !result.ConflictWith? && ActiveFor(t.artifacts, result.id, lib.artifacts[id].chapter)
      && RankAbove(t.artifacts[result.id].source, t.artifacts[result.id].quality,
                   lib.artifacts[id].source, lib.artifacts[id].quality)
      && UpgradeFor(t.artifacts[result.id], releases, now) == None
      && (result.id != id ==> t.artifacts[id].state == InactiveArtifact)
  {
    var previous := lib.artifacts[id];
    var release := UpgradeFor(previous, releases, now).value;
    BestIsPreferred(releases, (r: Release) => r.chapter == previous.chapter && Available(r, now));
    assert release.chapter == previous.chapter;
    FindActiveFinds(lib.artifacts, lib.nextArtifact, previous.chapter);
    assert ChapterOk(lib, previous.chapter);
    assert ActiveFor(lib.artifacts, id, previous.chapter);
    assert FindActive(lib.artifacts, lib.nextArtifact, release.chapter) == Some(id);
  }

  datatype Queue = Queue(jobs: map<nat, Job>, nextJob: nat)

  function EnqueueUpgrade(queue: Queue, release: Release): Queue {
    var key := UpgradeKey(release.chapter, release.id);
    if FindJob(queue.jobs, queue.nextJob, key) != None then queue
    else Queue(queue.jobs[queue.nextJob := Job(key, JobQueued, release.id, {}, true, release.source, 250)],
               queue.nextJob + 1)
  }

  /** An active artifact of a wanted chapter that has a better release. */
  predicate Upgradable(lib: Library, releases: seq<Release>, now: int, wanted: set<nat>, k: nat) {
    k in lib.artifacts && lib.artifacts[k].chapter in wanted && UpgradeFor(lib.artifacts[k], releases, now) != None
  }

  /** The upgrade pass over the artifacts with ids from `k` on. */
  function UpgradeFrom(lib: Library, releases: seq<Release>, now: int, wanted: set<nat>, queue: Queue, k: nat): Queue
    requires k <= lib.nextArtifact
    decreases lib.nextArtifact - k
  {
    if k == lib.nextArtifact then queue
    else if Upgradable(lib, releases, now, wanted, k)
    then UpgradeFrom(lib, releases, now, wanted,
                     EnqueueUpgrade(queue, UpgradeFor(lib.artifacts[k], releases, now).value), k + 1)
    else UpgradeFrom(lib, releases, now, wanted, queue, k + 1)
  }

  method EnqueuePreferredUpgrades(lib: Library, releases: seq<Release>, now: int, wanted: set<nat>, queue: Queue)
    returns (after: Queue, created: nat)
    ensures after == UpgradeFrom(lib, releases, now, wanted, queue, 0)
    ensures after.nextJob == queue.nextJob + created
  {
    after, created := queue, 0;
    for k := 0 to lib.nextArtifact
      invariant UpgradeFrom(lib, releases, now, wanted, after, k) == UpgradeFrom(lib, releases, now, wanted, queue, 0)
      invariant after.nextJob == queue.nextJob + created
    {
      if k in lib.artifacts && lib.artifacts[k].chapter in wanted {
        var release := UpgradeFor(lib.artifacts[k], releases, now);
        if release != None {
          var key := UpgradeKey(release.value.chapter, release.value.id);
          if FindJob(after.jobs, after.nextJob, key) == None {
            after := Queue(after.jobs[after.nextJob :=
              Job(key, JobQueued, release.value.id, {}, true, release.value.source, 250)],
                           after.nextJob + 1);
            created := created + 1;
          }
        }
      }
    }
  }

  ghost predicate QueueOk(queue: Queue) {
    forall j :: j in queue.jobs ==> j < queue.nextJob
  }

  lemma {:induction false} UpgradeStaysOnChapter(a: Artifact, releases: seq<Release>, now: int)
    ensures var r := UpgradeFor(a, releases, now); r != None ==> r.value.chapter == a.chapter
  {
    BestIsPreferred(releases, (r: Release) => r.chapter == a.chapter && Available(r, now));
  }

  /** A chapter whose active artifact has no better release gets no upgrade job from the pass. */
  lemma {:induction false} SettledChapterGetsNoUpgrade(lib: Library, releases: seq<Release>, now: int, wanted: set<nat>,
                                                       queue: Queue, k: nat, chapter: nat)
    requires k <= lib.nextArtifact && QueueOk(queue)
    requires forall id :: ActiveFor(lib.artifacts, id, chapter) ==> UpgradeFor(lib.artifacts[id], releases, now) == None
    ensures var after := UpgradeFrom(lib, releases, now, wanted, queue, k);
      && (forall j :: j in queue.jobs ==> j in after.jobs && after.jobs[j] == queue.jobs[j])
      && (forall j :: j in after.jobs && j !in queue.jobs ==> after.jobs[j].key.chapter != chapter)
    decreases lib.nextArtifact - k
  {
    if k < lib.nextArtifact {
      if Upgradable(lib, releases, now, wanted, k) {
        var release := UpgradeFor(lib.artifacts[k], releases, now).value;
        UpgradeStaysOnChapter(lib.artifacts[k], releases, now);
        assert ActiveFor(lib.artifacts, k, lib.artifacts[k].chapter);
        var next := EnqueueUpgrade(queue, release);
        SettledChapterGetsNoUpgrade(lib, releases, now, wanted, next, k + 1, chapter);
      } else {
        SettledChapterGetsNoUpgrade(lib, releases, now, wanted, queue, k + 1, chapter);
      }
    }
  }

  /** After a planned upgrade was activated, the next pass over the same releases leaves its chapter alone. */
  lemma {:induction false} NoUpgradeAfterUpgrade(lib: Library, id: nat, releases: seq<Release>, now: int,
                                                 checksum: string, path: string, wanted: set<nat>, queue: Queue)
    requires LibraryOk(lib) && QueueOk(queue)
    requires id in lib.artifacts && UpgradeFor(lib.artifacts[id], releases, now) != None
    ensures var release := UpgradeFor(lib.artifacts[id], releases, now).value;
      var t := Activate(lib, UpgradeRequest(release, checksum, path)).0;
      var after := UpgradeFrom(t, releases, now, wanted, queue, 0);
      forall j :: j in after.jobs && j !in queue.jobs ==> after.jobs[j].key.chapter != lib.artifacts[id].chapter
  {
    var release := UpgradeFor(lib.artifacts[id], releases, now).value;
    var q := UpgradeRequest(release, checksum, path);
    var (t, result) := Activate(lib, q);
    var chapter := lib.artifacts[id].chapter;
    UpgradeRaises(lib, id, releases, now, checksum, path);
    ActivateKeeps(lib, q);
    assert ChapterOk(t, chapter);
    SettledChapterGetsNoUpgrade(t, releases, now, wanted, queue, 0, chapter);
  }

  // ---------------------------------------------------------------- what an activation writes

  /** The artifact holds what the request brought. */
  ghost predicate Brought(a: Artifact, q: Request) {
    && a.chapter == q.chapter && a.checksum == q.checksum && a.release == q.release
    && a.provenance == q.provenance && a.source == q.source && a.quality == q.quality
  }

  /** Only this artifact's row differs. */
  ghost predicate OnlyRow(before: map<nat, Artifact>, after: map<nat, Artifact>, id: nat) {
    forall x :: x != id ==> (x in before <==> x in after) && (x in before ==> after[x] == before[x])
  }

  /**
   An activation whose file the chapter has already stores no second artifact and only raises what is
   known of the first; another file is quarantined, or retires the active one when replacing.
   */
  lemma {:induction false} ActivateWrites(lib: Library, q: Request, a: nat)
    requires LibraryOk(lib) && ActiveFor(lib.artifacts, a, q.chapter)
    ensures var (t, result) := Activate(lib, q); var id := lib.nextArtifact;
      if lib.artifacts[a].checksum == q.checksum then
        && result == Duplicate(a) && t.nextArtifact == id
        && OnlyRow(lib.artifacts, t.artifacts, a) && ActiveFor(t.artifacts, a, q.chapter)
        && t.artifacts[a].checksum == q.checksum && t.artifacts[a].provenance == lib.artifacts[a].provenance
        && t.artifacts[a].quality >= q.quality && t.artifacts[a].quality >= lib.artifacts[a].quality
        && t.artifacts[a].quality in {q.quality, lib.artifacts[a].quality}
        && (q.release != None ==> t.artifacts[a].release == q.release)
        && (q.release == None ==> t.artifacts[a].release == lib.artifacts[a].release)
        && t.artifacts[a].source == (if q.source != "" then q.source else lib.artifacts[a].source)
        && t.projections == lib.projections[q.chapter := Projection(a, q.path)]
      else if !q.replace then
        && result == ConflictWith(id) && t.nextArtifact == id + 1 && t.projections == lib.projections
        && OnlyRow(lib.artifacts, t.artifacts, id) && id in t.artifacts
        && Brought(t.artifacts[id], q) && t.artifacts[id].state == Quarantined
      else
        && result == Activated(id) && t.nextArtifact == id + 1
        && OnlyRow(lib.artifacts[a := lib.artifacts[a].(state := InactiveArtifact)], t.artifacts, id)
        && id in t.artifacts && Brought(t.artifacts[id], q) && t.artifacts[id].state == ActiveArtifact
        && t.projections == lib.projections[q.chapter := Projection(id, q.path)]
  {
    FindActiveFinds(lib.artifacts, lib.nextArtifact, q.chapter);
    assert ChapterOk(lib, q.chapter);
    assert FindActive(lib.artifacts, lib.nextArtifact, q.chapter) == Some(a);
  }

  /** Activating the same file again finds it and changes nothing. */
  lemma {:induction false} ActivatingAgainIsDuplicate(lib: Library, q: Request)
    requires LibraryOk(lib) && Activate(lib, q).1.Activated?
    ensures var (t, result) := Activate(lib, q); Activate(t, q) == (t, Duplicate(result.id))
  {
    var (t, result) := Activate(lib, q);
    ActivateKeeps(lib, q);
    assert ActiveFor(t.artifacts, result.id, q.chapter);
    FindActiveFinds(t.artifacts, t.nextArtifact, q.chapter);
    assert ChapterOk(t, q.chapter);
    assert FindActive(t.artifacts, t.nextArtifact, q.chapter) == Some(result.id);
    assert Refreshed(t.artifacts[result.id], q) == t.artifacts[result.id];
    assert t.artifacts[result.id := t.artifacts[result.id]] == t.artifacts;
    assert t.projections[q.chapter := Projection(result.id, q.path)] == t.projections;
  }

  /** Some available release of the chapter is of a better provider, or of a higher quality at the same one. */
  ghost predicate BetterExists(a: Artifact, releases: seq<Release>, now: int) {
    exists r :: r in releases && r.chapter == a.chapter && (r.availableAt == None || r.availableAt.value <= now)
      && RankAbove(r.source, r.quality, a.source, a.quality)
  }

  /** An upgrade is planned exactly for an active artifact of another provider, or a fallback, with a better release. */
  lemma {:induction false} UpgradePlannedExactlyWhen(a: Artifact, releases: seq<Release>, now: int)
    ensures UpgradeFor(a, releases, now) != None <==>
      && a.state == ActiveArtifact && (a.provenance == "fallback" || a.source != "asura")
      && BetterExists(a, releases, now)
  {
    BestIsPreferred(releases, (r: Release) => r.chapter == a.chapter && Available(r, now));
  }

  /** The job an upgrade of this artifact asks for: its best release, not urgent, and no other provider. */
  ghost predicate UpgradeJob(job: Job, lib: Library, releases: seq<Release>, now: int, k: nat) {
    && k in lib.artifacts && UpgradeFor(lib.artifacts[k], releases, now) != None
    && var release := UpgradeFor(lib.artifacts[k], releases, now).value;
       job == Job(UpgradeKey(lib.artifacts[k].chapter, release.id), JobQueued, release.id, {}, true,
                  release.source, 250)
  }

  /** Every job the upgrade pass creates is the upgrade of an active artifact of a wanted chapter. */
  lemma {:induction false} UpgradeJobsAreUpgrades(lib: Library, releases: seq<Release>, now: int, wanted: set<nat>,
                                                  queue: Queue, k: nat, j: nat)
    returns (a: nat)
    requires k <= lib.nextArtifact && QueueOk(queue)
    requires var after := UpgradeFrom(lib, releases, now, wanted, queue, k); j in after.jobs && j !in queue.jobs
    ensures Upgradable(lib, releases, now, wanted, a)
    ensures UpgradeJob(UpgradeFrom(lib, releases, now, wanted, queue, k).jobs[j], lib, releases, now, a)
    decreases lib.nextArtifact - k
  {
    if Upgradable(lib, releases, now, wanted, k) {
      var release := UpgradeFor(lib.artifacts[k], releases, now).value;
      var next := EnqueueUpgrade(queue, release);
      UpgradeStaysOnChapter(lib.artifacts[k], releases, now);
      UpgradeKeepsJobs(lib, releases, now, wanted, next, k + 1);
      if j in next.jobs {
        a := k;
      } else {
        a := UpgradeJobsAreUpgrades(lib, releases, now, wanted, next, k + 1, j);
      }
    } else {
      a := UpgradeJobsAreUpgrades(lib, releases, now, wanted, queue, k + 1, j);
    }
  }

  lemma {:induction false} UpgradeKeepsJobs(lib: Library, releases: seq<Release>, now: int, wanted: set<nat>,
                                            queue: Queue, k: nat)
    requires k <= lib.nextArtifact && QueueOk(queue)
    ensures var after := UpgradeFrom(lib, releases, now, wanted, queue, k);
      QueueOk(after) && forall j :: j in queue.jobs ==> j in after.jobs && after.jobs[j] == queue.jobs[j]
    decreases lib.nextArtifact - k
  {
    if k < lib.nextArtifact {
      if Upgradable(lib, releases, now, wanted, k) {
        var release := UpgradeFor(lib.artifacts[k], releases, now).value;
        UpgradeKeepsJobs(lib, releases, now, wanted, EnqueueUpgrade(queue, release), k + 1);
      } else {
        UpgradeKeepsJobs(lib, releases, now, wanted, queue, k + 1);
      }
    }
  }
}
