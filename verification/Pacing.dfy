/**
 Provider pacing: request start times are reserved one interval apart on each endpoint.
 Times and intervals are in seconds, as reals.
 */
module Pacing {

  import opened Options
  import opened Reals

  const KNOWN_SOURCES := {"asura", "mangadex", "mangafire", "kingofshojo"}

  predicate Known(source: string) { source in KNOWN_SOURCES }

  datatype Source = Source(cooldownUntil: Option<real>, nextRequestAt: Option<real>)
  datatype Endpoint = Endpoint(interval: real, cooldownUntil: Option<real>, nextRequestAt: Option<real>)

  datatype Schedule = Schedule(sources: map<string, Source>,
                               endpoints: map<(string, string), Endpoint>,
                               policies: map<string, real>)

  datatype Reservation = UnknownSource | Refused(delay: real) | Granted(delay: real)

  function SourceOf(s: Schedule, source: string): Source {
    if source in s.sources then s.sources[source] else Source(None, None)
  }

  function EndpointOf(s: Schedule, source: string, traffic: string): Endpoint {
    if (source, traffic) in s.endpoints then s.endpoints[(source, traffic)] else Endpoint(0.0, None, None)
  }

  /** A provider policy overrides the requested interval, an endpoint override beats both. */
  function EffectiveInterval(s: Schedule, source: string, traffic: string, requested: real): real {
    var fromPolicy := if source in s.policies && s.policies[source] > 0.0 then s.policies[source] else requested;
    var endpoint := EndpointOf(s, source, traffic);
    Max(if endpoint.interval > 0.0 then endpoint.interval else fromPolicy, 0.0)
  }

  function Latest(now: real, until: Option<real>): real {
    if until == None then now else Max(now, until.value)
  }

  function CooldownEnd(s: Schedule, source: string, traffic: string, now: real): real {
    Latest(Latest(now, SourceOf(s, source).cooldownUntil), EndpointOf(s, source, traffic).cooldownUntil)
  }

  /** When a request made at `now` may start. */
  function StartTime(next: Option<real>, interval: real, now: real, probe: bool): real {
    if next == None then now
    else Max(now, if probe then Min(next.value, now + interval) else next.value)
  }

  function Reserve(s: Schedule, source: string, traffic: string, requested: real, now: real, probe: bool)
    : (Schedule, Reservation)
  {
    if !Known(source) then (s, UnknownSource)
    else
      var state, endpoint := SourceOf(s, source), EndpointOf(s, source, traffic);
      var interval := EffectiveInterval(s, source, traffic, requested);
      var present := s.(sources := s.sources[source := state], endpoints := s.endpoints[(source, traffic) := endpoint]);
      var cooldown := CooldownEnd(s, source, traffic, now);
      if !probe && cooldown > now then (present, Refused(cooldown - now))
      else
        var start := StartTime(endpoint.nextRequestAt, interval, now, probe);
        var next := Some(start + interval);
        (s.(sources := s.sources[source := state.(nextRequestAt := next)],
            endpoints := s.endpoints[(source, traffic) := endpoint.(nextRequestAt := next)]),
         Granted(Max(0.0, start - now)))
  }

  method SlotStart(next: Option<real>, interval: real, now: real, probe: bool) returns (start: real)
    ensures start == StartTime(next, interval, now, probe)
  {
    start := now;
    if next != None {
      var slot := next.value;
      if probe {
        slot := Min(slot, now + interval);
      }
      start := Max(start, slot);
    }
  }

  class ProviderRequestScheduler {
    const recheck: real
    var sources: map<string, Source>
    var endpoints: map<(string, string), Endpoint>
    var policies: map<string, real>

    constructor (cooldownRecheckSeconds: real)
      ensures recheck >= 0.05 && Rows() == Schedule(map[], map[], map[])
    {
      recheck := Max(cooldownRecheckSeconds, 0.05);
      sources, endpoints, policies := map[], map[], map[];
    }

    ghost function Rows(): Schedule
      reads this
    {
      Schedule(sources, endpoints, policies)
    }

    method ReserveSlot(source: string, traffic: string, requested: real, now: real, probe: bool)
      returns (result: Reservation)
      modifies this
      ensures (Rows(), result) == Reserve(old(Rows()), source, traffic, requested, now, probe)
    {
      if !Known(source) {
        return UnknownSource;
      }
      var state := Source(None, None);
      if source in sources {
        state := sources[source];
      }
      var interval := requested;
      if source in policies && policies[source] > 0.0 {
        interval := policies[source];
      }
      var key := (source, traffic);
      var endpoint := Endpoint(0.0, None, None);
      if key in endpoints {
        endpoint := endpoints[key];
        if endpoint.interval > 0.0 {
          interval := endpoint.interval;
        }
      }
      interval := Max(interval, 0.0);
      var cooldown := Latest(Latest(now, state.cooldownUntil), endpoint.cooldownUntil);
      if !probe && cooldown > now {
        sources, endpoints := sources[source := state], endpoints[key := endpoint];
        return Refused(cooldown - now);
      }
      var start := SlotStart(endpoint.nextRequestAt, interval, now, probe);
      endpoint := endpoint.(nextRequestAt := Some(start + interval));
      state := state.(nextRequestAt := endpoint.nextRequestAt);
      sources, endpoints := sources[source := state], endpoints[key := endpoint];
      return Granted(Max(0.0, start - now));
    }

    /**
     The waiting loop, over the attempts it would make: at each it finds the clock and the tables as
     others have left them.  It sleeps through refusals, rechecking at least every `recheck`
     seconds, and after a grant sleeps out the granted delay.
     */
    method Wait(source: string, traffic: string, requested: real, probe: bool, attempts: seq<Attempt>)
      returns (rounds: nat, slept: seq<real>, granted: bool)
      requires Known(source) && recheck >= 0.05
      modifies this
      ensures rounds <= |attempts| && (granted <==> rounds < |attempts|)
      ensures AllCooling(attempts[..rounds], source, traffic) && (probe ==> rounds == 0)
      ensures |slept| >= rounds && slept[..rounds] == RecheckSleeps(attempts[..rounds], source, traffic, recheck)
      ensures granted ==>
        var (after, result) := Reserve(attempts[rounds].rows, source, traffic, requested, attempts[rounds].now, probe);
        && (probe || !Cooling(attempts[rounds].rows, source, traffic, attempts[rounds].now))
        && result.Granted? && Rows() == after
        && slept[rounds..] == if result.delay > 0.0 then [result.delay] else []
      ensures !granted ==> |slept| == rounds
    {
      rounds, slept, granted := 0, [], false;
      while rounds < |attempts|
        invariant rounds <= |attempts| && |slept| == rounds && !granted
        invariant AllCooling(attempts[..rounds], source, traffic) && (probe ==> rounds == 0)
        invariant slept == RecheckSleeps(attempts[..rounds], source, traffic, recheck)
      {
        var attempt := attempts[rounds];
        sources, endpoints, policies := attempt.rows.sources, attempt.rows.endpoints, attempt.rows.policies;
        assert Rows() == attempt.rows;
        var reservation := ReserveSlot(source, traffic, requested, attempt.now, probe);
        RefusedDuringCooldown(attempt.rows, source, traffic, requested, attempt.now, probe);
        if reservation.Granted? {
          if reservation.delay > 0.0 {
            slept := slept + [reservation.delay];
          }
          granted := true;
          return;
        }
        assert attempts[..rounds + 1] == attempts[..rounds] + [attempt];
        slept := slept + [Min(reservation.delay, recheck)];
        rounds := rounds + 1;
      }
    }
  }

  /** The clock and the tables at one attempt to reserve. */
  datatype Attempt = Attempt(now: real, rows: Schedule)

  ghost predicate Cooling(s: Schedule, source: string, traffic: string, now: real) {
    CooldownEnd(s, source, traffic, now) > now
  }

  lemma {:induction false} RefusedDuringCooldown(s: Schedule, source: string, traffic: string, requested: real,
                                                 now: real, probe: bool)
    requires Known(source)
    ensures var result := Reserve(s, source, traffic, requested, now, probe).1;
      if !probe && Cooling(s, source, traffic, now)
      then result == Refused(CooldownEnd(s, source, traffic, now) - now) else result.Granted?
  {
  }

  ghost predicate AllCooling(attempts: seq<Attempt>, source: string, traffic: string) {
    forall a :: a in attempts ==> Cooling(a.rows, source, traffic, a.now)
  }

  /** One sleep per refusal: to the end of the cooldown, but no longer than the recheck interval. */
  ghost function RecheckSleeps(attempts: seq<Attempt>, source: string, traffic: string, recheck: real): seq<real> {
    if attempts == [] then []
    else
      var last := attempts[|attempts| - 1];
      RecheckSleeps(attempts[..|attempts| - 1], source, traffic, recheck)
        + [Min(CooldownEnd(last.rows, source, traffic, last.now) - last.now, recheck)]
  }

  /** Nothing the pacing of this endpoint depends on has changed. */
  ghost predicate SameTimes(s: Schedule, t: Schedule, source: string, traffic: string) {
    && SourceOf(t, source) == SourceOf(s, source) && EndpointOf(t, source, traffic) == EndpointOf(s, source, traffic)
    && t.policies == s.policies
  }

  /** A cooldown refusal changes no time on any endpoint, and a grant only this endpoint's. */
  lemma {:induction false} ReserveFrame(s: Schedule, source: string, traffic: string, requested: real, now: real,
                                        probe: bool)
    ensures var (t, result) := Reserve(s, source, traffic, requested, now, probe);
      && (forall x, c :: (x, c) != (source, traffic) ==> EndpointOf(t, x, c) == EndpointOf(s, x, c))
      && (forall x :: SourceOf(t, x).cooldownUntil == SourceOf(s, x).cooldownUntil)
      && (!result.Granted? ==> forall x, c :: SameTimes(s, t, x, c))
      && (result.Refused? <==> Known(source) && !probe && CooldownEnd(s, source, traffic, now) > now)
      && (result.Granted? ==>
           var interval := EffectiveInterval(s, source, traffic, requested);
           var start := StartTime(EndpointOf(s, source, traffic).nextRequestAt, interval, now, probe);
           EndpointOf(t, source, traffic).nextRequestAt == Some(start + interval) && now + result.delay == start)
  {
  }

  // ---------------------------------------------------------------- spacing and closed form

  /** One granted request: the clock reading and the interval that was in force. */
  datatype Grant = Grant(now: real, interval: real)

  /** The slot the endpoint offers next, after a run of ordinary grants. */
  ghost function NextAfter(first: Option<real>, grants: seq<Grant>): Option<real> {
    if grants == [] then first
    else
      var last := grants[|grants| - 1];
      Some(StartTime(NextAfter(first, grants[..|grants| - 1]), last.interval, last.now, false) + last.interval)
  }

  /** The start time of the last grant of a run. */
  ghost function StartOf(first: Option<real>, grants: seq<Grant>): real
    requires grants != []
  {
    var last := grants[|grants| - 1];
    StartTime(NextAfter(first, grants[..|grants| - 1]), last.interval, last.now, false)
  }

  /** Intervals of grants `j` up to, but not including, the last. */
  ghost function Spread(grants: seq<Grant>, j: nat): real
    requires j < |grants|
  {
    if j == |grants| - 1 then 0.0
    else Spread(grants[..|grants| - 1], j) + grants[|grants| - 2].interval
  }

  /** Consecutive starts are at least the interval in force at the earlier one apart. */
  lemma {:induction false} GrantsAreSpaced(first: Option<real>, grants: seq<Grant>)
    requires |grants| >= 2
    ensures StartOf(first, grants) >= StartOf(first, grants[..|grants| - 1]) + grants[|grants| - 2].interval
  {
  }

  /**
   The closed form: a start is the largest, over all requests up to it, of that request's clock
   reading plus the intervals granted since, and of the initial slot plus all of them.
   */
  lemma {:induction false} StartClosedForm(first: Option<real>, grants: seq<Grant>)
    requires grants != []
    ensures forall j :: 0 <= j < |grants| ==> StartOf(first, grants) >= grants[j].now + Spread(grants, j)
    ensures first != None ==> StartOf(first, grants) >= first.value + Spread(grants, 0)
    ensures (exists j :: 0 <= j < |grants| && StartOf(first, grants) == grants[j].now + Spread(grants, j))
      || (first != None && StartOf(first, grants) == first.value + Spread(grants, 0))
  {
    var n := |grants| - 1;
    if n > 0 {
      var before := grants[..n];
      StartClosedForm(first, before);
      var shift := grants[n - 1].interval;
      assert NextAfter(first, before) == Some(StartOf(first, before) + shift);
      forall j | 0 <= j < n ensures Spread(grants, j) == Spread(before, j) + shift {
        assert before[j] == grants[j];
      }
      forall j | 0 <= j < |grants| ensures StartOf(first, grants) >= grants[j].now + Spread(grants, j) {
        if j < n {
          assert before[j] == grants[j];
          assert StartOf(first, before) >= before[j].now + Spread(before, j);
        }
      }
      if StartOf(first, grants) != grants[n].now {
        if j :| 0 <= j < n && StartOf(first, before) == before[j].now + Spread(before, j) {
          assert StartOf(first, grants) == grants[j].now + Spread(grants, j);
        }
      } else {
        assert StartOf(first, grants) == grants[n].now + Spread(grants, n);
      }
    } else {
      assert StartOf(first, grants) == grants[0].now + Spread(grants, 0)
        || (first != None && StartOf(first, grants) == first.value + Spread(grants, 0));
    }
  }

  /** With a fixed interval the k-th start is the maximum of `now_j + (k - j) * interval`. */
  lemma {:induction false} FixedIntervalSpread(grants: seq<Grant>, j: nat, interval: real)
    requires j < |grants| && forall i :: 0 <= i < |grants| ==> grants[i].interval == interval
    ensures Spread(grants, j) == (|grants| - 1 - j) as real * interval
  {
    if j < |grants| - 1 {
      FixedIntervalSpread(grants[..|grants| - 1], j, interval);
      var k := (|grants| - 2 - j) as real;
      assert (|grants| - 1 - j) as real == k + 1.0;
      assert (k + 1.0) * interval == k * interval + interval;
    }
  }

  /** A probe starts within one interval. */
  lemma {:induction false} ProbeWaitsOneInterval(s: Schedule, source: string, traffic: string, requested: real,
                                                 now: real)
    requires Known(source)
    ensures var result := Reserve(s, source, traffic, requested, now, true).1;
      result.Granted? && 0.0 <= result.delay <= EffectiveInterval(s, source, traffic, requested)
  {
  }

  /** One request of a run on a single endpoint; cooldowns may change in between. */
  datatype Ask = Ask(now: real, requested: real, sourceCooldown: Option<real>, endpointCooldown: Option<real>)

  ghost function WithCooldowns(s: Schedule, source: string, traffic: string, ask: Ask): Schedule {
    s.(sources := s.sources[source := SourceOf(s, source).(cooldownUntil := ask.sourceCooldown)],
       endpoints := s.endpoints[(source, traffic) :=
         EndpointOf(s, source, traffic).(cooldownUntil := ask.endpointCooldown)])
  }

  ghost function AskOnce(s: Schedule, source: string, traffic: string, ask: Ask): (Schedule, Reservation) {
    Reserve(WithCooldowns(s, source, traffic, ask), source, traffic, ask.requested, ask.now, false)
  }

  ghost function AskAll(s: Schedule, source: string, traffic: string, asks: seq<Ask>): Schedule {
    if asks == [] then s
    else AskOnce(AskAll(s, source, traffic, asks[..|asks| - 1]), source, traffic, asks[|asks| - 1]).0
  }

  /** The granted requests of a run, with the intervals in force. */
  ghost function GrantsOf(s: Schedule, source: string, traffic: string, asks: seq<Ask>): seq<Grant> {
    if asks == [] then []
    else
      var before := asks[..|asks| - 1];
      var last := asks[|asks| - 1];
      var earlier := AskAll(s, source, traffic, before);
      var grants := GrantsOf(s, source, traffic, before);
      if AskOnce(earlier, source, traffic, last).1.Granted?
      then grants + [Grant(last.now, EffectiveInterval(s, source, traffic, last.requested))]
      else grants
  }

  /**
   However refusals and cooldown changes are interleaved, the endpoint's slot is the one produced
   by the grants alone, so spacing and closed form hold for every run of ordinary requests.
   */
  lemma {:induction false} RunIsItsGrants(s: Schedule, source: string, traffic: string, asks: seq<Ask>)
    requires Known(source)
    ensures SamePolicy(s, AskAll(s, source, traffic, asks), source, traffic)
    ensures EndpointOf(AskAll(s, source, traffic, asks), source, traffic).nextRequestAt
         == NextAfter(EndpointOf(s, source, traffic).nextRequestAt, GrantsOf(s, source, traffic, asks))
  {
    if asks != [] {
      var before, last := asks[..|asks| - 1], asks[|asks| - 1];
      RunIsItsGrants(s, source, traffic, before);
      AskIsOneGrant(s, AskAll(s, source, traffic, before), source, traffic, last);
      OneMoreGrant(EndpointOf(s, source, traffic).nextRequestAt, GrantsOf(s, source, traffic, before),
                   Grant(last.now, EffectiveInterval(s, source, traffic, last.requested)));
    }
  }

  lemma {:induction false} OneMoreGrant(first: Option<real>, grants: seq<Grant>, grant: Grant)
    ensures StartOf(first, grants + [grant]) == StartTime(NextAfter(first, grants), grant.interval, grant.now, false)
    ensures NextAfter(first, grants + [grant]) == Some(StartOf(first, grants + [grant]) + grant.interval)
  {
    assert (grants + [grant])[..|grants|] == grants;
  }

  ghost predicate SamePolicy(s: Schedule, t: Schedule, source: string, traffic: string) {
    t.policies == s.policies && EndpointOf(t, source, traffic).interval == EndpointOf(s, source, traffic).interval
  }

  /** One request with the cooldowns of the moment: a grant moves the slot, a refusal leaves it. */
  lemma {:induction false} AskIsOneGrant(s: Schedule, t: Schedule, source: string, traffic: string, ask: Ask)
    requires Known(source) && SamePolicy(s, t, source, traffic)
    ensures var (u, result) := AskOnce(t, source, traffic, ask);
      var next := EndpointOf(t, source, traffic).nextRequestAt;
      var interval := EffectiveInterval(s, source, traffic, ask.requested);
      && SamePolicy(s, u, source, traffic)
      && EndpointOf(u, source, traffic).nextRequestAt
         == (if result.Granted? then Some(StartTime(next, interval, ask.now, false) + interval) else next)
      && (result.Granted? ==> ask.now + result.delay == StartTime(next, interval, ask.now, false))
  {
  }

  /** A granted request of a run waits until exactly the start its place among the grants gives it. */
  lemma {:induction false} GrantedStart(s: Schedule, source: string, traffic: string, asks: seq<Ask>, ask: Ask)
    requires Known(source) && AskOnce(AskAll(s, source, traffic, asks), source, traffic, ask).1.Granted?
    ensures var grants := GrantsOf(s, source, traffic, asks + [ask]);
      && grants == GrantsOf(s, source, traffic, asks)
                   + [Grant(ask.now, EffectiveInterval(s, source, traffic, ask.requested))]
      && ask.now + AskOnce(AskAll(s, source, traffic, asks), source, traffic, ask).1.delay
         == StartOf(EndpointOf(s, source, traffic).nextRequestAt, grants)
  {
    assert (asks + [ask])[..|asks|] == asks;
    RunIsItsGrants(s, source, traffic, asks);
    AskIsOneGrant(s, AskAll(s, source, traffic, asks), source, traffic, ask);
    OneMoreGrant(EndpointOf(s, source, traffic).nextRequestAt, GrantsOf(s, source, traffic, asks),
                 Grant(ask.now, EffectiveInterval(s, source, traffic, ask.requested)));
  }

  /** With one interval throughout, the last start is the maximum of `now_j + (k - j) * interval`. */
  ghost predicate LatestOfShifted(start: real, grants: seq<Grant>, interval: real) {
    && (forall j :: 0 <= j < |grants| ==> start >= Shifted(grants, j, interval))
    && (exists j :: 0 <= j < |grants| && start == Shifted(grants, j, interval))
  }

  ghost function Shifted(grants: seq<Grant>, j: nat, interval: real): real
    requires j < |grants|
  {
    grants[j].now + (|grants| - 1 - j) as real * interval
  }

  lemma {:induction false} FixedIntervalStart(grants: seq<Grant>, interval: real, start: real)
    requires grants != [] && (forall g :: g in grants ==> g.interval == interval) && start == StartOf(None, grants)
    ensures LatestOfShifted(start, grants, interval)
  {
    StartClosedForm(None, grants);
    forall j | 0 <= j < |grants| ensures Shifted(grants, j, interval) == grants[j].now + Spread(grants, j) {
      FixedIntervalSpread(grants, j, interval);
    }
  }

  /** On a fresh endpoint with one interval in force, every granted request of every run starts there. */
  lemma {:induction false} FixedIntervalClosedForm(s: Schedule, source: string, traffic: string, asks: seq<Ask>,
                                                   ask: Ask, interval: real)
    requires Known(source) && EndpointOf(s, source, traffic).nextRequestAt == None
    requires AskOnce(AskAll(s, source, traffic, asks), source, traffic, ask).1.Granted?
    requires forall g :: g in GrantsOf(s, source, traffic, asks + [ask]) ==> g.interval == interval
    ensures LatestOfShifted(ask.now + AskOnce(AskAll(s, source, traffic, asks), source, traffic, ask).1.delay,
                            GrantsOf(s, source, traffic, asks + [ask]), interval)
  {
    GrantedStart(s, source, traffic, asks, ask);
    FixedIntervalStart(GrantsOf(s, source, traffic, asks + [ask]), interval,
                       ask.now + AskOnce(AskAll(s, source, traffic, asks), source, traffic, ask).1.delay);
  }

  // ---------------------------------------------------------------- probes within a run

  /** A recovery probe, under the cooldowns of the moment. */
  ghost function Probe(s: Schedule, source: string, traffic: string, ask: Ask): Reservation {
    Reserve(WithCooldowns(s, source, traffic, ask), source, traffic, ask.requested, ask.now, true).1
  }

  lemma {:induction false} ProbeStart(s: Schedule, t: Schedule, source: string, traffic: string, ask: Ask)
    requires Known(source) && SamePolicy(s, t, source, traffic)
    ensures var probe := Probe(t, source, traffic, ask);
      var interval := EffectiveInterval(s, source, traffic, ask.requested);
      probe.Granted? && ask.now + probe.delay
        == StartTime(EndpointOf(t, source, traffic).nextRequestAt, interval, ask.now, true)
  {
  }

  /**
   After any run, a probe starts an interval or more after the last granted request exactly when the
   end of that interval is at most the probe's own interval away; with one interval in force, exactly
   when the last granted request has started already.
   */
  lemma {:induction false} ProbeKeepsSpacingExactlyWhen(s: Schedule, source: string, traffic: string, asks: seq<Ask>,
                                                        ask: Ask)
    requires Known(source) && GrantsOf(s, source, traffic, asks) != []
    ensures var grants := GrantsOf(s, source, traffic, asks);
      var last, start := grants[|grants| - 1], StartOf(EndpointOf(s, source, traffic).nextRequestAt, grants);
      var interval := EffectiveInterval(s, source, traffic, ask.requested);
      var probe := Probe(AskAll(s, source, traffic, asks), source, traffic, ask);
      && probe.Granted?
      && (ask.now + probe.delay >= start + last.interval <==> start + last.interval <= ask.now + interval)
      && (last.interval == interval ==> (ask.now + probe.delay >= start + last.interval <==> start <= ask.now))
  {
    RunIsItsGrants(s, source, traffic, asks);
    ProbeStart(s, AskAll(s, source, traffic, asks), source, traffic, ask);
    LastSlot(EndpointOf(s, source, traffic).nextRequestAt, GrantsOf(s, source, traffic, asks));
  }

  lemma {:induction false} LastSlot(first: Option<real>, grants: seq<Grant>)
    requires grants != []
    ensures NextAfter(first, grants) == Some(StartOf(first, grants) + grants[|grants| - 1].interval)
  {
  }

  /** Two requests and a probe at one moment, ten seconds apart: the probe starts together with the second. */
  lemma {:induction false} ProbeOvertakes(s: Schedule, ask: Ask)
    requires s == Schedule(map[], map[], map[]) && ask == Ask(0.0, 10.0, None, None)
    ensures AskOnce(s, "mangadex", "origin", ask).1 == Granted(0.0)
    ensures AskOnce(AskAll(s, "mangadex", "origin", [ask]), "mangadex", "origin", ask).1 == Granted(10.0)
    ensures Probe(AskAll(s, "mangadex", "origin", [ask, ask]), "mangadex", "origin", ask) == Granted(10.0)
  {
    assert [ask][..0] == [] && [ask, ask][..1] == [ask];
    assert AskAll(s, "mangadex", "origin", [ask][..0]) == s;
    var once, twice := AskAll(s, "mangadex", "origin", [ask]), AskAll(s, "mangadex", "origin", [ask, ask]);
    AskIsOneGrant(s, s, "mangadex", "origin", ask);
    AskIsOneGrant(s, once, "mangadex", "origin", ask);
    ProbeStart(s, twice, "mangadex", "origin", ask);
  }

  // ---------------------------------------------------------------- cooldowns and intervals in force

  /** A cooldown of the provider or of this endpoint that ends later than now. */
  ghost predicate CooledUntil(s: Schedule, source: string, traffic: string, now: real, until: real) {
    && until > now
    && (|| (source in s.sources && s.sources[source].cooldownUntil == Some(until))
        || ((source, traffic) in s.endpoints && s.endpoints[(source, traffic)].cooldownUntil == Some(until)))
  }

  /** A request is refused exactly while a cooldown runs, and then until the last of them has ended. */
  lemma {:induction false} RefusedUntilCooldownsEnd(s: Schedule, source: string, traffic: string, requested: real,
                                                    now: real)
    requires Known(source)
    ensures var result := Reserve(s, source, traffic, requested, now, false).1;
      && (result.Refused? <==> exists until :: CooledUntil(s, source, traffic, now, until))
      && (result.Refused? ==>
           && (forall until :: CooledUntil(s, source, traffic, now, until) ==> until <= now + result.delay)
           && CooledUntil(s, source, traffic, now, now + result.delay))
  {
    var result := Reserve(s, source, traffic, requested, now, false).1;
    if result.Refused? {
      assert CooledUntil(s, source, traffic, now, now + result.delay);
    }
  }

  /** The endpoint's interval wins if positive, then the provider's policy, then the request, never below zero. */
  lemma {:induction false} IntervalInForce(s: Schedule, source: string, traffic: string, requested: real)
    ensures var interval := EffectiveInterval(s, source, traffic, requested);
      if (source, traffic) in s.endpoints && s.endpoints[(source, traffic)].interval > 0.0
      then interval == s.endpoints[(source, traffic)].interval
      else if source in s.policies && s.policies[source] > 0.0 then interval == s.policies[source]
      else interval == if requested > 0.0 then requested else 0.0
  {
  }
}
