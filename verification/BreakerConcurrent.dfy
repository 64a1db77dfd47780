/** Overlapping calls of one circuit breaker: admission and completion are each one atomic
    step, and any number of calls may be in flight between the two. */
module BreakerConcurrent {
  import opened Breaker

  /** A request in flight.  `period` is the half-open period that admitted it, counted from
      1, or 0 if the breaker was closed. */
  datatype Flight = Flight(at: int, counted: bool, period: nat)

  datatype System = System(c: Counters, now: int, period: nat, flights: map<nat, Flight>)

  datatype Action = Start(id: nat) | End(id: nat, failed: bool) | Tick(to: int)

  ghost predicate Enabled(s: System, a: Action)
  {
    match a
    case Start(id) => id !in s.flights
    case End(id, _) => id in s.flights
    case Tick(to) => s.now <= to
  }

  function Next(cfg: Config, s: System, a: Action): System
    requires Enabled(s, a)
  {
    match a
    case Start(id) =>
      var (c, admission) := Admitted(cfg, s.c, s.now, s.now);
      var period := if s.c.state == Open && c.state == HalfOpen then s.period + 1 else s.period;
      if admission == Deny then s
      else
        System(c, s.now, period,
               s.flights[id := Flight(s.now, admission.counted, if c.state == HalfOpen then period else 0)])
    case End(id, failed) =>
      s.(c := Finished(cfg, s.c, failed, s.flights[id].counted, s.now), flights := s.flights - {id})
    case Tick(to) => s.(now := to)
  }

  ghost function Counted(flights: map<nat, Flight>): set<nat>
  {
    set id | id in flights && flights[id].counted
  }

  /** The calls in flight that one half-open period admitted. */
  ghost function InPeriod(flights: map<nat, Flight>, period: nat): set<nat>
  {
    set id | id in flights && flights[id].period == period
  }

  // ---------------------------------------------------------------- runs

  function Initial(now: int): System
  {
    System(Counters(Closed, 0, 0, now, 0), now, 0, map[])
  }

  ghost predicate Possible(cfg: Config, s: System, actions: seq<Action>)
    decreases |actions|
  {
    actions == [] || (Enabled(s, actions[0]) && Possible(cfg, Next(cfg, s, actions[0]), actions[1..]))
  }

  ghost function After(cfg: Config, s: System, actions: seq<Action>): System
    requires Possible(cfg, s, actions)
    decreases |actions|
  {
    if actions == [] then s else After(cfg, Next(cfg, s, actions[0]), actions[1..])
  }

  // ---------------------------------------------------------------- when the counter is right

  /** The half-open counter is the number of counted calls in flight. */
  ghost predicate Exact(s: System)
  {
    s.c.halfOpenReqs == |Counted(s.flights)|
  }

  ghost predicate AlwaysExact(cfg: Config, s: System, actions: seq<Action>)
    requires Possible(cfg, s, actions)
    decreases |actions|
  {
    Exact(s) && (actions == [] || AlwaysExact(cfg, Next(cfg, s, actions[0]), actions[1..]))
  }

  /** This action takes the breaker from open to half-open, storing zero in the counter. */
  predicate Reopens(cfg: Config, s: System, a: Action)
  {
    a.Start? && s.c.state == Open && s.now - s.c.lastStateChange > cfg.timeout
  }

  /** No counted call is in flight whenever a half-open period begins. */
  ghost predicate QuietRun(cfg: Config, s: System, actions: seq<Action>)
    requires Possible(cfg, s, actions)
    decreases |actions|
  {
    actions == [] ||
    ((Reopens(cfg, s, actions[0]) ==> Counted(s.flights) == {}) &&
     QuietRun(cfg, Next(cfg, s, actions[0]), actions[1..]))
  }

  lemma CountAfterStart(flights: map<nat, Flight>, id: nat, f: Flight)
    requires id !in flights
    ensures |Counted(flights[id := f])| == |Counted(flights)| + if f.counted then 1 else 0
  {
    assert Counted(flights[id := f]) == Counted(flights) + if f.counted then {id} else {};
  }

  lemma CountAfterEnd(flights: map<nat, Flight>, id: nat)
    requires id in flights
    ensures |Counted(flights - {id})| == |Counted(flights)| - if flights[id].counted then 1 else 0
  {
    assert Counted(flights - {id}) == Counted(flights) - {id};
  }

  /** Only a reopening can make an exact counter wrong, and it does unless nothing counted
      is in flight. */
  lemma ExactStep(cfg: Config, s: System, a: Action)
    requires Exact(s) && Enabled(s, a)
    ensures Exact(Next(cfg, s, a)) <==> (Reopens(cfg, s, a) ==> Counted(s.flights) == {})
  {
    var s' := Next(cfg, s, a);
    match a
    case Start(id) => if s' != s { CountAfterStart(s.flights, id, s'.flights[id]); }
    case End(id, _) => CountAfterEnd(s.flights, id);
    case Tick(_) =>
  }

  lemma {:induction false} ExactIffQuietFrom(cfg: Config, s: System, actions: seq<Action>)
    requires Exact(s) && Possible(cfg, s, actions)
    ensures AlwaysExact(cfg, s, actions) <==> QuietRun(cfg, s, actions)
    decreases |actions|
  {
    if actions != [] {
      var s' := Next(cfg, s, actions[0]);
      ExactStep(cfg, s, actions[0]);
      if Exact(s') {
        ExactIffQuietFrom(cfg, s', actions[1..]);
      }
    }
  }

  /** In every run the counter is right in all states if, and only if, no counted call is in
      flight whenever a half-open period begins. */
  lemma CounterExactIffQuiet(cfg: Config, now: int, actions: seq<Action>)
    requires Possible(cfg, Initial(now), actions)
    ensures AlwaysExact(cfg, Initial(now), actions) <==> QuietRun(cfg, Initial(now), actions)
  {
    assert Counted(Initial(now).flights) == {};
    ExactIffQuietFrom(cfg, Initial(now), actions);
  }

  // ---------------------------------------------------------------- the bound

  /** A call that began a half-open period: the only one of it that is not counted. */
  predicate Opener(f: Flight) { f.period > 0 && !f.counted }

  predicate SamePeriodOpeners(f: Flight, g: Flight) { Opener(f) && Opener(g) && f.period == g.period }

  ghost predicate OneOpenerEach(s: System)
  {
    forall i, j :: i in s.flights && j in s.flights && SamePeriodOpeners(s.flights[i], s.flights[j]) ==> i == j
  }

  ghost predicate Inv(s: System)
  {
    && Exact(s) && s.c.halfOpenReqs <= HALF_OPEN_MAX && OneOpenerEach(s)
    && forall id :: id in s.flights ==> s.flights[id].period <= s.period
  }

  lemma StartKeepsInv(cfg: Config, s: System, id: nat)
    requires Inv(s) && id !in s.flights && (Reopens(cfg, s, Start(id)) ==> Counted(s.flights) == {})
    ensures Inv(Next(cfg, s, Start(id)))
  {
    ExactStep(cfg, s, Start(id));
  }

  lemma EndKeepsInv(cfg: Config, s: System, id: nat, failed: bool)
    requires Inv(s) && id in s.flights
    ensures Inv(Next(cfg, s, End(id, failed)))
  {
    ExactStep(cfg, s, End(id, failed));
  }

  lemma {:induction false} RunKeepsInv(cfg: Config, s: System, actions: seq<Action>)
    requires Inv(s) && Possible(cfg, s, actions) && QuietRun(cfg, s, actions)
    ensures Inv(After(cfg, s, actions))
    decreases |actions|
  {
    if actions != [] {
      match actions[0] {
        case Start(id) => StartKeepsInv(cfg, s, id);
        case End(id, failed) => EndKeepsInv(cfg, s, id, failed);
        case Tick(_) =>
      }
      RunKeepsInv(cfg, Next(cfg, s, actions[0]), actions[1..]);
    }
  }

  lemma {:induction false} Within(a: set<nat>, b: set<nat>)
    requires a <= b
    ensures |a| <= |b|
  {
    if a != {} {
      var x :| x in a;
      Within(a - {x}, b - {x});
    }
  }

  lemma WithinPlusOne(a: set<nat>, b: set<nat>, x: nat)
    requires a <= b + {x}
    ensures |a| <= |b| + 1
  {
    Within(a, b + {x});
    assert |b + {x}| <= |b| + 1;
  }

  lemma PeriodWithinBound(s: System, period: nat)
    requires Inv(s) && period > 0
    ensures |InPeriod(s.flights, period)| <= HALF_OPEN_MAX + 1
  {
    var calls, counted := InPeriod(s.flights, period), Counted(s.flights);
    if calls <= counted {
      Within(calls, counted);
    } else {
      var opener :| opener in calls && opener !in counted;
      forall id | id in calls && id !in counted ensures id == opener {
        assert SamePeriodOpeners(s.flights[id], s.flights[opener]);
      }
      WithinPlusOne(calls, counted, opener);
    }
  }

  /** While the counter is right, a half-open breaker admits a call exactly if fewer than
      three counted ones are in flight. */
  lemma AdmitsIffRoom(cfg: Config, s: System, id: nat)
    requires Exact(s) && s.c.state == HalfOpen && id !in s.flights
    ensures id in Next(cfg, s, Start(id)).flights <==> |Counted(s.flights)| < 3
  {
  }

  /** In every state of a quiet run no more calls of one half-open period are in flight than
      the limit plus the call that began it. */
  lemma QuietIsBounded(cfg: Config, now: int, actions: seq<Action>, period: nat)
    requires Possible(cfg, Initial(now), actions) && QuietRun(cfg, Initial(now), actions) && period > 0
    ensures |InPeriod(After(cfg, Initial(now), actions).flights, period)| <= 4
  {
    assert Counted(Initial(now).flights) == {};
    RunKeepsInv(cfg, Initial(now), actions);
    PeriodWithinBound(After(cfg, Initial(now), actions), period);
  }

  // ---------------------------------------------------------------- requests with a deadline

  /** Every request in flight was admitted no more than `timeout` ago. */
  ghost predicate Timely(cfg: Config, s: System)
  {
    forall id :: id in s.flights ==> s.now <= s.flights[id].at + cfg.timeout
  }

  /** No request of the run outlives the open timeout. */
  ghost predicate TimelyRun(cfg: Config, s: System, actions: seq<Action>)
    requires Possible(cfg, s, actions)
    decreases |actions|
  {
    Timely(cfg, s) && (actions == [] || TimelyRun(cfg, Next(cfg, s, actions[0]), actions[1..]))
  }

  /** Nothing in flight was admitted after an opening, and in a half-open period everything
      in flight belongs to it. */
  ghost predicate Recent(s: System)
  {
    && (forall id :: id in s.flights ==> s.flights[id].at <= s.now)
    && (s.c.state == Open ==> forall id :: id in s.flights ==> s.flights[id].at <= s.c.lastStateChange)
    && (s.c.state == HalfOpen ==> forall id :: id in s.flights ==> s.flights[id].period == s.period)
  }

  /** When the breaker leaves the open state nothing is in flight any more. */
  lemma QuietWhenReopened(cfg: Config, s: System)
    requires Recent(s) && Timely(cfg, s) && s.c.state == Open && s.now - s.c.lastStateChange > cfg.timeout
    ensures s.flights == map[]
  {
    if id :| id in s.flights {
      assert false;
    }
  }

  lemma RecentKept(cfg: Config, s: System, a: Action)
    requires Recent(s) && Timely(cfg, s) && Enabled(s, a)
    ensures Recent(Next(cfg, s, a)) && (Reopens(cfg, s, a) ==> Counted(s.flights) == {})
  {
    if Reopens(cfg, s, a) {
      QuietWhenReopened(cfg, s);
    }
  }

  lemma {:induction false} TimelyIsQuiet(cfg: Config, s: System, actions: seq<Action>)
    requires Recent(s) && Possible(cfg, s, actions) && TimelyRun(cfg, s, actions)
    ensures QuietRun(cfg, s, actions) && Recent(After(cfg, s, actions))
    decreases |actions|
  {
    if actions != [] {
      RecentKept(cfg, s, actions[0]);
      TimelyIsQuiet(cfg, Next(cfg, s, actions[0]), actions[1..]);
    }
  }

  lemma {:induction false} ExactAtEnd(cfg: Config, s: System, actions: seq<Action>)
    requires Possible(cfg, s, actions) && AlwaysExact(cfg, s, actions)
    ensures Exact(After(cfg, s, actions))
    decreases |actions|
  {
    if actions != [] {
      ExactAtEnd(cfg, Next(cfg, s, actions[0]), actions[1..]);
    }
  }

  /** If no request outlives the timeout then, in every state of every run, the half-open
      counter is the number of counted calls in flight, and of one half-open period no more
      than the limit plus the call that began it are in flight at once. */
  lemma HalfOpenIsBounded(cfg: Config, now: int, actions: seq<Action>, period: nat)
    requires Possible(cfg, Initial(now), actions) && TimelyRun(cfg, Initial(now), actions) && period > 0
    ensures var s := After(cfg, Initial(now), actions);
            && s.c.halfOpenReqs == |Counted(s.flights)|
            && |InPeriod(s.flights, period)| <= 4
            && (s.c.state == HalfOpen ==> InPeriod(s.flights, s.period) == s.flights.Keys)
  {
    TimelyIsQuiet(cfg, Initial(now), actions);
    CounterExactIffQuiet(cfg, now, actions);
    ExactAtEnd(cfg, Initial(now), actions);
    QuietIsBounded(cfg, now, actions, period);
  }

  // ---------------------------------------------------------------- without the deadline

  /** If one success is enough to close, a half-open period ends with the first completion:
      its counter only grows, from one less than the calls of the period in flight. */
  ghost predicate BriefInv(s: System)
  {
    && s.c.successes >= 0
    && (forall id :: id in s.flights ==> s.flights[id].period <= s.period)
    && (forall p: nat :: p > 0 ==> |InPeriod(s.flights, p)| <= HALF_OPEN_MAX + 1)
    && (s.c.state == HalfOpen ==>
          s.period > 0 && |InPeriod(s.flights, s.period)| == s.c.halfOpenReqs + 1 <= HALF_OPEN_MAX + 1)
  }

  lemma PeriodAfterStart(flights: map<nat, Flight>, id: nat, f: Flight, p: nat)
    requires id !in flights
    ensures |InPeriod(flights[id := f], p)| == |InPeriod(flights, p)| + if f.period == p then 1 else 0
  {
    assert InPeriod(flights[id := f], p) == InPeriod(flights, p) + if f.period == p then {id} else {};
  }

  lemma PeriodAfterEnd(flights: map<nat, Flight>, id: nat, p: nat)
    requires id in flights
    ensures |InPeriod(flights - {id}, p)| <= |InPeriod(flights, p)|
  {
    assert InPeriod(flights - {id}, p) == InPeriod(flights, p) - {id};
  }

  lemma BriefStart(cfg: Config, s: System, id: nat)
    requires BriefInv(s) && id !in s.flights
    ensures BriefInv(Next(cfg, s, Start(id)))
  {
    var s' := Next(cfg, s, Start(id));
    if s' != s {
      forall p: nat ensures |InPeriod(s'.flights, p)| ==
                            |InPeriod(s.flights, p)| + if s'.flights[id].period == p then 1 else 0 {
        PeriodAfterStart(s.flights, id, s'.flights[id], p);
      }
      assert InPeriod(s.flights, s.period + 1) == {};
    }
  }

  lemma BriefEnd(cfg: Config, s: System, id: nat, failed: bool)
    requires BriefInv(s) && id in s.flights && cfg.successThreshold <= 1
    ensures BriefInv(Next(cfg, s, End(id, failed)))
  {
    var s' := Next(cfg, s, End(id, failed));
    assert s'.c.state != HalfOpen;
    forall p: nat | p > 0 ensures |InPeriod(s'.flights, p)| <= HALF_OPEN_MAX + 1 {
      PeriodAfterEnd(s.flights, id, p);
    }
  }

  lemma {:induction false} BriefRun(cfg: Config, s: System, actions: seq<Action>)
    requires cfg.successThreshold <= 1 && BriefInv(s) && Possible(cfg, s, actions)
    ensures BriefInv(After(cfg, s, actions))
    decreases |actions|
  {
    if actions != [] {
      match actions[0] {
        case Start(id) => BriefStart(cfg, s, id);
        case End(id, failed) => BriefEnd(cfg, s, id, failed);
        case Tick(_) =>
      }
      BriefRun(cfg, Next(cfg, s, actions[0]), actions[1..]);
    }
  }

  /** With a success threshold of at most one the bound needs no assumption at all. */
  lemma BriefIsBounded(cfg: Config, now: int, actions: seq<Action>, period: nat)
    requires cfg.successThreshold <= 1 && Possible(cfg, Initial(now), actions) && period > 0
    ensures |InPeriod(After(cfg, Initial(now), actions).flights, period)| <= 4
  {
    assert forall p: nat :: InPeriod(Initial(now).flights, p) == {};
    BriefRun(cfg, Initial(now), actions);
  }

  function Starts(ids: seq<nat>): seq<Action>
  {
    if ids == [] then [] else [Start(ids[0])] + Starts(ids[1..])
  }

  ghost predicate Fresh(s: System, ids: seq<nat>)
  {
    && (forall i :: 0 <= i < |ids| ==> ids[i] !in s.flights)
    && (forall i, j :: 0 <= i < j < |ids| ==> ids[i] != ids[j])
  }

  lemma PrependPossible(cfg: Config, s: System, a: Action, rest: seq<Action>)
    requires Enabled(s, a) && Possible(cfg, Next(cfg, s, a), rest)
    ensures Possible(cfg, s, [a] + rest) && After(cfg, s, [a] + rest) == After(cfg, Next(cfg, s, a), rest)
  {
    assert ([a] + rest)[1..] == rest;
  }

  /** While the counter allows it, a half-open breaker admits one call after the other. */
  lemma {:induction false} Fill(cfg: Config, s: System, ids: seq<nat>)
    requires s.c.state == HalfOpen && s.c.halfOpenReqs + |ids| <= HALF_OPEN_MAX && Fresh(s, ids)
    ensures Possible(cfg, s, Starts(ids))
    ensures |InPeriod(After(cfg, s, Starts(ids)).flights, s.period)| == |InPeriod(s.flights, s.period)| + |ids|
    decreases |ids|
  {
    if ids != [] {
      var s' := Next(cfg, s, Start(ids[0]));
      PeriodAfterStart(s.flights, ids[0], s'.flights[ids[0]], s.period);
      Fill(cfg, s', ids[1..]);
      PrependPossible(cfg, s, Start(ids[0]), Starts(ids[1..]));
    }
  }

  /** With a larger threshold every noisy reopening can be continued past the bound: the
      stale call succeeds, the counter goes negative, and one call too many is admitted. */
  lemma NoisyBreaksBound(cfg: Config, s: System, id: nat, stale: nat, ids: seq<nat>)
    requires cfg.successThreshold >= 2 && Enabled(s, Start(id)) && Reopens(cfg, s, Start(id))
    requires stale in Counted(s.flights)
    requires Fresh(s, [id] + ids) && |ids| == 4
    ensures var actions := [Start(id)] + ([End(stale, false)] + Starts(ids));
            && Possible(cfg, s, actions)
            && |InPeriod(After(cfg, s, actions).flights, s.period + 1)| >= 5
  {
    var s1 := Next(cfg, s, Start(id));
    var s2 := Next(cfg, s1, End(stale, false));
    assert s1.c.halfOpenReqs == 0 && s1.c.successes == 0 && s1.period == s.period + 1;
    assert s2.c.state == HalfOpen && s2.c.halfOpenReqs == -1 && s2.period == s.period + 1;
    assert id in InPeriod(s2.flights, s2.period);
    Within({id}, InPeriod(s2.flights, s2.period));
    assert forall i :: 0 <= i < |ids| ==> ids[i] == ([id] + ids)[i + 1];
    assert ([id] + ids)[0] == id;
    Fill(cfg, s2, ids);
    PrependPossible(cfg, s1, End(stale, false), Starts(ids));
    PrependPossible(cfg, s, Start(id), [End(stale, false)] + Starts(ids));
  }

  // ---------------------------------------------------------------- a slow request can break the bound

  const LENIENT := Config(1, 5, 10)

  ghost predicate Reaches(cfg: Config, s: System, t: System)
  {
    exists actions :: Possible(cfg, s, actions) && After(cfg, s, actions) == t
  }

  lemma ReachesBy(cfg: Config, s: System, a: Action, t: System)
    requires Enabled(s, a) && Reaches(cfg, Next(cfg, s, a), t)
    ensures Reaches(cfg, s, t)
  {
    var rest :| Possible(cfg, Next(cfg, s, a), rest) && After(cfg, Next(cfg, s, a), rest) == t;
    assert ([a] + rest)[1..] == rest;
    assert Possible(cfg, s, [a] + rest) && After(cfg, s, [a] + rest) == t;
  }

  /** The second half-open period has begun, and a request of the first is still running. */
  const LINGERING :=
    System(Counters(HalfOpen, 0, 0, 22, 0), 22, 2, map[3 := Flight(11, true, 1), 4 := Flight(22, false, 2)])

  const CROWDED :=
    System(Counters(HalfOpen, 0, 1, 22, 3), 22, 2,
           map[4 := Flight(22, false, 2), 5 := Flight(22, true, 2), 6 := Flight(22, true, 2),
               7 := Flight(22, true, 2), 8 := Flight(22, true, 2)])

  lemma LingeringReachable(t: System)
    requires Reaches(LENIENT, LINGERING, t)
    ensures Reaches(LENIENT, Initial(0), t)
  {
    var s1 := Next(LENIENT, Initial(0), Start(1));
    var s2 := Next(LENIENT, s1, End(1, true));
    var s3 := Next(LENIENT, s2, Tick(11));
    var s4 := Next(LENIENT, s3, Start(2));
    assert s4 == System(Counters(HalfOpen, 0, 0, 11, 0), 11, 1, map[2 := Flight(11, false, 1)]);
    var s5 := Next(LENIENT, s4, Start(3));
    var s6 := Next(LENIENT, s5, End(2, true));
    var s7 := Next(LENIENT, s6, Tick(22));
    assert s7 == System(Counters(Open, 0, 0, 11, 1), 22, 1, map[3 := Flight(11, true, 1)]);
    assert Next(LENIENT, s7, Start(4)) == LINGERING;
    ReachesBy(LENIENT, s7, Start(4), t);
    ReachesBy(LENIENT, s6, Tick(22), t);
    ReachesBy(LENIENT, s5, End(2, true), t);
    ReachesBy(LENIENT, s4, Start(3), t);
    ReachesBy(LENIENT, s3, Start(2), t);
    ReachesBy(LENIENT, s2, Tick(11), t);
    ReachesBy(LENIENT, s1, End(1, true), t);
    ReachesBy(LENIENT, Initial(0), Start(1), t);
  }

  lemma CrowdedReachable()
    ensures Reaches(LENIENT, LINGERING, CROWDED)
  {
    var s1 := Next(LENIENT, LINGERING, End(3, false));
    assert s1 == System(Counters(HalfOpen, 0, 1, 22, -1), 22, 2, map[4 := Flight(22, false, 2)]);
    var s2 := Next(LENIENT, s1, Start(5));
    var s3 := Next(LENIENT, s2, Start(6));
    var s4 := Next(LENIENT, s3, Start(7));
    assert Next(LENIENT, s4, Start(8)) == CROWDED;
    assert Possible(LENIENT, CROWDED, []) && After(LENIENT, CROWDED, []) == CROWDED;
    ReachesBy(LENIENT, s4, Start(8), CROWDED);
    ReachesBy(LENIENT, s3, Start(7), CROWDED);
    ReachesBy(LENIENT, s2, Start(6), CROWDED);
    ReachesBy(LENIENT, s1, Start(5), CROWDED);
    ReachesBy(LENIENT, LINGERING, End(3, false), CROWDED);
  }

  /** A request that outlives its half-open period drives the counter below zero, and five
      calls of the next period then run together. */
  lemma BoundFailsForSlowRequests()
    ensures Reaches(LENIENT, Initial(0), CROWDED)
    ensures |InPeriod(CROWDED.flights, 2)| == 5
  {
    CrowdedReachable();
    LingeringReachable(CROWDED);
    assert InPeriod(CROWDED.flights, 2) == {4, 5, 6, 7, 8};
  }
}
