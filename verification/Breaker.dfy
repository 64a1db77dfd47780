/** The circuit breaker of pkg/forwarder/circuit_breaker.go: its counters and time stamps,
    and the call history they stand for. */
module Breaker {
  const HALF_OPEN_MAX := 3

  datatype State = Closed | Open | HalfOpen

  datatype Config = Config(failureThreshold: int, successThreshold: int, timeout: int)

  /** The atomic fields; lastFailTime is written but never read. */
  datatype Counters = Counters(state: State, failures: int, successes: int, lastStateChange: int, halfOpenReqs: int)

  datatype Verdict = Refused | Failed | Succeeded

  datatype Admission = Deny | Admit(counted: bool)

  // ---------------------------------------------------------------- the atomic parts of Call

  /** The switch before the request runs; a denied half-open call has given its slot back. */
  function Admitted(cfg: Config, c: Counters, now: int, later: int): (Counters, Admission)
  {
    match c.state
    case Closed => (c, Admit(false))
    case Open =>
      if now - c.lastStateChange > cfg.timeout then (Counters(HalfOpen, 0, 0, later, 0), Admit(false)) else (c, Deny)
    case HalfOpen =>
      if c.halfOpenReqs + 1 > HALF_OPEN_MAX then (c, Deny)
      else (c.(halfOpenReqs := c.halfOpenReqs + 1), Admit(true))
  }

  function AfterFailure(cfg: Config, c: Counters, now: int): Counters
  {
    var failures := c.failures + 1;
    match c.state
    case Closed =>
      if failures >= cfg.failureThreshold then c.(failures := failures, state := Open, lastStateChange := now)
      else c.(failures := failures)
    case Open => c.(failures := failures)
    case HalfOpen => c.(failures := 0, successes := 0, state := Open, lastStateChange := now)
  }

  function AfterSuccess(cfg: Config, c: Counters, now: int): Counters
  {
    var d := c.(successes := c.successes + 1, failures := 0);
    if d.state == HalfOpen && d.successes >= cfg.successThreshold then d.(state := Closed, lastStateChange := now)
    else d
  }

  /** onFailure or onSuccess, then the deferred release of the half-open slot. */
  function Finished(cfg: Config, c: Counters, failed: bool, counted: bool, now: int): Counters
  {
    var d := if failed then AfterFailure(cfg, c, now) else AfterSuccess(cfg, c, now);
    if counted then d.(halfOpenReqs := d.halfOpenReqs - 1) else d
  }

  // ---------------------------------------------------------------- the history

  /** A call that began at `start` and returned at `end`. */
  datatype Event = Event(start: int, end: int, verdict: Verdict)

  /** How many of the latest requests had this verdict in a row; refused calls never ran. */
  function Streak(h: seq<Event>, v: Verdict): nat
  {
    if h == [] then 0
    else
      var last := h[|h| - 1].verdict;
      if last == v then Streak(h[..|h| - 1], v) + 1
      else if last == Refused then Streak(h[..|h| - 1], v)
      else 0
  }

  function AtLeastOne(n: int): (r: nat)
    ensures r >= 1 && r >= n
  {
    if n < 1 then 1 else n
  }

  /** The history automaton: threshold-many failures in a row open the breaker, while it is
      not closed a failure (re)opens it and threshold-many successes in a row close it. */
  function PhaseOf(cfg: Config, h: seq<Event>): State
  {
    if h == [] then Closed
    else
      var before := PhaseOf(cfg, h[..|h| - 1]);
      match h[|h| - 1].verdict
      case Refused => before
      case Failed =>
        if before != Closed || Streak(h, Failed) >= AtLeastOne(cfg.failureThreshold) then Open else Closed
      case Succeeded =>
        if before == Closed || Streak(h, Succeeded) >= AtLeastOne(cfg.successThreshold) then Closed else HalfOpen
  }

  /** When the last request that failed returned. */
  function LastFailure(h: seq<Event>): int
  {
    if h == [] then 0
    else if h[|h| - 1].verdict == Failed then h[|h| - 1].end
    else LastFailure(h[..|h| - 1])
  }

  /** `e` does not overlap the calls before it, and is refused exactly while the breaker is
      open and no more than `timeout` has passed since it opened. */
  ghost predicate LegalCall(cfg: Config, h: seq<Event>, e: Event)
  {
    && e.start <= e.end && (h != [] ==> h[|h| - 1].end <= e.start)
    && (e.verdict == Refused <==> PhaseOf(cfg, h) == Open && e.start - LastFailure(h) <= cfg.timeout)
  }

  ghost predicate Legal(cfg: Config, h: seq<Event>)
  {
    h == [] || (Legal(cfg, h[..|h| - 1]) && LegalCall(cfg, h[..|h| - 1], h[|h| - 1]))
  }

  /** The counters stand for the history. */
  ghost predicate Represents(cfg: Config, c: Counters, h: seq<Event>)
  {
    && c.state == PhaseOf(cfg, h)
    && (c.state == Closed ==> c.failures == Streak(h, Failed))
    && (c.state == HalfOpen ==> c.failures == 0 && c.successes == Streak(h, Succeeded))
    && (c.state == Open ==> c.lastStateChange == LastFailure(h))
    && c.halfOpenReqs == 0
  }

  /** One call as a whole. */
  function Whole(cfg: Config, c: Counters, failed: bool, start: int, later: int, end: int): (Counters, Verdict)
  {
    var (d, a) := Admitted(cfg, c, start, later);
    match a
    case Deny => (d, Refused)
    case Admit(counted) => (Finished(cfg, d, failed, counted, end), if failed then Failed else Succeeded)
  }

  /** A history only passes to an open breaker through a failure. */
  lemma {:induction false} OpenAfterFailure(cfg: Config, h: seq<Event>)
    ensures PhaseOf(cfg, h) == Open ==> Streak(h, Failed) >= 1 && Streak(h, Succeeded) == 0
    ensures PhaseOf(cfg, h) == HalfOpen ==> Streak(h, Failed) == 0
    ensures PhaseOf(cfg, h) == HalfOpen ==> 1 <= Streak(h, Succeeded) < AtLeastOne(cfg.successThreshold)
    ensures PhaseOf(cfg, h) == Closed ==> Streak(h, Failed) < AtLeastOne(cfg.failureThreshold)
  {
    if h != [] {
      OpenAfterFailure(cfg, h[..|h| - 1]);
    }
  }

  /** Every call keeps the counters a representation of the history. */
  lemma CallRefinesHistory(cfg: Config, c: Counters, h: seq<Event>, failed: bool, start: int, later: int, end: int)
    requires Represents(cfg, c, h) && Legal(cfg, h)
    requires start <= end && (h != [] ==> h[|h| - 1].end <= start)
    ensures var (c', v) := Whole(cfg, c, failed, start, later, end);
            Represents(cfg, c', h + [Event(start, end, v)]) && Legal(cfg, h + [Event(start, end, v)])
  {
    var (c', v) := Whole(cfg, c, failed, start, later, end);
    var h' := h + [Event(start, end, v)];
    assert h'[..|h'| - 1] == h && h'[|h'| - 1] == Event(start, end, v);
    OpenAfterFailure(cfg, h);
  }

  // ---------------------------------------------------------------- what the history automaton means

  /** After the first `i` calls threshold-many requests had failed in a row, and since then
      there have never been threshold-many successes in a row. */
  ghost predicate TrippedAt(cfg: Config, h: seq<Event>, i: nat)
  {
    && i <= |h| && Streak(h[..i], Failed) >= AtLeastOne(cfg.failureThreshold)
    && forall j {:trigger h[..j]} :: i <= j <= |h| ==> Streak(h[..j], Succeeded) < AtLeastOne(cfg.successThreshold)
  }

  ghost predicate Tripped(cfg: Config, h: seq<Event>)
  {
    exists i :: TrippedAt(cfg, h, i)
  }

  lemma TrippedAtShorter(cfg: Config, h: seq<Event>, i: nat)
    requires i < |h| && TrippedAt(cfg, h, i)
    ensures TrippedAt(cfg, h[..|h| - 1], i) && Streak(h, Succeeded) < AtLeastOne(cfg.successThreshold)
  {
    var before := h[..|h| - 1];
    assert h[..|h|] == h && h[..i] == before[..i];
    forall j {:trigger before[..j]} | i <= j <= |before|
      ensures Streak(before[..j], Succeeded) < AtLeastOne(cfg.successThreshold)
    {
      assert h[..j] == before[..j];
    }
  }

  lemma TrippedAtLonger(cfg: Config, h: seq<Event>, i: nat)
    requires h != [] && TrippedAt(cfg, h[..|h| - 1], i) && Streak(h, Succeeded) < AtLeastOne(cfg.successThreshold)
    ensures TrippedAt(cfg, h, i)
  {
    var before := h[..|h| - 1];
    assert h[..|h|] == h && h[..i] == before[..i];
    forall j {:trigger h[..j]} | i <= j <= |h| ensures Streak(h[..j], Succeeded) < AtLeastOne(cfg.successThreshold) {
      assert j < |h| ==> h[..j] == before[..j];
    }
  }

  lemma TrippedStep(cfg: Config, h: seq<Event>)
    requires h != []
    ensures Tripped(cfg, h) <==>
            (Streak(h, Failed) >= AtLeastOne(cfg.failureThreshold) || Tripped(cfg, h[..|h| - 1])) &&
            Streak(h, Succeeded) < AtLeastOne(cfg.successThreshold)
  {
    assert h[..|h|] == h;
    OneStreak(h);
    if Tripped(cfg, h) {
      var i: nat :| TrippedAt(cfg, h, i);
      if i < |h| { TrippedAtShorter(cfg, h, i); }
    }
    if Streak(h, Failed) >= AtLeastOne(cfg.failureThreshold) {
      assert TrippedAt(cfg, h, |h|);
    } else if Tripped(cfg, h[..|h| - 1]) {
      var i: nat :| TrippedAt(cfg, h[..|h| - 1], i);
      if Streak(h, Succeeded) < AtLeastOne(cfg.successThreshold) { TrippedAtLonger(cfg, h, i); }
    }
  }

  lemma {:induction false} OneStreak(h: seq<Event>)
    ensures Streak(h, Failed) == 0 || Streak(h, Succeeded) == 0
  {
    if h != [] {
      OneStreak(h[..|h| - 1]);
    }
  }

  /** The breaker is closed unless tripped; a tripped one is open exactly after a failure. */
  lemma {:induction false} PhaseIsHysteresis(cfg: Config, h: seq<Event>)
    ensures PhaseOf(cfg, h) ==
            if !Tripped(cfg, h) then Closed else if Streak(h, Failed) >= 1 then Open else HalfOpen
  {
    if h == [] {
      assert !Tripped(cfg, h);
    } else {
      PhaseIsHysteresis(cfg, h[..|h| - 1]);
      TrippedStep(cfg, h);
      OneStreak(h);
      OpenAfterFailure(cfg, h);
      OpenAfterFailure(cfg, h[..|h| - 1]);
    }
  }

  /** It opens exactly on the threshold-th consecutive failure. */
  lemma OpensOnThreshold(cfg: Config, h: seq<Event>, e: Event)
    requires PhaseOf(cfg, h) == Closed
    ensures PhaseOf(cfg, h + [e]) == Open <==> Streak(h + [e], Failed) == AtLeastOne(cfg.failureThreshold)
    ensures PhaseOf(cfg, h + [e]) != HalfOpen
  {
    assert (h + [e])[..|h|] == h;
    OpenAfterFailure(cfg, h);
  }

  /** It closes exactly on the threshold-th success in a row, with no failure counted. */
  lemma ClosesOnThreshold(cfg: Config, h: seq<Event>, e: Event)
    requires PhaseOf(cfg, h) != Closed
    ensures PhaseOf(cfg, h + [e]) == Closed <==> Streak(h + [e], Succeeded) == AtLeastOne(cfg.successThreshold)
    ensures PhaseOf(cfg, h + [e]) == Closed ==> Streak(h + [e], Failed) == 0
    ensures e.verdict == Failed ==> PhaseOf(cfg, h + [e]) == Open
  {
    assert (h + [e])[..|h|] == h;
    OpenAfterFailure(cfg, h);
  }

  /** After an opening at call `i`, whatever begins within the timeout is refused. */
  lemma {:induction false} NothingRunsWhileOpen(cfg: Config, h: seq<Event>, i: nat)
    requires Legal(cfg, h) && i < |h| - 1
    requires h[i].verdict == Failed && PhaseOf(cfg, h[..i + 1]) == Open
    requires h[|h| - 1].start - h[i].end <= cfg.timeout
    ensures h[|h| - 1].verdict == Refused && PhaseOf(cfg, h) == Open && LastFailure(h) == h[i].end
  {
    var before := h[..|h| - 1];
    if i == |before| - 1 {
      assert h[..i + 1] == before;
    } else {
      assert before[..i + 1] == h[..i + 1];
      NothingRunsWhileOpen(cfg, before, i);
    }
  }

  // ---------------------------------------------------------------- the breaker object

  class CircuitBreaker {
    const cfg: Config
    var state: State
    var failures: int
    var successes: int
    var lastFailTime: int
    var lastStateChange: int
    var halfOpenReqs: int
    ghost var history: seq<Event>

    ghost function Now(): Counters
      reads this
    {
      Counters(state, failures, successes, lastStateChange, halfOpenReqs)
    }

    ghost predicate Valid()
      reads this
    {
      Represents(cfg, Now(), history) && Legal(cfg, history)
    }

    constructor (cfg: Config, now: int)
      ensures Valid() && this.cfg == cfg && history == []
    {
      this.cfg := cfg;
      state, lastStateChange := Closed, now;
      failures, successes, lastFailTime, halfOpenReqs := 0, 0, 0, 0;
      history := [];
    }

    method OnFailure(now: int)
      modifies this`state, this`failures, this`successes, this`lastFailTime, this`lastStateChange
      ensures Now() == AfterFailure(cfg, old(Now()), now)
    {
      failures := failures + 1;
      var count := failures;
      lastFailTime := now;
      match state {
        case Closed =>
          if count >= cfg.failureThreshold {
            state, lastStateChange := Open, now;
          }
        case HalfOpen =>
          state, lastStateChange := Open, now;
          failures, successes := 0, 0;
        case Open =>
      }
    }

    method OnSuccess(now: int)
      modifies this`state, this`failures, this`successes, this`lastStateChange
      ensures Now() == AfterSuccess(cfg, old(Now()), now)
    {
      successes := successes + 1;
      var count := successes;
      failures := 0;
      if state == HalfOpen && count >= cfg.successThreshold {
        state, lastStateChange := Closed, now;
      }
    }

    /** The switch at the head of Call. */
    method Enter(start: int, later: int) returns (a: Admission)
      modifies this`state, this`failures, this`successes, this`lastStateChange, this`halfOpenReqs
      ensures (Now(), a) == Admitted(cfg, old(Now()), start, later)
    {
      match state {
        case Closed =>
          a := Admit(false);
        case Open =>
          if start - lastStateChange > cfg.timeout {
            state, lastStateChange := HalfOpen, later;
            successes, failures, halfOpenReqs := 0, 0, 0;
            a := Admit(false);
          } else {
            a := Deny;
          }
        case HalfOpen =>
          halfOpenReqs := halfOpenReqs + 1;
          if halfOpenReqs > HALF_OPEN_MAX {
            halfOpenReqs := halfOpenReqs - 1;
            a := Deny;
          } else {
            a := Admit(true);
          }
      }
    }

    /** A call that does not overlap another.  `failed` is what the request returns, the
        three times are the clock readings. */
    method Call(failed: bool, start: int, later: int, end: int) returns (v: Verdict)
      requires Valid() && start <= end && (history != [] ==> history[|history| - 1].end <= start)
      modifies this
      ensures Valid() && history == old(history) + [Event(start, end, v)]
      ensures v == Refused <==> old(state) == Open && start - old(lastStateChange) <= cfg.timeout
      ensures v != Refused ==> v == if failed then Failed else Succeeded
    {
      CallRefinesHistory(cfg, Now(), history, failed, start, later, end);
      var admission := Enter(start, later);
      if admission == Deny {
        v := Refused;
      } else {
        if failed {
          OnFailure(end);
          v := Failed;
        } else {
          OnSuccess(end);
          v := Succeeded;
        }
        if admission.counted {
          halfOpenReqs := halfOpenReqs - 1;
        }
      }
      history := history + [Event(start, end, v)];
    }

    /** Forgets everything. */
    method Reset(now: int)
      requires Valid()
      modifies this
      ensures Valid() && history == [] && state == Closed
    {
      state, failures, successes, lastStateChange := Closed, 0, 0, now;
      history := [];
    }
  }
}
