/** Close can always finish: the liveness side of the query log's state machine. */
module Closing {
  import opened Wrappers
  import opened Stats
  import opened Lists
  import opened QueryLog

  /** `w` is past closing both channels and waits for the workers. */
  ghost predicate ClosedAndWaiting(g: Gate, w: nat)
  {
    w in g.closers && g.closers[w] == Waiting && g.closed && g.statsClosed && g.bufferClosed
  }

  ghost function Stepper(c: Config): (State, Step) -> State
  {
    (s: State, step: Step) => Next(c, s, step)
  }

  ghost function Continue(c: Config, s: State, steps: seq<Step>): State
  {
    Iterate(Stepper(c), s, steps)
  }

  /** Some continuation lets `w` return. */
  ghost predicate CanFinish(c: Config, s: State, w: nat)
  {
    exists steps :: HasReturned(Continue(c, s, steps).gate, w)
  }

  lemma FinishedAlready(c: Config, s: State, w: nat)
    requires HasReturned(s.gate, w)
    ensures CanFinish(c, s, w)
  {
    assert HasReturned(Continue(c, s, []).gate, w);
  }

  lemma FinishBy(c: Config, s: State, step: Step, w: nat)
    requires CanFinish(c, Next(c, s, step), w)
    ensures CanFinish(c, s, w)
  {
    var rest :| HasReturned(Continue(c, Next(c, s, step), rest).gate, w);
    IterateFrom(Stepper(c), s, [step], rest);
    IterateOne(Stepper(c), s, step);
    assert HasReturned(Continue(c, s, [step] + rest).gate, w);
  }

  function StatsRank(pc: StatsPc): nat
  {
    if pc.Folding? then 2 else if pc.Receiving? then 1 else 0
  }

  /** The stats worker drains its channel and exits. */
  lemma {:induction false} StatsCanFinish(c: Config, s: State, w: nat)
    requires ClosedAndWaiting(s.gate, w) && s.flusher == Exited
    ensures CanFinish(c, s, w)
    decreases |s.back.statsCh|, StatsRank(s.back.worker)
  {
    if s.back.worker.StatsExited? {
      FinishedAlready(c, Next(c, s, Return(w)), w);
      FinishBy(c, s, Return(w), w);
    } else {
      var step :=
        if s.back.worker.Folding? then Fold else if s.back.statsCh != [] then ReceiveStats else SeeStatsClosed;
      StatsCanFinish(c, Next(c, s, step), w);
      FinishBy(c, s, step, w);
    }
  }

  /** How far the flush worker is from exiting with an empty buffer. */
  function FlushRank(pc: FlushPc): nat
  {
    match pc
    case Exited => 0
    case Unlocking(e) => if e then 1 else 7
    case Updating(e) => if e then 2 else 8
    case Locked(e) => if e then 3 else 9
    case Committed(e) => if e then 4 else 10
    case Flushing(e) => if e then 5 else 11
    case Select => 6
    case SendingStats(_) => 12
  }

  /** The flush worker's next move once everything is closed. */
  function FlushMove(s: State): Step
  {
    match s.flusher
    case Unlocking(_) => UnlockFlush
    case Updating(_) => UpdateSync
    case Locked(_) => CheckFlush
    case Committed(_) => LockFlush
    case Flushing(_) => Commit(true)
    case _ => if s.front.buffer != [] then Receive else SeeClosed
  }

  lemma FlushMoves(c: Config, s: State)
    requires s.gate.closed && s.gate.bufferClosed && !WriteHeld(s.gate)
    requires !s.flusher.Exited? && !s.flusher.SendingStats?
    ensures var s' := Next(c, s, FlushMove(s));
            && s'.gate == s.gate && !s'.flusher.SendingStats?
            && (|s'.front.buffer| < |s.front.buffer|
                || (s'.front.buffer == s.front.buffer && FlushRank(s'.flusher) < FlushRank(s.flusher)))
  {
  }

  /** The flush worker empties the buffer, flushes the rest and exits. */
  lemma {:induction false} FlushCanFinish(c: Config, s: State, w: nat)
    requires ClosedAndWaiting(s.gate, w) && !WriteHeld(s.gate) && !s.flusher.SendingStats?
    ensures CanFinish(c, s, w)
    decreases |s.front.buffer|, FlushRank(s.flusher)
  {
    if s.flusher.Exited? {
      StatsCanFinish(c, s, w);
    } else {
      FlushMoves(c, s);
      FlushCanFinish(c, Next(c, s, FlushMove(s)), w);
      FinishBy(c, s, FlushMove(s), w);
    }
  }

  function CloserRank(pc: CloserPc): nat
  {
    if pc == Unlocked then 3 else if pc == Reading then 2 else if pc == ClosingBuffer then 1 else 0
  }

  function CloserMove(pc: CloserPc, w: nat): Step
  {
    if pc == Unlocked then ReadStats(w) else if pc == Reading then ReadDone(w) else CloseBuffer(w)
  }

  lemma CloserMoves(g: Gate, readHeld: bool, workersDone: bool, w: nat)
    requires CloseInv(g) && g.winner == Some(w) && !WriteHeld(g) && CloserRank(g.closers[w]) > 0
    ensures var g' := GateStep(g, readHeld, workersDone, CloserMove(g.closers[w], w)).0;
            && g'.winner == Some(w) && !WriteHeld(g') && w in g'.closers
            && CloserRank(g'.closers[w]) < CloserRank(g.closers[w])
  {
  }

  /** Once nobody holds the write lock, the winner goes on to wait. */
  lemma {:induction false} CloserCanFinish(c: Config, s: State, w: nat)
    requires Inv(c, s) && s.gate.winner == Some(w) && !WriteHeld(s.gate)
    ensures CanFinish(c, s, w)
    decreases CloserRank(s.gate.closers[w])
  {
    WinnerPlace(s.gate, w);
    var pc := s.gate.closers[w];
    if pc == Returned {
      FinishedAlready(c, s, w);
    } else if pc == Waiting {
      FlushCanFinish(c, s, w);
    } else {
      var step := CloserMove(pc, w);
      NextKeeps(c, s, step);
      CloserMoves(s.gate, ReadHeld(s.gate, s.producers, s.flusher), WorkersDone(s), w);
      CloserCanFinish(c, Next(c, s, step), w);
      FinishBy(c, s, step, w);
    }
  }

  lemma WinnerPlace(g: Gate, w: nat)
    requires CloseInv(g) && g.winner == Some(w) && !WriteHeld(g)
    ensures w in g.closers && g.closed
    ensures g.closers[w] != Returned && g.closers[w] != Waiting ==> CloserRank(g.closers[w]) > 0
    ensures g.closers[w] == Waiting ==> ClosedAndWaiting(g, w)
  {
  }

  /** Whoever holds the write lock lets go of it. */
  lemma WriterLeaves(c: Config, s: State, w: nat, h: nat)
    requires Inv(c, s) && s.gate.winner == Some(w) && h in s.gate.closers && Writing(s.gate.closers[h])
    ensures var step := if s.gate.closers[h] == Holding then Mark(h) else CloseStats(h);
            var s' := Next(c, s, step);
            s'.gate.winner == Some(w) && !WriteHeld(s'.gate)
  {
  }

  /** In every reachable state in which a Close call has set the flag, some continuation lets
      that call return: no interleaving can block it for good. */
  lemma CloseCanFinish(c: Config, steps: seq<Step>, w: nat)
    requires c.batchSize >= 1 && Run(c, steps).gate.winner == Some(w)
    ensures exists more :: HasReturned(Run(c, steps + more).gate, w)
  {
    WinnerCanFinish(c, steps, w);
    var more :| HasReturned(Continue(c, Run(c, steps), more).gate, w);
    ContinueIsRun(c, steps, more);
  }

  lemma {:induction false} RunIterates(c: Config, steps: seq<Step>)
    ensures Run(c, steps) == Iterate(Stepper(c), INIT, steps)
  {
    if steps != [] {
      RunIterates(c, steps[..|steps| - 1]);
    }
  }

  lemma ContinueIsRun(c: Config, steps: seq<Step>, more: seq<Step>)
    ensures Continue(c, Run(c, steps), more) == Run(c, steps + more)
  {
    RunIterates(c, steps);
    RunIterates(c, steps + more);
    IterateFrom(Stepper(c), INIT, steps, more);
  }

  lemma WinnerCanFinish(c: Config, steps: seq<Step>, w: nat)
    requires c.batchSize >= 1 && Run(c, steps).gate.winner == Some(w)
    ensures CanFinish(c, Run(c, steps), w)
  {
    EveryRunIsSafe(c, steps);
    var s := Run(c, steps);
    if WriteHeld(s.gate) {
      var h :| h in s.gate.closers && Writing(s.gate.closers[h]);
      var step := if s.gate.closers[h] == Holding then Mark(h) else CloseStats(h);
      WriterLeaves(c, s, w, h);
      NextKeeps(c, s, step);
      CloserCanFinish(c, Next(c, s, step), w);
      FinishBy(c, s, step, w);
    } else {
      CloserCanFinish(c, s, w);
    }
  }
}
