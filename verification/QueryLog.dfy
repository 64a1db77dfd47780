/** The asynchronous query log of pkg/storage/sqlite.go as a state machine.

    Producers run LogQuery, one worker runs flushWorker and flushBatch, one worker runs
    domainStatsWorker, and any number of threads run Close.  A step is one action of one
    thread between two points where another thread can interfere; a run is any sequence
    of steps, a step that is not enabled having no effect.  Whether a thread holds the
    read-write lock follows from its program counter. */
module QueryLog {
  import opened Wrappers
  import opened Stats

  datatype Config = Config(batchSize: nat, bufferSize: nat)

  const STATS_CHANNEL_SIZE := 100

  /** LogQuery: read lock taken; found open and about to send; about to unlock. */
  datatype ProducerPc = Checking(query: Query) | Sending(query: Query) | Leaving

  /** Close: write lock taken; flag set; unlocked; in GetBufferStats; about to close the
      buffer; waiting for the workers; returned. */
  datatype CloserPc = Holding | Marked | Unlocked | Reading | ClosingBuffer | Waiting | Returned

  /** flushWorker: in select; in flushBatch before the commit, after it, with the read
      lock taken, about to send, about to unlock, about to update synchronously. */
  datatype FlushPc =
    | Select
    | Flushing(exiting: bool)
    | Committed(exiting: bool)
    | Locked(exiting: bool)
    | SendingStats(exiting: bool)
    | Unlocking(exiting: bool)
    | Updating(exiting: bool)
    | Exited

  datatype StatsPc = Receiving | Folding(batch: Batch) | StatsExited

  /** What Close controls; `winner` is the call that set the flag. */
  datatype Gate = Gate(closed: bool, statsClosed: bool, bufferClosed: bool,
                       winner: Option<nat>, closers: map<nat, CloserPc>)

  /** The query buffer and the worker's batch, with their history: the queries LogQuery
      returned nil for, and the arguments of flushBatch, both in order. */
  datatype Front = Front(buffer: seq<Query>, batch: Batch, accepted: seq<Query>, flushed: seq<Batch>)

  /** The stats channel and its worker, with their history: the batches whose transaction
      committed, and the arguments of updateDomainStats. */
  datatype Back = Back(statsCh: seq<Batch>, worker: StatsPc, committed: seq<Batch>, folded: seq<Batch>)

  /** `panicked`: a send on, or a second close of, a closed channel. */
  datatype State = State(gate: Gate, producers: map<nat, ProducerPc>, flusher: FlushPc,
                         front: Front, back: Back, panicked: bool)

  const INIT := State(Gate(false, false, false, None, map[]), map[], Select,
                      Front([], [], [], []), Back([], Receiving, [], []), false)

  datatype Step =
    | LockProducer(id: nat, query: Query) | CheckProducer(id: nat) | Send(id: nat) | Cancel(id: nat) | Leave(id: nat)
    | LockCloser(id: nat) | Mark(id: nat) | CloseStats(id: nat) | ReadStats(id: nat) | ReadDone(id: nat)
    | CloseBuffer(id: nat) | Return(id: nat)
    | Receive | Tick | SeeClosed | Commit(ok: bool) | LockFlush | CheckFlush | SendStats | UnlockFlush | UpdateSync
    | ReceiveStats | Fold | SeeStatsClosed

  // ---------------------------------------------------------------- the lock

  predicate Writing(pc: CloserPc) { pc == Holding || pc == Marked }

  ghost predicate WriteHeld(g: Gate)
  {
    exists i :: i in g.closers && Writing(g.closers[i])
  }

  predicate FlushReads(pc: FlushPc) { pc.Locked? || pc.SendingStats? || pc.Unlocking? }

  ghost predicate ReadHeld(g: Gate, producers: map<nat, ProducerPc>, flusher: FlushPc)
  {
    || (exists i :: i in producers)
    || (exists i :: i in g.closers && g.closers[i] == Reading)
    || FlushReads(flusher)
  }

  // ---------------------------------------------------------------- steps

  ghost function ProducerStep(c: Config, s: State, step: Step): State
  {
    match step
    case LockProducer(id, q) =>
      if id !in s.producers && !WriteHeld(s.gate) then s.(producers := s.producers[id := Checking(q)]) else s
    case CheckProducer(id) =>
      if id in s.producers && s.producers[id].Checking? then
        s.(producers := s.producers[id := if s.gate.closed then Leaving else Sending(s.producers[id].query)])
      else s
    case Send(id) =>
      if id in s.producers && s.producers[id].Sending? then
        var q, f := s.producers[id].query, s.front;
        var producers := s.producers[id := Leaving];
        if s.gate.bufferClosed then s.(producers := producers, panicked := true)
        else if |f.buffer| < c.bufferSize then
          s.(producers := producers, front := f.(buffer := f.buffer + [q], accepted := f.accepted + [q]))
        else s.(producers := producers)
      else s
    case Cancel(id) =>
      if id in s.producers && s.producers[id].Sending? then s.(producers := s.producers[id := Leaving]) else s
    case Leave(id) =>
      if id in s.producers && s.producers[id].Leaving? then s.(producers := s.producers - {id}) else s
    case _ => s
  }

  /** A step of one Close call on the gate; the result tells whether it panicked. */
  ghost function GateStep(g: Gate, readHeld: bool, workersDone: bool, step: Step): (Gate, bool)
  {
    match step
    case LockCloser(id) =>
      if id !in g.closers && !WriteHeld(g) && !readHeld then (g.(closers := g.closers[id := Holding]), false)
      else (g, false)
    case Mark(id) =>
      if id in g.closers && g.closers[id] == Holding then
        if g.closed then (g.(closers := g.closers - {id}), false)
        else (g.(closed := true, winner := Some(id), closers := g.closers[id := Marked]), false)
      else (g, false)
    case CloseStats(id) =>
      if id in g.closers && g.closers[id] == Marked then
        (g.(closers := g.closers[id := Unlocked], statsClosed := true), g.statsClosed)
      else (g, false)
    case ReadStats(id) =>
      if id in g.closers && g.closers[id] == Unlocked && !WriteHeld(g) then
        (g.(closers := g.closers[id := Reading]), false)
      else (g, false)
    case ReadDone(id) =>
      if id in g.closers && g.closers[id] == Reading then (g.(closers := g.closers[id := ClosingBuffer]), false)
      else (g, false)
    case CloseBuffer(id) =>
      if id in g.closers && g.closers[id] == ClosingBuffer then
        (g.(closers := g.closers[id := Waiting], bufferClosed := true), g.bufferClosed)
      else (g, false)
    case Return(id) =>
      if id in g.closers && g.closers[id] == Waiting && workersDone then
        (g.(closers := g.closers[id := Returned]), false)
      else (g, false)
    case _ => (g, false)
  }

  ghost predicate WorkersDone(s: State)
  {
    s.flusher == Exited && s.back.worker == StatsExited
  }

  ghost function CloserStep(s: State, step: Step): State
  {
    var (gate, panics) := GateStep(s.gate, ReadHeld(s.gate, s.producers, s.flusher), WorkersDone(s), step);
    s.(gate := gate, panicked := s.panicked || panics)
  }

  function AfterFlush(exiting: bool): FlushPc { if exiting then Exited else Select }

  /** The select of flushWorker. */
  function SelectStep(c: Config, bufferClosed: bool, f: Front, step: Step): (FlushPc, Front)
  {
    match step
    case Receive =>
      if f.buffer == [] then (Select, f)
      else
        var batch := f.batch + [f.buffer[0]];
        (if |batch| >= c.batchSize then Flushing(false) else Select, f.(buffer := f.buffer[1..], batch := batch))
    case Tick => (if f.batch == [] then Select else Flushing(false), f)
    case SeeClosed =>
      (if !bufferClosed || f.buffer != [] then Select else if f.batch == [] then Exited else Flushing(true), f)
    case _ => (Select, f)
  }

  /** The commit of flushBatch, the worker's reaction to its error included. */
  function CommitStep(exiting: bool, f: Front, ok: bool): (FlushPc, Front)
  {
    var flushed := f.flushed + [f.batch];
    if ok then (Committed(exiting), f.(flushed := flushed))
    else (AfterFlush(exiting), f.(flushed := flushed, batch := []))
  }

  ghost function FlushStep(c: Config, s: State, step: Step): State
  {
    match s.flusher
    case Select =>
      var (pc, front) := SelectStep(c, s.gate.bufferClosed, s.front, step);
      s.(flusher := pc, front := front)
    case Flushing(exiting) =>
      if step.Commit? then
        var (pc, front) := CommitStep(exiting, s.front, step.ok);
        s.(flusher := pc, front := front,
           back := if step.ok then s.back.(committed := s.back.committed + [s.front.batch]) else s.back)
      else s
    case Committed(exiting) => if step.LockFlush? && !WriteHeld(s.gate) then s.(flusher := Locked(exiting)) else s
    case Locked(exiting) =>
      if step.CheckFlush? then
        s.(flusher := if s.gate.closed then Updating(exiting) else SendingStats(exiting))
      else s
    case SendingStats(exiting) =>
      if !step.SendStats? then s
      else if s.gate.statsClosed then s.(flusher := Unlocking(exiting), panicked := true)
      else if |s.back.statsCh| < STATS_CHANNEL_SIZE then
        s.(flusher := Unlocking(exiting), back := s.back.(statsCh := s.back.statsCh + [s.front.batch]))
      else s.(flusher := Updating(exiting))
    case Unlocking(exiting) =>
      if step.UnlockFlush? then s.(flusher := AfterFlush(exiting), front := s.front.(batch := [])) else s
    case Updating(exiting) =>
      if step.UpdateSync? then
        s.(flusher := AfterFlush(exiting), front := s.front.(batch := []),
           back := s.back.(folded := s.back.folded + [s.front.batch]))
      else s
    case Exited => s
  }

  function WorkerStep(b: Back, statsClosed: bool, step: Step): Back
  {
    match step
    case ReceiveStats =>
      if b.worker.Receiving? && b.statsCh != [] then
        b.(statsCh := b.statsCh[1..], worker := Folding(b.statsCh[0]))
      else b
    case Fold => if b.worker.Folding? then b.(worker := Receiving, folded := b.folded + [b.worker.batch]) else b
    case SeeStatsClosed =>
      if b.worker.Receiving? && statsClosed && b.statsCh == [] then b.(worker := StatsExited) else b
    case _ => b
  }

  function StatsStep(s: State, step: Step): State
  {
    s.(back := WorkerStep(s.back, s.gate.statsClosed, step))
  }

  predicate IsProducerStep(step: Step)
  {
    step.LockProducer? || step.CheckProducer? || step.Send? || step.Cancel? || step.Leave?
  }

  predicate IsCloserStep(step: Step)
  {
    || step.LockCloser? || step.Mark? || step.CloseStats? || step.ReadStats? || step.ReadDone?
    || step.CloseBuffer? || step.Return?
  }

  predicate IsStatsStep(step: Step)
  {
    step.ReceiveStats? || step.Fold? || step.SeeStatsClosed?
  }

  ghost function Next(c: Config, s: State, step: Step): State
  {
    if IsProducerStep(step) then ProducerStep(c, s, step)
    else if IsCloserStep(step) then CloserStep(s, step)
    else if IsStatsStep(step) then StatsStep(s, step)
    else FlushStep(c, s, step)
  }

  /** The state after a run. */
  ghost function Run(c: Config, steps: seq<Step>): State
  {
    if steps == [] then INIT else Next(c, Run(c, steps[..|steps| - 1]), steps[|steps| - 1])
  }

  // ---------------------------------------------------------------- invariant

  /** The lock excludes: a writer is alone. */
  ghost predicate LockInv(g: Gate, producers: map<nat, ProducerPc>, flusher: FlushPc)
  {
    && (WriteHeld(g) ==> !ReadHeld(g, producers, flusher))
    && (forall i, j | i in g.closers && j in g.closers :: Writing(g.closers[i]) && Writing(g.closers[j]) ==> i == j)
  }

  /** At most one Close call gets past the flag, and how far it got tells which channels
      are closed. */
  ghost predicate CloseInv(g: Gate)
  {
    && (g.closed <==> g.winner.Some?)
    && (g.winner.Some? ==> g.winner.value in g.closers && g.closers[g.winner.value] != Holding)
    && (forall i :: i in g.closers && g.closers[i] != Holding ==> g.winner == Some(i))
    && (g.statsClosed <==> g.winner.Some? && g.closers[g.winner.value] != Marked)
    && (g.bufferClosed <==> g.winner.Some? && g.closers[g.winner.value] in {Waiting, Returned})
  }

  /** Whoever is about to send found the storage open, and it still is. */
  ghost predicate SendInv(closed: bool, producers: map<nat, ProducerPc>, flusher: FlushPc)
  {
    && (forall i :: i in producers && producers[i].Sending? ==> !closed)
    && (flusher.SendingStats? ==> !closed)
  }

  /** The part of the worker's batch no flush has seen yet. */
  function Unflushed(pc: FlushPc, batch: Batch): Batch
  {
    if pc.Select? || pc.Flushing? then batch else []
  }

  predicate Exiting(pc: FlushPc)
  {
    match pc
    case Flushing(e) => e case Committed(e) => e case Locked(e) => e case SendingStats(e) => e
    case Unlocking(e) => e case Updating(e) => e case Select => false case Exited => true
  }

  /** Nothing accepted is lost, duplicated or reordered; batches respect the limit. */
  ghost predicate FlowInv(c: Config, pc: FlushPc, f: Front, bufferClosed: bool)
  {
    && 1 <= c.batchSize
    && f.accepted == Flatten(f.flushed) + Unflushed(pc, f.batch) + f.buffer
    && (forall b :: b in f.flushed ==> 0 < |b| <= c.batchSize)
    && (pc.Select? ==> |f.batch| < c.batchSize)
    && (pc.Flushing? ==> 0 < |f.batch| <= c.batchSize)
    && (Exiting(pc) ==> f.buffer == [] && bufferClosed)
  }

  /** The flush worker holds a committed batch that it has not handed on yet. */
  predicate Owes(pc: FlushPc) { pc.Committed? || pc.Locked? || pc.SendingStats? || pc.Updating? }

  /** That batch. */
  function Unsent(pc: FlushPc, batch: Batch): multiset<Batch>
  {
    if Owes(pc) then multiset{batch} else multiset{}
  }

  function InFold(worker: StatsPc): multiset<Batch>
  {
    if worker.Folding? then multiset{worker.batch} else multiset{}
  }

  /** Every committed batch has been folded once, or is on its way to be. */
  ghost predicate StatsInv(pc: FlushPc, batch: Batch, b: Back, statsClosed: bool)
  {
    && multiset(b.committed) == multiset(b.folded) + multiset(b.statsCh) + InFold(b.worker) + Unsent(pc, batch)
    && (b.worker.StatsExited? ==> statsClosed && b.statsCh == [])
  }

  ghost predicate ReturnInv(s: State)
  {
    forall i :: i in s.gate.closers && s.gate.closers[i] == Returned ==> WorkersDone(s)
  }

  ghost predicate Inv(c: Config, s: State)
  {
    && LockInv(s.gate, s.producers, s.flusher)
    && CloseInv(s.gate)
    && SendInv(s.gate.closed, s.producers, s.flusher)
    && FlowInv(c, s.flusher, s.front, s.gate.bufferClosed)
    && StatsInv(s.flusher, s.front.batch, s.back, s.gate.statsClosed)
    && ReturnInv(s)
    && !s.panicked
  }

  // ---------------------------------------------------------------- every step keeps it

  /** A producer that moves on only needs to know whether the storage is open. */
  lemma ProducerMoves(g: Gate, producers: map<nat, ProducerPc>, flusher: FlushPc, id: nat, pc: ProducerPc)
    requires LockInv(g, producers, flusher) && SendInv(g.closed, producers, flusher)
    requires id in producers || !WriteHeld(g)
    requires pc.Sending? ==> !g.closed
    ensures LockInv(g, producers[id := pc], flusher) && SendInv(g.closed, producers[id := pc], flusher)
  {
  }

  lemma AcceptKeepsFlow(c: Config, pc: FlushPc, f: Front, q: Query, bufferClosed: bool)
    requires FlowInv(c, pc, f, bufferClosed) && !bufferClosed
    ensures FlowInv(c, pc, f.(buffer := f.buffer + [q], accepted := f.accepted + [q]), bufferClosed)
  {
    assert f.accepted + [q] == Flatten(f.flushed) + Unflushed(pc, f.batch) + (f.buffer + [q]);
  }

  lemma ProducerKeeps(c: Config, s: State, step: Step)
    requires Inv(c, s) && IsProducerStep(step)
    ensures Inv(c, ProducerStep(c, s, step))
  {
    var s' := ProducerStep(c, s, step);
    assert s'.gate == s.gate && s'.flusher == s.flusher && s'.back == s.back && s'.front.batch == s.front.batch;
    if s'.producers != s.producers && !step.Leave? {
      ProducerMoves(s.gate, s.producers, s.flusher, step.id, s'.producers[step.id]);
    }
    if s'.front != s.front {
      AcceptKeepsFlow(c, s.flusher, s.front, s.producers[step.id].query, s.gate.bufferClosed);
    }
  }

  lemma GateKeepsClose(g: Gate, readHeld: bool, workersDone: bool, step: Step)
    requires CloseInv(g)
    ensures CloseInv(GateStep(g, readHeld, workersDone, step).0)
    ensures !GateStep(g, readHeld, workersDone, step).1
  {
  }

  /** Channels stay closed; only a writer sets the flag; Close returns after the workers. */
  lemma GateFacts(g: Gate, readHeld: bool, workersDone: bool, step: Step)
    requires CloseInv(g)
    ensures var g' := GateStep(g, readHeld, workersDone, step).0;
            && (g.bufferClosed ==> g'.bufferClosed) && (g.statsClosed ==> g'.statsClosed)
            && (g'.closed != g.closed ==> WriteHeld(g))
            && (forall i :: i in g'.closers && g'.closers[i] == Returned ==>
                  workersDone || (i in g.closers && g.closers[i] == Returned))
  {
  }

  lemma GateKeepsLock(g: Gate, producers: map<nat, ProducerPc>, flusher: FlushPc, workersDone: bool, step: Step)
    requires LockInv(g, producers, flusher) && CloseInv(g)
    ensures LockInv(GateStep(g, ReadHeld(g, producers, flusher), workersDone, step).0, producers, flusher)
  {
  }

  lemma CloserKeeps(c: Config, s: State, step: Step)
    requires Inv(c, s) && IsCloserStep(step)
    ensures Inv(c, CloserStep(s, step))
  {
    var readHeld := ReadHeld(s.gate, s.producers, s.flusher);
    GateKeepsClose(s.gate, readHeld, WorkersDone(s), step);
    GateFacts(s.gate, readHeld, WorkersDone(s), step);
    GateKeepsLock(s.gate, s.producers, s.flusher, WorkersDone(s), step);
    var s' := CloserStep(s, step);
    assert s'.flusher == s.flusher && s'.front == s.front && s'.back == s.back && s'.producers == s.producers;
  }

  lemma HeadMultiset<T>(s: seq<T>)
    requires s != []
    ensures multiset(s) == multiset{s[0]} + multiset(s[1..])
  {
    assert s == [s[0]] + s[1..];
  }

  lemma SnocMultiset<T>(s: seq<T>, x: T)
    ensures multiset(s + [x]) == multiset(s) + multiset{x}
  {
  }

  lemma ReceiveKeeps(pc: FlushPc, batch: Batch, b: Back, statsClosed: bool)
    requires StatsInv(pc, batch, b, statsClosed) && b.worker.Receiving? && b.statsCh != []
    ensures StatsInv(pc, batch, b.(statsCh := b.statsCh[1..], worker := Folding(b.statsCh[0])), statsClosed)
  {
    HeadMultiset(b.statsCh);
  }

  lemma FoldKeeps(pc: FlushPc, batch: Batch, b: Back, statsClosed: bool)
    requires StatsInv(pc, batch, b, statsClosed) && b.worker.Folding?
    ensures StatsInv(pc, batch, b.(worker := Receiving, folded := b.folded + [b.worker.batch]), statsClosed)
  {
    SnocMultiset(b.folded, b.worker.batch);
  }

  lemma ExitKeeps(pc: FlushPc, batch: Batch, b: Back, statsClosed: bool)
    requires StatsInv(pc, batch, b, statsClosed) && b.worker.Receiving? && statsClosed && b.statsCh == []
    ensures StatsInv(pc, batch, b.(worker := StatsExited), statsClosed)
  {
  }

  lemma WorkerCases(b: Back, statsClosed: bool, step: Step) returns (b': Back)
    ensures b' == WorkerStep(b, statsClosed, step)
    ensures || b' == b
            || (b.worker.Receiving? && b.statsCh != []
                && b' == b.(statsCh := b.statsCh[1..], worker := Folding(b.statsCh[0])))
            || (b.worker.Folding? && b' == b.(worker := Receiving, folded := b.folded + [b.worker.batch]))
            || (b.worker.Receiving? && statsClosed && b.statsCh == [] && b' == b.(worker := StatsExited))
  {
    b' := WorkerStep(b, statsClosed, step);
  }

  lemma WorkerKeeps(pc: FlushPc, batch: Batch, b: Back, statsClosed: bool, step: Step) returns (b': Back)
    requires StatsInv(pc, batch, b, statsClosed)
    ensures b' == WorkerStep(b, statsClosed, step) && StatsInv(pc, batch, b', statsClosed)
    ensures b.worker.StatsExited? ==> b' == b
  {
    b' := WorkerCases(b, statsClosed, step);
    if b' != b {
      if b.worker.Folding? {
        FoldKeeps(pc, batch, b, statsClosed);
      } else if b.statsCh == [] {
        ExitKeeps(pc, batch, b, statsClosed);
      } else {
        ReceiveKeeps(pc, batch, b, statsClosed);
      }
    }
  }

  lemma StatsKeeps(c: Config, s: State, step: Step)
    requires Inv(c, s) && IsStatsStep(step)
    ensures Inv(c, StatsStep(s, step))
  {
    var _ := WorkerKeeps(s.flusher, s.front.batch, s.back, s.gate.statsClosed, step);
  }

  /** The head of the buffer moves to the batch. */
  lemma HeadMoves<T>(accepted: seq<T>, flushed: seq<T>, batch: seq<T>, buffer: seq<T>)
    requires buffer != [] && accepted == flushed + batch + buffer
    ensures accepted == flushed + (batch + [buffer[0]]) + buffer[1..]
  {
    assert buffer == [buffer[0]] + buffer[1..];
  }

  lemma SelectKeeps(c: Config, f: Front, bufferClosed: bool, step: Step)
    requires FlowInv(c, Select, f, bufferClosed)
    ensures var (pc, f') := SelectStep(c, bufferClosed, f, step);
            FlowInv(c, pc, f', bufferClosed) && (pc.Select? || pc.Flushing? || pc.Exited?)
  {
    if step.Receive? && f.buffer != [] {
      HeadMoves(f.accepted, Flatten(f.flushed), f.batch, f.buffer);
    }
  }

  lemma BatchAdded(c: Config, flushed: seq<Batch>, batch: Batch)
    requires (forall b :: b in flushed ==> 0 < |b| <= c.batchSize) && 0 < |batch| <= c.batchSize
    ensures forall b :: b in flushed + [batch] ==> 0 < |b| <= c.batchSize
  {
  }

  lemma CommitKeeps(c: Config, exiting: bool, f: Front, bufferClosed: bool, ok: bool)
    requires FlowInv(c, Flushing(exiting), f, bufferClosed)
    ensures var (pc, f') := CommitStep(exiting, f, ok); FlowInv(c, pc, f', bufferClosed)
  {
    var (pc, f') := CommitStep(exiting, f, ok);
    FlattenSnoc(f.flushed, f.batch);
    BatchAdded(c, f.flushed, f.batch);
    BatchPassed(f.accepted, Flatten(f.flushed), f.batch, f.buffer);
    assert Unflushed(pc, f'.batch) == [];
    assert f'.accepted == f.accepted && f'.buffer == f.buffer && f'.flushed == f.flushed + [f.batch];
  }

  /** A batch is counted as flushed instead of as waiting. */
  lemma BatchPassed<T>(accepted: seq<T>, flushed: seq<T>, batch: seq<T>, buffer: seq<T>)
    requires accepted == flushed + batch + buffer
    ensures accepted == (flushed + batch) + [] + buffer
  {
    assert flushed + batch + [] == flushed + batch;
  }

  lemma FlushKeepsFlow(c: Config, s: State, step: Step)
    requires FlowInv(c, s.flusher, s.front, s.gate.bufferClosed)
    ensures var s' := FlushStep(c, s, step);
            s'.gate == s.gate && s'.producers == s.producers && FlowInv(c, s'.flusher, s'.front, s.gate.bufferClosed)
  {
    if s.flusher.Select? {
      SelectKeeps(c, s.front, s.gate.bufferClosed, step);
    } else if s.flusher.Flushing? && step.Commit? {
      CommitKeeps(c, s.flusher.exiting, s.front, s.gate.bufferClosed, step.ok);
    } else {
      LaterFlushKeepsFlow(c, s, step);
    }
  }

  /** After the commit only the batch is dropped, which the flush has already recorded. */
  lemma LaterFlush(c: Config, s: State, step: Step)
    requires !s.flusher.Select? && !(s.flusher.Flushing? && step.Commit?)
    ensures var s' := FlushStep(c, s, step);
            && s'.gate == s.gate && s'.producers == s.producers
            && (s'.flusher == s.flusher || (!s.flusher.Flushing? && !s'.flusher.Flushing?))
            && (s'.front == s.front || s'.front == s.front.(batch := []))
            && (s'.flusher.Select? ==> s'.front.batch == []) && Exiting(s'.flusher) == Exiting(s.flusher)
            && (s'.flusher == s.flusher ==> s'.front == s.front)
  {
  }

  lemma LaterFlushKeepsFlow(c: Config, s: State, step: Step)
    requires FlowInv(c, s.flusher, s.front, s.gate.bufferClosed)
    requires !s.flusher.Select? && !(s.flusher.Flushing? && step.Commit?)
    ensures var s' := FlushStep(c, s, step);
            s'.gate == s.gate && s'.producers == s.producers && FlowInv(c, s'.flusher, s'.front, s.gate.bufferClosed)
  {
    LaterFlush(c, s, step);
    var s' := FlushStep(c, s, step);
    assert s'.flusher == s.flusher ||
           Unflushed(s'.flusher, s'.front.batch) == Unflushed(s.flusher, s.front.batch) == [];
    SameFlow(c, s.flusher, s.front, s'.flusher, s'.front, s.gate.bufferClosed);
  }

  lemma SameFlow(c: Config, pc: FlushPc, f: Front, pc': FlushPc, f': Front, bufferClosed: bool)
    requires FlowInv(c, pc, f, bufferClosed)
    requires f'.flushed == f.flushed && f'.accepted == f.accepted && f'.buffer == f.buffer
    requires Unflushed(pc', f'.batch) == Unflushed(pc, f.batch) && Exiting(pc') == Exiting(pc)
    requires pc'.Select? ==> f'.batch == []
    requires pc'.Flushing? ==> pc == pc'
    ensures FlowInv(c, pc', f', bufferClosed)
  {
  }

  lemma CommitKeepsStats(exiting: bool, batch: Batch, b: Back, statsClosed: bool)
    requires StatsInv(Flushing(exiting), batch, b, statsClosed)
    ensures StatsInv(Committed(exiting), batch, b.(committed := b.committed + [batch]), statsClosed)
  {
    SnocMultiset(b.committed, batch);
  }

  lemma SendKeepsStats(exiting: bool, batch: Batch, b: Back)
    requires StatsInv(SendingStats(exiting), batch, b, false)
    ensures StatsInv(Unlocking(exiting), batch, b.(statsCh := b.statsCh + [batch]), false)
  {
    SnocMultiset(b.statsCh, batch);
  }

  lemma SyncKeepsStats(exiting: bool, batch: Batch, b: Back, statsClosed: bool)
    requires StatsInv(Updating(exiting), batch, b, statsClosed)
    ensures StatsInv(AfterFlush(exiting), [], b.(folded := b.folded + [batch]), statsClosed)
  {
    SnocMultiset(b.folded, batch);
  }

  lemma BackUntouched(c: Config, s: State, step: Step)
    requires !(s.flusher.Flushing? && step.Commit? && step.ok)
    requires s.flusher.SendingStats? ==>
               !s.gate.statsClosed && (step.SendStats? ==> |s.back.statsCh| >= STATS_CHANNEL_SIZE)
    requires !(s.flusher.Updating? && step.UpdateSync?)
    ensures var s' := FlushStep(c, s, step);
            s'.back == s.back && Unsent(s'.flusher, s'.front.batch) == Unsent(s.flusher, s.front.batch)
  {
    if s.flusher.Select? {
      SelectMoves(c, s.gate.bufferClosed, s.front, step);
    } else {
      BackWaits(c, s, step);
    }
  }

  lemma BackWaits(c: Config, s: State, step: Step)
    requires !s.flusher.Select? && !(s.flusher.Flushing? && step.Commit? && step.ok)
    requires s.flusher.SendingStats? ==>
               !s.gate.statsClosed && (step.SendStats? ==> |s.back.statsCh| >= STATS_CHANNEL_SIZE)
    requires !(s.flusher.Updating? && step.UpdateSync?)
    ensures var s' := FlushStep(c, s, step);
            s'.back == s.back && Owes(s'.flusher) == Owes(s.flusher)
            && (Owes(s.flusher) ==> s'.front.batch == s.front.batch)
  {
  }

  lemma SelectMoves(c: Config, bufferClosed: bool, f: Front, step: Step)
    ensures var pc := SelectStep(c, bufferClosed, f, step).0; pc.Select? || pc.Flushing? || pc.Exited?
  {
  }

  lemma FlushKeepsStats(c: Config, s: State, step: Step)
    requires StatsInv(s.flusher, s.front.batch, s.back, s.gate.statsClosed)
    requires s.flusher.SendingStats? ==> !s.gate.statsClosed
    ensures var s' := FlushStep(c, s, step);
            s'.back.worker == s.back.worker && StatsInv(s'.flusher, s'.front.batch, s'.back, s.gate.statsClosed)
  {
    var s', closed := FlushStep(c, s, step), s.gate.statsClosed;
    var batch, b := s.front.batch, s.back;
    if s.flusher.Flushing? && step.Commit? && step.ok {
      var exiting := s.flusher.exiting;
      CommitKeepsStats(exiting, batch, b, closed);
      assert s'.flusher == Committed(exiting) && s'.front.batch == batch;
      assert s'.back == b.(committed := b.committed + [batch]);
    } else if s.flusher.SendingStats? && step.SendStats? && |b.statsCh| < STATS_CHANNEL_SIZE {
      var exiting := s.flusher.exiting;
      SendKeepsStats(exiting, batch, b);
      assert s'.flusher == Unlocking(exiting) && s'.front.batch == batch;
      assert s'.back == b.(statsCh := b.statsCh + [batch]);
    } else if s.flusher.Updating? && step.UpdateSync? {
      var exiting := s.flusher.exiting;
      SyncKeepsStats(exiting, batch, b, closed);
      assert s'.flusher == AfterFlush(exiting) && s'.front.batch == [];
      assert s'.back == b.(folded := b.folded + [batch]);
    } else {
      BackUntouched(c, s, step);
    }
  }

  lemma FlushKeepsSend(c: Config, s: State, step: Step)
    requires LockInv(s.gate, s.producers, s.flusher) && CloseInv(s.gate)
    requires SendInv(s.gate.closed, s.producers, s.flusher) && !s.panicked
    ensures var s' := FlushStep(c, s, step);
            && LockInv(s.gate, s.producers, s'.flusher) && SendInv(s.gate.closed, s.producers, s'.flusher)
            && !s'.panicked && (s.flusher.Exited? ==> s'.flusher.Exited?)
  {
  }

  lemma FlushKeeps(c: Config, s: State, step: Step)
    requires Inv(c, s)
    ensures Inv(c, FlushStep(c, s, step))
  {
    FlushKeepsFlow(c, s, step);
    FlushKeepsStats(c, s, step);
    FlushKeepsSend(c, s, step);
  }

  // ---------------------------------------------------------------- every run

  lemma NextKeeps(c: Config, s: State, step: Step)
    requires Inv(c, s)
    ensures Inv(c, Next(c, s, step))
  {
    if IsProducerStep(step) {
      ProducerKeeps(c, s, step);
    } else if IsCloserStep(step) {
      CloserKeeps(c, s, step);
    } else if IsStatsStep(step) {
      StatsKeeps(c, s, step);
    } else {
      FlushKeeps(c, s, step);
    }
  }

  /** Every state of every interleaving satisfies the invariant; in particular no send
      ever hits a closed channel and no channel is closed twice. */
  lemma {:induction false} EveryRunIsSafe(c: Config, steps: seq<Step>)
    requires c.batchSize >= 1
    ensures Inv(c, Run(c, steps)) && !Run(c, steps).panicked
  {
    if steps != [] {
      EveryRunIsSafe(c, steps[..|steps| - 1]);
      NextKeeps(c, Run(c, steps[..|steps| - 1]), steps[|steps| - 1]);
    }
  }

  /** When the closing call has returned, every accepted query has been handed to exactly
      one flush, in acceptance order, in batches within the limit, and every committed
      batch has been folded into domain_stats exactly once. */
  lemma NothingIsLost(c: Config, steps: seq<Step>, id: nat)
    requires c.batchSize >= 1
    requires var s := Run(c, steps); id in s.gate.closers && s.gate.closers[id] == Returned
    ensures var s := Run(c, steps);
            && s.front.accepted == Flatten(s.front.flushed)
            && (forall b :: b in s.front.flushed ==> 0 < |b| <= c.batchSize)
            && multiset(s.back.committed) == multiset(s.back.folded)
  {
    EveryRunIsSafe(c, steps);
    var s := Run(c, steps);
    assert WorkersDone(s);
    assert Exiting(s.flusher);
  }

  // ---------------------------------------------------------------- with storage succeeding

  ghost predicate StorageSucceeds(steps: seq<Step>)
  {
    forall i :: 0 <= i < |steps| && steps[i].Commit? ==> steps[i].ok
  }

  lemma {:induction false} AllFlushesCommit(c: Config, steps: seq<Step>)
    requires StorageSucceeds(steps)
    ensures Run(c, steps).back.committed == Run(c, steps).front.flushed
  {
    if steps != [] {
      AllFlushesCommit(c, steps[..|steps| - 1]);
      CommitsTogether(c, Run(c, steps[..|steps| - 1]), steps[|steps| - 1]);
    }
  }

  lemma CommitsTogether(c: Config, s: State, step: Step)
    requires s.back.committed == s.front.flushed && (step.Commit? ==> step.ok)
    ensures Next(c, s, step).back.committed == Next(c, s, step).front.flushed
  {
    if !IsProducerStep(step) && !IsCloserStep(step) && !IsStatsStep(step) {
      match s.flusher
      case Select =>
      case Flushing(_) =>
      case _ =>
    }
  }

  /** How often `d` was queried. */
  function Occurrences(h: seq<Query>, d: string): nat { Count(h, OfDomain(d), Any()) }

  function CountOf(row: Option<DomainRow>): nat { if row.Some? then row.value.count else 0 }

  lemma {:induction false} FoldCounts(batches: seq<Batch>, d: string)
    ensures CountOf(FoldDomain(batches, d)) == Occurrences(Flatten(batches), d)
  {
    if batches != [] {
      var last := |batches| - 1;
      FoldCounts(batches[..last], d);
      DomainGroupMeans(batches[last], d);
      CountConcat(Flatten(batches[..last]), batches[last], OfDomain(d), Any());
    }
  }

  /** The sum of a weight over a list depends on its elements only. */
  function Total<T>(xs: seq<T>, weight: T -> nat): nat
  {
    if xs == [] then 0 else Total(xs[..|xs| - 1], weight) + weight(xs[|xs| - 1])
  }

  lemma {:induction false} TotalRemove<T>(xs: seq<T>, weight: T -> nat, i: nat)
    requires i < |xs|
    ensures Total(xs, weight) == Total(xs[..i] + xs[i + 1..], weight) + weight(xs[i])
  {
    var last := |xs| - 1;
    var rest := xs[..i] + xs[i + 1..];
    if i == last {
      assert rest == xs[..last];
    } else {
      TotalRemove(xs[..last], weight, i);
      assert rest[..last - 1] == xs[..last][..i] + xs[..last][i + 1..] && rest[last - 1] == xs[last];
    }
  }

  lemma RemoveMultiset<T>(xs: seq<T>, i: nat)
    requires i < |xs|
    ensures multiset(xs[..i] + xs[i + 1..]) == multiset(xs) - multiset{xs[i]}
  {
    assert xs == xs[..i] + [xs[i]] + xs[i + 1..];
  }

  lemma {:induction false} TotalByMultiset<T>(a: seq<T>, b: seq<T>, weight: T -> nat)
    requires multiset(a) == multiset(b)
    ensures Total(a, weight) == Total(b, weight)
  {
    if a == [] {
      assert |multiset(b)| == 0;
    } else {
      var last := |a| - 1;
      assert a[last] in multiset(b);
      var i :| 0 <= i < |b| && b[i] == a[last];
      RemoveMultiset(a, last);
      RemoveMultiset(b, i);
      assert a[..last] + a[last + 1..] == a[..last];
      TotalByMultiset(a[..last], b[..i] + b[i + 1..], weight);
      TotalRemove(b, weight, i);
    }
  }

  function BatchCount(d: string): Batch -> nat { (b: Batch) => Occurrences(b, d) }

  lemma {:induction false} FlattenTotal(batches: seq<Batch>, d: string)
    ensures Occurrences(Flatten(batches), d) == Total(batches, BatchCount(d))
  {
    if batches != [] {
      var last := |batches| - 1;
      FlattenTotal(batches[..last], d);
      CountConcat(Flatten(batches[..last]), batches[last], OfDomain(d), Any());
    }
  }

  /** The order in which batches are folded does not matter for the counts. */
  lemma OrderDoesNotMatter(a: seq<Batch>, b: seq<Batch>, d: string)
    requires multiset(a) == multiset(b)
    ensures Occurrences(Flatten(a), d) == Occurrences(Flatten(b), d)
  {
    FlattenTotal(a, d);
    FlattenTotal(b, d);
    TotalByMultiset(a, b, BatchCount(d));
  }

  /** With storage succeeding, once the closing call has returned domain_stats counts
      every accepted query of every domain exactly once. */
  lemma DomainStatsAreComplete(c: Config, steps: seq<Step>, id: nat, d: string)
    requires c.batchSize >= 1 && StorageSucceeds(steps)
    requires var s := Run(c, steps); id in s.gate.closers && s.gate.closers[id] == Returned
    ensures var s := Run(c, steps); CountOf(FoldDomain(s.back.folded, d)) == Occurrences(s.front.accepted, d)
  {
    var s := Run(c, steps);
    NothingIsLost(c, steps, id);
    AllFlushesCommit(c, steps);
    FoldCounts(s.back.folded, d);
    OrderDoesNotMatter(s.back.folded, s.back.committed, d);
  }

  /** Close call `w` has returned. */
  ghost predicate HasReturned(g: Gate, w: nat)
  {
    w in g.closers && g.closers[w] == Returned
  }
}
