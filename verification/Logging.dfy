/** What a LogQuery call achieves in the query log's state machine. */
module Logging {
  import opened Wrappers
  import opened Stats
  import opened QueryLog

  lemma RunSnoc(c: Config, steps: seq<Step>, step: Step)
    ensures Run(c, steps + [step]) == Next(c, Run(c, steps), step)
  {
    assert (steps + [step])[..|steps|] == steps;
  }

  /** The query a step hands to the buffer, if there is room for it. */
  ghost predicate Admits(c: Config, s: State, step: Step, q: Query)
  {
    step.Send? && step.id in s.producers && s.producers[step.id] == Sending(q) && |s.front.buffer| < c.bufferSize
  }

  /** The log of accepted queries grows by exactly the queries sent into a buffer with room;
      a send is dropped only if the buffer is full. */
  lemma AcceptedGrows(c: Config, s: State, step: Step)
    requires Inv(c, s)
    ensures var before, after := s.front.accepted, Next(c, s, step).front.accepted;
            && (forall q :: Admits(c, s, step, q) ==> after == before + [q])
            && ((forall q :: !Admits(c, s, step, q)) ==> after == before)
  {
    if step.Send? {
      if step.id in s.producers && s.producers[step.id].Sending? {
        var q := s.producers[step.id].query;
        SendAccepts(c, s, step.id, q);
        assert step == Send(step.id) && s.producers[step.id] == Sending(q);
        assert |s.front.buffer| < c.bufferSize <==> Admits(c, s, step, q);
      }
    } else {
      OthersDoNotAccept(c, s, step);
    }
  }

  lemma SendAccepts(c: Config, s: State, id: nat, q: Query)
    requires Inv(c, s) && id in s.producers && s.producers[id] == Sending(q)
    ensures Next(c, s, Send(id)).front.accepted ==
            if |s.front.buffer| < c.bufferSize then s.front.accepted + [q] else s.front.accepted
  {
  }

  lemma OthersDoNotAccept(c: Config, s: State, step: Step)
    requires !step.Send?
    ensures Next(c, s, step).front.accepted == s.front.accepted
  {
  }

  lemma BufferBound(c: Config, s: State, step: Step)
    requires |s.front.buffer| <= c.bufferSize
    ensures |Next(c, s, step).front.buffer| <= c.bufferSize
  {
  }

  lemma StatsBound(c: Config, s: State, step: Step)
    requires |s.back.statsCh| <= 100
    ensures |Next(c, s, step).back.statsCh| <= 100
  {
  }

  /** Neither channel ever holds more than its capacity. */
  lemma {:induction false} ChannelsWithinCapacity(c: Config, steps: seq<Step>)
    ensures |Run(c, steps).front.buffer| <= c.bufferSize && |Run(c, steps).back.statsCh| <= 100
  {
    if steps != [] {
      ChannelsWithinCapacity(c, steps[..|steps| - 1]);
      BufferBound(c, Run(c, steps[..|steps| - 1]), steps[|steps| - 1]);
      StatsBound(c, Run(c, steps[..|steps| - 1]), steps[|steps| - 1]);
    }
  }

  lemma ProducerEnters(c: Config, s: State, id: nat, q: Query)
    requires !WriteHeld(s.gate) && !s.gate.closed && id !in s.producers
    ensures Next(c, Next(c, s, LockProducer(id, q)), CheckProducer(id)) ==
            s.(producers := s.producers[id := Sending(q)])
  {
    var s1 := Next(c, s, LockProducer(id, q));
    assert s1 == s.(producers := s.producers[id := Checking(q)]);
    assert s1.producers[id := Sending(q)] == s.producers[id := Sending(q)];
  }

  lemma ProducerSends(c: Config, s: State, id: nat, q: Query)
    requires !s.gate.bufferClosed && id !in s.producers && |s.front.buffer| < c.bufferSize
    ensures var s2 := s.(producers := s.producers[id := Sending(q)]);
            Next(c, Next(c, s2, Send(id)), Leave(id)) ==
            s.(front := s.front.(buffer := s.front.buffer + [q], accepted := s.front.accepted + [q]))
  {
    var s2 := s.(producers := s.producers[id := Sending(q)]);
    var s3 := Next(c, s2, Send(id));
    assert s3.producers == s.producers[id := Leaving];
    assert s3.producers - {id} == s.producers;
  }

  /** A LogQuery call on an open storage whose buffer has room: the query is accepted, and
      nothing else changes. */
  lemma LogQueryAccepts(c: Config, steps: seq<Step>, id: nat, q: Query)
    requires c.batchSize >= 1
    requires var s := Run(c, steps);
             s.gate.winner == None && !WriteHeld(s.gate) && id !in s.producers && |s.front.buffer| < c.bufferSize
    ensures var s := Run(c, steps);
            Run(c, steps + [LockProducer(id, q)] + [CheckProducer(id)] + [Send(id)] + [Leave(id)]) ==
            s.(front := s.front.(buffer := s.front.buffer + [q], accepted := s.front.accepted + [q]))
  {
    EveryRunIsSafe(c, steps);
    var s := Run(c, steps);
    var one := steps + [LockProducer(id, q)];
    var two := one + [CheckProducer(id)];
    var three := two + [Send(id)];
    RunSnoc(c, steps, LockProducer(id, q));
    RunSnoc(c, one, CheckProducer(id));
    RunSnoc(c, two, Send(id));
    RunSnoc(c, three, Leave(id));
    ProducerEnters(c, s, id, q);
    ProducerSends(c, s, id, q);
  }

  /** What has been accepted stays accepted. */
  lemma {:induction false} AcceptedStays(c: Config, steps: seq<Step>, more: seq<Step>)
    requires c.batchSize >= 1
    ensures Run(c, steps).front.accepted <= Run(c, steps + more).front.accepted
    decreases |more|
  {
    if more == [] {
      assert steps + more == steps;
    } else {
      var last := |more| - 1;
      AcceptedStays(c, steps, more[..last]);
      AcceptedByOne(c, steps + more[..last], more[last]);
      assert steps + more == steps + more[..last] + [more[last]];
    }
  }

  lemma AcceptedByOne(c: Config, steps: seq<Step>, step: Step)
    requires c.batchSize >= 1
    ensures Run(c, steps).front.accepted <= Run(c, steps + [step]).front.accepted
  {
    EveryRunIsSafe(c, steps);
    RunSnoc(c, steps, step);
    AcceptedExtends(c, Run(c, steps), step);
  }

  lemma AcceptedExtends(c: Config, s: State, step: Step)
    requires Inv(c, s)
    ensures s.front.accepted <= Next(c, s, step).front.accepted
  {
    AcceptedGrows(c, s, step);
    if q :| Admits(c, s, step, q) {
      assert Next(c, s, step).front.accepted == s.front.accepted + [q];
    }
  }

  /** Every query accepted at any time is in some flushed batch once a Close call returned. */
  lemma AcceptedIsFlushed(c: Config, steps: seq<Step>, more: seq<Step>, closer: nat, q: Query)
    requires c.batchSize >= 1 && q in Run(c, steps).front.accepted
    requires HasReturned(Run(c, steps + more).gate, closer)
    ensures q in Flatten(Run(c, steps + more).front.flushed)
  {
    AcceptedStays(c, steps, more);
    NothingIsLost(c, steps + more, closer);
    var a, b := Run(c, steps).front.accepted, Run(c, steps + more).front.accepted;
    var i :| 0 <= i < |a| && a[i] == q;
    assert b[i] == q;
  }

  /** So the query of a LogQuery call as above is flushed before Close returns. */
  lemma LoggedIsFlushed(c: Config, steps: seq<Step>, id: nat, q: Query, more: seq<Step>, closer: nat)
    requires c.batchSize >= 1
    requires var s := Run(c, steps);
             s.gate.winner == None && !WriteHeld(s.gate) && id !in s.producers && |s.front.buffer| < c.bufferSize
    requires var call := steps + [LockProducer(id, q)] + [CheckProducer(id)] + [Send(id)] + [Leave(id)];
             HasReturned(Run(c, call + more).gate, closer)
    ensures var call := steps + [LockProducer(id, q)] + [CheckProducer(id)] + [Send(id)] + [Leave(id)];
            q in Flatten(Run(c, call + more).front.flushed)
  {
    LogQueryAccepts(c, steps, id, q);
    var call := steps + [LockProducer(id, q)] + [CheckProducer(id)] + [Send(id)] + [Leave(id)];
    var s := Run(c, steps);
    assert Run(c, call).front.accepted == s.front.accepted + [q];
    AcceptedIsFlushed(c, call, more, closer, q);
  }

  /** The ticker flushes whatever the worker holds, and a commit hands it to the storage. */
  lemma TickFlushes(c: Config, s: State)
    requires s.flusher.Select? && s.front.batch != []
    ensures var s' := Next(c, Next(c, s, Tick), Commit(true));
            && s'.front.flushed == s.front.flushed + [s.front.batch]
            && s'.back.committed == s.back.committed + [s.front.batch]
  {
  }

  /** With room in the stats channel a committed batch is queued, not processed in place. */
  lemma StatsAreQueued(c: Config, s: State)
    requires Inv(c, s) && s.flusher.Locked? && !s.gate.closed && |s.back.statsCh| < 100
    ensures var s' := Next(c, Next(c, s, CheckFlush), SendStats);
            s'.back.statsCh == s.back.statsCh + [s.front.batch] && s'.back.folded == s.back.folded
  {
    assert !s.gate.statsClosed;
    assert Next(c, s, CheckFlush) == s.(flusher := SendingStats(s.flusher.exiting));
  }
}
