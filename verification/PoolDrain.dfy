/** After queue_close the pool winds down: a bound on the work that is left falls at every step of
    every thread, and until server_run has returned some thread can always step. */
module PoolDrain {
  import opened Pool
  import opened PoolSafety

  function Effort(w: Worker): nat {
    match w
    case Unstarted => 2
    case Ready => 1
    case Asleep => 1
    case Notified => 1
    case Serving(_) => 3
    case Finished => 2
    case Exited => 0
  }

  /** How far the acceptor is from returning, once the stop flag is set and the queue is closed. */
  function Distance(a: Acceptor, threads: nat): int {
    match a
    case Spawning(_) => threads + 14
    case SpawnFailed(_) => threads + 4
    case FailClosing(_) => threads + 3
    case FailJoining(j, k) => 1 + k - j
    case ReturnedError(_) => 0
    case Polling => threads + 13
    case Accepting => threads + 12
    case Fresh(_) => threads + 11
    case Counted(_) => threads + 10
    case Refused(_) => threads + 9
    case Dropping(_) => threads + 8
    case LoopTop => threads + 7
    case Leaving => threads + 6
    case Joining(j) => 1 + threads - j
    case Returned => 0
  }

  function WorkLeft(s: State): int {
    3 * |s.queue.items| + Sum(s.workers, Effort) + Distance(s.acceptor, |s.workers|)
  }

  lemma WorkLeftNonNegative(s: State)
    requires Inv(s)
    ensures WorkLeft(s) >= 0
  {
  }

  lemma WorkerWorks(s: State, i: nat, a: WorkerStep)
    requires WorkerEnabled(s, i, a) && s.queue.closed
    ensures WorkLeft(WorkerApply(s, i, a)) + (if a.SpuriousWakeup? then 0 else 1) <= WorkLeft(s)
    ensures WorkerApply(s, i, a).queue.closed
  {
    SumUpdate(s.workers, Effort, i, WorkerAfter(s, i, a));
  }

  lemma AcceptorEffort(s: State, a: AcceptorStep)
    requires AcceptorEnabled(s, a) && s.queue.closed && SpawnsNew(s)
    ensures Sum(WorkersAfter(s, a), Effort) <= Sum(s.workers, Effort)
    ensures a.Spawn? && s.acceptor.next < |s.workers| ==> Sum(WorkersAfter(s, a), Effort) < Sum(s.workers, Effort)
  {
    match a
    case Spawn => if s.acceptor.next < |s.workers| { SumUpdate(s.workers, Effort, s.acceptor.next, Ready); }
    case _ => SumWakeAll(s.workers, Effort);
  }

  /** Every step but the creation of a worker brings the acceptor nearer to its end. */
  lemma AcceptorMoves(s: State, a: AcceptorStep)
    requires Phased(s) && Draining(s) && AcceptorEnabled(s, a) && s.queue.closed
    ensures Distance(PhaseAfter(s, a), |s.workers|) <= Distance(s.acceptor, |s.workers|)
    ensures (a.Spawn? && s.acceptor.next < |s.workers|) ||
            Distance(PhaseAfter(s, a), |s.workers|) < Distance(s.acceptor, |s.workers|)
  {
  }

  lemma AcceptorWorks(s: State, a: AcceptorStep)
    requires Phased(s) && Draining(s) && AcceptorEnabled(s, a) && s.queue.closed
    ensures WorkLeft(AcceptorApply(s, a)) < WorkLeft(s)
    ensures AcceptorApply(s, a).queue.closed
  {
    AcceptorEffort(s, a);
    AcceptorMoves(s, a);
    assert QueueAfter(s, a) == s.queue;
  }

  /** No step makes the queue longer once it is closed, and every step but the environment's leaves
      less work. */
  lemma StepWorks(s: State, a: Action)
    requires Inv(s) && Enabled(s, a) && s.queue.closed
    ensures Apply(s, a).queue.closed
    ensures WorkLeft(Apply(s, a)) + (if ByEnvironment(a) then 0 else 1) <= WorkLeft(s)
    ensures |Apply(s, a).queue.items| <= |s.queue.items| && Apply(s, a).entered == s.entered
  {
    match a
    case ByAcceptor(step) => AcceptorWorks(s, step);
    case ByWorker(i, step) => WorkerWorks(s, i, step);
    case StopFlag =>
    case StopClose => SumWakeAll(s.workers, Effort);
  }

  /** The steps of a run that the server itself takes. */
  function OwnSteps(run: seq<Action>): nat {
    if run == [] then 0 else (if ByEnvironment(run[0]) then 0 else 1) + OwnSteps(run[1..])
  }

  lemma {:induction false} RunWorks(s: State, run: seq<Action>)
    requires Inv(s) && s.queue.closed && Possible(s, run)
    ensures OwnSteps(run) + WorkLeft(After(s, run)) <= WorkLeft(s)
    ensures After(s, run).entered == s.entered
    ensures Inv(After(s, run))
    decreases |run|
  {
    if run != [] {
      StepWorks(s, run[0]);
      InvStep(s, run[0]);
      RunWorks(Apply(s, run[0]), run[1..]);
    }
  }

  /** Drain terminates: from a closed queue on, all threads together take at most WorkLeft(s) steps,
      whatever the scheduler, spurious wakeups and further stop requests do, and nothing enters. */
  lemma DrainIsBounded(s: State, run: seq<Action>)
    requires Reachable(s) && s.queue.closed && Possible(s, run)
    ensures OwnSteps(run) <= WorkLeft(s)
    ensures After(s, run).entered == s.entered
  {
    ReachableInv(s);
    RunWorks(s, run);
    WorkLeftNonNegative(After(s, run));
  }

  predicate HasReturned(a: Acceptor) {
    a.Returned? || a.ReturnedError?
  }

  /** No deadlock while draining: until server_run has returned, a thread can step. */
  lemma DrainNeverSticks(s: State)
    requires Reachable(s) && s.queue.closed && !HasReturned(s.acceptor)
    ensures exists a :: Enabled(s, a) && !ByEnvironment(a)
  {
    ReachableInv(s);
    var a := NextStep(s);
    assert Enabled(s, a);
  }

  /** The first worker that the acceptor waits for can step, or has ended and can be joined. */
  lemma NextStep(s: State) returns (a: Action)
    requires Inv(s) && s.queue.closed && !HasReturned(s.acceptor)
    ensures Enabled(s, a) && !ByEnvironment(a)
  {
    match s.acceptor
    case Spawning(_) => a := ByAcceptor(Spawn);
    case SpawnFailed(_) => a := ByAcceptor(FailStop);
    case FailClosing(_) => a := ByAcceptor(FailClose);
    case FailJoining(j, k) => a := WaitFor(s, j, j < k, FailJoin);
    case LoopTop => a := ByAcceptor(CheckStop);
    case Polling => a := ByAcceptor(PollAgain);
    case Accepting => a := ByAcceptor(AcceptAgain);
    case Fresh(_) => a := ByAcceptor(CountAccepted);
    case Counted(_) => a := ByAcceptor(TryPush(0));
    case Refused(_) => a := ByAcceptor(CountDropped);
    case Dropping(_) => a := ByAcceptor(CloseDropped);
    case Leaving => a := ByAcceptor(CloseQueue);
    case Joining(j) => a := WaitFor(s, j, j < |s.workers|, Join);
  }

  lemma WaitFor(s: State, j: nat, more: bool, join: AcceptorStep) returns (a: Action)
    requires Woken(s) && s.queue.closed
    requires more ==> j < |s.workers| && !s.workers[j].Unstarted?
    requires !more || s.workers[j].Exited? ==> AcceptorEnabled(s, join)
    ensures Enabled(s, a) && !ByEnvironment(a)
  {
    if !more || s.workers[j].Exited? {
      a := ByAcceptor(join);
    } else {
      var w := s.workers[j];
      assert w in s.workers;
      a := ByWorker(j, if w.Serving? then Serve else if w.Finished? then CountHandled else PopOrSleep);
    }
  }

  lemma {:induction false} DrainFrom(s: State) returns (run: seq<Action>)
    requires Inv(s) && s.queue.closed
    ensures Possible(s, run) && HasReturned(After(s, run).acceptor)
    ensures OwnSteps(run) == |run|
    decreases WorkLeft(s)
  {
    if HasReturned(s.acceptor) {
      run := [];
    } else {
      var a := NextStep(s);
      StepWorks(s, a);
      InvStep(s, a);
      WorkLeftNonNegative(Apply(s, a));
      var rest := DrainFrom(Apply(s, a));
      run := [a] + rest;
      assert run[1..] == rest;
    }
  }

  /** Whatever has happened so far, once the queue is closed the threads alone bring server_run to its
      end, within WorkLeft(s) steps; and any run that cannot be continued has brought it there. */
  lemma DrainFinishes(s: State, run: seq<Action>)
    requires Reachable(s) && s.queue.closed && Possible(s, run)
    ensures exists rest ::
              Possible(After(s, run), rest) && HasReturned(After(After(s, run), rest).acceptor)
              && OwnSteps(run) + |rest| <= WorkLeft(s)
    ensures (forall a: Action :: Enabled(After(s, run), a) ==> ByEnvironment(a)) ==>
              HasReturned(After(s, run).acceptor)
  {
    ReachableInv(s);
    RunWorks(s, run);
    var t := After(s, run);
    ClosedStays(s, run);
    var rest := DrainFrom(t);
    RunWorks(t, rest);
    InvRun(t, rest);
    WorkLeftNonNegative(After(t, rest));
    if !HasReturned(t.acceptor) {
      var a := NextStep(t);
    }
  }

  lemma {:induction false} ClosedStays(s: State, run: seq<Action>)
    requires s.queue.closed && Possible(s, run)
    ensures After(s, run).queue.closed
    decreases |run|
  {
    if run != [] {
      ClosedStays(Apply(s, run[0]), run[1..]);
    }
  }
}
