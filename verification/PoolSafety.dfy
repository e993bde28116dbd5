/** Every interleaving keeps the pool's invariant: no lost wakeup, no leaked or twice-closed
    descriptor, exact counters. */
module PoolSafety {
  import opened Pool

  // ---------- facts that single steps need ----------

  /** A queued descriptor is a real one: no worker can mistake it for the exit signal. */
  predicate QueueValid(s: State) {
    s.queue.items != [] ==> s.queue.items[0] >= 0
  }

  predicate SpawnsNew(s: State) {
    s.acceptor.Spawning? && s.acceptor.next < |s.workers| ==> s.workers[s.acceptor.next].Unstarted?
  }

  lemma OwnedIsValid(s: State)
    requires Owned(s)
    ensures QueueValid(s)
  {
    if s.queue.items != [] {
      assert Owners(s, s.queue.items[0]) > 0;
    }
  }

  /** Whoever calls close on a client descriptor closes an open one: nothing is closed twice. */
  lemma ClosesOpen(s: State)
    requires Owned(s)
    ensures s.acceptor.Dropping? ==> s.acceptor.fd in s.open
    ensures forall i | 0 <= i < |s.workers| && s.workers[i].Serving? :: s.workers[i].fd in s.open
  {
    if s.acceptor.Dropping? {
      assert Owners(s, s.acceptor.fd) > 0;
    }
    forall i | 0 <= i < |s.workers| && s.workers[i].Serving?
      ensures s.workers[i].fd in s.open
    {
      SumPositive(s.workers, Serves(s.workers[i].fd), i);
      assert Owners(s, s.workers[i].fd) > 0;
    }
  }

  /** A count that creating, signalling and waking leave alone. */
  predicate Steady(f: Worker -> nat) {
    f(Asleep) == f(Notified) && f(Unstarted) == f(Ready)
  }

  lemma SumAcceptor(s: State, a: AcceptorStep, f: Worker -> nat)
    requires AcceptorEnabled(s, a) && SpawnsNew(s) && Steady(f)
    ensures Sum(WorkersAfter(s, a), f) == Sum(s.workers, f)
  {
    match a
    case Spawn => if s.acceptor.next < |s.workers| { SumUpdate(s.workers, f, s.acceptor.next, Ready); }
    case TryPush(woken) => if IsAsleep(s.workers, woken) { SumUpdate(s.workers, f, woken, Notified); }
    case _ => SumWakeAll(s.workers, f);
  }

  // ---------- steps of the workers ----------

  lemma WorkerOwners(s: State, i: nat, a: WorkerStep, fd: int)
    requires Owners(s, fd) == if fd in s.open then 1 else 0
    requires WorkerEnabled(s, i, a) && QueueValid(s)
    ensures Owners(WorkerApply(s, i, a), fd) == if fd in WorkerApply(s, i, a).open then 1 else 0
  {
    SumUpdate(s.workers, Serves(fd), i, WorkerAfter(s, i, a));
  }

  lemma WorkerOwned(s: State, i: nat, a: WorkerStep)
    requires Owned(s) && WorkerEnabled(s, i, a) && QueueValid(s)
    ensures Owned(WorkerApply(s, i, a))
  {
    forall fd: int
      ensures Owners(WorkerApply(s, i, a), fd) == if fd in WorkerApply(s, i, a).open then 1 else 0
    {
      WorkerOwners(s, i, a, fd);
    }
  }

  lemma WorkerAccounted(s: State, i: nat, a: WorkerStep)
    requires Accounted(s) && WorkerEnabled(s, i, a) && QueueValid(s)
    ensures Accounted(WorkerApply(s, i, a))
  {
    SumUpdate(s.workers, IsServing, i, WorkerAfter(s, i, a));
    SumUpdate(s.workers, IsFinished, i, WorkerAfter(s, i, a));
  }

  lemma WorkerCloses(s: State, i: nat, a: WorkerStep)
    requires Closes(s) && WorkerEnabled(s, i, a)
    requires a.Serve? ==> s.workers[i].fd in s.open
    ensures Closes(WorkerApply(s, i, a))
  {
    SumUpdate(s.workers, IsFinished, i, WorkerAfter(s, i, a));
  }

  lemma WorkerWoken(s: State, i: nat, a: WorkerStep)
    requires Woken(s) && WorkerEnabled(s, i, a)
    ensures Woken(WorkerApply(s, i, a))
  {
    SumUpdate(s.workers, IsNotified, i, WorkerAfter(s, i, a));
  }

  lemma WorkerKeepsStarted(workers: seq<Worker>, i: nat, w: Worker, k: nat)
    requires Started(workers, k) && i < |workers| && !workers[i].Unstarted? && !w.Unstarted?
    ensures Started(workers[i := w], k)
  {
  }

  lemma WorkerKeepsJoined(workers: seq<Worker>, i: nat, w: Worker, k: nat)
    requires Joined(workers, k) && i < |workers| && !workers[i].Exited?
    ensures Joined(workers[i := w], k)
  {
  }

  lemma WorkerPhased(s: State, i: nat, a: WorkerStep)
    requires Phased(s) && WorkerEnabled(s, i, a)
    ensures Phased(WorkerApply(s, i, a))
  {
    WorkerKeepsStarted(s.workers, i, WorkerAfter(s, i, a), StartedSoFar(s.acceptor, |s.workers|));
    WorkerKeepsJoined(s.workers, i, WorkerAfter(s, i, a), JoinedSoFar(s.acceptor, |s.workers|));
  }

  lemma WorkerInv(s: State, i: nat, a: WorkerStep)
    requires Inv(s) && WorkerEnabled(s, i, a)
    ensures Inv(WorkerApply(s, i, a))
  {
    OwnedIsValid(s);
    ClosesOpen(s);
    WorkerOwned(s, i, a);
    WorkerAccounted(s, i, a);
    WorkerCloses(s, i, a);
    WorkerWoken(s, i, a);
    WorkerPhased(s, i, a);
    if s.queue.items != [] {
      assert s.queue.items == [s.queue.items[0]] + s.queue.items[1..];
    }
  }

  // ---------- steps of the acceptor ----------

  lemma AcceptorOwners(s: State, a: AcceptorStep, fd: int)
    requires Owners(s, fd) == if fd in s.open then 1 else 0
    requires AcceptorEnabled(s, a) && SpawnsNew(s)
    ensures Owners(AcceptorApply(s, a), fd) == if fd in AcceptorApply(s, a).open then 1 else 0
  {
    SumAcceptor(s, a, Serves(fd));
    AcceptorHands(s, a, fd);
  }

  /** A step moves the descriptor between the acceptor and the queue, or opens or closes it. */
  lemma AcceptorHands(s: State, a: AcceptorStep, fd: int)
    requires AcceptorEnabled(s, a)
    ensures AcceptorHolds(PhaseAfter(s, a), fd) + Queued(QueueAfter(s, a).items, fd)
            + (if a.CloseDropped? && s.acceptor.fd == fd then 1 else 0)
            == AcceptorHolds(s.acceptor, fd) + Queued(s.queue.items, fd) + (if a == AcceptFd(fd) then 1 else 0)
  {
    if a.TryPush? {
      QueuedAppend(s.queue.items, s.acceptor.fd, fd);
    }
  }

  lemma AcceptorOwned(s: State, a: AcceptorStep)
    requires Owned(s) && AcceptorEnabled(s, a) && SpawnsNew(s)
    ensures Owned(AcceptorApply(s, a))
  {
    forall fd: int
      ensures Owners(AcceptorApply(s, a), fd) == if fd in AcceptorApply(s, a).open then 1 else 0
    {
      AcceptorOwners(s, a, fd);
    }
  }

  lemma AcceptorAccounted(s: State, a: AcceptorStep)
    requires Accounted(s) && AcceptorEnabled(s, a) && SpawnsNew(s)
    ensures Accounted(AcceptorApply(s, a))
  {
    SumAcceptor(s, a, IsServing);
    SumAcceptor(s, a, IsFinished);
  }

  lemma AcceptorCloses(s: State, a: AcceptorStep)
    requires Closes(s) && AcceptorEnabled(s, a) && SpawnsNew(s)
    requires a.CloseDropped? ==> s.acceptor.fd in s.open
    ensures Closes(AcceptorApply(s, a))
  {
    SumAcceptor(s, a, IsFinished);
  }

  lemma AcceptorWoken(s: State, a: AcceptorStep)
    requires Woken(s) && AcceptorEnabled(s, a) && SpawnsNew(s)
    ensures Woken(AcceptorApply(s, a))
  {
    match a
    case Spawn => if s.acceptor.next < |s.workers| { SumUpdate(s.workers, IsNotified, s.acceptor.next, Ready); }
    case TryPush(woken) => if IsAsleep(s.workers, woken) { SumUpdate(s.workers, IsNotified, woken, Notified); }
    case _ =>
  }

  lemma AcceptorStarted(s: State, a: AcceptorStep)
    requires AcceptorEnabled(s, a) && Started(s.workers, StartedSoFar(s.acceptor, |s.workers|))
    ensures Started(WorkersAfter(s, a), StartedSoFar(PhaseAfter(s, a), |s.workers|))
  {
  }

  lemma AcceptorJoined(s: State, a: AcceptorStep)
    requires Phased(s) && AcceptorEnabled(s, a)
    ensures Joined(WorkersAfter(s, a), JoinedSoFar(PhaseAfter(s, a), |s.workers|))
  {
  }

  lemma AcceptorPhased(s: State, a: AcceptorStep)
    requires Phased(s) && AcceptorEnabled(s, a)
    ensures Phased(AcceptorApply(s, a))
  {
    AcceptorStarted(s, a);
    AcceptorJoined(s, a);
  }

  lemma AcceptorDraining(s: State, a: AcceptorStep)
    requires Draining(s) && Phased(s) && AcceptorEnabled(s, a)
    ensures Draining(AcceptorApply(s, a))
  {
  }

  lemma AcceptorInv(s: State, a: AcceptorStep)
    requires Inv(s) && AcceptorEnabled(s, a)
    ensures Inv(AcceptorApply(s, a))
  {
    ClosesOpen(s);
    AcceptorOwned(s, a);
    AcceptorAccounted(s, a);
    AcceptorCloses(s, a);
    AcceptorWoken(s, a);
    AcceptorPhased(s, a);
    AcceptorDraining(s, a);
  }

  // ---------- server_stop ----------

  lemma StopFlagInv(s: State)
    requires Inv(s)
    ensures Inv(s.(stop := true))
  {
    assert forall fd: int :: Owners(s.(stop := true), fd) == Owners(s, fd);
  }

  lemma StopCloseOwned(s: State)
    requires Owned(s)
    ensures Owned(Broadcast(s))
  {
    forall fd: int
      ensures Owners(Broadcast(s), fd) == Owners(s, fd)
    {
      SumWakeAll(s.workers, Serves(fd));
    }
  }

  lemma StopCloseConserved(s: State)
    requires Accounted(s) && Closes(s)
    ensures Accounted(Broadcast(s)) && Closes(Broadcast(s))
  {
    SumWakeAll(s.workers, IsServing);
    SumWakeAll(s.workers, IsFinished);
  }

  lemma StopCloseInv(s: State)
    requires Inv(s) && s.stop
    ensures Inv(Broadcast(s))
  {
    StopCloseOwned(s);
    StopCloseConserved(s);
  }

  // ---------- whole runs ----------

  lemma InvStep(s: State, a: Action)
    requires Inv(s) && Enabled(s, a)
    ensures Inv(Apply(s, a))
  {
    match a
    case ByAcceptor(step) => AcceptorInv(s, step);
    case ByWorker(i, step) => WorkerInv(s, i, step);
    case StopFlag => StopFlagInv(s);
    case StopClose => StopCloseInv(s);
  }

  lemma InvInitial(capacity: nat, threads: nat)
    requires threads > 0
    ensures Inv(Initial(capacity, threads))
  {
    var s := Initial(capacity, threads);
    SumZero(s.workers, IsServing);
    SumZero(s.workers, IsFinished);
    forall fd: int
      ensures Owners(s, fd) == 0
    {
      SumZero(s.workers, Serves(fd));
    }
  }

  lemma {:induction false} InvRun(s: State, run: seq<Action>)
    requires Inv(s) && Possible(s, run)
    ensures Inv(After(s, run))
    decreases |run|
  {
    if run != [] {
      InvStep(s, run[0]);
      InvRun(Apply(s, run[0]), run[1..]);
    }
  }

  /** Some interleaving of some server with these many threads and slots leads to `s`. */
  ghost predicate Reachable(s: State) {
    exists capacity: nat, threads: nat, run: seq<Action> :: Leads(capacity, threads, run, s)
  }

  predicate Leads(capacity: nat, threads: nat, run: seq<Action>, s: State) {
    && threads > 0
    && Possible(Initial(capacity, threads), run)
    && s == After(Initial(capacity, threads), run)
  }

  lemma ReachableInv(s: State)
    requires Reachable(s)
    ensures Inv(s)
  {
    var capacity: nat, threads: nat, run: seq<Action> :| Leads(capacity, threads, run, s);
    InvInitial(capacity, threads);
    InvRun(Initial(capacity, threads), run);
  }

  // ---------- what holds in every reachable state ----------

  /** No lost wakeup: a sleeper never sleeps on a connection that nobody was woken for, a queued
      connection always has a worker that is awake, and nobody sleeps on a closed queue. */
  lemma NoLostWakeup(s: State)
    requires Reachable(s)
    ensures Asleep in s.workers ==> |s.queue.items| <= Sum(s.workers, IsNotified)
    ensures s.queue.closed ==> Asleep !in s.workers
    ensures s.queue.items != [] ==>
              exists i: nat, a: WorkerStep | 0 <= i < |s.workers| && !a.SpuriousWakeup? :: WorkerEnabled(s, i, a)
  {
    ReachableInv(s);
    if s.queue.items != [] {
      var i := AwakeWorker(s);
      var w := s.workers[i];
      assert WorkerEnabled(s, i, if w.Serving? then Serve else if w.Finished? then CountHandled else PopOrSleep);
    }
  }

  lemma AwakeWorker(s: State) returns (i: nat)
    requires Inv(s) && s.queue.items != []
    ensures i < |s.workers|
    ensures !s.workers[i].Asleep? && !s.workers[i].Exited? && !s.workers[i].Unstarted?
  {
    if s.workers[0].Asleep? {
      i := NotifiedWorker(s.workers);
    } else {
      i := 0;
    }
  }

  lemma {:induction false} NotifiedWorker(workers: seq<Worker>) returns (i: nat)
    requires Sum(workers, IsNotified) > 0
    ensures i < |workers| && workers[i].Notified?
  {
    if workers[0].Notified? {
      i := 0;
    } else {
      i := NotifiedWorker(workers[1..]);
      i := i + 1;
    }
  }

  /** Conservation, the order of service, and ownership: every open client descriptor has exactly one
      owner, so it is closed exactly once, by the acceptor or by the worker that popped it. */
  lemma NothingLeaks(s: State)
    requires Reachable(s)
    ensures s.accepted == s.dropped + |s.queue.items| + s.handled
                          + Sum(s.workers, IsServing) + Sum(s.workers, IsFinished)
                          + (if s.acceptor.Counted? || s.acceptor.Refused? then 1 else 0)
    ensures s.accepts == |s.open| + s.closedByAcceptor + s.closedByWorkers
    ensures s.entered == s.left + s.queue.items && |s.queue.items| <= s.queue.capacity
    ensures forall fd: int :: Owners(s, fd) == if fd in s.open then 1 else 0
  {
    ReachableInv(s);
  }

  /** When server_run returns 0: the queue is drained, every worker has ended, every accepted
      connection was handled or dropped and its descriptor closed. */
  lemma CleanShutdown(s: State)
    requires Reachable(s) && s.acceptor.Returned?
    ensures s.queue.items == [] && s.open == {}
    ensures forall i | 0 <= i < |s.workers| :: s.workers[i].Exited?
    ensures s.accepted == s.handled + s.dropped
    ensures s.accepts == s.accepted && s.closedByWorkers == s.handled && s.closedByAcceptor == s.dropped
    ensures s.left == s.entered
  {
    ReachableInv(s);
    assert s.workers[0] in s.workers;
    SumZero(s.workers, IsServing);
    SumZero(s.workers, IsFinished);
  }

  /** A worker ends only when the queue is closed and empty. */
  lemma ExitsWhenDrained(s: State, i: nat)
    requires Reachable(s) && i < |s.workers| && s.workers[i].Exited?
    ensures s.queue.closed && s.queue.items == []
  {
    ReachableInv(s);
    assert s.workers[i] in s.workers;
  }
}
