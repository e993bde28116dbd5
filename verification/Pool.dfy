/** The acceptor, the worker threads and the shutdown protocol of src/server.c as a transition
    system. One action is one critical section, one system call or one atomic counter bump. */
module Pool {
  import opened ConnQueue

  datatype Worker =
    | Unstarted
    | Ready                // in queue_pop, about to get the mutex and test the queue
    | Asleep               // in pthread_cond_wait on not_empty
    | Notified             // woken, about to get the mutex back and test the queue again
    | Serving(fd: int)     // popped fd, not closed yet
    | Finished             // closed its descriptor, connections_handled not bumped yet
    | Exited

  datatype Acceptor =
    | Spawning(next: nat)        // about to create worker `next`
    | SpawnFailed(started: nat)  // pthread_create failed, about to call server_stop
    | FailClosing(started: nat)  // stop flag set, about to close the queue
    | FailJoining(next: nat, started: nat)
    | ReturnedError(started: nat)
    | LoopTop                    // about to read stop_requested
    | Polling
    | Accepting
    | Fresh(fd: int)             // accept returned fd, connections_accepted not bumped yet
    | Counted(fd: int)           // about to call queue_try_push
    | Refused(fd: int)           // the push failed
    | Dropping(fd: int)          // drop counted, about to close
    | Leaving                    // out of the loop, about to close the queue
    | Joining(next: nat)
    | Returned

  /** `open` is the kernel's view: the client descriptors that are open. `entered` and `left` record
      what was pushed and popped, `accepts` and the two close counters what accept and close did. */
  datatype State = State(
    queue: Fifo, stop: bool, acceptor: Acceptor, workers: seq<Worker>,
    accepted: nat, dropped: nat, handled: nat,
    open: set<int>, accepts: nat, closedByAcceptor: nat, closedByWorkers: nat,
    entered: seq<int>, left: seq<int>)

  datatype AcceptorStep =
    | Spawn | SpawnError | FailStop | FailClose | FailJoin
    | CheckStop
    | PollAgain            // timeout or EINTR
    | PollReady
    | PollError
    | AcceptFd(fd: int)
    | AcceptAgain          // EINTR or EAGAIN
    | AcceptError
    | CountAccepted
    | TryPush(woken: nat)  // `woken`: the sleeper that pthread_cond_signal picks, if there is one
    | CountDropped
    | CloseDropped
    | CloseQueue
    | Join

  datatype WorkerStep = PopOrSleep | Serve | CountHandled | SpuriousWakeup

  datatype Action =
    | ByAcceptor(astep: AcceptorStep)
    | ByWorker(worker: nat, wstep: WorkerStep)
    | StopFlag             // server_stop on some thread: sets the flag ...
    | StopClose            // ... then closes the queue

  function Initial(capacity: nat, threads: nat): State {
    State(Fifo([], false, capacity), false, Spawning(0), seq(threads, i => Unstarted),
          0, 0, 0, {}, 0, 0, 0, [], [])
  }

  predicate IsAsleep(workers: seq<Worker>, i: nat) {
    i < |workers| && workers[i].Asleep?
  }

  predicate NoneAsleep(workers: seq<Worker>) {
    Asleep !in workers
  }

  /** pthread_cond_broadcast on not_empty. */
  function WakeAll(workers: seq<Worker>): (woken: seq<Worker>)
    ensures |woken| == |workers|
    ensures forall i | 0 <= i < |workers| :: woken[i] == if workers[i].Asleep? then Notified else workers[i]
  {
    if workers == [] then []
    else [if workers[0].Asleep? then Notified else workers[0]] + WakeAll(workers[1..])
  }

  function Broadcast(s: State): State {
    s.(queue := Close(s.queue), workers := WakeAll(s.workers))
  }

  predicate AcceptorEnabled(s: State, a: AcceptorStep) {
    match a
    case Spawn => s.acceptor.Spawning?
    case SpawnError => s.acceptor.Spawning? && s.acceptor.next < |s.workers|
    case FailStop => s.acceptor.SpawnFailed?
    case FailClose => s.acceptor.FailClosing?
    case FailJoin =>
      && s.acceptor.FailJoining?
      && (s.acceptor.next < s.acceptor.started ==>
            s.acceptor.next < |s.workers| && s.workers[s.acceptor.next].Exited?)
    case CheckStop => s.acceptor.LoopTop?
    case PollAgain => s.acceptor.Polling?
    case PollReady => s.acceptor.Polling?
    case PollError => s.acceptor.Polling?
    case AcceptFd(fd) => s.acceptor.Accepting? && fd >= 0 && fd !in s.open
    case AcceptAgain => s.acceptor.Accepting?
    case AcceptError => s.acceptor.Accepting?
    case CountAccepted => s.acceptor.Fresh?
    case TryPush(woken) => s.acceptor.Counted? && (NoneAsleep(s.workers) || IsAsleep(s.workers, woken))
    case CountDropped => s.acceptor.Refused?
    case CloseDropped => s.acceptor.Dropping?
    case CloseQueue => s.acceptor.Leaving?
    case Join =>
      && s.acceptor.Joining?
      && (s.acceptor.next < |s.workers| ==> s.workers[s.acceptor.next].Exited?)
  }

  predicate WorkerEnabled(s: State, i: nat, a: WorkerStep) {
    && i < |s.workers|
    && match a
       case PopOrSleep => s.workers[i].Ready? || s.workers[i].Notified?
       case Serve => s.workers[i].Serving?
       case CountHandled => s.workers[i].Finished?
       case SpuriousWakeup => s.workers[i].Asleep?
  }

  predicate Enabled(s: State, a: Action) {
    match a
    case ByAcceptor(step) => AcceptorEnabled(s, step)
    case ByWorker(i, step) => WorkerEnabled(s, i, step)
    case StopFlag => true
    case StopClose => s.stop
  }

  /** The workers after an acceptor step: it creates one, signals one, or wakes them all. */
  function WorkersAfter(s: State, a: AcceptorStep): seq<Worker>
    requires AcceptorEnabled(s, a)
  {
    match a
    case Spawn => if s.acceptor.next < |s.workers| then s.workers[s.acceptor.next := Ready] else s.workers
    case TryPush(woken) =>
      if !Refuses(s.queue) && IsAsleep(s.workers, woken) then s.workers[woken := Notified] else s.workers
    case FailClose => WakeAll(s.workers)
    case CloseQueue => WakeAll(s.workers)
    case _ => s.workers
  }

  function QueueAfter(s: State, a: AcceptorStep): Fifo
    requires AcceptorEnabled(s, a)
  {
    match a
    case TryPush(_) => Push(s.queue, s.acceptor.fd)
    case FailClose => Close(s.queue)
    case CloseQueue => Close(s.queue)
    case _ => s.queue
  }

  function PhaseAfter(s: State, a: AcceptorStep): Acceptor
    requires AcceptorEnabled(s, a)
  {
    match a
    case Spawn => if s.acceptor.next < |s.workers| then Spawning(s.acceptor.next + 1) else LoopTop
    case SpawnError => SpawnFailed(s.acceptor.next)
    case FailStop => FailClosing(s.acceptor.started)
    case FailClose => FailJoining(0, s.acceptor.started)
    case FailJoin =>
      if s.acceptor.next < s.acceptor.started then FailJoining(s.acceptor.next + 1, s.acceptor.started)
      else ReturnedError(s.acceptor.started)
    case CheckStop => if s.stop then Leaving else Polling
    case PollAgain => LoopTop
    case PollReady => Accepting
    case PollError => Leaving
    case AcceptFd(fd) => Fresh(fd)
    case AcceptAgain => LoopTop
    case AcceptError => if s.stop then Leaving else LoopTop
    case CountAccepted => Counted(s.acceptor.fd)
    case TryPush(_) => if Refuses(s.queue) then Refused(s.acceptor.fd) else LoopTop
    case CountDropped => Dropping(s.acceptor.fd)
    case CloseDropped => LoopTop
    case CloseQueue => Joining(0)
    case Join => if s.acceptor.next < |s.workers| then Joining(s.acceptor.next + 1) else Returned
  }

  function AcceptorApply(s: State, a: AcceptorStep): State
    requires AcceptorEnabled(s, a)
  {
    var s' := s.(acceptor := PhaseAfter(s, a), workers := WorkersAfter(s, a), queue := QueueAfter(s, a));
    match a
    case FailStop => s'.(stop := true)
    case AcceptFd(fd) => s'.(open := s.open + {fd}, accepts := s.accepts + 1)
    case CountAccepted => s'.(accepted := s.accepted + 1)
    case TryPush(_) => if Refuses(s.queue) then s' else s'.(entered := s.entered + [s.acceptor.fd])
    case CountDropped => s'.(dropped := s.dropped + 1)
    case CloseDropped => s'.(open := s.open - {s.acceptor.fd}, closedByAcceptor := s.closedByAcceptor + 1)
    case _ => s'
  }

  /** queue_pop under the mutex: sleep, exit, or take the oldest descriptor; worker_main exits on any
      negative result. Otherwise: serve and close, count, or wake up without a signal. */
  function WorkerAfter(s: State, i: nat, a: WorkerStep): Worker
    requires WorkerEnabled(s, i, a)
  {
    match a
    case PopOrSleep =>
      if s.queue.items == [] then (if s.queue.closed then Exited else Asleep)
      else if s.queue.items[0] < 0 then Exited else Serving(s.queue.items[0])
    case Serve => Finished
    case CountHandled => Ready
    case SpuriousWakeup => Notified
  }

  function WorkerApply(s: State, i: nat, a: WorkerStep): State
    requires WorkerEnabled(s, i, a)
  {
    var s' := s.(workers := s.workers[i := WorkerAfter(s, i, a)]);
    match a
    case PopOrSleep =>
      if s.queue.items == [] then s' else s'.(queue := Pop(s.queue), left := s.left + [s.queue.items[0]])
    case Serve => s'.(open := s.open - {s.workers[i].fd}, closedByWorkers := s.closedByWorkers + 1)
    case CountHandled => s'.(handled := s.handled + 1)
    case SpuriousWakeup => s'
  }

  function Apply(s: State, a: Action): State
    requires Enabled(s, a)
  {
    match a
    case ByAcceptor(step) => AcceptorApply(s, step)
    case ByWorker(i, step) => WorkerApply(s, i, step)
    case StopFlag => s.(stop := true)
    case StopClose => Broadcast(s)
  }

  /** What nothing in the server drives: spurious wakeups, and calls to server_stop, at any time. */
  predicate ByEnvironment(a: Action) {
    a.StopFlag? || a.StopClose? || (a.ByWorker? && a.wstep.SpuriousWakeup?)
  }

  predicate Possible(s: State, run: seq<Action>)
    decreases |run|
  {
    run == [] || (Enabled(s, run[0]) && Possible(Apply(s, run[0]), run[1..]))
  }

  function After(s: State, run: seq<Action>): State
    requires Possible(s, run)
    decreases |run|
  {
    if run == [] then s else After(Apply(s, run[0]), run[1..])
  }

  // ---------- counting over the workers ----------

  function Sum(workers: seq<Worker>, f: Worker -> nat): (n: nat) {
    if workers == [] then 0 else f(workers[0]) + Sum(workers[1..], f)
  }

  lemma {:induction false} SumUpdate(workers: seq<Worker>, f: Worker -> nat, i: nat, w: Worker)
    requires i < |workers|
    ensures Sum(workers[i := w], f) + f(workers[i]) == Sum(workers, f) + f(w)
  {
    if i == 0 {
      assert workers[0 := w] == [w] + workers[1..];
    } else {
      assert workers[i := w] == [workers[0]] + workers[1..][i - 1 := w];
      SumUpdate(workers[1..], f, i - 1, w);
    }
  }

  lemma {:induction false} SumWakeAll(workers: seq<Worker>, f: Worker -> nat)
    requires f(Asleep) == f(Notified)
    ensures Sum(WakeAll(workers), f) == Sum(workers, f)
  {
    if workers != [] {
      SumWakeAll(workers[1..], f);
      assert WakeAll(workers)[1..] == WakeAll(workers[1..]);
    }
  }

  lemma {:induction false} SumZero(workers: seq<Worker>, f: Worker -> nat)
    requires forall i | 0 <= i < |workers| :: f(workers[i]) == 0
    ensures Sum(workers, f) == 0
  {
    if workers != [] {
      SumZero(workers[1..], f);
    }
  }

  lemma {:induction false} SumPositive(workers: seq<Worker>, f: Worker -> nat, i: nat)
    requires i < |workers|
    ensures Sum(workers, f) >= f(workers[i])
  {
    if i > 0 {
      SumPositive(workers[1..], f, i - 1);
    }
  }

  function IsNotified(w: Worker): nat { if w.Notified? then 1 else 0 }
  function IsServing(w: Worker): nat { if w.Serving? then 1 else 0 }
  function IsFinished(w: Worker): nat { if w.Finished? then 1 else 0 }

  /** How many times `fd` is queued. */
  function Queued(items: seq<int>, fd: int): nat {
    if items == [] then 0 else (if items[0] == fd then 1 else 0) + Queued(items[1..], fd)
  }

  lemma {:induction false} QueuedAppend(items: seq<int>, last: int, fd: int)
    ensures Queued(items + [last], fd) == Queued(items, fd) + if last == fd then 1 else 0
  {
    if items == [] {
      assert items + [last] == [last];
    } else {
      assert (items + [last])[1..] == items[1..] + [last];
      QueuedAppend(items[1..], last, fd);
    }
  }

  function Serves(fd: int): Worker -> nat {
    (w: Worker) => if w == Serving(fd) then 1 else 0
  }

  function AcceptorHolds(a: Acceptor, fd: int): nat {
    if (a.Fresh? || a.Counted? || a.Refused? || a.Dropping?) && a.fd == fd then 1 else 0
  }

  /** How many parties are responsible for `fd`: the acceptor, the queue, the workers. */
  function Owners(s: State, fd: int): nat {
    AcceptorHolds(s.acceptor, fd) + Queued(s.queue.items, fd) + Sum(s.workers, Serves(fd))
  }

  // ---------- the invariant ----------

  predicate Bounded(s: State) {
    0 < |s.workers| && |s.queue.items| <= s.queue.capacity && s.entered == s.left + s.queue.items
  }

  /** An open descriptor has exactly one owner, a closed one has none. */
  ghost predicate Owned(s: State) {
    && (forall fd: int :: Owners(s, fd) == if fd in s.open then 1 else 0)
    && (forall fd | fd in s.open :: fd >= 0)
  }

  /** Every counted connection is dropped, queued, in someone's hands or handled. */
  predicate Accounted(s: State) {
    s.accepted == s.dropped + |s.queue.items| + s.handled
                  + Sum(s.workers, IsServing) + Sum(s.workers, IsFinished)
                  + (if s.acceptor.Counted? || s.acceptor.Refused? then 1 else 0)
  }

  /** The counters run at most one step behind what accept and close did. */
  predicate Closes(s: State) {
    && s.accepts == s.accepted + (if s.acceptor.Fresh? then 1 else 0)
    && s.closedByAcceptor + (if s.acceptor.Dropping? then 1 else 0) == s.dropped
    && s.closedByWorkers == s.handled + Sum(s.workers, IsFinished)
    && s.accepts == |s.open| + s.closedByAcceptor + s.closedByWorkers
  }

  /** No lost wakeup. */
  predicate Woken(s: State) {
    && (!NoneAsleep(s.workers) ==> |s.queue.items| <= Sum(s.workers, IsNotified))
    && (s.queue.closed ==> NoneAsleep(s.workers))
  }

  predicate Draining(s: State) {
    && (Exited in s.workers ==> s.queue.closed && s.queue.items == [])
    && (s.queue.closed ==> s.stop || s.acceptor.Joining? || s.acceptor.Returned?)
  }

  /** Exactly the first k workers were created. */
  predicate Started(workers: seq<Worker>, k: nat) {
    && k <= |workers|
    && (forall i | 0 <= i < |workers| :: workers[i].Unstarted? <==> i >= k)
  }

  /** The first k workers have ended. */
  predicate Joined(workers: seq<Worker>, k: nat) {
    k <= |workers| && forall i | 0 <= i < k :: workers[i].Exited?
  }

  function StartedSoFar(a: Acceptor, threads: nat): nat {
    match a
    case Spawning(k) => k
    case SpawnFailed(k) => k
    case FailClosing(k) => k
    case FailJoining(_, k) => k
    case ReturnedError(k) => k
    case _ => threads
  }

  function JoinedSoFar(a: Acceptor, threads: nat): nat {
    match a
    case FailJoining(j, _) => j
    case ReturnedError(k) => k
    case Joining(j) => j
    case Returned => threads
    case _ => 0
  }

  /** Not all workers have been created. */
  predicate IsStarting(a: Acceptor) {
    a.Spawning? || a.SpawnFailed? || a.FailClosing? || a.FailJoining? || a.ReturnedError?
  }

  predicate HasClosed(a: Acceptor) {
    a.FailJoining? || a.ReturnedError? || a.Joining? || a.Returned?
  }

  predicate Phased(s: State) {
    && Started(s.workers, StartedSoFar(s.acceptor, |s.workers|))
    && Joined(s.workers, JoinedSoFar(s.acceptor, |s.workers|))
    && (IsStarting(s.acceptor) ==> s.entered == [])
    && (HasClosed(s.acceptor) ==> s.queue.closed)
    && (s.acceptor.FailClosing? || s.acceptor.FailJoining? || s.acceptor.ReturnedError? ==> s.stop)
    && (s.acceptor.FailJoining? ==> s.acceptor.next <= s.acceptor.started)
  }

  ghost predicate Inv(s: State) {
    Bounded(s) && Owned(s) && Accounted(s) && Closes(s) && Woken(s) && Draining(s) && Phased(s)
  }
}
