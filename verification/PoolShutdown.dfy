/** When the server begins to shut down, and that it keeps serving until then. */
module PoolShutdown {
  import opened ConnQueue
  import opened Pool
  import opened PoolSafety
  import opened PoolDrain

  // ---------- shutdown begins exactly when it is asked for ----------

  /** What makes the server end: server_stop, a failed poll, a failed pthread_create. */
  predicate Asks(a: Action) {
    a == StopFlag || a == ByAcceptor(PollError) || a == ByAcceptor(SpawnError)
  }

  /** The acceptor is in its loop, or still creating workers, and nobody has asked for an end. */
  predicate Running(s: State) {
    && !s.stop
    && (s.acceptor.Spawning? || s.acceptor.LoopTop? || s.acceptor.Polling? || s.acceptor.Accepting? || s.acceptor.Fresh?
        || s.acceptor.Counted? || s.acceptor.Refused? || s.acceptor.Dropping?)
  }

  lemma RunningStep(s: State, a: Action)
    requires Enabled(s, a)
    ensures Running(Apply(s, a)) <==> Running(s) && !Asks(a)
  {
  }

  lemma {:induction false} RunningRun(s: State, run: seq<Action>)
    requires Possible(s, run)
    ensures Running(After(s, run)) <==> Running(s) && forall i | 0 <= i < |run| :: !Asks(run[i])
    decreases |run|
  {
    if run != [] {
      RunningStep(s, run[0]);
      RunningRun(Apply(s, run[0]), run[1..]);
      assert forall i | 0 < i < |run| :: run[i] == run[1..][i - 1];
      assert forall i | 0 <= i < |run[1..]| :: run[1..][i] == run[i + 1];
    }
  }

  /** In every interleaving the server is running exactly as long as nobody called server_stop and neither poll nor
      pthread_create failed: a failing accept, a timeout, a full queue never end it. While it runs the queue is
      open and no worker has ended. */
  lemma EndsExactlyWhenAsked(capacity: nat, threads: nat, run: seq<Action>)
    requires threads > 0 && Possible(Initial(capacity, threads), run)
    ensures var s := After(Initial(capacity, threads), run);
            && (Running(s) <==> forall i | 0 <= i < |run| :: !Asks(run[i]))
            && (Running(s) ==> !s.queue.closed && forall i | 0 <= i < |s.workers| :: !s.workers[i].Exited?)
  {
    RunningRun(Initial(capacity, threads), run);
    InvInitial(capacity, threads);
    InvRun(Initial(capacity, threads), run);
    var s := After(Initial(capacity, threads), run);
    if Running(s) {
      assert forall i | 0 <= i < |s.workers| :: s.workers[i] in s.workers;
    }
  }

  // ---------- an end that was asked for comes ----------

  function AcceptorSteps(run: seq<Action>): nat {
    if run == [] then 0 else (if run[0].ByAcceptor? then 1 else 0) + AcceptorSteps(run[1..])
  }

  /** How many steps the acceptor can take once the end was asked for. */
  function StepsLeft(a: Acceptor, threads: nat): int {
    match a
    case Spawning(k) => 2 * threads + 14 - k
    case _ => Distance(a, threads)
  }

  lemma StepsLeftFalls(s: State, a: AcceptorStep)
    requires Phased(s) && !Running(s) && AcceptorEnabled(s, a)
    ensures StepsLeft(PhaseAfter(s, a), |s.workers|) < StepsLeft(s.acceptor, |s.workers|)
  {
  }

  lemma StepsLeftNonNegative(s: State)
    requires Phased(s)
    ensures StepsLeft(s.acceptor, |s.workers|) >= 0
  {
  }

  lemma SameThreads(s: State, a: Action)
    requires Enabled(s, a)
    ensures |Apply(s, a).workers| == |s.workers|
  {
  }

  lemma OthersKeepAcceptor(s: State, a: Action)
    requires Enabled(s, a) && !a.ByAcceptor?
    ensures Apply(s, a).acceptor == s.acceptor
  {
  }

  /** Once the end was asked for, the acceptor takes a bounded number of steps in every run: it looks at the flag,
      leaves its loop, closes the queue and joins, whatever the environment does. */
  lemma {:induction false} EndIsBounded(s: State, run: seq<Action>)
    requires Inv(s) && !Running(s) && Possible(s, run)
    ensures AcceptorSteps(run) <= StepsLeft(s.acceptor, |s.workers|)
    decreases |run|
  {
    StepsLeftNonNegative(s);
    if run != [] {
      InvStep(s, run[0]);
      RunningStep(s, run[0]);
      SameThreads(s, run[0]);
      EndIsBounded(Apply(s, run[0]), run[1..]);
      if run[0].ByAcceptor? {
        StepsLeftFalls(s, run[0].astep);
      } else {
        OthersKeepAcceptor(s, run[0]);
      }
    }
  }

  /** The sleeper that a signal picks, if there is one. */
  lemma Sleeper(workers: seq<Worker>) returns (i: nat)
    ensures NoneAsleep(workers) || IsAsleep(workers, i)
  {
    i := 0;
    if Asleep in workers {
      i :| i < |workers| && workers[i] == Asleep;
    }
  }

  /** While the queue is open the acceptor is never blocked. */
  lemma AcceptorMoves(s: State) returns (a: AcceptorStep)
    requires Phased(s) && !s.queue.closed
    ensures AcceptorEnabled(s, a) && a != PollError && a != SpawnError
    ensures !a.AcceptFd?
  {
    match s.acceptor
    case Spawning(_) => a := Spawn;
    case SpawnFailed(_) => a := FailStop;
    case FailClosing(_) => a := FailClose;
    case LoopTop => a := CheckStop;
    case Polling => a := PollAgain;
    case Accepting => a := AcceptAgain;
    case Fresh(_) => a := CountAccepted;
    case Counted(_) =>
      var i := Sleeper(s.workers);
      a := TryPush(i);
    case Refused(_) => a := CountDropped;
    case Dropping(_) => a := CloseDropped;
    case Leaving => a := CloseQueue;
  }

  lemma Prepended(s: State, a: Action, rest: seq<Action>)
    requires Enabled(s, a) && Possible(Apply(s, a), rest)
    ensures Possible(s, [a] + rest) && After(s, [a] + rest) == After(Apply(s, a), rest)
  {
    assert ([a] + rest)[1..] == rest;
  }

  lemma {:induction false} EndFrom(s: State) returns (run: seq<Action>)
    requires Inv(s) && !Running(s)
    ensures Possible(s, run) && HasReturned(After(s, run).acceptor)
    decreases StepsLeft(s.acceptor, |s.workers|)
  {
    if s.queue.closed {
      run := DrainFrom(s);
    } else {
      var step := AcceptorMoves(s);
      var a := ByAcceptor(step);
      InvStep(s, a);
      RunningStep(s, a);
      SameThreads(s, a);
      StepsLeftFalls(s, step);
      StepsLeftNonNegative(s);
      var rest := EndFrom(Apply(s, a));
      Prepended(s, a, rest);
      run := [a] + rest;
    }
  }

  /** From every reachable state in which the end was asked for, the server can and, by EndIsBounded and
      DrainIsBounded, must reach the return of server_run. */
  lemma AskedEndComes(s: State)
    requires Reachable(s) && !Running(s)
    ensures exists run :: Possible(s, run) && HasReturned(After(s, run).acceptor)
    ensures forall run | Possible(s, run) :: AcceptorSteps(run) <= StepsLeft(s.acceptor, |s.workers|)
  {
    ReachableInv(s);
    var run := EndFrom(s);
    forall run | Possible(s, run)
      ensures AcceptorSteps(run) <= StepsLeft(s.acceptor, |s.workers|)
    {
      EndIsBounded(s, run);
    }
  }

  // ---------- no worker spins ----------

  /** What a worker can still do without being given more. */
  function Credit(w: Worker): nat {
    match w
    case Unstarted => 2
    case Ready => 2
    case Notified => 2
    case Asleep => 1
    case Serving(_) => 4
    case Finished => 3
    case Exited => 0
  }

  function Credits(s: State): nat {
    4 * |s.queue.items| + Sum(s.workers, Credit)
  }

  predicate WorkerMoves(a: Action) {
    a.ByWorker? && !a.wstep.SpuriousWakeup?
  }

  function WorkerSteps(run: seq<Action>): nat {
    if run == [] then 0 else (if WorkerMoves(run[0]) then 1 else 0) + WorkerSteps(run[1..])
  }

  predicate Closes(a: Action) {
    a == StopClose || a == ByAcceptor(CloseQueue) || a == ByAcceptor(FailClose)
  }

  /** What a step gives to the workers: a connection, a wakeup, a broadcast. */
  function Given(a: Action, threads: nat): nat {
    if a.ByAcceptor? && a.astep.TryPush? then 5
    else if a.ByWorker? && a.wstep.SpuriousWakeup? then 1
    else if Closes(a) then threads
    else 0
  }

  function GivenBy(run: seq<Action>, threads: nat): nat {
    if run == [] then 0 else Given(run[0], threads) + GivenBy(run[1..], threads)
  }

  lemma {:induction false} WakeAllCredits(workers: seq<Worker>)
    ensures Sum(WakeAll(workers), Credit) <= Sum(workers, Credit) + |workers|
  {
    if workers != [] {
      WakeAllCredits(workers[1..]);
      assert WakeAll(workers)[1..] == WakeAll(workers[1..]);
    }
  }

  lemma AcceptorCredits(s: State, a: AcceptorStep)
    requires AcceptorEnabled(s, a) && SpawnsNew(s)
    ensures Credits(AcceptorApply(s, a)) <= Credits(s) + Given(ByAcceptor(a), |s.workers|)
  {
    match a
    case Spawn => if s.acceptor.next < |s.workers| { SumUpdate(s.workers, Credit, s.acceptor.next, Ready); }
    case TryPush(woken) => if IsAsleep(s.workers, woken) { SumUpdate(s.workers, Credit, woken, Notified); }
    case FailClose => WakeAllCredits(s.workers);
    case CloseQueue => WakeAllCredits(s.workers);
    case _ =>
  }

  lemma StepCredits(s: State, a: Action)
    requires Enabled(s, a) && SpawnsNew(s)
    ensures Credits(Apply(s, a)) + (if WorkerMoves(a) then 1 else 0) <= Credits(s) + Given(a, |s.workers|)
  {
    match a
    case ByAcceptor(step) => AcceptorCredits(s, step);
    case ByWorker(i, step) => SumUpdate(s.workers, Credit, i, WorkerAfter(s, i, step));
    case StopFlag =>
    case StopClose => WakeAllCredits(s.workers);
  }

  /** Over every run the workers take no more steps than connections, wakeups and broadcasts give them: an idle worker
      sleeps, it does not spin. */
  lemma {:induction false} NobodySpins(s: State, run: seq<Action>)
    requires Inv(s) && Possible(s, run)
    ensures WorkerSteps(run) <= Credits(s) + GivenBy(run, |s.workers|)
    decreases |run|
  {
    if run != [] {
      StepCredits(s, run[0]);
      InvStep(s, run[0]);
      SameThreads(s, run[0]);
      NobodySpins(Apply(s, run[0]), run[1..]);
    }
  }

  // ---------- until then it serves ----------

  /** A descriptor that the kernel can hand out. */
  lemma {:induction false} FreeDescriptor(open: set<int>) returns (fd: int)
    ensures fd >= 0 && fd !in open && forall x | x in open :: x < fd
  {
    if x :| x in open {
      var rest := FreeDescriptor(open - {x});
      fd := if x < rest then rest else x + 1;
      assert forall y | y in open :: y == x || y in open - {x};
    } else {
      fd := 0;
    }
  }

  function Ahead(a: Acceptor, threads: nat): int {
    match a
    case Spawning(k) => threads - k + 8
    case Fresh(_) => 7
    case Counted(_) => 6
    case Refused(_) => 5
    case Dropping(_) => 4
    case LoopTop => 3
    case Polling => 2
    case _ => 1
  }

  predicate Quiet(run: seq<Action>) {
    forall i | 0 <= i < |run| :: !Asks(run[i]) && !ByEnvironment(run[i])
  }

  /** The acceptor alone comes to its next accept. */
  lemma {:induction false} ToAccept(s: State) returns (run: seq<Action>)
    requires Inv(s) && Running(s)
    ensures Possible(s, run) && Quiet(run)
    ensures var t := After(s, run); Inv(t) && Running(t) && t.acceptor.Accepting? && t.accepts == s.accepts && t.handled == s.handled
    decreases Ahead(s.acceptor, |s.workers|)
  {
    if s.acceptor.Accepting? {
      run := [];
    } else {
      var step := TowardsAccept(s);
      var a := ByAcceptor(step);
      InvStep(s, a);
      RunningStep(s, a);
      SameThreads(s, a);
      var rest := ToAccept(Apply(s, a));
      Prepended(s, a, rest);
      run := [a] + rest;
    }
  }

  lemma TowardsAccept(s: State) returns (a: AcceptorStep)
    requires Inv(s) && Running(s) && !s.acceptor.Accepting?
    ensures AcceptorEnabled(s, a) && a != PollError && a != SpawnError
    ensures 0 <= Ahead(PhaseAfter(s, a), |s.workers|) < Ahead(s.acceptor, |s.workers|)
    ensures AcceptorApply(s, a).accepts == s.accepts && AcceptorApply(s, a).handled == s.handled
  {
    if s.acceptor.Polling? {
      a := PollReady;
    } else {
      a := AcceptorMoves(s);
    }
  }

  /** While the server runs, acceptor steps alone lead to a further accepted connection. */
  lemma KeepsAccepting(s: State)
    requires Reachable(s) && Running(s)
    ensures exists run, fd :: Possible(s, run) && Quiet(run) && AcceptsOne(s, After(s, run), fd)
  {
    ReachableInv(s);
    var run := ToAccept(s);
    var t := After(s, run);
    var fd := FreeDescriptor(t.open);
    var a := ByAcceptor(AcceptFd(fd));
    Appended(s, run, a);
    assert AcceptsOne(s, After(s, run + [a]), fd);
  }

  predicate AcceptsOne(s: State, t: State, fd: int) {
    t.acceptor == Fresh(fd) && fd in t.open && t.accepts == s.accepts + 1
  }

  lemma {:induction false} Appended(s: State, run: seq<Action>, a: Action)
    requires Possible(s, run) && Enabled(After(s, run), a)
    ensures Possible(s, run + [a]) && After(s, run + [a]) == Apply(After(s, run), a)
    decreases |run|
  {
    if run == [] {
      assert run + [a] == [a];
      assert [a][1..] == [];
    } else {
      assert (run + [a])[1..] == run[1..] + [a];
      Appended(Apply(s, run[0]), run[1..], a);
    }
  }

  /** A worker that is neither asleep nor ended nor unstarted takes its next step. */
  lemma WorkerMove(s: State, i: nat) returns (a: Action)
    requires Inv(s) && i < |s.workers| && Busy(s.workers[i])
    ensures Enabled(s, a) && WorkerMoves(a)
    ensures Apply(s, a).acceptor == s.acceptor && Apply(s, a).queue.capacity == s.queue.capacity
    ensures Apply(s, a).handled >= s.handled
  {
    var w := s.workers[i];
    a := ByWorker(i, if w.Serving? then Serve else if w.Finished? then CountHandled else PopOrSleep);
  }

  predicate Busy(w: Worker) {
    w.Ready? || w.Notified? || w.Serving? || w.Finished?
  }

  predicate Idle(s: State) {
    forall i | 0 <= i < |s.workers| :: !Busy(s.workers[i])
  }

  lemma BusyMove(s: State) returns (a: Action)
    requires Inv(s) && Running(s) && !Idle(s)
    ensures Enabled(s, a) && WorkerMoves(a) && Credits(Apply(s, a)) < Credits(s)
    ensures Inv(Apply(s, a)) && Running(Apply(s, a))
    ensures Apply(s, a).acceptor == s.acceptor && Apply(s, a).queue.capacity == s.queue.capacity
    ensures Apply(s, a).handled >= s.handled
  {
    var i: nat :| i < |s.workers| && Busy(s.workers[i]);
    a := WorkerMove(s, i);
    InvStep(s, a);
    RunningStep(s, a);
    StepCredits(s, a);
  }

  /** The workers alone serve what is queued and fall asleep. */
  lemma {:induction false} Settle(s: State) returns (run: seq<Action>)
    requires Inv(s) && Running(s)
    ensures Possible(s, run) && Quiet(run)
    ensures var t := After(s, run);
            && Inv(t) && Running(t) && Idle(t) && t.acceptor == s.acceptor && t.handled >= s.handled
            && t.queue.capacity == s.queue.capacity
    decreases Credits(s)
  {
    if Idle(s) {
      run := [];
    } else {
      var a := BusyMove(s);
      var rest := Settle(Apply(s, a));
      Prepended(s, a, rest);
      run := [a] + rest;
    }
  }

  /** All workers asleep on an empty queue, the acceptor at accept. */
  predicate Resting(s: State) {
    && s.acceptor.Accepting? && s.queue.items == [] && !s.queue.closed && s.queue.capacity > 0
    && |s.workers| > 0 && s.workers[0].Asleep?
  }

  lemma IdleIsResting(s: State)
    requires Inv(s) && Running(s) && Idle(s) && s.acceptor.Accepting? && s.queue.capacity > 0
    ensures Resting(s)
  {
    assert s.workers[0] in s.workers;
    if s.queue.items != [] {
      var i := AwakeWorker(s);
    }
  }

  /** The state after a connection was accepted, counted and queued. */
  lemma Queues(s: State, fd: int) returns (run: seq<Action>)
    requires Resting(s) && fd >= 0 && fd !in s.open
    ensures Possible(s, run) && Quiet(run)
    ensures var t := After(s, run); |t.workers| > 0 && t.workers[0].Notified? && t.queue.items == [fd] && t.handled == s.handled
  {
    var a1, a2 := ByAcceptor(AcceptFd(fd)), ByAcceptor(CountAccepted);
    var s1 := Apply(s, a1);
    var s2 := Apply(s1, a2);
    var a3 := ByAcceptor(TryPush(0));
    PushWakes(s2, fd);
    assert After(Apply(s2, a3), []) == Apply(s2, a3);
    Prepended(s2, a3, []);
    Prepended(s1, a2, [a3] + []);
    Prepended(s, a1, [a2] + ([a3] + []));
    run := [a1] + ([a2] + ([a3] + []));
  }

  lemma PushWakes(s: State, fd: int)
    requires s.acceptor == Counted(fd) && s.queue.items == [] && !s.queue.closed && s.queue.capacity > 0
    requires |s.workers| > 0 && s.workers[0].Asleep?
    ensures Enabled(s, ByAcceptor(TryPush(0)))
    ensures var t := Apply(s, ByAcceptor(TryPush(0)));
            |t.workers| > 0 && t.workers[0].Notified? && t.queue.items == [fd] && t.handled == s.handled
  {
  }

  /** One connection from accept to the handled counter. */
  lemma ServesOne(s: State, fd: int) returns (run: seq<Action>)
    requires Resting(s) && fd >= 0 && fd !in s.open
    ensures Possible(s, run) && Quiet(run) && After(s, run).handled == s.handled + 1
  {
    var first := Queues(s, fd);
    var rest := WorkerServes(After(s, first), fd);
    Joins(s, first, rest);
    run := first + rest;
  }

  lemma WorkerServes(s: State, fd: int) returns (run: seq<Action>)
    requires |s.workers| > 0 && s.workers[0].Notified? && s.queue.items == [fd] && fd >= 0
    ensures Possible(s, run) && Quiet(run) && After(s, run).handled == s.handled + 1
  {
    var a1, a2, a3 := ByWorker(0, PopOrSleep), ByWorker(0, Serve), ByWorker(0, CountHandled);
    var s1 := Apply(s, a1);
    var s2 := Apply(s1, a2);
    var s3 := Apply(s2, a3);
    assert After(s3, []) == s3;
    Prepended(s2, a3, []);
    Prepended(s1, a2, [a3] + []);
    Prepended(s, a1, [a2] + ([a3] + []));
    run := [a1] + ([a2] + ([a3] + []));
  }

  lemma {:induction false} Joins(s: State, a: seq<Action>, b: seq<Action>)
    requires Possible(s, a) && Possible(After(s, a), b)
    ensures Possible(s, a + b) && After(s, a + b) == After(After(s, a), b)
    decreases |a|
  {
    if a == [] {
      assert a + b == b;
    } else {
      assert (a + b)[1..] == a[1..] + b;
      Joins(Apply(s, a[0]), a[1..], b);
    }
  }

  /** While the server runs, its own steps lead from every reachable state to a further handled connection, if the
      queue has room for one. */
  lemma KeepsServing(s: State)
    requires Reachable(s) && Running(s) && s.queue.capacity > 0
    ensures exists run :: Possible(s, run) && Quiet(run) && After(s, run).handled > s.handled
  {
    ReachableInv(s);
    var run1 := ToAccept(s);
    var s1 := After(s, run1);
    CapacityStays(s, run1);
    var run2 := Settle(s1);
    var s2 := After(s1, run2);
    IdleIsResting(s2);
    var fd := FreeDescriptor(s2.open);
    var run3 := ServesOne(s2, fd);
    Joins(s1, run2, run3);
    Joins(s, run1, run2 + run3);
    assert Possible(s, run1 + (run2 + run3)) && Quiet(run1 + (run2 + run3));
  }

  lemma {:induction false} CapacityStays(s: State, run: seq<Action>)
    requires Possible(s, run)
    ensures After(s, run).queue.capacity == s.queue.capacity
    decreases |run|
  {
    if run != [] {
      CapacityStays(Apply(s, run[0]), run[1..]);
    }
  }

  /** A connection is refused exactly when the queue is closed or holds as many as it has slots. */
  lemma DropsExactlyWhenFull(s: State, woken: nat)
    requires AcceptorEnabled(s, TryPush(woken))
    ensures AcceptorApply(s, TryPush(woken)).acceptor.Refused? <==> s.queue.closed || |s.queue.items| == s.queue.capacity
    ensures !AcceptorApply(s, TryPush(woken)).acceptor.Refused? ==>
              AcceptorApply(s, TryPush(woken)).queue.items == s.queue.items + [s.acceptor.fd]
  {
  }
}
