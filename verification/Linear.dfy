/** Key/value requests of concurrent workers take effect one at a time, in the order in which their store
    calls get the mutex. */
module Linear {
  import opened CText
  import opened HttpParse
  import opened Store
  import opened Api
  import opened ApiFacts
  import opened ApiRuns
  import opened Json
  import opened JsonReply
  import opened Listing
  import Auth

  /** A request about one key. */
  predicate AboutKey(req: Request) {
    RouteOf(req.path).KvKey?
  }

  /** What api_dispatch plans for such a request: the key check may answer it already. */
  function PlanOf(key: string, req: Request): Plan
    requires AboutKey(req)
  {
    var auth := Auth.Verdict(key, req.apiKey);
    if Guarded(req) && auth != Ok then Early(auth, if auth == Unauthorized then NO_API_KEY else WRONG_API_KEY)
    else KvPlan(req, RouteOf(req.path).key)
  }

  lemma DispatchIsPlan(key: string, db: Db, env: Env, req: Request)
    requires AboutKey(req)
    ensures Dispatch(key, db, env, req) == RunPlan(db, env.fault, PlanOf(key, req))
  {
  }

  /** A worker inside api_dispatch: before its store call, or after it with the results in its own variables.
      `began` is the time at which its request began. */
  datatype Worker =
    | Idle
    | Before(req: Request, plan: Plan, began: nat)
    | After(req: Request, call: KvCall, error: ApiError, value: string, place: nat, began: nat)

  /** One request in mutex order, what was planned for it, and what the outside contributed: whether SQLite failed. */
  datatype Entry = Entry(req: Request, plan: Plan, env: Env)

  /** An answered request: its place in the mutex order, what the worker returned and sent, and when the request
      began and ended. */
  datatype Answered = Answered(req: Request, place: nat, error: ApiError, reply: Reply, began: nat, ended: nat)

  /** `key` is the configured key. `order`, `answered` and `sizes` record the history: the mutex order of the
      requests, the replies, and how many requests were ordered after each step. */
  datatype State = State(key: string, db: Db, workers: seq<Worker>, order: seq<Entry>, answered: seq<Answered>, sizes: seq<nat>)

  function Start(key: string, db: Db, threads: nat): State {
    State(key, db, seq(threads, i => Idle), [], [], [0])
  }

  datatype Step =
    | Begin(worker: nat, req: Request)   // routing, key check and parsing, on the worker's own data
    | StoreCall(worker: nat, env: Env)   // one locked store call
    | Finish(worker: nat)                // escape and send, from the worker's own variables

  predicate Enabled(s: State, step: Step) {
    match step
    case Begin(i, req) => i < |s.workers| && s.workers[i].Idle? && AboutKey(req)
    case StoreCall(i, _) => i < |s.workers| && s.workers[i].Before?
    case Finish(i) => i < |s.workers| && s.workers[i].After?
  }

  /** The step itself; the worker's request began at `began`. */
  function Apply(s: State, step: Step): State
    requires Enabled(s, step)
  {
    match step
    case Begin(i, req) =>
      s.(workers := s.workers[i := Before(req, PlanOf(s.key, req), |s.sizes|)], sizes := s.sizes + [|s.order|])
    case StoreCall(i, env) => if s.workers[i].plan.Call? then ApplyCall(s, i, env) else ApplyEarly(s, i, env)
    case Finish(i) => ApplyFinish(s, i)
  }

  function ApplyCall(s: State, i: nat, env: Env): State
    requires i < |s.workers| && s.workers[i].Before? && s.workers[i].plan.Call?
  {
    var w := s.workers[i];
    var (e, value, db') := KvStep(s.db, env.fault, w.plan.call);
    State(s.key, db', s.workers[i := After(w.req, w.plan.call, e, value, |s.order|, w.began)],
          s.order + [Entry(w.req, w.plan, env)], s.answered, s.sizes + [|s.order| + 1])
  }

  /** A request that needs no store call is answered at once, and ordered where that happens. */
  function ApplyEarly(s: State, i: nat, env: Env): State
    requires i < |s.workers| && s.workers[i].Before? && !s.workers[i].plan.Call?
  {
    var w := s.workers[i];
    var o := RunPlan(s.db, env.fault, w.plan);
    State(s.key, s.db, s.workers[i := Idle], s.order + [Entry(w.req, w.plan, env)],
          s.answered + [Answered(w.req, |s.order|, o.error, o.sent[0], w.began, |s.sizes|)],
          s.sizes + [|s.order| + 1])
  }

  function ApplyFinish(s: State, i: nat): State
    requires i < |s.workers| && s.workers[i].After?
  {
    var w := s.workers[i];
    var (error, reply) := KvAnswer(w.call, w.error, w.value);
    s.(workers := s.workers[i := Idle],
       answered := s.answered + [Answered(w.req, w.place, error, reply, w.began, |s.sizes|)],
       sizes := s.sizes + [|s.order|])
  }

  predicate Possible(s: State, run: seq<Step>)
    decreases |run|
  {
    run == [] || (Enabled(s, run[0]) && Possible(Apply(s, run[0]), run[1..]))
  }

  function AfterRun(s: State, run: seq<Step>): State
    requires Possible(s, run)
    decreases |run|
  {
    if run == [] then s else AfterRun(Apply(s, run[0]), run[1..])
  }

  // ---------- the sequential meaning ----------

  /** The store after the first n requests, run one at a time by the sequential handler. */
  function StoreAt(db: Db, order: seq<Entry>, n: nat): Db
    requires n <= |order|
  {
    if n == 0 then db
    else RunPlan(StoreAt(db, order, n - 1), order[n - 1].env.fault, order[n - 1].plan).db
  }

  /** What the sequential handler does with the n-th request. */
  function OutcomeAt(db: Db, order: seq<Entry>, n: nat): Outcome
    requires n < |order|
  {
    RunPlan(StoreAt(db, order, n), order[n].env.fault, order[n].plan)
  }

  lemma {:induction false} StoreAtPrefix(db: Db, order: seq<Entry>, last: Entry, n: nat)
    requires n <= |order|
    ensures StoreAt(db, order + [last], n) == StoreAt(db, order, n)
  {
    if n > 0 {
      StoreAtPrefix(db, order, last, n - 1);
    }
  }

  lemma OutcomeAtPrefix(db: Db, order: seq<Entry>, last: Entry, n: nat)
    requires n < |order|
    ensures OutcomeAt(db, order + [last], n) == OutcomeAt(db, order, n)
  {
    StoreAtPrefix(db, order, last, n);
  }

  // ---------- the invariant ----------

  /** The reply is the one that the sequential handler gives at that place. */
  predicate Agrees(db: Db, order: seq<Entry>, req: Request, place: nat, error: ApiError, reply: Reply) {
    && place < |order| && order[place].req == req
    && OutcomeAt(db, order, place).error == error
    && OutcomeAt(db, order, place).sent == [reply]
  }

  predicate WillAnswer(db: Db, order: seq<Entry>, w: Worker) {
    w.After? ==> var (error, reply) := KvAnswer(w.call, w.error, w.value); Agrees(db, order, w.req, w.place, error, reply)
  }

  /** The order at place `place` was extended between the times `began` and `ended`. */
  predicate Within(sizes: seq<nat>, place: nat, began: nat, ended: nat) {
    began < |sizes| && ended < |sizes| && sizes[began] <= place < sizes[ended]
  }

  predicate TimedWorker(sizes: seq<nat>, w: Worker) {
    match w
    case Idle => true
    case Before(_, _, began) => began < |sizes|
    case After(_, _, _, _, place, began) => |sizes| > 0 && Within(sizes, place, began, |sizes| - 1)
  }

  predicate Timed(s: State) {
    && |s.sizes| > 0 && s.sizes[|s.sizes| - 1] == |s.order|
    && (forall i, j | 0 <= i <= j < |s.sizes| :: s.sizes[i] <= s.sizes[j])
    && (forall i | 0 <= i < |s.workers| :: TimedWorker(s.sizes, s.workers[i]))
    && (forall k | 0 <= k < |s.answered| ::
          Within(s.sizes, s.answered[k].place, s.answered[k].began, s.answered[k].ended))
  }

  predicate Sequential(start: Db, s: State) {
    && s.db == StoreAt(start, s.order, |s.order|)
    && (forall i | 0 <= i < |s.workers| :: WillAnswer(start, s.order, s.workers[i]))
    && (forall k | 0 <= k < |s.answered| ::
          Agrees(start, s.order, s.answered[k].req, s.answered[k].place, s.answered[k].error, s.answered[k].reply))
  }

  /** Appending a request to the order changes nothing about the earlier ones. */
  lemma AgreesStays(db: Db, order: seq<Entry>, last: Entry, req: Request, place: nat, error: ApiError, reply: Reply)
    requires Agrees(db, order, req, place, error, reply)
    ensures Agrees(db, order + [last], req, place, error, reply)
  {
    OutcomeAtPrefix(db, order, last, place);
  }

  lemma OrderGrows(start: Db, s: State, last: Entry)
    requires Sequential(start, s)
    ensures StoreAt(start, s.order + [last], |s.order| + 1) == RunPlan(s.db, last.env.fault, last.plan).db
    ensures OutcomeAt(start, s.order + [last], |s.order|) == RunPlan(s.db, last.env.fault, last.plan)
    ensures forall i | 0 <= i < |s.workers| :: WillAnswer(start, s.order + [last], s.workers[i])
    ensures forall k | 0 <= k < |s.answered| ::
              Agrees(start, s.order + [last], s.answered[k].req, s.answered[k].place, s.answered[k].error,
                     s.answered[k].reply)
  {
    StoreAtPrefix(start, s.order, last, |s.order|);
    forall i | 0 <= i < |s.workers| && s.workers[i].After?
      ensures WillAnswer(start, s.order + [last], s.workers[i])
    {
      var w := s.workers[i];
      var (error, reply) := KvAnswer(w.call, w.error, w.value);
      AgreesStays(start, s.order, last, w.req, w.place, error, reply);
    }
    forall k | 0 <= k < |s.answered|
      ensures Agrees(start, s.order + [last], s.answered[k].req, s.answered[k].place, s.answered[k].error,
                     s.answered[k].reply)
    {
      var a := s.answered[k];
      AgreesStays(start, s.order, last, a.req, a.place, a.error, a.reply);
    }
  }

  lemma CallSequential(start: Db, s: State, i: nat, env: Env)
    requires Sequential(start, s) && i < |s.workers| && s.workers[i].Before? && s.workers[i].plan.Call?
    ensures Sequential(start, ApplyCall(s, i, env))
  {
    OrderGrows(start, s, Entry(s.workers[i].req, s.workers[i].plan, env));
  }

  lemma EarlyReplies(db: Db, fault: bool, plan: Plan)
    requires !plan.Call?
    ensures RunPlan(db, fault, plan).db == db && RunPlan(db, fault, plan).sent == [RunPlan(db, fault, plan).sent[0]]
  {
  }

  lemma EarlySequential(start: Db, s: State, i: nat, env: Env)
    requires Sequential(start, s) && i < |s.workers| && s.workers[i].Before? && !s.workers[i].plan.Call?
    ensures Sequential(start, ApplyEarly(s, i, env))
  {
    EarlyReplies(s.db, env.fault, s.workers[i].plan);
    OrderGrows(start, s, Entry(s.workers[i].req, s.workers[i].plan, env));
  }

  lemma StepSequential(start: Db, s: State, step: Step)
    requires Sequential(start, s) && Enabled(s, step)
    ensures Sequential(start, Apply(s, step))
  {
    match step
    case Begin(_, _) =>
    case StoreCall(i, env) =>
      if s.workers[i].plan.Call? {
        CallSequential(start, s, i, env);
      } else {
        EarlySequential(start, s, i, env);
      }
    case Finish(_) =>
  }

  /** What was planned is what api_dispatch plans. */
  predicate Dispatched(s: State) {
    && (forall i | 0 <= i < |s.workers| && s.workers[i].Before? ::
          AboutKey(s.workers[i].req) && s.workers[i].plan == PlanOf(s.key, s.workers[i].req))
    && (forall n | 0 <= n < |s.order| :: AboutKey(s.order[n].req) && s.order[n].plan == PlanOf(s.key, s.order[n].req))
  }

  lemma StepDispatched(s: State, step: Step)
    requires Dispatched(s) && Enabled(s, step)
    ensures Dispatched(Apply(s, step)) && Apply(s, step).key == s.key
  {
  }

  /** Time passes: the order grows or stays, and everything that was timed stays timed. */
  lemma TimePasses(s: State, size: nat)
    requires Timed(s) && size >= |s.order|
    ensures var sizes := s.sizes + [size];
            && (forall i, j | 0 <= i <= j < |sizes| :: sizes[i] <= sizes[j])
            && (forall i | 0 <= i < |s.workers| :: TimedWorker(sizes, s.workers[i]))
            && (forall k | 0 <= k < |s.answered| ::
                  Within(sizes, s.answered[k].place, s.answered[k].began, s.answered[k].ended))
  {
  }

  lemma StepTimed(s: State, step: Step)
    requires Timed(s) && Enabled(s, step)
    ensures Timed(Apply(s, step))
  {
    match step
    case Begin(_, _) => TimePasses(s, |s.order|);
    case StoreCall(_, _) => TimePasses(s, |s.order| + 1);
    case Finish(_) => TimePasses(s, |s.order|);
  }

  /** No two requests have the same place. */
  predicate Apart(s: State) {
    && (forall i | 0 <= i < |s.workers| && s.workers[i].After? :: s.workers[i].place < |s.order|)
    && (forall k | 0 <= k < |s.answered| :: s.answered[k].place < |s.order|)
    && (forall i, j | 0 <= i < j < |s.workers| && s.workers[i].After? && s.workers[j].After? ::
          s.workers[i].place != s.workers[j].place)
    && (forall k, l | 0 <= k < l < |s.answered| :: s.answered[k].place != s.answered[l].place)
    && (forall i, k | 0 <= i < |s.workers| && 0 <= k < |s.answered| && s.workers[i].After? ::
          s.workers[i].place != s.answered[k].place)
  }

  lemma StepApart(s: State, step: Step)
    requires Apart(s) && Enabled(s, step)
    ensures Apart(Apply(s, step))
  {
  }

  /** The n-th ordered request was answered, or its worker is about to answer it. */
  predicate Taken(s: State, n: nat) {
    || (exists k | 0 <= k < |s.answered| :: s.answered[k].place == n)
    || (exists i | 0 <= i < |s.workers| :: s.workers[i].After? && s.workers[i].place == n)
  }

  predicate AllTaken(s: State) {
    forall n | 0 <= n < |s.order| :: Taken(s, n)
  }

  /** Answers and workers other than the i-th stay, and the i-th worker's place is not lost. */
  lemma StaysTaken(s: State, s': State, i: nat, n: nat)
    requires Taken(s, n) && i < |s.workers| == |s'.workers| && |s.answered| <= |s'.answered|
    requires forall k | 0 <= k < |s.answered| :: s'.answered[k] == s.answered[k]
    requires forall j | 0 <= j < |s.workers| && j != i :: s'.workers[j] == s.workers[j]
    requires s.workers[i].After? ==> |s.answered| < |s'.answered| && s'.answered[|s.answered|].place == s.workers[i].place
    ensures Taken(s', n)
  {
    if k :| 0 <= k < |s.answered| && s.answered[k].place == n {
      assert s'.answered[k].place == n;
    } else {
      var j :| 0 <= j < |s.workers| && s.workers[j].After? && s.workers[j].place == n;
      if j == i {
        assert s'.answered[|s.answered|].place == n;
      } else {
        assert s'.workers[j].place == n;
      }
    }
  }

  lemma StepTaken(s: State, step: Step)
    requires AllTaken(s) && Enabled(s, step)
    ensures AllTaken(Apply(s, step))
  {
    var s', i := Apply(s, step), step.worker;
    forall n | 0 <= n < |s'.order|
      ensures Taken(s', n)
    {
      if n < |s.order| {
        StaysTaken(s, s', i, n);
      } else if s'.workers[i].After? {
        assert s'.workers[i].place == n;
      } else {
        assert s'.answered[|s.answered|].place == n;
      }
    }
  }

  predicate Kept(start: Db, s: State) {
    Sequential(start, s) && Timed(s) && Apart(s) && Dispatched(s) && AllTaken(s)
  }

  lemma {:induction false} RunKeeps(start: Db, s: State, run: seq<Step>)
    requires Kept(start, s) && Possible(s, run)
    ensures Kept(start, AfterRun(s, run)) && AfterRun(s, run).key == s.key
    decreases |run|
  {
    if run != [] {
      StepSequential(start, s, run[0]);
      StepTimed(s, run[0]);
      StepApart(s, run[0]);
      StepDispatched(s, run[0]);
      StepTaken(s, run[0]);
      RunKeeps(start, Apply(s, run[0]), run[1..]);
    }
  }

  // ---------- the order as a run of api_dispatch ----------

  /** The ordered requests as a run of requests served one at a time. */
  function Visits(order: seq<Entry>): (run: seq<Visit>)
    ensures |run| == |order| && forall n | 0 <= n < |order| :: run[n] == Visit(order[n].env, order[n].req)
  {
    seq(|order|, n requires 0 <= n < |order| => Visit(order[n].env, order[n].req))
  }

  lemma {:induction false} FinalSnoc(key: string, db: Db, run: seq<Visit>, v: Visit)
    ensures Final(key, db, run + [v]) == Dispatch(key, Final(key, db, run), v.env, v.req).db
    decreases |run|
  {
    if run == [] {
      assert run + [v] == [v];
      assert Final(key, Dispatch(key, db, v.env, v.req).db, [v][1..]) == Dispatch(key, db, v.env, v.req).db;
    } else {
      assert (run + [v])[1..] == run[1..] + [v];
      FinalSnoc(key, Dispatch(key, db, run[0].env, run[0].req).db, run[1..], v);
    }
  }

  /** One more ordered request: the store as the sequential handler and as api_dispatch leave it. */
  lemma StoreStep(start: Db, s: State, n: nat)
    requires Dispatched(s) && n < |s.order|
    ensures StoreAt(start, s.order, n + 1) ==
            Dispatch(s.key, StoreAt(start, s.order, n), s.order[n].env, s.order[n].req).db
  {
    DispatchIsPlan(s.key, StoreAt(start, s.order, n), s.order[n].env, s.order[n].req);
  }

  lemma FinalStep(key: string, start: Db, run: seq<Visit>, n: nat)
    requires n < |run|
    ensures Final(key, start, run[..n + 1]) == Dispatch(key, Final(key, start, run[..n]), run[n].env, run[n].req).db
  {
    assert run[..n + 1] == run[..n] + [run[n]];
    FinalSnoc(key, start, run[..n], run[n]);
  }

  /** After n ordered requests both stores are the same. */
  predicate SameAt(start: Db, s: State, n: nat) {
    n <= |s.order| && StoreAt(start, s.order, n) == Final(s.key, start, Visits(s.order)[..n])
  }

  lemma SameStep(start: Db, s: State, n: nat)
    requires Dispatched(s) && n < |s.order| && SameAt(start, s, n)
    ensures SameAt(start, s, n + 1)
  {
    StoreStep(start, s, n);
    FinalStep(s.key, start, Visits(s.order), n);
  }

  lemma {:induction false} Chain(holds: nat -> bool, n: nat)
    requires holds(0) && forall k: nat | k < n && holds(k) :: holds(k + 1)
    ensures holds(n)
  {
    if n > 0 {
      Chain(holds, n - 1);
    }
  }

  lemma SameStart(start: Db, s: State)
    ensures SameAt(start, s, 0)
  {
    assert Visits(s.order)[..0] == [];
  }

  predicate SaysSame(same: nat -> bool, start: Db, s: State, k: nat) {
    same(k) == SameAt(start, s, k)
  }

  lemma ChainSame(same: nat -> bool, start: Db, s: State, n: nat)
    requires Dispatched(s) && n <= |s.order| && (forall k: nat :: SaysSame(same, start, s, k)) && same(0)
    ensures same(n)
  {
    forall k: nat | k < n && same(k)
      ensures same(k + 1)
    {
      assert SaysSame(same, start, s, k) && SaysSame(same, start, s, k + 1);
      SameStep(start, s, k);
    }
    Chain(same, n);
  }

  lemma StoreAtIsFinal(start: Db, s: State, n: nat)
    requires Dispatched(s) && n <= |s.order|
    ensures SameAt(start, s, n)
  {
    var same := (k: nat) => SameAt(start, s, k);
    SameStart(start, s);
    ChainSame(same, start, s, n);
  }

  /** The reply `a` is the one that api_dispatch gives at its place when the requests run one at a time. */
  predicate Explains(key: string, start: Db, visits: seq<Visit>, a: Answered) {
    && a.place < |visits| && visits[a.place].req == a.req
    && var o := Dispatch(key, Final(key, start, visits[..a.place]), visits[a.place].env, a.req);
       o.error == a.error && o.sent == [a.reply]
  }

  lemma AnswerExplained(start: Db, s: State, k: nat)
    requires Kept(start, s) && k < |s.answered|
    ensures Explains(s.key, start, Visits(s.order), s.answered[k])
  {
    var a := s.answered[k];
    StoreAtIsFinal(start, s, a.place);
    DispatchIsPlan(s.key, StoreAt(start, s.order, a.place), s.order[a.place].env, a.req);
  }

  lemma StartKept(key: string, start: Db, threads: nat)
    ensures Kept(start, Start(key, start, threads))
  {
  }

  /** Linearisability: whatever the interleaving, there is one order of the requests such that every reply, the
      refusals of the key check included, is the one that api_dispatch gives when the requests run one at a time
      in that order, the store is the one that leaves, every reply has a place of its own and every place belongs to
      a reply or to a worker about to give it, and a request that ended before another began comes first. In protected mode only the authorised writes have an effect. */
  lemma Linearisable(key: string, start: Db, threads: nat, run: seq<Step>)
    requires Possible(Start(key, start, threads), run)
    ensures var s := AfterRun(Start(key, start, threads), run);
            && s.db == Final(key, start, Visits(s.order))
            && (forall k | 0 <= k < |s.answered| :: Explains(key, start, Visits(s.order), s.answered[k]))
            && (forall k, l | 0 <= k < l < |s.answered| :: s.answered[k].place != s.answered[l].place)
            && (forall n | 0 <= n < |s.order| :: Taken(s, n))
            && (forall a, b | a in s.answered && b in s.answered && a.ended <= b.began :: a.place < b.place)
            && (key != [] ==> s.db == Final(key, start, OnlyAuthorised(key, Visits(s.order))))
  {
    StartKept(key, start, threads);
    RunKeeps(start, Start(key, start, threads), run);
    var s := AfterRun(Start(key, start, threads), run);
    StoreAtIsFinal(start, s, |s.order|);
    assert Visits(s.order)[..|s.order|] == Visits(s.order);
    forall k | 0 <= k < |s.answered|
      ensures Explains(key, start, Visits(s.order), s.answered[k])
    {
      AnswerExplained(start, s, k);
    }
    RealTime(s);
    if key != [] {
      UnauthorisedHaveNoEffect(key, start, Visits(s.order));
    }
  }

  lemma RealTime(s: State)
    requires Timed(s)
    ensures forall a, b | a in s.answered && b in s.answered && a.ended <= b.began :: a.place < b.place
  {
    forall a, b | a in s.answered && b in s.answered && a.ended <= b.began
      ensures a.place < b.place
    {
      assert s.sizes[a.ended] <= s.sizes[b.began];
    }
  }

  // ---------- the order against a plain map ----------

  /** What a request means for a map: a request that is refused, malformed or hit by a failing SQLite call means nothing. */
  datatype Op = PutOp(key: string, value: string) | GetOp(key: string) | DelOp(key: string) | NoOp

  function OpOf(plan: Plan, fault: bool): Op {
    if !plan.Call? || fault then NoOp
    else
      match plan.call
      case PutCall(key, value) => PutOp(key, value)
      case GetCall(key) => GetOp(key)
      case DelCall(key) => DelOp(key)
  }

  /** Put sets, delete removes, get leaves. */
  function PlainAfter(m: map<string, string>, op: Op): map<string, string> {
    match op
    case PutOp(key, value) => m[key := value]
    case DelOp(key) => m - {key}
    case _ => m
  }

  /** The reply that shows an entry. */
  predicate Shows(key: string, value: string, error: ApiError, reply: Reply) {
    if Escapable(value) then error == Ok && reply == JsonReply(200, TwoEntries("key", Escape(key), "value", Escape(value)))
    else error == Internal && reply.ErrorReply? && reply.error == Internal
  }

  predicate Missing(error: ApiError, reply: Reply) {
    error == NotFound && reply == ErrorReply(NotFound, "key not found")
  }

  /** Put and get show the entry, get and delete of an absent key are 404, delete of a present one is 204. */
  predicate PlainAnswer(m: map<string, string>, op: Op, error: ApiError, reply: Reply) {
    match op
    case PutOp(key, value) => Shows(key, value, error, reply)
    case GetOp(key) => if key in m then Shows(key, m[key], error, reply) else Missing(error, reply)
    case DelOp(key) => if key in m then error == Ok && reply == NoContent else Missing(error, reply)
    case NoOp => error != Ok
  }

  lemma PlanIsPlain(db: Db, fault: bool, plan: Plan, key: string)
    requires GoodStore(db) && SanePlan(plan, key) && ValidKey(key)
    ensures RunPlan(db, fault, plan).db == db.(kv := PlainAfter(db.kv, OpOf(plan, fault)))
    ensures PlainAnswer(db.kv, OpOf(plan, fault), RunPlan(db, fault, plan).error, RunPlan(db, fault, plan).sent[0])
  {
    if plan.Call? && plan.call.PutCall? {
      EntryEncodes(key, plan.call.value);
    } else if plan.Call? && plan.call.GetCall? && key in db.kv {
      EntryEncodes(key, db.kv[key]);
    }
  }

  lemma PlanOfIsSane(key: string, req: Request)
    requires AboutKey(req)
    ensures ValidKey(RouteOf(req.path).key) && SanePlan(PlanOf(key, req), RouteOf(req.path).key)
  {
    RouteKeyValid(req.path);
    Planned(req, RouteOf(req.path).key);
  }

  lemma RouteKeyValid(path: string)
    requires RouteOf(path).KvKey?
    ensures ValidKey(RouteOf(path).key)
  {
  }

  /** The map after the first n ordered requests. */
  function PlainAt(m: map<string, string>, order: seq<Entry>, n: nat): map<string, string>
    requires n <= |order|
  {
    if n == 0 then m else PlainAfter(PlainAt(m, order, n - 1), OpOf(order[n - 1].plan, order[n - 1].env.fault))
  }

  /** After n ordered requests the store is good, its map is the plain one, and the rest is as it was. */
  ghost predicate PlainSame(start: Db, s: State, n: nat) {
    && n <= |s.order| && GoodStore(StoreAt(start, s.order, n))
    && StoreAt(start, s.order, n) == start.(kv := PlainAt(start.kv, s.order, n))
  }

  lemma PlainNext(start: Db, s: State, n: nat)
    requires Dispatched(s) && n < |s.order| && PlainSame(start, s, n)
    ensures PlainSame(start, s, n + 1)
  {
    PlainStep(s, StoreAt(start, s.order, n), s.order[n]);
  }

  ghost predicate SaysPlain(same: nat -> bool, start: Db, s: State, k: nat) {
    same(k) == PlainSame(start, s, k)
  }

  lemma ChainPlain(same: nat -> bool, start: Db, s: State, n: nat)
    requires Dispatched(s) && n <= |s.order| && (forall k: nat :: SaysPlain(same, start, s, k)) && same(0)
    ensures same(n)
  {
    forall k: nat | k < n && same(k)
      ensures same(k + 1)
    {
      assert SaysPlain(same, start, s, k) && SaysPlain(same, start, s, k + 1);
      PlainNext(start, s, k);
    }
    Chain(same, n);
  }

  lemma StoreAtIsPlain(start: Db, s: State, n: nat)
    requires Dispatched(s) && GoodStore(start) && n <= |s.order|
    ensures PlainSame(start, s, n)
  {
    ghost var same := (k: nat) => PlainSame(start, s, k);
    assert PlainSame(start, s, 0);
    ChainPlain(same, start, s, n);
  }

  lemma PlainStep(s: State, db: Db, e: Entry)
    requires AboutKey(e.req) && e.plan == PlanOf(s.key, e.req) && GoodStore(db)
    ensures GoodStore(RunPlan(db, e.env.fault, e.plan).db)
    ensures RunPlan(db, e.env.fault, e.plan).db == db.(kv := PlainAfter(db.kv, OpOf(e.plan, e.env.fault)))
  {
    PlanOfIsSane(s.key, e.req);
    PlanIsPlain(db, e.env.fault, e.plan, RouteOf(e.req.path).key);
    KvKeepsGood(db, e.env.fault, e.plan, RouteOf(e.req.path).key);
  }

  /** The answer is the one of the plain map at its place. */
  predicate PlainlyExplained(m: map<string, string>, order: seq<Entry>, a: Answered) {
    && a.place < |order| && order[a.place].req == a.req
    && PlainAnswer(PlainAt(m, order, a.place), OpOf(order[a.place].plan, order[a.place].env.fault), a.error, a.reply)
  }

  lemma AnswerIsPlain(start: Db, s: State, k: nat)
    requires Kept(start, s) && GoodStore(start) && k < |s.answered|
    ensures PlainlyExplained(start.kv, s.order, s.answered[k])
  {
    var a := s.answered[k];
    var e := s.order[a.place];
    StoreAtIsPlain(start, s, a.place);
    PlanOfIsSane(s.key, e.req);
    PlanIsPlain(StoreAt(start, s.order, a.place), e.env.fault, e.plan, RouteOf(e.req.path).key);
  }

  /** The same order against a plain map: from any good store, every reply of every interleaving is the one that a map
      gives on which put sets, get reads and delete removes, one request at a time; the store's map is the one that
      leaves, and nothing else in the store changes. */
  lemma LinearisableAsMap(key: string, start: Db, threads: nat, run: seq<Step>)
    requires Possible(Start(key, start, threads), run) && GoodStore(start)
    ensures var s := AfterRun(Start(key, start, threads), run);
            && s.db == start.(kv := PlainAt(start.kv, s.order, |s.order|))
            && (forall k | 0 <= k < |s.answered| :: PlainlyExplained(start.kv, s.order, s.answered[k]))
  {
    StartKept(key, start, threads);
    RunKeeps(start, Start(key, start, threads), run);
    var s := AfterRun(Start(key, start, threads), run);
    StoreAtIsPlain(start, s, |s.order|);
    forall k | 0 <= k < |s.answered|
      ensures PlainlyExplained(start.kv, s.order, s.answered[k])
    {
      AnswerIsPlain(start, s, k);
    }
  }
}
