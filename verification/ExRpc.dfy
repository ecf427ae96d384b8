/**
 The in-process synchronous call (src/observer/ob_ex_rpc.cpp): the caller waits on a futex word inside a context on
 its own stack while a worker runs the operation.

 One calling thread makes any number of calls one after another, each with its context at the same stack
 address, so a late wake meant for an earlier call can hit the wait of a later one.
 */
module ExRpc {

  /** What operation number `n` returns. */
  type Ops = nat -> int

  datatype Caller = Idle | Looping | AboutToWait | Sleeping | Leaving

  /** ExRpcProcessor::run, by what it has done so far. */
  datatype Worker = Queued | HasRun | StoredRet | StoredDone

  /** `ret` and `done` are the context of call `n`, alive while the caller is not idle. `ran` are the
      operations that ran, `returned` the results of finished calls, `refused` the calls that were
      never dispatched. `corrupt` is set by a write to a context that is not alive. */
  datatype State = State(
    n: nat, caller: Caller, ret: int, done: bool, workers: map<nat, Worker>,
    ran: set<nat>, returned: map<nat, int>, refused: set<nat>, corrupt: bool)

  datatype Step =
    | Call(dispatched: bool)
    | Run(m: nat) | StoreRet(m: nat) | StoreDone(m: nat) | Wake(m: nat)
    | Load | Wait | SpuriousWake | Return

  predicate AliveFor(s: State, m: nat) {
    s.caller != Idle && s.n == m
  }

  predicate At(s: State, m: nat, w: Worker) {
    m in s.workers && s.workers[m] == w
  }

  /** A step that is not enabled leaves the state as it is. */
  function Next(s: State, step: Step, ops: Ops): State {
    match step
    case Call(dispatched) =>
      if s.caller != Idle then s
      else if !dispatched then s.(n := s.n + 1, refused := s.refused + {s.n + 1})
      else s.(n := s.n + 1, caller := Looping, ret := 0, done := false, workers := s.workers[s.n + 1 := Queued])
    case Run(m) => if At(s, m, Queued) then s.(workers := s.workers[m := HasRun], ran := s.ran + {m}) else s
    case StoreRet(m) =>
      if !At(s, m, HasRun) then s
      else if AliveFor(s, m) then s.(workers := s.workers[m := StoredRet], ret := ops(m))
      else s.(workers := s.workers[m := StoredRet], corrupt := true)
    case StoreDone(m) =>
      if !At(s, m, StoredRet) then s
      else if AliveFor(s, m) then s.(workers := s.workers[m := StoredDone], done := true)
      else s.(workers := s.workers[m := StoredDone], corrupt := true)
    case Wake(m) =>
      if At(s, m, StoredDone) then
        s.(workers := s.workers - {m}, caller := if s.caller == Sleeping then Looping else s.caller)
      else s
    case Load => if s.caller == Looping then s.(caller := if s.done then Leaving else AboutToWait) else s
    case Wait => if s.caller == AboutToWait then s.(caller := if s.done then Looping else Sleeping) else s
    case SpuriousWake => if s.caller == Sleeping then s.(caller := Looping) else s
    case Return => if s.caller == Leaving then s.(caller := Idle, returned := s.returned[s.n := s.ret]) else s
  }

  const START: State := State(0, Idle, 0, false, map[], {}, map[], {}, false)

  /** Workers of finished calls have nothing left but their wake. */
  ghost predicate LateOk(s: State) {
    forall m :: m in s.workers ==> m <= s.n && (AliveFor(s, m) || s.workers[m] == StoredDone)
  }

  /** The context of the call under way. */
  ghost predicate ContextOk(s: State, ops: Ops) {
    s.caller != Idle ==>
      && (!s.done <==> s.n in s.workers && s.workers[s.n] != StoredDone)
      && (At(s, s.n, HasRun) || At(s, s.n, StoredRet) ==> s.n in s.ran)
      && (At(s, s.n, StoredRet) ==> s.ret == ops(s.n))
      && (s.done ==> s.n in s.ran && s.ret == ops(s.n))
      && (s.caller == Leaving ==> s.done)
  }

  /** A sleeper whose work is done has its wake still to come. */
  ghost predicate NoLostWake(s: State) {
    s.caller == Sleeping && s.done ==> At(s, s.n, StoredDone)
  }

  ghost predicate ReturnsOk(s: State, ops: Ops) {
    forall m :: m in s.returned ==> m in s.ran && s.returned[m] == ops(m)
  }

  ghost predicate Inv(s: State, ops: Ops) {
    !s.corrupt && LateOk(s) && ContextOk(s, ops) && NoLostWake(s) && ReturnsOk(s, ops)
  }

  lemma NextKeepsInv(s: State, step: Step, ops: Ops)
    requires Inv(s, ops)
    ensures Inv(Next(s, step, ops), ops)
  {
  }

  ghost function RunAll(s: State, steps: seq<Step>, ops: Ops): State
    decreases |steps|
  {
    if steps == [] then s else RunAll(Next(s, steps[0], ops), steps[1..], ops)
  }

  lemma {:induction false} RunKeepsInv(s: State, steps: seq<Step>, ops: Ops)
    requires Inv(s, ops)
    ensures Inv(RunAll(s, steps, ops), ops)
    decreases |steps|
  {
    hide Next, Inv;
    if steps != [] {
      NextKeepsInv(s, steps[0], ops);
      RunKeepsInv(Next(s, steps[0], ops), steps[1..], ops);
    }
  }

  /** In every interleaving of any number of calls: a call that returned did so after its operation ran and
      with exactly its result; no worker touches a context that is not alive; a sleeping
      caller whose operation is done still has its wake to come. */
  lemma Handshake(steps: seq<Step>, ops: Ops)
    ensures var s := RunAll(START, steps, ops);
            && !s.corrupt
            && (forall m :: m in s.returned ==> m in s.ran && s.returned[m] == ops(m))
            && (s.caller == Sleeping && s.done ==> At(s, s.n, StoredDone))
  {
    RunKeepsInv(START, steps, ops);
  }

  // ---------------------------------------------------------------- progress

  function WorkLeft(w: Worker): nat {
    match w
    case Queued => 4
    case HasRun => 3
    case StoredRet => 2
    case StoredDone => 1
  }

  ghost function TotalWork(workers: map<nat, Worker>): nat
    decreases |workers|
  {
    if workers == map[] then 0
    else var m :| m in workers; WorkLeft(workers[m]) + TotalWork(workers - {m})
  }

  lemma {:induction false} WorkOf(workers: map<nat, Worker>, m: nat)
    requires m in workers
    ensures TotalWork(workers) == WorkLeft(workers[m]) + TotalWork(workers - {m})
    decreases |workers|
  {
    var k :| k in workers && TotalWork(workers) == WorkLeft(workers[k]) + TotalWork(workers - {k});
    if k != m {
      WorkOf(workers - {k}, m);
      WorkOf(workers - {m}, k);
      assert workers - {k} - {m} == workers - {m} - {k};
    }
  }

  function CallerLeft(c: Caller, done: bool): nat {
    match c
    case Idle => 0
    case Leaving => 1
    case Looping => if done then 2 else 5
    case AboutToWait => if done then 3 else 4
    case Sleeping => 3
  }

  /** A bound on the steps left before the caller returns, as long as wakes are not spurious. */
  ghost function StepsLeft(s: State): nat {
    6 * TotalWork(s.workers) + CallerLeft(s.caller, s.done)
  }

  lemma MovesOn(workers: map<nat, Worker>, m: nat, w: Worker)
    requires m in workers && WorkLeft(w) < WorkLeft(workers[m])
    ensures TotalWork(workers[m := w]) < TotalWork(workers)
  {
    WorkOf(workers, m);
    WorkOf(workers[m := w], m);
    assert workers[m := w] - {m} == workers - {m};
  }

  /** Every step of a caller or worker that does anything brings the return nearer. */
  lemma StepsRunOut(s: State, step: Step, ops: Ops)
    requires Inv(s, ops) && !step.Call? && !step.SpuriousWake? && Next(s, step, ops) != s
    ensures StepsLeft(Next(s, step, ops)) < StepsLeft(s)
  {
    hide Inv;
    match step
    case Run(m) => MovesOn(s.workers, m, HasRun);
    case StoreRet(m) => MovesOn(s.workers, m, StoredRet);
    case StoreDone(m) => MovesOn(s.workers, m, StoredDone);
    case Wake(m) => WorkOf(s.workers, m);
    case _ =>
  }

  /** And while a call is under way such a step exists: the handshake cannot get stuck. */
  lemma NeverStuck(s: State, ops: Ops) returns (step: Step)
    requires Inv(s, ops) && s.caller != Idle
    ensures !step.Call? && !step.SpuriousWake? && Next(s, step, ops) != s
  {
    match s.caller
    case Looping => step := Load;
    case AboutToWait => step := Wait;
    case Leaving => step := Return;
    case Sleeping =>
      assert s.n in s.workers;
      match s.workers[s.n] {
        case Queued => step := Run(s.n);
        case HasRun => step := StoreRet(s.n);
        case StoredRet => step := StoreDone(s.n);
        case StoredDone => step := Wake(s.n);
      }
  }

  predicate Progress(s: State, step: Step, ops: Ops) {
    !step.Call? && !step.SpuriousWake? && Next(s, step, ops) != s
  }

  /** A schedule in which every step does something and none is a new call or a spurious wake. */
  ghost predicate Schedule(s: State, steps: seq<Step>, ops: Ops)
    decreases |steps|
  {
    steps != [] ==> Progress(s, steps[0], ops) && Schedule(Next(s, steps[0], ops), steps[1..], ops)
  }

  /** It cannot be extended. */
  ghost predicate Stuck(s: State, ops: Ops) {
    forall step :: !Progress(s, step, ops)
  }

  /** Such schedules are bounded from every reachable state. */
  lemma {:induction false} SchedulesEnd(s: State, steps: seq<Step>, ops: Ops)
    requires Inv(s, ops) && Schedule(s, steps, ops)
    ensures |steps| + StepsLeft(RunAll(s, steps, ops)) <= StepsLeft(s)
    decreases |steps|
  {
    hide Inv, Next, StepsLeft;
    if steps != [] {
      NextKeepsInv(s, steps[0], ops);
      StepsRunOut(s, steps[0], ops);
      SchedulesEnd(Next(s, steps[0], ops), steps[1..], ops);
    }
  }

  /** The call that was under way, or its result. */
  ghost predicate StillOrDone(s: State, n: nat, ops: Ops) {
    s.n == n && (s.caller == Idle ==> n in s.returned && s.returned[n] == ops(n))
  }

  lemma ProgressKeepsCall(s: State, step: Step, n: nat, ops: Ops)
    requires Inv(s, ops) && StillOrDone(s, n, ops) && !step.Call?
    ensures StillOrDone(Next(s, step, ops), n, ops)
  {
  }

  lemma {:induction false} ScheduleKeepsCall(s: State, steps: seq<Step>, n: nat, ops: Ops)
    requires Inv(s, ops) && StillOrDone(s, n, ops) && Schedule(s, steps, ops)
    ensures StillOrDone(RunAll(s, steps, ops), n, ops) && Inv(RunAll(s, steps, ops), ops)
    decreases |steps|
  {
    hide Inv, Next, StillOrDone;
    if steps != [] {
      NextKeepsInv(s, steps[0], ops);
      ProgressKeepsCall(s, steps[0], n, ops);
      ScheduleKeepsCall(Next(s, steps[0], ops), steps[1..], n, ops);
    }
  }

  /** So every call under way returns, from every reachable state and under every schedule: a schedule has at most
      `StepsLeft` steps, and one that cannot be extended has brought the caller back with the result of its
      operation. */
  lemma EveryCallReturns(s: State, steps: seq<Step>, ops: Ops)
    requires Inv(s, ops) && s.caller != Idle && Schedule(s, steps, ops)
    ensures |steps| <= StepsLeft(s)
    ensures Stuck(RunAll(s, steps, ops), ops) ==>
              var e := RunAll(s, steps, ops);
              e.caller == Idle && e.n == s.n && s.n in e.returned && e.returned[s.n] == ops(s.n)
  {
    hide Inv, Next;
    SchedulesEnd(s, steps, ops);
    ScheduleKeepsCall(s, steps, s.n, ops);
    var e := RunAll(s, steps, ops);
    if e.caller != Idle {
      var step := NeverStuck(e, ops);
      assert Progress(e, step, ops);
    }
  }
}
