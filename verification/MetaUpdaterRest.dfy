/**
 The tablet runtime metadata updater comes to rest. Once the tablets stop changing and reads and transactions stop
 asking for a retry, every interleaving of submitting threads and workers ends after a bounded number of steps, with
 nothing queued and no worker busy.
 */
module MetaUpdaterRest {
  import opened UniqTaskQueue
  import opened MetaTables
  import opened R = MetaUpdaterRuns

  /** Every locked task belongs to a worker that will unlock it. */
  ghost predicate Accounted(locked: set<Task>, workers: map<int, Worker>) {
    forall t :: t in locked ==> exists w :: w in workers && t in workers[w].batch
  }

  ghost predicate RestInv(s: State) {
    Inv(s) && Accounted(s.q.processing, s.workers)
  }

  lemma ReplaceAccounts(locked: set<Task>, workers: map<int, Worker>, w: int, k: Worker)
    requires Accounted(locked, workers) && w in workers && k.batch == workers[w].batch
    ensures Accounted(locked, workers[w := k])
  {
    var all := workers[w := k];
    forall t | t in locked ensures exists v :: v in all && t in all[v].batch {
      var v :| v in workers && t in workers[v].batch;
      assert t in all[v].batch;
    }
  }

  lemma NewAccounts(locked: set<Task>, workers: map<int, Worker>, w: int, k: Worker)
    requires Accounted(locked, workers) && w !in workers
    ensures Accounted(locked + Elems(k.batch), workers[w := k])
  {
    var all := workers[w := k];
    forall t | t in locked + Elems(k.batch) ensures exists v :: v in all && t in all[v].batch {
      if t in Elems(k.batch) {
        assert t in all[w].batch;
      } else {
        var v :| v in workers && t in workers[v].batch;
        assert t in all[v].batch;
      }
    }
  }

  lemma DropAccounts(locked: set<Task>, workers: map<int, Worker>, w: int)
    requires Accounted(locked, workers) && w in workers
    ensures Accounted(locked - Elems(workers[w].batch), workers - {w})
  {
    var rest := workers - {w};
    forall t | t in locked - Elems(workers[w].batch) ensures exists v :: v in rest && t in rest[v].batch {
      var v :| v in workers && t in workers[v].batch;
      assert v in rest && t in rest[v].batch;
    }
  }

  /** The step of worker `w` leaves its batch, the other workers and the locks alone. */
  ghost predicate KeepsBatch(s: State, s': State, w: int) {
    && s'.q.processing == s.q.processing
    && w in s.workers && w in s'.workers
    && s'.workers[w].batch == s.workers[w].batch
    && s'.workers == s.workers[w := s'.workers[w]]
  }

  lemma ReadKeepsBatch(s: State, w: int, answer: Answer)
    requires w in s.workers && s.workers[w].todo != []
    ensures KeepsBatch(s, ReadStep(s, w, s.workers[w], answer), w)
  {
    hide Accepts;
  }

  lemma WorkerStepKeepsBatch(s: State, step: Step)
    requires Wf(s.q) && (step.Read? || step.WriteUpdates? || step.WriteRemoves? || step.PutBack?)
    ensures Next(s, step) == s || KeepsBatch(s, Next(s, step), step.w)
  {
    hide Wf, UpsertAll, DeleteAll, Complete, ReadStep;
    match step
    case Read(w, answer) => if w in s.workers && s.workers[w].todo != [] { ReadKeepsBatch(s, w, answer); }
    case WriteUpdates(_, _) =>
    case WriteRemoves(_, _) =>
    case PutBack(_, _) =>
  }

  lemma NextKeepsAccounts(s: State, step: Step)
    requires Structure(s) && Accounted(s.q.processing, s.workers)
    ensures Accounted(Next(s, step).q.processing, Next(s, step).workers)
  {
    hide Wf, TabletTasks, WorkersOk, ReadStep, AfterTake, NextBatch, Accounted;
    var s' := Next(s, step);
    match step {
      case TakeTasks(w) =>
        if w !in s.workers && NextBatch(s.q) != [] {
          TakeMovesBatch(s.q);
          NewAccounts(s.q.processing, s.workers, w, Starting(NextBatch(s.q)));
        }
      case Finish(w) => if w in s.workers { DropAccounts(s.q.processing, s.workers, w); }
      case Create(_, _) =>
      case Drop(_) =>
      case Submit(_, _) =>
      case _ =>
        WorkerStepKeepsBatch(s, step);
        if s' != s { ReplaceAccounts(s.q.processing, s.workers, step.w, s'.workers[step.w]); }
    }
  }

  lemma NextKeepsRestInv(s: State, step: Step)
    requires RestInv(s)
    ensures RestInv(Next(s, step))
  {
    hide Wf, TabletTasks, WorkersOk, AllOwed, Accounted, Next;
    NextKeepsInv(s, step);
    NextKeepsAccounts(s, step);
  }

  lemma StartRests(s: State)
    requires Start(s)
    ensures RestInv(s)
  {
    StartIsInv(s);
  }

  // ---------------------------------------------------------------- the steps run out

  /** A step that does something, is no change of a tablet and no submit without one, and asks for no retry: reads tell
      the truth or fail for good, and transactions are not rolled back by the database. */
  ghost predicate Progress(s: State, step: Step)
    requires Wf(s.q)
  {
    && Next(s, step) != s
    && match step
       case Create(_, _) => false
       case Drop(_) => false
       case Submit(id, _) => id in s.unreported
       case Read(_, answer) => answer == Truth || answer == Failed
       case WriteUpdates(_, committed) => committed
       case WriteRemoves(_, result) => result != RolledBack
       case TakeTasks(_) => true
       case PutBack(_, _) => true
       case Finish(_) => true
  }

  /** The steps a worker may still cause. A half with an empty row will be put back, and each task put back is taken,
      read and written once more. */
  function WorkLeft(k: Worker): nat {
    1 + |k.rem| + 5 * |k.back| + if Complete(k.upd) then 2 * |k.todo| + |k.upd| else 7 * |k.todo| + 6 * |k.upd|
  }

  lemma SomeKey(keys: set<int>)
    ensures keys == {} || exists k :: k in keys
  {
    if forall k :: k !in keys { assert keys == {}; }
  }

  ghost function TotalWork(workers: map<int, Worker>): nat
    decreases |workers|
  {
    if workers.Keys == {} then 0
    else SomeKey(workers.Keys); var w :| w in workers; WorkLeft(workers[w]) + TotalWork(workers - {w})
  }

  lemma {:induction false} WorkOf(workers: map<int, Worker>, w: int)
    requires w in workers
    ensures TotalWork(workers) == WorkLeft(workers[w]) + TotalWork(workers - {w})
    decreases |workers|
  {
    hide WorkLeft;
    var k :| k in workers && TotalWork(workers) == WorkLeft(workers[k]) + TotalWork(workers - {k});
    if k != w {
      WorkOf(workers - {k}, w);
      WorkOf(workers - {w}, k);
      assert workers - {k} - {w} == workers - {w} - {k};
    }
  }

  lemma WorkOfNew(workers: map<int, Worker>, w: int, k: Worker)
    requires w !in workers
    ensures TotalWork(workers[w := k]) == WorkLeft(k) + TotalWork(workers)
  {
    WorkOf(workers[w := k], w);
    assert workers[w := k] - {w} == workers;
  }

  lemma WorkOfReplaced(workers: map<int, Worker>, w: int, k: Worker)
    requires w in workers
    ensures TotalWork(workers[w := k]) - WorkLeft(k) == TotalWork(workers) - WorkLeft(workers[w])
  {
    WorkOf(workers, w);
    WorkOf(workers[w := k], w);
    assert workers[w := k] - {w} == workers - {w};
  }

  /** A bound on the steps that are left. */
  ghost function StepsLeft(s: State): nat {
    5 * |s.unreported| + 4 * |s.q.waiting| + TotalWork(s.workers)
  }

  lemma AddWaits(q: Queue, t: Task, groupOk: bool)
    ensures |AfterAdd(q, t, groupOk).waiting| <= |q.waiting| + 1
  {
  }

  lemma TakeRunsOut(s: State, w: int)
    requires Structure(s) && Progress(s, TakeTasks(w))
    ensures StepsLeft(Next(s, TakeTasks(w))) < StepsLeft(s)
  {
    hide Wf, TabletTasks, WorkersOk, AfterTake, NextBatch, TotalWork;
    var b := NextBatch(s.q);
    TakeMovesBatch(s.q);
    DistinctCardinality(b);
    WorkOfNew(s.workers, w, Starting(b));
    assert |s.q.waiting - Elems(b)| == |s.q.waiting| - |Elems(b)|;
  }

  /** Reading one task. */
  lemma ReadRunsOut(s: State, w: int, answer: Answer)
    requires Wf(s.q) && Progress(s, Read(w, answer))
    ensures StepsLeft(Next(s, Read(w, answer))) < StepsLeft(s)
  {
    hide Wf, TotalWork, Complete;
    var s', k := Next(s, Read(w, answer)), s.workers[w];
    var id := k.todo[0];
    if id in s.live { AppendRow(k.upd, Row(id, s.live[id]), id); }
    assert Complete([]) by { EmptyIsComplete(); }
    WorkOfReplaced(s.workers, w, s'.workers[w]);
  }

  lemma EmptyIsComplete()
    ensures Complete([])
  {
  }

  lemma WriteRunsOut(s: State, step: Step)
    requires Wf(s.q) && Progress(s, step) && (step.WriteUpdates? || step.WriteRemoves?)
    ensures StepsLeft(Next(s, step)) < StepsLeft(s)
  {
    hide Wf, TotalWork, Complete, UpsertAll, DeleteAll;
    EmptyIsComplete();
    WorkOfReplaced(s.workers, step.w, Next(s, step).workers[step.w]);
  }

  lemma PutBackRunsOut(s: State, w: int, groupOk: bool)
    requires Wf(s.q) && Progress(s, PutBack(w, groupOk))
    ensures StepsLeft(Next(s, PutBack(w, groupOk))) < StepsLeft(s)
  {
    hide Wf, TotalWork, Complete, AfterAdd;
    var k := s.workers[w];
    AddWaits(s.q, TaskOf(k.back[0]), groupOk);
    WorkOfReplaced(s.workers, w, k.(back := k.back[1..]));
  }

  lemma SubmitRunsOut(s: State, id: int, groupOk: bool)
    requires Wf(s.q) && Progress(s, Submit(id, groupOk))
    ensures StepsLeft(Next(s, Submit(id, groupOk))) < StepsLeft(s)
  {
    hide Wf, TotalWork, AfterAdd;
    AddWaits(s.q, TaskOf(id), groupOk);
    assert |s.unreported - {id}| == |s.unreported| - 1;
  }

  /** Every step of progress leaves fewer. */
  lemma StepsRunOut(s: State, step: Step)
    requires Structure(s) && Progress(s, step)
    ensures StepsLeft(Next(s, step)) < StepsLeft(s)
  {
    hide Wf, TabletTasks, WorkersOk, TotalWork, WorkLeft, Next;
    match step {
      case Submit(id, groupOk) => SubmitRunsOut(s, id, groupOk);
      case TakeTasks(w) => TakeRunsOut(s, w);
      case Read(w, answer) => ReadRunsOut(s, w, answer);
      case WriteUpdates(_, _) => WriteRunsOut(s, step);
      case WriteRemoves(_, _) => WriteRunsOut(s, step);
      case PutBack(w, groupOk) => PutBackRunsOut(s, w, groupOk);
      case Finish(w) => FinishRunsOut(s, w);
    }
  }

  lemma FinishRunsOut(s: State, w: int)
    requires Wf(s.q) && Progress(s, Finish(w))
    ensures StepsLeft(Next(s, Finish(w))) < StepsLeft(s)
  {
    hide Wf, TotalWork, Complete;
    WorkOf(s.workers, w);
  }

  // ---------------------------------------------------------------- and until then there is one

  /** With no lock left, the task at the head of the picked group can be taken. */
  lemma UnlockedIsTaken(q: Queue)
    requires Wf(q) && q.waiting != {} && q.processing == {}
    ensures NextBatch(q) != []
  {
    RingEmptyIffNoneWaits(q);
    TakeFromPicked(q);
    RingHasList(q, NextIndex(q));
  }

  lemma WorkerMovesOn(s: State, w: int) returns (step: Step)
    requires Wf(s.q) && w in s.workers
    ensures Progress(s, step)
  {
    hide Wf, UpsertAll, DeleteAll, AfterAdd, Complete;
    var k := s.workers[w];
    step := if k.back != [] then PutBack(w, true)
            else if k.todo != [] then Read(w, Truth)
            else if k.upd != [] then WriteUpdates(w, true)
            else if k.rem != [] then WriteRemoves(w, Committed)
            else Finish(w);
    assert w in Next(s, step).workers ==> Next(s, step).workers[w] != k;
  }

  /** The updater cannot get stuck before it is idle. */
  lemma NeverStuck(s: State) returns (step: Step)
    requires RestInv(s) && !Idle(s)
    ensures Progress(s, step)
  {
    hide Wf, TabletTasks, WorkersOk, AllOwed, AfterTake, NextBatch, AfterAdd;
    if s.unreported != {} {
      SomeKey(s.unreported);
      var id :| id in s.unreported;
      step := Submit(id, true);
      assert id !in Next(s, step).unreported;
    } else if s.workers.Keys != {} {
      SomeKey(s.workers.Keys);
      var w :| w in s.workers;
      step := WorkerMovesOn(s, w);
    } else {
      UnlockedIsTaken(s.q);
      step := TakeTasks(0);
      assert 0 in Next(s, step).workers;
    }
  }

  // ---------------------------------------------------------------- rest

  ghost predicate Schedule(s: State, steps: seq<Step>)
    requires Structure(s)
    decreases |steps|
  {
    NextKeepsStructureOf(s, steps);
    steps != [] ==> Progress(s, steps[0]) && Schedule(Next(s, steps[0]), steps[1..])
  }

  lemma NextKeepsStructureOf(s: State, steps: seq<Step>)
    requires Structure(s)
    ensures steps != [] ==> Structure(Next(s, steps[0]))
  {
    if steps != [] { NextKeepsStructure(s, steps[0]); }
  }

  /** It cannot be extended. */
  ghost predicate Stuck(s: State)
    requires Wf(s.q)
  {
    forall step :: !Progress(s, step)
  }

  lemma {:induction false} SchedulesEnd(s: State, steps: seq<Step>)
    requires RestInv(s) && Schedule(s, steps)
    ensures RestInv(R.Run(s, steps)) && |steps| + StepsLeft(R.Run(s, steps)) <= StepsLeft(s)
    decreases |steps|
  {
    hide Wf, TabletTasks, WorkersOk, AllOwed, Accounted, Next, Progress, StepsLeft;
    if steps != [] {
      NextKeepsRestInv(s, steps[0]);
      StepsRunOut(s, steps[0]);
      SchedulesEnd(Next(s, steps[0]), steps[1..]);
    }
  }

  /** From every state a run can reach, every schedule without changes and retries has at most `StepsLeft` steps, and
      one that cannot be extended has brought the updater to rest with every tracked tablet persisted as it is that
      was not given up. */
  lemma RestIsReached(s: State, before: seq<Step>, steps: seq<Step>)
    requires Start(s)
    ensures Structure(s)
    ensures var r := R.Run(s, before);
            Schedule(r, steps) ==>
              var e := R.Run(r, steps);
              && |steps| <= StepsLeft(r)
              && (Stuck(e) ==> Idle(e) && forall id :: Tracked(id) && id !in e.excused ==> Right(e, id))
  {
    hide Wf, TabletTasks, WorkersOk, Accounted, Next, Progress, StepsLeft, R.Run, Schedule, Tracked, Right;
    StartRests(s);
    RunKeepsRestInv(s, before);
    var r := R.Run(s, before);
    if Schedule(r, steps) {
      SchedulesEnd(r, steps);
      var e := R.Run(r, steps);
      if Stuck(e) {
        if !Idle(e) {
          var step := NeverStuck(e);
          assert false;
        }
        forall id | Tracked(id) && id !in e.excused ensures Right(e, id) { assert Owed(e, id); }
      }
    }
  }

  lemma {:induction false} RunKeepsRestInv(s: State, steps: seq<Step>)
    requires RestInv(s)
    ensures RestInv(R.Run(s, steps))
    decreases |steps|
  {
    hide Wf, TabletTasks, WorkersOk, AllOwed, Accounted, Next;
    if steps != [] {
      NextKeepsRestInv(s, steps[0]);
      RunKeepsRestInv(Next(s, steps[0]), steps[1..]);
    }
  }

  // ---------------------------------------------------------------- and nothing is given up on the way

  /** The step reports no error that loses a task: its add is accepted, its read does not fail for good, and a removal
      finds the database's pool. */
  predicate Lossless(s: State, step: Step) {
    match step
    case Submit(id, groupOk) => Tracked(id) ==> Accepts(s.q, id, groupOk)
    case Read(w, answer) =>
      w in s.workers && s.workers[w].todo != [] ==>
        answer != Failed && (answer.Again? ==> Accepts(s.q, s.workers[w].todo[0], answer.groupOk))
    case WriteRemoves(_, result) => result != NoPool
    case PutBack(w, groupOk) => w in s.workers && s.workers[w].back != [] ==> Accepts(s.q, s.workers[w].back[0], groupOk)
    case _ => true
  }

  ghost predicate AllLossless(s: State, steps: seq<Step>)
    requires Structure(s)
    decreases |steps|
  {
    NextKeepsStructureOf(s, steps);
    steps != [] ==> Lossless(s, steps[0]) && AllLossless(Next(s, steps[0]), steps[1..])
  }

  lemma LosslessKeeps(s: State, step: Step)
    requires Wf(s.q) && Lossless(s, step)
    ensures Next(s, step).excused <= s.excused
  {
    hide Wf, UpsertAll, DeleteAll, Complete, Tracked, AfterTake, NextBatch;
  }

  lemma {:induction false} LosslessRun(s: State, steps: seq<Step>)
    requires Structure(s) && AllLossless(s, steps)
    ensures R.Run(s, steps).excused <= s.excused
    decreases |steps|
  {
    hide Wf, TabletTasks, WorkersOk, Next, Lossless;
    if steps != [] {
      NextKeepsStructure(s, steps[0]);
      LosslessKeeps(s, steps[0]);
      LosslessRun(Next(s, steps[0]), steps[1..]);
    }
  }

  /** So a server that starts with nothing given up and never refuses an add, fails a read for good or misses the pool
      has, at rest, every tracked tablet persisted as it is. */
  lemma LosslessRest(s: State, before: seq<Step>, steps: seq<Step>)
    requires Start(s) && s.excused == {}
    ensures Structure(s)
    ensures var r := R.Run(s, before);
            AllLossless(s, before) && Schedule(r, steps) && AllLossless(r, steps) && Stuck(R.Run(r, steps)) ==>
              forall id :: Tracked(id) ==> Right(R.Run(r, steps), id)
  {
    hide Wf, TabletTasks, WorkersOk, Accounted, Next, Progress, StepsLeft, R.Run, Schedule, Tracked, Right, AllLossless;
    RestIsReached(s, before, steps);
    var r := R.Run(s, before);
    if AllLossless(s, before) && Schedule(r, steps) && AllLossless(r, steps) && Stuck(R.Run(r, steps)) {
      LosslessRun(s, before);
      LosslessRun(r, steps);
    }
  }
}
