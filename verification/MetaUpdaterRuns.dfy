/**
 Every interleaving of the tablet runtime metadata updater
 (src/observer/ob_tablet_runtime_meta_updater.cpp) with the rest of the server.

 Threads change tablets and then submit them; workers take batches off the
 de-duplicating queue, read each tablet again, write the two halves of the batch in one
 transaction each, put failed halves back and finally unlock the batch.
 */
module MetaUpdaterRuns {
  import opened UniqTaskQueue
  import opened MetaTables

  /** A worker inside batch_process_tasks. `todo` are the tasks not read yet, `upd` and `rem` the
      two halves not written yet, `back` the tasks of a failed half still to be put back. */
  datatype Worker = Worker(batch: seq<Task>, todo: seq<int>, upd: seq<Row>, rem: seq<int>, back: seq<int>)

  /** `unreported` are changed tablets whose submit has not run yet. `excused` are tablets whose
      task was lost on a path that reports an error. */
  datatype State = State(
    live: map<int, TabletState>, tables: Tables, q: Queue, workers: map<int, Worker>,
    unreported: set<int>, excused: set<int>)

  /** What fill_tablet_runtime_info answers: the truth, OB_EAGAIN, success without having read anything because the
      modules are not ready, or another error. */
  datatype Answer = Truth | Again(groupOk: bool) | Unready | Failed

  datatype RemoveResult = Committed | RolledBack | NoPool

  datatype Step =
    | Create(id: int, state: TabletState)
    | Drop(id: int)
    | Submit(id: int, groupOk: bool)
    | TakeTasks(w: int)
    | Read(w: int, answer: Answer)
    | WriteUpdates(w: int, committed: bool)
    | WriteRemoves(w: int, result: RemoveResult)
    | PutBack(w: int, groupOk: bool)
    | Finish(w: int)

  // ---------------------------------------------------------------- the steps

  function Keys(batch: seq<Task>): seq<int> {
    seq(|batch|, i requires 0 <= i < |batch| => batch[i].key)
  }

  /** add_task_: a duplicate counts as accepted; a refused task that does not wait anyway is lost. */
  function AddTask(s: State, id: int, groupOk: bool): State {
    var q' := AfterAdd(s.q, TaskOf(id), groupOk);
    s.(q := q', excused := if TaskOf(id) in q'.waiting then s.excused - {id} else s.excused + {id})
  }

  function Accepts(q: Queue, id: int, groupOk: bool): bool {
    AddAnswer(q, TaskOf(id), groupOk) in {Added, Duplicate}
  }

  function SetWorker(s: State, w: int, k: Worker): State {
    s.(workers := s.workers[w := k])
  }

  /** A hard error out of generate_tasks_ drops the whole batch. */
  function Abandon(s: State, w: int, k: Worker): State {
    SetWorker(s, w, k.(todo := [], upd := [], rem := []))
      .(excused := s.excused + Elems(k.todo) + Elems(Ids(k.upd)) + Elems(k.rem))
  }

  function ReadStep(s: State, w: int, k: Worker, answer: Answer): State
    requires k.todo != []
  {
    var id, k' := k.todo[0], k.(todo := k.todo[1..]);
    match answer
    case Truth =>
      if id in s.live then SetWorker(s, w, k'.(upd := k.upd + [Row(id, s.live[id])]))
      else SetWorker(s, w, k'.(rem := k.rem + [id]))
    case Unready => SetWorker(s, w, k'.(upd := k.upd + [EmptyRow(id)]))
    case Again(groupOk) =>
      if Accepts(s.q, id, groupOk) then SetWorker(AddTask(s, id, groupOk), w, k')
      else Abandon(s, w, k)
    case Failed => Abandon(s, w, k)
  }

  /** A worker that has just taken its batch. */
  function Starting(batch: seq<Task>): Worker {
    Worker(batch, Keys(batch), [], [], [])
  }

  /** A step that is not enabled leaves the state as it is. */
  function Next(s: State, step: Step): State
    requires Wf(s.q)
  {
    match step
    case Create(id, state) => s.(live := s.live[id := state], unreported := s.unreported + {id})
    case Drop(id) => s.(live := s.live - {id}, unreported := s.unreported + {id})
    case Submit(id, groupOk) =>
      if !Tracked(id) then s.(unreported := s.unreported - {id})
      else AddTask(s, id, groupOk).(unreported := s.unreported - {id})
    case TakeTasks(w) =>
      if w in s.workers || NextBatch(s.q) == [] then s
      else SetWorker(s, w, Starting(NextBatch(s.q))).(q := AfterTake(s.q))
    case Read(w, answer) =>
      if w in s.workers && s.workers[w].todo != [] then ReadStep(s, w, s.workers[w], answer) else s
    case WriteUpdates(w, committed) =>
      if w in s.workers && s.workers[w].todo == [] && s.workers[w].back == [] && s.workers[w].upd != [] then
        var k := s.workers[w];
        if committed && Complete(k.upd) then SetWorker(s, w, k.(upd := [])).(tables := UpsertAll(s.tables, k.upd))
        else SetWorker(s, w, k.(upd := [], back := Ids(k.upd)))
      else s
    case WriteRemoves(w, result) =>
      if w in s.workers && s.workers[w].todo == [] && s.workers[w].back == [] && s.workers[w].upd == []
         && s.workers[w].rem != [] then
        var k := s.workers[w];
        match result
        case Committed => SetWorker(s, w, k.(rem := [])).(tables := DeleteAll(s.tables, k.rem))
        case RolledBack => SetWorker(s, w, k.(rem := [], back := k.rem))
        case NoPool => SetWorker(s, w, k.(rem := [])).(excused := s.excused + Elems(k.rem))
      else s
    case PutBack(w, groupOk) =>
      if w in s.workers && s.workers[w].back != [] then
        var k := s.workers[w];
        SetWorker(AddTask(s, k.back[0], groupOk), w, k.(back := k.back[1..]))
      else s
    case Finish(w) =>
      if w in s.workers && s.workers[w].todo == [] && s.workers[w].back == []
         && s.workers[w].upd == [] && s.workers[w].rem == [] then
        s.(q := AfterUnlock(s.q, s.workers[w].batch), workers := s.workers - {w})
      else s
  }

  // ---------------------------------------------------------------- the invariant

  ghost predicate Waiting(s: State, id: int) {
    TaskOf(id) in s.q.waiting
  }

  /** Someone still has to queue the tablet, has queued it, or has been told that it was lost. */
  ghost predicate Covered(s: State, id: int) {
    Waiting(s, id) || id in s.unreported || id in s.excused
  }

  /** The persisted copy equals the tablet: both rows, or neither when it is gone. */
  ghost predicate Right(s: State, id: int) {
    if id in s.live then Stores(s.tables, id, s.live[id]) else HasNo(s.tables, id)
  }

  ghost predicate Holds(k: Worker, id: int) {
    id in k.todo || id in k.back || id in k.rem || HasRow(k.upd, id)
  }

  /** A worker is going to read `id`, to write it, or to put it back. */
  ghost predicate Pending(s: State, id: int) {
    exists w :: w in s.workers && Holds(s.workers[w], id)
  }

  /** What the worker is about to write of `id` is what the tablet is now; a half with an empty row is never written. */
  ghost predicate Fresh(live: map<int, TabletState>, k: Worker, id: int) {
    && (HasRow(k.upd, id) && Complete(k.upd) ==> id in live && RowsSay(k.upd, id, live[id]))
    && (id in k.rem ==> id !in live)
  }

  ghost predicate NoStale(s: State, id: int) {
    forall w :: w in s.workers ==> Fresh(s.live, s.workers[w], id)
  }

  ghost predicate Owed(s: State, id: int) {
    Covered(s, id) || (NoStale(s, id) && (Right(s, id) || Pending(s, id)))
  }

  ghost predicate AllOwed(s: State) {
    forall id :: Tracked(id) ==> Owed(s, id)
  }

  /** Workers hold only tablets of their own batch, and batches are locked and disjoint. */
  ghost predicate WorkerOk(k: Worker, locked: set<Task>) {
    && (forall t :: t in k.batch ==> t in locked)
    && (forall id :: Holds(k, id) ==> TaskOf(id) in k.batch)
  }

  ghost predicate WorkersOk(workers: map<int, Worker>, locked: set<Task>) {
    && (forall w :: w in workers ==> WorkerOk(workers[w], locked))
    && (forall w, v, t :: w in workers && v in workers && w != v && t in workers[w].batch ==> t !in workers[v].batch)
  }

  /** Every waiting task names a tablet by its own group. */
  ghost predicate TabletTasks(waiting: set<Task>) {
    forall t :: t in waiting ==> t == TaskOf(t.key)
  }

  ghost predicate Structure(s: State) {
    Wf(s.q) && TabletTasks(s.q.waiting) && WorkersOk(s.workers, s.q.processing)
  }

  ghost predicate Inv(s: State) {
    Structure(s) && AllOwed(s)
  }

  // ---------------------------------------------------------------- structure is kept

  lemma AppendRow(rows: seq<Row>, row: Row, id: int)
    ensures HasRow(rows + [row], id) <==> HasRow(rows, id) || row.id == id
    ensures forall st :: RowsSay(rows + [row], id, st) <==> RowsSay(rows, id, st) && (row.id == id ==> row == Row(id, st))
    ensures Complete(rows + [row]) <==> Complete(rows) && row.Row?
  {
    var all := rows + [row];
    assert all[|rows|] == row;
    assert forall i :: 0 <= i < |rows| ==> all[i] == rows[i];
    if HasRow(rows, id) { var i :| 0 <= i < |rows| && rows[i].id == id; assert all[i].id == id; }
    if HasRow(all, id) && row.id != id { var i :| 0 <= i < |all| && all[i].id == id; assert rows[i].id == id; }
    forall st | RowsSay(all, id, st) ensures RowsSay(rows, id, st) && (row.id == id ==> row == Row(id, st)) {
      forall i | 0 <= i < |rows| && rows[i].id == id ensures rows[i] == Row(id, st) { assert all[i] == rows[i]; }
    }
    if Complete(all) { forall i | 0 <= i < |rows| ensures rows[i].Row? { assert all[i].Row?; } }
  }

  lemma IdsHaveRows(rows: seq<Row>, id: int)
    ensures id in Ids(rows) <==> HasRow(rows, id)
  {
    var ids := Ids(rows);
    if id in ids { var i :| 0 <= i < |ids| && ids[i] == id; assert rows[i].id == id; }
    if HasRow(rows, id) { var i :| 0 <= i < |rows| && rows[i].id == id; assert ids[i] == id; }
  }

  lemma KeysAreBatch(batch: seq<Task>, id: int)
    requires forall t :: t in batch ==> t == TaskOf(t.key)
    ensures id in Keys(batch) <==> TaskOf(id) in batch
  {
    var keys := Keys(batch);
    if id in keys { var i :| 0 <= i < |keys| && keys[i] == id; assert batch[i] == TaskOf(id); }
    if TaskOf(id) in batch { var i :| 0 <= i < |batch| && batch[i] == TaskOf(id); assert keys[i] == id; }
  }

  lemma ReplaceWorker(workers: map<int, Worker>, locked: set<Task>, w: int, k: Worker)
    requires WorkersOk(workers, locked) && w in workers && k.batch == workers[w].batch
    requires forall id :: Holds(k, id) ==> Holds(workers[w], id)
    ensures WorkersOk(workers[w := k], locked)
  {
    assert WorkerOk(workers[w], locked);
    assert WorkerOk(k, locked);
  }

  lemma NewWorker(workers: map<int, Worker>, locked: set<Task>, w: int, k: Worker)
    requires WorkersOk(workers, locked) && w !in workers
    requires Elems(k.batch) !! locked && WorkerOk(k, Elems(k.batch))
    ensures WorkersOk(workers[w := k], locked + Elems(k.batch))
  {
    var all, locked' := workers[w := k], locked + Elems(k.batch);
    forall v | v in all ensures WorkerOk(all[v], locked') {
      if v != w { assert WorkerOk(workers[v], locked); }
    }
    forall v | v in workers ensures forall t :: t in workers[v].batch ==> t !in k.batch {
      assert WorkerOk(workers[v], locked);
      forall t | t in workers[v].batch ensures t !in k.batch { assert t !in Elems(k.batch); }
    }
  }

  lemma DropWorker(workers: map<int, Worker>, locked: set<Task>, w: int)
    requires WorkersOk(workers, locked) && w in workers
    ensures WorkersOk(workers - {w}, locked - Elems(workers[w].batch))
  {
    forall v | v in workers - {w} ensures WorkerOk(workers[v], locked - Elems(workers[w].batch)) {
      assert WorkerOk(workers[v], locked);
    }
  }

  lemma AddTaskKeepsStructure(s: State, id: int, groupOk: bool)
    requires Structure(s)
    ensures Structure(AddTask(s, id, groupOk))
  {
    AddKeepsWf(s.q, TaskOf(id), groupOk);
  }

  lemma WorkerStepKeepsStructure(s: State, w: int, k: Worker)
    requires Structure(s) && w in s.workers && k.batch == s.workers[w].batch
    requires forall id :: Holds(k, id) ==> Holds(s.workers[w], id)
    ensures Structure(SetWorker(s, w, k))
  {
    ReplaceWorker(s.workers, s.q.processing, w, k);
  }

  lemma ReadKeepsStructure(s: State, w: int, answer: Answer)
    requires Structure(s) && w in s.workers && s.workers[w].todo != []
    ensures Structure(ReadStep(s, w, s.workers[w], answer))
  {
    var k := s.workers[w];
    var id, k' := k.todo[0], k.(todo := k.todo[1..]);
    match answer
    case Truth =>
      if id in s.live {
        var row := Row(id, s.live[id]);
        forall x | Holds(k'.(upd := k.upd + [row]), x) ensures Holds(k, x) { AppendRow(k.upd, row, x); }
        WorkerStepKeepsStructure(s, w, k'.(upd := k.upd + [row]));
      } else {
        WorkerStepKeepsStructure(s, w, k'.(rem := k.rem + [id]));
      }
    case Unready =>
      forall x | Holds(k'.(upd := k.upd + [EmptyRow(id)]), x) ensures Holds(k, x) { AppendRow(k.upd, EmptyRow(id), x); }
      WorkerStepKeepsStructure(s, w, k'.(upd := k.upd + [EmptyRow(id)]));
    case Again(groupOk) =>
      AddTaskKeepsStructure(s, id, groupOk);
      WorkerStepKeepsStructure(AddTask(s, id, groupOk), w, k');
      WorkerStepKeepsStructure(s, w, k.(todo := [], upd := [], rem := []));
    case Failed => WorkerStepKeepsStructure(s, w, k.(todo := [], upd := [], rem := []));
  }

  lemma StartingOk(batch: seq<Task>, waiting: set<Task>)
    requires TabletTasks(waiting) && Elems(batch) <= waiting
    ensures WorkerOk(Starting(batch), Elems(batch))
    ensures forall id :: Holds(Starting(batch), id) <==> TaskOf(id) in batch
  {
    forall t | t in batch ensures t == TaskOf(t.key) { assert t in Elems(batch); }
    forall id ensures Holds(Starting(batch), id) <==> TaskOf(id) in batch { KeysAreBatch(batch, id); }
  }

  lemma TakeKeepsWorkersOk(q: Queue, workers: map<int, Worker>, w: int)
    requires Wf(q) && TabletTasks(q.waiting) && WorkersOk(workers, q.processing) && w !in workers
    ensures TabletTasks(AfterTake(q).waiting)
    ensures WorkersOk(workers[w := Starting(NextBatch(q))], AfterTake(q).processing)
  {
    TakeMovesBatch(q);
    StartingOk(NextBatch(q), q.waiting);
    NewWorker(workers, q.processing, w, Starting(NextBatch(q)));
  }

  lemma TakeKeepsStructure(s: State, w: int)
    requires Structure(s) && w !in s.workers && NextBatch(s.q) != []
    ensures Structure(Next(s, TakeTasks(w)))
  {
    hide Wf, AfterTake, TabletTasks, WorkersOk;
    TakeKeepsWf(s.q);
    TakeKeepsWorkersOk(s.q, s.workers, w);
  }

  lemma WriteUpdatesKeepsStructure(s: State, w: int, committed: bool)
    requires Structure(s)
    ensures Structure(Next(s, WriteUpdates(w, committed)))
  {
    hide Wf, TabletTasks, WorkersOk, UpsertAll;
    if w in s.workers {
      var k := s.workers[w];
      forall x | Holds(k.(upd := [], back := Ids(k.upd)), x) && k.back == [] ensures Holds(k, x) { IdsHaveRows(k.upd, x); }
      WorkerStepKeepsStructure(s, w, k.(upd := []));
      if k.back == [] { WorkerStepKeepsStructure(s, w, k.(upd := [], back := Ids(k.upd))); }
    }
  }

  lemma WriteRemovesKeepsStructure(s: State, w: int, result: RemoveResult)
    requires Structure(s)
    ensures Structure(Next(s, WriteRemoves(w, result)))
  {
    hide Wf, TabletTasks, WorkersOk, DeleteAll;
    if w in s.workers {
      var k := s.workers[w];
      WorkerStepKeepsStructure(s, w, k.(rem := []));
      if k.back == [] { WorkerStepKeepsStructure(s, w, k.(rem := [], back := k.rem)); }
    }
  }

  lemma PutBackKeepsStructure(s: State, w: int, groupOk: bool)
    requires Structure(s)
    ensures Structure(Next(s, PutBack(w, groupOk)))
  {
    hide Wf, TabletTasks, WorkersOk;
    if w in s.workers && s.workers[w].back != [] {
      var k := s.workers[w];
      AddTaskKeepsStructure(s, k.back[0], groupOk);
      WorkerStepKeepsStructure(AddTask(s, k.back[0], groupOk), w, k.(back := k.back[1..]));
    }
  }

  lemma FinishKeepsStructure(s: State, w: int)
    requires Structure(s)
    ensures Structure(Next(s, Finish(w)))
  {
    hide RingOk, ListsOk, WaitingOk, TabletTasks, WorkersOk;
    if w in s.workers { DropWorker(s.workers, s.q.processing, w); }
  }

  lemma NextKeepsStructure(s: State, step: Step)
    requires Structure(s)
    ensures Structure(Next(s, step))
  {
    hide Wf, TabletTasks, WorkersOk, ReadStep, AfterTake, NextBatch;
    match step
    case Create(_, _) =>
    case Drop(_) =>
    case Submit(id, groupOk) => AddTaskKeepsStructure(s, id, groupOk);
    case TakeTasks(w) => if w !in s.workers && NextBatch(s.q) != [] { TakeKeepsStructure(s, w); }
    case Read(w, answer) => if w in s.workers && s.workers[w].todo != [] { ReadKeepsStructure(s, w, answer); }
    case WriteUpdates(w, committed) => WriteUpdatesKeepsStructure(s, w, committed);
    case WriteRemoves(w, result) => WriteRemovesKeepsStructure(s, w, result);
    case PutBack(w, groupOk) => PutBackKeepsStructure(s, w, groupOk);
    case Finish(w) => FinishKeepsStructure(s, w);
  }

  // ---------------------------------------------------------------- nothing is forgotten

  /** Steps of one worker: `id` stays owed when the worker's new state keeps what it holds of
      `id`, has made it right, or somebody else answers for it now. */
  lemma WorkerStepOwes(s: State, s': State, w: int, id: int)
    requires w in s.workers && w in s'.workers && s'.workers == s.workers[w := s'.workers[w]]
    requires s'.live == s.live && Owed(s, id)
    requires Covered(s, id) ==> Covered(s', id)
    requires !Covered(s', id) && Fresh(s.live, s.workers[w], id) ==>
      && Fresh(s.live, s'.workers[w], id)
      && (Right(s, id) ==> Right(s', id))
      && (Holds(s.workers[w], id) ==> Holds(s'.workers[w], id) || Right(s', id))
    ensures Owed(s', id)
  {
    if !Covered(s', id) {
      assert NoStale(s, id) && Fresh(s.live, s.workers[w], id);
      if !Right(s', id) {
        var v :| v in s.workers && Holds(s.workers[v], id);
        assert Holds(s'.workers[v], id);
      }
    }
  }

  lemma AddTaskCovers(s: State, id: int, groupOk: bool, x: int)
    ensures Covered(s, x) ==> Covered(AddTask(s, id, groupOk), x)
    ensures Covered(AddTask(s, id, groupOk), id)
  {
    hide AddAnswer;
  }

  lemma ChangeOwes(s: State, step: Step, x: int)
    requires Structure(s) && Owed(s, x) && (step.Create? || step.Drop?)
    ensures Owed(Next(s, step), x)
  {
    hide Wf, WorkersOk;
    var s' := Next(s, step);
    if x != step.id && !Covered(s, x) {
      forall w | w in s'.workers ensures Fresh(s'.live, s'.workers[w], x) {
        assert Fresh(s.live, s.workers[w], x);
      }
      if !Right(s, x) {
        var w :| w in s.workers && Holds(s.workers[w], x);
        assert Holds(s'.workers[w], x);
      }
    }
  }

  lemma SubmitOwes(s: State, id: int, groupOk: bool, x: int)
    requires Structure(s) && Owed(s, x) && Tracked(x)
    ensures Owed(Next(s, Submit(id, groupOk)), x)
  {
    hide Wf, WorkersOk, AfterAdd;
    AddTaskCovers(s, id, groupOk, x);
    var s' := Next(s, Submit(id, groupOk));
    if !Covered(s', x) && !Right(s, x) {
      var w :| w in s.workers && Holds(s.workers[w], x);
      assert Holds(s'.workers[w], x);
    }
  }

  lemma TakeOwes(s: State, w: int, x: int)
    requires Structure(s) && Owed(s, x) && w !in s.workers && NextBatch(s.q) != []
    ensures Owed(Next(s, TakeTasks(w)), x)
  {
    hide Wf, AfterTake, NextBatch;
    var b, s' := NextBatch(s.q), Next(s, TakeTasks(w));
    TakeMovesBatch(s.q);
    StartingOk(b, s.q.waiting);
    if !Covered(s', x) {
      forall v | v in s'.workers ensures Fresh(s'.live, s'.workers[v], x) {
        if v != w {
          assert WorkerOk(s.workers[v], s.q.processing);
          if Holds(s.workers[v], x) { assert TaskOf(x) in s.q.processing && TaskOf(x) !in Elems(b); }
        }
      }
      if TaskOf(x) in b {
        assert Holds(s'.workers[w], x);
      } else if !Right(s, x) {
        var v :| v in s.workers && Holds(s.workers[v], x);
        assert Holds(s'.workers[v], x);
      }
    }
  }

  lemma ReadOwes(s: State, w: int, answer: Answer, x: int)
    requires Structure(s) && Owed(s, x) && w in s.workers && s.workers[w].todo != []
    ensures Owed(ReadStep(s, w, s.workers[w], answer), x)
  {
    hide Wf, WorkersOk, AfterAdd, AddAnswer;
    var k, s' := s.workers[w], ReadStep(s, w, s.workers[w], answer);
    var id := k.todo[0];
    match answer {
      case Truth => if id in s.live { AppendRow(k.upd, Row(id, s.live[id]), x); }
      case Unready => AppendRow(k.upd, EmptyRow(id), x);
      case Again(groupOk) => AddTaskCovers(s, id, groupOk, x); IdsHaveRows(k.upd, x);
      case Failed => IdsHaveRows(k.upd, x);
    }
    WorkerStepOwes(s, s', w, x);
  }

  lemma WriteUpdatesOwes(s: State, w: int, committed: bool, x: int)
    requires Structure(s) && Owed(s, x)
    ensures Owed(Next(s, WriteUpdates(w, committed)), x)
  {
    hide Wf, WorkersOk, UpsertAll;
    var s' := Next(s, WriteUpdates(w, committed));
    if s' != s {
      var k := s.workers[w];
      IdsHaveRows(k.upd, x);
      if committed && Complete(k.upd) && Fresh(s.live, k, x) {
        if HasRow(k.upd, x) { UpsertAllStores(s.tables, k.upd, x, s.live[x]); }
        else { UpsertAllStores(s.tables, k.upd, x, TabletState(0, 0)); }
      }
      WorkerStepOwes(s, s', w, x);
    }
  }

  lemma WriteRemovesOwes(s: State, w: int, result: RemoveResult, x: int)
    requires Structure(s) && Owed(s, x)
    ensures Owed(Next(s, WriteRemoves(w, result)), x)
  {
    hide Wf, WorkersOk;
    var s' := Next(s, WriteRemoves(w, result));
    if s' != s { WorkerStepOwes(s, s', w, x); }
  }

  lemma PutBackOwes(s: State, w: int, groupOk: bool, x: int)
    requires Structure(s) && Owed(s, x)
    ensures Owed(Next(s, PutBack(w, groupOk)), x)
  {
    hide Wf, WorkersOk, AfterAdd;
    var s' := Next(s, PutBack(w, groupOk));
    if w in s.workers && s.workers[w].back != [] {
      AddTaskCovers(s, s.workers[w].back[0], groupOk, x);
      WorkerStepOwes(s, s', w, x);
    }
  }

  lemma FinishOwes(s: State, w: int, x: int)
    requires Structure(s) && Owed(s, x)
    ensures Owed(Next(s, Finish(w)), x)
  {
    hide Wf, WorkersOk;
    var s' := Next(s, Finish(w));
    if s' != s && !Covered(s', x) && !Right(s, x) {
      var v :| v in s.workers && Holds(s.workers[v], x);
      assert Holds(s'.workers[v], x);
    }
  }

  /** Every step keeps every tracked tablet owed. */
  lemma NextKeepsInv(s: State, step: Step)
    requires Inv(s)
    ensures Inv(Next(s, step))
  {
    hide Wf, WorkersOk, TabletTasks, Owed, Tracked;
    NextKeepsStructure(s, step);
    forall x | Tracked(x) ensures Owed(Next(s, step), x) {
      assert Owed(s, x);
      match step
      case Create(_, _) => ChangeOwes(s, step, x);
      case Drop(_) => ChangeOwes(s, step, x);
      case Submit(id, groupOk) => SubmitOwes(s, id, groupOk, x);
      case TakeTasks(w) => if Next(s, step) != s { TakeOwes(s, w, x); }
      case Read(w, answer) => if Next(s, step) != s { ReadOwes(s, w, answer, x); }
      case WriteUpdates(w, committed) => WriteUpdatesOwes(s, w, committed, x);
      case WriteRemoves(w, result) => WriteRemovesOwes(s, w, result, x);
      case PutBack(w, groupOk) => PutBackOwes(s, w, groupOk, x);
      case Finish(w) => FinishOwes(s, w, x);
    }
  }

  ghost function Run(s: State, steps: seq<Step>): State
    requires Structure(s)
    ensures Structure(Run(s, steps))
    decreases |steps|
  {
    if steps == [] then s
    else
      NextKeepsStructure(s, steps[0]);
      Run(Next(s, steps[0]), steps[1..])
  }

  lemma {:induction false} RunKeepsInv(s: State, steps: seq<Step>)
    requires Inv(s)
    ensures Inv(Run(s, steps))
    decreases |steps|
  {
    hide Wf, TabletTasks, WorkersOk, AllOwed, Next;
    if steps != [] {
      NextKeepsInv(s, steps[0]);
      RunKeepsInv(Next(s, steps[0]), steps[1..]);
    }
  }

  /** A server start: nothing queued, no worker, every tracked tablet persisted as it is. */
  ghost predicate Start(s: State) {
    && s.q == Init(s.q.capacity, s.q.alone)
    && s.workers == map[]
    && forall id :: Tracked(id) ==> Right(s, id)
  }

  /** Nobody is about to submit, nothing waits and no worker is busy. */
  ghost predicate Idle(s: State) {
    s.unreported == {} && s.q.waiting == {} && s.workers == map[]
  }

  lemma StartIsInv(s: State)
    requires Start(s)
    ensures Inv(s)
  {
  }

  /** The persisted copy is right or a task is still owed, in every run from every start: a tracked
      tablet whose rows differ from it is about to be submitted, waits, is held by a worker,
      or was given up with an error; and whatever a worker is about to write of a tablet that
      nobody else answers for is the tablet as it is. */
  lemma PersistedOrOwed(s: State, steps: seq<Step>, id: int)
    requires Start(s) && Tracked(id)
    ensures Structure(s)
    ensures var e := Run(s, steps);
            || Covered(e, id)
            || (NoStale(e, id) && (Right(e, id) || Pending(e, id)))
  {
    StartIsInv(s);
    RunKeepsInv(s, steps);
  }

  /** When the updater comes to rest, what is persisted is what is live, for every tracked tablet that
      was not given up. */
  lemma IdleMeansPersisted(s: State, steps: seq<Step>, id: int)
    requires Start(s) && Tracked(id)
    ensures Structure(s)
    ensures var e := Run(s, steps); Idle(e) && id !in e.excused ==> Right(e, id)
  {
    PersistedOrOwed(s, steps, id);
  }

  lemma NextKeepsLockstep(s: State, step: Step)
    requires Structure(s) && Lockstep(s.tables)
    ensures Lockstep(Next(s, step).tables)
  {
    hide TabletTasks, WorkersOk, UpsertAll, DeleteAll, Lockstep;
    match step
    case WriteUpdates(w, _) => if w in s.workers { UpsertAllKeepsLockstep(s.tables, s.workers[w].upd); }
    case WriteRemoves(w, _) => if w in s.workers { DeleteAllKeepsLockstep(s.tables, s.workers[w].rem); }
    case _ =>
  }

  /** The tablet table and the checksum table have the same keys in every reachable state. */
  lemma {:induction false} TablesMoveInLockstep(s: State, steps: seq<Step>)
    requires Structure(s) && Lockstep(s.tables)
    ensures Lockstep(Run(s, steps).tables)
    decreases |steps|
  {
    hide Wf, TabletTasks, WorkersOk, Next, Lockstep;
    if steps != [] {
      NextKeepsStructure(s, steps[0]);
      NextKeepsLockstep(s, steps[0]);
      TablesMoveInLockstep(Next(s, steps[0]), steps[1..]);
    }
  }

  // ---------------------------------------------------------------- the excuses are real

  lemma RunFirst(s: State, step: Step, rest: seq<Step>)
    requires Structure(s)
    ensures Structure(Next(s, step)) && Run(s, [step] + rest) == Run(Next(s, step), rest)
  {
    NextKeepsStructure(s, step);
    assert ([step] + rest)[1..] == rest;
  }

  /** A server with nothing queued. */
  function Quiet(live: map<int, TabletState>, tables: Tables, capacity: int): State {
    State(live, tables, Init(capacity, {}), map[], {}, {})
  }

  lemma QuietStructure(s: State)
    requires s.q == Init(s.q.capacity, s.q.alone) && s.workers == map[]
    ensures Structure(s)
  {
  }

  /** Submitting to an empty queue and taking hands the worker exactly that task. */
  lemma SubmitAndTake(s: State, id: int, w: int, rest: seq<Step>)
    requires Tracked(id) && s.q == Init(1, {}) && s.workers == map[] && s.excused == {} && s.unreported <= {id}
    ensures Structure(s)
    ensures var q := s.q.(processing := {TaskOf(id)});
            var s' := State(s.live, s.tables, q, map[w := Worker([TaskOf(id)], [id], [], [], [])], {}, {});
            Structure(s') && Run(s, [Submit(id, true)] + ([TakeTasks(w)] + rest)) == Run(s', rest)
  {
    hide Wf, TabletTasks, WorkersOk, NextBatch, AfterTake, AfterAdd, Tracked;
    QuietStructure(s);
    OnlyTask(1, {}, TaskOf(id));
    RunFirst(s, Submit(id, true), [TakeTasks(w)] + rest);
    var s1 := Next(s, Submit(id, true));
    assert s1.excused == {} && s1.unreported == {};
    RunFirst(s1, TakeTasks(w), rest);
    assert Keys([TaskOf(id)]) == [id];
  }

  /** A refused add: while another tablet fills the queue of one, this one is created and not queued. The other is then
      persisted, and the updater comes to rest without this one's row. */
  lemma OverflowForgets(id: int, state: TabletState, other: int, otherState: TabletState)
    requires Tracked(id) && Tracked(other) && id != other
    ensures var s := Quiet(map[], Tables(map[], map[]), 1);
            Start(s) && Structure(s)
            && var steps := [Create(other, otherState)] + ([Submit(other, true)] + ([Create(id, state)] + ([Submit(id, true)]
                            + ([TakeTasks(0)] + ([Read(0, Truth)] + ([WriteUpdates(0, true)] + ([Finish(0)] + [])))))));
               Idle(Run(s, steps)) && Run(s, steps).excused == {id} && !Right(Run(s, steps), id)
  {
    hide Wf, TabletTasks, WorkersOk, Run, AfterTake, NextBatch, Tracked;
    var none := Tables(map[], map[]);
    var s0 := Quiet(map[], none, 1);
    var tail2 := [WriteUpdates(0, true)] + ([Finish(0)] + []);
    var tail1 := [TakeTasks(0)] + ([Read(0, Truth)] + tail2);
    QuietStructure(s0);
    RunFirst(s0, Create(other, otherState), [Submit(other, true)] + ([Create(id, state)] + ([Submit(id, true)] + tail1)));
    var s1 := Next(s0, Create(other, otherState));
    RunFirst(s1, Submit(other, true), [Create(id, state)] + ([Submit(id, true)] + tail1));
    var s2 := Next(s1, Submit(other, true));
    AddToEmpty(1, {}, TaskOf(other));
    assert s2 == State(map[other := otherState], none, Single(1, {}, TaskOf(other)), map[], {}, {});
    RunFirst(s2, Create(id, state), [Submit(id, true)] + tail1);
    var s3 := Next(s2, Create(id, state));
    RunFirst(s3, Submit(id, true), tail1);
    var live := map[other := otherState, id := state];
    var s4 := Next(s3, Submit(id, true));
    assert s4 == State(live, none, Single(1, {}, TaskOf(other)), map[], {}, {id});
    PersistOther(s4, other, otherState);
  }

  /** One worker takes the only task and persists its tablet. */
  lemma PersistOther(s: State, other: int, otherState: TabletState)
    requires Structure(s) && s.q == Single(1, {}, TaskOf(other)) && s.workers == map[] && s.unreported == {}
    requires other in s.live && s.live[other] == otherState && s.tables == Tables(map[], map[])
    ensures var e := Run(s, [TakeTasks(0)] + ([Read(0, Truth)] + ([WriteUpdates(0, true)] + ([Finish(0)] + []))));
            && Idle(e) && e.live == s.live && e.excused == s.excused
            && e.tables == Tables(map[other := otherState.info], map[other := otherState.sum])
  {
    hide Wf, TabletTasks, WorkersOk, Run, AfterTake, NextBatch;
    var none := Tables(map[], map[]);
    var end := [Finish(0)] + [];
    TakeSingle(1, {}, TaskOf(other));
    assert Keys([TaskOf(other)]) == [other];
    RunFirst(s, TakeTasks(0), [Read(0, Truth)] + ([WriteUpdates(0, true)] + end));
    var s1 := Busy(s.live, none, other, [other], [], s.excused);
    assert Next(s, TakeTasks(0)) == s1;
    RunFirst(s1, Read(0, Truth), [WriteUpdates(0, true)] + end);
    var row := Row(other, otherState);
    var s2 := s1.(workers := map[0 := Worker([TaskOf(other)], [], [row], [], [])]);
    assert Next(s1, Read(0, Truth)) == s2 by { assert [other][1..] == [] && [] + [row] == [row]; }
    RunFirst(s2, WriteUpdates(0, true), end);
    var tables := Tables(map[other := otherState.info], map[other := otherState.sum]);
    assert UpsertAll(none, [row]) == tables by {
      assert [row][..0] == [];
      assert UpsertAll(none, []) == none;
    }
    var s3 := Busy(s.live, tables, other, [], [], s.excused);
    assert Next(s2, WriteUpdates(0, true)) == s3;
    FinishRests(s3, other);
  }

  /** A server where worker 0 holds one task. */
  function Busy(live: map<int, TabletState>, tables: Tables, id: int, todo: seq<int>, rem: seq<int>, excused: set<int>): State {
    State(live, tables, Init(1, {}).(processing := {TaskOf(id)}),
          map[0 := Worker([TaskOf(id)], todo, [], rem, [])], {}, excused)
  }

  lemma FinishRests(s: State, id: int)
    requires s == Busy(s.live, s.tables, id, [], [], s.excused) && Structure(s)
    ensures var e := Run(s, [Finish(0)] + []);
            Idle(e) && e.live == s.live && e.tables == s.tables && e.excused == s.excused
  {
    RunFirst(s, Finish(0), []);
    assert Next(s, Finish(0)).workers == map[];
  }

  /** A hard error while reading: the batch is dropped and not queued again. */
  lemma ReadErrorForgets(id: int, state: TabletState)
    requires Tracked(id)
    ensures var s := Quiet(map[], Tables(map[], map[]), 1);
            Start(s) && Structure(s)
            && var steps := [Create(id, state)] + ([Submit(id, true)] + ([TakeTasks(0)] + ([Read(0, Failed)] + ([Finish(0)] + []))));
               Idle(Run(s, steps)) && Run(s, steps).excused == {id} && !Right(Run(s, steps), id)
  {
    hide Wf, TabletTasks, WorkersOk, Run;
    var none := Tables(map[], map[]);
    var s := Quiet(map[], none, 1);
    var rest := [Read(0, Failed)] + ([Finish(0)] + []);
    QuietStructure(s);
    RunFirst(s, Create(id, state), [Submit(id, true)] + ([TakeTasks(0)] + rest));
    SubmitAndTake(Next(s, Create(id, state)), id, 0, rest);
    var s2 := Busy(map[id := state], none, id, [id], [], {});
    RunFirst(s2, Read(0, Failed), [Finish(0)] + []);
    assert Next(s2, Read(0, Failed)) == Busy(s2.live, none, id, [], [], {id}) by { ReadFails(s2, id); }
    FinishRests(Busy(s2.live, none, id, [], [], {id}), id);
  }

  lemma ReadFails(s: State, id: int)
    requires s == Busy(s.live, s.tables, id, [id], [], {}) && Wf(s.q)
    ensures Next(s, Read(0, Failed)) == Busy(s.live, s.tables, id, [], [], {id})
  {
    hide Wf;
    assert {} + Elems([id]) + Elems(Ids([])) + Elems([]) == {id};
  }

  /** A removal without a metadata database pool: unlike the update half it is not put back. */
  lemma NoPoolForgets(id: int, state: TabletState)
    requires Tracked(id)
    ensures var s := Quiet(map[id := state], Tables(map[id := state.info], map[id := state.sum]), 1);
            Start(s) && Structure(s)
            && var steps := [Drop(id)] + ([Submit(id, true)] + ([TakeTasks(0)] + ([Read(0, Truth)] + ([WriteRemoves(0, NoPool)] + ([Finish(0)] + [])))));
               Idle(Run(s, steps)) && Run(s, steps).excused == {id} && !Right(Run(s, steps), id)
  {
    hide Wf, TabletTasks, WorkersOk, Run;
    var s := Quiet(map[id := state], Tables(map[id := state.info], map[id := state.sum]), 1);
    var tail := [WriteRemoves(0, NoPool)] + ([Finish(0)] + []);
    QuietStructure(s);
    RunFirst(s, Drop(id), [Submit(id, true)] + ([TakeTasks(0)] + ([Read(0, Truth)] + tail)));
    SubmitAndTake(Next(s, Drop(id)), id, 0, [Read(0, Truth)] + tail);
    var s2 := Busy(s.live - {id}, s.tables, id, [id], [], {});
    RunFirst(s2, Read(0, Truth), tail);
    var s3 := Busy(s2.live, s.tables, id, [], [id], {});
    assert Next(s2, Read(0, Truth)) == s3 by { assert [id][1..] == [] && [] + [id] == [id]; }
    RunFirst(s3, WriteRemoves(0, NoPool), [Finish(0)] + []);
    var s4 := Busy(s2.live, s.tables, id, [], [], {id});
    assert Next(s3, WriteRemoves(0, NoPool)) == s4 by { assert {} + Elems([id]) == {id}; }
    FinishRests(s4, id);
  }
}