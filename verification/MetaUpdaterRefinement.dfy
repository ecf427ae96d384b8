/**
 The code of batch_process_tasks, run by one worker, is a run of the interleaved model:
 its reads, commits and put-backs are steps of MetaUpdaterRuns and reach the same
 tables and the same queue. Tablets may be created, changed and dropped by other threads
 between any two reads; their submits and other workers come in only in the runs.
 */
module MetaUpdaterRefinement {
  import opened UniqTaskQueue
  import opened MetaTables
  import M = MetaUpdater
  import opened R = MetaUpdaterRuns

  function ToAnswer(a: M.ReadAnswer, groupOk: bool): R.Answer {
    match a
    case Filled(_) => Truth
    case Absent => Truth
    case Unready => R.Unready
    case Busy => Again(groupOk)
    case NotReady => Truth
    case Broken(_) => Failed
  }

  // ---------------------------------------------------------------- other threads

  predicate IsChange(step: Step) {
    step.Create? || step.Drop?
  }

  /** What other threads do just before each read. */
  predicate AllChanges(changes: seq<seq<Step>>) {
    forall i, j :: 0 <= i < |changes| && 0 <= j < |changes[i]| ==> IsChange(changes[i][j])
  }

  function Changed(live: map<int, TabletState>, cs: seq<Step>): map<int, TabletState>
    decreases |cs|
  {
    if cs == [] then live
    else
      var l := match cs[0] case Create(id, state) => live[id := state] case Drop(id) => live - {id} case _ => live;
      Changed(l, cs[1..])
  }

  /** The tablets when read number `i` takes place. */
  function LiveAt(live: map<int, TabletState>, changes: seq<seq<Step>>, i: nat): map<int, TabletState>
    requires i <= |changes|
  {
    if i == 0 then live else Changed(LiveAt(live, changes, i - 1), changes[i - 1])
  }

  lemma {:induction false} ChangesMatch(e: State, cs: seq<Step>)
    requires Structure(e) && forall j :: 0 <= j < |cs| ==> IsChange(cs[j])
    ensures var e' := R.Run(e, cs);
            e'.tables == e.tables && e'.q == e.q && e'.workers == e.workers && e'.live == Changed(e.live, cs)
    decreases |cs|
  {
    hide Wf, TabletTasks, WorkersOk;
    if cs != [] {
      assert IsChange(cs[0]);
      NextKeepsStructure(e, cs[0]);
      ChangesMatch(Next(e, cs[0]), cs[1..]);
    }
  }

  /** Each answer says what the tablet is at the time of its read, and is one that fill_tablet_runtime_info gives:
      it never returns OB_SERVER_RUNTIME_NOT_READY. */
  ghost predicate Truthful(live: map<int, TabletState>, batch: seq<int>, answers: seq<M.ReadAnswer>, changes: seq<seq<Step>>)
    requires |answers| == |batch| == |changes|
  {
    forall i :: 0 <= i < |batch| ==> Tells(LiveAt(live, changes, i + 1), batch[i], answers[i])
  }

  ghost predicate Tells(live: map<int, TabletState>, id: int, a: M.ReadAnswer) {
    && (a.Filled? ==> id in live && live[id] == a.state)
    && (a.Absent? ==> id !in live)
    && !a.NotReady?
  }

  ghost predicate Same(e: State, tables: Tables, q: Queue) {
    e.tables == tables && e.q == q
  }

  ghost predicate Working(e: State, w: int, todo: seq<int>, upd: seq<Row>, rem: seq<int>, back: seq<int>) {
    && w in e.workers
    && e.workers[w] == Worker(e.workers[w].batch, todo, upd, rem, back)
  }

  lemma {:induction false} RunAppend(s: State, a: seq<Step>, b: seq<Step>)
    requires Structure(s)
    ensures R.Run(s, a + b) == R.Run(R.Run(s, a), b)
    decreases |a|
  {
    hide Wf, TabletTasks, WorkersOk, Next;
    if a == [] {
      assert a + b == b;
    } else {
      NextKeepsStructure(s, a[0]);
      assert (a + b)[1..] == a[1..] + b;
      RunAppend(Next(s, a[0]), a[1..], b);
    }
  }

  lemma RunOneMore(s: State, a: seq<Step>, step: Step)
    requires Structure(s)
    ensures R.Run(s, a + [step]) == Next(R.Run(s, a), step)
  {
    RunAppend(s, a, [step]);
    RunFirst(R.Run(s, a), step, []);
    assert [step] + [] == [step];
  }

  // ---------------------------------------------------------------- reading

  /** The first `n` reads with the changes before them. */
  function Reads(w: int, batch: seq<int>, answers: seq<M.ReadAnswer>, groupOk: int -> bool,
                 changes: seq<seq<Step>>, n: nat): seq<Step>
    requires |answers| == |batch| == |changes| && n <= |batch|
  {
    if n == 0 then []
    else
      Reads(w, batch, answers, groupOk, changes, n - 1)
      + (changes[n - 1] + [Read(w, ToAnswer(answers[n - 1], groupOk(batch[n - 1])))])
  }

  lemma ReadOne(e: State, w: int, id: int, rest: seq<int>, g: M.Split, a: M.ReadAnswer, groupOk: int -> bool)
    requires Wf(e.q) && Working(e, w, [id] + rest, g.upd, g.rem, []) && e.q == g.q && g.ret == M.Success
    requires Tells(e.live, id, a)
    ensures var e', g' := Next(e, Read(w, ToAnswer(a, groupOk(id)))), M.SplitOne(g, id, a, groupOk);
            && Same(e', e.tables, g'.q) && e'.live == e.live
            && (g'.ret == M.Success ==> Working(e', w, rest, g'.upd, g'.rem, []))
            && (g'.ret != M.Success ==> Working(e', w, [], [], [], []))
  {
    hide Wf, AddAnswer;
    assert ([id] + rest)[1..] == rest && [id] + rest != [];
  }

  ghost predicate ReadSoFar(tables: Tables, live: map<int, TabletState>, e: State, w: int, todo: seq<int>, g: M.Split) {
    && Same(e, tables, g.q) && e.live == live
    && (g.ret == M.Success ==> Working(e, w, todo, g.upd, g.rem, []))
    && (g.ret != M.Success ==> Working(e, w, [], [], [], []))
  }

  /** One more read, or a step of a worker that has given its batch up. */
  lemma ReadNext(tables: Tables, e: State, w: int, id: int, rest: seq<int>, g: M.Split, a: M.ReadAnswer, groupOk: int -> bool)
    requires Wf(e.q) && ReadSoFar(tables, e.live, e, w, [id] + rest, g) && Tells(e.live, id, a)
    ensures ReadSoFar(tables, e.live, Next(e, Read(w, ToAnswer(a, groupOk(id)))), w, rest, M.SplitOne(g, id, a, groupOk))
  {
    hide Wf, AddAnswer, AfterAdd;
    if g.ret == M.Success {
      ReadOne(e, w, id, rest, g, a, groupOk);
    }
  }

  /** Changes of the tablets and then one more read. */
  lemma ChangeAndRead(tables: Tables, e: State, w: int, cs: seq<Step>, id: int, rest: seq<int>, g: M.Split,
                      a: M.ReadAnswer, groupOk: int -> bool)
    requires Structure(e) && (forall j :: 0 <= j < |cs| ==> IsChange(cs[j]))
    requires ReadSoFar(tables, e.live, e, w, [id] + rest, g) && Tells(Changed(e.live, cs), id, a)
    ensures ReadSoFar(tables, Changed(e.live, cs), R.Run(e, cs + [Read(w, ToAnswer(a, groupOk(id)))]), w, rest,
                      M.SplitOne(g, id, a, groupOk))
  {
    hide Wf, TabletTasks, WorkersOk, Next, M.SplitOne, Tells;
    ChangesMatch(e, cs);
    RunOneMore(e, cs, Read(w, ToAnswer(a, groupOk(id))));
    ReadNext(tables, R.Run(e, cs), w, id, rest, g, a, groupOk);
  }

  lemma {:induction false} ReadsMatch(s: State, w: int, batch: seq<int>, answers: seq<M.ReadAnswer>, groupOk: int -> bool,
                                      changes: seq<seq<Step>>, n: nat)
    requires Structure(s) && |answers| == |batch| == |changes| && n <= |batch| && AllChanges(changes)
    requires Working(s, w, batch, [], [], []) && Truthful(s.live, batch, answers, changes)
    ensures ReadSoFar(s.tables, LiveAt(s.live, changes, n), R.Run(s, Reads(w, batch, answers, groupOk, changes, n)), w,
                      batch[n..], M.Generate(s.q, batch[..n], answers[..n], groupOk))
  {
    hide Wf, TabletTasks, WorkersOk, Next, M.SplitOne, Tells, ReadSoFar, Changed;
    if n == 0 {
      NothingRead(s, w, batch);
      assert batch[0..] == batch;
    } else {
      var m := n - 1;
      var steps := Reads(w, batch, answers, groupOk, changes, m);
      var last := changes[m] + [Read(w, ToAnswer(answers[m], groupOk(batch[m])))];
      ReadsMatch(s, w, batch, answers, groupOk, changes, m);
      RunAppend(s, steps, last);
      assert batch[..n][..m] == batch[..m] && answers[..n][..m] == answers[..m];
      assert batch[m..] == [batch[m]] + batch[n..];
      var e, g := R.Run(s, steps), M.Generate(s.q, batch[..m], answers[..m], groupOk);
      assert e.live == LiveAt(s.live, changes, m) by { LiveSoFar(s.tables, LiveAt(s.live, changes, m), e, w, batch[m..], g); }
      ChangeAndRead(s.tables, e, w, changes[m], batch[m], batch[n..], g, answers[m], groupOk);
    }
  }

  lemma NothingRead(s: State, w: int, batch: seq<int>)
    requires Working(s, w, batch, [], [], [])
    ensures ReadSoFar(s.tables, s.live, s, w, batch, M.Split(M.Success, [], [], [], s.q))
  {
  }

  lemma LiveSoFar(tables: Tables, live: map<int, TabletState>, e: State, w: int, todo: seq<int>, g: M.Split)
    requires ReadSoFar(tables, live, e, w, todo, g)
    ensures e.live == live
  {
  }

  // ---------------------------------------------------------------- putting back

  function PutBacks(w: int, ids: seq<int>, groupOk: int -> bool): seq<Step> {
    seq(|ids|, i requires 0 <= i < |ids| => PutBack(w, groupOk(ids[i])))
  }

  lemma {:induction false} PutBacksMatch(s: State, w: int, ids: seq<int>, rem: seq<int>, groupOk: int -> bool, n: nat)
    requires Structure(s) && n <= |ids| && Working(s, w, [], [], rem, ids)
    ensures var e := R.Run(s, PutBacks(w, ids, groupOk)[..n]);
            && Same(e, s.tables, M.AddAll(s.q, ids[..n], groupOk))
            && Working(e, w, [], [], rem, ids[n..])
  {
    hide Wf, TabletTasks, WorkersOk, AddAnswer, AfterAdd;
    if n > 0 {
      var m := n - 1;
      var steps := PutBacks(w, ids, groupOk);
      PutBacksMatch(s, w, ids, rem, groupOk, m);
      assert steps[..n] == steps[..m] + [steps[m]];
      RunOneMore(s, steps[..m], steps[m]);
      assert ids[..n][..m] == ids[..m];
      assert ids[m..] != [] && ids[m..][0] == ids[m] && ids[m..][1..] == ids[n..];
    }
  }

  // ---------------------------------------------------------------- the two halves

  function UpdateSteps(w: int, upd: seq<Row>, tx: M.Tx, groupOk: int -> bool): seq<Step> {
    if |upd| == 0 then []
    else [WriteUpdates(w, tx == M.Commits)] + if tx == M.Commits && Complete(upd) then [] else PutBacks(w, Ids(upd), groupOk)
  }

  function RemoveSteps(w: int, rem: seq<int>, tx: M.Tx, groupOk: int -> bool): seq<Step> {
    if |rem| == 0 then []
    else if tx == M.Commits then [WriteRemoves(w, Committed)] + []
    else if tx == M.NoPool then [WriteRemoves(w, R.NoPool)] + []
    else [WriteRemoves(w, RolledBack)] + PutBacks(w, rem, groupOk)
  }

  lemma UpdateMatches(s: State, w: int, upd: seq<Row>, rem: seq<int>, tx: M.Tx, groupOk: int -> bool)
    requires Structure(s) && Working(s, w, [], upd, rem, [])
    ensures var e, o := R.Run(s, UpdateSteps(w, upd, tx, groupOk)), M.AfterUpdate(s.tables, s.q, upd, tx, groupOk);
            Same(e, o.tables, o.q) && Working(e, w, [], [], rem, [])
  {
    hide Wf, TabletTasks, WorkersOk, UpsertAll;
    if |upd| > 0 {
      var first := WriteUpdates(w, tx == M.Commits);
      var rest := if tx == M.Commits && Complete(upd) then [] else PutBacks(w, Ids(upd), groupOk);
      RunFirst(s, first, rest);
      if tx != M.Commits || !Complete(upd) {
        var ids := Ids(upd);
        PutBacksMatch(Next(s, first), w, ids, rem, groupOk, |ids|);
        assert rest[..|ids|] == rest && ids[..|ids|] == ids && ids[|ids|..] == [];
      }
    }
  }

  lemma RemoveMatches(s: State, w: int, rem: seq<int>, tx: M.Tx, groupOk: int -> bool)
    requires Structure(s) && Working(s, w, [], [], rem, [])
    ensures var e, o := R.Run(s, RemoveSteps(w, rem, tx, groupOk)), M.AfterRemove(s.tables, s.q, rem, tx, groupOk);
            Same(e, o.tables, o.q) && Working(e, w, [], [], [], [])
  {
    hide Wf, TabletTasks, WorkersOk, DeleteAll;
    if |rem| > 0 {
      var first := WriteRemoves(w, if tx == M.Commits then Committed else if tx == M.NoPool then R.NoPool else RolledBack);
      var rest := if tx == M.Commits || tx == M.NoPool then [] else PutBacks(w, rem, groupOk);
      RunFirst(s, first, rest);
      if tx != M.Commits && tx != M.NoPool {
        PutBacksMatch(Next(s, first), w, rem, [], groupOk, |rem|);
        assert rest[..|rem|] == rest && rem[..|rem|] == rem && rem[|rem|..] == [];
      }
    }
  }

  function BatchSteps(q: Queue, w: int, batch: seq<int>, answers: seq<M.ReadAnswer>, groupOk: int -> bool,
                      changes: seq<seq<Step>>, txUpdate: M.Tx, txRemove: M.Tx): seq<Step>
    requires |answers| == |batch| == |changes|
  {
    var g := M.Generate(q, batch, answers, groupOk);
    var steps := Reads(w, batch, answers, groupOk, changes, |batch|);
    if g.ret != M.Success then steps
    else steps + (UpdateSteps(w, g.upd, txUpdate, groupOk) + RemoveSteps(w, g.rem, txRemove, groupOk))
  }

  /** One worker's batch_process_tasks is the run `BatchSteps` of the interleaved model, whatever other threads do
      to the tablets between its reads, as long as each answer is true at the time of its read: same tables, same
      queue, and nothing left in the worker's hands. */
  lemma BatchIsARun(s: State, w: int, batch: seq<int>, answers: seq<M.ReadAnswer>, groupOk: int -> bool,
                    changes: seq<seq<Step>>, txUpdate: M.Tx, txRemove: M.Tx)
    requires Structure(s) && |answers| == |batch| == |changes| && AllChanges(changes)
    requires Working(s, w, batch, [], [], []) && Truthful(s.live, batch, answers, changes)
    ensures var e := R.Run(s, BatchSteps(s.q, w, batch, answers, groupOk, changes, txUpdate, txRemove));
            var o := M.Processed(s.tables, s.q, batch, answers, groupOk, txUpdate, txRemove);
            Same(e, o.tables, o.q) && Working(e, w, [], [], [], [])
  {
    hide Wf, TabletTasks, WorkersOk, M.Generate, Next, Truthful;
    var n, steps := |batch|, Reads(w, batch, answers, groupOk, changes, |batch|);
    var g := M.Generate(s.q, batch, answers, groupOk);
    ReadsMatch(s, w, batch, answers, groupOk, changes, n);
    assert batch[..n] == batch && answers[..n] == answers && batch[n..] == [];
    if g.ret == M.Success {
      var e := R.Run(s, steps);
      var us, rs := UpdateSteps(w, g.upd, txUpdate, groupOk), RemoveSteps(w, g.rem, txRemove, groupOk);
      RunAppend(s, steps, us + rs);
      RunAppend(e, us, rs);
      UpdateMatches(e, w, g.upd, g.rem, txUpdate, groupOk);
      RemoveMatches(R.Run(e, us), w, g.rem, txRemove, groupOk);
    }
  }
}
