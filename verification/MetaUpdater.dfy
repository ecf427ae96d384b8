/**
 The updater object: submitting tablets and processing one batch
 (src/observer/ob_tablet_runtime_meta_updater.cpp).

 What the environment answers is a parameter: `answers` are the answers of
 fill_tablet_runtime_info, `groupOk(id)` says whether the queue finds memory for the
 group of `id`, and a `Tx` says how far a metadata transaction gets.
 */
module MetaUpdater {
  import opened UniqTaskQueue
  import opened MetaTables

  datatype Ret =
    | Success | NotInit | InvalidArgument | CountMismatch | Again | SizeOverflow | NoMemory | DbError | ReadError(code: int)

  /** `Unready` is success without having read anything: fill_tablet_runtime_info skips its reads while the server's
      modules are not ready. generate_tasks_ also has a branch for the code OB_SERVER_RUNTIME_NOT_READY, `NotReady`. */
  datatype ReadAnswer = Filled(state: TabletState) | Unready | Busy | Absent | NotReady | Broken(code: int)

  /** The row a successful read leaves in the updating half. */
  function RowOf(id: int, read: ReadAnswer): Row {
    if read.Filled? then Row(id, read.state) else EmptyRow(id)
  }

  /** Where a transaction over both tables stops. */
  datatype Tx = NoPool | NoConnection | BeginFails | MetaFails(at: nat) | ChecksumFails(at: nat) | CommitFails | Commits

  function AddRet(a: AddResult): Ret {
    match a
    case Added => Success
    case Duplicate => Success
    case Overflow => SizeOverflow
    case GroupFailed => NoMemory
  }

  // ---------------------------------------------------------------- what a batch comes to

  /** The queue after add_task_ for each of `ids` in turn. */
  function AddAll(q: Queue, ids: seq<int>, groupOk: int -> bool): Queue {
    if |ids| == 0 then q
    else
      var id := ids[|ids| - 1];
      AfterAdd(AddAll(q, ids[..|ids| - 1], groupOk), TaskOf(id), groupOk(id))
  }

  lemma {:induction false} AddAllKeepsWf(q: Queue, ids: seq<int>, groupOk: int -> bool)
    requires Wf(q)
    ensures Wf(AddAll(q, ids, groupOk))
  {
    hide Wf, AfterAdd;
    if |ids| > 0 {
      var id, front := ids[|ids| - 1], ids[..|ids| - 1];
      AddAllKeepsWf(q, front, groupOk);
      AddKeepsWf(AddAll(q, front, groupOk), TaskOf(id), groupOk(id));
    }
  }

  /** generate_tasks_ after some prefix of the batch. */
  datatype Split = Split(ret: Ret, upd: seq<Row>, rem: seq<int>, retry: seq<int>, q: Queue)

  function SplitOne(g: Split, id: int, read: ReadAnswer, groupOk: int -> bool): Split {
    if g.ret != Success then g
    else
      match read
      case Filled(_) => g.(upd := g.upd + [RowOf(id, read)])
      case Unready => g.(upd := g.upd + [RowOf(id, read)])
      case Absent => g.(rem := g.rem + [id])
      case NotReady => g.(rem := g.rem + [id])
      case Broken(code) => g.(ret := ReadError(code))
      case Busy =>
        var q := AfterAdd(g.q, TaskOf(id), groupOk(id));
        if AddRet(AddAnswer(g.q, TaskOf(id), groupOk(id))) == Success then g.(retry := g.retry + [id], q := q)
        else g.(ret := Again, q := q)
  }

  function Generate(q: Queue, batch: seq<int>, answers: seq<ReadAnswer>, groupOk: int -> bool): Split
    requires |answers| == |batch|
  {
    var n := |batch|;
    if n == 0 then Split(Success, [], [], [], q)
    else SplitOne(Generate(q, batch[..n - 1], answers[..n - 1], groupOk), batch[n - 1], answers[n - 1], groupOk)
  }

  datatype Kind = Update | Remove | Retry | Abort

  function KindOf(read: ReadAnswer): Kind {
    match read
    case Filled(_) => Update
    case Unready => Update
    case Absent => Remove
    case NotReady => Remove
    case Busy => Retry
    case Broken(_) => Abort
  }

  /** The positions of the batch whose answer is of kind `k`, in order. */
  function Positions(answers: seq<ReadAnswer>, k: Kind): (p: seq<nat>)
    ensures forall j :: 0 <= j < |p| ==> p[j] < |answers|
  {
    var n := |answers|;
    if n == 0 then [] else Positions(answers[..n - 1], k) + if KindOf(answers[n - 1]) == k then [n - 1] else []
  }

  ghost predicate Increasing(p: seq<nat>) {
    forall i, j :: 0 <= i < j < |p| ==> p[i] < p[j]
  }

  /** The positions of a kind are increasing and are exactly the answers of that kind, so the four
      kinds cut the batch into disjoint sub-lists in batch order that cover it. */
  lemma {:induction false} PositionsPartition(answers: seq<ReadAnswer>, k: Kind)
    ensures Increasing(Positions(answers, k))
    ensures forall i: nat :: i in Positions(answers, k) <==> i < |answers| && KindOf(answers[i]) == k
  {
    var n := |answers|;
    if n != 0 {
      PositionsPartition(answers[..n - 1], k);
      var p := Positions(answers[..n - 1], k);
      forall i: nat ensures i in Positions(answers, k) <==> i < n && KindOf(answers[i]) == k {
        if i < n - 1 { assert answers[..n - 1][i] == answers[i]; }
        assert i in p + [n - 1] <==> i in p || i == n - 1;
      }
    }
  }

  function At(batch: seq<int>, p: seq<nat>): (r: seq<int>)
    requires forall j :: 0 <= j < |p| ==> p[j] < |batch|
    ensures |r| == |p| && forall j :: 0 <= j < |p| ==> r[j] == batch[p[j]]
  {
    seq(|p|, j requires 0 <= j < |p| => batch[p[j]])
  }

  function RowsAt(batch: seq<int>, answers: seq<ReadAnswer>, p: seq<nat>): (r: seq<Row>)
    requires |answers| == |batch|
    requires forall j :: 0 <= j < |p| ==> p[j] < |batch|
    ensures |r| == |p| && forall j :: 0 <= j < |p| ==> r[j] == RowOf(batch[p[j]], answers[p[j]])
  {
    seq(|p|, j requires 0 <= j < |p| => RowOf(batch[p[j]], answers[p[j]]))
  }

  /** The three output lists are the batch at the positions of their kind, and row j of the update
      list carries what was read at its position. */
  ghost predicate SplitsAt(g: Split, batch: seq<int>, answers: seq<ReadAnswer>)
    requires |answers| == |batch|
  {
    && g.upd == RowsAt(batch, answers, Positions(answers, Update))
    && g.rem == At(batch, Positions(answers, Remove))
    && g.retry == At(batch, Positions(answers, Retry))
    && Positions(answers, Abort) == []
  }

  lemma AtPrefix(batch: seq<int>, p: seq<nat>)
    requires |batch| > 0 && forall j :: 0 <= j < |p| ==> p[j] < |batch| - 1
    ensures At(batch[..|batch| - 1], p) == At(batch, p)
    ensures At(batch, p + [|batch| - 1]) == At(batch, p) + [batch[|batch| - 1]]
  {
  }

  lemma RowsAtPrefix(batch: seq<int>, answers: seq<ReadAnswer>, p: seq<nat>)
    requires |batch| == |answers| > 0
    requires forall j :: 0 <= j < |p| ==> p[j] < |batch| - 1
    ensures var n := |batch| - 1;
            && RowsAt(batch[..n], answers[..n], p) == RowsAt(batch, answers, p)
            && RowsAt(batch, answers, p + [n]) == RowsAt(batch, answers, p) + [RowOf(batch[n], answers[n])]
  {
  }

  lemma PositionsMore(answers: seq<ReadAnswer>, k: Kind)
    requires answers != []
    ensures var n := |answers| - 1;
            Positions(answers, k) == Positions(answers[..n], k) + if KindOf(answers[n]) == k then [n] else []
  {
  }

  lemma SplitOneAt(g: Split, batch: seq<int>, answers: seq<ReadAnswer>, groupOk: int -> bool)
    requires |answers| == |batch| > 0 && SplitsAt(g, batch[..|batch| - 1], answers[..|batch| - 1])
    requires SplitOne(g, batch[|batch| - 1], answers[|batch| - 1], groupOk).ret == Success
    ensures SplitsAt(SplitOne(g, batch[|batch| - 1], answers[|batch| - 1], groupOk), batch, answers)
  {
    hide AfterAdd, AddAnswer, Positions, At, RowsAt;
    var n := |batch| - 1;
    PositionsMore(answers, Update);
    PositionsMore(answers, Remove);
    PositionsMore(answers, Retry);
    PositionsMore(answers, Abort);
    RowsAtPrefix(batch, answers, Positions(answers[..n], Update));
    AtPrefix(batch, Positions(answers[..n], Remove));
    AtPrefix(batch, Positions(answers[..n], Retry));
  }

  /** A batch whose loop ends without error is partitioned into the three lists, and the tasks to retry,
      and only they, are back in the queue. */
  lemma {:induction false} GeneratePartitions(q: Queue, batch: seq<int>, answers: seq<ReadAnswer>, groupOk: int -> bool)
    requires |answers| == |batch|
    ensures var g := Generate(q, batch, answers, groupOk);
            g.ret == Success ==> SplitsAt(g, batch, answers) && g.q == AddAll(q, g.retry, groupOk)
  {
    hide AfterAdd, AddAnswer, SplitsAt;
    var n, g := |batch|, Generate(q, batch, answers, groupOk);
    if n == 0 {
      EmptySplits(q);
    } else if g.ret == Success {
      var g0 := Generate(q, batch[..n - 1], answers[..n - 1], groupOk);
      GeneratePartitions(q, batch[..n - 1], answers[..n - 1], groupOk);
      SplitOneAt(g0, batch, answers, groupOk);
      if answers[n - 1].Busy? { assert g.retry[..|g.retry| - 1] == g0.retry; }
    }
  }

  lemma EmptySplits(q: Queue)
    ensures SplitsAt(Split(Success, [], [], [], q), [], [])
  {
  }

  function Counts(g: Split): nat {
    |g.upd| + |g.rem| + |g.retry|
  }

  lemma {:induction false} CountsAddUp(q: Queue, batch: seq<int>, answers: seq<ReadAnswer>, groupOk: int -> bool)
    requires |answers| == |batch|
    ensures var g := Generate(q, batch, answers, groupOk);
            g.ret != CountMismatch && (g.ret == Success ==> Counts(g) == |batch|)
  {
    var n := |batch|;
    if n != 0 { CountsAddUp(q, batch[..n - 1], answers[..n - 1], groupOk); }
  }

  // ---------------------------------------------------------------- the two halves

  type KeyValues = seq<(int, int)>

  /** A reset row has no valid tablet id. */
  const RESET := (0, 0)

  function InfoOf(row: Row): (int, int) {
    if row.EmptyRow? then RESET else (row.id, row.state.info)
  }

  function SumOf(row: Row): (int, int) {
    if row.EmptyRow? then RESET else (row.id, row.state.sum)
  }

  function Infos(rows: seq<Row>): KeyValues {
    seq(|rows|, i requires 0 <= i < |rows| => InfoOf(rows[i]))
  }

  function Sums(rows: seq<Row>): KeyValues {
    seq(|rows|, i requires 0 <= i < |rows| => SumOf(rows[i]))
  }

  predicate ValidKeys(kvs: KeyValues) {
    forall i :: 0 <= i < |kvs| ==> ValidId(kvs[i].0)
  }

  /** The rows both tables accept are those of a half without an empty row. */
  lemma CompleteIff(rows: seq<Row>)
    requires forall i :: 0 <= i < |rows| ==> ValidId(rows[i].id)
    ensures Complete(rows) <==> ValidKeys(Infos(rows))
    ensures Complete(rows) <==> ValidKeys(Sums(rows))
  {
    var infos, sums := Infos(rows), Sums(rows);
    if ValidKeys(infos) { forall i | 0 <= i < |rows| ensures rows[i].Row? { assert ValidId(infos[i].0); } }
    if ValidKeys(sums) { forall i | 0 <= i < |rows| ensures rows[i].Row? { assert ValidId(sums[i].0); } }
  }

  function PutAll(m: map<int, int>, kvs: KeyValues): map<int, int> {
    if |kvs| == 0 then m
    else PutAll(m, kvs[..|kvs| - 1])[kvs[|kvs| - 1].0 := kvs[|kvs| - 1].1]
  }

  /** Writing the info rows to one table and the checksum rows to the other is one upsert of both. */
  lemma {:induction false} TwoTables(tables: Tables, rows: seq<Row>)
    requires Complete(rows)
    ensures UpsertAll(tables, rows) == Tables(PutAll(tables.meta, Infos(rows)), PutAll(tables.checksum, Sums(rows)))
  {
    if rows != [] {
      var front := rows[..|rows| - 1];
      TwoTables(tables, front);
      assert Infos(rows)[..|rows| - 1] == Infos(front);
      assert Sums(rows)[..|rows| - 1] == Sums(front);
    }
  }

  /** The rows in turn: one without a valid tablet id is refused. A statement that fails, or a row refused for another
      of its fields, is `failAt`. */
  method UpsertTable(m: map<int, int>, kvs: KeyValues, failAt: int) returns (ok: bool, m': map<int, int>)
    ensures ok <==> ValidKeys(kvs) && !(0 <= failAt < |kvs|)
    ensures ok ==> m' == PutAll(m, kvs)
  {
    m', ok := m, true;
    var i := 0;
    while ok && i < |kvs|
      invariant 0 <= i <= |kvs|
      invariant ok ==> m' == PutAll(m, kvs[..i]) && ValidKeys(kvs[..i]) && !(0 <= failAt < i)
      invariant !ok ==> !ValidKeys(kvs) || 0 <= failAt < |kvs|
      decreases |kvs| - i, ok
    {
      if !ValidId(kvs[i].0) || i == failAt {
        ok := false;
      } else {
        assert kvs[..i + 1][..i] == kvs[..i];
        m' := m'[kvs[i].0 := kvs[i].1];
        i := i + 1;
      }
    }
    assert ok ==> kvs[..i] == kvs;
  }

  method DeleteFromTable(m: map<int, int>, ids: seq<int>, failAt: int) returns (ok: bool, m': map<int, int>)
    ensures ok <==> !(0 <= failAt < |ids|)
    ensures ok ==> m' == map id | id in m && id !in ids :: m[id]
  {
    m', ok := m, true;
    var i := 0;
    while ok && i < |ids|
      invariant 0 <= i <= |ids|
      invariant ok ==> m' == (map id | id in m && id !in ids[..i] :: m[id]) && !(0 <= failAt < i)
      invariant !ok ==> 0 <= failAt < |ids|
      decreases |ids| - i, ok
    {
      if i == failAt {
        ok := false;
      } else {
        assert forall id :: id in ids[..i + 1] <==> id in ids[..i] || id == ids[i];
        m' := m' - {ids[i]};
        i := i + 1;
      }
    }
    assert ok ==> ids[..i] == ids;
  }

  /** What one call of batch_process_tasks leaves behind. */
  datatype Outcome = Outcome(ret: Ret, tables: Tables, q: Queue)

  function AfterUpdate(tables: Tables, q: Queue, upd: seq<Row>, tx: Tx, groupOk: int -> bool): Outcome {
    if |upd| == 0 then Outcome(Success, tables, q)
    else if tx == Commits && Complete(upd) then Outcome(Success, UpsertAll(tables, upd), q)
    else Outcome(if tx == NoPool then NotInit else DbError, tables, AddAll(q, Ids(upd), groupOk))
  }

  /** The removing half returns before its put-back when there is no pool. */
  function AfterRemove(tables: Tables, q: Queue, rem: seq<int>, tx: Tx, groupOk: int -> bool): Outcome {
    if |rem| == 0 then Outcome(Success, tables, q)
    else if tx == Commits then Outcome(Success, DeleteAll(tables, rem), q)
    else if tx == NoPool then Outcome(NotInit, tables, q)
    else Outcome(DbError, tables, AddAll(q, rem, groupOk))
  }

  /** Both halves; an error of the first outlives the second. */
  function BothHalves(tables: Tables, q: Queue, upd: seq<Row>, rem: seq<int>,
                      groupOk: int -> bool, txUpdate: Tx, txRemove: Tx): Outcome
  {
    var u := AfterUpdate(tables, q, upd, txUpdate, groupOk);
    var r := AfterRemove(u.tables, u.q, rem, txRemove, groupOk);
    r.(ret := if u.ret != Success then u.ret else r.ret)
  }

  function Processed(tables: Tables, q: Queue, batch: seq<int>, answers: seq<ReadAnswer>,
                     groupOk: int -> bool, txUpdate: Tx, txRemove: Tx): Outcome
    requires |answers| == |batch|
  {
    var g := Generate(q, batch, answers, groupOk);
    if g.ret != Success then Outcome(g.ret, tables, g.q)
    else BothHalves(tables, g.q, g.upd, g.rem, groupOk, txUpdate, txRemove)
  }

  // ---------------------------------------------------------------- no task is left behind

  /** There is room for `n` more tasks, and memory for every group. */
  ghost predicate Roomy(q: Queue, n: int, groupOk: int -> bool) {
    q.count + n <= q.capacity && forall id :: groupOk(id)
  }

  lemma AddOne(q: Queue, id: int, groupOk: int -> bool)
    requires Wf(q) && Roomy(q, 1, groupOk)
    ensures var q' := AfterAdd(q, TaskOf(id), groupOk(id));
            && TaskOf(id) in q'.waiting && q.waiting <= q'.waiting
            && q'.count <= q.count + 1 && q'.capacity == q.capacity
            && AddRet(AddAnswer(q, TaskOf(id), groupOk(id))) == Success
  {
    hide Wf;
  }

  lemma {:induction false} AddAllWait(q: Queue, ids: seq<int>, groupOk: int -> bool)
    requires Wf(q) && Roomy(q, |ids|, groupOk)
    ensures var q' := AddAll(q, ids, groupOk);
            && Wf(q') && q.waiting <= q'.waiting && q'.count <= q.count + |ids| && q'.capacity == q.capacity
    ensures forall i :: 0 <= i < |ids| ==> TaskOf(ids[i]) in AddAll(q, ids, groupOk).waiting
  {
    hide Wf, AfterAdd, AddAnswer;
    AddAllKeepsWf(q, ids, groupOk);
    var n := |ids|;
    if n > 0 {
      AddAllWait(q, ids[..n - 1], groupOk);
      AddAllKeepsWf(q, ids[..n - 1], groupOk);
      AddOne(AddAll(q, ids[..n - 1], groupOk), ids[n - 1], groupOk);
      forall i | 0 <= i < n - 1 ensures TaskOf(ids[i]) in AddAll(q, ids, groupOk).waiting {
        assert ids[..n - 1][i] == ids[i];
      }
    }
  }

  /** Tasks put back that do not wait yet line up at the end of the queue, in their order. */
  lemma {:induction false} AddAllLinesUp(q: Queue, ids: seq<int>, groupOk: int -> bool)
    requires Wf(q) && Singletons(q) && Roomy(q, |ids|, groupOk) && Distinct(ids)
    requires forall i :: 0 <= i < |ids| ==> TaskOf(ids[i]) !in q.waiting
    ensures var q' := AddAll(q, ids, groupOk);
            && Wf(q') && Singletons(q') && q'.ring == q.ring + ids
            && q'.count == q.count + |ids| && q'.capacity == q.capacity
            && forall t :: t in q'.waiting <==> t in q.waiting || (t == TaskOf(t.key) && t.key in ids)
  {
    hide Wf, Singletons, AfterAdd;
    var n := |ids|;
    if n > 0 {
      var front, last := ids[..n - 1], ids[n - 1];
      AddAllLinesUp(q, front, groupOk);
      var q' := AddAll(q, front, groupOk);
      assert last !in front && TaskOf(last) !in q'.waiting;
      AddKeepsWf(q', TaskOf(last), true);
      SingletonsAdd(q', last, true);
      OneMoreWaits(q', TaskOf(last));
      assert ids == front + [last];
      forall k ensures k in ids <==> k in front || k == last {}
    }
  }

  lemma OneMoreWaits(q: Queue, t: Task)
    requires q.count < q.capacity && t !in q.waiting
    ensures AddAnswer(q, t, true) == Added
    ensures AfterAdd(q, t, true).count == q.count + 1 && AfterAdd(q, t, true).capacity == q.capacity
  {
  }

  /** Where a task of kind `k` at position `i` ends up in the lists. */
  lemma ListedAt(g: Split, batch: seq<int>, answers: seq<ReadAnswer>, i: nat)
    requires |answers| == |batch| && i < |batch| && SplitsAt(g, batch, answers)
    ensures KindOf(answers[i]) != Abort
    ensures KindOf(answers[i]) == Update ==> exists j :: 0 <= j < |g.upd| && g.upd[j] == RowOf(batch[i], answers[i])
    ensures KindOf(answers[i]) == Remove ==> batch[i] in g.rem
    ensures KindOf(answers[i]) == Retry ==> batch[i] in g.retry
  {
    var k := KindOf(answers[i]);
    PositionsPartition(answers, k);
    PositionsPartition(answers, Abort);
    var p := Positions(answers, k);
    var j :| 0 <= j < |p| && p[j] == i;
    if k == Update { assert g.upd[j] == RowOf(batch[i], answers[i]); }
    if k == Remove { assert g.rem[j] == batch[i]; }
    if k == Retry { assert g.retry[j] == batch[i]; }
  }

  lemma OnlyOneRow(g: Split, batch: seq<int>, answers: seq<ReadAnswer>, i: nat)
    requires |answers| == |batch| && i < |batch| && SplitsAt(g, batch, answers) && Distinct(batch) && answers[i].Filled?
    ensures RowsSay(g.upd, batch[i], answers[i].state) && HasRow(g.upd, batch[i]) && batch[i] !in g.rem
  {
    ListedAt(g, batch, answers, i);
    PositionsPartition(answers, Remove);
    var p, r := Positions(answers, Update), Positions(answers, Remove);
    forall j | 0 <= j < |g.upd| && g.upd[j].id == batch[i] ensures g.upd[j] == Row(batch[i], answers[i].state) {
      assert batch[p[j]] == batch[i] && p[j] == i;
    }
    forall j | 0 <= j < |g.rem| ensures g.rem[j] != batch[i] {
      assert g.rem[j] == batch[r[j]] && r[j] in r && r[j] != i;
    }
  }

  ghost predicate Settled(o: Outcome, id: int, a: ReadAnswer) {
    || TaskOf(id) in o.q.waiting
    || (a.Filled? && Stores(o.tables, id, a.state))
    || ((a.Absent? || a.NotReady?) && HasNo(o.tables, id))
  }

  lemma HalvesKeepWaiting(tables: Tables, q: Queue, g: Split, txUpdate: Tx, txRemove: Tx, groupOk: int -> bool)
    requires Wf(q) && Roomy(q, |g.upd| + |g.rem|, groupOk)
    ensures var u := AfterUpdate(tables, q, g.upd, txUpdate, groupOk);
            var r := AfterRemove(u.tables, u.q, g.rem, txRemove, groupOk);
            && q.waiting <= u.q.waiting <= r.q.waiting
            && (txUpdate != Commits || !Complete(g.upd) ==> forall j :: 0 <= j < |g.upd| ==> TaskOf(Ids(g.upd)[j]) in u.q.waiting)
            && (txRemove != Commits && txRemove != NoPool ==> forall j :: 0 <= j < |g.rem| ==> TaskOf(g.rem[j]) in r.q.waiting)
  {
    hide Wf, AddAll;
    AddAllWait(q, Ids(g.upd), groupOk);
    var u := AfterUpdate(tables, q, g.upd, txUpdate, groupOk);
    AddAllWait(u.q, g.rem, groupOk);
  }

  lemma RetriesWait(q: Queue, g: Split, groupOk: int -> bool)
    requires Wf(q) && Roomy(q, |g.upd| + |g.rem| + |g.retry|, groupOk) && g.q == AddAll(q, g.retry, groupOk)
    ensures Wf(g.q) && Roomy(g.q, |g.upd| + |g.rem|, groupOk)
    ensures forall i :: 0 <= i < |g.retry| ==> TaskOf(g.retry[i]) in g.q.waiting
  {
    hide Wf, AddAll;
    AddAllWait(q, g.retry, groupOk);
  }

  /** When the loop ends without error, adds are accepted and a pool exists for the removing half, every
      task of a batch is persisted as it was read or waits again, whichever transaction fails. */
  lemma EveryTaskSettled(tables: Tables, q: Queue, batch: seq<int>, answers: seq<ReadAnswer>,
                         groupOk: int -> bool, txUpdate: Tx, txRemove: Tx, i: nat)
    requires |answers| == |batch| && i < |batch| && Distinct(batch) && txRemove != NoPool
    requires Wf(q) && Roomy(q, |batch|, groupOk)
    requires Generate(q, batch, answers, groupOk).ret == Success
    ensures Settled(Processed(tables, q, batch, answers, groupOk, txUpdate, txRemove), batch[i], answers[i])
  {
    hide Wf, AddAll, Generate, UpsertAll, SplitsAt, Distinct, Roomy, RowsSay;
    var g, id := Generate(q, batch, answers, groupOk), batch[i];
    GeneratePartitions(q, batch, answers, groupOk);
    CountsAddUp(q, batch, answers, groupOk);
    RetriesWait(q, g, groupOk);
    HalvesKeepWaiting(tables, g.q, g, txUpdate, txRemove, groupOk);
    ListedAt(g, batch, answers, i);
    if KindOf(answers[i]) == Update {
      var j :| 0 <= j < |g.upd| && g.upd[j] == RowOf(id, answers[i]);
      assert Ids(g.upd)[j] == id;
      if answers[i].Filled? {
        OnlyOneRow(g, batch, answers, i);
        UpsertAllStores(tables, g.upd, id, answers[i].state);
      }
    }
  }

  /** A read that succeeded without reading fails the whole updating half, although its transaction would commit: none
      of the tablets read with it is written, and all of them wait again. */
  lemma UnreadyPutsBack(tables: Tables, q: Queue, batch: seq<int>, answers: seq<ReadAnswer>,
                        groupOk: int -> bool, txUpdate: Tx, txRemove: Tx, i: nat)
    requires |answers| == |batch| && i < |batch| && answers[i].Unready?
    requires Wf(q) && Roomy(q, |batch|, groupOk)
    requires Generate(q, batch, answers, groupOk).ret == Success
    ensures var o := Processed(tables, q, batch, answers, groupOk, txUpdate, txRemove);
            && o.ret != Success
            && o.tables == (if txRemove == Commits then DeleteAll(tables, At(batch, Positions(answers, Remove))) else tables)
            && forall j :: 0 <= j < |batch| && KindOf(answers[j]) == Update ==> TaskOf(batch[j]) in o.q.waiting
  {
    hide Wf, AddAll, Generate, UpsertAll, DeleteAll, Roomy, SplitsAt, BothHalves, Complete, KindOf;
    var g := Generate(q, batch, answers, groupOk);
    GeneratePartitions(q, batch, answers, groupOk);
    CountsAddUp(q, batch, answers, groupOk);
    RetriesWait(q, g, groupOk);
    UnreadyAt(g, batch, answers, i);
    RemovedAt(g, batch, answers);
    IncompleteHalf(tables, g.q, g, groupOk, txUpdate, txRemove);
    forall j | 0 <= j < |batch| && KindOf(answers[j]) == Update ensures HasRow(g.upd, batch[j]) {
      ListedAt(g, batch, answers, j);
    }
  }

  lemma UnreadyAt(g: Split, batch: seq<int>, answers: seq<ReadAnswer>, i: nat)
    requires |answers| == |batch| && SplitsAt(g, batch, answers) && i < |batch| && answers[i].Unready?
    ensures !Complete(g.upd)
  {
    hide SplitsAt;
    ListedAt(g, batch, answers, i);
  }

  lemma RemovedAt(g: Split, batch: seq<int>, answers: seq<ReadAnswer>)
    requires |answers| == |batch| && SplitsAt(g, batch, answers)
    ensures g.rem == At(batch, Positions(answers, Remove))
  {
  }

  lemma IncompleteHalf(tables: Tables, q: Queue, g: Split, groupOk: int -> bool, txUpdate: Tx, txRemove: Tx)
    requires Wf(q) && Roomy(q, |g.upd| + |g.rem|, groupOk) && !Complete(g.upd)
    ensures var o := BothHalves(tables, q, g.upd, g.rem, groupOk, txUpdate, txRemove);
            && o.ret != Success
            && o.tables == (if txRemove == Commits then DeleteAll(tables, g.rem) else tables)
            && forall id :: HasRow(g.upd, id) ==> TaskOf(id) in o.q.waiting
  {
    hide Wf, AddAll, UpsertAll, Roomy;
    HalvesKeepWaiting(tables, q, g, txUpdate, txRemove, groupOk);
    assert g.rem == [] ==> DeleteAll(tables, g.rem) == tables;
    forall id | HasRow(g.upd, id)
      ensures TaskOf(id) in BothHalves(tables, q, g.upd, g.rem, groupOk, txUpdate, txRemove).q.waiting
    {
      var k :| 0 <= k < |g.upd| && g.upd[k].id == id;
      assert Ids(g.upd)[k] == id;
    }
  }

  // ---------------------------------------------------------------- the answer

  /** There are positions of a kind exactly if there is an answer of that kind. */
  lemma NoPositionsIff(answers: seq<ReadAnswer>, k: Kind)
    ensures Positions(answers, k) == [] <==> forall i :: 0 <= i < |answers| ==> KindOf(answers[i]) != k
  {
    PositionsPartition(answers, k);
    hide Positions;
    var p := Positions(answers, k);
    if p != [] { assert p[0] in p; }
  }

  /** The updating half has no empty row exactly if no read succeeded without reading. */
  lemma AllReadIff(g: Split, batch: seq<int>, answers: seq<ReadAnswer>)
    requires |answers| == |batch| && SplitsAt(g, batch, answers)
    ensures Complete(g.upd) <==> forall i :: 0 <= i < |answers| ==> !answers[i].Unready?
  {
    PositionsPartition(answers, Update);
    var p := Positions(answers, Update);
    assert |g.upd| == |p| && forall j :: 0 <= j < |p| ==> g.upd[j] == RowOf(batch[p[j]], answers[p[j]]);
    hide Positions, RowsAt, At, SplitsAt;
    forall j | 0 <= j < |p| ensures g.upd[j].EmptyRow? <==> answers[p[j]].Unready? { assert p[j] in p; }
    if i :| 0 <= i < |answers| && answers[i].Unready? { UnreadyAt(g, batch, answers, i); }
  }

  /** A list is empty exactly when no answer puts a task on it. */
  lemma EmptyListsIff(g: Split, batch: seq<int>, answers: seq<ReadAnswer>)
    requires |answers| == |batch| && SplitsAt(g, batch, answers)
    ensures g.upd == [] <==> forall i :: 0 <= i < |answers| ==> !answers[i].Filled? && !answers[i].Unready?
    ensures g.rem == [] <==> forall i :: 0 <= i < |answers| ==> !answers[i].Absent? && !answers[i].NotReady?
  {
    hide Positions;
    NoPositionsIff(answers, Update);
    NoPositionsIff(answers, Remove);
    forall i | 0 <= i < |answers|
      ensures KindOf(answers[i]) == Update <==> answers[i].Filled? || answers[i].Unready?
      ensures KindOf(answers[i]) == Remove <==> answers[i].Absent? || answers[i].NotReady?
    {
    }
  }

  /** The code of a batch whose loop ended without error, from the answers and the two transactions: success exactly
      if each half had nothing to do or got through, and otherwise the code of the updating half if that
      one failed, else the code of the removing half. */
  lemma BatchAnswer(tables: Tables, q: Queue, batch: seq<int>, answers: seq<ReadAnswer>,
                    groupOk: int -> bool, txUpdate: Tx, txRemove: Tx)
    requires |answers| == |batch| && Generate(q, batch, answers, groupOk).ret == Success
    ensures var ret := Processed(tables, q, batch, answers, groupOk, txUpdate, txRemove).ret;
            var updated := (forall i :: 0 <= i < |answers| ==> !answers[i].Filled? && !answers[i].Unready?)
                           || (txUpdate == Commits && forall i :: 0 <= i < |answers| ==> !answers[i].Unready?);
            var removed := (forall i :: 0 <= i < |answers| ==> !answers[i].Absent? && !answers[i].NotReady?)
                           || txRemove == Commits;
            && (ret == Success <==> updated && removed)
            && (!updated ==> ret == if txUpdate == NoPool then NotInit else DbError)
            && (updated && !removed ==> ret == if txRemove == NoPool then NotInit else DbError)
  {
    hide Generate, AddAll, UpsertAll, DeleteAll, SplitsAt, Complete;
    GeneratePartitions(q, batch, answers, groupOk);
    EmptyListsIff(Generate(q, batch, answers, groupOk), batch, answers);
    AllReadIff(Generate(q, batch, answers, groupOk), batch, answers);
  }

  /** The code of a batch whose loop broke off is that of the answer it broke off at, and the tables stay: the code of
      a read that failed for good, or OB_EAGAIN for a busy tablet that could not be queued again. */
  lemma LoopAnswer(tables: Tables, q: Queue, batch: seq<int>, answers: seq<ReadAnswer>,
                   groupOk: int -> bool, txUpdate: Tx, txRemove: Tx) returns (i: nat)
    requires |answers| == |batch| && Generate(q, batch, answers, groupOk).ret != Success
    ensures i < |batch| && Generate(q, batch[..i], answers[..i], groupOk).ret == Success
    ensures var o := Processed(tables, q, batch, answers, groupOk, txUpdate, txRemove);
            var before := Generate(q, batch[..i], answers[..i], groupOk).q;
            && o.tables == tables
            && (|| (answers[i].Broken? && o.ret == ReadError(answers[i].code))
                || (&& answers[i].Busy? && o.ret == Again
                    && AddAnswer(before, TaskOf(batch[i]), groupOk(batch[i])) in {Overflow, GroupFailed}))
  {
    hide AfterAdd, AddAnswer;
    i := |batch|;
    assert batch[..i] == batch && answers[..i] == answers;
    while i > 0 && Generate(q, batch[..i - 1], answers[..i - 1], groupOk).ret != Success
      invariant 0 <= i <= |batch| && Generate(q, batch[..i], answers[..i], groupOk).ret != Success
    {
      i := i - 1;
    }
    i := i - 1;
    StoppedGenerate(q, batch, answers, groupOk, i + 1);
    assert batch[..i + 1][..i] == batch[..i] && answers[..i + 1][..i] == answers[..i];
  }

  // ---------------------------------------------------------------- the updater object

  class Updater {
    const queue: TaskQueue
    var tables: Tables
    var inited: bool

    ghost predicate Valid()
      reads this, queue
    {
      queue.Valid()
    }

    constructor (queue: TaskQueue, tables: Tables)
      ensures this.queue == queue && this.tables == tables && inited
    {
      this.queue, this.tables, inited := queue, tables, true;
    }

    method AddTask(id: int, groupOk: int -> bool) returns (ret: Ret)
      requires Valid()
      modifies queue
      ensures Valid()
      ensures if !inited then ret == NotInit && queue.Abs() == old(queue.Abs())
              else if !ValidId(id) then ret == InvalidArgument && queue.Abs() == old(queue.Abs())
              else && ret == AddRet(AddAnswer(old(queue.Abs()), TaskOf(id), groupOk(id)))
                   && queue.Abs() == AfterAdd(old(queue.Abs()), TaskOf(id), groupOk(id))
    {
      hide Wf, AddAnswer, AfterAdd;
      if !inited {
        ret := NotInit;
      } else if !ValidId(id) {
        ret := InvalidArgument;
      } else {
        var r := queue.Add(TaskOf(id), groupOk(id));
        ret := AddRet(r);
      }
    }

    /** async_update: a reserved tablet is accepted and not queued. A tracked one waits afterwards, unless the queue is
        full or, for one that did not wait before, no group can be had. */
    method AsyncUpdate(id: int, groupOk: int -> bool) returns (ret: Ret)
      requires Valid()
      modifies queue
      ensures Valid()
      ensures !inited ==> ret == NotInit && queue.Abs() == old(queue.Abs())
      ensures inited && !ValidId(id) ==> ret == InvalidArgument && queue.Abs() == old(queue.Abs())
      ensures inited && Tracked(id) ==>
                ret == if old(queue.Abs().count >= queue.Abs().capacity) then SizeOverflow
                       else if !groupOk(id) && TaskOf(id) !in old(queue.Abs().waiting) then NoMemory
                       else Success
      ensures inited && ReservedId(id) ==> ret == Success && queue.Abs() == old(queue.Abs())
      ensures inited && Tracked(id) ==>
                && queue.Abs() == AfterAdd(old(queue.Abs()), TaskOf(id), groupOk(id))
                && (ret == Success ==> TaskOf(id) in queue.Abs().waiting)
      ensures ret == Success ==> inited && ValidId(id)
    {
      if !inited {
        ret := NotInit;
      } else if ReservedId(id) {
        ret := Success;
      } else if !ValidId(id) {
        ret := InvalidArgument;
      } else {
        ret := AddTask(id, groupOk);
      }
    }

    /** reput_to_queue_: a refused task does not stop the others, and only the last answer is returned. */
    method PutBack(tasks: seq<int>, groupOk: int -> bool) returns (ret: Ret)
      requires Valid() && inited && forall i :: 0 <= i < |tasks| ==> ValidId(tasks[i])
      modifies queue
      ensures Valid() && queue.Abs() == AddAll(old(queue.Abs()), tasks, groupOk)
    {
      hide Wf, AfterAdd, AddAnswer;
      ret := Success;
      for i := 0 to |tasks|
        invariant Valid() && queue.Abs() == AddAll(old(queue.Abs()), tasks[..i], groupOk)
      {
        assert tasks[..i + 1][..i] == tasks[..i];
        ret := AddTask(tasks[i], groupOk);
      }
      assert tasks[..|tasks|] == tasks;
    }

    method GenerateTasks(batch: seq<int>, answers: seq<ReadAnswer>, groupOk: int -> bool)
      returns (ret: Ret, updTasks: seq<int>, updInfos: KeyValues, updSums: KeyValues, remTasks: seq<int>, remInfos: seq<int>)
      requires Valid() && |answers| == |batch| && forall i :: 0 <= i < |batch| ==> ValidId(batch[i])
      modifies queue
      ensures Valid() && ret != CountMismatch
      ensures !inited ==> ret == NotInit && queue.Abs() == old(queue.Abs())
      ensures inited && batch == [] ==> ret == InvalidArgument && queue.Abs() == old(queue.Abs())
      ensures inited && batch != [] ==>
                var g := Generate(old(queue.Abs()), batch, answers, groupOk);
                && ret == g.ret && queue.Abs() == g.q
                && updTasks == Ids(g.upd) && updInfos == Infos(g.upd) && updSums == Sums(g.upd)
                && remTasks == g.rem && remInfos == g.rem
    {
      hide Wf, AddAnswer, AfterAdd;
      ret, updTasks, updInfos, updSums, remTasks, remInfos := Success, [], [], [], [], [];
      var retryCount := 0;
      if !inited {
        ret := NotInit;
      } else if |batch| == 0 {
        ret := InvalidArgument;
      } else {
        ghost var q, g := queue.Abs(), Split(Success, [], [], [], queue.Abs());
        var i := 0;
        while i < |batch| && ret == Success
          invariant 0 <= i <= |batch| && Valid()
          invariant g == Generate(q, batch[..i], answers[..i], groupOk)
          invariant ret == g.ret && queue.Abs() == g.q
          invariant updTasks == Ids(g.upd) && updInfos == Infos(g.upd) && updSums == Sums(g.upd)
          invariant remTasks == g.rem && remInfos == g.rem && retryCount == |g.retry|
        {
          var id := batch[i];
          assert batch[..i + 1][..i] == batch[..i] && answers[..i + 1][..i] == answers[..i];
          g := SplitOne(g, id, answers[i], groupOk);
          match answers[i] {
            case Filled(state) =>
              updTasks := updTasks + [id];
              updInfos := updInfos + [(id, state.info)];
              updSums := updSums + [(id, state.sum)];
            case Unready =>
              updTasks, updInfos, updSums := updTasks + [id], updInfos + [RESET], updSums + [RESET];
            case Busy =>
              var added := AddTask(id, groupOk);
              if added == Success { retryCount := retryCount + 1; } else { ret := Again; }
            case Broken(code) =>
              ret := ReadError(code);
            case Absent =>
              remTasks, remInfos := remTasks + [id], remInfos + [id];
            case NotReady =>
              remTasks, remInfos := remTasks + [id], remInfos + [id];
          }
          i := i + 1;
        }
        StoppedGenerate(q, batch, answers, groupOk, i);
        CountsAddUp(q, batch, answers, groupOk);
        if ret == Success && (|updTasks| != |updInfos| || |updTasks| != |updSums|
                              || |updTasks| + |remTasks| + retryCount != |batch|) {
          ret := CountMismatch;
        }
      }
    }

    /** do_batch_update_: both tables in one transaction, or the tasks go back to the queue. */
    method DoBatchUpdate(tasks: seq<int>, infos: KeyValues, sums: KeyValues, tx: Tx, groupOk: int -> bool)
      returns (ret: Ret)
      requires Valid() && forall i :: 0 <= i < |tasks| ==> ValidId(tasks[i])
      modifies this`tables, queue
      ensures Valid()
      ensures !inited || |tasks| != |infos| || |tasks| != |sums| ==>
                && ret == (if !inited then NotInit else InvalidArgument)
                && tables == old(tables) && queue.Abs() == old(queue.Abs())
      ensures inited && |tasks| == |infos| == |sums| ==>
                if tx == Commits && tasks != [] && ValidKeys(infos) && ValidKeys(sums) then
                  && ret == Success && queue.Abs() == old(queue.Abs())
                  && tables == Tables(PutAll(old(tables.meta), infos), PutAll(old(tables.checksum), sums))
                else
                  && ret == (if tx == NoPool then NotInit else DbError) && tables == old(tables)
                  && queue.Abs() == AddAll(old(queue.Abs()), tasks, groupOk)
    {
      hide Wf, AddAll, PutAll, ValidKeys;
      ret := Success;
      if !inited {
        ret := NotInit;
      } else if |tasks| != |infos| || |tasks| != |sums| {
        ret := InvalidArgument;
      } else {
        if tx == NoPool {
          ret := NotInit;
        } else if tx == NoConnection || tx == BeginFails || |infos| == 0 {
          ret := DbError;
        } else {
          var ok, meta := UpsertTable(tables.meta, infos, if tx.MetaFails? then tx.at else -1);
          if !ok || tx.MetaFails? {
            ret := DbError;
          } else {
            var ok, checksum := UpsertTable(tables.checksum, sums, if tx.ChecksumFails? then tx.at else -1);
            if !ok || tx.ChecksumFails? || tx == CommitFails {
              ret := DbError;
            } else {
              tables := Tables(meta, checksum);
            }
          }
        }
        if ret != Success {
          var _ := PutBack(tasks, groupOk);
        }
      }
    }

    /** do_batch_remove_: like the updating half, except that a missing pool is not followed by a put-back. */
    method DoBatchRemove(tasks: seq<int>, infos: seq<int>, tx: Tx, groupOk: int -> bool) returns (ret: Ret)
      requires Valid() && forall i :: 0 <= i < |tasks| ==> ValidId(tasks[i])
      modifies this`tables, queue
      ensures Valid()
      ensures !inited || |tasks| != |infos| || tx == NoPool ==>
                && ret == (if inited && |tasks| != |infos| then InvalidArgument else NotInit)
                && tables == old(tables) && queue.Abs() == old(queue.Abs())
      ensures inited && |tasks| == |infos| && tx != NoPool ==>
                if tx == Commits && tasks != [] then
                  ret == Success && queue.Abs() == old(queue.Abs()) && tables == DeleteAll(old(tables), infos)
                else
                  && ret == DbError && tables == old(tables)
                  && queue.Abs() == AddAll(old(queue.Abs()), tasks, groupOk)
    {
      hide Wf, AddAll;
      ret := Success;
      if !inited {
        ret := NotInit;
      } else if |tasks| != |infos| {
        ret := InvalidArgument;
      } else if tx == NoPool {
        ret := NotInit;
      } else {
        if tx == NoConnection || tx == BeginFails || |infos| == 0 {
          ret := DbError;
        } else {
          var ok, meta := DeleteFromTable(tables.meta, infos, if tx.MetaFails? then tx.at else -1);
          if !ok || tx.MetaFails? {
            ret := DbError;
          } else {
            var ok, checksum := DeleteFromTable(tables.checksum, infos, if tx.ChecksumFails? then tx.at else -1);
            if !ok || tx.ChecksumFails? || tx == CommitFails {
              ret := DbError;
            } else {
              tables := Tables(meta, checksum);
            }
          }
        }
        if ret != Success {
          var _ := PutBack(tasks, groupOk);
        }
      }
    }

    /** The updating half, skipped when there is nothing to update. */
    method UpdateHalf(ghost upd: seq<Row>, tasks: seq<int>, infos: KeyValues, sums: KeyValues, tx: Tx, groupOk: int -> bool)
      returns (ret: Ret)
      requires Valid() && inited && (forall i :: 0 <= i < |upd| ==> ValidId(upd[i].id))
      requires tasks == Ids(upd) && infos == Infos(upd) && sums == Sums(upd)
      modifies this`tables, queue
      ensures Valid()
      ensures Outcome(ret, tables, queue.Abs()) == AfterUpdate(old(tables), old(queue.Abs()), upd, tx, groupOk)
    {
      hide Wf, AddAll, PutAll, UpsertAll, ValidId, ValidKeys, Complete;
      ret := Success;
      if |tasks| > 0 {
        CompleteIff(upd);
        if Complete(upd) { TwoTables(tables, upd); }
        ret := DoBatchUpdate(tasks, infos, sums, tx, groupOk);
      }
    }

    /** The removing half, skipped when there is nothing to remove. */
    method RemoveHalf(tasks: seq<int>, infos: seq<int>, tx: Tx, groupOk: int -> bool) returns (ret: Ret)
      requires Valid() && inited && tasks == infos && (forall i :: 0 <= i < |tasks| ==> ValidId(tasks[i]))
      modifies this`tables, queue
      ensures Valid()
      ensures Outcome(ret, tables, queue.Abs()) == AfterRemove(old(tables), old(queue.Abs()), tasks, tx, groupOk)
    {
      hide Wf, AddAll, DeleteAll, ValidId;
      ret := Success;
      if |tasks| > 0 {
        ret := DoBatchRemove(tasks, infos, tx, groupOk);
      }
    }

    method BatchProcessTasks(batch: seq<int>, answers: seq<ReadAnswer>, groupOk: int -> bool, txUpdate: Tx, txRemove: Tx)
      returns (ret: Ret)
      requires Valid() && |answers| == |batch| && forall i :: 0 <= i < |batch| ==> ValidId(batch[i])
      modifies this`tables, queue
      ensures Valid()
      ensures !inited || batch == [] ==>
                && ret == (if !inited then NotInit else InvalidArgument)
                && tables == old(tables) && queue.Abs() == old(queue.Abs())
      ensures inited && batch != [] ==>
                Outcome(ret, tables, queue.Abs())
                == Processed(old(tables), old(queue.Abs()), batch, answers, groupOk, txUpdate, txRemove)
    {
      hide Wf, Generate, AfterUpdate, AfterRemove, ValidId;
      if !inited {
        ret := NotInit;
      } else if |batch| == 0 {
        ret := InvalidArgument;
      } else {
        ghost var g := Generate(queue.Abs(), batch, answers, groupOk);
        ListsAreValid(queue.Abs(), batch, answers, groupOk);
        var updTasks, updInfos, updSums, remTasks, remInfos;
        ret, updTasks, updInfos, updSums, remTasks, remInfos := GenerateTasks(batch, answers, groupOk);
        if ret == Success {
          ret := UpdateHalf(g.upd, updTasks, updInfos, updSums, txUpdate, groupOk);
          var removed := RemoveHalf(remTasks, remInfos, txRemove, groupOk);
          ret := if ret == Success then removed else ret;
        }
      }
    }
  }

  ghost predicate ListsValid(g: Split) {
    && (forall i :: 0 <= i < |g.upd| ==> ValidId(g.upd[i].id))
    && (forall i :: 0 <= i < |g.rem| ==> ValidId(g.rem[i]))
  }

  /** The lists hold only tablets of the batch. */
  lemma {:induction false} ListsAreValid(q: Queue, batch: seq<int>, answers: seq<ReadAnswer>, groupOk: int -> bool)
    requires |answers| == |batch| && forall i :: 0 <= i < |batch| ==> ValidId(batch[i])
    ensures ListsValid(Generate(q, batch, answers, groupOk))
  {
    hide AfterAdd, AddAnswer;
    var n := |batch|;
    if n > 0 {
      ListsAreValid(q, batch[..n - 1], answers[..n - 1], groupOk);
    }
  }

  /** Once an answer has stopped the loop, the rest of the batch is not looked at. */
  lemma {:induction false} StoppedGenerate(q: Queue, batch: seq<int>, answers: seq<ReadAnswer>, groupOk: int -> bool, i: nat)
    requires |answers| == |batch| && i <= |batch|
    requires i == |batch| || Generate(q, batch[..i], answers[..i], groupOk).ret != Success
    ensures Generate(q, batch[..i], answers[..i], groupOk) == Generate(q, batch, answers, groupOk)
    decreases |batch| - i
  {
    if i == |batch| {
      assert batch[..i] == batch && answers[..i] == answers;
    } else {
      assert batch[..i + 1][..i] == batch[..i] && answers[..i + 1][..i] == answers[..i];
      StoppedGenerate(q, batch, answers, groupOk, i + 1);
    }
  }
}
