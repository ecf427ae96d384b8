/**
 The de-duplicating task queue (src/observer/ob_uniq_task_queue.h).

 Tasks are grouped; the groups form a ring walked by a cursor. A task is unique
 while it waits, not while it is processed: taking a task erases it from the
 waiting set and locks it in the processing set until the whole batch is done.
 */
module UniqTaskQueue {

  /** Two tasks are the same task when group and key agree. */
  datatype Task = Task(group: int, key: int)

  /** UNIQ_TASK_QUEUE_BATCH_EXECUTE_NUM */
  const BATCH_EXECUTE_NUM: nat := 128

  /** Position of the list header in the ring; a null cursor starts there too. */
  const HEADER: int := -1

  datatype AddResult = Added | Duplicate | Overflow | GroupFailed

  /** The state guarded by the queue's condition variable. `alone` holds the groups
      whose tasks ask for need_process_alone(). */
  datatype Queue = Queue(
    ring: seq<int>, lists: map<int, seq<Task>>, cur: int,
    waiting: set<Task>, count: int, processing: set<Task>,
    capacity: int, alone: set<int>)

  ghost predicate Distinct<T>(s: seq<T>) {
    forall i, j :: 0 <= i < j < |s| ==> s[i] != s[j]
  }

  function Elems<T>(s: seq<T>): set<T> {
    set x | x in s
  }

  /** The ring names every group that has a list, once. */
  ghost predicate RingOk(ring: seq<int>, lists: map<int, seq<Task>>) {
    && Distinct(ring)
    && forall g :: g in ring <==> g in lists
  }

  ghost predicate ListOk(list: seq<Task>, g: int) {
    && list != []
    && Distinct(list)
    && forall i :: 0 <= i < |list| ==> list[i].group == g
  }

  ghost predicate ListsOk(lists: map<int, seq<Task>>) {
    forall g :: g in lists ==> ListOk(lists[g], g)
  }

  /** The waiting set holds exactly the tasks on the lists. */
  ghost predicate WaitingOk(lists: map<int, seq<Task>>, waiting: set<Task>) {
    forall t :: t in waiting <==> t.group in lists && t in lists[t.group]
  }

  /** What every reachable queue state satisfies. */
  ghost predicate Wf(q: Queue) {
    && RingOk(q.ring, q.lists)
    && ListsOk(q.lists)
    && WaitingOk(q.lists, q.waiting)
    && HEADER <= q.cur < |q.ring|
    && q.count == |q.waiting|
  }

  function Init(capacity: int, alone: set<int>): Queue {
    Queue([], map[], HEADER, {}, 0, {}, capacity, alone)
  }

  // ---------------------------------------------------------------- add

  /** The capacity is tested before the duplicate: a full queue refuses even a task it holds. */
  function AddAnswer(q: Queue, t: Task, groupOk: bool): AddResult {
    if q.count >= q.capacity then Overflow
    else if t in q.waiting then Duplicate
    else if !groupOk then GroupFailed
    else Added
  }

  function AfterAdd(q: Queue, t: Task, groupOk: bool): Queue {
    if AddAnswer(q, t, groupOk) != Added then q
    else
      var known := t.group in q.lists;
      q.(lists := q.lists[t.group := Listed(q.lists, t.group) + [t]],
         ring := if known then q.ring else q.ring + [t.group],
         waiting := q.waiting + {t}, count := q.count + 1)
  }

  function Listed(lists: map<int, seq<Task>>, g: int): seq<Task> {
    if g in lists then lists[g] else []
  }

  lemma AppendToList(lists: map<int, seq<Task>>, waiting: set<Task>, t: Task)
    requires ListsOk(lists) && WaitingOk(lists, waiting) && t !in waiting
    ensures var lists' := lists[t.group := Listed(lists, t.group) + [t]];
            ListsOk(lists') && WaitingOk(lists', waiting + {t})
  {
    var list := Listed(lists, t.group);
    var lists' := lists[t.group := list + [t]];
    assert t !in list;
    assert ListOk(list + [t], t.group) by {
      if t.group in lists { assert ListOk(list, t.group); }
    }
    forall u ensures u in waiting + {t} <==> u.group in lists' && u in lists'[u.group] {
      if u.group == t.group { assert u in list + [t] <==> u in list || u == t; }
    }
  }

  lemma AddKeepsWf(q: Queue, t: Task, groupOk: bool)
    requires Wf(q)
    ensures Wf(AfterAdd(q, t, groupOk))
    ensures AfterAdd(q, t, groupOk).processing == q.processing
    ensures AfterAdd(q, t, groupOk).waiting
         == if AddAnswer(q, t, groupOk) == Added then q.waiting + {t} else q.waiting
  {
    var q' := AfterAdd(q, t, groupOk);
    if AddAnswer(q, t, groupOk) == Added {
      AppendToList(q.lists, q.waiting, t);
      assert RingOk(q'.ring, q'.lists) by {
        forall g ensures g in q'.ring <==> g in q'.lists {
          assert g in q.ring + [t.group] <==> g in q.ring || g == t.group;
        }
      }
    }
  }

  /** A task that waits already is taken for a duplicate exactly while the queue has room; a full queue refuses
      it like any other. */
  lemma DuplicateIff(q: Queue, t: Task, groupOk: bool)
    requires t in q.waiting
    ensures AddAnswer(q, t, groupOk) == Duplicate <==> q.count < q.capacity
    ensures AddAnswer(q, t, groupOk) == Overflow <==> q.count >= q.capacity
    ensures AfterAdd(q, t, groupOk) == q
  {
  }

  lemma ElemsAppend<T>(s: seq<T>, x: T)
    ensures Elems(s + [x]) == Elems(s) + {x}
  {
    assert x in s + [x] by { assert (s + [x])[|s|] == x; }
    forall y | y in s ensures y in s + [x] {
      var i :| 0 <= i < |s| && s[i] == y;
      assert (s + [x])[i] == y;
    }
  }

  // ---------------------------------------------------------------- take

  /** get_next_group: the ring element after the cursor, wrapping over the header. */
  function NextIndex(q: Queue): (j: nat)
    requires q.ring != [] && HEADER <= q.cur < |q.ring|
    ensures j < |q.ring|
  {
    if q.cur + 1 < |q.ring| then q.cur + 1 else 0
  }

  function PickedGroup(q: Queue): int
    requires q.ring != [] && HEADER <= q.cur < |q.ring|
  {
    q.ring[NextIndex(q)]
  }

  /** The head of a group list that one worker may take: up to `room` unlocked tasks,
      one only when the group's tasks are processed alone. */
  function TakePrefix(list: seq<Task>, locked: set<Task>, alone: bool, room: nat): (b: seq<Task>)
    ensures |b| <= |list| && |b| <= room && b == list[..|b|]
    ensures forall t :: t in b ==> t !in locked
    ensures list != [] && room > 0 ==> (b == [] <==> list[0] in locked)
    ensures alone ==> |b| <= 1
    ensures !alone && |b| < |list| && |b| < room ==> list[|b|] in locked
  {
    if list == [] || room == 0 || list[0] in locked then []
    else if alone then [list[0]]
    else [list[0]] + TakePrefix(list[1..], locked, alone, room - 1)
  }

  /** The batch the next worker takes; empty when nothing waits or the picked head is locked. */
  function NextBatch(q: Queue): seq<Task>
    requires Wf(q)
  {
    if q.ring == [] then []
    else
      var g := PickedGroup(q);
      TakePrefix(q.lists[g], q.processing, g in q.alone, BATCH_EXECUTE_NUM)
  }

  /** Taking task `n` of the list after the `n` before it. */
  lemma NextToTake(list: seq<Task>, locked: set<Task>, alone: bool, n: nat)
    requires Distinct(list) && n < |list| && n < BATCH_EXECUTE_NUM
    ensures var t, rest, room := list[n], list[n..], BATCH_EXECUTE_NUM - n;
            && rest[0] == t && rest[1..] == list[n + 1..] && list[..n + 1] == list[..n] + [t]
            && Elems(list[..n + 1]) == Elems(list[..n]) + {t}
            && (t in locked + Elems(list[..n]) <==> t in locked)
            && |TakePrefix(rest, locked, alone, room)|
               == if t in locked then 0 else if alone then 1 else 1 + |TakePrefix(rest[1..], locked, alone, room - 1)|
  {
    assert list[..n + 1] == list[..n] + [list[n]];
    ElemsAppend(list[..n], list[n]);
  }

  lemma ElemsNone<T>()
    ensures Elems<T>([]) == {}
  {
  }

  function RemoveAt<T>(s: seq<T>, j: nat): seq<T>
    requires j < |s|
  {
    s[..j] + s[j + 1..]
  }

  function DropFirst(lists: map<int, seq<Task>>, g: int, n: nat): map<int, seq<Task>>
    requires g in lists && n <= |lists[g]|
  {
    if n == |lists[g]| then lists - {g} else lists[g := lists[g][n..]]
  }

  /** The state after `batch` was taken from the group at ring position `j`. */
  function Taken(q: Queue, j: nat, batch: seq<Task>): Queue
    requires j < |q.ring| && q.ring[j] in q.lists && |batch| <= |q.lists[q.ring[j]]|
  {
    var emptied := |batch| == |q.lists[q.ring[j]]|;
    q.(ring := if emptied then RemoveAt(q.ring, j) else q.ring,
       lists := DropFirst(q.lists, q.ring[j], |batch|),
       cur := if !emptied then j else if j == |q.ring| - 1 then HEADER else j - 1,
       waiting := q.waiting - Elems(batch), count := q.count - |batch|,
       processing := q.processing + Elems(batch))
  }

  function AfterTake(q: Queue): Queue
    requires Wf(q)
  {
    var batch := NextBatch(q);
    if |batch| == 0 then q
    else
      RingHasList(q, NextIndex(q));
      Taken(q, NextIndex(q), batch)
  }

  lemma DistinctSlices<T>(s: seq<T>, k: nat)
    requires Distinct(s) && k <= |s|
    ensures Distinct(s[..k]) && Distinct(s[k..])
    ensures forall x :: x in s[..k] ==> x !in s[k..]
    ensures forall x :: x in s <==> x in s[..k] || x in s[k..]
    ensures |Elems(s[..k])| == k
  {
    assert s == s[..k] + s[k..];
    DistinctCardinality(s[..k]);
  }

  lemma {:induction false} DistinctCardinality<T>(s: seq<T>)
    requires Distinct(s)
    ensures |Elems(s)| == |s|
  {
    if s != [] {
      var front, x := s[..|s| - 1], s[|s| - 1];
      assert s == front + [x];
      ElemsAppend(front, x);
      DistinctCardinality(front);
      assert x !in Elems(front);
    }
  }

  lemma RemoveAtElems<T>(s: seq<T>, j: nat)
    requires Distinct(s) && j < |s|
    ensures Distinct(RemoveAt(s, j))
    ensures forall x :: x in RemoveAt(s, j) <==> x in s && x != s[j]
  {
    var r := RemoveAt(s, j);
    forall i | 0 <= i < |r| ensures r[i] == (if i < j then s[i] else s[i + 1]) {}
    forall x | x in s && x != s[j] ensures x in r {
      var i :| 0 <= i < |s| && s[i] == x;
      assert r[if i < j then i else i - 1] == x;
    }
  }

  lemma DropFromList(lists: map<int, seq<Task>>, waiting: set<Task>, g: int, n: nat)
    requires ListsOk(lists) && WaitingOk(lists, waiting) && g in lists && 0 < n <= |lists[g]|
    ensures var batch := lists[g][..n];
            && Elems(batch) <= waiting && Distinct(batch) && |Elems(batch)| == n
            && ListsOk(DropFirst(lists, g, n))
            && WaitingOk(DropFirst(lists, g, n), waiting - Elems(batch))
  {
    var list := lists[g];
    assert ListOk(list, g);
    var batch, rest := list[..n], list[n..];
    var lists' := DropFirst(lists, g, n);
    DistinctSlices(list, n);
    assert n < |list| ==> ListOk(rest, g);
    forall t ensures t in waiting - Elems(batch) <==> t.group in lists' && t in lists'[t.group] {
      if t.group == g { assert t in list <==> t in batch || t in rest; }
      else { assert t in batch ==> t.group == g; }
    }
  }

  lemma RingAfterDrop(ring: seq<int>, lists: map<int, seq<Task>>, j: nat, n: nat)
    requires RingOk(ring, lists) && j < |ring| && ring[j] in lists && n <= |lists[ring[j]]|
    ensures RingOk(if n == |lists[ring[j]]| then RemoveAt(ring, j) else ring, DropFirst(lists, ring[j], n))
  {
    RemoveAtElems(ring, j);
  }

  lemma TakeKeepsWf(q: Queue)
    requires Wf(q)
    ensures Wf(AfterTake(q))
  {
    hide RingOk, ListsOk, WaitingOk, TakePrefix, DropFirst, RemoveAt, Elems;
    var b := NextBatch(q);
    if |b| > 0 {
      var j := NextIndex(q);
      RingHasList(q, j);
      DropFromList(q.lists, q.waiting, q.ring[j], |b|);
      RingAfterDrop(q.ring, q.lists, j, |b|);
      RemoveAtLength(q.ring, j);
    }
  }

  lemma RemoveAtLength<T>(s: seq<T>, j: nat)
    requires j < |s|
    ensures |RemoveAt(s, j)| == |s| - 1
  {
  }

  /** What a take does: the batch moves from waiting to processing and nothing else changes;
      the batch holds no task that was being processed. */
  lemma TakeMovesBatch(q: Queue)
    requires Wf(q)
    ensures Distinct(NextBatch(q)) && Elems(NextBatch(q)) <= q.waiting
    ensures Elems(NextBatch(q)) !! q.processing
    ensures AfterTake(q).waiting == q.waiting - Elems(NextBatch(q))
    ensures AfterTake(q).processing == q.processing + Elems(NextBatch(q))
  {
    var b := NextBatch(q);
    if |b| == 0 {
      assert Elems(b) == {} && q.waiting - {} == q.waiting && q.processing + {} == q.processing;
    } else {
      DropFromList(q.lists, q.waiting, PickedGroup(q), |b|);
    }
  }

  lemma RingHasList(q: Queue, j: nat)
    requires Wf(q) && j < |q.ring|
    ensures q.ring[j] in q.lists && ListOk(q.lists[q.ring[j]], q.ring[j])
  {
    var g := q.ring[j];
    assert g in q.ring;
  }

  lemma RingEmptyIffNoneWaits(q: Queue)
    requires Wf(q)
    ensures q.ring == [] <==> q.waiting == {}
  {
    if q.ring != [] {
      RingHasList(q, 0);
      assert q.lists[q.ring[0]][0] in q.waiting;
    }
    forall t | t in q.waiting ensures q.ring != [] { assert t.group in q.ring; }
  }

  lemma TakeFromPicked(q: Queue)
    requires Wf(q) && q.ring != []
    ensures PickedGroup(q) in q.lists
    ensures NextBatch(q)
         == TakePrefix(q.lists[PickedGroup(q)], q.processing, PickedGroup(q) in q.alone, BATCH_EXECUTE_NUM)
  {
  }

  /** batch_unlock */
  function AfterUnlock(q: Queue, batch: seq<Task>): Queue {
    q.(processing := q.processing - Elems(batch))
  }

  // ---------------------------------------------------------------- rotation

  /** How many picks away ring position `i` is: its distance from the cursor. */
  ghost function Distance(n: nat, cur: int, i: nat): nat
    requires HEADER <= cur < n && i < n
  {
    if i > cur then i - cur else n - cur + i
  }

  ghost function IndexOf(s: seq<int>, g: int): (i: nat)
    requires g in s
    ensures i < |s| && s[i] == g
  {
    var i :| 0 <= i < |s| && s[i] == g; i
  }

  ghost function Turns(q: Queue, g: int): nat
    requires HEADER <= q.cur < |q.ring| && g in q.ring
  {
    Distance(|q.ring|, q.cur, IndexOf(q.ring, g))
  }

  lemma IndexUnique(s: seq<int>, g: int, i: nat)
    requires Distinct(s) && i < |s| && s[i] == g
    ensures g in s && IndexOf(s, g) == i
  {
    var k := IndexOf(s, g);
    assert k == i;
  }

  lemma IndexAfterRemove(s: seq<int>, g: int, j: nat)
    requires Distinct(s) && j < |s| && g in s && g != s[j]
    ensures var i := IndexOf(s, g);
            g in RemoveAt(s, j) && IndexOf(RemoveAt(s, j), g) == if i < j then i else i - 1
  {
    var i := IndexOf(s, g);
    RemoveAtElems(s, j);
    IndexUnique(RemoveAt(s, j), g, if i < j then i else i - 1);
  }

  /** Every pick that takes something brings each group it did not pick exactly one turn closer. */
  lemma TakeAdvances(q: Queue, g: int)
    requires Wf(q) && g in q.ring && NextBatch(q) != [] && g != PickedGroup(q)
    ensures HEADER <= AfterTake(q).cur < |AfterTake(q).ring| && g in AfterTake(q).ring
    ensures Turns(AfterTake(q), g) == Turns(q, g) - 1
  {
    hide ListsOk, WaitingOk, TakePrefix, DropFirst, Elems, RemoveAt, IndexOf;
    assert Distinct(q.ring);
    RemoveAtLength(q.ring, NextIndex(q));
    IndexAfterRemove(q.ring, g, NextIndex(q));
    IndexUnique(q.ring, PickedGroup(q), NextIndex(q));
  }

  /** An add never delays a group ahead of the cursor, and delays the others by one
      turn at most, and only when it brings a new group. */
  lemma AddDelay(q: Queue, t: Task, groupOk: bool, g: int)
    requires Wf(q) && g in q.ring
    ensures HEADER <= AfterAdd(q, t, groupOk).cur < |AfterAdd(q, t, groupOk).ring|
    ensures g in AfterAdd(q, t, groupOk).ring
    ensures var q' := AfterAdd(q, t, groupOk);
            var late := |q'.ring| > |q.ring| && IndexOf(q.ring, g) <= q.cur;
            Turns(q', g) == Turns(q, g) + if late then 1 else 0
  {
    AddKeepsWf(q, t, groupOk);
    var q', i := AfterAdd(q, t, groupOk), IndexOf(q.ring, g);
    assert q'.ring[i] == g;
    IndexUnique(q'.ring, g, i);
  }

  // ---------------------------------------------------------------- runs

  datatype Op = Add(t: Task, groupOk: bool) | Take | Unlock(k: nat)

  /** A queue together with the batches handed to workers and not yet unlocked. */
  datatype System = System(q: Queue, out: seq<seq<Task>>)

  /** The outstanding batches share no task and together hold exactly the locked tasks. */
  ghost predicate Exclusive(out: seq<seq<Task>>, locked: set<Task>) {
    && (forall i, t :: 0 <= i < |out| && t in out[i] ==> t in locked)
    && (forall i, j, t :: 0 <= i < j < |out| && t in out[i] ==> t !in out[j])
    && (forall t :: t in locked ==> exists i :: 0 <= i < |out| && t in out[i])
  }

  ghost predicate SystemWf(s: System) {
    Wf(s.q) && Exclusive(s.out, s.q.processing)
  }

  lemma ExclusivePush(out: seq<seq<Task>>, locked: set<Task>, b: seq<Task>)
    requires Exclusive(out, locked) && Elems(b) !! locked
    ensures Exclusive(out + [b], locked + Elems(b))
  {
    var out', n := out + [b], |out|;
    forall i, t | 0 <= i <= n && t in out'[i] ensures t in locked + Elems(b) {
      if i == n { assert t in Elems(b); } else { assert t in out[i]; }
    }
    forall i, j, t | 0 <= i < j <= n && t in out'[i] ensures t !in out'[j] {
      assert t in out[i];
      if j == n { assert t in locked && t !in Elems(b); } else { assert t !in out[j]; }
    }
    forall t | t in locked + Elems(b) ensures exists i :: 0 <= i < |out'| && t in out'[i] {
      if t in locked {
        var i :| 0 <= i < n && t in out[i];
        assert t in out'[i];
      } else {
        assert t in out'[n];
      }
    }
  }

  lemma ExclusiveDrop(out: seq<seq<Task>>, locked: set<Task>, k: nat)
    requires Exclusive(out, locked) && k < |out|
    ensures Exclusive(RemoveAt(out, k), locked - Elems(out[k]))
  {
    var out' := RemoveAt(out, k);
    forall i | 0 <= i < |out'| ensures out'[i] == out[if i < k then i else i + 1] {}
    forall t | t in locked - Elems(out[k]) ensures exists i :: 0 <= i < |out'| && t in out'[i] {
      var i :| 0 <= i < |out| && t in out[i];
      assert t in out'[if i < k then i else i - 1];
    }
  }

  function Do(s: System, op: Op): System
    requires Wf(s.q)
  {
    match op
    case Add(t, groupOk) => s.(q := AfterAdd(s.q, t, groupOk))
    case Take =>
      if NextBatch(s.q) == [] then s
      else System(AfterTake(s.q), s.out + [NextBatch(s.q)])
    case Unlock(k) =>
      if k < |s.out| then System(AfterUnlock(s.q, s.out[k]), RemoveAt(s.out, k)) else s
  }

  /** No two outstanding batches ever share a task, and the processing set is exactly their union. */
  lemma DoKeepsExclusion(s: System, op: Op)
    requires SystemWf(s)
    ensures SystemWf(Do(s, op))
  {
    match op
    case Add(t, groupOk) => AddKeepsWf(s.q, t, groupOk);
    case Take =>
      TakeKeepsWf(s.q);
      TakeMovesBatch(s.q);
      ExclusivePush(s.out, s.q.processing, NextBatch(s.q));
    case Unlock(k) =>
      if k < |s.out| { ExclusiveDrop(s.out, s.q.processing, k); }
  }

  ghost function Run(s: System, ops: seq<Op>): System
    requires SystemWf(s)
    ensures SystemWf(Run(s, ops))
    decreases |ops|
  {
    if ops == [] then s
    else
      DoKeepsExclusion(s, ops[0]);
      Run(Do(s, ops[0]), ops[1..])
  }

  /** How often a run accepted `t`, and how often it handed `t` to a worker. */
  ghost function Accepted(s: System, ops: seq<Op>, t: Task): nat
    requires SystemWf(s)
    decreases |ops|
  {
    if ops == [] then 0
    else
      DoKeepsExclusion(s, ops[0]);
      (if ops[0].Add? && ops[0].t == t && AddAnswer(s.q, t, ops[0].groupOk) == Added then 1 else 0)
      + Accepted(Do(s, ops[0]), ops[1..], t)
  }

  ghost function Handed(s: System, ops: seq<Op>, t: Task): nat
    requires SystemWf(s)
    decreases |ops|
  {
    if ops == [] then 0
    else
      DoKeepsExclusion(s, ops[0]);
      (if ops[0].Take? && t in NextBatch(s.q) then 1 else 0) + Handed(Do(s, ops[0]), ops[1..], t)
  }

  /** Nothing is lost and nothing runs twice: in every run each task is handed out exactly
      as often as it was accepted, except for the copy still waiting. */
  lemma {:induction false} AcceptedIsHandedOrWaiting(s: System, ops: seq<Op>, t: Task)
    requires SystemWf(s)
    ensures Accepted(s, ops, t) + (if t in s.q.waiting then 1 else 0)
         == Handed(s, ops, t) + (if t in Run(s, ops).q.waiting then 1 else 0)
    decreases |ops|
  {
    if ops != [] {
      DoKeepsExclusion(s, ops[0]);
      AcceptedIsHandedOrWaiting(Do(s, ops[0]), ops[1..], t);
      match ops[0]
      case Add(t', groupOk) => AddKeepsWf(s.q, t', groupOk);
      case Take => TakeKeepsWf(s.q); TakeMovesBatch(s.q);
      case Unlock(_) =>
    }
  }

  /** The tasks of group `g` that one operation accepts, and those that it hands out. */
  function AcceptedBy(q: Queue, op: Op, g: int): seq<Task> {
    if op.Add? && op.t.group == g && AddAnswer(q, op.t, op.groupOk) == Added then [op.t] else []
  }

  function HandedBy(q: Queue, op: Op, g: int): seq<Task>
    requires Wf(q)
  {
    if op.Take? && q.ring != [] && PickedGroup(q) == g then NextBatch(q) else []
  }

  ghost function AcceptedOf(s: System, ops: seq<Op>, g: int): seq<Task>
    requires SystemWf(s)
    decreases |ops|
  {
    if ops == [] then []
    else
      DoKeepsExclusion(s, ops[0]);
      AcceptedBy(s.q, ops[0], g) + AcceptedOf(Do(s, ops[0]), ops[1..], g)
  }

  ghost function HandedOf(s: System, ops: seq<Op>, g: int): seq<Task>
    requires SystemWf(s)
    decreases |ops|
  {
    if ops == [] then []
    else
      DoKeepsExclusion(s, ops[0]);
      HandedBy(s.q, ops[0], g) + HandedOf(Do(s, ops[0]), ops[1..], g)
  }

  lemma TakeCutsList(q: Queue, g: int)
    requires Wf(q)
    ensures Listed(q.lists, g) == HandedBy(q, Take, g) + Listed(AfterTake(q).lists, g)
  {
    hide RingOk, ListsOk, WaitingOk, NextBatch, TakePrefix, RemoveAt;
    if q.ring != [] {
      TakeFromPicked(q);
      CutList(q.lists, PickedGroup(q), NextBatch(q), g);
    }
  }

  lemma CutList(lists: map<int, seq<Task>>, picked: int, b: seq<Task>, g: int)
    requires picked in lists && |b| <= |lists[picked]| && b == lists[picked][..|b|]
    ensures Listed(lists, g) == (if picked == g then b else []) + Listed(DropFirst(lists, picked, |b|), g)
    ensures b == [] ==> Listed(lists, g) == (if picked == g then b else []) + Listed(lists, g)
  {
    var list := lists[picked];
    assert list == list[..|b|] + list[|b|..];
  }

  lemma DoMovesList(s: System, op: Op, g: int)
    requires SystemWf(s)
    ensures Listed(s.q.lists, g) + AcceptedBy(s.q, op, g) == HandedBy(s.q, op, g) + Listed(Do(s, op).q.lists, g)
  {
    hide Wf, Exclusive, NextBatch, AfterTake;
    match op
    case Add(t, groupOk) =>
    case Take =>
      TakeCutsList(s.q, g);
      if NextBatch(s.q) == [] { TakesNothing(s.q); }
    case Unlock(k) =>
  }

  lemma TakesNothing(q: Queue)
    requires Wf(q) && NextBatch(q) == []
    ensures AfterTake(q) == q
  {
  }

  /** First in, first out within a group: in every run the tasks of a group are handed out in the order in which they
      were accepted, and what was accepted and not handed out waits, in that order. */
  lemma {:induction false} GroupsAreLines(s: System, ops: seq<Op>, g: int)
    requires SystemWf(s)
    ensures Listed(s.q.lists, g) + AcceptedOf(s, ops, g) == HandedOf(s, ops, g) + Listed(Run(s, ops).q.lists, g)
    decreases |ops|
  {
    hide Wf, Exclusive, Do, AcceptedBy, HandedBy, Listed;
    if ops != [] {
      DoKeepsExclusion(s, ops[0]);
      DoMovesList(s, ops[0], g);
      GroupsAreLines(Do(s, ops[0]), ops[1..], g);
      InLine(Listed(s.q.lists, g), AcceptedBy(s.q, ops[0], g), AcceptedOf(Do(s, ops[0]), ops[1..], g),
             HandedBy(s.q, ops[0], g), Listed(Do(s, ops[0]).q.lists, g), HandedOf(Do(s, ops[0]), ops[1..], g),
             Listed(Run(s, ops).q.lists, g));
    }
  }

  lemma InLine(l: seq<Task>, a: seq<Task>, more: seq<Task>, h: seq<Task>, l': seq<Task>, later: seq<Task>, end: seq<Task>)
    requires l + a == h + l' && l' + more == later + end
    ensures l + (a + more) == (h + later) + end
  {
    assert l + (a + more) == (l + a) + more == (h + l') + more == h + (l' + more) == h + (later + end);
  }

  /** Counts, along a run, the successful picks of other groups before `g` is picked
      and the groups that join meanwhile. */
  ghost function Overtakes(s: System, ops: seq<Op>, g: int): (nat, nat)
    requires SystemWf(s)
    decreases |ops|
  {
    if ops == [] || g !in s.q.ring then (0, 0)
    else
      DoKeepsExclusion(s, ops[0]);
      var s' := Do(s, ops[0]);
      if ops[0].Take? && NextBatch(s.q) != [] then
        if PickedGroup(s.q) == g then (0, 0)
        else var r := Overtakes(s', ops[1..], g); (r.0 + 1, r.1)
      else
        var r := Overtakes(s', ops[1..], g);
        (r.0, r.1 + if |s'.q.ring| > |s.q.ring| then 1 else 0)
  }

  /** No starvation: before a waiting group is served, at most its ring distance of other picks
      take something, plus one for each group that joined in the meantime. */
  lemma {:induction false} BoundedOvertaking(s: System, ops: seq<Op>, g: int)
    requires SystemWf(s) && g in s.q.ring
    ensures Overtakes(s, ops, g).0 < Turns(s.q, g) + Overtakes(s, ops, g).1
    decreases |ops|
  {
    hide RingOk, ListsOk, WaitingOk, Exclusive, AfterTake, AfterAdd, NextBatch, PickedGroup;
    if ops != [] {
      DoKeepsExclusion(s, ops[0]);
      match ops[0]
      case Add(t, groupOk) =>
        AddDelay(s.q, t, groupOk, g);
        BoundedOvertaking(Do(s, ops[0]), ops[1..], g);
      case Take =>
        if NextBatch(s.q) == [] {
          BoundedOvertaking(s, ops[1..], g);
        } else if PickedGroup(s.q) != g {
          TakeAdvances(s.q, g);
          BoundedOvertaking(Do(s, ops[0]), ops[1..], g);
        }
      case Unlock(k) =>
        BoundedOvertaking(Do(s, ops[0]), ops[1..], g);
    }
  }

  // ---------------------------------------------------------------- one task per group

  /** The shape of a queue whose group id is the task key, such as the tablet queue. */
  ghost predicate Singletons(q: Queue) {
    && q.cur == HEADER
    && forall g :: g in q.lists ==> q.lists[g] == [Task(g, g)]
  }

  /** With one task per group the ring is one first-in-first-out line: an accepted task
      goes to its end, a repeated one changes nothing. */
  lemma SingletonsAdd(q: Queue, k: int, groupOk: bool)
    requires Wf(q) && Singletons(q)
    ensures Singletons(AfterAdd(q, Task(k, k), groupOk))
    ensures AfterAdd(q, Task(k, k), groupOk).ring
         == if AddAnswer(q, Task(k, k), groupOk) == Added then q.ring + [k] else q.ring
  {
    if k in q.lists { assert Task(k, k) in q.lists[k]; }
  }

  /** A worker gets the single task at the front of that line, or nothing at all while the
      front one is locked, whatever waits behind it. */
  lemma SingletonsTake(q: Queue)
    requires Wf(q) && Singletons(q) && q.ring != []
    ensures Singletons(AfterTake(q))
    ensures var head := Task(q.ring[0], q.ring[0]);
            if head in q.processing then NextBatch(q) == [] && AfterTake(q) == q
            else NextBatch(q) == [head] && AfterTake(q).ring == q.ring[1..]
  {
    var g := q.ring[0];
    assert NextIndex(q) == 0;
    assert q.lists[g] == [Task(g, g)];
    assert NextBatch(q) == if Task(g, g) in q.processing then [] else [Task(g, g)];
    assert RemoveAt(q.ring, 0) == q.ring[1..];
  }

  lemma EmptyIsWf(capacity: int, alone: set<int>)
    ensures Wf(Init(capacity, alone))
  {
  }

  function Single(capacity: int, alone: set<int>, t: Task): Queue {
    Queue([t.group], map[t.group := [t]], HEADER, {t}, 1, {}, capacity, alone)
  }

  lemma AddToEmpty(capacity: int, alone: set<int>, t: Task)
    requires capacity > 0
    ensures AfterAdd(Init(capacity, alone), t, true) == Single(capacity, alone, t)
    ensures Wf(Single(capacity, alone, t))
  {
    hide Wf;
    var q0 := Init(capacity, alone);
    EmptyIsWf(capacity, alone);
    AddKeepsWf(q0, t, true);
    assert Listed(q0.lists, t.group) + [t] == [t] && q0.ring + [t.group] == [t.group] && q0.waiting + {t} == {t};
  }

  lemma TakeSingle(capacity: int, alone: set<int>, t: Task)
    requires Wf(Single(capacity, alone, t))
    ensures var q := Single(capacity, alone, t);
            && NextBatch(q) == [t] && AfterTake(q) == Init(capacity, alone).(processing := {t})
  {
    hide RingOk, ListsOk, WaitingOk;
    var q := Single(capacity, alone, t);
    TakeFromPicked(q);
    assert [t][1..] == [];
    assert NextBatch(q) == [t];
    assert Elems([t]) == {t};
    assert DropFirst(q.lists, t.group, 1) == map[];
  }

  /** A task added to an empty queue is the next batch, and taking it leaves the queue empty. */
  lemma OnlyTask(capacity: int, alone: set<int>, t: Task)
    requires capacity > 0
    ensures var q := AfterAdd(Init(capacity, alone), t, true);
            && Wf(q) && t in q.waiting && NextBatch(q) == [t]
            && AfterTake(q) == Init(capacity, alone).(processing := {t})
  {
    hide Wf, AfterAdd, AfterTake, NextBatch;
    AddToEmpty(capacity, alone, t);
    TakeSingle(capacity, alone, t);
  }

  /** A queue of one refuses the task it holds. */
  lemma FullQueueRefusesItsOwn(alone: set<int>, t: Task)
    ensures var q := AfterAdd(Init(1, alone), t, true);
            t in q.waiting && AddAnswer(q, t, true) == Overflow
  {
    hide Wf;
    AddToEmpty(1, alone, t);
    DuplicateIff(Single(1, alone, t), t, true);
  }

  // ---------------------------------------------------------------- the queue object

  class TaskQueue {
    var ring: seq<int>
    var groupMap: map<int, seq<Task>>
    var cur: int
    var taskSet: set<Task>
    var taskCount: int
    var processingSet: set<Task>
    const queueSize: int
    const aloneGroups: set<int>

    ghost function Abs(): Queue
      reads this
    {
      Queue(ring, groupMap, cur, taskSet, taskCount, processingSet, queueSize, aloneGroups)
    }

    ghost predicate Valid()
      reads this
    {
      Wf(Abs())
    }

    constructor (queueSize: int, aloneGroups: set<int>)
      ensures Valid() && Abs() == Init(queueSize, aloneGroups)
    {
      ring, groupMap, cur, taskSet, taskCount, processingSet := [], map[], HEADER, {}, 0, {};
      this.queueSize, this.aloneGroups := queueSize, aloneGroups;
    }

    /** `groupOk` is the answer of get_group: false when its memory cannot be had, in which
        case the task is erased from the task set again. */
    method Add(t: Task, groupOk: bool) returns (r: AddResult)
      requires Valid()
      modifies this
      ensures Valid()
      ensures r == AddAnswer(old(Abs()), t, groupOk)
      ensures Abs() == AfterAdd(old(Abs()), t, groupOk)
    {
      hide Wf;
      AddKeepsWf(Abs(), t, groupOk);
      if taskCount >= queueSize {
        r := Overflow;
      } else if t in taskSet {
        r := Duplicate;
      } else {
        taskSet := taskSet + {t};
        if !groupOk {
          taskSet := taskSet - {t};
          assert taskSet == old(taskSet);
          r := GroupFailed;
        } else {
          var list := Listed(groupMap, t.group);
          if t.group !in groupMap {
            ring := ring + [t.group];
          }
          groupMap := groupMap[t.group := list + [t]];
          taskCount := taskCount + 1;
          r := Added;
        }
      }
    }

    /** get_next_group: walks the ring from the cursor to the first group that has a task. */
    method GetNextGroup() returns (j: int)
      requires Valid() && ring != []
      ensures j == NextIndex(Abs())
    {
      j := cur;
      var found := false;
      while !found
        invariant HEADER <= j < |ring|
        invariant found ==> j == NextIndex(Abs())
        invariant !found ==> j == cur || (j == HEADER && cur == |ring| - 1)
        decreases if found then 0 else if j == cur && j != HEADER then 2 else 1
      {
        j := if j + 1 < |ring| then j + 1 else HEADER;
        if j != HEADER { RingHasList(Abs(), j); }
        if j != HEADER && |groupMap[ring[j]]| > 0 {
          found := true;
        }
      }
    }

    /** The inner loop of run1: lock and take tasks from the head of a group list. */
    method TakeFrom(g: int) returns (tasks: seq<Task>)
      requires g in groupMap && Distinct(groupMap[g])
      modifies `groupMap, `taskSet, `taskCount, `processingSet
      ensures tasks == TakePrefix(old(groupMap[g]), old(processingSet), g in aloneGroups, BATCH_EXECUTE_NUM)
      ensures groupMap == old(groupMap)[g := old(groupMap[g])[|tasks|..]]
      ensures taskSet == old(taskSet) - Elems(tasks) && taskCount == old(taskCount) - |tasks|
      ensures processingSet == old(processingSet) + Elems(tasks)
    {
      hide Elems, Distinct, TakePrefix;
      ghost var list, locked := groupMap[g], processingSet;
      ElemsNone<Task>();
      var alone := g in aloneGroups;
      tasks := [];
      var rest := groupMap[g];
      var going := true;
      while going && |tasks| < BATCH_EXECUTE_NUM && |rest| > 0
        invariant |tasks| <= BATCH_EXECUTE_NUM && |tasks| <= |list|
        invariant tasks == list[..|tasks|] && rest == list[|tasks|..]
        invariant groupMap == old(groupMap)
        invariant taskSet == old(taskSet) - Elems(tasks) && taskCount == old(taskCount) - |tasks|
        invariant processingSet == locked + Elems(tasks)
        invariant going ==> tasks == [] || !alone
        invariant |tasks| + (if going then |TakePrefix(rest, locked, alone, BATCH_EXECUTE_NUM - |tasks|)| else 0)
               == |TakePrefix(list, locked, alone, BATCH_EXECUTE_NUM)|
        decreases going, |rest|
      {
        var t := rest[0];
        NextToTake(list, locked, alone, |tasks|);
        if t in processingSet {
          going := false;
        } else {
          processingSet := processingSet + {t};
          rest := rest[1..];
          tasks := tasks + [t];
          taskSet := taskSet - {t};
          taskCount := taskCount - 1;
          if alone { going := false; }
        }
      }
      groupMap := groupMap[g := rest];
    }

    /** Takes from the chosen group; an emptied group leaves the ring, and the cursor moves. */
    method TakeFromGroupAt(j: nat) returns (tasks: seq<Task>)
      requires j < |ring| && ring[j] in groupMap && Distinct(groupMap[ring[j]])
      modifies this
      ensures tasks == TakePrefix(old(groupMap[ring[j]]), old(processingSet), old(ring[j]) in aloneGroups, BATCH_EXECUTE_NUM)
      ensures Abs() == if |tasks| == 0 then old(Abs()) else Taken(old(Abs()), j, tasks)
    {
      var g := ring[j];
      tasks := TakeFrom(g);
      if |tasks| == 0 {
        assert groupMap == old(groupMap) && Elems(tasks) == {};
        assert taskSet == old(taskSet) && processingSet == old(processingSet);
      } else if |groupMap[g]| == 0 {
        cur := if j == |ring| - 1 then HEADER else j - 1;
        ring := RemoveAt(ring, j);
        groupMap := groupMap - {g};
        assert groupMap == old(groupMap) - {g};
      } else {
        cur := j;
      }
    }

    /** The part of run1 that holds the lock: choose a group, lock and take its first tasks. */
    method TakeBatch() returns (tasks: seq<Task>)
      requires Valid()
      modifies this
      ensures Valid()
      ensures tasks == NextBatch(old(Abs()))
      ensures Abs() == AfterTake(old(Abs()))
    {
      TakeKeepsWf(Abs());
      RingEmptyIffNoneWaits(Abs());
      if taskCount == 0 {
        tasks := [];
      } else {
        var j := GetNextGroup();
        RingHasList(Abs(), j);
        TakeFromPicked(Abs());
        tasks := TakeFromGroupAt(j);
      }
    }

    method Unlock(tasks: seq<Task>)
      requires Valid()
      modifies this
      ensures Valid() && Abs() == AfterUnlock(old(Abs()), tasks)
    {
      var i := 0;
      while i < |tasks|
        invariant 0 <= i <= |tasks|
        invariant Abs() == old(Abs()).(processing := old(processingSet) - Elems(tasks[..i]))
      {
        assert tasks[..i + 1] == tasks[..i] + [tasks[i]];
        ElemsAppend(tasks[..i], tasks[i]);
        processingSet := processingSet - {tasks[i]};
        i := i + 1;
      }
      assert tasks[..i] == tasks;
    }
  }
}