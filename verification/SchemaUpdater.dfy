/**
 Coalescing of schema refresh tasks (src/observer/ob_server_schema_updater.cpp): sort the batch, look at its
 head only, and refresh at most once.

 A task's version is stored as int64_t and read back as uint64_t, so versions are compared as unsigned.
 */
module SchemaUpdater {

  const TWO_63: int := 0x8000_0000_0000_0000
  const TWO_64: int := 0x1_0000_0000_0000_0000

  newtype int64 = x: int | -TWO_63 <= x < TWO_63

  datatype Kind = AsyncRefresh | Release | Invalid

  datatype Task = Task(kind: Kind, version: int64)

  /** The conversion of int64_t to uint64_t. */
  function Unsigned(v: int64): int {
    if v >= 0 then v as int else v as int + TWO_64
  }

  /** It is the residue modulo 2 to the 64. */
  lemma UnsignedIsResidue(v: int64)
    ensures 0 <= Unsigned(v) < 0x1_0000_0000_0000_0000
    ensures Unsigned(v) - v as int == 0 || Unsigned(v) - v as int == 0x1_0000_0000_0000_0000
  {
  }

  function Rank(k: Kind): int {
    match k
    case AsyncRefresh => 0
    case Release => 1
    case Invalid => 2
  }

  /** greator_than */
  predicate Before(a: Task, b: Task) {
    || Rank(a.kind) > Rank(b.kind)
    || (a.kind.AsyncRefresh? && b.kind.AsyncRefresh? && Unsigned(a.version) > Unsigned(b.version))
  }

  /** operator== */
  predicate Same(a: Task, b: Task) {
    a.kind == b.kind && (a.kind.AsyncRefresh? ==> a.version == b.version)
  }

  predicate Tied(a: Task, b: Task) {
    !Before(a, b) && !Before(b, a)
  }

  /** The comparator is a strict weak order, and two tasks tie exactly when the queue takes them for
      the same task. */
  lemma StrictWeakOrder(a: Task, b: Task, c: Task)
    ensures !Before(a, a)
    ensures Before(a, b) && Before(b, c) ==> Before(a, c)
    ensures Tied(a, b) && Tied(b, c) ==> Tied(a, c)
    ensures !Before(a, b) && !Before(b, c) ==> !Before(a, c)
    ensures Tied(a, b) <==> Same(a, b)
  {
  }

  // ---------------------------------------------------------------- sorting

  function Insert(t: Task, s: seq<Task>): seq<Task> {
    if s == [] then [t]
    else if Before(s[0], t) then [s[0]] + Insert(t, s[1..])
    else [t] + s
  }

  function Sort(s: seq<Task>): seq<Task> {
    if s == [] then [] else Insert(s[0], Sort(s[1..]))
  }

  ghost predicate Ordered(s: seq<Task>) {
    forall i, j :: 0 <= i < j < |s| ==> !Before(s[j], s[i])
  }

  lemma {:induction false} InsertOrders(t: Task, s: seq<Task>)
    requires Ordered(s)
    ensures Ordered(Insert(t, s)) && multiset(Insert(t, s)) == multiset(s) + multiset{t}
  {
    hide Before;
    if s == [] {
    } else if Before(s[0], t) {
      InsertOrders(t, s[1..]);
      assert s == [s[0]] + s[1..];
      PushFront(s[0], t, s[1..]);
    } else {
      forall j | 0 <= j < |s| ensures !Before(s[j], t) {
        StrictWeakOrder(s[j], s[0], t);
      }
    }
  }

  /** A task that goes before `t` and not after any of `s` may stand in front of both. */
  lemma PushFront(a: Task, t: Task, s: seq<Task>)
    requires Before(a, t) && Ordered([a] + s) && Ordered(Insert(t, s)) && multiset(Insert(t, s)) == multiset(s) + multiset{t}
    ensures Ordered([a] + Insert(t, s))
  {
    hide Before, Insert;
    var rest := Insert(t, s);
    StrictWeakOrder(a, t, a);
    forall j | 0 <= j < |rest| ensures !Before(rest[j], a) {
      assert rest[j] in multiset(rest);
      if rest[j] != t {
        assert rest[j] in s;
        var i :| 0 <= i < |s| && s[i] == rest[j];
        var all := [a] + s;
        assert all[i + 1] == s[i] && !Before(all[i + 1], all[0]);
      }
    }
  }

  /** What the sort may leave of a batch: any ordered permutation of it. */
  ghost predicate SortOf(sorted: seq<Task>, batch: seq<Task>) {
    Ordered(sorted) && multiset(sorted) == multiset(batch)
  }

  /** There is such a permutation of every batch. */
  lemma {:induction false} SortOrders(batch: seq<Task>)
    ensures SortOf(Sort(batch), batch)
  {
    hide Ordered, Insert;
    if batch == [] {
      EmptyIsOrdered();
    } else {
      var first, rest := batch[0], batch[1..];
      SortOrders(rest);
      InsertOrders(first, Sort(rest));
      assert batch == [first] + rest;
    }
  }

  lemma EmptyIsOrdered()
    ensures Ordered([])
  {
  }

  lemma SortKeepsTasks(sorted: seq<Task>, batch: seq<Task>)
    requires multiset(sorted) == multiset(batch)
    ensures |sorted| == |batch| && forall t :: t in sorted <==> t in batch
  {
    assert |multiset(sorted)| == |multiset(batch)|;
    forall t ensures t in sorted <==> t in batch {
      assert t in sorted <==> t in multiset(sorted);
      assert t in batch <==> t in multiset(batch);
    }
  }

  // ---------------------------------------------------------------- what a batch asks for

  ghost predicate AllRefresh(batch: seq<Task>) {
    forall t :: t in batch ==> t.kind.AsyncRefresh?
  }

  /** Some task asks for a newer schema than the local one, as the code compares them. */
  ghost predicate Wanted(batch: seq<Task>, local: int64) {
    exists t :: t in batch && Unsigned(t.version) > Unsigned(local)
  }

  /** No task goes before the head of an ordered batch. */
  lemma HeadFirst(sorted: seq<Task>, t: Task)
    requires Ordered(sorted) && t in sorted
    ensures sorted != [] && !Before(t, sorted[0])
  {
    var i :| 0 <= i < |sorted| && sorted[i] == t;
    if i > 0 { assert !Before(sorted[i], sorted[0]); }
  }

  /** Looking at the head of the sorted batch answers for the whole batch, whichever sort it was. */
  lemma HeadAnswersForAll(sorted: seq<Task>, batch: seq<Task>, local: int64)
    requires batch != [] && AllRefresh(batch) && SortOf(sorted, batch)
    ensures sorted != [] && (Unsigned(sorted[0].version) > Unsigned(local) <==> Wanted(batch, local))
  {
    SortKeepsTasks(sorted, batch);
    assert sorted[0] in sorted;
    if t :| t in batch && Unsigned(t.version) > Unsigned(local) {
      HeadFirst(sorted, t);
    }
  }

  /** The head of the sorted batch is a refresh task only when all are. */
  lemma KindOfHead(sorted: seq<Task>, batch: seq<Task>)
    requires batch != [] && SortOf(sorted, batch)
    ensures sorted != [] && (sorted[0].kind.AsyncRefresh? <==> AllRefresh(batch))
    ensures |batch| == 1 ==> sorted == batch
  {
    SortKeepsTasks(sorted, batch);
    assert sorted[0] in sorted;
    forall t | t in batch && sorted[0].kind.AsyncRefresh? ensures t.kind.AsyncRefresh? {
      HeadFirst(sorted, t);
    }
    if |batch| == 1 {
      assert batch == [batch[0]] && sorted == [sorted[0]];
    }
  }

  /** A refreshed version starts at the core version and only grows, and versions that are asked for count from
      there: for such versions the unsigned comparison asks what the signed one does. */
  lemma ComparesAsSigned(batch: seq<Task>, local: int64)
    requires local >= 0 && forall t :: t in batch ==> t.version >= 0
    ensures Wanted(batch, local) <==> exists t :: t in batch && t.version > local
  {
    if t :| t in batch && t.version > local {
      assert Unsigned(t.version) > Unsigned(local);
    }
  }

  // ---------------------------------------------------------------- one at a time

  /** Processing tasks one after another: each that is newer than the local version refreshes to `latest`. */
  function OneByOne(batch: seq<Task>, local: int64, latest: int64): (int64, nat) {
    if batch == [] then (local, 0)
    else if Unsigned(batch[0].version) > Unsigned(local) then
      var r := OneByOne(batch[1..], latest, latest); (r.0, r.1 + 1)
    else OneByOne(batch[1..], local, latest)
  }

  /** A single refresh does what one-at-a-time processing does, as long as a refresh brings every
      version that is asked for. */
  lemma {:induction false} CoalescingRefines(batch: seq<Task>, local: int64, latest: int64)
    requires forall t :: t in batch ==> Unsigned(t.version) <= Unsigned(latest)
    ensures OneByOne(batch, local, latest) == if Wanted(batch, local) then (latest, 1) else (local, 0)
  {
    if batch != [] {
      var rest := batch[1..];
      assert forall t :: t in batch <==> t == batch[0] || t in rest;
      CoalescingRefines(rest, local, latest);
      CoalescingRefines(rest, latest, latest);
      if Unsigned(batch[0].version) > Unsigned(local) { assert Wanted(batch, local) && !Wanted(rest, latest); }
      else { assert Wanted(batch, local) <==> Wanted(rest, local); }
    }
  }

  // ---------------------------------------------------------------- the updater

  datatype Ret = Success | NotInit | Canceled | InvalidArgument | Unexpected | Failed

  class Updater {
    var inited: bool
    // how often a refresh and a release were attempted
    var refreshes: nat
    var releases: nat

    /** process_async_refresh_tasks on a sorted batch. `local` is the refreshed version, or nothing when
        it cannot be read. */
    method ProcessAsyncRefresh(tasks: seq<Task>, readable: bool, local: int64, refreshOk: bool) returns (ret: Ret)
      requires Ordered(tasks) && tasks != []
      modifies `refreshes
      ensures !AllRefresh(tasks) ==> ret == Unexpected && refreshes == old(refreshes)
      ensures AllRefresh(tasks) ==>
                var need := readable && Unsigned(tasks[0].version) > Unsigned(local);
                && refreshes == old(refreshes) + (if need then 1 else 0)
                && ret == if need && !refreshOk then Failed else Success
    {
      ret := Success;
      var needRefresh := false;
      var i := 0;
      while i < |tasks| && ret == Success
        invariant 0 <= i <= |tasks|
        invariant ret == Success || ret == Unexpected
        invariant ret == Success ==> forall k :: 0 <= k < i ==> tasks[k].kind.AsyncRefresh?
        invariant ret == Unexpected ==> i > 0 && !tasks[i - 1].kind.AsyncRefresh?
        invariant i == 0 ==> !needRefresh
        invariant ret == Success && i > 0 ==> needRefresh == (readable && Unsigned(tasks[0].version) > Unsigned(local))
      {
        var cur := tasks[i];
        if !cur.kind.AsyncRefresh? {
          ret := Unexpected;
        } else if i > 0 {
          assert !Before(tasks[i], tasks[i - 1]);
          if Unsigned(tasks[i - 1].version) < Unsigned(cur.version) {
            ret := Unexpected;
          }
        }
        if ret == Success && !needRefresh {
          if i > 0 {
          } else if readable && Unsigned(cur.version) > Unsigned(local) {
            needRefresh := true;
          }
        }
        i := i + 1;
      }
      if ret == Unexpected { assert tasks[i - 1] in tasks; }
      if ret == Success && needRefresh {
        refreshes := refreshes + 1;
        ret := if refreshOk then Success else Failed;
      }
    }

    /** batch_process_tasks: a batch of refresh tasks refreshes once if and only if some task of it asks for
        a newer version; a single release task releases; any other batch is refused without effect. `sorted` is
        what the sort makes of the batch, and the last two say whether a refresh and a release succeed. */
    method BatchProcessTasks(batch: seq<Task>, sorted: seq<Task>, stopped: bool, readable: bool, local: int64,
                             refreshOk: bool, releaseOk: bool)
      returns (ret: Ret)
      requires SortOf(sorted, batch)
      modifies `refreshes, `releases
      ensures !inited || stopped || batch == [] ==>
                && ret == (if !inited then NotInit else if stopped then Canceled else InvalidArgument)
                && refreshes == old(refreshes) && releases == old(releases)
      ensures inited && !stopped && batch != [] ==>
                if AllRefresh(batch) then
                  && releases == old(releases)
                  && refreshes == old(refreshes) + (if readable && Wanted(batch, local) then 1 else 0)
                  && ret == if readable && Wanted(batch, local) && !refreshOk then Failed else Success
                else if |batch| == 1 && batch[0].kind.Release? then
                  && releases == old(releases) + 1 && refreshes == old(refreshes)
                  && ret == if releaseOk then Success else Failed
                else
                  ret == Unexpected && refreshes == old(refreshes) && releases == old(releases)
    {
      if !inited {
        ret := NotInit;
      } else if stopped {
        ret := Canceled;
      } else if |batch| == 0 {
        ret := InvalidArgument;
      } else {
        SortKeepsTasks(sorted, batch);
        KindOfHead(sorted, batch);
        if sorted[0].kind.Release? && |sorted| != 1 {
          ret := Unexpected;
        } else if sorted[0].kind.Release? {
          releases := releases + 1;
          ret := if releaseOk then Success else Failed;
        } else if sorted[0].kind.AsyncRefresh? {
          HeadAnswersForAll(sorted, batch, local);
          ret := ProcessAsyncRefresh(sorted, readable, local, refreshOk);
        } else {
          ret := Unexpected;
        }
      }
    }
  }
}
