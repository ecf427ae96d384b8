/**
 Every interleaving of the clean-up timer with the threads that ask for a clean-up and with the sessions, which come
 and go while they are walked (src/observer/ob_server.cpp).
 */
module CtasRuns {

  import opened Wrappers
  import opened CtasCleanup

  /** The timer thread: idle, or in a pass with `todo` tables left, the code of the table before, and the walk it is
      in, if any. */
  datatype Timer = Idle | Pass(todo: nat, last: bool, walk: Option<Walk>)

  datatype State = State(flag: bool, timer: Timer)

  /** `Request` is any thread. The others are the timer: the compare-and-swap at the start of a run with the tables it
      then lists, if it can; a look at the next table's schema; one session as it is when it is visited; the end of the
      walk with the answer of the drop; the end of the pass. */
  datatype Step =
    | Request
    | Swap(listed: bool, tables: nat)
    | Look(t: Schema)
    | Visit(s: Session)
    | EndWalk(drop: DropAnswer)
    | EndPass

  predicate InWalk(s: State) {
    s.timer.Pass? && s.timer.walk.Some?
  }

  predicate Between(s: State) {
    s.timer.Pass? && s.timer.walk.None?
  }

  /** A step that is not enabled leaves the state as it is. */
  function Next(s: State, e: Step): State {
    match e
    case Request => s.(flag := true)
    case Swap(listed, tables) =>
      if s.timer.Idle? && s.flag then State(false, Pass(if listed then tables else 0, listed, None)) else s
    case Look(t) =>
      if !Between(s) || s.timer.todo == 0 then s
      else if Suspect(t) then s.(timer := Pass(s.timer.todo - 1, s.timer.last, Some(WalkFor(t))))
      else s.(timer := Pass(s.timer.todo - 1, t.found, None))
    case Visit(x) =>
      if !InWalk(s) || !s.timer.walk.value.going then s
      else
        var (w, asks) := VisitOne(s.timer.walk.value, x);
        State(s.flag || asks, s.timer.(walk := Some(w)))
    case EndWalk(drop) =>
      if !InWalk(s) then s
      else
        var w := s.timer.walk.value;
        s.(timer := Pass(s.timer.todo, if w.dropFlag then !drop.DropFails? else w.going, None))
    case EndPass =>
      if Between(s) && s.timer.todo == 0 then State(s.flag || !s.timer.last, Idle) else s
  }

  /** `states` is a run of `steps`. */
  ghost predicate IsRun(states: seq<State>, steps: seq<Step>) {
    && |states| == |steps| + 1
    && forall i :: 0 <= i < |steps| ==> states[i + 1] == Next(states[i], steps[i])
  }

  // ---------------------------------------------------------------- the flag

  /** The timer looks at the flag. */
  predicate Sweeps(s: State, e: Step) {
    e.Swap? && s.timer.Idle?
  }

  /** A request, a session that asks for another look, or a pass whose last table failed. */
  predicate Raises(s: State, e: Step) {
    match e
    case Request => true
    case Visit(x) => InWalk(s) && s.timer.walk.value.going && VisitOne(s.timer.walk.value, x).1
    case EndPass => Between(s) && s.timer.todo == 0 && !s.timer.last
    case _ => false
  }

  lemma NextFlag(s: State, e: Step)
    ensures Next(s, e).flag <==> Raises(s, e) || (s.flag && !Sweeps(s, e))
  {
  }

  /** The timer does not look at the flag at `i` to `n - 1`. */
  ghost predicate Quiet(states: seq<State>, steps: seq<Step>, i: nat, n: nat)
    requires |states| == |steps| + 1 && n <= |steps|
  {
    forall k :: i <= k < n ==> !Sweeps(states[k], steps[k])
  }

  /** Something raised the flag after the timer last looked at it. */
  ghost predicate RaisedSince(states: seq<State>, steps: seq<Step>, n: nat)
    requires |states| == |steps| + 1 && n <= |steps|
  {
    exists i :: 0 <= i < n && Raises(states[i], steps[i]) && Quiet(states, steps, i + 1, n)
  }

  /** At every point of every run the flag says exactly this. */
  lemma {:induction false} FlagIff(states: seq<State>, steps: seq<Step>, n: nat)
    requires IsRun(states, steps) && n <= |steps|
    ensures states[n].flag <==> RaisedSince(states, steps, n) || (states[0].flag && Quiet(states, steps, 0, n))
  {
    hide Next, Raises;
    if n > 0 {
      var m := n - 1;
      FlagIff(states, steps, m);
      NextFlag(states[m], steps[m]);
      if RaisedSince(states, steps, m) && !Sweeps(states[m], steps[m]) {
        var i :| 0 <= i < m && Raises(states[i], steps[i]) && Quiet(states, steps, i + 1, m);
        assert Quiet(states, steps, i + 1, n);
      }
      if Raises(states[m], steps[m]) {
        assert Quiet(states, steps, m + 1, n);
      }
      if RaisedSince(states, steps, n) && !Raises(states[m], steps[m]) {
        var i :| 0 <= i < n && Raises(states[i], steps[i]) && Quiet(states, steps, i + 1, n);
        assert i < m && Quiet(states, steps, i + 1, m) && !Sweeps(states[m], steps[m]);
      }
    }
  }

  // ---------------------------------------------------------------- walks while sessions change

  /** The sessions visited by these steps, each as it was at its visit. */
  function Visited(steps: seq<Step>): seq<Session> {
    var n := |steps|;
    if n == 0 then []
    else Visited(steps[..n - 1]) + if steps[n - 1].Visit? then [steps[n - 1].s] else []
  }

  lemma {:induction false} VisitOneMore(w: Walk, xs: seq<Session>, x: Session)
    ensures var (a, asks) := VisitAll(w, xs);
            VisitAll(w, xs + [x]).0 == if a.going then VisitOne(a, x).0 else a
    decreases |xs|
  {
    if xs == [] {
      assert [] + [x] == [x];
      if w.going { assert VisitAll(VisitOne(w, x).0, [x][1..]) == (VisitOne(w, x).0, false); }
    } else if w.going {
      assert (xs + [x])[0] == xs[0] && (xs + [x])[1..] == xs[1..] + [x];
      VisitOneMore(VisitOne(w, xs[0]).0, xs[1..], x);
    }
  }

  /** A walk that began with a look at `t` and has not ended. */
  ghost predicate WalkFrom(states: seq<State>, steps: seq<Step>, i: nat, j: nat, t: Schema)
    requires IsRun(states, steps) && i < j <= |steps|
  {
    && steps[i] == Look(t) && Suspect(t) && Between(states[i]) && states[i].timer.todo > 0
    && forall k :: i < k < j ==> !steps[k].EndWalk?
  }

  /** Whatever other threads do meanwhile, the walk is one over the sessions as they were when visited. */
  lemma {:induction false} WalkIsOverVisited(states: seq<State>, steps: seq<Step>, i: nat, j: nat, t: Schema)
    requires IsRun(states, steps) && i < j <= |steps| && WalkFrom(states, steps, i, j, t)
    ensures InWalk(states[j]) && states[j].timer.walk.value == VisitAll(WalkFor(t), Visited(steps[i + 1..j])).0
    decreases j
  {
    hide VisitOne;
    var s := steps[i + 1..j];
    if j == i + 1 {
      assert s == [];
    } else {
      var m := j - 1;
      WalkIsOverVisited(states, steps, i, m, t);
      assert s[..|s| - 1] == steps[i + 1..m] && s[|s| - 1] == steps[m];
      assert !steps[m].EndWalk? && states[j] == Next(states[m], steps[m]);
      if steps[m].Visit? {
        VisitOneMore(WalkFor(t), Visited(steps[i + 1..m]), steps[m].s);
      } else {
        assert Visited(s) == Visited(steps[i + 1..m]);
      }
    }
  }

  /** The end of a walk that spared its table and did not break off. */
  predicate Spares(s: State, e: Step) {
    e.EndWalk? && InWalk(s) && !s.timer.walk.value.dropFlag && s.timer.walk.value.going
  }

  /** A table is spared by an unbroken walk exactly if one of the visited sessions does not agree and the first of these
      could be asked. */
  lemma SparesIff(states: seq<State>, steps: seq<Step>, i: nat, j: nat, t: Schema)
    requires IsRun(states, steps) && i < j < |steps| && WalkFrom(states, steps, i, j, t) && steps[j].EndWalk?
    ensures var o := Objection(Visited(steps[i + 1..j]), t.sessionId, RuleOf(t), t.version);
            Spares(states[j], steps[j]) <==> o.Some? && !o.value.lock.LockFails?
  {
    hide VisitOne, VisitAll, Objection;
    WalkIsOverVisited(states, steps, i, j, t);
    WalkIsVerdict(WalkFor(t), Visited(steps[i + 1..j]));
  }

  // ---------------------------------------------------------------- nothing is forgotten

  /** During a pass the timer does not look at the flag, so a walk that has spared its table has it set. */
  ghost predicate Inv(s: State) {
    InWalk(s) && !s.timer.walk.value.dropFlag && s.timer.walk.value.going ==> s.flag
  }

  lemma NextKeepsInv(s: State, e: Step)
    requires Inv(s)
    ensures Inv(Next(s, e))
  {
  }

  lemma {:induction false} RunKeepsInv(states: seq<State>, steps: seq<Step>, n: nat)
    requires IsRun(states, steps) && n <= |steps| && Inv(states[0])
    ensures Inv(states[n])
  {
    hide Next, Inv;
    if n > 0 {
      RunKeepsInv(states, steps, n - 1);
      NextKeepsInv(states[n - 1], steps[n - 1]);
    }
  }

  lemma {:induction false} FlagStays(states: seq<State>, steps: seq<Step>, i: nat, j: nat)
    requires IsRun(states, steps) && i <= j <= |steps| && states[i].flag && Quiet(states, steps, i, j)
    ensures states[j].flag
    decreases j
  {
    hide Next;
    if i < j {
      FlagStays(states, steps, i, j - 1);
      NextFlag(states[j - 1], steps[j - 1]);
    }
  }

  /** Over every run from an idle timer: a request at any point, a table spared by a walk that did not break off, and a
      pass whose last table failed are all met by a clean-up at the next look of the timer at the flag, whatever else
      happens in between. */
  lemma NothingIsForgotten(states: seq<State>, steps: seq<Step>, i: nat, j: nat)
    requires IsRun(states, steps) && states[0].timer.Idle? && i < j < |steps|
    requires Raises(states[i], steps[i]) || Spares(states[i], steps[i])
    requires Quiet(states, steps, i + 1, j) && Sweeps(states[j], steps[j])
    ensures states[j + 1].timer.Pass?
  {
    NextFlag(states[i], steps[i]);
    RunKeepsInv(states, steps, i);
    assert states[i + 1] == Next(states[i], steps[i]);
    FlagStays(states, steps, i + 1, j);
    assert states[j + 1] == Next(states[j], steps[j]);
  }

  /** And only then: the timer cleans up if and only if something raised the flag since it last looked, or the flag it
      started out with has not been looked at yet. */
  lemma CleansUpIff(states: seq<State>, steps: seq<Step>, j: nat)
    requires IsRun(states, steps) && j < |steps| && Sweeps(states[j], steps[j])
    ensures states[j + 1].timer.Pass?
        <==> RaisedSince(states, steps, j) || (states[0].flag && Quiet(states, steps, 0, j))
  {
    hide RaisedSince, Quiet;
    FlagIff(states, steps, j);
    assert states[j + 1] == Next(states[j], steps[j]);
  }

  // ---------------------------------------------------------------- the code is a run

  ghost function Run(s: State, steps: seq<Step>): State
    decreases |steps|
  {
    if steps == [] then s else Run(Next(s, steps[0]), steps[1..])
  }

  lemma {:induction false} RunAppend(s: State, a: seq<Step>, b: seq<Step>)
    ensures Run(s, a + b) == Run(Run(s, a), b)
    decreases |a|
  {
    hide Next;
    if a == [] {
      assert a + b == b;
    } else {
      assert (a + b)[0] == a[0] && (a + b)[1..] == a[1..] + b;
      RunAppend(Next(s, a[0]), a[1..], b);
    }
  }

  function Visits(sessions: seq<Session>): seq<Step> {
    seq(|sessions|, i requires 0 <= i < |sessions| => Visit(sessions[i]))
  }

  lemma {:induction false} VisitsMatch(s: State, sessions: seq<Session>)
    requires InWalk(s)
    ensures var (w, asks) := VisitAll(s.timer.walk.value, sessions);
            Run(s, Visits(sessions)) == State(s.flag || asks, s.timer.(walk := Some(w)))
    decreases |sessions|
  {
    hide VisitOne;
    if sessions != [] {
      var steps := Visits(sessions);
      assert steps[0] == Visit(sessions[0]) && steps[1..] == Visits(sessions[1..]);
      VisitsMatch(Next(s, steps[0]), sessions[1..]);
      if !s.timer.walk.value.going {
        StoppedVisits(s.timer.walk.value, sessions[1..]);
      }
    }
  }

  lemma StoppedVisits(w: Walk, sessions: seq<Session>)
    requires !w.going
    ensures VisitAll(w, sessions) == (w, false)
  {
  }

  /** The steps for one table. */
  function TableSteps(t: Table): seq<Step> {
    if Suspect(t.schema) then [Look(t.schema)] + (Visits(t.sessions) + [EndWalk(t.drop)]) else [Look(t.schema)]
  }

  lemma RunOne(s: State, e: Step)
    ensures Run(s, [e]) == Next(s, e)
  {
    hide Next;
    assert [e][1..] == [];
    assert Run(Next(s, e), []) == Next(s, e);
  }

  lemma TableMatches(s: State, t: Table)
    requires Between(s) && s.timer.todo > 0
    ensures Run(s, TableSteps(t)) == State(s.flag || Recheck(t), Pass(s.timer.todo - 1, Ends(t), None))
  {
    hide Run, VisitOne, VisitAll, Objection;
    RunOne(s, Look(t.schema));
    if Suspect(t.schema) {
      var w := WalkFor(t.schema);
      var s1 := s.(timer := Pass(s.timer.todo - 1, s.timer.last, Some(w)));
      var s2 := Run(s1, Visits(t.sessions));
      RunAppend(s, [Look(t.schema)], Visits(t.sessions) + [EndWalk(t.drop)]);
      RunAppend(s1, Visits(t.sessions), [EndWalk(t.drop)]);
      VisitsMatch(s1, t.sessions);
      WalkIsVerdict(w, t.sessions);
      RunOne(s2, EndWalk(t.drop));
    }
  }

  function TablesSteps(tables: seq<Table>): seq<Step> {
    var n := |tables|;
    if n == 0 then [] else TablesSteps(tables[..n - 1]) + TableSteps(tables[n - 1])
  }

  lemma {:induction false} TablesMatch(s: State, tables: seq<Table>)
    requires Between(s) && s.timer.last && s.timer.todo >= |tables|
    ensures Run(s, TablesSteps(tables))
         == State(s.flag || Raised(tables), Pass(s.timer.todo - |tables|, PassOk(tables), None))
    decreases |tables|
  {
    hide Next, Recheck, Ends, TableSteps;
    var n := |tables|;
    if n > 0 {
      TablesMatch(s, tables[..n - 1]);
      RunAppend(s, TablesSteps(tables[..n - 1]), TableSteps(tables[n - 1]));
      TableMatches(Run(s, TablesSteps(tables[..n - 1])), tables[n - 1]);
      RaisedMore(tables, n - 1);
      assert tables[..n] == tables;
    }
  }

  /** runTimerTask without interference is a run, and the run leaves the flag as the code does. */
  lemma PassIsARun(tables: seq<Table>)
    ensures Run(State(true, Idle), [Swap(true, |tables|)] + (TablesSteps(tables) + [EndPass]))
         == State(FlagAfter(tables), Idle)
  {
    hide Run, Raised, PassOk;
    var s0, s1 := State(true, Idle), State(false, Pass(|tables|, true, None));
    RunOne(s0, Swap(true, |tables|));
    RunAppend(s0, [Swap(true, |tables|)], TablesSteps(tables) + [EndPass]);
    RunAppend(s1, TablesSteps(tables), [EndPass]);
    TablesMatch(s1, tables);
    RunOne(Run(s1, TablesSteps(tables)), EndPass);
  }

  /** A run that cannot list the tables leaves the flag set. */
  lemma UnlistedIsRetried(n: nat)
    ensures Run(State(true, Idle), [Swap(false, n)] + [EndPass]) == State(true, Idle)
  {
    hide Run;
    var s0 := State(true, Idle);
    RunOne(s0, Swap(false, n));
    RunAppend(s0, [Swap(false, n)], [EndPass]);
    RunOne(Next(s0, Swap(false, n)), EndPass);
  }
}
