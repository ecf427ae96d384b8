/**
 What the log handler does let through (src/logservice/ob_log_handler.cpp, src/oblib/lib/allocator/ob_qsync.h): what its
 flags are after any history of life cycle calls, that an append made while it runs gets into the log whatever other
 threads do, and that the quiescence wait comes to its end.
 */
module LogHandlerProgress {

  import opened Wrappers
  import opened LogHandler

  // ---------------------------------------------------------------- the flags, from the history

  /** Something in `on` has happened, and nothing in `off` since. */
  ghost predicate Since(h: seq<Event>, on: set<Event>, off: set<Event>) {
    exists i :: 0 <= i < |h| && h[i] in on && forall j :: i < j < |h| ==> h[j] !in off
  }

  lemma SinceStep(h: seq<Event>, e: Event, on: set<Event>, off: set<Event>)
    ensures Since(h + [e], on, off) <==> e in on || (e !in off && Since(h, on, off))
  {
    var all := h + [e];
    assert all[|h|] == e && forall i :: 0 <= i < |h| ==> all[i] == h[i];
    if e !in off && Since(h, on, off) {
      var i :| 0 <= i < |h| && h[i] in on && forall j :: i < j < |h| ==> h[j] !in off;
      assert all[i] in on;
    }
    if e in on { assert all[|h|] in on; }
    if Since(all, on, off) && e !in on {
      var i :| 0 <= i < |all| && all[i] in on && forall j :: i < j < |all| ==> all[j] !in off;
      assert h[i] in on && all[|h|] !in off;
    }
  }

  ghost predicate Initialised(h: seq<Event>) {
    Since(h, {InitDone}, {Destroyed})
  }

  ghost predicate Unstopped(h: seq<Event>) {
    Since(h, {InitClearedStop}, {Stopped, Destroyed})
  }

  ghost predicate TakenOffline(h: seq<Event>) {
    Since(h, {WentOffline, InitSetOffline}, {WentOnline, Destroyed})
  }

  /** The flags are what the history says: initialised since an init() was completed and not destroyed since; unstopped
      since an init() cleared the state and neither stop() nor destroy() came after; offline since an offline() or an
      init() and neither online() nor destroy() came after. */
  lemma {:induction false} FlagsFromHistory(h: seq<Event>)
    ensures FlagsOf(h).inited <==> Initialised(h)
    ensures FlagsOf(h).stopped <==> !Unstopped(h)
    ensures FlagsOf(h).offline <==> TakenOffline(h)
  {
    if h != [] {
      var front, e := h[..|h| - 1], h[|h| - 1];
      assert h == front + [e];
      FlagsFromHistory(front);
      SinceStep(front, e, {InitDone}, {Destroyed});
      SinceStep(front, e, {InitClearedStop}, {Stopped, Destroyed});
      SinceStep(front, e, {WentOffline, InitSetOffline}, {WentOnline, Destroyed});
      hide Since;
    }
  }

  ghost predicate Runs(h: seq<Event>) {
    Initialised(h) && Unstopped(h) && !TakenOffline(h)
  }

  /** What the life cycle calls bring about once they have the write lock: offline(), online() and destroy() always take
      effect, a stop() only on an initialised handler, and init(), which takes no lock, in its four moves only on one
      that is not. */
  lemma CallsTakeEffect(s: State)
    requires Inv(s)
    ensures |s.refs| == SLOTS
    ensures s.writer == Some(Offline) ==> Next(s, EndWrite).history == s.history + [WentOffline]
    ensures s.writer == Some(Online) ==> Next(s, EndWrite).history == s.history + [WentOnline]
    ensures s.writer == Some(Destroy) ==> Next(s, EndWrite).history == s.history + [Destroyed]
    ensures s.writer == Some(Stop) ==>
              Next(s, EndWrite).history == s.history + if Initialised(s.history) then [Stopped] else []
    ensures Initialised(s.history) ==> Next(s, Init).history == s.history
    ensures s.flags.init == 0 && !Initialised(s.history) ==> Next(s, Init).history == s.history + [InitBegun]
    ensures s.flags.init == 1 ==> Next(s, Init).history == s.history + [InitClearedStop]
    ensures s.flags.init == 2 ==> Next(s, Init).history == s.history + [InitSetOffline]
    ensures s.flags.init == 3 ==> Next(s, Init).history == s.history + [InitDone]
  {
    hide FlagsOf, Legal, AppendersOk, InSlot, SerialsOk, WaitersOk, PushesOk, Initialised, Unstopped, TakenOffline;
    HistoryTells(s);
    assert s.history + [] == s.history;
  }

  // ---------------------------------------------------------------- appends get through

  /** The step is one of appender `a`. */
  predicate Of(step: Step, a: int) {
    match step
    case Lock(b) => a == b
    case Enter(b, _) => a == b
    case SeeInit(b) => a == b
    case SeeRunning(b) => a == b
    case Append(b, _) => a == b
    case Import(b, _) => a == b
    case Push(b, _) => a == b
    case Leave(b) => a == b
    case Unlock(b) => a == b
    case _ => false
  }

  ghost predicate Others(steps: seq<Step>, a: int) {
    forall i :: 0 <= i < |steps| ==> !Of(steps[i], a)
  }

  /** An appender holds the read lock, so nobody can change the flags of an initialised handler. */
  lemma OthersKeep(s: State, step: Step, a: int)
    requires Inv(s) && a in s.appenders && !Of(step, a) && s.flags.inited
    ensures var s' := Next(s, step); s'.flags == s.flags && a in s'.appenders && s'.appenders[a] == s.appenders[a]
  {
    hide RefsOk, SerialsOk, WaitersOk, PushesOk, Legal, FlagsOf;
    assert s.writer.None? && s.flags.init == 0 by { InitOver(s, a); }
  }

  lemma InitOver(s: State, a: int)
    requires Inv(s) && a in s.appenders && s.flags.inited
    ensures s.writer.None? && s.flags.init == 0 && |s.refs| == SLOTS
  {
  }

  lemma RefsThere(s: State)
    requires Inv(s)
    ensures |s.refs| == SLOTS
  {
  }

  lemma {:induction false} OthersRunOn(s: State, steps: seq<Step>, a: int)
    requires Inv(s) && a in s.appenders && Others(steps, a) && s.flags.inited
    ensures var e := Run(s, steps); e.flags == s.flags && a in e.appenders && e.appenders[a] == s.appenders[a]
    decreases |steps|
  {
    hide Next, Inv;
    if steps != [] {
      assert !Of(steps[0], a);
      RefsThere(s);
      NextKeepsInv(s, steps[0]);
      OthersKeep(s, steps[0], a);
      OthersRunOn(Next(s, steps[0]), steps[1..], a);
    }
  }

  lemma RunFirst(s: State, step: Step, rest: seq<Step>)
    requires Inv(s)
    ensures |s.refs| == SLOTS && Inv(Next(s, step)) && Run(s, [step] + rest) == Run(Next(s, step), rest)
  {
    hide Next;
    NextKeepsInv(s, step);
    assert ([step] + rest)[0] == step && ([step] + rest)[1..] == rest;
  }

  lemma {:induction false} RunAppend(s: State, x: seq<Step>, y: seq<Step>)
    requires Inv(s)
    ensures Run(s, x + y) == Run(Run(s, x), y)
    decreases |x|
  {
    hide Next, Inv;
    if x == [] {
      assert x + y == y;
    } else {
      RefsThere(s);
      NextKeepsInv(s, x[0]);
      assert (x + y)[1..] == x[1..] + y;
      RunAppend(Next(s, x[0]), x[1..], y);
    }
  }

  /** After others' steps and then one of its own. */
  lemma OthersThen(s: State, others: seq<Step>, own: Step, a: int)
    requires Inv(s) && a in s.appenders && Others(others, a) && s.flags.inited
    ensures var m := Run(s, others);
            && m.flags == s.flags && a in m.appenders && m.appenders[a] == s.appenders[a] && |m.refs| == SLOTS
            && Run(s, others + [own]) == Next(m, own)
  {
    hide Next, Inv;
    OthersRunOn(s, others, a);
    RunAppend(s, others, [own]);
    RunFirst(Run(s, others), own, []);
    assert [own] + [] == [own];
  }

  /** Two looks at the flags, others' steps before each: the appender goes on to append exactly if the handler runs. */
  lemma LooksThrough(s: State, a: int, m1: seq<Step>, m2: seq<Step>)
    requires Inv(s) && At(s, a, Entered) && s.flags.inited && Others(m1, a) && Others(m2, a)
    ensures var e := Run(s, (m1 + [SeeInit(a)]) + (m2 + [SeeRunning(a)]));
            && e.flags == s.flags && At(e, a, if s.flags.stopped || s.flags.offline then Finished else Cleared)
            && e.appenders[a].serial == s.appenders[a].serial
  {
    hide Inv;
    OthersThen(s, m1, SeeInit(a), a);
    var s1 := Run(s, m1 + [SeeInit(a)]);
    OthersThen(s1, m2, SeeRunning(a), a);
    RunAppend(s, m1 + [SeeInit(a)], m2 + [SeeRunning(a)]);
  }

  /** In every interleaving: an appender that has entered its section of an initialised handler gets its entry into the
      log exactly if the handler then runs, stopped and offline being what the history says, whatever other threads
      do between its steps; and a group is imported likewise. */
  lemma AppendGoesIn(steps: seq<Step>, a: int, m1: seq<Step>, m2: seq<Step>, m3: seq<Step>, import_: bool)
    requires Others(m1, a) && Others(m2, a) && Others(m3, a)
    ensures Inv(Fresh())
    ensures var s := Run(Fresh(), steps);
            At(s, a, Entered) && Initialised(s.history) ==>
              var e := Run(s, (m1 + [SeeInit(a)]) + (m2 + [SeeRunning(a)]));
              var own := if import_ then Import(a, true) else Append(a, true);
              var m, l := Run(e, m3), Run(e, m3 + [own]);
              var n := s.appenders[a].serial;
              if Unstopped(s.history) && !TakenOffline(s.history)
              then n in l.log && l.history == m.history + [Appended(n)] && (import_ ==> n in l.imported)
              else At(l, a, Finished) && l.history == m.history && l.log == m.log
  {
    FreshIsInv();
    hide Inv, Fresh, Initialised, Unstopped, TakenOffline, Others;
    var s := Run(Fresh(), steps);
    if At(s, a, Entered) && Initialised(s.history) {
      HistoryTells(s);
      LooksThrough(s, a, m1, m2);
      var e := Run(s, (m1 + [SeeInit(a)]) + (m2 + [SeeRunning(a)]));
      OthersThen(e, m3, if import_ then Import(a, true) else Append(a, true), a);
    }
  }

  lemma HistoryTells(s: State)
    requires Inv(s)
    ensures s.flags.inited <==> Initialised(s.history)
    ensures s.flags.stopped <==> !Unstopped(s.history)
    ensures s.flags.offline <==> TakenOffline(s.history)
  {
    hide FlagsOf, Legal, AppendersOk, RefsOk, SerialsOk, WaitersOk, PushesOk, Initialised, Unstopped, TakenOffline;
    FlagsFromHistory(s.history);
  }

  /** An appender that looks at a handler that is not initialised is refused. */
  lemma NotInitialisedRefuses(steps: seq<Step>, a: int)
    ensures Inv(Fresh())
    ensures var s := Run(Fresh(), steps);
            At(s, a, Entered) && !Initialised(s.history) ==> At(Run(s, [SeeInit(a)] + []), a, Finished)
  {
    FreshIsInv();
    hide Inv, Fresh, Initialised;
    var s := Run(Fresh(), steps);
    HistoryTells(s);
    RunFirst(s, SeeInit(a), []);
  }

  // ---------------------------------------------------------------- the first append of a handler

  function Started(): seq<Event> {
    [InitBegun, InitClearedStop, InitSetOffline, InitDone, WentOnline]
  }

  /** A new handler that is initialised and taken online. */
  function Ready(): State {
    Fresh().(flags := Flags(true, false, false, 0), history := Started())
  }

  lemma GetsReady(rest: seq<Step>)
    ensures Inv(Fresh()) && Inv(Ready())
    ensures Run(Fresh(), [Init] + ([Init] + ([Init] + ([Init] + ([BeginWrite(Online)] + ([EndWrite] + rest)))))) == Run(Ready(), rest)
  {
    FreshIsInv();
    hide Inv, Run;
    var s0 := Fresh();
    var tail := [BeginWrite(Online)] + ([EndWrite] + rest);
    RunFirst(s0, Init, [Init] + ([Init] + ([Init] + tail)));
    var s1 := Next(s0, Init);
    RunFirst(s1, Init, [Init] + ([Init] + tail));
    var s2 := Next(s1, Init);
    RunFirst(s2, Init, [Init] + tail);
    var s3 := Next(s2, Init);
    RunFirst(s3, Init, tail);
    var s4 := Next(s3, Init);
    RunFirst(s4, BeginWrite(Online), [EndWrite] + rest);
    var s5 := Next(s4, BeginWrite(Online));
    RunFirst(s5, EndWrite, rest);
    assert Next(s5, EndWrite) == Ready() by { assert Next(s5, EndWrite).history == Started(); }
  }

  /** A new handler that is initialised, taken online and appended to has the entry in its log, its callback pushed and
      nobody left inside. */
  lemma FirstAppend(a: int, slot: nat)
    requires slot < SLOTS
    ensures Inv(Fresh())
    ensures var up := [Lock(a)] + ([Enter(a, slot)] + ([SeeInit(a)] + ([SeeRunning(a)] + ([Append(a, true)]
                      + ([Push(a, true)] + ([Leave(a)] + ([Unlock(a)] + [])))))));
            var e := Run(Fresh(), [Init] + ([Init] + ([Init] + ([Init] + ([BeginWrite(Online)] + ([EndWrite] + up))))));
            && e.log == {0} && e.pushed == map[0 := true] && e.history == Started() + [Appended(0)]
            && e.appenders == map[] && e.refs == Fresh().refs && e.serials == 1
  {
    hide Inv, Run;
    var down := [Push(a, true)] + ([Leave(a)] + ([Unlock(a)] + []));
    GetsReady([Lock(a)] + ([Enter(a, slot)] + ([SeeInit(a)] + ([SeeRunning(a)] + ([Append(a, true)] + down)))));
    var s0 := Ready();
    RunFirst(s0, Lock(a), [Enter(a, slot)] + ([SeeInit(a)] + ([SeeRunning(a)] + ([Append(a, true)] + down))));
    var s1 := Next(s0, Lock(a));
    RunFirst(s1, Enter(a, slot), [SeeInit(a)] + ([SeeRunning(a)] + ([Append(a, true)] + down)));
    var s2 := Next(s1, Enter(a, slot));
    RunFirst(s2, SeeInit(a), [SeeRunning(a)] + ([Append(a, true)] + down));
    var s3 := Next(s2, SeeInit(a));
    RunFirst(s3, SeeRunning(a), [Append(a, true)] + down);
    var s4 := Next(s3, SeeRunning(a));
    RunFirst(s4, Append(a, true), down);
    var s5 := Next(s4, Append(a, true));
    assert s5.appenders == map[a := Inside(0, slot, InLog)] && s5.log == {0};
    GetsOut(s5, a);
  }

  lemma GetsOut(s: State, a: int)
    requires Inv(s) && a in s.appenders && s.appenders == map[a := s.appenders[a]] && At(s, a, InLog)
    ensures var p := s.appenders[a];
            p.slot < |s.refs|
            && Run(s, [Push(a, true)] + ([Leave(a)] + ([Unlock(a)] + [])))
               == s.(appenders := map[], refs := s.refs[p.slot := s.refs[p.slot] - 1], pushed := s.pushed[p.serial := true])
  {
    hide Run, HistoryOk, AppendersOk, WaitersOk, PushesOk, InSlot;
    var p := s.appenders[a];
    RunFirst(s, Push(a, true), [Leave(a)] + ([Unlock(a)] + []));
    var s1 := Next(s, Push(a, true));
    RunFirst(s1, Leave(a), [Unlock(a)] + []);
    var s2 := Next(s1, Leave(a));
    RunFirst(s2, Unlock(a), []);
    RunNothing(Next(s2, Unlock(a)));
  }

  lemma RunNothing(s: State)
    requires Inv(s)
    ensures Run(s, []) == s
  {
  }

  // ---------------------------------------------------------------- the wait ends

  /** A wait passes a slot exactly if nobody is inside through it. */
  lemma WaitPassesIff(s: State, v: int)
    requires Inv(s) && v in s.waiters && s.waiters[v].next < SLOTS
    ensures var w := s.waiters[v];
            |s.refs| == SLOTS
            && Next(s, WaitLoad(v)) == s.(waiters := s.waiters[v := Waiter(w.bound,
                 if exists a :: a in s.appenders && s.appenders[a].Inside? && s.appenders[a].slot == w.next
                 then w.next else w.next + 1)])
  {
    hide HistoryOk, AppendersOk, WaitersOk, PushesOk;
    var k := s.waiters[v].next;
    if a :| a in s.appenders && s.appenders[a].Inside? && s.appenders[a].slot == k {
      assert a in InSlot(s.appenders, k);
      assert s.waiters[v := s.waiters[v]] == s.waiters;
    } else {
      forall a ensures a !in InSlot(s.appenders, k) {}
      assert InSlot(s.appenders, k) == {};
    }
  }

  lemma WaiterStays(s: State, step: Step, v: int)
    requires Inv(s) && v in s.waiters
    ensures |s.refs| == SLOTS && v in Next(s, step).waiters && Next(s, step).waiters[v].bound == s.waiters[v].bound
  {
    hide HistoryOk, AppendersOk, SerialsOk, WaitersOk, PushesOk, InSlot, After;
  }

  lemma {:induction false} WaiterStaysOn(s: State, steps: seq<Step>, v: int)
    requires Inv(s) && v in s.waiters
    ensures var e := Run(s, steps); v in e.waiters && e.waiters[v].bound == s.waiters[v].bound
    decreases |steps|
  {
    hide Inv, Next;
    if steps != [] {
      WaiterStays(s, steps[0], v);
      NextKeepsInv(s, steps[0]);
      WaiterStaysOn(Next(s, steps[0]), steps[1..], v);
    }
  }

  /** A wait outlives every section that was under way when it began, whatever happens meanwhile: when it has passed all
      slots, none of them is inside any more, and every entry made in them has its callback's push answered or is an
      imported group. */
  lemma WaitOutlives(before: seq<Step>, v: int, more: seq<Step>, a: int)
    ensures Inv(Fresh())
    ensures var s := Run(Fresh(), before);
            var e := Run(s, [WaitBegin(v)] + more);
            v !in s.waiters && a in s.appenders && s.appenders[a].Inside? && v in e.waiters && e.waiters[v].next == SLOTS ==>
              var n := s.appenders[a].serial;
              && (forall b :: b in e.appenders && e.appenders[b].Inside? ==> e.appenders[b].serial != n)
              && (n in e.log ==> n in e.pushed || n in e.imported)
  {
    FreshIsInv();
    hide Fresh, Inv;
    var s := Run(Fresh(), before);
    RunFirst(s, WaitBegin(v), more);
    RunAppend(Fresh(), before, [WaitBegin(v)] + more);
    if v !in s.waiters && a in s.appenders && s.appenders[a].Inside? {
      SerialsBelow(s, a);
      WaiterStaysOn(Next(s, WaitBegin(v)), more, v);
      WaitMeansQuiescent(before + ([WaitBegin(v)] + more), v);
    }
  }

  lemma SerialsBelow(s: State, a: int)
    requires Inv(s) && a in s.appenders && s.appenders[a].Inside?
    ensures s.appenders[a].serial < s.serials
  {
  }

  function Loads(v: int, n: nat): seq<Step> {
    seq(n, _ => WaitLoad(v))
  }

  lemma LoadsMore(v: int, n: nat)
    ensures Loads(v, n + 1) == [WaitLoad(v)] + Loads(v, n)
  {
  }

  /** So with nobody inside, a wait that loads the slots one after another comes to its end. */
  lemma {:induction false} WaitReturns(s: State, v: int, n: nat)
    requires Inv(s) && v in s.waiters && s.waiters[v].next + n == SLOTS
    requires forall a :: a in s.appenders ==> !s.appenders[a].Inside?
    ensures var e := Run(s, Loads(v, n)); v in e.waiters && e.waiters[v] == Waiter(s.waiters[v].bound, SLOTS)
    decreases n
  {
    hide Inv, Next;
    if n > 0 {
      WaitPassesIff(s, v);
      LoadsMore(v, n - 1);
      RunFirst(s, WaitLoad(v), Loads(v, n - 1));
      WaitReturns(Next(s, WaitLoad(v)), v, n - 1);
    }
  }
}
