/**
 Appending to the log against the life cycle of the log handler (src/logservice/ob_log_handler.cpp),
 and the quiescence wait over sharded reference counts
 (src/oblib/lib/allocator/ob_qsync.h).

 Appenders hold the read lock around their critical section; offline, online, stop and destroy write
 the flags under the write lock; init writes them without a lock, one field after another.
 */
module LogHandler {

  import opened Wrappers

  // ---------------------------------------------------------------- the flags over time

  /** `init` is the progress of a running init(): 0 none, 1 begun, 2 stop state cleared, 3 offline set. */
  datatype Flags = Flags(inited: bool, stopped: bool, offline: bool, init: int)

  datatype Event =
    | WentOffline | WentOnline | Stopped | Destroyed
    | InitBegun | InitClearedStop | InitSetOffline | InitDone
    | Appended(serial: nat)

  /** A handler that was never initialised. */
  const FRESH: Flags := Flags(false, true, false, 0)

  function After(f: Flags, e: Event): Flags {
    match e
    case WentOffline => f.(offline := true)
    case WentOnline => f.(offline := false)
    case Stopped => f.(stopped := true)
    case Destroyed => f.(inited := false, offline := false, stopped := true)
    case InitBegun => f.(init := 1)
    case InitClearedStop => f.(stopped := false, init := 2)
    case InitSetOffline => f.(offline := true, init := 3)
    case InitDone => f.(inited := true, init := 0)
    case Appended(_) => f
  }

  predicate Running(f: Flags) {
    f.inited && !f.stopped && !f.offline
  }

  /** The order in which the events of init() come, and that an entry goes in only while running. */
  predicate Allowed(f: Flags, e: Event) {
    match e
    case InitBegun => f.init == 0 && !f.inited
    case InitClearedStop => f.init == 1
    case InitSetOffline => f.init == 2
    case InitDone => f.init == 3
    case Appended(_) => Running(f)
    case _ => true
  }

  function FlagsOf(h: seq<Event>): Flags {
    if h == [] then FRESH else After(FlagsOf(h[..|h| - 1]), h[|h| - 1])
  }

  ghost predicate Legal(h: seq<Event>) {
    forall i :: 0 <= i < |h| ==> Allowed(FlagsOf(h[..i]), h[i])
  }

  lemma FlagsStep(h: seq<Event>, n: nat)
    requires n < |h|
    ensures FlagsOf(h[..n + 1]) == After(FlagsOf(h[..n]), h[n])
  {
    assert h[..n + 1][..n] == h[..n];
  }

  lemma FlagsAtStart(h: seq<Event>)
    ensures FlagsOf(h[..0]) == FRESH
  {
  }

  lemma InitExcludesStep(f: Flags, e: Event)
    requires Allowed(f, e) && (f.init > 0 ==> !f.inited)
    ensures After(f, e).init > 0 ==> !After(f, e).inited
  {
  }

  lemma {:induction false} InitExcludesInited(h: seq<Event>, n: nat)
    requires Legal(h) && n <= |h|
    ensures FlagsOf(h[..n]).init > 0 ==> !FlagsOf(h[..n]).inited
  {
    hide FlagsOf, Allowed, After;
    if n == 0 {
      FlagsAtStart(h);
    } else {
      InitExcludesInited(h, n - 1);
      FlagsStep(h, n - 1);
      InitExcludesStep(FlagsOf(h[..n - 1]), h[n - 1]);
    }
  }

  /** Without going online again the flags stay in one of these. */
  predicate NotOnline(f: Flags) {
    f.offline || f.stopped || (!f.inited && f.init < 3)
  }

  lemma NotOnlineStep(f: Flags, e: Event)
    requires NotOnline(f) && Allowed(f, e) && e != WentOnline && (f.init > 0 ==> !f.inited)
    ensures NotOnline(After(f, e))
  {
  }

  lemma {:induction false} StaysOffline(h: seq<Event>, i: nat, n: nat)
    requires Legal(h) && i < n <= |h| && h[i] == WentOffline
    requires forall j :: i < j < n ==> h[j] != WentOnline
    ensures NotOnline(FlagsOf(h[..n]))
  {
    hide FlagsOf;
    FlagsStep(h, n - 1);
    if n > i + 1 {
      hide After, Allowed, NotOnline;
      StaysOffline(h, i, n - 1);
      InitExcludesInited(h, n - 1);
      NotOnlineStep(FlagsOf(h[..n - 1]), h[n - 1]);
    }
  }

  /** Between an offline() that took effect and a later entry in the log lies an online(). */
  lemma NoEntryWhileOffline(h: seq<Event>, i: nat, k: nat)
    requires Legal(h) && i < k < |h| && h[i] == WentOffline && h[k].Appended?
    ensures exists j :: i < j < k && h[j] == WentOnline
  {
    hide FlagsOf;
    assert Allowed(FlagsOf(h[..k]), h[k]);
    if forall j :: i < j < k ==> h[j] != WentOnline {
      StaysOffline(h, i, k);
    }
  }

  lemma {:induction false} StaysStopped(h: seq<Event>, i: nat, n: nat)
    requires Legal(h) && i < n <= |h| && h[i] == Stopped
    requires forall j :: i < j < n ==> h[j] != InitDone
    ensures FlagsOf(h[..n]).stopped || !FlagsOf(h[..n]).inited
  {
    hide FlagsOf;
    FlagsStep(h, n - 1);
    if n > i + 1 {
      StaysStopped(h, i, n - 1);
      InitExcludesInited(h, n - 1);
      assert Allowed(FlagsOf(h[..n - 1]), h[n - 1]);
    }
  }

  /** Between a stop() and a later entry in the log lies a complete init(). */
  lemma NoEntryWhileStopped(h: seq<Event>, i: nat, k: nat)
    requires Legal(h) && i < k < |h| && h[i] == Stopped && h[k].Appended?
    ensures exists j :: i < j < k && h[j] == InitDone
  {
    hide FlagsOf;
    assert Allowed(FlagsOf(h[..k]), h[k]);
    if forall j :: i < j < k ==> h[j] != InitDone {
      StaysStopped(h, i, k);
    }
  }

  // ---------------------------------------------------------------- the threads

  /** Slots of the sharded reference count. */
  const SLOTS: nat := 256

  /** How far an appender inside its critical section is. */
  datatype Stage = Entered | SawInit | Cleared | InLog | Finished

  /** A thread that holds the read lock. */
  datatype Appender = Locked | Inside(serial: nat, slot: nat, stage: Stage) | Left

  /** A thread in wait_append_sync: `bound` separates the sections entered before it began. */
  datatype Waiter = Waiter(bound: nat, next: nat)

  datatype WriteOp = Offline | Online | Stop | Destroy

  /** `log` holds the serials of the sections whose entry is in the log, `pushed` the answers of the callback
      pushes that were made for them, and `imported` those of imported groups, which have no callback. */
  datatype State = State(
    flags: Flags, history: seq<Event>,
    appenders: map<int, Appender>, writer: Option<WriteOp>,
    refs: seq<int>, serials: nat,
    waiters: map<int, Waiter>, log: set<nat>, pushed: map<nat, bool>, imported: set<nat>)

  datatype Step =
    | Lock(a: int) | Enter(a: int, slot: nat) | SeeInit(a: int) | SeeRunning(a: int)
    | Append(a: int, ok: bool) | Import(a: int, ok: bool) | Push(a: int, ok: bool) | Leave(a: int) | Unlock(a: int)
    | BeginWrite(op: WriteOp) | EndWrite
    | Init
    | WaitBegin(v: int) | WaitLoad(v: int)

  function Happen(s: State, e: Event): State {
    s.(flags := After(s.flags, e), history := s.history + [e])
  }

  function SetAppender(s: State, a: int, p: Appender): State {
    s.(appenders := s.appenders[a := p])
  }

  predicate At(s: State, a: int, stage: Stage) {
    a in s.appenders && s.appenders[a].Inside? && s.appenders[a].stage == stage
  }

  function Advance(s: State, a: int, stage: Stage): State
    requires a in s.appenders && s.appenders[a].Inside?
  {
    SetAppender(s, a, s.appenders[a].(stage := stage))
  }

  function Count(refs: seq<int>, slot: nat, d: int): seq<int>
    requires slot < |refs|
  {
    refs[slot := refs[slot] + d]
  }

  function WriteEvent(s: State, op: WriteOp): State {
    match op
    case Offline => Happen(s, WentOffline)
    case Online => Happen(s, WentOnline)
    case Stop => if s.flags.inited then Happen(s, Stopped) else s
    case Destroy => Happen(s, Destroyed)
  }

  function InitEvent(s: State): State {
    match s.flags.init
    case 0 => if s.flags.inited then s else Happen(s, InitBegun)
    case 1 => Happen(s, InitClearedStop)
    case 2 => Happen(s, InitSetOffline)
    case _ => Happen(s, InitDone)
  }

  /** A step that is not enabled leaves the state as it is. */
  function Next(s: State, step: Step): State
    requires |s.refs| == SLOTS
  {
    match step
    case Lock(a) => if a !in s.appenders && s.writer.None? then SetAppender(s, a, Locked) else s
    case Enter(a, slot) =>
      if a in s.appenders && s.appenders[a].Locked? && slot < SLOTS then
        SetAppender(s, a, Inside(s.serials, slot, Entered)).(refs := Count(s.refs, slot, 1), serials := s.serials + 1)
      else s
    case SeeInit(a) => if At(s, a, Entered) then Advance(s, a, if s.flags.inited then SawInit else Finished) else s
    case SeeRunning(a) =>
      if At(s, a, SawInit) then Advance(s, a, if s.flags.stopped || s.flags.offline then Finished else Cleared) else s
    case Append(a, ok) =>
      if !At(s, a, Cleared) then s
      else if !ok then Advance(s, a, Finished)
      else Happen(Advance(s, a, InLog), Appended(s.appenders[a].serial)).(log := s.log + {s.appenders[a].serial})
    case Import(a, ok) =>
      if !At(s, a, Cleared) then s
      else if !ok then Advance(s, a, Finished)
      else
        Happen(Advance(s, a, Finished), Appended(s.appenders[a].serial))
          .(log := s.log + {s.appenders[a].serial}, imported := s.imported + {s.appenders[a].serial})
    case Push(a, ok) =>
      if At(s, a, InLog) then Advance(s, a, Finished).(pushed := s.pushed[s.appenders[a].serial := ok]) else s
    case Leave(a) =>
      if At(s, a, Finished) && s.appenders[a].slot < SLOTS then
        SetAppender(s, a, Left).(refs := Count(s.refs, s.appenders[a].slot, -1))
      else s
    case Unlock(a) => if a in s.appenders && s.appenders[a].Left? then s.(appenders := s.appenders - {a}) else s
    case BeginWrite(op) => if s.writer.None? && s.appenders == map[] then s.(writer := Some(op)) else s
    case EndWrite => if s.writer.Some? then WriteEvent(s, s.writer.value).(writer := None) else s
    case Init => InitEvent(s)
    case WaitBegin(v) => if v !in s.waiters then s.(waiters := s.waiters[v := Waiter(s.serials, 0)]) else s
    case WaitLoad(v) =>
      if v in s.waiters && s.waiters[v].next < SLOTS && s.refs[s.waiters[v].next] == 0 then
        s.(waiters := s.waiters[v := s.waiters[v].(next := s.waiters[v].next + 1)])
      else s
  }

  function Fresh(): State {
    State(FRESH, [], map[], None, seq(SLOTS, _ => 0), 0, map[], {}, map[], {})
  }

  // ---------------------------------------------------------------- the flags cannot change under an appender

  ghost predicate HistoryOk(s: State) {
    && Legal(s.history) && s.flags == FlagsOf(s.history)
    && (s.flags.init > 0 ==> !s.flags.inited)
    && 0 <= s.flags.init <= 3
  }

  ghost predicate StageOk(p: Appender, f: Flags) {
    && (p.Inside? && p.stage in {SawInit, Cleared} ==> f.inited)
    && (p.Inside? && p.stage == Cleared ==> Running(f))
  }

  ghost predicate AppendersOk(s: State) {
    && (s.writer.Some? ==> s.appenders == map[])
    && forall a :: a in s.appenders ==> StageOk(s.appenders[a], s.flags)
  }

  lemma HappenKeepsHistory(s: State, e: Event)
    requires HistoryOk(s) && Allowed(s.flags, e)
    ensures HistoryOk(Happen(s, e))
  {
    var h := s.history + [e];
    assert h[..|s.history|] == s.history;
    forall i | 0 <= i < |h| ensures Allowed(FlagsOf(h[..i]), h[i]) {
      if i < |s.history| { assert h[..i] == s.history[..i]; }
    }
  }

  /** An appender that moves on without an event. */
  lemma MoveKeepsSafety(s: State, a: int, p: Appender)
    requires HistoryOk(s) && AppendersOk(s) && s.writer.None? && StageOk(p, s.flags)
    ensures HistoryOk(SetAppender(s, a, p)) && AppendersOk(SetAppender(s, a, p))
  {
    hide Legal, FlagsOf, StageOk;
  }

  /** An event of init(), which appenders inside their section may see. */
  lemma InitKeepsSafety(s: State)
    requires HistoryOk(s) && AppendersOk(s)
    ensures HistoryOk(InitEvent(s)) && AppendersOk(InitEvent(s))
  {
    hide Legal, FlagsOf;
    if s.flags.init == 0 && !s.flags.inited { HappenKeepsHistory(s, InitBegun); }
    if s.flags.init == 1 { HappenKeepsHistory(s, InitClearedStop); }
    if s.flags.init == 2 { HappenKeepsHistory(s, InitSetOffline); }
    if s.flags.init == 3 { HappenKeepsHistory(s, InitDone); }
  }

  /** A life cycle call under the write lock, with no appender about. */
  lemma WriteKeepsSafety(s: State, op: WriteOp)
    requires HistoryOk(s) && s.appenders == map[]
    ensures HistoryOk(WriteEvent(s, op)) && WriteEvent(s, op).appenders == map[]
  {
    hide Legal, FlagsOf;
    HappenKeepsHistory(s, WentOffline);
    HappenKeepsHistory(s, WentOnline);
    HappenKeepsHistory(s, Stopped);
    HappenKeepsHistory(s, Destroyed);
  }

  lemma EntryKeepsSafety(s: State, a: int, stage: Stage)
    requires HistoryOk(s) && AppendersOk(s) && At(s, a, Cleared) && (stage == InLog || stage == Finished)
    ensures var s' := Happen(Advance(s, a, stage), Appended(s.appenders[a].serial));
            HistoryOk(s') && AppendersOk(s')
  {
    hide Legal, FlagsOf;
    assert StageOk(s.appenders[a], s.flags);
    MoveKeepsSafety(s, a, s.appenders[a].(stage := stage));
    HappenKeepsHistory(Advance(s, a, stage), Appended(s.appenders[a].serial));
  }

  /** Nothing that safety speaks of has changed. */
  lemma SameSafety(s: State, s': State)
    requires HistoryOk(s) && AppendersOk(s)
    requires s'.flags == s.flags && s'.history == s.history && s'.appenders == s.appenders
    requires s'.writer.Some? ==> s'.appenders == map[]
    ensures HistoryOk(s') && AppendersOk(s')
  {
    hide Legal, FlagsOf, StageOk;
  }

  lemma NextKeepsSafety(s: State, step: Step)
    requires |s.refs| == SLOTS && HistoryOk(s) && AppendersOk(s)
    ensures HistoryOk(Next(s, step)) && AppendersOk(Next(s, step))
  {
    hide HistoryOk, StageOk, InitEvent, WriteEvent, Happen;
    match step
    case Lock(a) => LockKeepsSafety(s, a);
    case Enter(a, slot) => SectionKeepsSafety(s, step, a);
    case SeeInit(a) => SectionKeepsSafety(s, step, a);
    case SeeRunning(a) => SectionKeepsSafety(s, step, a);
    case Append(a, ok) => LogKeepsSafety(s, step, a);
    case Import(a, ok) => LogKeepsSafety(s, step, a);
    case Push(a, ok) => SectionKeepsSafety(s, step, a);
    case Leave(a) => SectionKeepsSafety(s, step, a);
    case Unlock(a) => UnlockKeepsSafety(s, a);
    case BeginWrite(op) => SameSafety(s, Next(s, step));
    case EndWrite =>
      if s.writer.Some? {
        WriteKeepsSafety(s, s.writer.value);
        NoAppenders(WriteEvent(s, s.writer.value));
      }
    case Init => InitKeepsSafety(s);
    case WaitBegin(v) => SameSafety(s, Next(s, step));
    case WaitLoad(v) => SameSafety(s, Next(s, step));
  }

  lemma NoAppenders(s: State)
    requires HistoryOk(s) && s.appenders == map[]
    ensures HistoryOk(s.(writer := None)) && AppendersOk(s.(writer := None))
  {
    hide Legal, FlagsOf;
  }

  lemma LockKeepsSafety(s: State, a: int)
    requires |s.refs| == SLOTS && HistoryOk(s) && AppendersOk(s)
    ensures HistoryOk(Next(s, Lock(a))) && AppendersOk(Next(s, Lock(a)))
  {
    hide HistoryOk;
    if a !in s.appenders && s.writer.None? { MoveKeepsSafety(s, a, Locked); }
  }

  lemma UnlockKeepsSafety(s: State, a: int)
    requires |s.refs| == SLOTS && HistoryOk(s) && AppendersOk(s)
    ensures HistoryOk(Next(s, Unlock(a))) && AppendersOk(Next(s, Unlock(a)))
  {
    hide Legal, FlagsOf, StageOk;
  }

  lemma LogKeepsSafety(s: State, step: Step, a: int)
    requires |s.refs| == SLOTS && HistoryOk(s) && AppendersOk(s)
    requires (step.Append? || step.Import?) && step.a == a
    ensures HistoryOk(Next(s, step)) && AppendersOk(Next(s, step))
  {
    hide Legal, FlagsOf, StageOk;
    if At(s, a, Cleared) {
      assert s.writer.None?;
      FinishedIsOk(s.appenders[a].(stage := Finished), s.flags);
      MoveKeepsSafety(s, a, s.appenders[a].(stage := Finished));
      EntryKeepsSafety(s, a, InLog);
      EntryKeepsSafety(s, a, Finished);
    }
  }

  lemma FinishedIsOk(p: Appender, f: Flags)
    requires p.Inside? ==> p.stage == Finished || p.stage == Entered
    ensures StageOk(p, f)
  {
  }

  /** The steps of an appender that only look at the flags. */
  lemma SectionKeepsSafety(s: State, step: Step, a: int)
    requires |s.refs| == SLOTS && HistoryOk(s) && AppendersOk(s)
    requires (step.Enter? || step.SeeInit? || step.SeeRunning? || step.Push? || step.Leave?) && step.a == a
    ensures HistoryOk(Next(s, step)) && AppendersOk(Next(s, step))
  {
    hide Legal, FlagsOf;
    var s' := Next(s, step);
    if a in s.appenders {
      assert s.writer.None? && StageOk(s.appenders[a], s.flags);
      assert a in s'.appenders && StageOk(s'.appenders[a], s.flags);
      MoveKeepsSafety(s, a, s'.appenders[a]);
      SameSafety(SetAppender(s, a, s'.appenders[a]), s');
    }
  }

  // ---------------------------------------------------------------- the reference counts

  ghost function InSlot(appenders: map<int, Appender>, slot: nat): set<int> {
    set a | a in appenders && appenders[a].Inside? && appenders[a].slot == slot
  }

  /** Every slot counts the sections in it. */
  ghost predicate RefsOk(s: State) {
    && |s.refs| == SLOTS
    && forall k :: 0 <= k < SLOTS ==> s.refs[k] == |InSlot(s.appenders, k)|
  }

  ghost predicate SerialsOk(s: State) {
    && (forall a :: a in s.appenders && s.appenders[a].Inside? ==> s.appenders[a].serial < s.serials && s.appenders[a].slot < SLOTS)
    && (forall v :: v in s.waiters ==> s.waiters[v].bound <= s.serials && s.waiters[v].next <= SLOTS)
  }

  /** A waiter that has passed a slot has outlived every earlier section of that slot. */
  ghost predicate WaitersOk(s: State) {
    forall v, a :: v in s.waiters && a in s.appenders && s.appenders[a].Inside?
                   && s.appenders[a].serial < s.waiters[v].bound
                   ==> s.appenders[a].slot >= s.waiters[v].next
  }

  /** An entry is in the log without its callback only while its section is still running. */
  ghost predicate PushesOk(s: State) {
    forall n :: n in s.log && n !in s.pushed && n !in s.imported ==>
      exists a :: At(s, a, InLog) && s.appenders[a].serial == n
  }

  lemma InSlotOthers(before: map<int, Appender>, a: int, p: Appender, k: nat)
    requires a in before
    ensures InSlot(before[a := p], k) - {a} == InSlot(before, k) - {a}
  {
  }

  lemma MoveOne(before: map<int, Appender>, a: int, p: Appender, k: nat)
    requires a in before
    ensures var was := before[a].Inside? && before[a].slot == k;
            var now := p.Inside? && p.slot == k;
            |InSlot(before[a := p], k)| == |InSlot(before, k)| + (if now then 1 else 0) - (if was then 1 else 0)
  {
    var x, y := InSlot(before, k), InSlot(before[a := p], k);
    assert a in x <==> before[a].Inside? && before[a].slot == k;
    assert a in y <==> p.Inside? && p.slot == k;
    InSlotOthers(before, a, p, k);
    hide InSlot;
    WithoutOne(x, a);
    WithoutOne(y, a);
  }

  lemma WithoutOne(x: set<int>, a: int)
    ensures |x| == |x - {a}| + if a in x then 1 else 0
  {
    if a !in x { assert x - {a} == x; }
  }

  lemma RefsMoveOne(s: State, a: int, p: Appender, refs: seq<int>)
    requires RefsOk(s) && a in s.appenders && |refs| == SLOTS
    requires forall k :: 0 <= k < SLOTS ==>
      refs[k] == s.refs[k] + (if p.Inside? && p.slot == k then 1 else 0)
                 - (if s.appenders[a].Inside? && s.appenders[a].slot == k then 1 else 0)
    ensures RefsOk(s.(appenders := s.appenders[a := p], refs := refs))
  {
    forall k | 0 <= k < SLOTS ensures refs[k] == |InSlot(s.appenders[a := p], k)| { MoveOne(s.appenders, a, p, k); }
  }

  /** The same threads are inside the same sections, through the same slots. */
  ghost predicate SameSections(x: map<int, Appender>, y: map<int, Appender>) {
    forall a :: (a in x && x[a].Inside?) == (a in y && y[a].Inside?)
                && (a in x && x[a].Inside? ==> y[a].slot == x[a].slot && y[a].serial == x[a].serial)
  }

  lemma AdvanceSame(s: State, a: int, stage: Stage)
    requires a in s.appenders && s.appenders[a].Inside?
    ensures SameSections(s.appenders, Advance(s, a, stage).appenders)
  {
  }

  /** Only entering and leaving change who is inside. */
  lemma SectionsStay(s: State, step: Step)
    requires |s.refs| == SLOTS && !step.Enter? && !step.Leave?
    ensures var s' := Next(s, step);
            s'.refs == s.refs && s'.serials == s.serials && SameSections(s.appenders, s'.appenders)
  {
    hide After, SameSections;
    NobodyMoves(s.appenders);
    match step
    case Lock(a) => if a !in s.appenders { OutsideSame(s.appenders, a, Locked); }
    case SeeInit(a) => if At(s, a, Entered) { AdvanceSame(s, a, SawInit); AdvanceSame(s, a, Finished); }
    case SeeRunning(a) => if At(s, a, SawInit) { AdvanceSame(s, a, Cleared); AdvanceSame(s, a, Finished); }
    case Append(a, ok) => if At(s, a, Cleared) { AdvanceSame(s, a, InLog); AdvanceSame(s, a, Finished); }
    case Import(a, ok) => if At(s, a, Cleared) { AdvanceSame(s, a, Finished); }
    case Push(a, ok) => if At(s, a, InLog) { AdvanceSame(s, a, Finished); }
    case Unlock(a) => if a in s.appenders && s.appenders[a].Left? { OutsideGoes(s.appenders, a); }
    case _ =>
  }

  lemma NobodyMoves(x: map<int, Appender>)
    ensures SameSections(x, x)
  {
  }

  lemma OutsideSame(x: map<int, Appender>, a: int, p: Appender)
    requires a !in x && !p.Inside?
    ensures SameSections(x, x[a := p])
  {
  }

  lemma OutsideGoes(x: map<int, Appender>, a: int)
    requires a in x && !x[a].Inside?
    ensures SameSections(x, x - {a})
  {
  }

  lemma SameSlots(before: map<int, Appender>, after: map<int, Appender>, k: nat)
    requires SameSections(before, after)
    ensures InSlot(after, k) == InSlot(before, k)
  {
    forall a ensures a in InSlot(after, k) <==> a in InSlot(before, k) {
    }
  }

  lemma EnterKeepsRefs(s: State, a: int, slot: nat)
    requires RefsOk(s)
    ensures RefsOk(Next(s, Enter(a, slot)))
  {
    hide InSlot;
    var s' := Next(s, Enter(a, slot));
    if a in s.appenders && s.appenders[a].Locked? && slot < SLOTS { RefsMoveOne(s, a, s'.appenders[a], s'.refs); }
  }

  lemma LeaveKeepsRefs(s: State, a: int)
    requires RefsOk(s)
    ensures RefsOk(Next(s, Leave(a)))
  {
    hide InSlot;
    var s' := Next(s, Leave(a));
    if At(s, a, Finished) && s.appenders[a].slot < SLOTS { RefsMoveOne(s, a, s'.appenders[a], s'.refs); }
  }

  lemma NextKeepsRefs(s: State, step: Step)
    requires RefsOk(s)
    ensures RefsOk(Next(s, step))
  {
    hide InSlot, Next, SameSections;
    match step
    case Enter(a, slot) => EnterKeepsRefs(s, a, slot);
    case Leave(a) => LeaveKeepsRefs(s, a);
    case _ =>
      SectionsStay(s, step);
      forall k | 0 <= k < SLOTS ensures InSlot(Next(s, step).appenders, k) == InSlot(s.appenders, k) {
        SameSlots(s.appenders, Next(s, step).appenders, k);
      }
  }

  // ---------------------------------------------------------------- waiting for quiescence

  lemma EmptySlot(s: State, k: nat)
    requires RefsOk(s) && k < SLOTS && s.refs[k] == 0
    ensures forall a :: a in s.appenders && s.appenders[a].Inside? ==> s.appenders[a].slot != k
  {
    assert InSlot(s.appenders, k) == {};
    forall a | a in s.appenders && s.appenders[a].Inside? ensures s.appenders[a].slot != k {
      assert a !in InSlot(s.appenders, k);
    }
  }

  lemma NextKeepsSerials(s: State, step: Step)
    requires |s.refs| == SLOTS && SerialsOk(s)
    ensures SerialsOk(Next(s, step))
  {
    if step.Enter? || step.Leave? {
      SectionKeepsSerials(s, step);
    } else {
      SectionsStay(s, step);
      WaitersMove(s, step);
      StaysSerials(s, Next(s, step));
    }
  }

  lemma SectionKeepsSerials(s: State, step: Step)
    requires |s.refs| == SLOTS && SerialsOk(s) && (step.Enter? || step.Leave?)
    ensures SerialsOk(Next(s, step))
  {
  }

  lemma StaysSerials(s: State, s': State)
    requires SerialsOk(s) && SameSections(s.appenders, s'.appenders) && s'.serials == s.serials
    requires forall v :: v in s'.waiters ==> s'.waiters[v].bound <= s.serials && s'.waiters[v].next <= SLOTS
    ensures SerialsOk(s')
  {
  }

  /** What a step may do to a waiter: a new one starts at the first slot, a step forward passes an empty slot. */
  ghost predicate Moved(s: State, s': State, v: int)
    requires |s.refs| == SLOTS && v in s'.waiters
  {
    var w := s'.waiters[v];
    && w.bound <= s.serials && w.next <= SLOTS
    && (|| (v in s.waiters && w == s.waiters[v])
        || w.next == 0
        || (v in s.waiters && s.waiters[v].next < SLOTS && w.bound == s.waiters[v].bound
            && w.next == s.waiters[v].next + 1 && s.refs[s.waiters[v].next] == 0))
  }

  lemma WaitersStay(s: State, step: Step)
    requires |s.refs| == SLOTS && !step.WaitBegin? && !step.WaitLoad?
    ensures Next(s, step).waiters == s.waiters
  {
    hide After;
  }

  lemma WaitersMove(s: State, step: Step)
    requires |s.refs| == SLOTS && (forall v :: v in s.waiters ==> s.waiters[v].bound <= s.serials && s.waiters[v].next <= SLOTS)
    ensures var s' := Next(s, step); forall v :: v in s'.waiters ==> Moved(s, s', v)
  {
    if !step.WaitBegin? && !step.WaitLoad? {
      hide Next;
      WaitersStay(s, step);
    }
  }

  lemma NextKeepsWaiters(s: State, step: Step)
    requires RefsOk(s) && SerialsOk(s) && WaitersOk(s)
    ensures WaitersOk(Next(s, step))
  {
    hide InSlot, Next;
    WaitersMove(s, step);
    forall k | 0 <= k < SLOTS && s.refs[k] == 0
      ensures forall a :: a in s.appenders && s.appenders[a].Inside? ==> s.appenders[a].slot != k
    {
      EmptySlot(s, k);
    }
    if step.Enter? || step.Leave? {
      SectionKeepsWaiters(s, step);
    } else {
      SectionsStay(s, step);
    }
  }

  /** A section that begins is later than every waiter, and one that ends holds nobody up. */
  lemma SectionKeepsWaiters(s: State, step: Step)
    requires |s.refs| == SLOTS && SerialsOk(s) && WaitersOk(s) && (step.Enter? || step.Leave?)
    ensures WaitersOk(Next(s, step))
  {
  }

  /** A section whose entry is in the log stays where it is until its push. */
  lemma InLogStays(s: State, step: Step, a: int)
    requires |s.refs| == SLOTS && At(s, a, InLog)
    ensures var s' := Next(s, step);
            if step.Push? && step.a == a then s.appenders[a].serial in s'.pushed
            else At(s', a, InLog) && s'.appenders[a].serial == s.appenders[a].serial
  {
    hide After;
  }

  /** An entry that is new in the log is an imported one, or its section is about to push. */
  lemma NewEntries(s: State, step: Step)
    requires |s.refs| == SLOTS
    ensures var s' := Next(s, step);
            && (forall n :: n in s.pushed ==> n in s'.pushed) && s.imported <= s'.imported
            && forall n :: n in s'.log && n !in s.log ==>
                 n in s'.imported || (step.Append? && At(s', step.a, InLog) && s'.appenders[step.a].serial == n)
  {
    hide After;
  }

  lemma NextKeepsPushes(s: State, step: Step)
    requires |s.refs| == SLOTS && PushesOk(s)
    ensures PushesOk(Next(s, step))
  {
    hide Next;
    var s' := Next(s, step);
    NewEntries(s, step);
    forall n | n in s'.log && n !in s'.pushed && n !in s'.imported
      ensures exists a :: At(s', a, InLog) && s'.appenders[a].serial == n
    {
      if n in s.log {
        var a :| At(s, a, InLog) && s.appenders[a].serial == n;
        InLogStays(s, step, a);
      } else {
        assert At(s', step.a, InLog);
      }
    }
  }

  ghost predicate Inv(s: State) {
    HistoryOk(s) && AppendersOk(s) && RefsOk(s) && SerialsOk(s) && WaitersOk(s) && PushesOk(s)
  }

  lemma NextKeepsInv(s: State, step: Step)
    requires Inv(s)
    ensures Inv(Next(s, step))
  {
    hide Next, HistoryOk, AppendersOk, InSlot, SerialsOk, WaitersOk, PushesOk;
    NextKeepsSafety(s, step);
    NextKeepsRefs(s, step);
    NextKeepsSerials(s, step);
    NextKeepsWaiters(s, step);
    NextKeepsPushes(s, step);
  }

  lemma FreshIsInv()
    ensures Inv(Fresh())
  {
    var s := Fresh();
    forall k | 0 <= k < SLOTS ensures s.refs[k] == |InSlot(s.appenders, k)| { assert InSlot(s.appenders, k) == {}; }
  }

  ghost function Run(s: State, steps: seq<Step>): State
    requires Inv(s)
    ensures Inv(Run(s, steps))
    decreases |steps|
  {
    if steps == [] then s
    else
      NextKeepsInv(s, steps[0]);
      Run(Next(s, steps[0]), steps[1..])
  }

  /** In every interleaving of appenders, life cycle calls and waiters: between an offline() that took
      effect and a later entry in the log lies an online(), and between a stop() and a later
      entry lies a complete init(). */
  lemma EntriesOnlyWhileRunning(steps: seq<Step>, i: nat, k: nat)
    ensures Inv(Fresh())
    ensures var h := Run(Fresh(), steps).history;
            i < k < |h| && h[k].Appended? ==>
              && (h[i] == WentOffline ==> exists j :: i < j < k && h[j] == WentOnline)
              && (h[i] == Stopped ==> exists j :: i < j < k && h[j] == InitDone)
  {
    FreshIsInv();
    hide RefsOk, SerialsOk, WaitersOk, PushesOk, AppendersOk, Legal, Fresh;
    var h := Run(Fresh(), steps).history;
    if i < k < |h| && h[k].Appended? {
      if h[i] == WentOffline { NoEntryWhileOffline(h, i, k); }
      if h[i] == Stopped { NoEntryWhileStopped(h, i, k); }
    }
  }

  /** When wait_append_sync returns, every append whose critical section was entered before the wait
      began has left its section, and if its entry is in the log, either the push of its callback has been answered or
      it is an imported group, which has none. */
  lemma WaitMeansQuiescent(steps: seq<Step>, v: int)
    ensures Inv(Fresh())
    ensures var s := Run(Fresh(), steps);
            v in s.waiters && s.waiters[v].next == SLOTS ==>
              && (forall a :: a in s.appenders && s.appenders[a].Inside? ==> s.appenders[a].serial >= s.waiters[v].bound)
              && (forall n :: n in s.log && n < s.waiters[v].bound ==> n in s.pushed || n in s.imported)
  {
    FreshIsInv();
    hide HistoryOk, RefsOk, AppendersOk, Fresh;
    var s := Run(Fresh(), steps);
    if v in s.waiters && s.waiters[v].next == SLOTS {
      forall n | n in s.log && n < s.waiters[v].bound ensures n in s.pushed || n in s.imported {}
    }
  }
}
