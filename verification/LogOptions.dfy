/**
 The two updaters of the log disk options (src/logservice/ob_log_service.cpp:
 update_palf_options_except_disk_usage_limit_size, update_log_disk_usage_limit_size).

 Each reads all options, changes its own part and writes all of them back under a spin lock; the steps of
 any number of updaters interleave.
 */
module LogOptions {

  import opened Wrappers

  datatype Config = Config(threshold: int, limitThreshold: int, throttlingPercentage: int, maximumDuration: int, logCache: bool)

  datatype Options = Options(size: int, config: Config)

  datatype Update = SetSize(size: int) | SetConfig(config: Config)

  function Changed(o: Options, u: Update): Options {
    match u
    case SetSize(size) => o.(size := size)
    case SetConfig(config) => o.(config := config)
  }

  /** Progress of an updater: waiting for the lock, holding it, having read the options, having written
      them, or finished and still holding the lock. */
  datatype Pc = Waits | Holds | HasRead(seen: Options) | HasWritten | Ends

  datatype Thread = Thread(u: Update, pc: Pc)

  /** `done` are the successful updates in the order their writes took effect. */
  datatype State = State(
    stored: Options, runtimeConfig: Config, holder: Option<int>, threads: map<int, Thread>, done: seq<Update>)

  datatype Step =
    | Begin(t: int, u: Update) | Acquire(t: int) | Get(t: int, ok: bool) | Put(t: int, ok: bool) | Note(t: int) | Release(t: int)

  predicate At(s: State, t: int, pc: Pc) {
    t in s.threads && s.threads[t].pc == pc
  }

  function Move(s: State, t: int, pc: Pc): State
    requires t in s.threads
  {
    s.(threads := s.threads[t := s.threads[t].(pc := pc)])
  }

  /** A step that is not enabled leaves the state as it is. */
  function Next(s: State, step: Step): State {
    match step
    case Begin(t, u) => if t in s.threads then s else s.(threads := s.threads[t := Thread(u, Waits)])
    case Acquire(t) => if At(s, t, Waits) && s.holder.None? then Move(s, t, Holds).(holder := Some(t)) else s
    case Get(t, ok) => if At(s, t, Holds) then Move(s, t, if ok then HasRead(s.stored) else Ends) else s
    case Put(t, ok) =>
      if t in s.threads && s.threads[t].pc.HasRead? then
        if ok then
          Move(s, t, HasWritten).(stored := Changed(s.threads[t].pc.seen, s.threads[t].u), done := s.done + [s.threads[t].u])
        else Move(s, t, Ends)
      else s
    case Note(t) =>
      if At(s, t, HasWritten) then
        Move(s, t, Ends).(runtimeConfig := if s.threads[t].u.SetConfig? then s.threads[t].u.config else s.runtimeConfig)
      else s
    case Release(t) => if At(s, t, Ends) then s.(threads := s.threads - {t}, holder := None) else s
  }

  /** What the options ought to be: the successful updates applied to the first options one by one. */
  function Applied(first: Options, done: seq<Update>): Options {
    if done == [] then first else Changed(Applied(first, done[..|done| - 1]), done[|done| - 1])
  }

  /** Whoever is past waiting holds the lock. */
  ghost predicate HolderOk(s: State) {
    forall t :: t in s.threads && s.threads[t].pc != Waits ==> s.holder == Some(t)
  }

  /** The holder works on the current options, and what it wrote is the last update. */
  ghost predicate ThreadOk(s: State, th: Thread) {
    && (th.pc.HasRead? ==> th.pc.seen == s.stored)
    && (th.pc == HasWritten ==> s.done != [] && s.done[|s.done| - 1] == th.u)
    && (th.pc == HasWritten && th.u.SetSize? ==> s.runtimeConfig == s.stored.config)
  }

  ghost predicate ThreadsOk(s: State) {
    forall t :: t in s.threads ==> ThreadOk(s, s.threads[t])
  }

  /** The remembered configuration is the stored one unless somebody has yet to note it. */
  ghost predicate NotedOk(s: State) {
    (forall t :: t in s.threads ==> s.threads[t].pc != HasWritten) ==> s.runtimeConfig == s.stored.config
  }

  ghost predicate Inv(s: State, first: Options) {
    s.stored == Applied(first, s.done) && HolderOk(s) && ThreadsOk(s) && NotedOk(s)
  }

  /** A thread that moves on and changes nothing but itself and the lock. */
  lemma MoveKeepsInv(s: State, t: int, th: Thread, holder: Option<int>, first: Options)
    requires Inv(s, first) && ThreadOk(s, th) && th.pc != HasWritten
    requires t in s.threads ==> s.threads[t].pc != HasWritten
    requires th.pc != Waits ==> holder == Some(t)
    requires forall v :: v in s.threads && v != t && s.threads[v].pc != Waits ==> holder == Some(v)
    ensures Inv(s.(threads := s.threads[t := th], holder := holder), first)
  {
    hide Applied;
    var s' := s.(threads := s.threads[t := th], holder := holder);
    if forall v :: v in s'.threads ==> s'.threads[v].pc != HasWritten {
      forall v | v in s.threads ensures s.threads[v].pc != HasWritten {
        assert v in s'.threads;
      }
    }
  }

  lemma PutKeepsInv(s: State, t: int, first: Options)
    requires Inv(s, first) && t in s.threads && s.threads[t].pc.HasRead?
    ensures Inv(Next(s, Put(t, true)), first)
  {
    var s', th := Next(s, Put(t, true)), s.threads[t];
    assert s'.done[..|s.done|] == s.done;
    forall v | v in s'.threads ensures ThreadOk(s', s'.threads[v]) {
      assert ThreadOk(s, s.threads[v]) && ThreadOk(s, th);
      OnlyHolder(s, t, v);
      if v == t && th.u.SetSize? {
        NobodyHasWritten(s, t);
      }
    }
    assert s'.threads[t].pc == HasWritten;
  }

  lemma OnlyHolder(s: State, t: int, v: int)
    requires HolderOk(s) && t in s.threads && v in s.threads && s.threads[t].pc != Waits
    ensures v != t ==> s.threads[v].pc == Waits
  {
  }

  lemma NobodyHasWritten(s: State, t: int)
    requires HolderOk(s) && NotedOk(s) && t in s.threads && s.threads[t].pc != Waits && s.threads[t].pc != HasWritten
    ensures s.runtimeConfig == s.stored.config
  {
    forall v | v in s.threads ensures s.threads[v].pc != HasWritten { OnlyHolder(s, t, v); }
  }

  lemma NoteKeepsInv(s: State, t: int, first: Options)
    requires Inv(s, first) && At(s, t, HasWritten)
    ensures Inv(Next(s, Note(t)), first)
  {
    var s', th := Next(s, Note(t)), s.threads[t];
    assert ThreadOk(s, th);
    forall v | v in s'.threads ensures ThreadOk(s', s'.threads[v]) && s'.threads[v].pc != HasWritten {
      OnlyHolder(s, t, v);
    }
  }

  lemma ReleaseKeepsInv(s: State, t: int, first: Options)
    requires Inv(s, first) && At(s, t, Ends)
    ensures Inv(Next(s, Release(t)), first)
  {
    hide Applied;
    NobodyHasWritten(s, t);
    forall v | v in s.threads && v != t ensures s.threads[v].pc == Waits { OnlyHolder(s, t, v); }
  }

  lemma NextKeepsInv(s: State, step: Step, first: Options)
    requires Inv(s, first)
    ensures Inv(Next(s, step), first)
  {
    hide Applied, NotedOk;
    match step
    case Begin(t, u) => if t !in s.threads { MoveKeepsInv(s, t, Thread(u, Waits), s.holder, first); }
    case Acquire(t) =>
      if At(s, t, Waits) && s.holder.None? { MoveKeepsInv(s, t, s.threads[t].(pc := Holds), Some(t), first); }
    case Get(t, ok) =>
      if At(s, t, Holds) {
        MoveKeepsInv(s, t, s.threads[t].(pc := if ok then HasRead(s.stored) else Ends), s.holder, first);
      }
    case Put(t, ok) =>
      if t in s.threads && s.threads[t].pc.HasRead? {
        if ok { PutKeepsInv(s, t, first); } else { MoveKeepsInv(s, t, s.threads[t].(pc := Ends), s.holder, first); }
      }
    case Note(t) => if At(s, t, HasWritten) { NoteKeepsInv(s, t, first); }
    case Release(t) => if At(s, t, Ends) { ReleaseKeepsInv(s, t, first); }
  }

  ghost function Run(s: State, steps: seq<Step>): State
    decreases |steps|
  {
    if steps == [] then s else Run(Next(s, steps[0]), steps[1..])
  }

  lemma {:induction false} RunKeepsInv(s: State, steps: seq<Step>, first: Options)
    requires Inv(s, first)
    ensures Inv(Run(s, steps), first)
    decreases |steps|
  {
    hide Next, Inv;
    if steps != [] {
      NextKeepsInv(s, steps[0], first);
      RunKeepsInv(Next(s, steps[0]), steps[1..], first);
    }
  }

  /** Update `i` is the last one that sets the size, or the configuration. */
  ghost predicate LastSize(done: seq<Update>, i: int) {
    0 <= i < |done| && done[i].SetSize? && forall j :: i < j < |done| ==> !done[j].SetSize?
  }

  ghost predicate LastConfig(done: seq<Update>, i: int) {
    0 <= i < |done| && done[i].SetConfig? && forall j :: i < j < |done| ==> !done[j].SetConfig?
  }

  lemma {:induction false} LastSizeStands(first: Options, done: seq<Update>, i: int)
    requires LastSize(done, i)
    ensures Applied(first, done).size == done[i].size
  {
    if i < |done| - 1 { LastSizeStands(first, done[..|done| - 1], i); }
  }

  lemma {:induction false} LastConfigStands(first: Options, done: seq<Update>, i: int)
    requires LastConfig(done, i)
    ensures Applied(first, done).config == done[i].config
  {
    if i < |done| - 1 { LastConfigStands(first, done[..|done| - 1], i); }
  }

  /** No update is lost in any interleaving: the stored options hold the size of the last successful size
      update and the thresholds of the last successful threshold update, and when no updater is
      under way the remembered configuration is the stored one. */
  lemma NoLostUpdate(first: Options, steps: seq<Step>, i: int)
    ensures var s := Run(State(first, first.config, None, map[], []), steps);
            && (LastSize(s.done, i) ==> s.stored.size == s.done[i].size)
            && (LastConfig(s.done, i) ==> s.stored.config == s.done[i].config)
            && (s.threads == map[] ==> s.runtimeConfig == s.stored.config)
  {
    var s0 := State(first, first.config, None, map[], []);
    RunKeepsInv(s0, steps, first);
    var done := Run(s0, steps).done;
    if LastSize(done, i) { LastSizeStands(first, done, i); }
    if LastConfig(done, i) { LastConfigStands(first, done, i); }
  }

  // ---------------------------------------------------------------- every write takes effect

  /** A write that succeeds replaces its own part of the stored options and keeps the other as it is at that moment. */
  lemma PutWrites(s: State, t: int, first: Options)
    requires Inv(s, first) && t in s.threads && s.threads[t].pc.HasRead?
    ensures var o, u := Next(s, Put(t, true)).stored, s.threads[t].u;
            && o.size == (if u.SetSize? then u.size else s.stored.size)
            && o.config == (if u.SetConfig? then u.config else s.stored.config)
    ensures Next(s, Put(t, false)).stored == s.stored
  {
    hide Applied, HolderOk, NotedOk;
    assert ThreadOk(s, s.threads[t]);
  }

  /** What a step writes, read off the step. */
  function WrittenBy(s: State, step: Step): seq<Update> {
    match step
    case Put(t, ok) => if ok && t in s.threads && s.threads[t].pc.HasRead? then [s.threads[t].u] else []
    case _ => []
  }

  /** The updates of the writes of a schedule that succeed, in order. */
  ghost function Written(s: State, steps: seq<Step>): seq<Update>
    decreases |steps|
  {
    if steps == [] then [] else WrittenBy(s, steps[0]) + Written(Next(s, steps[0]), steps[1..])
  }

  /** Nothing but such a write changes the stored options. */
  lemma OnlyPutsWrite(s: State, step: Step)
    ensures WrittenBy(s, step) == [] ==> Next(s, step).stored == s.stored
    ensures Next(s, step).done == s.done + WrittenBy(s, step)
  {
  }

  lemma {:induction false} DoneIsWritten(s: State, steps: seq<Step>)
    ensures Run(s, steps).done == s.done + Written(s, steps)
    decreases |steps|
  {
    if steps == [] {
      assert s.done + [] == s.done;
    } else {
      hide Next, WrittenBy;
      OnlyPutsWrite(s, steps[0]);
      DoneIsWritten(Next(s, steps[0]), steps[1..]);
    }
  }

  /** So in every interleaving the stored options are the first ones with all successful writes of the schedule applied
      in their order: the size is that of the last one that writes a size, and so the configuration. */
  lemma EveryWriteCounts(first: Options, steps: seq<Step>, i: int)
    ensures var s0 := State(first, first.config, None, map[], []);
            var written, o := Written(s0, steps), Run(s0, steps).stored;
            && (LastSize(written, i) ==> o.size == written[i].size)
            && ((forall j :: 0 <= j < |written| ==> !written[j].SetSize?) ==> o.size == first.size)
            && (LastConfig(written, i) ==> o.config == written[i].config)
            && ((forall j :: 0 <= j < |written| ==> !written[j].SetConfig?) ==> o.config == first.config)
  {
    var s0 := State(first, first.config, None, map[], []);
    hide Next, Written, LastSize, LastConfig;
    NoLostUpdate(first, steps, i);
    RunKeepsInv(s0, steps, first);
    DoneIsWritten(s0, steps);
    var written := Written(s0, steps);
    assert s0.done + written == written;
    if forall j :: 0 <= j < |written| ==> !written[j].SetSize? { NoneStands(first, written); }
    if forall j :: 0 <= j < |written| ==> !written[j].SetConfig? { NoneStands(first, written); }
  }

  lemma {:induction false} NoneStands(first: Options, done: seq<Update>)
    ensures (forall j :: 0 <= j < |done| ==> !done[j].SetSize?) ==> Applied(first, done).size == first.size
    ensures (forall j :: 0 <= j < |done| ==> !done[j].SetConfig?) ==> Applied(first, done).config == first.config
  {
    if done != [] {
      var front := done[..|done| - 1];
      assert forall j :: 0 <= j < |front| ==> front[j] == done[j];
      NoneStands(first, front);
    }
  }

  /** And an updater that finds the lock free gets through: whatever other updaters are waiting, its steps up to the
      release store its part, remember the configuration and leave the lock free. */
  lemma UpdateGoesThrough(s: State, t: int, u: Update, first: Options)
    requires Inv(s, first) && s.holder.None? && t !in s.threads
    ensures var steps := [Begin(t, u)] + ([Acquire(t)] + ([Get(t, true)] + ([Put(t, true)] + ([Note(t)] + ([Release(t)] + [])))));
            var e := Run(s, steps);
            && e.stored == Options(if u.SetSize? then u.size else s.stored.size, if u.SetConfig? then u.config else s.stored.config)
            && e.runtimeConfig == e.stored.config && e.holder == None && e.threads == s.threads && Inv(e, first)
  {
    hide Inv, Run;
    var steps5 := [Note(t)] + ([Release(t)] + []);
    var steps3 := [Get(t, true)] + ([Put(t, true)] + steps5);
    RunFirst(s, Begin(t, u), [Acquire(t)] + steps3);
    var s1 := Next(s, Begin(t, u));
    RunFirst(s1, Acquire(t), steps3);
    var s2 := Next(s1, Acquire(t));
    RunFirst(s2, Get(t, true), [Put(t, true)] + steps5);
    var s3 := Next(s2, Get(t, true));
    RunFirst(s3, Put(t, true), steps5);
    var s4 := Next(s3, Put(t, true));
    RunFirst(s4, Note(t), [Release(t)] + []);
    var s5 := Next(s4, Note(t));
    RunFirst(s5, Release(t), []);
    NextKeepsInv(s, Begin(t, u), first);
    NextKeepsInv(s1, Acquire(t), first);
    NextKeepsInv(s2, Get(t, true), first);
    NextKeepsInv(s3, Put(t, true), first);
    NextKeepsInv(s4, Note(t), first);
    NextKeepsInv(s5, Release(t), first);
    AllNoted(s, first);
    assert s5.threads - {t} == s.threads;
    RunNothing(Next(s5, Release(t)));
  }

  lemma RunFirst(s: State, step: Step, rest: seq<Step>)
    ensures Run(s, [step] + rest) == Run(Next(s, step), rest)
  {
    assert ([step] + rest)[0] == step && ([step] + rest)[1..] == rest;
  }

  lemma RunNothing(s: State)
    ensures Run(s, []) == s
  {
  }

  lemma AllNoted(s: State, first: Options)
    requires Inv(s, first) && s.holder.None?
    ensures s.runtimeConfig == s.stored.config
  {
    hide Applied;
  }
}
