/**
 Ownership of PALF handles: the log handler, the handle guard and log iterators
 (src/logservice/ob_log_handler.cpp, ob_log_handler.h, ob_log_service.cpp, palf_handle_guard.h,
 palf/palf_env.cpp, palf/palf_iterator.h).

 Every successful open or create of the environment hands out a new ticket; closing a valid handle gives
 it back. The law of each operation is that the tickets in circulation change exactly as what its
 owner holds changes.
 */
module PalfHandles {

  import opened Wrappers

  /** A PalfHandle: None when its implementation pointer is null. */
  type Handle = Option<nat>

  function Tickets(h: Handle): set<nat> {
    if h.Some? then {h.value} else {}
  }

  class Env {
    var live: set<nat>
    var opens: nat
    var closes: nat

    ghost predicate Valid()
      reads this
    {
      && (forall t :: t in live ==> t < opens)
      && opens - closes == |live|
    }

    constructor ()
      ensures Valid() && live == {} && opens == 0
    {
      live, opens, closes := {}, 0, 0;
    }

    /** open and create: `ok` is what the implementation answers. */
    method Open(ok: bool) returns (h: Handle)
      requires Valid()
      modifies this
      ensures Valid()
      ensures !ok ==> h == None && live == old(live) && opens == old(opens) && closes == old(closes)
      ensures ok ==> h == Some(old(opens)) && live == old(live) + {old(opens)} && h.value !in old(live) && closes == old(closes)
    {
      h := None;
      if ok {
        h := Some(opens);
        assert opens !in live;
        live := live + {opens};
        opens := opens + 1;
      }
    }

    /** close: gives the ticket back and leaves the handle invalid; an invalid handle is ignored.
        That no caller closes a ticket twice is the precondition. */
    method Close(h: Handle) returns (h': Handle)
      requires Valid() && Tickets(h) <= live
      modifies this
      ensures Valid() && h' == None && live == old(live) - Tickets(h) && opens == old(opens)
      ensures closes == old(closes) + |Tickets(h)|
    {
      if h.Some? {
        live := live - {h.value};
        closes := closes + 1;
      }
      h' := None;
    }
  }

  /** How an operation may change what is in circulation, given what its owner held and holds. */
  ghost predicate Lawful(live: set<nat>, held: set<nat>, live': set<nat>, held': set<nat>) {
    && live' == (live - held) + held'
    && (held' - held) !! live
  }

  lemma LawfulUnchanged(live: set<nat>, held: set<nat>)
    requires held <= live
    ensures Lawful(live, held, live, held)
  {
  }

  lemma LawfulGain(live: set<nat>, t: nat)
    requires t !in live
    ensures Lawful(live, {}, live + {t}, {t})
  {
  }

  /** A lawful operation between the open and the close of another ticket is lawful without it. */
  lemma LawfulAround(live: set<nat>, held: set<nat>, t: nat, live': set<nat>, held': set<nat>)
    requires t !in live && held <= live && Lawful(live + {t}, held, live', held')
    ensures t in live' && t !in held' && held' <= live' - {t} && Lawful(live, held, live' - {t}, held')
  {
  }

  lemma LawfulDrop(live: set<nat>, held: set<nat>, live': set<nat>, held': set<nat>)
    requires held <= live && Lawful(live, held, live', held')
    ensures held' <= live' && live' - held' == live - held && Lawful(live, held, live' - held', {})
  {
  }

  class Guard {
    var handle: Handle
    var hasEnv: bool

    ghost predicate Valid()
      reads this
    {
      handle.Some? ==> hasEnv
    }

    ghost function Owned(): set<nat>
      reads this
    {
      Tickets(handle)
    }

    constructor ()
      ensures Valid() && Owned() == {}
    {
      handle, hasEnv := None, false;
    }

    /** reset, also run by the destructor */
    method Reset(env: Env)
      requires env.Valid() && Valid() && Owned() <= env.live
      modifies this, env
      ensures env.Valid() && Valid() && Owned() == {}
      ensures env.live == old(env.live) - old(Owned())
    {
      if hasEnv {
        handle := env.Close(handle);
        hasEnv := false;
      }
    }

    /** set moves the handle in and nulls the source. */
    method Set(h: Handle) returns (source: Handle)
      modifies this
      ensures Valid() && Owned() == Tickets(h) && source == None
    {
      handle := h;
      hasEnv := true;
      source := None;
    }
  }

  /** open_palf: lawful exactly when the guard is empty or the open fails; opening into a full guard
      forgets the handle it held. */
  method OpenPalf(env: Env, guard: Guard, inited: bool, openOk: bool) returns (ok: bool)
    requires env.Valid() && guard.Valid() && guard.Owned() <= env.live
    modifies env, guard
    ensures env.Valid() && guard.Valid() && guard.Owned() <= env.live
    ensures ok <==> inited && openOk
    ensures !ok ==> guard.Owned() == old(guard.Owned()) && env.live == old(env.live)
    ensures Lawful(old(env.live), old(guard.Owned()), env.live, guard.Owned()) <==> !ok || old(guard.Owned()) == {}
    ensures ok ==> guard.Owned() == {old(env.opens)} && env.live == old(env.live) + {old(env.opens)}
  {
    var handle: Handle := None;
    ok := inited;
    if inited {
      handle := env.Open(openOk);
      ok := openOk;
      if openOk {
        handle := guard.Set(handle);
      }
    }
    assert !ok ==> handle == None;
  }

  /** What opening the log stream answers: the handle, OB_ENTRY_NOT_EXIST, or another error. */
  datatype OpenAnswer = Opened | NoEntry | OpenFails

  /** check_palf_exist: the handle opened for the test is closed again on every path. Only a missing entry means that
      there is no log stream; any other error is returned and leaves the answer at "there is one". */
  method CheckPalfExist(env: Env, inited: bool, answer: OpenAnswer) returns (ok: bool, exist: bool)
    requires env.Valid()
    modifies env
    ensures env.Valid() && env.live == old(env.live)
    ensures ok <==> inited && !answer.OpenFails?
    ensures exist <==> !(inited && answer.NoEntry?)
  {
    var handle: Handle := None;
    ok, exist := inited, true;
    if inited {
      handle := env.Open(answer.Opened?);
      ok := answer.Opened?;
      if answer.NoEntry? {
        ok, exist := true, false;
      }
    }
    if handle.Some? {
      handle := env.Close(handle);
      assert env.live == old(env.live);
    }
  }

  // ---------------------------------------------------------------- iterators

  /** LogDestroyIteratorStorageFunctor: closes its handle at most once. */
  datatype Functor = Functor(hasEnv: bool, handle: Handle)

  class Iterator {
    var inited: bool
    var functor: Option<Functor>

    ghost predicate Valid()
      reads this
    {
      functor.Some? ==> inited && functor.value.hasEnv
    }

    ghost function Owned(): set<nat>
      reads this
    {
      if functor.Some? then Tickets(functor.value.handle) else {}
    }

    constructor ()
      ensures Valid() && Owned() == {} && !inited
    {
      inited, functor := false, None;
    }

    method Destroy(env: Env)
      requires env.Valid() && Valid() && Owned() <= env.live
      modifies this, env
      ensures env.Valid() && Valid() && Owned() == {} && !inited
      ensures env.live == old(env.live) - old(Owned())
    {
      inited := false;
      if functor.Some? {
        if functor.value.hasEnv {
          var _ := env.Close(functor.value.handle);
        }
        functor := None;
      }
    }

    /** set_destroy_iterator_storage_functor takes the functor or leaves none. */
    method SetFunctor(f: Functor, ok: bool) returns (set_: bool)
      requires f.hasEnv && Owned() == {}
      modifies this
      ensures inited == old(inited) && set_ == (inited && ok)
      ensures set_ ==> functor == Some(f)
      ensures !set_ ==> functor == None || functor == old(functor)
    {
      set_ := inited && ok;
      if set_ {
        functor := Some(f);
      } else if inited {
        functor := None;
      }
    }
  }

  /** seek_log_iterator_no_shared_storage: a first seek that succeeds passes the handle to the iterator, every
      other path closes it, so the operation is lawful whatever fails. */
  method Seek(env: Env, it: Iterator, argsOk: bool, openOk: bool, seekOk: bool, functorOk: bool) returns (ok: bool)
    requires env.Valid() && it.Valid() && it.Owned() <= env.live
    modifies env, it
    ensures env.Valid() && it.Valid()
    ensures Lawful(old(env.live), old(it.Owned()), env.live, it.Owned())
    ensures ok <==> argsOk && openOk && seekOk && (old(it.inited) || functorOk)
    ensures ok ==> it.inited && (it.Owned() == {} <==> old(it.inited) && old(it.Owned()) == {})
    ensures old(it.inited) ==> it.inited && it.Owned() == old(it.Owned())
    ensures !ok && !old(it.inited) ==> !it.inited && it.Owned() == {}
  {
    hide Lawful;
    ghost var live, held := env.live, it.Owned();
    LawfulUnchanged(live, held);
    var firstInited := !it.inited;
    var needRelease := true;
    var handle: Handle := None;
    ok := argsOk;
    if argsOk {
      handle := env.Open(openOk);
      ok := openOk;
      if openOk {
        LawfulGain(live, handle.value);
        ok := seekOk;
        if seekOk {
          it.inited := true;
          if firstInited {
            ok := it.SetFunctor(Functor(true, handle), functorOk);
            if !ok {
              it.Destroy(env);
            } else {
              needRelease := false;
            }
          }
        }
      }
    }
    if needRelease && handle.Some? {
      handle := env.Close(handle);
      assert env.live == live;
    }
  }

  // ---------------------------------------------------------------- the log handler

  class Handler {
    var inited: bool
    var stopped: bool
    var hasEnv: bool
    var handle: Handle

    ghost predicate Valid()
      reads this
    {
      && (handle.Some? ==> hasEnv)
      && (!inited ==> handle.None?)
    }

    ghost function Owned(): set<nat>
      reads this
    {
      Tickets(handle)
    }

    constructor ()
      ensures Valid() && !inited && Owned() == {}
    {
      inited, stopped, hasEnv, handle := false, true, false, None;
    }

    method Destroy(env: Env)
      requires env.Valid() && Valid() && Owned() <= env.live
      modifies this, env
      ensures env.Valid() && Valid() && !inited && stopped && Owned() == {}
      ensures env.live == old(env.live) - old(Owned())
    {
      inited := false;
      stopped := true;
      if hasEnv && handle.Some? {
        handle := env.Close(handle);
      }
      hasEnv := false;
    }

    /** init: a second init leaves everything as it is, any other failure destroys the handler. */
    method Init(env: Env, applyOk: bool, openOk: bool) returns (ok: bool)
      requires env.Valid() && Valid() && Owned() <= env.live
      modifies this, env
      ensures env.Valid() && Valid()
      ensures Lawful(old(env.live), old(Owned()), env.live, Owned())
      ensures ok <==> !old(inited) && applyOk && openOk
      ensures ok ==> inited && !stopped && Owned() != {}
      ensures !ok && old(inited) ==> inited && stopped == old(stopped) && Owned() == old(Owned())
      ensures !ok && !old(inited) ==> !inited && stopped && Owned() == {}
    {
      ok := false;
      if !inited {
        if applyOk {
          handle := env.Open(openOk);
          ok := openOk;
        }
        if ok {
          hasEnv := true;
          stopped := false;
          inited := true;
        } else {
          Destroy(env);
        }
      }
    }

    /** stop closes the handle unless the apply status could not be stopped; a second stop finds it closed. */
    method Stop(env: Env, applyStopOk: bool)
      requires env.Valid() && Valid() && Owned() <= env.live
      modifies this, env
      ensures env.Valid() && Valid() && inited == old(inited)
      ensures Owned() == (if inited && applyStopOk then {} else old(Owned()))
      ensures stopped <==> inited || old(stopped)
      ensures Lawful(old(env.live), old(Owned()), env.live, Owned())
    {
      if inited {
        stopped := true;
        if applyStopOk && handle.Some? {
          handle := env.Close(handle);
        }
      }
    }
  }

  /** create_ls_ closes the created handle, and once more, in vain, when a later step failed. */
  method CreateLs(env: Env, handler: Handler, exist: bool, createOk: bool, statusOk: bool, applyOk: bool, openOk: bool)
    returns (ok: bool)
    requires env.Valid() && handler.Valid() && handler.Owned() <= env.live
    modifies env, handler
    ensures env.Valid() && handler.Valid()
    ensures Lawful(old(env.live), old(handler.Owned()), env.live, handler.Owned())
    ensures ok <==> !exist && createOk && statusOk && !old(handler.inited) && applyOk && openOk
    ensures ok ==> handler.inited && handler.Owned() != {}
    ensures exist ==> handler.Owned() == old(handler.Owned()) && env.live == old(env.live)
    ensures !exist && !ok ==> !handler.inited && handler.Owned() == {} && env.live == old(env.live) - old(handler.Owned())
  {
    hide Lawful;
    ghost var live, held := env.live, handler.Owned();
    LawfulUnchanged(live, held);
    ok := false;
    if !exist {
      var handle := env.Open(createOk);
      if createOk {
        LawfulUnchanged(env.live, held);
        if statusOk {
          ok := handler.Init(env, applyOk, openOk);
        }
        LawfulAround(live, held, handle.value, env.live, handler.Owned());
        handle := env.Close(handle);
      }
      if !ok {
        LawfulDrop(live, held, env.live, handler.Owned());
        handler.Destroy(env);
        handle := env.Close(handle);
        assert env.live == live - held;
      }
    }
  }

  // ---------------------------------------------------------------- conservation over runs

  datatype Owner = TheGuard(i: nat) | TheIterator(i: nat) | TheHandler(i: nat)

  /** All owners of a process and the tickets in circulation. */
  datatype Ledger = Ledger(live: set<nat>, owns: map<Owner, set<nat>>)

  /** Every ticket in circulation has exactly one owner, and no owner has more than one ticket. */
  ghost predicate Balanced(l: Ledger) {
    OneOwner(l) && AtMostOne(l.owns)
  }

  ghost predicate AtMostOne(owns: map<Owner, set<nat>>) {
    forall k :: k in owns ==> |owns[k]| <= 1
  }

  ghost predicate OneOwner(l: Ledger) {
    && (forall k, t :: k in l.owns && t in l.owns[k] ==> t in l.live)
    && (forall t :: t in l.live ==> exists k :: k in l.owns && t in l.owns[k])
    && (forall k, m, t :: k in l.owns && m in l.owns && k != m && t in l.owns[k] ==> t !in l.owns[m])
  }

  /** An operation that changes the circulation as the holding of its owner changes leaves every ticket with one
      owner. */
  lemma OneOwnerKept(l: Ledger, k: Owner, held: set<nat>, live: set<nat>)
    requires OneOwner(l) && k in l.owns && Lawful(l.live, l.owns[k], live, held)
    ensures OneOwner(Ledger(live, l.owns[k := held]))
  {
    var owns := l.owns[k := held];
    forall t | t in live ensures exists m :: m in owns && t in owns[m] {
      if t in held {
        assert t in owns[k];
      } else {
        var m :| m in l.owns && t in l.owns[m];
        assert t in owns[m];
      }
    }
  }

  lemma LawfulRelease(live: set<nat>, held: set<nat>)
    ensures Lawful(live, held, live - held, {})
  {
  }

  /** The owners that hold a handle. */
  function Holders(owns: map<Owner, set<nat>>): set<Owner> {
    set k | k in owns && owns[k] != {}
  }

  lemma NothingLiveNoHolders(owns: map<Owner, set<nat>>)
    requires Balanced(Ledger({}, owns))
    ensures Holders(owns) == {}
  {
    forall k | k in owns ensures owns[k] == {} {
      assert forall t :: t in owns[k] ==> t in Ledger({}, owns).live;
    }
  }

  lemma OwnerGivesBack(live: set<nat>, owns: map<Owner, set<nat>>, t: nat) returns (k: Owner)
    requires Balanced(Ledger(live, owns)) && t in live
    ensures k in owns && owns[k] == {t} && Balanced(Ledger(live - {t}, owns[k := {}]))
  {
    k :| k in owns && t in owns[k];
    assert |owns[k] - {t}| == 0;
    assert owns[k] == {t};
    OneOwnerKept(Ledger(live, owns), k, {}, live - {t});
  }

  /** In a balanced process the handles in circulation are as many as the owners that hold one. */
  lemma {:induction false} LiveIsHolders(live: set<nat>, owns: map<Owner, set<nat>>)
    requires Balanced(Ledger(live, owns))
    ensures |live| == |Holders(owns)|
    decreases |live|
  {
    hide Balanced;
    if live == {} {
      NothingLiveNoHolders(owns);
    } else {
      var t :| t in live;
      var k := OwnerGivesBack(live, owns, t);
      LiveIsHolders(live - {t}, owns[k := {}]);
      assert Holders(owns) == Holders(owns[k := {}]) + {k};
    }
  }

  /** What can happen in a process: every operation of every owner, with every combination of answers. */
  datatype Action =
    | DoOpenPalf(i: nat, inited: bool, openOk: bool)
    | DoReset(i: nat)
    | DoCheck(inited: bool, answer: OpenAnswer)
    | DoSeek(i: nat, argsOk: bool, openOk: bool, seekOk: bool, functorOk: bool)
    | DoDestroyIterator(i: nat)
    | DoInit(i: nat, applyOk: bool, openOk: bool)
    | DoStop(i: nat, applyStopOk: bool)
    | DoDestroyHandler(i: nat)
    | DoCreateLs(i: nat, exist: bool, createOk: bool, statusOk: bool, applyOk: bool, openOk: bool)

  /** A guard is opened into only when it is empty. */
  method GuardActs(env: Env, guard: Guard, a: Action)
    requires env.Valid() && guard.Valid() && guard.Owned() <= env.live
    modifies env, guard
    ensures env.Valid() && guard.Valid() && Lawful(old(env.live), old(guard.Owned()), env.live, guard.Owned())
  {
    hide Lawful;
    LawfulUnchanged(env.live, guard.Owned());
    LawfulRelease(env.live, guard.Owned());
    match a {
      case DoOpenPalf(_, inited, openOk) =>
        if guard.handle.None? {
          var _ := OpenPalf(env, guard, inited, openOk);
        }
      case DoReset(_) => guard.Reset(env);
      case _ =>
    }
  }

  method IteratorActs(env: Env, it: Iterator, a: Action)
    requires env.Valid() && it.Valid() && it.Owned() <= env.live
    modifies env, it
    ensures env.Valid() && it.Valid() && Lawful(old(env.live), old(it.Owned()), env.live, it.Owned())
  {
    hide Lawful;
    LawfulUnchanged(env.live, it.Owned());
    LawfulRelease(env.live, it.Owned());
    match a {
      case DoSeek(_, argsOk, openOk, seekOk, functorOk) => var _ := Seek(env, it, argsOk, openOk, seekOk, functorOk);
      case DoDestroyIterator(_) => it.Destroy(env);
      case _ =>
    }
  }

  method HandlerActs(env: Env, handler: Handler, a: Action)
    requires env.Valid() && handler.Valid() && handler.Owned() <= env.live
    modifies env, handler
    ensures env.Valid() && handler.Valid() && Lawful(old(env.live), old(handler.Owned()), env.live, handler.Owned())
  {
    hide Lawful;
    LawfulUnchanged(env.live, handler.Owned());
    LawfulRelease(env.live, handler.Owned());
    match a {
      case DoInit(_, applyOk, openOk) => var _ := handler.Init(env, applyOk, openOk);
      case DoStop(_, applyStopOk) => handler.Stop(env, applyStopOk);
      case DoDestroyHandler(_) => handler.Destroy(env);
      case DoCreateLs(_, exist, createOk, statusOk, applyOk, openOk) =>
        var _ := CreateLs(env, handler, exist, createOk, statusOk, applyOk, openOk);
      case _ =>
    }
  }

  class Process {
    const env: Env
    const guards: seq<Guard>
    const iterators: seq<Iterator>
    const handlers: seq<Handler>

    ghost predicate Distinct()
    {
      && (forall i, j :: 0 <= i < j < |guards| ==> guards[i] != guards[j])
      && (forall i, j :: 0 <= i < j < |iterators| ==> iterators[i] != iterators[j])
      && (forall i, j :: 0 <= i < j < |handlers| ==> handlers[i] != handlers[j])
    }

    ghost predicate AllValid()
      reads env, guards, iterators, handlers
    {
      && env.Valid()
      && (forall i :: 0 <= i < |guards| ==> guards[i].Valid())
      && (forall i :: 0 <= i < |iterators| ==> iterators[i].Valid())
      && (forall i :: 0 <= i < |handlers| ==> handlers[i].Valid())
    }

    ghost predicate Has(k: Owner)
    {
      match k
      case TheGuard(i) => i < |guards|
      case TheIterator(i) => i < |iterators|
      case TheHandler(i) => i < |handlers|
    }

    ghost function Held(k: Owner): (h: set<nat>)
      requires Has(k)
      reads guards, iterators, handlers
      ensures |h| <= 1
    {
      match k
      case TheGuard(i) => guards[i].Owned()
      case TheIterator(i) => iterators[i].Owned()
      case TheHandler(i) => handlers[i].Owned()
    }

    ghost function Owners(): (ks: set<Owner>)
      ensures forall k :: k in ks <==> Has(k)
    {
      (set i | 0 <= i < |guards| :: TheGuard(i)) + (set i | 0 <= i < |iterators| :: TheIterator(i))
      + (set i | 0 <= i < |handlers| :: TheHandler(i))
    }

    ghost function Books(): Ledger
      reads env, guards, iterators, handlers
    {
      Ledger(env.live, map k | k in Owners() :: Held(k))
    }

    ghost predicate Valid()
      reads env, guards, iterators, handlers
    {
      Distinct() && AllValid() && Balanced(Books())
    }

    /** A process whose owners hold nothing yet. */
    constructor (env: Env, guards: seq<Guard>, iterators: seq<Iterator>, handlers: seq<Handler>)
      ensures this.env == env && this.guards == guards && this.iterators == iterators && this.handlers == handlers
    {
      this.env, this.guards, this.iterators, this.handlers := env, guards, iterators, handlers;
    }

    /** What an owner holds is in circulation. */
    lemma HeldIsLive(k: Owner)
      requires Valid() && Has(k)
      ensures Held(k) <= env.live
    {
      assert Books().owns[k] == Held(k);
    }

    /** Nobody but owner `k` has changed what it holds, and `k` has done so lawfully. */
    twostate lemma Settled(k: Owner)
      requires old(Valid()) && AllValid() && Has(k)
      requires forall m :: Has(m) && m != k ==> Held(m) == old(Held(m))
      requires Lawful(old(env.live), old(Held(k)), env.live, Held(k))
      ensures Valid()
    {
      hide OneOwner, Lawful;
      var before := old(Books());
      OneOwnerKept(before, k, Held(k), env.live);
      assert Books() == Ledger(env.live, before.owns[k := Held(k)]);
    }

    method OnGuard(i: nat, a: Action)
      requires Valid() && i < |guards|
      modifies env, guards[i]
      ensures Valid()
    {
      hide Balanced, Lawful, Owners;
      HeldIsLive(TheGuard(i));
      GuardActs(env, guards[i], a);
      assert forall m :: Has(m) && m != TheGuard(i) ==> Held(m) == old(Held(m));
      Settled(TheGuard(i));
    }

    method OnIterator(i: nat, a: Action)
      requires Valid() && i < |iterators|
      modifies env, iterators[i]
      ensures Valid()
    {
      hide Balanced, Lawful, Owners;
      HeldIsLive(TheIterator(i));
      IteratorActs(env, iterators[i], a);
      assert forall m :: Has(m) && m != TheIterator(i) ==> Held(m) == old(Held(m));
      Settled(TheIterator(i));
    }

    method OnHandler(i: nat, a: Action)
      requires Valid() && i < |handlers|
      modifies env, handlers[i]
      ensures Valid()
    {
      hide Balanced, Lawful, Owners;
      HeldIsLive(TheHandler(i));
      HandlerActs(env, handlers[i], a);
      assert forall m :: Has(m) && m != TheHandler(i) ==> Held(m) == old(Held(m));
      Settled(TheHandler(i));
    }

    method Check(inited: bool, answer: OpenAnswer)
      requires Valid()
      modifies env
      ensures Valid()
    {
      hide Balanced;
      ghost var before := Books();
      var _, _ := CheckPalfExist(env, inited, answer);
      assert forall m :: Has(m) ==> Held(m) == old(Held(m));
      assert Books() == before;
    }

    /** One action. An index that names no owner does nothing, and a guard is opened into only when it is empty. */
    method Act(a: Action)
      requires Valid()
      modifies env, guards, iterators, handlers
      ensures Valid()
    {
      hide Valid;
      if a.DoCheck? {
        Check(a.inited, a.answer);
      } else if a.DoOpenPalf? || a.DoReset? {
        if a.i < |guards| { OnGuard(a.i, a); }
      } else if a.DoSeek? || a.DoDestroyIterator? {
        if a.i < |iterators| { OnIterator(a.i, a); }
      } else {
        if a.i < |handlers| { OnHandler(a.i, a); }
      }
    }

    /** Conservation over every run of the code: however many guards, iterators and handlers there are, whatever
        they do in whatever order and whatever fails, every handle in circulation has exactly one owner and
        handles opened minus handles closed is the number of owners that hold one. */
    method RunActions(actions: seq<Action>)
      requires Valid()
      modifies env, guards, iterators, handlers
      ensures Valid() && Balanced(Books())
      ensures env.opens - env.closes == |Holders(Books().owns)|
    {
      hide Balanced;
      for n := 0 to |actions|
        invariant Valid()
      {
        Act(actions[n]);
      }
      LiveIsHolders(env.live, Books().owns);
    }

    /** And a process where nobody holds anything starts out in balance. */
    lemma StartsBalanced()
      requires Distinct() && AllValid() && env.live == {} && forall k :: Has(k) ==> Held(k) == {}
      ensures Valid()
    {
    }
  }
}
