/**
 Cleaning up the tables left behind by failed CREATE TABLE AS SELECT statements and by temporary
 tables of closed sessions (src/observer/ob_server.cpp: ObCTASCleanUpTask, ObCTASCleanUp,
 clean_up_invalid_tables, request_ctas_cleanup).
 */
module CtasCleanup {

  import opened Wrappers

  /** What try_lock_query answers: the lock, OB_EAGAIN, or another error. */
  datatype LockAnswer = Free | InUse | LockFails

  /** An entry of the session map, which holds and hands out no null sessions. */
  datatype Session = Session(id: int, lock: LockAnswer, lastActive: int, created: int)

  datatype Rule = CtasRule | TempTableRule

  /** The tolerance of the time stamp comparison. */
  const TOLERANCE: int := 100

  function TimeOf(s: Session, rule: Rule): int {
    if rule.CtasRule? then s.lastActive else s.created
  }

  /** The session that made the table is gone: this one only reuses its id. */
  predicate Reused(s: Session, rule: Rule, version: int) {
    s.lock.Free? && TimeOf(s, rule) >= version + TOLERANCE
  }

  predicate Agrees(s: Session, id: int, rule: Rule, version: int) {
    s.id == id ==> Reused(s, rule, version)
  }

  /** The first session, in walking order, that does not agree to dropping. */
  function Objection(sessions: seq<Session>, id: int, rule: Rule, version: int): Option<Session> {
    if sessions == [] then None
    else if !Agrees(sessions[0], id, rule, version) then Some(sessions[0])
    else Objection(sessions[1..], id, rule, version)
  }

  /** Whether a walk in this order has the table dropped. */
  predicate Verdict(sessions: seq<Session>, id: int, rule: Rule, version: int) {
    Objection(sessions, id, rule, version).None?
  }

  lemma {:induction false} ObjectionFound(sessions: seq<Session>, id: int, rule: Rule, version: int)
    ensures Objection(sessions, id, rule, version).None?
        <==> forall s :: s in sessions ==> Agrees(s, id, rule, version)
    ensures Objection(sessions, id, rule, version).Some? ==>
              && Objection(sessions, id, rule, version).value in sessions
              && !Agrees(Objection(sessions, id, rule, version).value, id, rule, version)
  {
    if sessions != [] {
      var first, rest := sessions[0], sessions[1..];
      ObjectionFound(rest, id, rule, version);
      if Objection(sessions, id, rule, version).None? {
        forall s | s in sessions ensures Agrees(s, id, rule, version) {
          if s != first { assert s in rest; }
        }
      } else {
        var s := Objection(sessions, id, rule, version).value;
        assert s in sessions && !Agrees(s, id, rule, version);
      }
    }
  }

  /** The declarative rule: every session with the table's id can be locked and is younger than the table. */
  ghost predicate MayDrop(sessions: seq<Session>, id: int, rule: Rule, version: int) {
    forall s :: s in sessions && s.id == id ==>
      s.lock == Free && (match rule case CtasRule => s.lastActive case TempTableRule => s.created) >= version + 100
  }

  /** Every walk reaches the verdict of the rule. */
  lemma VerdictIsTheRule(sessions: seq<Session>, id: int, rule: Rule, version: int)
    ensures Verdict(sessions, id, rule, version) <==> MayDrop(sessions, id, rule, version)
  {
    ObjectionFound(sessions, id, rule, version);
  }

  /** So the verdict is the same in whatever order the map is walked. */
  lemma VerdictIgnoresOrder(a: seq<Session>, b: seq<Session>, id: int, rule: Rule, version: int)
    requires multiset(a) == multiset(b)
    ensures Verdict(a, id, rule, version) <==> Verdict(b, id, rule, version)
  {
    SameEntries(a, b);
    VerdictIsTheRule(a, id, rule, version);
    VerdictIsTheRule(b, id, rule, version);
  }

  lemma SameEntries(a: seq<Session>, b: seq<Session>)
    requires multiset(a) == multiset(b)
    ensures forall s :: s in a <==> s in b
  {
    forall s ensures s in a <==> s in b {
      assert s in a <==> s in multiset(a);
      assert s in b <==> s in multiset(b);
    }
  }

  // ---------------------------------------------------------------- one pass

  datatype DropAnswer = Dropped | InRecyclebin | DropFails

  /** What the schema says of a table. */
  datatype Schema = Schema(found: bool, sessionId: int, version: int, isTemp: bool)

  /** One table id as a pass meets it: its schema, the sessions walked for it and the answer of the drop. */
  datatype Table = Table(schema: Schema, sessions: seq<Session>, drop: DropAnswer)

  function RuleOf(t: Schema): Rule {
    if t.isTemp then TempTableRule else CtasRule
  }

  /** A table of a session: being created, left over, or temporary. */
  predicate Suspect(t: Schema) {
    t.found && t.sessionId != 0
  }

  function Against(t: Table): Option<Session> {
    Objection(t.sessions, t.schema.sessionId, RuleOf(t.schema), t.schema.version)
  }

  predicate Spared(t: Table) {
    Suspect(t.schema) && Against(t).Some?
  }

  /** The session walk broke off at a query lock that failed with an error. */
  predicate BrokenOff(t: Table) {
    Spared(t) && Against(t).value.lock.LockFails?
  }

  /** The session check asks for another look at the table. */
  predicate Recheck(t: Table) {
    Spared(t) && !BrokenOff(t)
  }

  predicate Dropping(t: Table) {
    Suspect(t.schema) && Against(t).None?
  }

  /** How the handling of one table ends. */
  predicate Ends(t: Table) {
    if !t.schema.found then false
    else if Dropping(t) then !t.drop.DropFails?
    else !BrokenOff(t)
  }

  /** A table is dropped by its session's id, the lock of the sessions with that id and the time stamp its kind goes by:
      a temporary table by the creation of the session, one left by a CTAS by the session's last activity. */
  lemma DroppingIff(t: Table)
    ensures Dropping(t) <==>
              && t.schema.found && t.schema.sessionId != 0
              && forall s :: s in t.sessions && s.id == t.schema.sessionId ==>
                   && s.lock == Free
                   && (t.schema.isTemp ==> s.created >= t.schema.version + 100)
                   && (!t.schema.isTemp ==> s.lastActive >= t.schema.version + 100)
  {
    ObjectionFound(t.sessions, t.schema.sessionId, RuleOf(t.schema), t.schema.version);
  }

  lemma {:induction false} ObjectionIsFirst(sessions: seq<Session>, id: int, rule: Rule, version: int) returns (k: nat)
    requires Objection(sessions, id, rule, version).Some?
    ensures k < |sessions| && Objection(sessions, id, rule, version) == Some(sessions[k])
    ensures !Agrees(sessions[k], id, rule, version)
    ensures forall j :: 0 <= j < k ==> Agrees(sessions[j], id, rule, version)
  {
    if Agrees(sessions[0], id, rule, version) {
      var m := ObjectionIsFirst(sessions[1..], id, rule, version);
      k := m + 1;
      forall j | 0 <= j < k ensures Agrees(sessions[j], id, rule, version) {
        if j > 0 { assert sessions[j] == sessions[1..][j - 1]; }
      }
    } else {
      k := 0;
    }
  }

  /** The session with the table's id that keeps it, at its position in the walk, is one in use or too old. */
  ghost predicate Keeps(s: Session, t: Schema) {
    && s.id == t.sessionId
    && (s.lock != Free || (if t.isTemp then s.created else s.lastActive) < t.version + 100)
  }

  /** A spared table is asked about again exactly if the first session that keeps it could be asked, and breaks its walk
      off exactly if that session's lock failed. */
  lemma SparedIff(t: Table)
    ensures Spared(t) <==> t.schema.found && t.schema.sessionId != 0 && exists s :: s in t.sessions && Keeps(s, t.schema)
    ensures forall k :: 0 <= k < |t.sessions| && Keeps(t.sessions[k], t.schema)
                        && (forall j :: 0 <= j < k ==> !Keeps(t.sessions[j], t.schema)) ==>
              && (BrokenOff(t) <==> t.schema.found && t.schema.sessionId != 0 && t.sessions[k].lock == LockFails)
              && (Recheck(t) <==> t.schema.found && t.schema.sessionId != 0 && t.sessions[k].lock != LockFails)
  {
    var id, rule, version := t.schema.sessionId, RuleOf(t.schema), t.schema.version;
    ObjectionFound(t.sessions, id, rule, version);
    forall s ensures Agrees(s, id, rule, version) <==> !Keeps(s, t.schema) {}
    if Against(t).Some? {
      var n := ObjectionIsFirst(t.sessions, id, rule, version);
      assert t.sessions[n] in t.sessions;
      forall k | 0 <= k < |t.sessions| && Keeps(t.sessions[k], t.schema)
                 && (forall j :: 0 <= j < k ==> !Keeps(t.sessions[j], t.schema))
        ensures k == n
      {
      }
    }
  }

  /** The return code is that of the last table only: an earlier failure is overwritten. */
  predicate PassOk(tables: seq<Table>) {
    tables == [] || Ends(tables[|tables| - 1])
  }

  ghost predicate Raised(tables: seq<Table>) {
    exists i :: 0 <= i < |tables| && Recheck(tables[i])
  }

  /** The indices of the tables a pass drops. */
  function DroppedIn(tables: seq<Table>): seq<nat> {
    var n := |tables|;
    if n == 0 then []
    else DroppedIn(tables[..n - 1]) + if Dropping(tables[n - 1]) && tables[n - 1].drop.Dropped? then [n - 1] else []
  }

  /** After a pass that did clean up, the flag is set exactly when some table asked for another look or the last
      table failed. */
  ghost predicate FlagAfter(tables: seq<Table>) {
    Raised(tables) || !PassOk(tables)
  }

  lemma RaisedMore(tables: seq<Table>, i: nat)
    requires i < |tables|
    ensures Raised(tables[..i + 1]) <==> Raised(tables[..i]) || Recheck(tables[i])
  {
    var a, b := tables[..i], tables[..i + 1];
    if Raised(a) {
      var k :| 0 <= k < |a| && Recheck(a[k]);
      assert b[k] == a[k];
    }
    if Recheck(tables[i]) { assert b[i] == tables[i]; }
    if Raised(b) {
      var k :| 0 <= k < |b| && Recheck(b[k]);
      if k < i { assert a[k] == b[k]; }
    }
  }

  /** An ordinary table. */
  const ORDINARY: Table := Table(Schema(true, 0, 0, false), [], Dropped)

  /** A spared table is looked at again whatever other tables the pass meets, if and only if its walk did not break
      off. */
  lemma SparedIsRecheckedIff(t: Table)
    requires Spared(t)
    ensures (forall before, after :: FlagAfter(before + [t] + after)) <==> !BrokenOff(t)
  {
    if BrokenOff(t) {
      BrokenWalkIsForgotten(t);
    } else {
      forall before, after ensures FlagAfter(before + [t] + after) {
        var tables: seq<Table> := before + [t] + after;
        assert tables[|before|] == t && Recheck(tables[|before|]);
      }
    }
  }

  /** An ordinary table behind one whose walk broke off has it forgotten. */
  lemma BrokenWalkIsForgotten(t: Table)
    requires BrokenOff(t)
    ensures !FlagAfter([] + [t] + [ORDINARY])
  {
    var tables: seq<Table> := [] + [t] + [ORDINARY];
    assert tables[0] == t && tables[1] == ORDINARY && |tables| == 2;
    assert forall i :: 0 <= i < |tables| ==> !Recheck(tables[i]);
  }

  /** The handling of a table fails in one of three ways. */
  lemma FailsIff(t: Table)
    ensures !Ends(t) <==> || !t.schema.found
                          || (Dropping(t) && t.drop == DropFails)
                          || BrokenOff(t)
  {
  }

  /** A table that could not be read or not be dropped is tried again only if it is the last one of the pass, or another
      one has the flag set: the tables behind it overwrite the code. */
  lemma FailureIsRetriedIff(before: seq<Table>, t: Table, after: seq<Table>)
    requires !t.schema.found || (Dropping(t) && t.drop == DropFails)
    ensures FlagAfter(before + [t] + after) <==>
              || after == [] || !Ends(after[|after| - 1])
              || exists u :: (u in before || u in after) && Recheck(u)
  {
    var tables := before + [t] + after;
    var n := |before|;
    assert tables[n] == t && !Recheck(t);
    assert forall i :: 0 <= i < n ==> tables[i] == before[i];
    assert forall i :: 0 <= i < |after| ==> tables[n + 1 + i] == after[i];
    if u :| (u in before || u in after) && Recheck(u) {
      if u in before {
        var i :| 0 <= i < n && before[i] == u;
        assert Recheck(tables[i]);
      } else {
        var i :| 0 <= i < |after| && after[i] == u;
        assert Recheck(tables[n + 1 + i]);
      }
    }
    if Raised(tables) {
      var i :| 0 <= i < |tables| && Recheck(tables[i]);
      assert i != n && (tables[i] in before || tables[i] in after);
    }
  }

  /** A lock that fails with another error than being in use breaks a walk off. The latch behind it has one such
      error, that of its argument test. */
  lemma BrokenWalk()
    ensures BrokenOff(Table(Schema(true, 7, 0, false), [Session(7, LockFails, 0, 0)], Dropped))
  {
    assert Objection([Session(7, LockFails, 0, 0)], 7, CtasRule, 0) == Some(Session(7, LockFails, 0, 0));
  }

  // ---------------------------------------------------------------- the walk

  /** The functor during a walk; `going` falls when it answers false, which ends the walk. */
  datatype Walk = Walk(sessionId: int, version: int, rule: Rule, dropFlag: bool, going: bool)

  function WalkFor(t: Schema): Walk {
    Walk(t.sessionId, t.version, RuleOf(t), true, true)
  }

  /** One session: the functor afterwards, and whether it asks for another look. */
  function VisitOne(w: Walk, s: Session): (Walk, bool) {
    if !w.dropFlag || Agrees(s, w.sessionId, w.rule, w.version) then (w, false)
    else if s.lock.LockFails? then (w.(dropFlag := false, going := false), false)
    else (w.(dropFlag := false), true)
  }

  /** A whole walk. */
  function VisitAll(w: Walk, sessions: seq<Session>): (Walk, bool)
    decreases |sessions|
  {
    if sessions == [] || !w.going then (w, false)
    else
      var (x, asks) := VisitOne(w, sessions[0]);
      var (y, more) := VisitAll(x, sessions[1..]);
      (y, asks || more)
  }

  lemma {:induction false} SettledWalk(w: Walk, sessions: seq<Session>)
    requires !w.dropFlag
    ensures VisitAll(w, sessions) == (w, false)
    decreases |sessions|
  {
    if sessions != [] && w.going {
      SettledWalk(w, sessions[1..]);
    }
  }

  /** What a walk comes to is decided by the first session that does not agree. */
  lemma {:induction false} WalkIsVerdict(w: Walk, sessions: seq<Session>)
    requires w.dropFlag && w.going
    ensures var o := Objection(sessions, w.sessionId, w.rule, w.version);
            VisitAll(w, sessions)
            == if o.None? then (w, false)
               else if o.value.lock.LockFails? then (w.(dropFlag := false, going := false), false)
               else (w.(dropFlag := false), true)
    decreases |sessions|
  {
    if sessions != [] {
      var (x, asks) := VisitOne(w, sessions[0]);
      if x.dropFlag && x.going {
        WalkIsVerdict(w, sessions[1..]);
      } else if x.going {
        SettledWalk(x, sessions[1..]);
      }
    }
  }

  // ---------------------------------------------------------------- the server

  class Server {
    var needCleanup: bool
    var dropped: seq<nat>

    method Request()
      modifies `needCleanup
      ensures needCleanup
    {
      needCleanup := true;
    }

    /** clean_up_invalid_tables: one functor serves all tables. */
    method CleanUpInvalidTables(tables: seq<Table>) returns (ok: bool)
      modifies this
      ensures ok == PassOk(tables)
      ensures needCleanup <==> old(needCleanup) || Raised(tables)
      ensures dropped == old(dropped) + DroppedIn(tables)
    {
      ok := true;
      var walker := new Walker(this);
      for i := 0 to |tables|
        invariant fresh(walker) && walker.obs == this && walker.locked == {}
        invariant ok == PassOk(tables[..i])
        invariant needCleanup <==> old(needCleanup) || Raised(tables[..i])
        invariant dropped == old(dropped) + DroppedIn(tables[..i])
      {
        assert tables[..i + 1][..i] == tables[..i] && tables[..i + 1][i] == tables[i];
        RaisedMore(tables, i);
        ok := CleanUpTable(walker, i, tables[i]);
      }
      assert tables[..|tables|] == tables;
    }

    /** The body of the loop. Whatever the tables before have left in the functor, the outcome is that of this table
        alone. */
    method CleanUpTable(walker: Walker, i: nat, t: Table) returns (ok: bool)
      requires walker.obs == this && walker.locked == {}
      modifies this, walker
      ensures walker.locked == {}
      ensures ok == Ends(t)
      ensures needCleanup <==> old(needCleanup) || Recheck(t)
      ensures dropped == old(dropped) + if Dropping(t) && t.drop.Dropped? then [i] else []
      ensures dropped == old(dropped) + [i] <==>
                && t.schema.found && t.schema.sessionId != 0 && t.drop.Dropped?
                && forall s :: s in t.sessions && s.id == t.schema.sessionId ==>
                     && s.lock == Free
                     && (t.schema.isTemp ==> s.created >= t.schema.version + 100)
                     && (!t.schema.isTemp ==> s.lastActive >= t.schema.version + 100)
    {
      DroppingIff(t);
      ok := t.schema.found;
      if t.schema.found && t.schema.sessionId != 0 {
        walker.dropFlag := false;
        walker.rule := if t.schema.isTemp then TempTableRule else CtasRule;
        if !walker.dropFlag {
          walker.sessionId, walker.version := t.schema.sessionId, t.schema.version;
          walker.dropFlag := true;
          WalkIsVerdict(WalkFor(t.schema), t.sessions);
          ok := walker.ForEachSession(t.sessions);
        }
        if walker.dropFlag {
          ok := !t.drop.DropFails?;
          if t.drop.Dropped? {
            dropped := dropped + [i];
          }
        }
      }
    }

    /** runTimerTask: the flag is cleared before the pass, and set again by whatever happens since.
        `listed` says whether the table ids could be read at all. */
    method RunTimerTask(listed: bool, tables: seq<Table>)
      modifies this
      ensures old(needCleanup) ==>
                && (needCleanup <==> !listed || FlagAfter(tables))
                && dropped == old(dropped) + if listed then DroppedIn(tables) else []
      ensures !old(needCleanup) ==> !needCleanup && dropped == old(dropped)
      ensures old(needCleanup) && listed ==> forall i :: 0 <= i < |tables| && Recheck(tables[i]) ==> needCleanup
    {
      var need := needCleanup;
      needCleanup := false;
      if need {
        var ok := false;
        if listed {
          ok := CleanUpInvalidTables(tables);
        }
        if !ok {
          needCleanup := true;
        }
      }
    }
  }

  /** ObCTASCleanUp: the functor applied to every session. `locked` are the query locks it holds. */
  class Walker {
    const obs: Server
    var sessionId: int
    var version: int
    var rule: Rule
    var dropFlag: bool
    var locked: set<int>

    constructor (obs: Server)
      ensures this.obs == obs && locked == {}
    {
      this.obs, sessionId, version, rule := obs, 0, 0, CtasRule;
      dropFlag, locked := true, {};
    }

    ghost function Now(going: bool): Walk
      reads this
    {
      Walk(sessionId, version, rule, dropFlag, going)
    }

    /** One session. The query lock is given back in every case. */
    method Visit(s: Session) returns (goOn: bool)
      requires locked == {}
      modifies `dropFlag, `locked, obs`needCleanup
      ensures locked == {}
      ensures Now(goOn) == VisitOne(old(Now(true)), s).0
      ensures obs.needCleanup <==> old(obs.needCleanup) || VisitOne(old(Now(true)), s).1
      ensures dropFlag <==> old(dropFlag) && (s.id == sessionId ==>
                s.lock == Free && (match rule case CtasRule => s.lastActive case TempTableRule => s.created) >= version + 100)
      ensures !goOn <==> old(dropFlag) && s.id == sessionId && s.lock == LockFails
    {
      goOn := true;
      if !dropFlag {
      } else if s.id == sessionId {
        if !s.lock.Free? {
          if s.lock.LockFails? {
            goOn := false;
          } else {
            obs.needCleanup := true;
          }
          dropFlag := false;
        } else {
          locked := locked + {s.id};
          if rule.CtasRule? {
            if s.lastActive < version + TOLERANCE {
              locked := locked - {s.id};
              dropFlag := false;
              obs.needCleanup := true;
            } else {
              locked := locked - {s.id};
            }
          } else {
            if s.created < version + TOLERANCE {
              locked := locked - {s.id};
              dropFlag := false;
              obs.needCleanup := true;
            } else {
              locked := locked - {s.id};
            }
          }
        }
      }
    }

    method ForEachSession(sessions: seq<Session>) returns (ok: bool)
      requires locked == {}
      modifies `dropFlag, `locked, obs`needCleanup
      ensures locked == {}
      ensures Now(ok) == VisitAll(old(Now(true)), sessions).0
      ensures obs.needCleanup <==> old(obs.needCleanup) || VisitAll(old(Now(true)), sessions).1
    {
      ok := true;
      var i := 0;
      ghost var all := VisitAll(Now(true), sessions);
      while i < |sessions| && ok
        invariant 0 <= i <= |sessions| && locked == {}
        invariant VisitAll(Now(ok), sessions[i..]).0 == all.0
        invariant old(obs.needCleanup) || all.1 <==> obs.needCleanup || VisitAll(Now(ok), sessions[i..]).1
      {
        assert sessions[i..][0] == sessions[i] && sessions[i..][1..] == sessions[i + 1..];
        ok := Visit(sessions[i]);
        i := i + 1;
      }
    }
  }
}
