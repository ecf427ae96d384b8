/**
 Deadlines of nested inner SQL (src/observer/ob_inner_sql_connection.cpp: TimeoutGuard, set_timeout,
 execute_with_timeout; src/oblib/common/ob_timeout_ctx.cpp).

 All times are microseconds. Every reading of the clock is a separate value, since
 set_timeout reads it several times.
 */
module InnerSqlTimeout {

  /** OB_MAX_USER_SPECIFIED_TIMEOUT: 102 years. */
  const MAX_USER_TIMEOUT: int := 102 * 365 * 24 * 60 * 60 * 1000 * 1000

  /** The thread's timeout context; a value that is not positive is not set. */
  datatype Ctx = Ctx(abs: int, trx: int)

  /** What set_timeout reads besides: whether the session is an inner one, the connection's own timeout
      and the configured default. */
  datatype Conn = Conn(inner: bool, userTimeout: int, defaultTimeout: int)

  /** The clock as set_timeout reads it, in program order: the start of the query, the expiry test, the
      two readings of the worker's remaining time, the reading of the context's. */
  datatype Clock = Clock(start: int, test: int, now: int, remain1: int, remain2: int, ctx: int)

  predicate Monotone(c: Clock) {
    0 <= c.test && c.start <= c.now <= c.remain1 <= c.remain2 <= c.ctx
  }

  /** The worker's deadline and the two session variables. */
  datatype Times = Times(deadline: int, query: int, trx: int)

  datatype Choice = Timeout | Chosen(timeout: int, trx: int, abs: int)

  /** Step 1: the worker's deadline, unless it is too far away to count. */
  function FromWorker(t: Times, c: Clock): Choice {
    if c.test >= t.deadline then Timeout
    else if t.deadline - c.remain1 < MAX_USER_TIMEOUT then
      Chosen(t.deadline - c.remain2, t.deadline - c.remain2, t.deadline)
    else Chosen(0, 0, 0)
  }

  /** Step 2: the context, when it is earlier or nothing is chosen yet. */
  function WithCtx(w: Choice, x: Ctx, c: Clock): Choice
    requires w.Chosen?
  {
    if x.abs <= 0 then w
    else
      var a := if x.abs < w.abs || w.abs == 0 then Chosen(x.abs - c.ctx, x.abs - c.ctx, x.abs) else w;
      var b := if x.trx > 0 then a.(trx := x.trx) else a;
      if b.timeout <= 0 then Timeout else b
  }

  /** Step 3: the default, when nothing is chosen. */
  function WithDefault(w: Choice, conn: Conn, c: Clock): Choice
    requires w.Chosen?
  {
    if w.abs != 0 then w
    else
      var d := if conn.userTimeout > 0 then conn.userTimeout else conn.defaultTimeout;
      Chosen(d, d, c.now + d)
  }

  function Choose(t: Times, x: Ctx, conn: Conn, c: Clock): Choice {
    var w := FromWorker(t, c);
    if w == Timeout then Timeout
    else
      var v := WithCtx(w, x, c);
      if v == Timeout then Timeout else WithDefault(v, conn, c)
  }

  predicate Resets(x: Ctx, conn: Conn) {
    conn.inner || x.abs > 0 || x.trx > 0
  }

  /** Which of the two session variables can be updated. */
  datatype Grant = Grant(query: bool, trx: bool)

  /** set_session_timeout: the second variable is left alone when the first is refused. */
  function SessionSet(t: Times, query: int, trx: int, g: Grant): Times {
    if !g.query then t
    else if !g.trx then t.(query := query)
    else t.(query := query, trx := trx)
  }

  predicate Granted(g: Grant) {
    g.query && g.trx
  }

  /** Whether set_timeout succeeds. */
  predicate SetOk(t: Times, x: Ctx, conn: Conn, c: Clock, g: Grant) {
    Choose(t, x, conn, c).Chosen? && (Resets(x, conn) ==> Granted(g))
  }

  /** The times after set_timeout; a refused variable leaves the deadline where it was. */
  function AfterSet(t: Times, x: Ctx, conn: Conn, c: Clock, g: Grant): Times {
    var v := Choose(t, x, conn, c);
    if v == Timeout || !Resets(x, conn) then t
    else
      var u := SessionSet(t, v.timeout, v.trx, g);
      if Granted(g) then u.(deadline := c.start + v.timeout) else u
  }

  /** What set_timeout writes, from the worker's deadline, the context and the connection. The query timeout is the
      remainder of the earlier of the worker's and the context's deadline, or the connection's or the default timeout
      when neither counts; the transaction timeout is the context's own if a context deadline comes with one, and the
      query timeout otherwise; the new deadline is the start of the query plus the query timeout. It fails when the
      worker's deadline or the remainder of a context has passed or the session refuses a variable, and a refusal
      leaves the deadline and whatever comes after it alone. */
  lemma WhatIsSet(t: Times, x: Ctx, conn: Conn, c: Clock, g: Grant)
    requires Monotone(c)
    ensures var counts := t.deadline - c.remain1 < 102 * 365 * 24 * 60 * 60 * 1000 * 1000;
            var byCtx := x.abs > 0 && (!counts || x.abs < t.deadline);
            var query := if byCtx then x.abs - c.ctx else if counts then t.deadline - c.remain2
                         else if conn.userTimeout > 0 then conn.userTimeout else conn.defaultTimeout;
            var trx := if x.abs > 0 && x.trx > 0 then x.trx else query;
            var inTime := c.test < t.deadline && (x.abs > 0 ==> query > 0);
            var writes := conn.inner || x.abs > 0 || x.trx > 0;
            && (SetOk(t, x, conn, c, g) <==> inTime && (writes ==> g.query && g.trx))
            && AfterSet(t, x, conn, c, g)
               == if !inTime || !writes || !g.query then t
                  else if !g.trx then Times(t.deadline, query, t.trx)
                  else Times(c.start + query, query, trx)
  {
  }

  /** The timeout is taken from the context or the default only, because the worker's own deadline is
      at least 102 years away. */
  predicate Unbounded(t: Times, c: Clock) {
    t.deadline - c.remain1 >= MAX_USER_TIMEOUT
  }

  /** When a nested set_timeout extends the deadline: exactly when the session takes it, the worker's own
      deadline does not count and the timeout taken instead reaches past it. */
  lemma ExtendsIff(t: Times, x: Ctx, conn: Conn, c: Clock, g: Grant)
    requires Monotone(c) && Choose(t, x, conn, c).Chosen?
    ensures AfterSet(t, x, conn, c, g).deadline > t.deadline
        <==> Resets(x, conn) && Granted(g) && Unbounded(t, c)
             && (if x.abs > 0 then x.abs - c.ctx
                 else if conn.userTimeout > 0 then conn.userTimeout else conn.defaultTimeout) > t.deadline - c.start
  {
  }

  /** It does happen: a worker deadline just at the user maximum and a connection timeout above it. */
  lemma ExtendsOnce()
    ensures var t := Times(MAX_USER_TIMEOUT, 0, 0);
            var x, conn, c := Ctx(0, 0), Conn(true, MAX_USER_TIMEOUT + 1, 0), Clock(0, 0, 0, 0, 0, 0);
            Monotone(c) && SetOk(t, x, conn, c, Grant(true, true))
            && AfterSet(t, x, conn, c, Grant(true, true)).deadline == t.deadline + 1
  {
  }

  /** Sane settings: the default and the remainder of the context are within the user maximum. */
  predicate Sane(x: Ctx, conn: Conn, c: Clock) {
    && conn.userTimeout <= MAX_USER_TIMEOUT
    && conn.defaultTimeout <= MAX_USER_TIMEOUT
    && x.abs - c.ctx <= MAX_USER_TIMEOUT
  }

  lemma NeverExtends(t: Times, x: Ctx, conn: Conn, c: Clock, g: Grant)
    requires Monotone(c) && Sane(x, conn, c)
    ensures AfterSet(t, x, conn, c, g).deadline <= t.deadline
    ensures x.abs > 0 && SetOk(t, x, conn, c, g) ==> AfterSet(t, x, conn, c, g).deadline <= x.abs
  {
    if Choose(t, x, conn, c).Chosen? {
      ExtendsIff(t, x, conn, c, g);
    }
  }

  // ---------------------------------------------------------------- nesting

  /** One execute_with_timeout or query, the calls its body makes, in order, and what the session grants on the
      way in and on the way out. */
  datatype Call = Call(x: Ctx, conn: Conn, c: Clock, grant: Grant, body: seq<Call>, restore: Grant)

  /** The destructor of the guard: the deadline is always put back, the session variables when they differ. */
  function Restored(saved: Times, now: Times, g: Grant): Times {
    var t := now.(deadline := saved.deadline);
    if now.query == saved.query && now.trx == saved.trx then t else SessionSet(t, saved.query, saved.trx, g)
  }

  /** The times when the call returns. */
  function After(t: Times, call: Call): Times
    decreases call, 1
  {
    var inside := AfterSet(t, call.x, call.conn, call.c, call.grant);
    var now := if SetOk(t, call.x, call.conn, call.c, call.grant) then AfterBody(inside, call.body) else inside;
    Restored(t, now, call.restore)
  }

  function AfterBody(t: Times, body: seq<Call>): Times
    decreases body, 0
  {
    if body == [] then t else AfterBody(After(t, body[0]), body[1..])
  }

  /** The latest deadline in force anywhere inside the call. */
  ghost function Latest(t: Times, call: Call): int
    decreases call, 1
  {
    if !SetOk(t, call.x, call.conn, call.c, call.grant) then t.deadline
    else
      var inside := AfterSet(t, call.x, call.conn, call.c, call.grant);
      Max(inside.deadline, LatestOf(inside, call.body))
  }

  ghost function LatestOf(t: Times, body: seq<Call>): int
    decreases body, 0
  {
    if body == [] then t.deadline else Max(Latest(t, body[0]), LatestOf(After(t, body[0]), body[1..]))
  }

  function Max(a: int, b: int): int {
    if a >= b then a else b
  }

  ghost predicate AllSane(call: Call)
    decreases call
  {
    Monotone(call.c) && Sane(call.x, call.conn, call.c) && forall k :: k in call.body ==> AllSane(k)
  }

  /** However deep inner SQL nests and whatever the session refuses, no deadline inside a call is later than the
      one at its start. */
  lemma {:induction false} NestingNeverExtends(t: Times, call: Call)
    requires AllSane(call)
    ensures Latest(t, call) <= t.deadline
    decreases call, 1
  {
    hide Choose, Resets;
    if SetOk(t, call.x, call.conn, call.c, call.grant) {
      NeverExtends(t, call.x, call.conn, call.c, call.grant);
      BodyNeverExtends(AfterSet(t, call.x, call.conn, call.c, call.grant), call.body);
    }
  }

  lemma {:induction false} BodyNeverExtends(t: Times, body: seq<Call>)
    requires forall k :: k in body ==> AllSane(k)
    ensures LatestOf(t, body) <= t.deadline
    decreases body, 0
  {
    if body != [] {
      assert body[0] in body;
      NestingNeverExtends(t, body[0]);
      DeadlineComesBack(t, body[0]);
      BodyNeverExtends(After(t, body[0]), body[1..]);
    }
  }

  /** The worker deadline is back after every call, whatever the session refuses. */
  lemma DeadlineComesBack(t: Times, call: Call)
    ensures After(t, call).deadline == t.deadline
  {
    hide AfterSet, SetOk, AfterBody;
  }

  /** A call that comes too late does nothing at all: its body does not run, and all three are as they were. */
  lemma TooLate(t: Times, call: Call)
    requires call.c.test >= t.deadline
    ensures After(t, call) == t && Latest(t, call) == t.deadline
  {
    hide AfterBody, LatestOf;
  }

  /** All three are back after every call of whatever nesting, if and only if the session takes the old values
      back. */
  lemma TimesComeBackIff(restore: Grant)
    ensures (forall t, call: Call :: call.restore == restore ==> After(t, call) == t) <==> Granted(restore)
  {
    if Granted(restore) {
      forall t, call: Call | call.restore == restore ensures After(t, call) == t {
        GrantedComesBack(t, call);
      }
    } else {
      var t, call := RefusedStays(restore);
    }
  }

  /** An inner session whose timeouts were zero keeps the ones set on the way in. */
  lemma RefusedStays(restore: Grant) returns (t: Times, call: Call)
    requires !Granted(restore)
    ensures call.restore == restore && After(t, call) != t
  {
    t := Times(10, 0, 0);
    call := Call(Ctx(0, 0), Conn(true, 0, 0), Clock(0, 0, 0, 0, 0, 0), Grant(true, true), [], restore);
    assert AfterSet(t, call.x, call.conn, call.c, call.grant) == Times(10, 10, 10);
  }

  lemma GrantedComesBack(t: Times, call: Call)
    requires Granted(call.restore)
    ensures After(t, call) == t
  {
    hide AfterSet, SetOk, AfterBody;
  }

  // ---------------------------------------------------------------- the session

  class Session {
    var deadline: int
    var queryTimeout: int
    var trxTimeout: int
    var queryStart: int

    ghost function Now(): Times
      reads this
    {
      Times(deadline, queryTimeout, trxTimeout)
    }

    method SetSessionTimeout(query: int, trx: int, g: Grant) returns (ok: bool)
      modifies `queryTimeout, `trxTimeout
      ensures ok == Granted(g) && Now() == SessionSet(old(Now()), query, trx, g)
    {
      ok := g.query;
      if ok {
        queryTimeout := query;
        ok := g.trx;
        if ok {
          trxTimeout := trx;
        }
      }
    }

    method SetTimeout(x: Ctx, conn: Conn, c: Clock, g: Grant) returns (ok: bool)
      requires queryStart == c.start
      modifies `deadline, `queryTimeout, `trxTimeout
      ensures ok == SetOk(old(Now()), x, conn, c, g)
      ensures Now() == AfterSet(old(Now()), x, conn, c, g)
    {
      var timeout, trx, abs := 0, 0, 0;
      ok := c.test < deadline;
      if ok && deadline - c.remain1 < MAX_USER_TIMEOUT {
        timeout := deadline - c.remain2;
        abs := deadline;
        trx := timeout;
      }
      if ok && x.abs > 0 {
        if x.abs < abs || abs == 0 {
          abs := x.abs;
          timeout := x.abs - c.ctx;
          trx := timeout;
        }
        if x.trx > 0 {
          trx := x.trx;
        }
        if timeout <= 0 {
          ok := false;
        }
      }
      if ok && abs == 0 {
        timeout := if conn.userTimeout > 0 then conn.userTimeout else conn.defaultTimeout;
        trx := timeout;
        abs := c.now + timeout;
      }
      if ok && (conn.inner || x.abs > 0 || x.trx > 0) {
        ok := SetSessionTimeout(timeout, trx, g);
        if ok {
          deadline := queryStart + timeout;
        }
      }
    }

    /** execute_with_timeout: save, set, run whatever is nested inside, and put back; `latest` is the latest
        deadline that was in force. */
    method Execute(call: Call) returns (latest: int)
      modifies this
      ensures Now() == After(old(Now()), call)
      ensures latest == Latest(old(Now()), call)
      decreases call
    {
      hide AfterSet, SetOk;
      queryStart := call.c.start;
      var savedDeadline, savedQuery, savedTrx := deadline, queryTimeout, trxTimeout;
      latest := deadline;
      var ok := SetTimeout(call.x, call.conn, call.c, call.grant);
      if ok {
        ghost var inside := Now();
        latest := deadline;
        var i := 0;
        while i < |call.body|
          invariant 0 <= i <= |call.body|
          invariant AfterBody(Now(), call.body[i..]) == AfterBody(inside, call.body)
          invariant Max(latest, LatestOf(Now(), call.body[i..])) == Latest(old(Now()), call) && latest >= Now().deadline
        {
          assert call.body[i..][1..] == call.body[i + 1..];
          DeadlineComesBack(Now(), call.body[i]);
          var nested := Execute(call.body[i]);
          latest := Max(latest, nested);
          i := i + 1;
        }
      }
      deadline := savedDeadline;
      if queryTimeout != savedQuery || trxTimeout != savedTrx {
        var _ := SetSessionTimeout(savedQuery, savedTrx, call.restore);
      }
    }
  }
}
