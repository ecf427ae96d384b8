/**
 Inner SQL execution: the result object with its one-row prefetch
 (src/observer/ob_inner_sql_result.cpp) and the retry loop that rebuilds it
 (src/observer/ob_inner_sql_connection.cpp).
 */
module InnerSqlResult {

  import opened Wrappers

  type Row = int

  datatype Code = Success | IterEnd | NotInit | InitTwice | Failure(n: int)

  /** What init() of a rebuilt result answers when it fails. */
  const INIT_FAILED: Code := Failure(-1)

  /** What the SQL engine does when a statement is executed once: how the set-up, the execution and the
      opening of the result set end, the rows it yields, and what it answers after them. */
  datatype Attempt = Attempt(
    setup: Code, execute: Code, opens: Code, rows: seq<Row>, tail: Code, isSelect: bool, prepareOnly: bool)

  predicate Sensible(a: Attempt) {
    && (a.setup == Success || a.setup.Failure?)
    && (a.execute == Success || a.execute.Failure?)
    && (a.opens == Success || a.opens.Failure?)
    && (a.tail == IterEnd || a.tail.Failure?)
  }

  /** The first row is fetched by open() itself, so its failure is a failure of open(). */
  function OpenRet(a: Attempt): Code {
    if a.opens != Success then a.opens
    else if a.isSelect && a.rows == [] && a.tail != IterEnd then a.tail
    else Success
  }

  /** do_query */
  function QueryRet(a: Attempt): Code {
    if a.execute != Success then a.execute
    else if a.prepareOnly then Success
    else OpenRet(a)
  }

  class Result {
    // the engine's result set
    var attempt: Attempt
    var pos: nat
    // the fields of the inner SQL result
    var inited: bool
    var isOpen: bool
    var storeFirstRow: bool
    var iterEnd: bool
    var isRead: bool
    var row: Option<Row>

    ghost predicate Valid()
      reads this
    {
      && Sensible(attempt) && pos <= |attempt.rows|
      && (isOpen ==> inited)
      && (storeFirstRow ==> isOpen && pos == 1 && row == Some(attempt.rows[0]))
      && (iterEnd ==> isOpen && !storeFirstRow && pos == |attempt.rows| && attempt.tail == IterEnd)
    }

    /** A newly constructed result, not opened. */
    ghost predicate Closed()
      reads this
    {
      Valid() && !isOpen && !storeFirstRow && !iterEnd
    }

    /** How many rows the reader has seen: the prefetched one counts as unseen. */
    ghost function Seen(): (n: nat)
      requires Valid()
      reads this
      ensures n <= |attempt.rows|
    {
      if storeFirstRow then 0 else pos
    }

    constructor (a: Attempt)
      requires Sensible(a)
      ensures Closed() && attempt == a && inited && isRead && pos == 0
    {
      attempt, pos, inited, isOpen, storeFirstRow, iterEnd, isRead, row := a, 0, true, false, false, false, true, None;
    }

    /** The engine's get_next_row. */
    method GetNextRow() returns (ret: Code)
      requires pos <= |attempt.rows|
      modifies `pos, `row
      ensures if old(pos) < |attempt.rows|
              then ret == Success && pos == old(pos) + 1 && row == Some(attempt.rows[old(pos)])
              else ret == attempt.tail && pos == old(pos) && row == old(row)
    {
      if pos < |attempt.rows| {
        row := Some(attempt.rows[pos]);
        pos := pos + 1;
        ret := Success;
      } else {
        ret := attempt.tail;
      }
    }

    /** Opening prefetches a row of a select, and yet the reader has seen none. */
    method Open() returns (ret: Code)
      requires Valid() && (!isOpen ==> Closed() && pos == 0)
      modifies `isOpen, `storeFirstRow, `iterEnd, `pos, `row
      ensures Valid()
      ensures !inited ==> ret == NotInit && isOpen == old(isOpen)
      ensures inited && old(isOpen) ==> ret == InitTwice && Seen() == old(Seen())
      ensures inited && !old(isOpen) && isRead ==>
                ret == OpenRet(attempt) && (ret == Success ==> isOpen && Seen() == 0)
      ensures inited && !old(isOpen) && !isRead ==>
                ret == attempt.opens && (ret == Success ==> isOpen && Seen() == 0)
    {
      ret := Success;
      if !inited {
        ret := NotInit;
      } else if isOpen {
        ret := InitTwice;
      } else if attempt.opens != Success {
        ret := attempt.opens;
      } else if isRead && attempt.isSelect {
        isOpen := true;
        ret := GetNextRow();
        if ret == IterEnd {
          iterEnd := true;
          ret := Success;
        } else if ret == Success {
          storeFirstRow := true;
        }
      } else {
        isOpen := true;
      }
    }

    /** The reader's view: the next row it has not seen, or the answer behind the last one; nothing when
        the result is not open. */
    method Next() returns (ret: Code)
      requires Valid()
      modifies `storeFirstRow, `pos, `row
      ensures Valid()
      ensures !isOpen ==> ret == NotInit && Seen() == old(Seen())
      ensures isOpen && old(Seen()) < |attempt.rows| ==>
                ret == Success && row == Some(attempt.rows[old(Seen())]) && Seen() == old(Seen()) + 1
      ensures isOpen && old(Seen()) == |attempt.rows| ==> ret == attempt.tail && Seen() == old(Seen())
    {
      ret := Success;
      if !isOpen {
        ret := NotInit;
      } else if iterEnd {
        ret := IterEnd;
      } else if storeFirstRow {
        storeFirstRow := false;
      } else {
        row := None;
        ret := GetNextRow();
      }
    }

    /** inner_close, also reached by force_close on a result that never opened. */
    method ForceClose()
      requires Valid()
      modifies `isOpen, `storeFirstRow, `iterEnd
      ensures Closed()
    {
      isOpen, storeFirstRow, iterEnd := false, false, false;
    }

    method Close()
      requires Valid()
      modifies `isOpen, `storeFirstRow, `iterEnd
      ensures Closed()
    {
      if isOpen { ForceClose(); }
    }

    /** Destroying and constructing the result again in place, before a retry. */
    method Rebuild(a: Attempt, initOk: bool) returns (ret: Code)
      requires Valid() && Sensible(a)
      modifies this
      ensures Closed() && attempt == a && pos == 0 && isRead
      ensures inited == initOk && ret == if initOk then Success else INIT_FAILED
    {
      Close();
      attempt, pos, row, isRead := a, 0, None, true;
      inited := initOk;
      ret := if initOk then Success else INIT_FAILED;
    }
  }

  // ---------------------------------------------------------------- the retry loop

  /** What the retry controller decides about a failed attempt, and what set-up and init do. */
  datatype Decision = Decision(retry: bool, clientRet: Code, initOk: bool)

  predicate Final(a: Attempt, d: Decision) {
    !d.initOk || a.setup != Success || QueryRet(a) == Success || !d.retry
  }

  /** The attempt a query ends with: the first one that is not retried. */
  function LastAttempt(attempts: seq<Attempt>, decisions: seq<Decision>, i: nat): (k: nat)
    requires |decisions| == |attempts| && i < |attempts| && Final(attempts[|attempts| - 1], decisions[|attempts| - 1])
    ensures i <= k < |attempts| && Final(attempts[k], decisions[k])
    ensures forall j :: i <= j < k ==> !Final(attempts[j], decisions[j])
    decreases |attempts| - i
  {
    if Final(attempts[i], decisions[i]) then i else LastAttempt(attempts, decisions, i + 1)
  }

  /** What the query returns for its last attempt. */
  function FinalRet(a: Attempt, d: Decision): Code {
    if !d.initOk then INIT_FAILED
    else if a.setup != Success then a.setup
    else if QueryRet(a) == Success then Success
    else d.clientRet
  }

  /** Whether the last attempt leaves an open result. */
  predicate Opened(a: Attempt, d: Decision) {
    d.initOk && a.setup == Success && QueryRet(a) == Success && !a.prepareOnly
  }

  /** The code of a query and whether its result is open, from what the engine and the retry controller did in the
      last attempt: the first of init, set-up, execution, opening and the prefetched row that failed decides, and
      of the last three it is the controller that says what the client gets. */
  lemma QueryAnswer(a: Attempt, d: Decision)
    requires Sensible(a)
    ensures !d.initOk ==> FinalRet(a, d) == INIT_FAILED
    ensures d.initOk && a.setup != Success ==> FinalRet(a, d) == a.setup
    ensures d.initOk && a.setup == Success ==>
              var fails := || a.execute != Success
                           || (!a.prepareOnly && (a.opens != Success || (a.isSelect && a.rows == [] && a.tail != IterEnd)));
              && FinalRet(a, d) == (if fails then d.clientRet else Success)
              && (Opened(a, d) <==> !fails && !a.prepareOnly)
    ensures !d.initOk || a.setup != Success ==> !Opened(a, d)
  {
  }

  /** An attempt is retried exactly if it was initialised and set up, then failed, and the controller asks for it. */
  lemma RetriedIff(a: Attempt, d: Decision)
    requires Sensible(a)
    ensures !Final(a, d) <==>
              && d.initOk && a.setup == Success && d.retry
              && (|| a.execute != Success
                  || (!a.prepareOnly && (a.opens != Success || (a.isSelect && a.rows == [] && a.tail != IterEnd))))
  {
  }

  /** query: rebuild, execute, and decide whether to retry, until an attempt is final. The result left to
      the reader is that of the last attempt alone: all of its rows unseen when it succeeded,
      closed when it failed. */
  method Query(res: Result, attempts: seq<Attempt>, decisions: seq<Decision>) returns (ret: Code)
    requires |decisions| == |attempts| > 0 && forall i :: 0 <= i < |attempts| ==> Sensible(attempts[i])
    requires Final(attempts[|attempts| - 1], decisions[|attempts| - 1])
    requires res.Closed() && res.pos == 0 && res.inited && res.isRead
    requires res.attempt == attempts[0] && decisions[0].initOk
    modifies res
    ensures res.Valid()
    ensures var k := LastAttempt(attempts, decisions, 0);
            var a, d := attempts[k], decisions[k];
            var fails := || a.execute != Success
                         || (!a.prepareOnly && (a.opens != Success || (a.isSelect && a.rows == [] && a.tail != IterEnd)));
            && res.attempt == a
            && ret == (if !d.initOk then INIT_FAILED else if a.setup != Success then a.setup
                       else if fails then d.clientRet else Success)
            && (res.isOpen <==> d.initOk && a.setup == Success && !fails && !a.prepareOnly)
            && (res.isOpen ==> res.Seen() == 0)
  {
    var needRetry := true;
    var retryCnt := 0;
    ghost var k := LastAttempt(attempts, decisions, 0);
    QueryAnswer(attempts[k], decisions[k]);
    ret := Success;
    while needRetry
      invariant 0 <= retryCnt <= |attempts| && res.Valid()
      invariant needRetry ==> retryCnt < |attempts| && k == LastAttempt(attempts, decisions, retryCnt)
      invariant needRetry ==> res.Closed()
      invariant needRetry && retryCnt == 0 ==> res.pos == 0 && res.inited && res.isRead && res.attempt == attempts[0] && ret == Success
      invariant !needRetry ==>
        && res.attempt == attempts[k] && ret == FinalRet(attempts[k], decisions[k])
        && (res.isOpen <==> Opened(attempts[k], decisions[k]))
        && (res.isOpen ==> res.Seen() == 0)
      decreases |attempts| - retryCnt
    {
      var a, d := attempts[retryCnt], decisions[retryCnt];
      needRetry := false;
      if retryCnt > 0 {
        ret := res.Rebuild(a, d.initOk);
      }
      if ret == Success {
        ret := a.setup;
      }
      if ret == Success {
        ret := DoQuery(res);
        if ret != Success {
          ret := d.clientRet;
          needRetry := d.retry;
          res.ForceClose();
        }
      }
      retryCnt := retryCnt + 1;
    }
  }

  method DoQuery(res: Result) returns (ret: Code)
    requires res.Closed() && res.pos == 0 && res.inited && res.isRead
    modifies res
    ensures res.Valid() && res.attempt == old(res.attempt) && ret == QueryRet(res.attempt)
    ensures ret == Success ==> (res.isOpen <==> !res.attempt.prepareOnly)
    ensures ret == Success && res.isOpen ==> res.Seen() == 0
  {
    if res.attempt.execute != Success {
      ret := res.attempt.execute;
    } else if res.attempt.prepareOnly {
      ret := Success;
    } else {
      ret := res.Open();
    }
  }

  /** A reader that calls next() until it does not get a row. */
  method ReadAll(res: Result) returns (rows: seq<Row>, end: Code)
    requires res.Valid()
    modifies res
    ensures res.Valid() && res.attempt == old(res.attempt)
    ensures old(res.isOpen) ==> rows == res.attempt.rows[old(res.Seen())..] && end == res.attempt.tail
    ensures !old(res.isOpen) ==> rows == [] && end == NotInit
  {
    rows, end := [], Success;
    ghost var from := res.Seen();
    while end == Success
      invariant res.Valid() && res.isOpen == old(res.isOpen) && res.attempt == old(res.attempt)
      invariant from <= res.Seen() && rows == res.attempt.rows[from..res.Seen()]
      invariant !res.isOpen ==> res.Seen() == from && (end == Success || end == NotInit)
      invariant end != Success && res.isOpen ==> res.Seen() == |res.attempt.rows| && end == res.attempt.tail
      decreases if end == Success then 1 + |res.attempt.rows| - res.Seen() else 0
    {
      end := res.Next();
      if end == Success {
        rows := rows + [res.row.value];
      }
    }
  }

  /** Retry and prefetch are invisible: whatever attempts failed before, a reader of a select that
      succeeded at last gets exactly the rows of that last attempt, in order, and then what
      follows them; after a failed query it gets no row at all. */
  method QueryAndRead(res: Result, attempts: seq<Attempt>, decisions: seq<Decision>) returns (ret: Code, rows: seq<Row>, end: Code)
    requires |decisions| == |attempts| > 0 && forall i :: 0 <= i < |attempts| ==> Sensible(attempts[i])
    requires Final(attempts[|attempts| - 1], decisions[|attempts| - 1])
    requires res.Closed() && res.pos == 0 && res.inited && res.isRead
    requires res.attempt == attempts[0] && decisions[0].initOk
    modifies res
    ensures var k := LastAttempt(attempts, decisions, 0);
            var a, d := attempts[k], decisions[k];
            var fails := || a.execute != Success
                         || (!a.prepareOnly && (a.opens != Success || (a.isSelect && a.rows == [] && a.tail != IterEnd)));
            var opens := d.initOk && a.setup == Success && !fails && !a.prepareOnly;
            && (forall j :: 0 <= j < k ==> QueryRet(attempts[j]) != Success && decisions[j].retry)
            && ret == (if !d.initOk then INIT_FAILED else if a.setup != Success then a.setup
                       else if fails then d.clientRet else Success)
            && (d.clientRet != Success ==> (ret == Success <==> d.initOk && a.setup == Success && !fails))
            && (opens ==> rows == a.rows && end == a.tail)
            && (!opens ==> rows == [] && end == NotInit)
  {
    ret := Query(res, attempts, decisions);
    rows, end := ReadAll(res);
  }
}
