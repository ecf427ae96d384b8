/**
 The two tables a tablet's runtime metadata is persisted in, and the tablet ids
 they are keyed by (src/share/tablet, src/oblib/common/ob_tablet_id.h).
 */
module MetaTables {
  import opened UniqTaskQueue

  /** What fill_tablet_runtime_info reads of one tablet: a runtime row and a checksum row. */
  datatype TabletState = TabletState(info: int, sum: int)

  /** A row of the updating half, by the tablet of its task. `EmptyRow` is the row that a read leaves behind which
      succeeds without reading, because the server's modules are not ready: it names no tablet itself. */
  datatype Row = Row(id: int, state: TabletState) | EmptyRow(id: int)

  predicate Complete(rows: seq<Row>) {
    forall i :: 0 <= i < |rows| ==> rows[i].Row?
  }

  /** A tablet's task is its own group. */
  function TaskOf(id: int): Task {
    Task(id, id)
  }

  function Ids(rows: seq<Row>): seq<int> {
    seq(|rows|, i requires 0 <= i < |rows| => rows[i].id)
  }

  /** __all_tablet_meta_table and __all_tablet_local_checksum */
  datatype Tables = Tables(meta: map<int, int>, checksum: map<int, int>)

  predicate ValidId(id: int) {
    id != 0
  }

  predicate SystemId(id: int) {
    || 0 < id < 10000
    || 50000 < id < 60000
    || 60000 < id < 70000
    || 100000 < id < 200000
  }

  /** Inner but not system: async_update ignores these. */
  predicate ReservedId(id: int) {
    0 < id < 200000 && !SystemId(id)
  }

  /** What is left between the ranges of the system tablets. */
  lemma ReservedIff(id: int)
    ensures ReservedId(id) <==> 10000 <= id <= 50000 || id == 60000 || 70000 <= id <= 100000
    ensures Tracked(id) <==> id < 0 || 0 < id < 10000 || 50000 < id < 60000 || 60000 < id < 70000 || id > 100000
  {
  }

  predicate Tracked(id: int) {
    ValidId(id) && !ReservedId(id)
  }

  function Upsert(tables: Tables, row: Row): Tables {
    if row.EmptyRow? then tables
    else Tables(tables.meta[row.id := row.state.info], tables.checksum[row.id := row.state.sum])
  }

  function UpsertAll(tables: Tables, rows: seq<Row>): Tables {
    if rows == [] then tables
    else Upsert(UpsertAll(tables, rows[..|rows| - 1]), rows[|rows| - 1])
  }

  function DeleteAll(tables: Tables, ids: seq<int>): Tables {
    Tables(map id | id in tables.meta && id !in ids :: tables.meta[id],
           map id | id in tables.checksum && id !in ids :: tables.checksum[id])
  }

  ghost predicate Lockstep(tables: Tables) {
    tables.meta.Keys == tables.checksum.Keys
  }

  ghost predicate Stores(tables: Tables, id: int, state: TabletState) {
    && id in tables.meta && tables.meta[id] == state.info
    && id in tables.checksum && tables.checksum[id] == state.sum
  }

  ghost predicate HasNo(tables: Tables, id: int) {
    id !in tables.meta && id !in tables.checksum
  }

  ghost predicate HasRow(rows: seq<Row>, id: int) {
    exists i :: 0 <= i < |rows| && rows[i].id == id
  }

  /** All rows for `id` carry this state. */
  ghost predicate RowsSay(rows: seq<Row>, id: int, state: TabletState) {
    forall i :: 0 <= i < |rows| && rows[i].id == id ==> rows[i] == Row(id, state)
  }

  lemma {:induction false} UpsertAllKeepsLockstep(tables: Tables, rows: seq<Row>)
    requires Lockstep(tables)
    ensures Lockstep(UpsertAll(tables, rows))
  {
    if rows != [] { UpsertAllKeepsLockstep(tables, rows[..|rows| - 1]); }
  }

  lemma DeleteAllKeepsLockstep(tables: Tables, ids: seq<int>)
    requires Lockstep(tables)
    ensures Lockstep(DeleteAll(tables, ids))
  {
    var t := DeleteAll(tables, ids);
    assert forall id :: id in t.meta <==> id in tables.meta.Keys && id !in ids;
    assert forall id :: id in t.checksum <==> id in tables.checksum.Keys && id !in ids;
  }

  /** An upsert stores every tablet it has a row for and leaves the other tablets alone. */
  lemma {:induction false} UpsertAllStores(tables: Tables, rows: seq<Row>, id: int, state: TabletState)
    requires RowsSay(rows, id, state)
    ensures HasRow(rows, id) ==> Stores(UpsertAll(tables, rows), id, state)
    ensures !HasRow(rows, id) ==>
      && (id in UpsertAll(tables, rows).meta <==> id in tables.meta)
      && (id in tables.meta ==> UpsertAll(tables, rows).meta[id] == tables.meta[id])
      && (id in UpsertAll(tables, rows).checksum <==> id in tables.checksum)
      && (id in tables.checksum ==> UpsertAll(tables, rows).checksum[id] == tables.checksum[id])
  {
    if rows != [] {
      var front, last := rows[..|rows| - 1], rows[|rows| - 1];
      assert forall i :: 0 <= i < |front| ==> front[i] == rows[i];
      UpsertAllStores(tables, front, id, state);
      if HasRow(rows, id) && last.id != id {
        var i :| 0 <= i < |rows| && rows[i].id == id;
        assert front[i].id == id;
      }
    }
  }
}
