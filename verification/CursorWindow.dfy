/** The inclusive incremental cursor: services/connectivity/app/cursor_window.py, the
    cursor commit of source_registry_base.py and the batch regrouping of ingest_sync.py.

    A cursor value has a key (an integer or an instant, both ordered as integers) and a
    spelling; two spellings such as `Z` and `+0000` may share a key. A row identity is
    the SHA-256 of the row, so identities are numbers ordered as their hex text is. */
module CursorWindow {
  import opened Wrappers

  type Ident = nat

  const MAX_BOUNDARY_KEYS := 4096

  datatype Cursor = Cursor(key: int, spelling: string)

  datatype Row = Row(ident: Ident, cursor: Option<Cursor>)

  /** A resume position: the stored cursor and the identities stored at it. */
  datatype Resume = Resume(cursor: Cursor, boundary: set<Ident>)

  datatype CursorAdvance = CursorAdvance(cursor: Option<Cursor>, boundary: set<Ident>, changed: bool)

  // ---------------------------------------------------------------- the boundary cap

  lemma {:induction false} MaxExists(keys: set<Ident>)
    requires keys != {}
    ensures exists m :: m in keys && forall k | k in keys :: k <= m
  {
    var x :| x in keys;
    var rest := keys - {x};
    assert forall k | k in keys :: k == x || k in rest;
    if rest != {} {
      MaxExists(rest);
      var m :| m in rest && forall k | k in rest :: k <= m;
      var top := if x <= m then m else x;
      assert top in keys && forall k | k in keys :: k <= top;
    }
  }

  /** The lowest MAX_BOUNDARY_KEYS identities, or all of them when there are fewer. */
  function CapBoundary(keys: set<Ident>): (capped: set<Ident>)
    ensures capped <= keys
    ensures |capped| == if |keys| <= MAX_BOUNDARY_KEYS then |keys| else MAX_BOUNDARY_KEYS
    ensures forall low, high | low in capped && high in keys - capped :: low < high
    decreases |keys|
  {
    if |keys| <= MAX_BOUNDARY_KEYS then keys
    else
      MaxExists(keys);
      var m :| m in keys && forall k | k in keys :: k <= m;
      var rest := keys - {m};
      assert forall k | k in keys :: k == m || k in rest;
      var capped := CapBoundary(rest);
      assert forall high | high in keys - capped :: high == m || high in rest - capped;
      capped
  }

  // ---------------------------------------------------------------- which rows a sync keeps

  function SeenAt(from: Option<Resume>): set<Ident> {
    if from.Some? then from.value.boundary else {}
  }

  /** At or after the stored cursor, and not an identity already stored at it. A row
      without a cursor is kept only while no cursor has been stored. */
  predicate Keeps(from: Option<Resume>, row: Row) {
    || from.None?
    || (&& row.cursor.Some?
        && (|| row.cursor.value.key > from.value.cursor.key
            || (row.cursor.value.key == from.value.cursor.key && row.ident !in from.value.boundary)))
  }

  function Filter(from: Option<Resume>, rows: seq<Row>): (kept: seq<Row>)
    ensures forall r :: r in kept <==> r in rows && Keeps(from, r)
  {
    if rows == [] then []
    else
      var rest := Filter(from, rows[..|rows| - 1]);
      var last := rows[|rows| - 1];
      assert forall r :: r in rows <==> r in rows[..|rows| - 1] || r == last;
      if Keeps(from, last) then rest + [last] else rest
  }

  /** What passes: everything as long as no position is stored, and then exactly the rows with
      a cursor above it, or at it under an identity it does not name. A row without a cursor
      never passes again. */
  lemma PassesIff(from: Option<Resume>, rows: seq<Row>, r: Row)
    requires r in rows
    ensures from.None? ==> r in Filter(from, rows)
    ensures from.Some? && r.cursor.None? ==> r !in Filter(from, rows)
    ensures from.Some? && r.cursor.Some? ==>
              var key, at := r.cursor.value.key, from.value.cursor.key;
              r in Filter(from, rows) <==> key >= at && !(key == at && r.ident in from.value.boundary)
  {
  }

  lemma {:induction false} FilterConcat(from: Option<Resume>, a: seq<Row>, b: seq<Row>)
    ensures Filter(from, a + b) == Filter(from, a) + Filter(from, b)
    decreases |b|
  {
    if b == [] {
      assert a + b == a;
    } else {
      var front, last := b[..|b| - 1], b[|b| - 1];
      assert (a + b)[..|a + b| - 1] == a + front && (a + b)[|a + b| - 1] == last;
      FilterConcat(from, a, front);
    }
  }

  lemma FilterTake(from: Option<Resume>, rows: seq<Row>, n: nat)
    requires n < |rows|
    ensures Filter(from, rows[..n + 1]) == Filter(from, rows[..n]) + (if Keeps(from, rows[n]) then [rows[n]] else [])
  {
    assert rows[..n + 1][..n] == rows[..n];
  }

  lemma {:induction false} FilterNoDup(from: Option<Resume>, rows: seq<Row>)
    requires NoDup(rows)
    ensures NoDup(Filter(from, rows))
  {
    if rows != [] {
      FilterNoDup(from, rows[..|rows| - 1]);
      assert rows[|rows| - 1] !in rows[..|rows| - 1];
    }
  }

  // ---------------------------------------------------------------- the cursor a sync ends at

  /** The cursor of the first row that reaches the highest key. */
  function Top(rows: seq<Row>): Option<Cursor> {
    if rows == [] then None
    else
      var before, last := Top(rows[..|rows| - 1]), rows[|rows| - 1].cursor;
      if last.Some? && (before.None? || last.value.key > before.value.key) then last else before
  }

  ghost predicate HasKey(row: Row, key: int) {
    row.cursor.Some? && row.cursor.value.key == key
  }

  function IdentsAt(rows: seq<Row>, key: int): set<Ident> {
    set i | 0 <= i < |rows| && rows[i].cursor.Some? && rows[i].cursor.value.key == key :: rows[i].ident
  }

  lemma {:induction false} TopIsHighest(rows: seq<Row>)
    ensures Top(rows).None? <==> forall r | r in rows :: r.cursor.None?
    ensures forall r | r in rows && r.cursor.Some? :: Top(rows).Some? && r.cursor.value.key <= Top(rows).value.key
    ensures Top(rows).Some? ==>
              exists i :: && 0 <= i < |rows| && rows[i].cursor == Top(rows)
                          && forall j | 0 <= j < i && rows[j].cursor.Some? :: rows[j].cursor.value.key < Top(rows).value.key
  {
    if rows != [] {
      var front, last := rows[..|rows| - 1], rows[|rows| - 1];
      TopIsHighest(front);
      assert forall r :: r in rows <==> r in front || r == last;
      if Top(rows).Some? {
        if last.cursor.Some? && (Top(front).None? || last.cursor.value.key > Top(front).value.key) {
          forall j | 0 <= j < |rows| - 1 && rows[j].cursor.Some?
            ensures rows[j].cursor.value.key < Top(rows).value.key
          {
            assert front[j] in front;
          }
        } else {
          var i :| && 0 <= i < |front| && front[i].cursor == Top(front)
                   && forall j | 0 <= j < i && front[j].cursor.Some? :: front[j].cursor.value.key < Top(front).value.key;
          assert rows[i].cursor == Top(rows);
          assert forall j | 0 <= j < i && rows[j].cursor.Some? :: rows[j] == front[j];
        }
      }
    }
  }

  /** What `CursorTracker.result` returns once the rows in `written` have been kept. */
  function Advance(from: Option<Resume>, written: seq<Row>): CursorAdvance {
    match Top(written)
    case None =>
      CursorAdvance(if from.Some? then Some(from.value.cursor) else None, CapBoundary(SeenAt(from)), false)
    case Some(top) =>
      var atLast := from.Some? && top.key == from.value.cursor.key;
      var cursor := if atLast then from.value.cursor else top;
      var merged := (if atLast then from.value.boundary else {}) + IdentsAt(written, top.key);
      var capped := CapBoundary(merged);
      CursorAdvance(Some(cursor), capped, from.None? || cursor != from.value.cursor || capped != from.value.boundary)
  }

  /** A sync that kept no row with a cursor stays where it was: same cursor, the boundary it
      had under the cap, and nothing to store. */
  lemma NothingKeptNothingMoves(from: Option<Resume>, written: seq<Row>)
    requires forall r | r in written :: r.cursor.None?
    ensures from.Some? ==> Advance(from, written) == CursorAdvance(Some(from.value.cursor), CapBoundary(from.value.boundary), false)
    ensures from.None? ==> Advance(from, written) == CursorAdvance(None, {}, false)
  {
    TopIsHighest(written);
  }

  lemma IdentsAtSnoc(rows: seq<Row>, last: Row, key: int)
    ensures IdentsAt(rows + [last], key) == IdentsAt(rows, key) + (if HasKey(last, key) then {last.ident} else {})
  {
    var all := rows + [last];
    forall id | id in IdentsAt(rows, key) ensures id in IdentsAt(all, key) {
      var i :| 0 <= i < |rows| && rows[i].cursor.Some? && rows[i].cursor.value.key == key && rows[i].ident == id;
      assert all[i] == rows[i];
    }
    if HasKey(last, key) {
      assert all[|rows|] == last;
    }
    forall id | id in IdentsAt(all, key)
      ensures id in IdentsAt(rows, key) || (HasKey(last, key) && id == last.ident)
    {
      var i :| 0 <= i < |all| && all[i].cursor.Some? && all[i].cursor.value.key == key && all[i].ident == id;
      if i < |rows| {
        assert rows[i] == all[i];
      }
    }
  }

  /** The tracker's running fields describe the rows in `written`. */
  ghost predicate Tracks(written: seq<Row>, newest: Option<int>, newestRaw: Option<Cursor>, ids: set<Ident>) {
    && newestRaw == Top(written)
    && newest == (if newestRaw.Some? then Some(newestRaw.value.key) else None)
    && ids == (if newest.Some? then IdentsAt(written, newest.value) else {})
  }

  lemma TracksKept(written: seq<Row>, newest: Option<int>, newestRaw: Option<Cursor>, ids: set<Ident>, row: Row)
    requires Tracks(written, newest, newestRaw, ids)
    ensures if row.cursor.None? then Tracks(written + [row], newest, newestRaw, ids)
            else if newest.None? || row.cursor.value.key > newest.value
            then Tracks(written + [row], Some(row.cursor.value.key), row.cursor, {row.ident})
            else if row.cursor.value.key == newest.value then Tracks(written + [row], newest, newestRaw, ids + {row.ident})
            else Tracks(written + [row], newest, newestRaw, ids)
  {
    assert (written + [row])[..|written|] == written;
    if newest.Some? {
      IdentsAtSnoc(written, row, newest.value);
    }
    if row.cursor.Some? {
      IdentsAtSnoc(written, row, row.cursor.value.key);
      TopIsHighest(written);
    }
  }

  /** The filter and the running boundary of one sync, fed batch by batch. */
  class CursorTracker {
    const from: Option<Resume>
    var newest: Option<int>
    var newestRaw: Option<Cursor>
    var boundaryIds: set<Ident>
    ghost var written: seq<Row>  // every row kept so far

    ghost predicate Valid()
      reads this
    {
      Tracks(written, newest, newestRaw, boundaryIds)
    }

    constructor (from: Option<Resume>)
      ensures Valid() && this.from == from && written == []
    {
      this.from := from;
      newest, newestRaw, boundaryIds := None, None, {};
      written := [];
    }

    method Keep(records: seq<Row>) returns (kept: seq<Row>)
      requires Valid()
      modifies this
      ensures Valid()
      ensures kept == Filter(from, records)
      ensures written == old(written) + kept
    {
      kept := [];
      for n := 0 to |records|
        invariant Valid()
        invariant kept == Filter(from, records[..n])
        invariant written == old(written) + kept
      {
        FilterTake(from, records, n);
        var record := records[n];
        if record.cursor.None? {
          if from.Some? {
            continue;
          }
        } else if from.Some? {
          var key := record.cursor.value.key;
          if key < from.value.cursor.key || (key == from.value.cursor.key && record.ident in from.value.boundary) {
            continue;
          }
        }
        kept := kept + [record];
        Note(record);
      }
      assert records[..|records|] == records;
    }

    /** The running maximum: a kept row with a higher key restarts the boundary. */
    method Note(record: Row)
      requires Valid()
      modifies this
      ensures Valid()
      ensures written == old(written) + [record]
    {
      TracksKept(written, newest, newestRaw, boundaryIds, record);
      if record.cursor.Some? {
        var key := record.cursor.value.key;
        if newest.None? || key > newest.value {
          newest, newestRaw, boundaryIds := Some(key), record.cursor, {record.ident};
        } else if key == newest.value {
          boundaryIds := boundaryIds + {record.ident};
        }
      }
      written := written + [record];
    }

    method Result() returns (advance: CursorAdvance)
      requires Valid()
      ensures advance == Advance(from, written)
    {
      var seen := SeenAt(from);
      var last := if from.Some? then Some(from.value.cursor) else None;
      if newest.None? {
        return CursorAdvance(last, CapBoundary(seen), false);
      }
      var newCursor, merged;
      if last.Some? && newest.value == last.value.key {
        newCursor, merged := last, seen + boundaryIds;
      } else {
        newCursor, merged := newestRaw, boundaryIds;
      }
      merged := CapBoundary(merged);
      advance := CursorAdvance(newCursor, merged, newCursor != last || merged != seen);
    }
  }

  /** One-shot form: the kept rows and the cursor after them. */
  method AdvanceCursor(from: Option<Resume>, records: seq<Row>) returns (rows: seq<Row>, advance: CursorAdvance)
    ensures rows == Filter(from, records)
    ensures advance == Advance(from, rows)
  {
    var tracker := new CursorTracker(from);
    rows := tracker.Keep(records);
    assert tracker.written == rows;
    advance := tracker.Result();
  }

  /** The streaming form: each fetched batch goes through the tracker and is passed on. */
  method StreamBatches(from: Option<Resume>, batches: seq<seq<Row>>) returns (kept: seq<seq<Row>>, advance: CursorAdvance)
    ensures Flatten(kept) == Filter(from, Flatten(batches))
    ensures advance == Advance(from, Flatten(kept))
  {
    var tracker := new CursorTracker(from);
    kept := [];
    for n := 0 to |batches|
      invariant tracker.Valid() && tracker.from == from && fresh(tracker)
      invariant Flatten(kept) == tracker.written == Filter(from, Flatten(batches[..n]))
    {
      assert batches[..n + 1] == batches[..n] + [batches[n]];
      FlattenSnoc(batches[..n], batches[n]);
      FilterConcat(from, Flatten(batches[..n]), batches[n]);
      var rows := tracker.Keep(batches[n]);
      FlattenSnoc(kept, rows);
      kept := kept + [rows];
    }
    assert batches[..|batches|] == batches;
    advance := tracker.Result();
  }
}
