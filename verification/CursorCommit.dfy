/** Storing a resume position: services/connectivity/app/source_registry_base.py
    (`make_property_cursor_commit`) and the adoption of a stamped cursor in ingest_sync.py.
    Positions of one key kind form a join semilattice, and a commit computes the join. */
module CursorCommit {
  import opened Wrappers
  import opened CursorWindow

  /** `resume_is_newer` on property cursors: same text is never newer, else the key decides. */
  predicate IsNewer(candidate: Cursor, stored: Option<Cursor>) {
    stored.None? || (candidate != stored.value && candidate.key > stored.value.key)
  }

  function StoredCursor(stored: Option<Resume>): Option<Cursor> {
    if stored.Some? then Some(stored.value.cursor) else None
  }

  /** The row after committing `incoming` over it. */
  function Commit(stored: Option<Resume>, incoming: Resume): Resume {
    var samePosition := stored.Some? && (stored.value.cursor == incoming.cursor || stored.value.cursor.key == incoming.cursor.key);
    if stored.Some? && !IsNewer(incoming.cursor, StoredCursor(stored)) && !samePosition then stored.value
    else if samePosition then Resume(incoming.cursor, stored.value.boundary + incoming.boundary)
    else incoming
  }

  /** The row after adopting the position stamped on the current snapshot. */
  function Adopt(stored: Option<Resume>, stamp: Option<Resume>): Option<Resume> {
    if stamp.None? then stored
    else if stored == stamp then stored
    else if && stored.Some? && stored.value.cursor != stamp.value.cursor
            && !IsNewer(stamp.value.cursor, StoredCursor(stored)) then stored
    else Some(Commit(stored, stamp.value))
  }

  /** The two resume columns of one source's row. */
  class SourceRow {
    var present: bool
    var lastCursor: Option<Cursor>
    var boundaryKeys: set<Ident>

    function Stored(): Option<Resume>
      reads this
    {
      if lastCursor.Some? then Some(Resume(lastCursor.value, boundaryKeys)) else None
    }

    constructor ()
      ensures present && Stored() == None
    {
      present, lastCursor, boundaryKeys := true, None, {};
    }

    method CommitPropertyCursor(incoming: Resume)
      modifies this
      ensures present == old(present)
      ensures Stored() == if old(present) then Some(Commit(old(Stored()), incoming)) else old(Stored())
    {
      if !present {
        return;
      }
      var samePosition := lastCursor.Some? && (lastCursor.value == incoming.cursor || lastCursor.value.key == incoming.cursor.key);
      if lastCursor.Some? && !IsNewer(incoming.cursor, lastCursor) && !samePosition {
        return;
      }
      var boundaryOut := incoming.boundary;
      if samePosition {
        boundaryOut := boundaryKeys + incoming.boundary;
      }
      lastCursor, boundaryKeys := Some(incoming.cursor), boundaryOut;
    }

    method AdoptCommittedResume(stamp: Option<Resume>)
      modifies this
      ensures present == old(present)
      ensures Stored() == if old(present) then Adopt(old(Stored()), stamp) else old(Stored())
    {
      if stamp.None? || !present {
        return;
      }
      if lastCursor == Some(stamp.value.cursor) && boundaryKeys == stamp.value.boundary {
        return;
      }
      if lastCursor.Some? && lastCursor.value != stamp.value.cursor && !IsNewer(stamp.value.cursor, lastCursor) {
        return;
      }
      CommitPropertyCursor(stamp.value);
    }
  }

  // ---------------------------------------------------------------- the join

  /** A position up to the spelling of its cursor. */
  datatype Position = Start | At(key: int, boundary: set<Ident>)

  function PositionOf(stored: Option<Resume>): Position {
    if stored.None? then Start else At(stored.value.cursor.key, stored.value.boundary)
  }

  /** Lexicographic join: the newer key wins, equal keys unite their boundaries. */
  function Join(a: Position, b: Position): Position {
    match (a, b)
    case (Start, _) => b
    case (_, Start) => a
    case (At(k, x), At(l, y)) => if k < l then b else if l < k then a else At(k, x + y)
  }

  lemma JoinLaws(a: Position, b: Position, c: Position)
    ensures Join(a, b) == Join(b, a)
    ensures Join(Join(a, b), c) == Join(a, Join(b, c))
    ensures Join(a, a) == a
  {
    if a.At? && b.At? && c.At? {
      assert (a.boundary + b.boundary) + c.boundary == a.boundary + (b.boundary + c.boundary);
      assert a.boundary + b.boundary == b.boundary + a.boundary;
    } else if a.At? && b.At? {
      assert a.boundary + b.boundary == b.boundary + a.boundary;
    }
  }

  lemma CommitIsJoin(stored: Option<Resume>, incoming: Resume)
    ensures PositionOf(Some(Commit(stored, incoming))) == Join(PositionOf(stored), PositionOf(Some(incoming)))
  {
  }

  function CommitAll(stored: Option<Resume>, incoming: seq<Resume>): Option<Resume> {
    if incoming == [] then stored
    else Some(Commit(CommitAll(stored, incoming[..|incoming| - 1]), incoming[|incoming| - 1]))
  }

  /** `p` is the least position at or above every one of `positions`. */
  ghost predicate IsLub(p: Position, positions: set<Resume>) {
    if positions == {} then p == Start
    else
      && p.At?
      && (exists r :: r in positions && r.cursor.key == p.key)
      && (forall r | r in positions :: r.cursor.key <= p.key)
      && (forall id :: id in p.boundary <==> exists r :: r in positions && r.cursor.key == p.key && id in r.boundary)
  }

  lemma {:induction false} CommitAllIsLub(incoming: seq<Resume>)
    ensures IsLub(PositionOf(CommitAll(None, incoming)), Elems(incoming))
  {
    if incoming == [] {
    } else {
      var front, last := incoming[..|incoming| - 1], incoming[|incoming| - 1];
      CommitAllIsLub(front);
      assert Elems(incoming) == Elems(front) + {last};
      var before, after := PositionOf(CommitAll(None, front)), PositionOf(CommitAll(None, incoming));
      CommitIsJoin(CommitAll(None, front), last);
      assert last in Elems(incoming);
      assert after == Join(before, At(last.cursor.key, last.boundary));
      if front != [] && before.key > last.cursor.key {
        var r :| r in Elems(front) && r.cursor.key == before.key;
        assert r in Elems(incoming);
      }
      forall id
        ensures id in after.boundary <==> exists r :: r in Elems(incoming) && r.cursor.key == after.key && id in r.boundary
      {
        if front != [] && id in before.boundary {
          var r :| r in Elems(front) && r.cursor.key == before.key && id in r.boundary;
          assert r in Elems(incoming);
        }
        if front == [] {
          assert Elems(incoming) == {last};
        }
      }
    }
  }

  /** Any two histories that commit the same positions, in any order and with any
      repetitions, leave the row at the same position. */
  lemma CommitOrderIrrelevant(a: seq<Resume>, b: seq<Resume>)
    requires Elems(a) == Elems(b)
    ensures PositionOf(CommitAll(None, a)) == PositionOf(CommitAll(None, b))
  {
    CommitAllIsLub(a);
    CommitAllIsLub(b);
    var p, q := PositionOf(CommitAll(None, a)), PositionOf(CommitAll(None, b));
    if Elems(a) != {} {
      assert p.key == q.key;
      assert forall id :: id in p.boundary <==> id in q.boundary;
      assert p.boundary == q.boundary;
    }
  }

  /** The stored key never moves back, and at one key no identity is forgotten. */
  lemma {:induction false} CommitNeverMovesBack(stored: Resume, incoming: seq<Resume>)
    ensures CommitAll(Some(stored), incoming).Some?
    ensures var after := CommitAll(Some(stored), incoming).value;
            && stored.cursor.key <= after.cursor.key
            && (stored.cursor.key == after.cursor.key ==> stored.boundary <= after.boundary)
  {
    if incoming != [] {
      CommitNeverMovesBack(stored, incoming[..|incoming| - 1]);
    }
  }

  /** Adoption is a commit except that a differently spelled cursor at the stored key is left alone. */
  lemma AdoptIsJoin(stored: Option<Resume>, stamp: Resume)
    ensures PositionOf(Adopt(stored, Some(stamp))) == Join(PositionOf(stored), PositionOf(Some(stamp)))
            <==> !(&& stored.Some? && stored.value.cursor.key == stamp.cursor.key
                   && stored.value.cursor != stamp.cursor && !(stamp.boundary <= stored.value.boundary))
  {
    if stored.Some? && stored.value.cursor.key == stamp.cursor.key {
      var united := stored.value.boundary + stamp.boundary;
      if stored.value.cursor != stamp.cursor {
        assert stamp.boundary <= stored.value.boundary <==> united == stored.value.boundary;
      }
    }
  }

  // ---------------------------------------------------------------- the cap and the stored list

  lemma SubsetOfSameSize(small: set<Ident>, big: set<Ident>)
    requires small <= big && |big| <= |small|
    ensures small == big
  {
    assert big == small + (big - small);
    assert |big| == |small| + |big - small|;
  }

  /** A commit unites the capped list with the list already stored and does not cap
      again: the stored list stays within the cap exactly when capping dropped no
      identity that was already stored. */
  lemma StoredListWithinCapIff(stored: Resume, written: seq<Row>)
    requires Top(written).Some? && Top(written).value.key == stored.cursor.key
    ensures var advance := Advance(Some(stored), written);
            var after := Commit(Some(stored), Resume(advance.cursor.value, advance.boundary));
            && after.boundary == stored.boundary + advance.boundary
            && (|after.boundary| <= MAX_BOUNDARY_KEYS <==> stored.boundary <= advance.boundary)
  {
    var capped := Advance(Some(stored), written).boundary;
    var union := stored.boundary + IdentsAt(written, stored.cursor.key);
    assert capped == CapBoundary(union);
    if stored.boundary <= capped {
      assert stored.boundary + capped == capped;
    } else if |stored.boundary + capped| <= MAX_BOUNDARY_KEYS {
      if |union| <= MAX_BOUNDARY_KEYS {
        SubsetOfSameSize(capped, union);
      } else {
        SubsetOfSameSize(capped, stored.boundary + capped);
      }
    }
  }

  /** A full list and one new row at the same key with a lower identity than every
      stored one: the commit stores 4097 identities, one more than the documented bound. */
  lemma StoredListCanExceedCap(stored: Resume, row: Row)
    requires |stored.boundary| == MAX_BOUNDARY_KEYS
    requires row.cursor == Some(stored.cursor) && forall id | id in stored.boundary :: row.ident < id
    ensures Keeps(Some(stored), row)
    ensures var advance := Advance(Some(stored), [row]);
            |Commit(Some(stored), Resume(advance.cursor.value, advance.boundary)).boundary| == 4097
  {
    assert [row][..0] == [];
    assert Top([row]) == row.cursor;
    assert IdentsAt([row], stored.cursor.key) == {row.ident} by { assert [row][0] == row; }
    var merged := stored.boundary + {row.ident};
    assert |merged| == MAX_BOUNDARY_KEYS + 1;
    var capped := CapBoundary(merged);
    var low :| low in capped;
    assert row.ident !in merged - capped;
    assert capped <= merged;
    assert stored.boundary + capped == merged;
  }
}
