/** The incremental sync of services/connectivity/app/ingest_sync.py as a protocol over
    a source, an append-only table whose current snapshot may carry a stamped cursor,
    and the cursor row in the database. One sync runs at a time. A crash may fall
    between any two steps, and a commit may land without being reported.

    Source rows carry a cursor of one key kind, distinct identities and never change.
    A row that arrives late has a key at or above the cursor stored or being stored. */
module IngestProtocol {
  import opened Wrappers
  import opened CursorWindow
  import opened CursorCommit

  datatype Phase =
    | Idle
    | Adopted
      // `goal` is the source when the fetch began, with the rows that arrived since and that the
      // fetch delivers too; `pending` is what it has yet to deliver
    | Fetching(goal: set<Row>, pending: set<Row>, kept: seq<Row>)
    | Committed(goal: set<Row>, advance: CursorAdvance)

  datatype State = State(source: set<Row>, table: seq<Row>, stamp: Option<Resume>, stored: Option<Resume>, phase: Phase)

  datatype Event =
    | Arrive(row: Row)
    | ArriveInFetch(row: Row)
    | AdoptStamp
    | BeginFetch(snapshot: set<Row>)
    | Deliver(batch: seq<Row>)
    | Land(reported: bool)
    | StoreCursor
    | Crash

  function KeyOf(row: Row): int {
    if row.cursor.Some? then row.cursor.value.key else 0
  }

  /** The position the next sync starts from: the stored cursor after adoption. */
  function Effective(s: State): Option<Resume> {
    Adopt(s.stored, s.stamp)
  }

  function InFlight(s: State): set<Row> {
    if s.phase.Fetching? then s.phase.pending + (set r | r in s.phase.kept) else {}
  }

  /** What the sync notes on its snapshot: an unchanged position leaves it unstamped. */
  function StampOf(advance: CursorAdvance): Option<Resume> {
    if advance.changed && advance.cursor.Some? then Some(Resume(advance.cursor.value, advance.boundary)) else None
  }

  /** A row of its own identity, at or above the position in force. */
  ghost predicate IsNew(s: State, row: Row) {
    && row.cursor.Some?
    && (forall r | r in s.source :: r.ident != row.ident)
    && (Effective(s).Some? ==> Effective(s).value.cursor.key <= KeyOf(row))
  }

  ghost predicate Enabled(s: State, e: Event) {
    match e
    case Arrive(row) => IsNew(s, row) && forall r | r in InFlight(s) :: KeyOf(r) <= KeyOf(row)
    case ArriveInFetch(row) =>
      // the fetch delivers it, though it may have passed by other late rows with higher keys
      IsNew(s, row) && s.phase.Fetching? && forall r | r in s.source - s.phase.goal :: KeyOf(row) <= KeyOf(r)
    case AdoptStamp => s.phase.Idle?
    case BeginFetch(snapshot) =>
      // the filter is `>=` or a step behind it, so rows below the cursor may come too
      && s.phase.Adopted?
      && snapshot <= s.source
      && (forall r | r in s.source && (s.stored.Some? ==> s.stored.value.cursor.key <= KeyOf(r)) :: r in snapshot)
    case Deliver(batch) =>
      && s.phase.Fetching?
      && NoDup(batch)
      && Elems(batch) <= s.phase.pending
    case Land(reported) => s.phase.Fetching? && s.phase.pending == {}
    case StoreCursor => s.phase.Committed?
    case Crash => true
  }

  ghost function Next(s: State, e: Event): State
    requires Enabled(s, e)
  {
    match e
    case Arrive(row) => s.(source := s.source + {row})
    case ArriveInFetch(row) =>
      s.(source := s.source + {row}, phase := s.phase.(goal := s.phase.goal + {row}, pending := s.phase.pending + {row}))
    case AdoptStamp => s.(stored := Adopt(s.stored, s.stamp), phase := Adopted)
    case BeginFetch(snapshot) => s.(phase := Fetching(s.source, snapshot, []))
    case Deliver(batch) =>
      s.(phase := s.phase.(pending := s.phase.pending - Elems(batch), kept := s.phase.kept + Filter(s.stored, batch)))
    case Land(reported) =>
      var kept, advance := s.phase.kept, Advance(s.stored, s.phase.kept);
      // with nothing kept no transaction was opened, so no snapshot is made
      s.(table := s.table + kept, stamp := if kept == [] then s.stamp else StampOf(advance), phase := if reported then Committed(s.phase.goal, advance) else Idle)
    case StoreCursor =>
      var advance := s.phase.advance;
      s.(stored := if advance.changed && advance.cursor.Some?
                   then Some(Commit(s.stored, Resume(advance.cursor.value, advance.boundary))) else s.stored,
         phase := Idle)
    case Crash => s.(phase := Idle)
  }

  // ---------------------------------------------------------------- invariants

  ghost predicate WellFormedSource(source: set<Row>) {
    && (forall r | r in source :: r.cursor.Some?)
    && (forall a, b | a in source && b in source && a.ident == b.ident :: a == b)
  }

  /** Nothing the position lets a sync drop is missing from the table. */
  ghost predicate Safe(at: Option<Resume>, source: set<Row>, table: seq<Row>) {
    at.Some? ==>
      forall r | r in source && (|| KeyOf(r) < at.value.cursor.key
                                 || (KeyOf(r) == at.value.cursor.key && r.ident in at.value.boundary)) :: r in table
  }

  /** The boundary names source rows at the cursor. */
  ghost predicate Grounded(at: Option<Resume>, source: set<Row>) {
    at.Some? ==> at.value.boundary <= IdentsIn(source, at.value.cursor.key)
  }

  ghost predicate AtLeastOnce(s: State) {
    && WellFormedSource(s.source)
    && Elems(s.table) <= s.source
    && Safe(Effective(s), s.source, s.table)
    && Grounded(Effective(s), s.source)
    && match s.phase
       case Idle => true
       case Adopted => s.stored == Effective(s)
       case Fetching(goal, pending, kept) =>
         && s.stored == Effective(s)
         && goal <= s.source && pending <= goal && Elems(kept) <= goal
         && (forall r | r in kept :: Keeps(s.stored, r))
         && (forall r | r in goal :: r in s.table || r in kept || r in pending)
         && (forall r, x | r in s.source - goal && x in InFlight(s) :: KeyOf(x) <= KeyOf(r))
       case Committed(goal, advance) =>
         && goal <= s.source && goal <= Elems(s.table)
         && (advance.changed ==>
               && advance.cursor.Some?
               && s.stamp == Some(Resume(advance.cursor.value, advance.boundary))
               && (s.stored.Some? ==> || advance.cursor.value.key > s.stored.value.cursor.key
                                      || advance.cursor.value == s.stored.value.cursor))
         && (!advance.changed ==> s.stored == Effective(s))
  }

  /** The position describes exactly the table rows at the top key. */
  ghost predicate Complete(at: Option<Resume>, table: seq<Row>) {
    if at.None? then table == []
    else
      && (forall r | r in table :: KeyOf(r) <= at.value.cursor.key)
      && (forall r | r in table && KeyOf(r) == at.value.cursor.key :: r.ident in at.value.boundary)
  }

  function IdentsIn(source: set<Row>, key: int): set<Ident> {
    set r | r in source && KeyOf(r) == key :: r.ident
  }

  /** No more rows share a key than the boundary can hold. */
  ghost predicate Bounded(source: set<Row>) {
    forall key :: |IdentsIn(source, key)| <= MAX_BOUNDARY_KEYS
  }

  ghost predicate AtMostOnce(s: State) {
    && NoDup(s.table)
    && Complete(Effective(s), s.table)
    && (s.phase.Fetching? ==>
          && NoDup(s.phase.kept)
          && (forall r | r in s.phase.kept :: r !in s.phase.pending))
  }

  // ---------------------------------------------------------------- each step keeps both

  /** Once a position is committed, adopting the stamp it came from changes nothing. */
  lemma AdoptSettles(stored: Option<Resume>, stamp: Resume)
    requires stored.Some? ==> stamp.cursor.key > stored.value.cursor.key || stamp.cursor == stored.value.cursor
    ensures Adopt(stored, Some(stamp)) == Some(Commit(stored, stamp))
    ensures Adopt(Some(Commit(stored, stamp)), Some(stamp)) == Some(Commit(stored, stamp))
  {
    if stored.Some? && stamp.cursor == stored.value.cursor {
      var united := stored.value.boundary + stamp.boundary;
      assert united + stamp.boundary == united;
      if stored == Some(stamp) {
        assert united == stamp.boundary;
      }
    }
  }

  lemma AdoptTwice(stored: Option<Resume>, stamp: Option<Resume>)
    ensures Adopt(Adopt(stored, stamp), stamp) == Adopt(stored, stamp)
  {
    if stamp.Some? && stored.Some? && stored.value.cursor == stamp.value.cursor {
      var united := stored.value.boundary + stamp.value.boundary;
      assert united + stamp.value.boundary == united;
    }
  }

  lemma IdentsAtMember(rows: seq<Row>, key: int, id: Ident) returns (row: Row)
    requires id in IdentsAt(rows, key)
    ensures row in rows && row.ident == id && HasKey(row, key)
  {
    var i :| 0 <= i < |rows| && rows[i].cursor.Some? && rows[i].cursor.value.key == key && rows[i].ident == id;
    row := rows[i];
  }

  lemma MemberIdentsAt(rows: seq<Row>, row: Row, key: int)
    requires row in rows && HasKey(row, key)
    ensures row.ident in IdentsAt(rows, key)
  {
    var i :| 0 <= i < |rows| && rows[i] == row;
  }

  /** Where a sync that kept rows ends: at the highest kept key, and never behind the stored one. */
  lemma AdvancePosition(s: State)
    requires s.phase.Fetching? && s.phase.kept != [] && AtLeastOnce(s)
    ensures var kept := s.phase.kept;
            && Top(kept).Some?
            && (exists x :: x in kept && KeyOf(x) == Top(kept).value.key)
            && (forall x | x in kept :: x.cursor.Some? && KeyOf(x) <= Top(kept).value.key)
            && (s.stored.Some? ==> s.stored.value.cursor.key <= Top(kept).value.key)
  {
    var kept := s.phase.kept;
    TopIsHighest(kept);
    assert kept[0] in kept && kept[0] in Elems(kept);
    forall x | x in kept ensures x.cursor.Some? {
      assert x in Elems(kept);
    }
    var i :| 0 <= i < |kept| && kept[i].cursor == Top(kept);
    assert kept[i] in kept;
  }

  function BoundaryAt(at: Option<Resume>, key: int): set<Ident> {
    if at.Some? && at.value.cursor.key == key then at.value.boundary else {}
  }

  /** The position after a landed snapshot, before and without the cap. */
  lemma LandEffective(stored: Option<Resume>, kept: seq<Row>)
    requires Top(kept).Some? && (stored.Some? ==> stored.value.cursor.key <= Top(kept).value.key)
    ensures var after, key := Adopt(stored, StampOf(Advance(stored, kept))), Top(kept).value.key;
            && after.Some?
            && after.value.cursor.key == key
            && after.value.boundary <= BoundaryAt(stored, key) + IdentsAt(kept, key)
            && (|BoundaryAt(stored, key) + IdentsAt(kept, key)| <= MAX_BOUNDARY_KEYS
                ==> after.value.boundary == BoundaryAt(stored, key) + IdentsAt(kept, key))
            && (!Advance(stored, kept).changed ==> after == stored)
            && (Advance(stored, kept).changed ==> Advance(stored, kept).cursor.Some?)
  {
    var key, advance := Top(kept).value.key, Advance(stored, kept);
    var merged := BoundaryAt(stored, key) + IdentsAt(kept, key);
    assert advance.boundary == CapBoundary(merged);
    if |merged| <= MAX_BOUNDARY_KEYS {
      assert CapBoundary(merged) == merged;
      assert BoundaryAt(stored, key) + merged == merged;
    }
    if advance.changed {
      AdoptSettles(stored, Resume(advance.cursor.value, advance.boundary));
    }
  }

  lemma KeptIdents(s: State, key: int)
    requires s.phase.Fetching? && AtLeastOnce(s)
    ensures IdentsAt(s.phase.kept, key) <= IdentsIn(s.source, key)
    ensures BoundaryAt(s.stored, key) + IdentsAt(s.phase.kept, key) <= IdentsIn(s.source, key)
  {
    forall id | id in IdentsAt(s.phase.kept, key) ensures id in IdentsIn(s.source, key) {
      var r := IdentsAtMember(s.phase.kept, key, id);
      assert r in Elems(s.phase.kept);
    }
  }

  /** A row the new position lets the next sync drop is in the table or was just kept. */
  lemma LandCovers(s: State, at: Resume, r: Row)
    requires s.phase.Fetching? && s.phase.pending == {} && s.phase.kept != [] && AtLeastOnce(s)
    requires Top(s.phase.kept).Some? && at.cursor.key == Top(s.phase.kept).value.key
    requires at.boundary <= BoundaryAt(s.stored, at.cursor.key) + IdentsAt(s.phase.kept, at.cursor.key)
    requires r in s.source
    requires KeyOf(r) < at.cursor.key || (KeyOf(r) == at.cursor.key && r.ident in at.boundary)
    ensures r in s.table || r in s.phase.kept
  {
    AdvancePosition(s);
    var kept := s.phase.kept;
    if KeyOf(r) < at.cursor.key {
      var x :| x in kept && KeyOf(x) == at.cursor.key;
      assert x in InFlight(s);
      assert r in s.phase.goal;
    } else if r.ident in IdentsAt(kept, at.cursor.key) {
      var k := IdentsAtMember(kept, at.cursor.key, r.ident);
      assert k in Elems(kept);
    }
  }

  lemma LandSafe(s: State, reported: bool)
    requires Enabled(s, Land(reported)) && AtLeastOnce(s)
    ensures var s' := Next(s, Land(reported)); Safe(Effective(s'), s'.source, s'.table)
  {
    var kept, s' := s.phase.kept, Next(s, Land(reported));
    if kept == [] {
      assert s'.table == s.table;
    } else {
      AdvancePosition(s);
      LandEffective(s.stored, kept);
      var at := Effective(s').value;
      forall r | r in s.source && (KeyOf(r) < at.cursor.key || (KeyOf(r) == at.cursor.key && r.ident in at.boundary))
        ensures r in s'.table
      {
        LandCovers(s, at, r);
      }
    }
  }

  lemma LandAtLeastOnce(s: State, reported: bool)
    requires Enabled(s, Land(reported)) && AtLeastOnce(s)
    ensures AtLeastOnce(Next(s, Land(reported)))
  {
    var kept, s' := s.phase.kept, Next(s, Land(reported));
    LandSafe(s, reported);
    forall r | r in s'.table ensures r in s.source {
      assert r in Elems(s.table) || r in Elems(kept);
    }
    if kept != [] {
      AdvancePosition(s);
      LandEffective(s.stored, kept);
      KeptIdents(s, Top(kept).value.key);
    } else {
      assert Top(kept) == None;
      assert s'.table == s.table;
    }
  }

  lemma DeliverAtLeastOnce(s: State, batch: seq<Row>)
    requires Enabled(s, Deliver(batch)) && AtLeastOnce(s)
    ensures AtLeastOnce(Next(s, Deliver(batch)))
  {
    var s' := Next(s, Deliver(batch));
    var taken := Filter(s.stored, batch);
    forall r | r in s'.phase.kept ensures r in s.phase.goal && Keeps(s.stored, r) {
      if r in taken {
        assert r in Elems(batch);
      } else {
        assert r in Elems(s.phase.kept);
      }
    }
    forall r | r in s.phase.goal ensures r in s'.table || r in s'.phase.kept || r in s'.phase.pending {
      if r in Elems(batch) && !Keeps(s.stored, r) {
        assert r in s.table;
      }
    }
    forall x | x in InFlight(s') ensures x in InFlight(s) {
      if x in taken {
        assert x in Elems(batch);
      }
    }
  }

  lemma NextAtLeastOnce(s: State, e: Event)
    requires Enabled(s, e) && AtLeastOnce(s)
    ensures AtLeastOnce(Next(s, e))
  {
    match e
    case Arrive(row) =>
    case ArriveInFetch(row) =>
    case AdoptStamp => AdoptTwice(s.stored, s.stamp);
    case BeginFetch(snapshot) =>
    case Deliver(batch) => DeliverAtLeastOnce(s, batch);
    case Land(reported) => LandAtLeastOnce(s, reported);
    case StoreCursor =>
      if s.phase.advance.changed {
        AdoptSettles(s.stored, s.stamp.value);
      }
    case Crash =>
  }

  lemma SubsetSize(small: set<Ident>, big: set<Ident>)
    requires small <= big
    ensures |small| <= |big|
  {
    assert big == small + (big - small);
  }

  lemma LandAtMostOnce(s: State, reported: bool)
    requires Enabled(s, Land(reported)) && AtLeastOnce(s) && AtMostOnce(s) && Bounded(s.source)
    ensures AtMostOnce(Next(s, Land(reported)))
  {
    var kept, s' := s.phase.kept, Next(s, Land(reported));
    if kept == [] {
      assert s'.table == s.table;
    } else {
      AdvancePosition(s);
      LandEffective(s.stored, kept);
      var key := Top(kept).value.key;
      KeptIdents(s, key);
      SubsetSize(BoundaryAt(s.stored, key) + IdentsAt(kept, key), IdentsIn(s.source, key));
      forall i, j | 0 <= i < |s.table| && 0 <= j < |kept| ensures s.table[i] != kept[j] {
        assert s.table[i] in s.table && kept[j] in kept;
      }
      var at := Effective(s').value;
      forall r | r in s'.table
        ensures KeyOf(r) <= at.cursor.key && (KeyOf(r) == at.cursor.key ==> r.ident in at.boundary)
      {
        if r in kept && KeyOf(r) == at.cursor.key {
          MemberIdentsAt(kept, r, at.cursor.key);
        }
      }
    }
  }

  lemma NextAtMostOnce(s: State, e: Event)
    requires Enabled(s, e) && AtLeastOnce(s) && AtMostOnce(s) && Bounded(s.source)
    ensures AtMostOnce(Next(s, e))
  {
    match e
    case Arrive(row) =>
    case ArriveInFetch(row) =>
    case AdoptStamp => AdoptTwice(s.stored, s.stamp);
    case BeginFetch(snapshot) =>
    case Deliver(batch) =>
      var taken := Filter(s.stored, batch);
      FilterNoDup(s.stored, batch);
      forall i, j | 0 <= i < |s.phase.kept| && 0 <= j < |taken| ensures s.phase.kept[i] != taken[j] {
        assert s.phase.kept[i] in s.phase.kept && taken[j] in taken && taken[j] in Elems(batch);
      }
      forall r | r in s.phase.kept + taken ensures r !in s.phase.pending - Elems(batch) {
        if r in taken {
          assert r in Elems(batch);
        }
      }
    case Land(reported) => LandAtMostOnce(s, reported);
    case StoreCursor =>
      if s.phase.advance.changed {
        AdoptSettles(s.stored, s.stamp.value);
      }
    case Crash =>
  }

  // ---------------------------------------------------------------- whole runs

  function Initial(source: set<Row>): State {
    State(source, [], None, None, Idle)
  }

  ghost predicate Runs(s: State, events: seq<Event>)
    decreases |events|
  {
    events == [] || (Enabled(s, events[0]) && Runs(Next(s, events[0]), events[1..]))
  }

  ghost function After(s: State, events: seq<Event>): State
    requires Runs(s, events)
    decreases |events|
  {
    if events == [] then s else After(Next(s, events[0]), events[1..])
  }

  lemma {:induction false} RunsConcat(s: State, a: seq<Event>, b: seq<Event>)
    requires Runs(s, a) && Runs(After(s, a), b)
    ensures Runs(s, a + b) && After(s, a + b) == After(After(s, a), b)
    decreases |a|
  {
    if a == [] {
      assert a + b == b;
    } else {
      assert (a + b)[1..] == a[1..] + b;
      RunsConcat(Next(s, a[0]), a[1..], b);
    }
  }

  ghost predicate RunsTo(from: State, events: seq<Event>, to: State) {
    Runs(from, events) && After(from, events) == to
  }

  lemma RunsOne(s: State, e: Event)
    requires Enabled(s, e)
    ensures RunsTo(s, [e], Next(s, e))
  {
    var next := Next(s, e);
    assert Runs(next, []) && After(next, []) == next;
    assert [e][0] == e && [e][1..] == [];
  }

  lemma RunsSnoc(from: State, events: seq<Event>, to: State, e: Event)
    requires RunsTo(from, events, to) && Enabled(to, e)
    ensures RunsTo(from, events + [e], Next(to, e))
  {
    RunsOne(to, e);
    RunsConcat(from, events, [e]);
  }

  lemma {:induction false} RunAtLeastOnce(s: State, events: seq<Event>)
    requires Runs(s, events) && AtLeastOnce(s)
    ensures AtLeastOnce(After(s, events)) && s.source <= After(s, events).source
    decreases |events|
  {
    if events != [] {
      NextAtLeastOnce(s, events[0]);
      RunAtLeastOnce(Next(s, events[0]), events[1..]);
    }
  }

  lemma BoundedBefore(small: set<Row>, big: set<Row>)
    requires small <= big && Bounded(big)
    ensures Bounded(small)
  {
    forall key ensures |IdentsIn(small, key)| <= MAX_BOUNDARY_KEYS {
      SubsetSize(IdentsIn(small, key), IdentsIn(big, key));
    }
  }

  lemma {:induction false} RunAtMostOnce(s: State, events: seq<Event>)
    requires Runs(s, events) && AtLeastOnce(s) && AtMostOnce(s) && Bounded(After(s, events).source)
    ensures AtMostOnce(After(s, events))
    decreases |events|
  {
    if events != [] {
      var s' := Next(s, events[0]);
      NextAtLeastOnce(s, events[0]);
      RunAtLeastOnce(s', events[1..]);
      BoundedBefore(s.source, After(s, events).source);
      NextAtMostOnce(s, events[0]);
      RunAtMostOnce(s', events[1..]);
    }
  }

  /** Over every run, whatever crashes and unreported commits it holds, no row is in the
      table twice while no key is shared by more rows than a boundary holds. */
  lemma NoRowTwice(source: set<Row>, events: seq<Event>)
    requires WellFormedSource(source) && Runs(Initial(source), events)
    requires Bounded(After(Initial(source), events).source)
    ensures NoDup(After(Initial(source), events).table)
    ensures Elems(After(Initial(source), events).table) <= After(Initial(source), events).source
  {
    RunAtLeastOnce(Initial(source), events);
    RunAtMostOnce(Initial(source), events);
  }

  /** Whenever a commit has been reported, every row the source held when the fetch began, or
      that the fetch delivered, is in the table. No bound on the rows that share a key is needed. */
  lemma NoRowLost(source: set<Row>, events: seq<Event>)
    requires WellFormedSource(source) && Runs(Initial(source), events)
    ensures var s := After(Initial(source), events);
            s.phase.Committed? ==> s.phase.goal <= Elems(s.table) <= s.source
  {
    RunAtLeastOnce(Initial(source), events);
  }

  /** Events within one sync. */
  ghost predicate SameSync(events: seq<Event>) {
    forall e | e in events :: !e.AdoptStamp? && !e.BeginFetch? && !e.Crash?
  }

  lemma {:induction false} KeepsGoal(s: State, events: seq<Event>, row: Row)
    requires Runs(s, events) && SameSync(events) && !s.phase.Adopted?
    requires s.phase.Fetching? || s.phase.Committed? ==> row in s.phase.goal
    ensures var t := After(s, events); t.phase.Committed? ==> row in t.phase.goal
    decreases |events|
  {
    if events != [] {
      assert events[0] in events;
      KeepsGoal(Next(s, events[0]), events[1..], row);
    }
  }

  /** A row that joins a running fetch is in the table once that sync's commit has been reported. */
  lemma ArrivalInFetchLands(source: set<Row>, events: seq<Event>, row: Row, more: seq<Event>)
    requires WellFormedSource(source) && Runs(Initial(source), events)
    requires var s := After(Initial(source), events);
             Enabled(s, ArriveInFetch(row)) && Runs(Next(s, ArriveInFetch(row)), more) && SameSync(more)
    ensures var t := After(Next(After(Initial(source), events), ArriveInFetch(row)), more);
            t.phase.Committed? ==> row in t.table
  {
    var s := After(Initial(source), events);
    var joined := Next(s, ArriveInFetch(row));
    RunAtLeastOnce(Initial(source), events);
    NextAtLeastOnce(s, ArriveInFetch(row));
    RunAtLeastOnce(joined, more);
    KeepsGoal(joined, more, row);
  }

  lemma {:induction false} NoDupMultiset<T>(a: seq<T>)
    requires NoDup(a)
    ensures multiset(a) == multiset(Elems(a))
  {
    if a == [] {
      assert Elems(a) == {};
    } else {
      var front, last := a[..|a| - 1], a[|a| - 1];
      NoDupMultiset(front);
      assert a == front + [last];
      assert last !in front;
      assert Elems(a) == Elems(front) + {last};
    }
  }

  /** When nothing arrived during the sync, the table is the source, each row once. */
  lemma SuccessfulSyncIsExact(source: set<Row>, events: seq<Event>)
    requires WellFormedSource(source) && Runs(Initial(source), events)
    requires var s := After(Initial(source), events);
             Bounded(s.source) && s.phase.Committed? && s.phase.goal == s.source
    ensures var s := After(Initial(source), events);
            multiset(s.table) == multiset(s.source)
  {
    var s := After(Initial(source), events);
    NoRowTwice(source, events);
    NoRowLost(source, events);
    NoDupMultiset(s.table);
    assert Elems(s.table) == s.source;
  }

  // ---------------------------------------------------------------- recovery, and the cap

  /** One sync that nothing disturbs, reading the whole source in the order `order`. */
  function QuietSync(order: seq<Row>): seq<Event> {
    [Crash, AdoptStamp, BeginFetch(set r | r in order), Deliver(order), Land(true), StoreCursor]
  }

  ghost function AfterQuietSync(s: State, order: seq<Row>): State {
    var start := Adopt(s.stored, s.stamp);
    var kept := Filter(start, order);
    var advance := Advance(start, kept);
    State(s.source, s.table + kept,
          if kept == [] then s.stamp else StampOf(advance),
          if StampOf(advance).Some? then Some(Commit(start, StampOf(advance).value)) else start,
          Idle)
  }

  /** The staged state of a quiet sync: everything delivered, nothing committed. */
  ghost function QuietStaged(s: State, order: seq<Row>): State {
    var start := Adopt(s.stored, s.stamp);
    s.(stored := start, phase := Fetching(s.source, {}, Filter(start, order)))
  }

  lemma QuietSyncRuns(s: State, order: seq<Row>)
    requires NoDup(order) && Elems(order) == s.source
    ensures Runs(s, QuietSync(order))
    ensures After(s, QuietSync(order)) == AfterQuietSync(s, order)
  {
    var fetch, staged := QuietSync(order)[..4], QuietStaged(s, order);
    QuietFetchRuns(s, order);
    QuietEnd(s, order);
    RunsSnoc(s, fetch, staged, Land(true));
    RunsSnoc(s, fetch + [Land(true)], Next(staged, Land(true)), StoreCursor);
    assert fetch + [Land(true)] + [StoreCursor] == QuietSync(order);
  }

  lemma QuietFetchRuns(s: State, order: seq<Row>)
    requires NoDup(order) && Elems(order) == s.source
    ensures RunsTo(s, QuietSync(order)[..4], QuietStaged(s, order))
  {
    var adopted := s.(stored := Adopt(s.stored, s.stamp), phase := Adopted);
    assert (set r | r in order) == s.source;
    var fetching := adopted.(phase := Fetching(s.source, s.source, []));
    RunsOne(s, Crash);
    QuietDelivery(fetching, order);
    RunsThree(s, [Crash], s.(phase := Idle), AdoptStamp, adopted, BeginFetch(s.source), fetching, Deliver(order));
    assert [Crash] + [AdoptStamp, BeginFetch(s.source), Deliver(order)] == QuietSync(order)[..4];
  }

  lemma RunsThree(from: State, before: seq<Event>, s1: State, e1: Event, s2: State, e2: Event, s3: State, e3: Event)
    requires RunsTo(from, before, s1)
    requires Enabled(s1, e1) && Next(s1, e1) == s2 && Enabled(s2, e2) && Next(s2, e2) == s3 && Enabled(s3, e3)
    ensures RunsTo(from, before + [e1, e2, e3], Next(s3, e3))
  {
    RunsSnoc(from, before, s1, e1);
    RunsSnoc(from, before + [e1], s2, e2);
    RunsSnoc(from, before + [e1] + [e2], s3, e3);
    assert before + [e1] + [e2] + [e3] == before + [e1, e2, e3];
  }

  lemma QuietDelivery(s: State, order: seq<Row>)
    requires NoDup(order) && Elems(order) == s.source && s.phase == Fetching(s.source, s.source, [])
    ensures Enabled(s, Deliver(order))
    ensures Next(s, Deliver(order)) == s.(phase := Fetching(s.source, {}, Filter(s.stored, order)))
  {
    assert s.source - Elems(order) == {};
    assert [] + Filter(s.stored, order) == Filter(s.stored, order);
  }

  lemma QuietEnd(s: State, order: seq<Row>)
    ensures var start := Adopt(s.stored, s.stamp);
            var s4 := s.(stored := start, phase := Fetching(s.source, {}, Filter(start, order)));
            && Enabled(s4, Land(true)) && Enabled(Next(s4, Land(true)), StoreCursor)
            && Next(Next(s4, Land(true)), StoreCursor) == AfterQuietSync(s, order)
  {
  }

  /** From any reachable state, wherever the last sync died, one quiet sync leaves the
      table equal to the source with every row in it once. */
  lemma QuietSyncRecovers(source: set<Row>, events: seq<Event>, order: seq<Row>)
    requires WellFormedSource(source) && Runs(Initial(source), events)
    requires var s := After(Initial(source), events); Bounded(s.source) && NoDup(order) && Elems(order) == s.source
    ensures var s := After(Initial(source), events);
            Runs(s, QuietSync(order)) && multiset(After(s, QuietSync(order)).table) == multiset(s.source)
  {
    var s := After(Initial(source), events);
    RunAtLeastOnce(Initial(source), events);
    RunAtMostOnce(Initial(source), events);
    QuietSyncRuns(s, order);
    var s' := After(s, QuietSync(order));
    RunAtLeastOnce(s, QuietSync(order));
    RunAtMostOnce(s, QuietSync(order));
    NoDupMultiset(s'.table);
    forall r | r in s.source ensures r in Elems(s'.table) {
      assert r in order;
      var start := Adopt(s.stored, s.stamp);
      if Keeps(start, r) {
        assert r in Filter(start, order);
      } else {
        assert r in s.table;
      }
    }
    assert Elems(s'.table) == s.source;
  }

  /** Reading the same rows again keeps nothing exactly when the cap dropped nothing. */
  lemma RefetchKeepsNothingIff(order: seq<Row>)
    requires Top(order).Some? && forall r | r in order :: r.cursor.Some?
    ensures var top := Top(order).value;
            Filter(Some(Resume(top, CapBoundary(IdentsAt(order, top.key)))), order) == []
            <==> |IdentsAt(order, top.key)| <= MAX_BOUNDARY_KEYS
  {
    TopIsHighest(order);
    var top := Top(order).value;
    var ids := IdentsAt(order, top.key);
    var at := Some(Resume(top, CapBoundary(ids)));
    var again := Filter(at, order);
    assert again != [] ==> again[0] in again;
    if |ids| <= MAX_BOUNDARY_KEYS {
      forall r | r in order ensures !Keeps(at, r) {
        if HasKey(r, top.key) {
          MemberIdentsAt(order, r, top.key);
        }
      }
    } else {
      if ids <= CapBoundary(ids) {
        SubsetSize(ids, CapBoundary(ids));
      }
      var id :| id in ids && id !in CapBoundary(ids);
      var r := IdentsAtMember(order, top.key, id);
      assert r in again;
    }
  }

  lemma AppendedAgain(order: seq<Row>, again: seq<Row>)
    requires NoDup(order) && forall r | r in again :: r in order
    ensures NoDup(order + again) <==> again == []
  {
    if again == [] {
      assert order + again == order;
    } else {
      assert again[0] in order;
      var i :| 0 <= i < |order| && order[i] == again[0];
      assert (order + again)[i] == (order + again)[|order|];
    }
  }

  /** In any state without a repeated row, one more sync of an unchanged source repeats one
      exactly when a row of the table passes the filter of the position in force. */
  lemma QuietSyncRepeatsIff(s: State, order: seq<Row>)
    requires NoDup(s.table) && Elems(s.table) <= s.source && NoDup(order) && Elems(order) == s.source
    ensures Runs(s, QuietSync(order))
    ensures NoDup(After(s, QuietSync(order)).table) <==> forall r | r in s.table :: !Keeps(Effective(s), r)
  {
    var kept := Filter(Effective(s), order);
    QuietSyncRuns(s, order);
    FilterNoDup(Effective(s), order);
    if r :| r in s.table && Keeps(Effective(s), r) {
      assert r in Elems(s.table) && r in order && r in kept;
      var i, j :| 0 <= i < |s.table| && s.table[i] == r && 0 <= j < |kept| && kept[j] == r;
      assert (s.table + kept)[i] == (s.table + kept)[|s.table| + j];
    } else {
      forall i, j | 0 <= i < |s.table| && 0 <= j < |kept|
        ensures s.table[i] != kept[j]
      {
        assert s.table[i] in s.table && kept[j] in kept;
      }
    }
  }

  /** The bound is exact: a second sync of an unchanged source appends a row again
      exactly when more rows share the top key than the boundary holds. */
  lemma SecondSyncDuplicatesIff(order: seq<Row>)
    requires order != [] && NoDup(order) && WellFormedSource(Elems(order))
    ensures Runs(Initial(Elems(order)), QuietSync(order) + QuietSync(order))
    ensures Top(order).Some?
    ensures NoDup(After(Initial(Elems(order)), QuietSync(order) + QuietSync(order)).table)
            <==> |IdentsAt(order, Top(order).value.key)| <= MAX_BOUNDARY_KEYS
  {
    var s0, es := Initial(Elems(order)), QuietSync(order);
    QuietSyncRuns(s0, order);
    FirstQuietSync(order);
    var s1 := AfterQuietSync(s0, order);
    QuietSyncRuns(s1, order);
    RunsConcat(s0, es, es);
    assert order[0] in Elems(order);
    forall r | r in order ensures r.cursor.Some? {
      assert r in Elems(order);
    }
    RefetchKeepsNothingIff(order);
    AppendedAgain(order, Filter(Adopt(s1.stored, s1.stamp), order));
  }

  lemma FirstQuietSync(order: seq<Row>)
    requires order != [] && WellFormedSource(Elems(order))
    ensures Top(order).Some?
    ensures var s1, top := AfterQuietSync(Initial(Elems(order)), order), Top(order).value;
            && s1.source == Elems(order) && s1.table == order
            && Adopt(s1.stored, s1.stamp) == Some(Resume(top, CapBoundary(IdentsAt(order, top.key))))
  {
    FilterAll(order);
    TopIsHighest(order);
    assert order[0] in order && order[0] in Elems(order);
    assert {} + IdentsAt(order, Top(order).value.key) == IdentsAt(order, Top(order).value.key);
    assert [] + order == order;
  }

  lemma {:induction false} FilterAll(rows: seq<Row>)
    ensures Filter(None, rows) == rows
  {
    if rows != [] {
      FilterAll(rows[..|rows| - 1]);
    }
  }

  // ---------------------------------------------------------------- the stored list has no bound

  /** `k` rows at one cursor with identities falling from `n - 1`. */
  function Falling(n: nat, k: nat, c: Cursor): seq<Row>
    requires k <= n
  {
    if k == 0 then [] else Falling(n, k - 1, c) + [Row(n - k, Some(c))]
  }

  function IdsBetween(low: nat, high: nat): (ids: set<Ident>)
    requires low <= high
    ensures |ids| == high - low && forall id :: id in ids <==> low <= id < high
    decreases high - low
  {
    if low == high then {} else {low} + IdsBetween(low + 1, high)
  }

  lemma {:induction false} FallingRows(n: nat, k: nat, c: Cursor)
    requires k <= n
    ensures NoDup(Falling(n, k, c))
    ensures forall r :: r in Falling(n, k, c) <==> n - k <= r.ident < n && r.cursor == Some(c)
  {
    if k > 0 {
      FallingRows(n, k - 1, c);
    }
  }

  function StackedAt(n: nat, k: nat, c: Cursor): Option<Resume>
    requires k <= n
  {
    if k == 0 then None else Some(Resume(c, IdsBetween(n - k, n)))
  }

  /** Between syncs, with every falling row stored and named by the stored boundary. */
  ghost predicate Stacked(s: State, n: nat, k: nat, c: Cursor)
    requires k <= n
  {
    && s.source == Elems(Falling(n, k, c)) && s.phase == Idle
    && s.stored == StackedAt(n, k, c)
    && Adopt(s.stored, s.stamp) == s.stored
  }

  lemma ArriveBelow(s: State, n: nat, k: nat, c: Cursor)
    requires k < n && Stacked(s, n, k, c)
    ensures Enabled(s, Arrive(Row(n - k - 1, Some(c))))
    ensures Elems(Falling(n, k + 1, c)) == s.source + {Row(n - k - 1, Some(c))}
  {
    FallingRows(n, k, c);
    assert forall r | r in s.source :: r in Falling(n, k, c);
    assert Falling(n, k + 1, c) == Falling(n, k, c) + [Row(n - k - 1, Some(c))];
  }

  lemma KeepsNewRowOnly(stored: Option<Resume>, n: nat, k: nat, c: Cursor)
    requires k < n && stored == StackedAt(n, k, c)
    ensures Filter(stored, Falling(n, k + 1, c)) == [Row(n - k - 1, Some(c))]
  {
    var row, before := Row(n - k - 1, Some(c)), Falling(n, k, c);
    FallingRows(n, k, c);
    FilterConcat(stored, before, [row]);
    FilterNone(stored, before);
    FilterTake(stored, [row], 0);
    assert [row][..0 + 1] == [row] && [row][..0] == [];
    assert Falling(n, k + 1, c) == before + [row];
  }

  lemma {:induction false} FilterNone(at: Option<Resume>, rows: seq<Row>)
    requires forall r | r in rows :: !Keeps(at, r)
    ensures Filter(at, rows) == []
  {
    if rows != [] {
      assert rows[|rows| - 1] in rows;
      FilterNone(at, rows[..|rows| - 1]);
    }
  }

  lemma LowestIsKept(keys: set<Ident>, id: Ident)
    requires id in keys && forall k | k in keys :: id <= k
    ensures id in CapBoundary(keys)
  {
    var capped := CapBoundary(keys);
    assert |keys| > 0;
    var low :| low in capped;
    assert id <= low;
    assert id in keys - capped ==> low < id;
  }

  lemma AdvanceOne(stored: Option<Resume>, row: Row, c: Cursor, after: Option<Resume>)
    requires row.cursor == Some(c)
    requires stored.Some? ==> stored.value.cursor == c && forall id | id in stored.value.boundary :: row.ident < id
    requires after == Some(Resume(c, (if stored.Some? then stored.value.boundary else {}) + {row.ident}))
    ensures SettlesAt(stored, [row], after)
  {
    assert [row][..0] == [];
    assert Top([row]) == row.cursor;
    assert IdentsAt([row], c.key) == {row.ident} by { assert [row][0] == row; }
    var merged := after.value.boundary;
    var capped := CapBoundary(merged);
    LowestIsKept(merged, row.ident);
    assert {} + {row.ident} == {row.ident};
    assert merged + capped == merged;
    if stored.Some? {
      assert stored.value.boundary + capped == merged;
    } else {
      assert capped == merged;
    }
  }

  /** Keeping these rows moves the stored position to `after`, stamped and settled. */
  ghost predicate SettlesAt(stored: Option<Resume>, kept: seq<Row>, after: Option<Resume>) {
    var stamp := StampOf(Advance(stored, kept));
    kept != [] && stamp.Some? && Some(Commit(stored, stamp.value)) == after && Adopt(after, stamp) == after
  }

  lemma StackedIds(n: nat, k: nat, c: Cursor)
    requires k < n
    ensures var stored := StackedAt(n, k, c);
            StackedAt(n, k + 1, c) == Some(Resume(c, (if stored.Some? then stored.value.boundary else {}) + {n - k - 1}))
  {
    var before := if k == 0 then {} else IdsBetween(n - k, n);
    assert before + {n - k - 1} == IdsBetween(n - k - 1, n);
  }

  /** A sync of one more row, lower than every stored one, keeps that row alone and adds it
      to the stored boundary, however the cap falls. */
  lemma StackOne(s: State, n: nat, k: nat, c: Cursor, order: seq<Row>)
    requires k < n && order == Falling(n, k + 1, c)
    requires s.source == Elems(order) && s.stored == StackedAt(n, k, c) && Adopt(s.stored, s.stamp) == s.stored
    ensures Stacked(AfterQuietSync(s, order), n, k + 1, c)
  {
    var row, after := Row(n - k - 1, Some(c)), StackedAt(n, k + 1, c);
    KeepsNewRowOnly(s.stored, n, k, c);
    StackedIds(n, k, c);
    AdvanceOne(s.stored, row, c, after);
    QuietResult(s, order, s.stored, [row], after);
  }

  lemma QuietResult(s: State, order: seq<Row>, start: Option<Resume>, kept: seq<Row>, after: Option<Resume>)
    requires Adopt(s.stored, s.stamp) == start && Filter(start, order) == kept && SettlesAt(start, kept, after)
    ensures var t := AfterQuietSync(s, order);
            t.source == s.source && t.stored == after && t.phase == Idle && Adopt(t.stored, t.stamp) == after
  {
  }

  ghost predicate StackedBy(events: seq<Event>, n: nat, k: nat, c: Cursor)
    requires k <= n
  {
    Runs(Initial({}), events) && Stacked(After(Initial({}), events), n, k, c)
  }

  lemma StackStep(n: nat, k: nat, c: Cursor, before: seq<Event>)
    requires k < n && StackedBy(before, n, k, c)
    ensures StackedBy(before + [Arrive(Row(n - k - 1, Some(c)))] + QuietSync(Falling(n, k + 1, c)), n, k + 1, c)
  {
    var s, arrive, order := After(Initial({}), before), Arrive(Row(n - k - 1, Some(c))), Falling(n, k + 1, c);
    ArriveBelow(s, n, k, c);
    StackOne(Next(s, arrive), n, k, c, order);
    RunsSnoc(Initial({}), before, s, arrive);
    FallingRows(n, k + 1, c);
    QuietAfter(Initial({}), before + [arrive], s.(source := Elems(order)), order);
  }

  lemma QuietAfter(from: State, before: seq<Event>, s: State, order: seq<Row>)
    requires RunsTo(from, before, s) && NoDup(order) && Elems(order) == s.source
    ensures RunsTo(from, before + QuietSync(order), AfterQuietSync(s, order))
  {
    QuietSyncRuns(s, order);
    RunsConcat(from, before, QuietSync(order));
  }

  lemma {:induction false} StackAll(n: nat, k: nat, c: Cursor) returns (events: seq<Event>)
    requires k <= n
    ensures StackedBy(events, n, k, c)
  {
    if k == 0 {
      events := [];
      StackNone(n, c);
    } else {
      var before := StackAll(n, k - 1, c);
      StackStep(n, k - 1, c, before);
      events := before + [Arrive(Row(n - (k - 1) - 1, Some(c)))] + QuietSync(Falling(n, (k - 1) + 1, c));
    }
  }

  lemma StackNone(n: nat, c: Cursor)
    ensures StackedBy([], n, 0, c)
  {
    assert Elems(Falling(n, 0, c)) == {};
    assert After(Initial({}), []) == Initial({});
  }

  /** The stored boundary has no bound: for every number there is a run of undisturbed syncs
      at one key after which it names more identities. */
  lemma StoredListUnbounded(n: nat, c: Cursor)
    ensures exists events ::
              && Runs(Initial({}), events)
              && After(Initial({}), events).stored.Some?
              && |After(Initial({}), events).stored.value.boundary| > n
  {
    var events := StackAll(n + 1, n + 1, c);
  }
}
