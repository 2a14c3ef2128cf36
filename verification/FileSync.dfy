/** Incremental file syncs as a protocol: the listing and selection of file_cursor.py, one
    stamped snapshot (iceberg_writer.py), then the cursor column (source_registry_base.py),
    with adoption of the stamp (ingest_sync.py) before the next listing. A crash may fall
    between any two steps, and a commit may land without being reported.

    `content` gives the rows of a file version. One sync runs at a time. */
module FileSync {
  import opened Wrappers
  import opened FileCursor
  import RowBatches
  import S = SnapshotCommit

  type Row = map<string, string>

  // ---------------------------------------------------------------- the cursor column

  /** `resume_is_newer` on file cursors. */
  predicate IsNewer(candidate: Version, stored: Option<Version>) {
    stored.None? || Less(stored.value, candidate)
  }

  /** The greater of two positions, no position being the least. */
  function Max(a: Option<Version>, b: Option<Version>): Option<Version> {
    if a.None? then b else if b.None? || !Less(a.value, b.value) then a else b
  }

  class FileSourceRow {
    var lastSynced: Option<Version>

    constructor ()
      ensures lastSynced == None
    {
      lastSynced := None;
    }

    /** `make_column_cursor_commit`. */
    method CommitColumnCursor(value: Version)
      modifies this
      ensures lastSynced == Max(old(lastSynced), Some(value))
    {
      Order(value, if lastSynced.Some? then lastSynced.value else value);
      if lastSynced.Some? && lastSynced.value != value && !IsNewer(value, lastSynced) {
        return;
      }
      lastSynced := Some(value);
    }

    /** The column branch of `_adopt_committed_resume`. */
    method AdoptColumnResume(stamp: Option<Version>)
      modifies this
      ensures lastSynced == Max(old(lastSynced), stamp)
    {
      if stamp.None? {
        return;
      }
      if !IsNewer(stamp.value, lastSynced) {
        return;
      }
      CommitColumnCursor(stamp.value);
    }
  }

  /** The column only ever takes the greatest of the positions written to it, so the order
      and repetition of commits and adoptions do not matter. */
  lemma MaxIsJoin(a: Option<Version>, b: Option<Version>, c: Option<Version>)
    ensures Max(a, b) == Max(b, a) && Max(a, a) == a && Max(Max(a, b), c) == Max(a, Max(b, c))
    ensures a.Some? ==> Max(a, b).Some? && !Less(Max(a, b).value, a.value)
  {
    if a.Some? {
      Order(a.value, a.value);
    }
    if a.Some? && b.Some? {
      Order(a.value, b.value);
      if c.Some? {
        Order(b.value, c.value);
        Order(a.value, c.value);
        if Less(a.value, b.value) && Less(b.value, c.value) { Transitive(a.value, b.value, c.value); }
        if Less(c.value, b.value) && Less(b.value, a.value) { Transitive(c.value, b.value, a.value); }
      }
    }
  }

  // ---------------------------------------------------------------- the protocol

  /** `from` is the cursor the listing was selected with. */
  datatype Phase =
    | Idle
    | Adopted
    | Fetched(from: Option<Version>, listing: seq<Version>, chosen: seq<Version>)
    | Committed(from: Option<Version>, listing: seq<Version>, chosen: seq<Version>)

  /** `history` is the file versions accounted for, in the order they were read: a version
      counts once its rows are in the table or, having none, once the cursor is past it. */
  datatype State = State(table: seq<Row>, stamp: Option<Version>, stored: Option<Version>, history: seq<Version>, phase: Phase)

  datatype Event = AdoptStamp | Fetch(listing: seq<Version>) | Land(reported: bool) | StoreCursor | Crash

  function Start(): State {
    State([], None, None, [], Idle)
  }

  function Effective(s: State): Option<Version> {
    Max(s.stored, s.stamp)
  }

  predicate Above(at: Option<Version>, v: Version) {
    at.Some? ==> Less(at.value, v)
  }

  function CursorOf(stored: Option<Version>): Cursor {
    if stored.Some? then Versioned(stored.value) else NoCursor
  }

  function LastOf(versions: seq<Version>): Option<Version> {
    if versions == [] then None else Some(versions[|versions| - 1])
  }

  function Contents(content: Version -> seq<Row>, versions: seq<Version>): seq<Row> {
    if versions == [] then []
    else Contents(content, versions[..|versions| - 1]) + content(versions[|versions| - 1])
  }

  /** The rows of each version as its file holds them, version after version. */
  lemma {:induction false} ContentsIs(content: Version -> seq<Row>, versions: seq<Version>)
    ensures Contents(content, versions) == Flatten(seq(|versions|, i requires 0 <= i < |versions| => content(versions[i])))
  {
    if versions != [] {
      var front, last := versions[..|versions| - 1], versions[|versions| - 1];
      var files := seq(|front|, i requires 0 <= i < |front| => content(front[i]));
      ContentsIs(content, front);
      FlattenSnoc(files, content(last));
      assert seq(|versions|, i requires 0 <= i < |versions| => content(versions[i])) == files + [content(last)];
    }
  }

  ghost predicate Enabled(s: State, e: Event) {
    match e
    case AdoptStamp => s.phase.Idle?
    case Fetch(listing) => s.phase.Adopted? && NoDup(listing)
    case Land(reported) => s.phase.Fetched?
    case StoreCursor => s.phase.Committed?
    case Crash => true
  }

  ghost function Next(content: Version -> seq<Row>, s: State, e: Event): State
    requires Enabled(s, e)
  {
    match e
    case AdoptStamp => s.(stored := Max(s.stored, s.stamp), phase := Adopted)
    case Fetch(listing) => s.(phase := Fetched(s.stored, listing, Chosen(listing, CursorOf(s.stored))))
    case Land(reported) =>
      var chosen, rows := s.phase.chosen, Contents(content, s.phase.chosen);
      var after := if reported then Committed(s.phase.from, s.phase.listing, chosen) else Idle;
      // without rows no transaction is opened, and no snapshot is made to carry the cursor
      if rows == [] then s.(phase := after)
      else s.(table := s.table + rows, stamp := LastOf(chosen), history := s.history + chosen, phase := after)
    case StoreCursor =>
      var chosen := s.phase.chosen;
      var stored := Max(s.stored, LastOf(chosen));
      if Contents(content, chosen) == [] then s.(stored := stored, history := s.history + chosen, phase := Idle)
      else s.(stored := stored, phase := Idle)
    case Crash => s.(phase := Idle)
  }

  ghost predicate ValidRun(content: Version -> seq<Row>, s: State, events: seq<Event>)
    decreases |events|
  {
    events == [] || (Enabled(s, events[0]) && ValidRun(content, Next(content, s, events[0]), events[1..]))
  }

  ghost function RunOf(content: Version -> seq<Row>, s: State, events: seq<Event>): State
    requires ValidRun(content, s, events)
    decreases |events|
  {
    if events == [] then s else RunOf(content, Next(content, s, events[0]), events[1..])
  }

  ghost predicate RunsTo(content: Version -> seq<Row>, s: State, events: seq<Event>, t: State) {
    ValidRun(content, s, events) && RunOf(content, s, events) == t
  }

  lemma {:induction false} RunSnoc(content: Version -> seq<Row>, s: State, events: seq<Event>, t: State, e: Event)
    requires RunsTo(content, s, events, t) && Enabled(t, e)
    ensures RunsTo(content, s, events + [e], Next(content, t, e))
    decreases |events|
  {
    if events == [] {
      assert [] + [e] == [e] && [e][1..] == [];
      assert ValidRun(content, Next(content, t, e), []);
    } else {
      RunSnoc(content, Next(content, s, events[0]), events[1..], t, e);
      assert (events + [e])[1..] == events[1..] + [e];
    }
  }

  // ---------------------------------------------------------------- the invariant

  /** `chosen` is what the listing has above the cursor it was selected with. */
  ghost predicate Selected(from: Option<Version>, listing: seq<Version>, chosen: seq<Version>) {
    Increasing(chosen) && forall v :: v in chosen <==> v in listing && Above(from, v)
  }

  /** The table holds the rows of the versions read so far, once each and in pair order, and
      the effective cursor is the last of them. */
  ghost predicate Inv(content: Version -> seq<Row>, s: State) {
    && Increasing(s.history)
    && s.table == Contents(content, s.history)
    && Effective(s) == LastOf(s.history)
    && match s.phase
       case Idle => true
       case Adopted => s.stored == Effective(s)
       case Fetched(from, listing, chosen) => s.stored == Effective(s) == from && Selected(from, listing, chosen)
       case Committed(from, listing, chosen) =>
         && Selected(from, listing, chosen)
         && if Contents(content, chosen) == [] then s.stored == Effective(s) == from
            else (forall v | v in chosen :: v in s.history) && LastOf(chosen) == LastOf(s.history)
  }

  lemma {:induction false} ContentsConcat(content: Version -> seq<Row>, a: seq<Version>, b: seq<Version>)
    ensures Contents(content, a + b) == Contents(content, a) + Contents(content, b)
    decreases |b|
  {
    if b == [] {
      assert a + b == a;
    } else {
      assert (a + b)[..|a + b| - 1] == a + b[..|b| - 1];
      ContentsConcat(content, a, b[..|b| - 1]);
    }
  }

  lemma IncreasingConcat(a: seq<Version>, b: seq<Version>)
    requires Increasing(a) && Increasing(b)
    requires forall v | v in b :: a != [] ==> Less(a[|a| - 1], v)
    ensures Increasing(a + b)
  {
    forall i, j | 0 <= i < j < |a + b|
      ensures Less((a + b)[i], (a + b)[j])
    {
      if i < |a| <= j {
        assert b[j - |a|] in b;
        if i < |a| - 1 {
          Transitive(a[i], a[|a| - 1], b[j - |a|]);
        }
      }
    }
  }

  lemma MaxAbove(a: Option<Version>, b: Option<Version>)
    requires b.Some? && Above(a, b.value)
    ensures Max(a, b) == b && Max(b, a) == b && Max(b, b) == b
  {
    Order(b.value, b.value);
    if a.Some? {
      Order(a.value, b.value);
    }
  }

  /** Appending the chosen versions to the history keeps it increasing, exact and topped. */
  lemma HistoryGrows(content: Version -> seq<Row>, s: State, listing: seq<Version>, chosen: seq<Version>)
    requires Increasing(s.history) && s.table == Contents(content, s.history)
    requires Effective(s) == LastOf(s.history) && Selected(Effective(s), listing, chosen)
    ensures Increasing(s.history + chosen)
    ensures s.table + Contents(content, chosen) == Contents(content, s.history + chosen)
    ensures LastOf(s.history + chosen) == Max(LastOf(s.history), LastOf(chosen))
  {
    IncreasingConcat(s.history, chosen);
    ContentsConcat(content, s.history, chosen);
    if chosen == [] {
      assert s.history + chosen == s.history;
    } else {
      assert chosen[|chosen| - 1] in chosen;
      MaxAbove(LastOf(s.history), LastOf(chosen));
    }
  }

  lemma NextInv(content: Version -> seq<Row>, s: State, e: Event)
    requires Inv(content, s) && Enabled(s, e)
    ensures Inv(content, Next(content, s, e))
  {
    MaxIsJoin(s.stored, s.stamp, s.stamp);
    match e
    case AdoptStamp =>
    case Fetch(listing) => ChosenIsEverythingAbove(listing, CursorOf(s.stored));
    case Land(reported) =>
      var chosen := s.phase.chosen;
      HistoryGrows(content, s, s.phase.listing, chosen);
      if Contents(content, chosen) != [] {
        assert chosen[|chosen| - 1] in chosen;
        MaxAbove(s.stored, LastOf(chosen));
        MaxAbove(LastOf(s.history), LastOf(chosen));
      }
    case StoreCursor => StoreInv(content, s);
    case Crash =>
  }

  lemma StoreInv(content: Version -> seq<Row>, s: State)
    requires Inv(content, s) && s.phase.Committed?
    ensures Inv(content, Next(content, s, StoreCursor))
  {
    var chosen := s.phase.chosen;
    MaxIsJoin(s.stored, LastOf(chosen), s.stamp);
    MaxIsJoin(LastOf(chosen), s.stamp, s.stamp);
    MaxIsJoin(s.stored, s.stamp, LastOf(chosen));
    if Contents(content, chosen) == [] {
      HistoryGrows(content, s, s.phase.listing, chosen);
      assert s.table + [] == s.table;
    } else {
      MaxIsJoin(LastOf(chosen), s.stored, s.stored);
    }
  }

  lemma {:induction false} RunInv(content: Version -> seq<Row>, s: State, events: seq<Event>)
    requires Inv(content, s) && ValidRun(content, s, events)
    ensures Inv(content, RunOf(content, s, events))
    decreases |events|
  {
    if events != [] {
      NextInv(content, s, events[0]);
      RunInv(content, Next(content, s, events[0]), events[1..]);
    }
  }

  /** After every run the table is the rows of distinct file versions in pair order, and a
      sync that has stored its cursor has read everything it listed above the old one. */
  lemma EachVersionReadOnce(content: Version -> seq<Row>, events: seq<Event>)
    requires ValidRun(content, Start(), events)
    ensures var s := RunOf(content, Start(), events);
            && s.table == Contents(content, s.history)
            && Increasing(s.history) && NoDup(s.history)
            && (s.phase.Committed? ==>
                  forall v | v in s.phase.listing && Above(s.phase.from, v) :: v in Next(content, s, StoreCursor).history)
  {
    assert Inv(content, Start());
    RunInv(content, Start(), events);
    var s := RunOf(content, Start(), events);
    forall i, j | 0 <= i < j < |s.history|
      ensures s.history[i] != s.history[j]
    {
      Order(s.history[i], s.history[j]);
    }
  }

  /** No step moves the effective cursor back, and what a step reads is above it. */
  lemma CursorGrows(content: Version -> seq<Row>, s: State, e: Event)
    requires Inv(content, s) && Enabled(s, e)
    ensures var s' := Next(content, s, e);
            && s.history <= s'.history
            && (forall v | v in s'.history && v !in s.history :: Above(Effective(s), v))
            && (forall v | Above(Effective(s'), v) :: Above(Effective(s), v))
            && (s'.history != s.history ==> Effective(s') != Effective(s))
  {
    NextInv(content, s, e);
    var s' := Next(content, s, e);
    forall v | v in s'.history && v !in s.history
      ensures Above(Effective(s), v)
    {
      var m :| 0 <= m < |s'.history| && s'.history[m] == v;
      assert s'.history[..|s.history|] == s.history;
      assert m >= |s.history|;
      if s.history != [] {
        assert s'.history[|s.history| - 1] == s.history[|s.history| - 1];
      }
    }
    if s'.history != s.history && s.history != [] {
      var n, m := |s.history| - 1, |s'.history| - 1;
      assert s'.history[n] == s.history[n];
      assert Less(s'.history[n], s'.history[m]);
      Order(s'.history[n], s'.history[m]);
      forall v | Above(Effective(s'), v)
        ensures Above(Effective(s), v)
      {
        Transitive(s'.history[n], s'.history[m], v);
      }
    }
  }

  /** What is unread at or below the cursor is never read, whatever is listed later. */
  lemma {:induction false} SkippedForever(content: Version -> seq<Row>, s: State, events: seq<Event>, v: Version)
    requires Inv(content, s) && ValidRun(content, s, events)
    requires v !in s.history && !Above(Effective(s), v)
    ensures v !in RunOf(content, s, events).history
    decreases |events|
  {
    if events != [] {
      var s' := Next(content, s, events[0]);
      CursorGrows(content, s, events[0]);
      NextInv(content, s, events[0]);
      SkippedForever(content, s', events[1..], v);
    }
  }

  /** An unread version is read by the sync that lists it if it is above the cursor, and
      otherwise by no later sync at all. */
  lemma UnreadVersionIsReadIff(content: Version -> seq<Row>, s: State, listing: seq<Version>, later: seq<Event>, v: Version)
    requires Inv(content, s) && s.phase.Adopted? && NoDup(listing) && v in listing && v !in s.history
    requires ValidRun(content, s, [Fetch(listing), Land(true), StoreCursor] + later)
    ensures v in RunOf(content, s, [Fetch(listing), Land(true), StoreCursor] + later).history <==> Above(Effective(s), v)
  {
    var events := [Fetch(listing), Land(true), StoreCursor] + later;
    if Above(Effective(s), v) {
      var s1 := Next(content, s, Fetch(listing));
      var s2 := Next(content, s1, Land(true));
      var s3 := Next(content, s2, StoreCursor);
      NextInv(content, s, Fetch(listing));
      NextInv(content, s1, Land(true));
      NextInv(content, s2, StoreCursor);
      assert v in s3.history;
      var e1, e2 := events[1..], events[2..];
      assert e1[1..] == e2 && e2[1..] == later;
      assert ValidRun(content, s1, e1) && ValidRun(content, s2, e2) && ValidRun(content, s3, later);
      assert RunOf(content, s, events) == RunOf(content, s2, e2) == RunOf(content, s3, later);
      HistoryStays(content, s3, later);
    } else {
      SkippedForever(content, s, events, v);
    }
  }

  lemma {:induction false} HistoryStays(content: Version -> seq<Row>, s: State, events: seq<Event>)
    requires Inv(content, s) && ValidRun(content, s, events)
    ensures s.history <= RunOf(content, s, events).history
    decreases |events|
  {
    if events != [] {
      CursorGrows(content, s, events[0]);
      NextInv(content, s, events[0]);
      HistoryStays(content, Next(content, s, events[0]), events[1..]);
    }
  }

  // ---------------------------------------------------------------- one sync

  /** Where the call dies outside the commit, if it does: the last one is in its bookkeeping,
      after the cursor is stored. */
  datatype Fault = NoFault | DiesBeforeAdoption | DiesWhileFetching | DiesBeforeStore | DiesAfterStore

  ghost function EndEvents(landed: bool, reported: bool, dies: bool): seq<Event> {
    if reported then [Land(true), if dies then Crash else StoreCursor] else if landed then [Land(false)] else [Crash]
  }

  /** Between syncs, after a fetch that staged `rows`. */
  ghost function Ended(s: State, rows: seq<Row>, landed: bool, stores: bool): State
    requires s.phase.Fetched?
  {
    var last := LastOf(s.phase.chosen);
    State(s.table + (if landed then rows else []), if landed then last else s.stamp,
          if stores then Max(s.stored, last) else s.stored,
          if landed || (stores && rows == []) then s.history + s.phase.chosen else s.history, Idle)
  }

  lemma EndRuns(content: Version -> seq<Row>, before: seq<Event>, s: State, landed: bool, reported: bool, dies: bool)
    requires RunsTo(content, Start(), before, s) && s.phase.Fetched?
    requires if Contents(content, s.phase.chosen) == [] then !landed else reported ==> landed
    ensures RunsTo(content, Start(), before + EndEvents(landed, reported, dies),
                   Ended(s, Contents(content, s.phase.chosen), landed, reported && !dies))
  {
    assert s.table + [] == s.table;
    if reported {
      var last := if dies then Crash else StoreCursor;
      RunSnoc(content, Start(), before, s, Land(true));
      RunSnoc(content, Start(), before + [Land(true)], Next(content, s, Land(true)), last);
      assert before + [Land(true)] + [last] == before + EndEvents(landed, reported, dies);
    } else if landed {
      RunSnoc(content, Start(), before, s, Land(false));
    } else {
      RunSnoc(content, Start(), before, s, Crash);
    }
  }

  /** A sync that has adopted the stamp and selected from a listing. */
  ghost function Listed(begin: State, listing: seq<Version>): State {
    var at := Effective(begin);
    begin.(stored := at, phase := Fetched(at, listing, Chosen(listing, CursorOf(at))))
  }

  class FileDataset {
    const content: Version -> seq<Row>
    const row: FileSourceRow
    const catalog: S.Catalog<Row, Version>
    var nextId: nat  // ids of syncs are unique
    ghost var history: seq<Version>
    ghost var trace: seq<Event>

    ghost function View(): State
      reads this, row, catalog
    {
      State(S.RowsOf(catalog.history), S.CurrentResume(catalog.history), row.lastSynced, history, Idle)
    }

    /** What all calls together have done is a run of the protocol. */
    ghost predicate Valid()
      reads this, row, catalog
    {
      RunsTo(content, Start(), trace, View()) && forall x | x in catalog.history :: x.syncId < nextId
    }

    constructor (content: Version -> seq<Row>)
      ensures Valid() && View() == Start() && this.content == content && fresh(row) && fresh(catalog)
    {
      row := new FileSourceRow();
      catalog := new S.Catalog<Row, Version>();
      this.content, nextId, history, trace := content, 0, [], [];
    }

    /** `_run_sync_for_dataset` for a file source, whatever it dies of and whatever the
        catalog does to its commit. */
    method RunSync(listing: seq<Version>, size: nat, fault: Fault, net: S.Network<Row, Version>) returns (ok: bool)
      requires Valid() && NoDup(listing) && size > 0 && S.OnlyWriter(net)
      modifies this`nextId, this`history, this`trace, row, catalog
      ensures Valid() && old(trace) <= trace
      ensures S.RowsOf(catalog.history) == Contents(content, history) && Increasing(history)
      ensures var rows := Contents(content, Chosen(listing, CursorOf(old(Effective(View())))));
              ok == (fault.NoFault? && S.Reports(net, rows))
      ensures ok ==> forall v | v in listing && Above(old(Effective(View())), v) :: v in history
      ensures ok ==> row.lastSynced == Effective(View())
    {
      if fault.DiesBeforeAdoption? {
        ok := false;
      } else {
        ghost var before, fetched := trace + [AdoptStamp] + [Fetch(listing)], Listed(View(), listing);
        var batches, newest := AdoptAndFetch(listing);
        if fault.DiesWhileFetching? {
          RunSnoc(content, Start(), before, fetched, Crash);
          trace := before + [Crash];
          ok := false;
        } else {
          var regrouped := RowBatches.Regroup(RowBatches.Streamed(batches), size);
          var stored := CommitAndStore(regrouped, newest, net, fault.DiesBeforeStore?, before, fetched);
          ok := stored && !fault.DiesAfterStore?;
        }
      }
      HistoryIsExact();
    }

    /** In every state reached by calls, the table is the rows of distinct versions in order. */
    lemma HistoryIsExact()
      requires Valid()
      ensures S.RowsOf(catalog.history) == Contents(content, history) && Increasing(history)
    {
      assert Inv(content, Start());
      RunInv(content, Start(), trace);
    }

    method AdoptAndFetch(listing: seq<Version>) returns (batches: seq<seq<Row>>, newest: Option<Version>)
      requires Valid() && NoDup(listing)
      modifies row
      ensures var s := Listed(old(View()), listing);
              && RunsTo(content, Start(), trace + [AdoptStamp] + [Fetch(listing)], s)
              && s.(phase := Idle) == View()
              && Flatten(batches) == Contents(content, s.phase.chosen) && newest == LastOf(s.phase.chosen)
              && s.stored == Effective(s) == old(Effective(View()))
              && Selected(s.stored, listing, s.phase.chosen)
    {
      ghost var begin := View();
      ghost var adopted := begin.(stored := Effective(begin), phase := Adopted);
      RunSnoc(content, Start(), trace, begin, AdoptStamp);
      RunSnoc(content, Start(), trace + [AdoptStamp], adopted, Fetch(listing));
      MaxIsJoin(begin.stored, begin.stamp, begin.stamp);
      row.AdoptColumnResume(S.CurrentResume(catalog.history));
      ChosenIsEverythingAbove(listing, CursorOf(row.lastSynced));
      batches, newest := FetchFiles(content, listing, row.lastSynced);
    }

    /** Stage, stamp and commit the rows. */
    method CommitRows(regrouped: seq<seq<Row>>, newest: Option<Version>, net: S.Network<Row, Version>) returns (reported: bool)
      requires S.OnlyWriter(net) && forall x | x in catalog.history :: x.syncId < nextId
      modifies this`nextId, catalog
      ensures var rows := Flatten(regrouped);
              && reported == S.Reports(net, rows)
              && (if rows == [] then !S.Lands(net, rows) else reported ==> S.Lands(net, rows))
              && S.RowsOf(catalog.history) == old(S.RowsOf(catalog.history)) + (if S.Lands(net, rows) then rows else [])
              && S.CurrentResume(catalog.history) == if S.Lands(net, rows) then newest else old(S.CurrentResume(catalog.history))
      ensures forall x | x in catalog.history :: x.syncId < nextId
    {
      S.OfSyncEmptyIff(catalog.history, nextId);
      var writer := new S.SnapshotWriter(catalog, nextId);
      nextId := nextId + 1;
      S.StageBatches(writer, regrouped);
      reported := S.CommitStaged(writer, newest, net);
    }

    /** Commit the rows, then store the cursor. */
    method CommitAndStore(regrouped: seq<seq<Row>>, newest: Option<Version>, net: S.Network<Row, Version>, dies: bool,
                          ghost before: seq<Event>, ghost s: State)
      returns (ok: bool)
      requires S.OnlyWriter(net) && forall x | x in catalog.history :: x.syncId < nextId
      requires RunsTo(content, Start(), before, s) && s.phase.Fetched? && s.(phase := Idle) == View()
      requires Flatten(regrouped) == Contents(content, s.phase.chosen) && newest == LastOf(s.phase.chosen)
      requires s.stored == Effective(s)
      modifies this`nextId, this`history, this`trace, row, catalog
      ensures Valid() && before <= trace
      ensures ok == (S.Reports(net, Contents(content, s.phase.chosen)) && !dies)
      ensures ok ==> row.lastSynced == Effective(View())
      ensures ok ==> forall v | v in s.phase.chosen :: v in history
    {
      ghost var rows := Flatten(regrouped);
      ghost var landed := S.Lands(net, rows);
      var reported := CommitRows(regrouped, newest, net);
      ok := reported && !dies;
      if ok {
        if newest.Some? {
          row.CommitColumnCursor(newest.value);
        }
      }
      history := if landed || (ok && rows == []) then history + s.phase.chosen else history;
      EndRuns(content, before, s, landed, reported, dies);
      trace := before + EndEvents(landed, reported, dies);
      StoredIsEffective(s, landed);
    }
  }

  /** After the cursor is stored, adopting the stamp changes nothing. */
  lemma StoredIsEffective(s: State, landed: bool)
    requires s.phase.Fetched?
    ensures landed ==> Max(Max(s.stored, LastOf(s.phase.chosen)), LastOf(s.phase.chosen)) == Max(s.stored, LastOf(s.phase.chosen))
    ensures s.stored == Effective(s) ==> Max(Max(s.stored, LastOf(s.phase.chosen)), s.stamp) == Max(s.stored, LastOf(s.phase.chosen))
  {
    var last := LastOf(s.phase.chosen);
    MaxIsJoin(s.stored, last, last);
    MaxIsJoin(last, last, last);
    MaxIsJoin(s.stored, last, s.stamp);
    MaxIsJoin(last, s.stamp, s.stamp);
    MaxIsJoin(s.stored, s.stamp, last);
  }

  /** The rows of the selected files, file by file, and the new cursor if it differs from the
      old one. */
  method FetchFiles(content: Version -> seq<Row>, listing: seq<Version>, last: Option<Version>)
    returns (batches: seq<seq<Row>>, newest: Option<Version>)
    requires NoDup(listing)
    ensures var chosen := Chosen(listing, CursorOf(last)); Flatten(batches) == Contents(content, chosen) && newest == LastOf(chosen)
  {
    var cursor := CursorOf(last);
    var keys, newCursor := SelectFiles(listing, cursor);
    ChosenIsEverythingAbove(listing, cursor);
    var chosen := Chosen(listing, cursor);
    if chosen != [] && cursor.Versioned? {
      Order(cursor.at, chosen[|chosen| - 1]);
    }
    newest := if newCursor != cursor && newCursor.Versioned? then Some(newCursor.at) else None;
    batches := ReadFiles(content, chosen);
  }

  method ReadFiles(content: Version -> seq<Row>, chosen: seq<Version>) returns (batches: seq<seq<Row>>)
    ensures Flatten(batches) == Contents(content, chosen)
  {
    batches := [];
    for n := 0 to |chosen|
      invariant Flatten(batches) == Contents(content, chosen[..n])
    {
      assert chosen[..n + 1][..n] == chosen[..n];
      FlattenSnoc(batches, content(chosen[n]));
      batches := batches + [content(chosen[n])];
    }
    assert chosen[..|chosen|] == chosen;
  }
}
