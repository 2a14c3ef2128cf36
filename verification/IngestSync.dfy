/** `_run_sync_for_dataset` in services/connectivity/app/ingest_sync.py, step by step: adopt
    the stamped cursor, fetch and stage batch by batch, commit one stamped snapshot, store
    the cursor. Wherever the call dies, what it leaves behind is a run of the protocol. */
module IngestSync {
  import opened Wrappers
  import opened CursorWindow
  import opened CursorCommit
  import opened IngestProtocol
  import RowBatches
  import S = SnapshotCommit

  /** Where the call dies outside the commit, if it does: the last one is in its bookkeeping,
      after the cursor is stored. */
  datatype Fault = NoFault | DiesBeforeAdoption | DiesWhileFetching(batches: nat) | DiesBeforeStore | DiesAfterStore

  lemma NoDupMiddle(before: seq<Row>, batch: seq<Row>, rest: seq<Row>)
    requires NoDup(before + batch + rest)
    ensures NoDup(batch) && forall r | r in batch :: r !in before
  {
    var all := before + batch + rest;
    assert forall i | 0 <= i < |before| :: all[i] == before[i];
    assert forall j | 0 <= j < |batch| :: all[|before| + j] == batch[j];
  }

  /** What is left to deliver after `n` batches, and that batch `n` is all of it new. */
  lemma NextBatchIsPending(batches: seq<seq<Row>>, n: nat)
    requires n < |batches| && NoDup(Flatten(batches))
    ensures NoDup(batches[n])
    ensures Elems(batches[n]) <= Elems(Flatten(batches)) - Elems(Flatten(batches[..n]))
    ensures Flatten(batches[..n + 1]) == Flatten(batches[..n]) + batches[n]
  {
    assert batches[..n + 1] == batches[..n] + [batches[n]];
    FlattenSnoc(batches[..n], batches[n]);
    assert batches == batches[..n + 1] + batches[n + 1..];
    FlattenAppend(batches[..n + 1], batches[n + 1..]);
    NoDupMiddle(Flatten(batches[..n]), batches[n], Flatten(batches[n + 1..]));
  }

  function Deliveries(batches: seq<seq<Row>>): seq<Event> {
    seq(|batches|, i requires 0 <= i < |batches| => Deliver(batches[i]))
  }

  /** The events of a sync up to and including its first `n` batches. */
  ghost function FetchEvents(batches: seq<seq<Row>>, n: nat): seq<Event>
    requires n <= |batches|
  {
    [AdoptStamp, BeginFetch(Elems(Flatten(batches)))] + Deliveries(batches[..n])
  }

  ghost function Fetched(begin: State, batches: seq<seq<Row>>, n: nat): State
    requires n <= |batches|
  {
    State(begin.source, begin.table, begin.stamp, Effective(begin),
          Fetching(begin.source, Elems(Flatten(batches)) - Elems(Flatten(batches[..n])),
                   Filter(Effective(begin), Flatten(batches[..n]))))
  }

  /** `batches` is what a source delivers for the cursor in force after adoption. */
  ghost predicate Delivers(s: State, batches: seq<seq<Row>>) {
    && NoDup(Flatten(batches))
    && Elems(Flatten(batches)) <= s.source
    && (forall r | r in s.source && (Effective(s).Some? ==> Effective(s).value.cursor.key <= KeyOf(r)) ::
          r in Flatten(batches))
  }

  lemma FetchBegins(begin: State, batches: seq<seq<Row>>)
    requires begin.phase.Idle? && Delivers(begin, batches)
    ensures RunsTo(begin, FetchEvents(batches, 0), Fetched(begin, batches, 0))
  {
    var first, second := AdoptStamp, BeginFetch(Elems(Flatten(batches)));
    RunsOne(begin, first);
    RunsSnoc(begin, [first], Next(begin, first), second);
    assert FetchEvents(batches, 0) == [first] + [second];
    assert Flatten(batches[..0]) == [];
    assert Elems(Flatten(batches)) - Elems(Flatten(batches[..0])) == Elems(Flatten(batches));
  }

  lemma DeliverNext(begin: State, batches: seq<seq<Row>>, n: nat)
    requires n < |batches| && Delivers(begin, batches)
    ensures var s, e := Fetched(begin, batches, n), Deliver(batches[n]);
            Enabled(s, e) && Next(s, e) == Fetched(begin, batches, n + 1)
  {
    NextBatchIsPending(batches, n);
    FilterConcat(Effective(begin), Flatten(batches[..n]), batches[n]);
    var s, e := Fetched(begin, batches, n), Deliver(batches[n]);
    assert Elems(Flatten(batches[..n + 1])) == Elems(Flatten(batches[..n])) + Elems(batches[n]);
    assert Next(s, e).phase.pending == Fetched(begin, batches, n + 1).phase.pending;
  }

  lemma {:induction false} FetchRuns(begin: State, batches: seq<seq<Row>>, n: nat)
    requires begin.phase.Idle? && Delivers(begin, batches) && n <= |batches|
    ensures RunsTo(begin, FetchEvents(batches, n), Fetched(begin, batches, n))
  {
    if n == 0 {
      FetchBegins(begin, batches);
    } else {
      FetchRuns(begin, batches, n - 1);
      DeliverNext(begin, batches, n - 1);
      RunsSnoc(begin, FetchEvents(batches, n - 1), Fetched(begin, batches, n - 1), Deliver(batches[n - 1]));
      assert FetchEvents(batches, n) == FetchEvents(batches, n - 1) + [Deliver(batches[n - 1])];
    }
  }

  // ---------------------------------------------------------------- the end of a sync

  /** The steps a sync takes after staging. */
  ghost function EndEvents(landed: bool, reported: bool, dies: bool): seq<Event> {
    if reported then [Land(true), if dies then Crash else StoreCursor] else if landed then [Land(false)] else [Crash]
  }

  ghost function Ended(s: State, landed: bool, stores: bool): State
    requires s.phase.Fetching?
  {
    var kept, stamp := s.phase.kept, StampOf(Advance(s.stored, s.phase.kept));
    State(s.source, s.table + (if landed then kept else []), if landed then stamp else s.stamp,
          if stores && stamp.Some? then Some(Commit(s.stored, stamp.value)) else s.stored, Idle)
  }

  lemma EndRuns(begin: State, before: seq<Event>, s: State, landed: bool, reported: bool, dies: bool)
    requires RunsTo(begin, before, s) && s.phase.Fetching? && s.phase.pending == {}
    requires if s.phase.kept == [] then !landed else reported ==> landed
    ensures RunsTo(begin, before + EndEvents(landed, reported, dies), Ended(s, landed, reported && !dies))
  {
    assert s.table + [] == s.table;
    if reported {
      var last := if dies then Crash else StoreCursor;
      RunsSnoc(begin, before, s, Land(true));
      RunsSnoc(begin, before + [Land(true)], Next(s, Land(true)), last);
      assert before + [Land(true)] + [last] == before + EndEvents(landed, reported, dies);
    } else if landed {
      RunsSnoc(begin, before, s, Land(false));
    } else {
      RunsSnoc(begin, before, s, Crash);
    }
  }

  /** After a reported sync the stored row needs no adoption. */
  lemma StoredIsEffective(from: Option<Resume>, earlier: Option<Resume>, staged: seq<Row>)
    requires Adopt(from, earlier) == from
    requires forall r | r in staged :: Keeps(from, r)
    ensures var advance := Advance(from, staged);
            var stamp := if staged == [] then earlier else StampOf(advance);
            var stored := if StampOf(advance).Some? then Some(Commit(from, StampOf(advance).value)) else from;
            Adopt(stored, stamp) == stored
  {
    var advance := Advance(from, staged);
    if staged != [] && advance.changed {
      TopIsHighest(staged);
      if from.Some? {
        var i :| 0 <= i < |staged| && staged[i].cursor == Top(staged);
        assert staged[i] in staged;
      }
      AdoptSettles(from, Resume(advance.cursor.value, advance.boundary));
    }
  }

  /** A reported commit of a sync whose fetch began at the present source leaves exactly the
      source in the table. */
  lemma ReportedIsExact(start: set<Row>, before: seq<Event>, s: State, landed: bool)
    requires WellFormedSource(start) && RunsTo(Initial(start), before, s)
    requires s.phase.Fetching? && s.phase.pending == {} && s.phase.goal == s.source
    requires landed <==> s.phase.kept != []
    ensures var table := s.table + (if landed then s.phase.kept else []);
            Elems(table) == s.source && (Bounded(s.source) ==> multiset(table) == multiset(s.source))
  {
    RunsSnoc(Initial(start), before, s, Land(true));
    assert s.table + [] == s.table;
    NoRowLost(start, before + [Land(true)]);
    if Bounded(s.source) {
      SuccessfulSyncIsExact(start, before + [Land(true)]);
    }
  }

  // ---------------------------------------------------------------- the code

  class Dataset {
    const row: SourceRow
    const catalog: S.Catalog<Row, Resume>
    var source: set<Row>
    var nextId: nat  // ids of syncs are unique
    ghost var start: set<Row>
    ghost var trace: seq<Event>

    /** The protocol's view between two syncs: the table is what the catalog's history holds,
        and its stamp is the one on the current snapshot. */
    ghost function View(): State
      reads this, row, catalog
    {
      State(source, S.RowsOf(catalog.history), S.CurrentResume(catalog.history), row.Stored(), Idle)
    }

    /** What all calls together have done is a run of the protocol. */
    ghost predicate Valid()
      reads this, row, catalog
    {
      && row.present && WellFormedSource(start)
      && RunsTo(Initial(start), trace, View())
      && (forall x | x in catalog.history :: x.syncId < nextId)
    }

    constructor (source: set<Row>)
      requires WellFormedSource(source)
      ensures Valid() && View() == Initial(source) && fresh(row) && fresh(catalog)
    {
      row := new SourceRow();
      catalog := new S.Catalog<Row, Resume>();
      this.source, nextId, start, trace := source, 0, source, [];
    }

    /** A row arrives between two syncs. */
    method ReceiveRow(arrived: Row)
      requires Valid() && Enabled(View(), Arrive(arrived))
      modifies this`source, this`trace
      ensures Valid() && source == old(source) + {arrived}
    {
      RunsSnoc(Initial(start), trace, View(), Arrive(arrived));
      source, trace := source + {arrived}, trace + [Arrive(arrived)];
    }

    /** One sync, whatever it dies of and whatever the catalog does to its commit. With this
        and every earlier call the table holds no row twice, and a call that succeeds leaves
        exactly the source in it. */
    method RunSync(batches: seq<seq<Row>>, size: nat, fault: Fault, net: S.Network<Row, Resume>) returns (ok: bool)
      requires Valid() && Delivers(View(), batches) && size > 0 && S.OnlyWriter(net)
      requires fault.DiesWhileFetching? ==> fault.batches <= |batches|
      modifies this`nextId, this`trace, row, catalog
      ensures Valid() && old(trace) <= trace
      ensures var staged := Filter(old(Effective(View())), Flatten(batches));
              var commits := fault.NoFault? || fault.DiesBeforeStore? || fault.DiesAfterStore?;
              && ok == (fault.NoFault? && S.Reports(net, staged))
              && S.RowsOf(catalog.history) == old(S.RowsOf(catalog.history)) + (if commits && S.Lands(net, staged) then staged else [])
      ensures ok ==> row.Stored() == Effective(View())
      ensures Bounded(source) ==> NoDup(S.RowsOf(catalog.history))
      ensures ok ==> Elems(S.RowsOf(catalog.history)) == source
      ensures ok && Bounded(source) ==> multiset(S.RowsOf(catalog.history)) == multiset(source)
    {
      match fault {
        case DiesBeforeAdoption => ok := false;
        case DiesWhileFetching(n) =>
          StopInFetch(batches, n, size);
          ok := false;
        case _ =>
          var stored := FinishSync(batches, size, net, fault.DiesBeforeStore?);
          ok := stored && !fault.DiesAfterStore?;
      }
      TableIsDistinct();
    }

    /** A sync that dies with `n` batches staged: nothing becomes visible. */
    method StopInFetch(batches: seq<seq<Row>>, n: nat, size: nat)
      requires Valid() && Delivers(View(), batches) && size > 0 && n <= |batches|
      modifies this`nextId, this`trace, row
      ensures Valid() && old(trace) <= trace
    {
      ghost var before, fetched := trace + FetchEvents(batches, n), Fetched(View(), batches, n);
      var writer, advance := FetchAndStage(batches, n, size);
      RunsSnoc(Initial(start), before, fetched, Crash);
      trace := before + [Crash];
    }

    /** A sync that gets to its commit. */
    method FinishSync(batches: seq<seq<Row>>, size: nat, net: S.Network<Row, Resume>, dies: bool) returns (ok: bool)
      requires Valid() && Delivers(View(), batches) && size > 0 && S.OnlyWriter(net)
      modifies this`nextId, this`trace, row, catalog
      ensures Valid() && old(trace) <= trace
      ensures var staged := Filter(old(Effective(View())), Flatten(batches));
              && ok == (S.Reports(net, staged) && !dies)
              && S.RowsOf(catalog.history) == old(S.RowsOf(catalog.history)) + (if S.Lands(net, staged) then staged else [])
      ensures ok ==> row.Stored() == Effective(View())
      ensures ok ==> Elems(S.RowsOf(catalog.history)) == source
      ensures ok && Bounded(source) ==> multiset(S.RowsOf(catalog.history)) == multiset(source)
    {
      ghost var before, fetched := trace + FetchEvents(batches, |batches|), Fetched(View(), batches, |batches|);
      assert batches[..|batches|] == batches;
      var writer, advance := FetchAndStage(batches, |batches|, size);
      ok := CommitAndStore(writer, advance, net, dies, before, fetched);
    }

    /** In every state reached by calls, no row is in the table twice. */
    lemma TableIsDistinct()
      requires Valid()
      ensures Bounded(source) ==> NoDup(S.RowsOf(catalog.history))
    {
      if Bounded(source) {
        NoRowTwice(start, trace);
      }
    }

    /** Adopt the stamped cursor, fetch `stop` batches, regroup what is kept and stage it. */
    method FetchAndStage(batches: seq<seq<Row>>, stop: nat, size: nat)
      returns (writer: S.SnapshotWriter<Row, Resume>, advance: CursorAdvance)
      requires Valid() && Delivers(View(), batches) && size > 0 && stop <= |batches|
      modifies this`nextId, row
      ensures fresh(writer) && Staged(writer, old(trace) + FetchEvents(batches, stop), Fetched(old(View()), batches, stop))
      ensures advance == Advance(row.Stored(), writer.added)
    {
      ghost var begin := View();
      FetchRuns(begin, batches, stop);
      RunsConcat(Initial(start), trace, FetchEvents(batches, stop));
      row.AdoptCommittedResume(S.CurrentResume(catalog.history));
      var kept;
      kept, advance := StreamBatches(row.Stored(), batches[..stop]);
      var regrouped := RowBatches.Regroup(RowBatches.Streamed(kept), size);
      S.OfSyncEmptyIff(catalog.history, nextId);
      writer := new S.SnapshotWriter(catalog, nextId);
      nextId := nextId + 1;
      S.StageBatches(writer, regrouped);
      AdoptTwice(begin.stored, begin.stamp);
    }

    /** A writer holding the rows of a fetch, and the run of the protocol up to there. */
    ghost predicate Staged(writer: S.SnapshotWriter<Row, Resume>, before: seq<Event>, s: State)
      reads this, row, catalog, writer
    {
      && row.present && WellFormedSource(start)
      && writer.Valid() && writer.catalog == catalog && writer.syncId < nextId
      && S.OfSync(catalog.history, writer.syncId) == []
      && (writer.txn != [] ==> writer.base == Some(|catalog.history|) && S.CurrentResume(writer.txn) == None)
      && (writer.txn == [] <==> writer.added == [])
      && (forall x | x in catalog.history :: x.syncId < nextId)
      && RunsTo(Initial(start), before, s)
      && s.phase.Fetching? && s.phase.goal == source && s.phase.kept == writer.added
      && s.(phase := Idle) == View()
      && Adopt(s.stored, s.stamp) == s.stored && (forall r | r in s.phase.kept :: Keeps(s.stored, r))
    }

    /** The snapshot commit, then the cursor in the database. */
    method CommitAndStore(writer: S.SnapshotWriter<Row, Resume>, advance: CursorAdvance, net: S.Network<Row, Resume>, dies: bool,
                          ghost before: seq<Event>, ghost s: State)
      returns (ok: bool)
      requires S.OnlyWriter(net) && Staged(writer, before, s) && s.phase.pending == {}
      requires advance == Advance(row.Stored(), writer.added)
      modifies this`trace, row, writer, catalog
      ensures Valid() && before <= trace
      ensures ok == (S.Reports(net, s.phase.kept) && !dies)
      ensures S.RowsOf(catalog.history) == s.table + if S.Lands(net, s.phase.kept) then s.phase.kept else []
      ensures ok ==> row.Stored() == Effective(View())
      ensures ok ==> Elems(S.RowsOf(catalog.history)) == source
      ensures ok && Bounded(source) ==> multiset(S.RowsOf(catalog.history)) == multiset(source)
    {
      ghost var staged := writer.added;
      ghost var landed := S.Lands(net, staged);
      var reported := S.CommitStaged(writer, StampOf(advance), net);
      if reported && !dies {
        if advance.changed && advance.cursor.Some? {
          row.CommitPropertyCursor(Resume(advance.cursor.value, advance.boundary));
        }
      }
      EndRuns(Initial(start), before, s, landed, reported, dies);
      trace := before + EndEvents(landed, reported, dies);
      if reported {
        ReportedIsExact(start, before, s, landed);
      }
      StoredIsEffective(s.stored, s.stamp, staged);
      ok := reported && !dies;
    }
  }
}
