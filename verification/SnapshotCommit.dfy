/** `SnapshotWriter` in services/connectivity/app/iceberg_writer.py against a catalog that
    accepts a transaction only when the table head has not moved (compare-and-swap).
    A request may be lost, and so may the reply to one that was applied. */
module SnapshotCommit {
  import opened Wrappers

  const COMMIT_RETRIES := 4

  /** One snapshot: the sync that wrote it, its rows, and the cursor stamped on it. */
  datatype Snapshot<R, C> = Snapshot(syncId: nat, rows: seq<R>, resume: Option<C>)

  datatype Wire = Delivered | RequestLost | ReplyLost

  /** `Unknown` is every exception other than the catalog's own refusal. */
  datatype Reply = Accepted | Refused | Unknown

  /** One attempt: what other writers published just before it, the wire, and whether
      the table could be loaded afterwards to look for this sync's id. */
  datatype Attempt<R, C> = Attempt(others: seq<Snapshot<R, C>>, wire: Wire, loads: bool)

  function OfSync<R, C>(history: seq<Snapshot<R, C>>, id: nat): seq<Snapshot<R, C>> {
    if history == [] then []
    else
      var rest := OfSync(history[..|history| - 1], id);
      if history[|history| - 1].syncId == id then rest + [history[|history| - 1]] else rest
  }

  lemma {:induction false} OfSyncConcat<R, C>(a: seq<Snapshot<R, C>>, b: seq<Snapshot<R, C>>, id: nat)
    ensures OfSync(a + b, id) == OfSync(a, id) + OfSync(b, id)
    decreases |b|
  {
    if b == [] {
      assert a + b == a;
    } else {
      assert (a + b)[..|a + b| - 1] == a + b[..|b| - 1];
      OfSyncConcat(a, b[..|b| - 1], id);
    }
  }

  lemma {:induction false} OfSyncUniform<R, C>(a: seq<Snapshot<R, C>>, id: nat, mine: bool)
    requires forall x | x in a :: x.syncId == id <==> mine
    ensures OfSync(a, id) == if mine then a else []
  {
    if a != [] {
      OfSyncUniform(a[..|a| - 1], id, mine);
      assert a[|a| - 1] in a;
    }
  }

  lemma {:induction false} OfSyncEmptyIff<R, C>(a: seq<Snapshot<R, C>>, id: nat)
    ensures OfSync(a, id) == [] <==> forall x | x in a :: x.syncId != id
  {
    if a != [] {
      OfSyncEmptyIff(a[..|a| - 1], id);
      assert forall x :: x in a <==> x in a[..|a| - 1] || x == a[|a| - 1];
    }
  }

  function RowsOf<R, C>(history: seq<Snapshot<R, C>>): seq<R> {
    if history == [] then [] else RowsOf(history[..|history| - 1]) + history[|history| - 1].rows
  }

  lemma RowsOfSnoc<R, C>(a: seq<Snapshot<R, C>>, last: Snapshot<R, C>)
    ensures RowsOf(a + [last]) == RowsOf(a) + last.rows
  {
    assert (a + [last])[..|a|] == a;
  }

  /** The transaction is wholly in the history at its base, or not there at all. */
  ghost predicate AllOrNothing<R, C>(history: seq<Snapshot<R, C>>, base: nat, txn: seq<Snapshot<R, C>>, id: nat) {
    || OfSync(history, id) == []
    || (&& OfSync(history, id) == txn
        && |history| >= base + |txn|
        && history[base..base + |txn|] == txn)
  }

  lemma OthersKeep<R, C>(history: seq<Snapshot<R, C>>, others: seq<Snapshot<R, C>>, base: nat, txn: seq<Snapshot<R, C>>, id: nat)
    requires AllOrNothing(history, base, txn, id) && forall x | x in others :: x.syncId != id
    ensures AllOrNothing(history + others, base, txn, id) && OfSync(history + others, id) == OfSync(history, id)
  {
    OfSyncConcat(history, others, id);
    OfSyncUniform(others, id, false);
    if OfSync(history, id) != [] {
      assert (history + others)[base..base + |txn|] == history[base..base + |txn|];
    }
  }

  lemma OfSyncAppended<R, C>(history: seq<Snapshot<R, C>>, txn: seq<Snapshot<R, C>>, id: nat)
    requires OfSync(history, id) == [] && forall x | x in txn :: x.syncId == id
    ensures OfSync(history + txn, id) == txn
  {
    OfSyncConcat(history, txn, id);
    OfSyncUniform(txn, id, true);
    assert [] + txn == txn;
  }

  /** A swap that succeeds is the first: had the transaction landed, the head would have moved. */
  lemma SwapLandsOnce<R, C>(history: seq<Snapshot<R, C>>, base: nat, txn: seq<Snapshot<R, C>>, id: nat)
    requires AllOrNothing(history, base, txn, id) && |history| == base && txn != []
    requires forall x | x in txn :: x.syncId == id
    ensures AllOrNothing(history + txn, base, txn, id) && OfSync(history + txn, id) == txn
  {
    assert OfSync(history, id) == [];
    OfSyncAppended(history, txn, id);
    assert (history + txn)[base..base + |txn|] == txn;
  }

  lemma AttemptKeeps<R, C>(history: seq<Snapshot<R, C>>, others: seq<Snapshot<R, C>>, base: nat, txn: seq<Snapshot<R, C>>, id: nat)
    requires AllOrNothing(history, base, txn, id) && txn != []
    requires (forall x | x in txn :: x.syncId == id) && forall x | x in others :: x.syncId != id
    ensures AllOrNothing(history + others, base, txn, id)
    ensures |history + others| == base ==> AllOrNothing(history + others + txn, base, txn, id) && OfSync(history + others + txn, id) == txn
    ensures others == [] ==> history + others == history
  {
    OthersKeep(history, others, base, txn, id);
    if |history + others| == base {
      SwapLandsOnce(history + others, base, txn, id);
    }
  }

  /** `read_snapshot_resume`: the cursor stamped on the current snapshot. */
  function CurrentResume<R, C>(history: seq<Snapshot<R, C>>): Option<C> {
    if history == [] then None else history[|history| - 1].resume
  }

  /** What a landed transaction means for the protocol: its rows follow the table's, and
      the stamp on its last snapshot is the one the next sync adopts. */
  lemma {:induction false} LandedTable<R, C>(history: seq<Snapshot<R, C>>, txn: seq<Snapshot<R, C>>)
    ensures RowsOf(history + txn) == RowsOf(history) + RowsOf(txn)
    ensures CurrentResume(history + txn) == if txn == [] then CurrentResume(history) else CurrentResume(txn)
    decreases |txn|
  {
    if txn == [] {
      assert history + txn == history;
    } else {
      var front, last := txn[..|txn| - 1], txn[|txn| - 1];
      LandedTable(history, front);
      RowsOfSnoc(history + front, last);
      assert (history + front) + [last] == history + txn;
      assert RowsOf(txn) == RowsOf(front) + last.rows;
    }
  }

  /** With no other writer the environment alone decides: whether the transaction is in the
      history after these attempts, and whether the loop ends believing so. `landed` says
      whether it already is before them. */
  function Retry<R, C>(attempts: seq<Attempt<R, C>>, landed: bool): (bool, bool) {
    if attempts == [] then (landed, false)
    else
      var wire, lands := attempts[0].wire, landed || !attempts[0].wire.RequestLost?;
      if wire.Delivered? && !landed then (true, true)
      else if lands && attempts[0].loads then (true, true)
      else if wire.Delivered? || |attempts| == 1 then (lands, false)
      else Retry(attempts[1..], lands)
  }

  function ReplyTo(wire: Wire, matches: bool): Reply {
    if !wire.Delivered? then Unknown else if matches then Accepted else Refused
  }

  /** No other writer publishes in the meantime. */
  ghost predicate Alone<R, C>(attempts: seq<Attempt<R, C>>) {
    forall a | a in attempts :: a.others == []
  }

  function Ended<R, C>(begin: seq<Snapshot<R, C>>, txn: seq<Snapshot<R, C>>, attempts: seq<Attempt<R, C>>): seq<Snapshot<R, C>> {
    begin + if Retry(attempts, false).0 then txn else []
  }

  /** After `n` attempts that decided nothing. */
  ghost predicate Tracked<R, C>(history: seq<Snapshot<R, C>>, begin: seq<Snapshot<R, C>>, txn: seq<Snapshot<R, C>>,
                                attempts: seq<Attempt<R, C>>, n: nat)
    requires n <= |attempts|
  {
    var landed := |history| > |begin|;
    history == begin + (if landed then txn else []) && Retry(attempts, false) == Retry(attempts[n..], landed)
  }

  lemma AttemptTracked<R, C>(history: seq<Snapshot<R, C>>, after: seq<Snapshot<R, C>>, begin: seq<Snapshot<R, C>>,
                             txn: seq<Snapshot<R, C>>, id: nat, attempts: seq<Attempt<R, C>>, n: nat)
    requires n < |attempts| && Tracked(history, begin, txn, attempts, n)
    requires txn != [] && OfSync(begin, id) == [] && forall x | x in txn :: x.syncId == id
    requires after == history + if |history| == |begin| && !attempts[n].wire.RequestLost? then txn else []
    ensures var reply := ReplyTo(attempts[n].wire, |history| == |begin|);
            if reply.Accepted? || (attempts[n].loads && OfSync(after, id) != []) then
              Retry(attempts, false) == (true, true) && after == begin + txn
            else if reply.Refused? || n == |attempts| - 1 then
              !Retry(attempts, false).1 && after == Ended(begin, txn, attempts)
            else Tracked(after, begin, txn, attempts, n + 1)
  {
    assert attempts[n..][0] == attempts[n] && attempts[n..][1..] == attempts[n + 1..];
    OfSyncAppended(begin, txn, id);
    assert begin + [] == begin && history + [] == history;
  }

  class Catalog<R, C> {
    var history: seq<Snapshot<R, C>>

    constructor ()
      ensures history == []
    {
      history := [];
    }

    method Publish(others: seq<Snapshot<R, C>>)
      modifies this
      ensures history == old(history) + others
    {
      history := history + others;
    }

    /** Swap in the transaction when the head is still `base`. */
    method CommitTransaction(base: nat, txn: seq<Snapshot<R, C>>, wire: Wire) returns (reply: Reply)
      modifies this
      ensures history == if !wire.RequestLost? && |old(history)| == base then old(history) + txn else old(history)
      ensures reply == ReplyTo(wire, |old(history)| == base)
    {
      if wire.RequestLost? {
        return Unknown;
      }
      var matches := |history| == base;
      if matches {
        history := history + txn;
      }
      return if wire.ReplyLost? then Unknown else if matches then Accepted else Refused;
    }
  }

  class SnapshotWriter<R, C> {
    const catalog: Catalog<R, C>
    const syncId: nat
    var base: Option<nat>  // the head the open transaction was loaded at
    var txn: seq<Snapshot<R, C>>
    ghost var added: seq<R>

    ghost predicate Valid()
      reads this
    {
      && (txn == [] <==> base.None?)
      && (forall x | x in txn :: x.syncId == syncId)
      && RowsOf(txn) == added
    }

    constructor (catalog: Catalog<R, C>, syncId: nat)
      ensures Valid() && this.catalog == catalog && this.syncId == syncId && txn == [] && added == []
    {
      this.catalog, this.syncId := catalog, syncId;
      base, txn, added := None, [], [];
    }

    /** Stage one batch. The transaction opens at the first batch that has rows. */
    method Add(rows: seq<R>)
      requires Valid()
      modifies this
      ensures Valid() && added == old(added) + rows
      ensures base == if old(base).None? && rows != [] then Some(|catalog.history|) else old(base)
      ensures txn == if rows == [] then old(txn) else old(txn) + [Snapshot(syncId, rows, None)]
    {
      if |rows| == 0 {
        return;
      }
      if base.None? {
        base := Some(|catalog.history|);
      }
      RowsOfSnoc(txn, Snapshot(syncId, rows, None));
      txn := txn + [Snapshot(syncId, rows, None)];
      added := added + rows;
    }

    /** Stamp the cursor on the last staged snapshot, the one that becomes current. */
    method NoteResume(resume: C)
      requires Valid()
      modifies this
      ensures Valid() && added == old(added) && base == old(base)
      ensures |txn| == |old(txn)|
      ensures txn != [] ==> CurrentResume(txn) == Some(resume) && txn[..|txn| - 1] == old(txn)[..|txn| - 1]
    {
      if |txn| == 0 {
        return;
      }
      ghost var before := txn;
      var last := |txn| - 1;
      txn := txn[last := txn[last].(resume := Some(resume))];
      assert txn[..last] == before[..last];
    }

    method Landed(loads: bool) returns (landed: bool)
      ensures landed <==> loads && OfSync(catalog.history, syncId) != []
    {
      OfSyncEmptyIff(catalog.history, syncId);
      landed := loads && exists i | 0 <= i < |catalog.history| :: catalog.history[i].syncId == syncId;
    }

    /** One try at the transaction, after what other writers published in the meantime. */
    method TryOnce(attempt: Attempt<R, C>) returns (reply: Reply)
      requires Valid() && base.Some?
      requires AllOrNothing(catalog.history, base.value, txn, syncId)
      requires forall x | x in attempt.others :: x.syncId != syncId
      modifies catalog
      ensures AllOrNothing(catalog.history, base.value, txn, syncId)
      ensures reply.Accepted? ==> OfSync(catalog.history, syncId) == txn
      ensures attempt.others == [] ==>
                var matches := |old(catalog.history)| == base.value;
                && reply == ReplyTo(attempt.wire, matches)
                && catalog.history == old(catalog.history) + if matches && !attempt.wire.RequestLost? then txn else []
    {
      AttemptKeeps(catalog.history, attempt.others, base.value, txn, syncId);
      catalog.Publish(attempt.others);
      reply := catalog.CommitTransaction(base.value, txn, attempt.wire);
    }

    /** Commit with retries. `attempts` says what the environment does at each one. With
        nothing staged an append to a table that does not exist raises. */
    method Commit(attempts: seq<Attempt<R, C>>, tableExists: bool, finalLoad: bool) returns (ok: bool)
      requires Valid() && |attempts| == COMMIT_RETRIES
      requires OfSync(catalog.history, syncId) == []
      requires forall i, x | 0 <= i < |attempts| && x in attempts[i].others :: x.syncId != syncId
      modifies catalog
      ensures txn == [] ==> ok == tableExists && catalog.history == old(catalog.history)
      ensures txn != [] ==> AllOrNothing(catalog.history, base.value, txn, syncId)
      ensures ok ==> OfSync(catalog.history, syncId) == txn
      ensures finalLoad && (forall a | a in attempts :: a.loads) && txn != [] ==>
                (ok <==> OfSync(catalog.history, syncId) == txn)
      ensures txn != [] && base == Some(|old(catalog.history)|) && Alone(attempts) ==>
                ok == (finalLoad && Retry(attempts, false).1) && catalog.history == Ended(old(catalog.history), txn, attempts)
    {
      if base.None? {
        return tableExists;
      }
      var reported := CommitLoop(attempts);
      ok := reported && finalLoad;
    }

    method CommitLoop(attempts: seq<Attempt<R, C>>) returns (reported: bool)
      requires Valid() && |attempts| == COMMIT_RETRIES && base.Some?
      requires OfSync(catalog.history, syncId) == []
      requires forall i, x | 0 <= i < |attempts| && x in attempts[i].others :: x.syncId != syncId
      modifies catalog
      ensures AllOrNothing(catalog.history, base.value, txn, syncId)
      ensures reported ==> OfSync(catalog.history, syncId) == txn
      ensures (forall a | a in attempts :: a.loads) ==> (reported <==> OfSync(catalog.history, syncId) == txn)
      ensures base == Some(|old(catalog.history)|) && Alone(attempts) ==>
                reported == Retry(attempts, false).1 && catalog.history == Ended(old(catalog.history), txn, attempts)
    {
      ghost var begin := catalog.history;
      reported := false;
      for n := 0 to COMMIT_RETRIES
        invariant !reported
        invariant AllOrNothing(catalog.history, base.value, txn, syncId)
        invariant (forall a | a in attempts :: a.loads) ==> OfSync(catalog.history, syncId) == []
        invariant base == Some(|begin|) && Alone(attempts) ==> Tracked(catalog.history, begin, txn, attempts, n)
      {
        assert attempts[n] in attempts;
        ghost var before := catalog.history;
        var reply := TryOnce(attempts[n]);
        if base == Some(|begin|) && Alone(attempts) {
          AttemptTracked(before, catalog.history, begin, txn, syncId, attempts, n);
        }
        if reply.Accepted? {
          return true;
        }
        var landed := Landed(attempts[n].loads);
        if landed {
          return true;
        }
        if reply.Refused? || n == COMMIT_RETRIES - 1 {
          return false;
        }
      }
    }
  }

  // ---------------------------------------------------------------- one sync's use of the writer

  /** What the catalog does to the commit of one sync. */
  datatype Network<R, C> = Network(attempts: seq<Attempt<R, C>>, tableExists: bool, finalLoad: bool)

  ghost predicate OnlyWriter<R, C>(net: Network<R, C>) {
    |net.attempts| == COMMIT_RETRIES && Alone(net.attempts)
  }

  /** Whether the staged rows get into the table, and whether the commit call returns. */
  function Lands<R, C>(net: Network<R, C>, staged: seq<R>): bool {
    |staged| > 0 && Retry(net.attempts, false).0
  }

  function Reports<R, C>(net: Network<R, C>, staged: seq<R>): bool {
    if |staged| == 0 then net.tableExists else net.finalLoad && Retry(net.attempts, false).1
  }

  // ---------------------------------------------------------------- when a commit lands, and when it is reported

  /** The first request that gets through is that of attempt `n`. */
  ghost predicate LandsAt<R, C>(attempts: seq<Attempt<R, C>>, n: nat) {
    n < |attempts| && !attempts[n].wire.RequestLost? && forall m | 0 <= m < n :: attempts[m].wire.RequestLost?
  }

  /** The table loads after attempt `k`, and no attempt before it was refused. */
  ghost predicate FoundAt<R, C>(attempts: seq<Attempt<R, C>>, k: nat) {
    k < |attempts| && attempts[k].loads && forall m | 0 <= m < k :: !attempts[m].wire.Delivered?
  }

  ghost predicate ReportedFrom<R, C>(attempts: seq<Attempt<R, C>>, n: nat)
    requires n < |attempts|
  {
    attempts[n].wire.Delivered? || exists k: nat :: FoundAt(attempts[n..], k)
  }

  lemma {:induction false} RetryLanded<R, C>(attempts: seq<Attempt<R, C>>)
    ensures Retry(attempts, true).0
    ensures Retry(attempts, true).1 <==> exists k: nat :: FoundAt(attempts, k)
  {
    if attempts != [] {
      RetryLanded(attempts[1..]);
      if attempts[0].loads {
        assert FoundAt(attempts, 0);
      } else if k: nat :| FoundAt(attempts[1..], k) && !attempts[0].wire.Delivered? {
        assert forall m | 0 < m < k + 1 :: attempts[m] == attempts[1..][m - 1];
        assert FoundAt(attempts, k + 1);
      } else if k: nat :| FoundAt(attempts, k) {
        assert FoundAt(attempts[1..], k - 1);
      }
    }
  }

  lemma {:induction false} RetryFresh<R, C>(attempts: seq<Attempt<R, C>>)
    ensures Retry(attempts, false).0 <==> exists n: nat :: LandsAt(attempts, n)
    ensures Retry(attempts, false).1 <==> exists n: nat :: LandsAt(attempts, n) && ReportedFrom(attempts, n)
  {
    if attempts == [] {
    } else if attempts[0].wire.RequestLost? {
      var tail := attempts[1..];
      RetryFresh(tail);
      forall n: nat
        ensures LandsAt(attempts, n + 1) <==> LandsAt(tail, n)
        ensures n < |tail| ==> (ReportedFrom(attempts, n + 1) <==> ReportedFrom(tail, n))
      {
        assert forall m | 0 <= m < n && m < |tail| :: tail[m] == attempts[m + 1];
        assert n < |tail| ==> attempts[n + 1..] == tail[n..];
      }
      if n: nat :| LandsAt(tail, n) && ReportedFrom(tail, n) {
        assert LandsAt(attempts, n + 1) && ReportedFrom(attempts, n + 1);
      }
      if n: nat :| LandsAt(attempts, n) && ReportedFrom(attempts, n) {
        assert LandsAt(tail, n - 1) && ReportedFrom(tail, n - 1);
      }
      if n: nat :| LandsAt(tail, n) {
        assert LandsAt(attempts, n + 1);
      }
      if n: nat :| LandsAt(attempts, n) {
        assert LandsAt(tail, n - 1);
      }
    } else {
      assert LandsAt(attempts, 0) && attempts[0..] == attempts;
      RetryLanded(attempts);
    }
  }

  /** Without another writer the staged rows land exactly if one of the four requests gets
      through, and the commit call returns exactly if besides the table loads at the end and the
      first such request is either answered, or its snapshot is found after some attempt, none
      between having been refused. */
  lemma CommitOutcomeIff<R, C>(net: Network<R, C>, staged: seq<R>)
    requires OnlyWriter(net) && staged != []
    ensures Lands(net, staged) <==> exists n: nat :: n < 4 && LandsAt(net.attempts, n)
    ensures Reports(net, staged) <==> net.finalLoad && exists n: nat :: n < 4 && LandsAt(net.attempts, n) && ReportedFrom(net.attempts, n)
  {
    RetryFresh(net.attempts);
  }

  /** The loop over the regrouped batches: everything is staged, nothing is stamped yet. */
  method StageBatches<R, C>(writer: SnapshotWriter<R, C>, batches: seq<seq<R>>)
    requires writer.Valid() && writer.txn == [] && writer.added == []
    modifies writer
    ensures writer.Valid() && writer.added == Flatten(batches)
    ensures writer.txn == [] <==> Flatten(batches) == []
    ensures writer.txn != [] ==> writer.base == Some(|writer.catalog.history|) && CurrentResume(writer.txn) == None
  {
    for n := 0 to |batches|
      invariant writer.Valid() && writer.added == Flatten(batches[..n])
      invariant writer.txn == [] <==> Flatten(batches[..n]) == []
      invariant writer.txn != [] ==> writer.base == Some(|writer.catalog.history|) && CurrentResume(writer.txn) == None
    {
      assert batches[..n + 1] == batches[..n] + [batches[n]];
      FlattenSnoc(batches[..n], batches[n]);
      writer.Add(batches[n]);
    }
    assert batches[..|batches|] == batches;
  }

  /** Stamp and commit the staged rows. Of an unchanged position nothing is stamped. */
  method CommitStaged<R, C>(writer: SnapshotWriter<R, C>, stamp: Option<C>, net: Network<R, C>) returns (reported: bool)
    requires writer.Valid() && OnlyWriter(net) && OfSync(writer.catalog.history, writer.syncId) == []
    requires writer.txn != [] ==> writer.base == Some(|writer.catalog.history|) && CurrentResume(writer.txn) == None
    requires writer.txn == [] <==> writer.added == []
    modifies writer, writer.catalog
    ensures var history, before, staged := writer.catalog.history, old(writer.catalog.history), old(writer.added);
            && reported == Reports(net, staged)
            && (reported && staged != [] ==> Lands(net, staged))
            && RowsOf(history) == RowsOf(before) + (if Lands(net, staged) then staged else [])
            && CurrentResume(history) == (if Lands(net, staged) then stamp else CurrentResume(before))
            && (forall x | x in history :: x in before || x.syncId == writer.syncId)
  {
    if stamp.Some? {
      writer.NoteResume(stamp.value);
    }
    ghost var begin, txn := writer.catalog.history, writer.txn;
    assert txn != [] ==> CurrentResume(txn) == stamp;
    reported := writer.Commit(net.attempts, net.tableExists, net.finalLoad);
    LandedTable(begin, txn);
    if txn != [] && !Retry(net.attempts, false).0 {
      assert begin + [] == begin;
    }
  }
}
