/** The transactional outbox of libs/holon_common/outbox.py: one relay publishes rows in
    id order and marks them. Rows become visible in id order. A publish or a mark may be
    lost, or may take effect without being reported; the relay then polls again. */
module Outbox {
  import opened Wrappers

  const BATCH_LIMIT := 50

  /** `Poison` fails registry validation; the envelope of a `Malformed` row cannot be read; a
      `Refused` row is valid and the producer raises on it every time, as on one too large. */
  datatype Kind = Sendable | Poison | Malformed | Refused

  /** No attempt gets the row past the relay. */
  predicate Stuck(kind: Kind) {
    kind == Malformed || kind == Refused
  }

  datatype OutboxRow = OutboxRow(kind: Kind, published: bool)

  /** `todo` is the rest of the batch being relayed. */
  datatype State = State(rows: seq<OutboxRow>, bus: seq<nat>, quarantine: seq<nat>, todo: seq<nat>)

  datatype Fault = NoFault | PublishLost | PublishUnreported | MarkLost | MarkUnreported

  datatype Event = Enqueue(kind: Kind) | Poll | RelayRow(fault: Fault) | Crash

  /** The first unpublished rows from position `at`, at most `limit` of them. */
  function Unpublished(rows: seq<OutboxRow>, at: nat, limit: nat): seq<nat>
    requires at <= |rows|
    decreases |rows| - at
  {
    if at == |rows| || limit == 0 then []
    else if rows[at].published then Unpublished(rows, at + 1, limit)
    else [at] + Unpublished(rows, at + 1, limit - 1)
  }

  predicate Enabled(s: State, e: Event) {
    match e
    case Poll => s.todo == []
    case RelayRow(_) => s.todo != [] && s.todo[0] < |s.rows|
    case _ => true
  }

  function Mark(rows: seq<OutboxRow>, id: nat): seq<OutboxRow>
    requires id < |rows|
  {
    rows[id := rows[id].(published := true)]
  }

  function Next(s: State, e: Event): State
    requires Enabled(s, e)
  {
    match e
    case Enqueue(kind) => s.(rows := s.rows + [OutboxRow(kind, false)])
    case Poll => s.(todo := Unpublished(s.rows, 0, BATCH_LIMIT))
    case Crash => s.(todo := [])
    case RelayRow(fault) =>
      var id := s.todo[0];
      var kind := s.rows[id].kind;
      if Stuck(kind) || (kind == Sendable && fault == PublishLost) then s.(todo := [])
      else
        var out := if kind == Sendable then s.(bus := s.bus + [id])
                   else if fault == PublishLost then s else s.(quarantine := s.quarantine + [id]);
        match fault
        case MarkUnreported => out.(rows := Mark(s.rows, id), todo := [])
        case NoFault => out.(rows := Mark(s.rows, id), todo := s.todo[1..])
        case MarkLost => out.(todo := [])
        case _ =>
          // a lost quarantine is only logged; an unreported publish ends the batch
          if kind == Sendable then out.(todo := []) else out.(rows := Mark(s.rows, id), todo := s.todo[1..])
  }

  const Initial := State([], [], [], [])

  // ---------------------------------------------------------------- the code

  class Relay {
    var rows: seq<OutboxRow>
    var bus: seq<nat>
    var quarantine: seq<nat>
    var todo: seq<nat>

    function View(): State
      reads this
    {
      State(rows, bus, quarantine, todo)
    }

    constructor ()
      ensures View() == Initial
    {
      rows, bus, quarantine, todo := [], [], [], [];
    }

    method EnqueueRow(kind: Kind)
      modifies this
      ensures View() == Next(old(View()), Enqueue(kind))
    {
      rows := rows + [OutboxRow(kind, false)];
    }

    /** The unpublished rows in id order, at most a batch of them. */
    method FetchBatch()
      requires todo == []
      modifies this
      ensures View() == Next(old(View()), Poll)
    {
      var batch: seq<nat> := [];
      var at := 0;
      while at < |rows| && |batch| < BATCH_LIMIT
        invariant 0 <= at <= |rows| && |batch| <= BATCH_LIMIT
        invariant batch + Unpublished(rows, at, BATCH_LIMIT - |batch|) == Unpublished(rows, 0, BATCH_LIMIT)
      {
        ghost var rest := Unpublished(rows, at + 1, if rows[at].published then BATCH_LIMIT - |batch| else BATCH_LIMIT - |batch| - 1);
        if !rows[at].published {
          assert batch + ([at] + rest) == (batch + [at]) + rest;
          batch := batch + [at];
        }
        at := at + 1;
      }
      assert batch + [] == batch;
      todo := batch;
    }

    /** One turn of the row loop. */
    method RelayOne(fault: Fault)
      requires Enabled(View(), RelayRow(fault))
      modifies this
      ensures View() == Next(old(View()), RelayRow(fault))
    {
      var id := todo[0];
      if rows[id].kind == Malformed {
        todo := [];
        return;
      }
      if rows[id].kind == Poison {
        if fault != PublishLost {
          quarantine := quarantine + [id];
        }
      } else {
        if rows[id].kind == Refused || fault == PublishLost {
          todo := [];
          return;
        }
        bus := bus + [id];
        if fault == PublishUnreported {
          todo := [];
          return;
        }
      }
      if fault == MarkLost {
        todo := [];
        return;
      }
      rows := rows[id := rows[id].(published := true)];
      todo := if fault == MarkUnreported then [] else todo[1..];
    }
  }

  // ---------------------------------------------------------------- the bus is a stuttering of the outbox

  /** The length of the leading run of published rows. */
  function Marked(rows: seq<OutboxRow>): (n: nat)
    ensures n <= |rows|
    ensures forall i | 0 <= i < n :: rows[i].published
    ensures n < |rows| ==> !rows[n].published
  {
    if rows == [] || !rows[0].published then 0 else 1 + Marked(rows[1..])
  }

  /** The log without immediate repetitions. */
  function Collapse(bus: seq<nat>): (c: seq<nat>)
    ensures c == [] <==> bus == []
    ensures bus != [] ==> c[|c| - 1] == bus[|bus| - 1]
  {
    if |bus| <= 1 then bus
    else
      var before, last := Collapse(bus[..|bus| - 1]), bus[|bus| - 1];
      if bus[|bus| - 2] == last then before else before + [last]
  }

  /** The sendable rows among the first `n`, in id order. */
  function SendableIds(rows: seq<OutboxRow>, n: nat): (ids: seq<nat>)
    requires n <= |rows|
    ensures forall i :: i in ids <==> 0 <= i < n && rows[i].kind == Sendable
  {
    if n == 0 then []
    else
      var before := SendableIds(rows, n - 1);
      if rows[n - 1].kind == Sendable then before + [n - 1] else before
  }

  ghost predicate Inv(s: State) {
    var m := Marked(s.rows);
    && (forall i | m <= i < |s.rows| :: !s.rows[i].published)
    && (forall i | 0 <= i < |s.todo| :: s.todo[i] == m + i) && m + |s.todo| <= |s.rows|
    && (|| Collapse(s.bus) == SendableIds(s.rows, m)
        || (m < |s.rows| && s.rows[m].kind == Sendable && Collapse(s.bus) == SendableIds(s.rows, m) + [m]))
  }

  lemma {:induction false} MarkedIs(rows: seq<OutboxRow>, n: nat)
    requires n <= |rows| && (forall i | 0 <= i < n :: rows[i].published) && (n < |rows| ==> !rows[n].published)
    ensures Marked(rows) == n
  {
    var m := Marked(rows);
    assert !(m < n) && !(n < m);
  }

  lemma {:induction false} SameKinds(a: seq<OutboxRow>, b: seq<OutboxRow>, n: nat)
    requires n <= |a| && n <= |b| && forall i | 0 <= i < n :: a[i].kind == b[i].kind
    ensures SendableIds(a, n) == SendableIds(b, n)
  {
    if n > 0 {
      SameKinds(a, b, n - 1);
    }
  }

  lemma {:induction false} UnpublishedRun(rows: seq<OutboxRow>, at: nat, m: nat, limit: nat)
    requires at <= m <= |rows|
    requires forall i | at <= i < |rows| :: rows[i].published <==> i < m
    ensures var u := Unpublished(rows, at, limit);
            (forall i | 0 <= i < |u| :: u[i] == m + i) && m + |u| <= |rows|
    decreases |rows| - at
  {
    if at < |rows| && limit > 0 {
      if rows[at].published {
        UnpublishedRun(rows, at + 1, m, limit);
      } else {
        UnpublishedAll(rows, at, limit);
      }
    }
  }

  lemma {:induction false} UnpublishedAll(rows: seq<OutboxRow>, at: nat, limit: nat)
    requires at <= |rows| && forall i | at <= i < |rows| :: !rows[i].published
    ensures var u := Unpublished(rows, at, limit);
            (forall i | 0 <= i < |u| :: u[i] == at + i) && at + |u| <= |rows|
    decreases |rows| - at
  {
    if at < |rows| && limit > 0 {
      UnpublishedAll(rows, at + 1, limit - 1);
    }
  }

  /** Publishing the row at the head either repeats it or appends it after the marked ones. */
  lemma PublishHead(s: State)
    requires Inv(s) && Marked(s.rows) < |s.rows| && s.rows[Marked(s.rows)].kind == Sendable
    ensures var m := Marked(s.rows); Collapse(s.bus + [m]) == SendableIds(s.rows, m) + [m]
  {
    var m := Marked(s.rows);
    var bus := s.bus + [m];
    assert bus[..|bus| - 1] == s.bus;
    if s.bus != [] {
      var c := Collapse(s.bus);
      assert c[|c| - 1] in c;
    }
  }

  lemma MarkHead(s: State, bus: seq<nat>)
    requires Inv(s) && Marked(s.rows) < |s.rows|
    requires var m := Marked(s.rows);
             Collapse(bus) == SendableIds(s.rows, m) + (if s.rows[m].kind == Sendable then [m] else [])
    ensures var m, rows := Marked(s.rows), Mark(s.rows, Marked(s.rows));
            && Marked(rows) == m + 1
            && (forall i | m + 1 <= i < |rows| :: !rows[i].published)
            && Collapse(bus) == SendableIds(rows, m + 1)
  {
    var m := Marked(s.rows);
    var rows := Mark(s.rows, m);
    MarkedIs(rows, m + 1);
    SameKinds(s.rows, rows, m);
  }

  /** Relaying a row either ends the batch with the row unmarked, or marks it. */
  lemma RelayShape(s: State, fault: Fault)
    requires Enabled(s, RelayRow(fault))
    ensures var t, id := Next(s, RelayRow(fault)), s.todo[0];
            var sent := if s.rows[id].kind == Sendable then s.bus + [id] else s.bus;
            || (t.rows == s.rows && t.todo == [] && (t.bus == s.bus || t.bus == sent))
            || (t.rows == Mark(s.rows, id) && (t.todo == [] || t.todo == s.todo[1..]) && t.bus == sent && !Stuck(s.rows[id].kind))
  {
  }

  lemma MarkedInv(s: State, t: State)
    requires Inv(s) && s.todo != [] && Marked(s.rows) < |s.rows|
    requires t.rows == Mark(s.rows, Marked(s.rows)) && (t.todo == [] || t.todo == s.todo[1..])
    requires var m := Marked(s.rows);
             Collapse(t.bus) == SendableIds(s.rows, m) + (if s.rows[m].kind == Sendable then [m] else [])
    ensures Inv(t)
  {
    MarkHead(s, t.bus);
    assert forall i | 0 <= i < |t.todo| :: t.todo[i] == s.todo[i + 1];
  }

  /** Of a row that is not sent, whether it is marked or not, the bus shows nothing new. */
  lemma NotSentCollapse(s: State)
    requires Inv(s) && Marked(s.rows) < |s.rows| && s.rows[Marked(s.rows)].kind != Sendable
    ensures Collapse(s.bus) == SendableIds(s.rows, Marked(s.rows)) + []
  {
  }

  lemma RelayInv(s: State, fault: Fault)
    requires Inv(s) && Enabled(s, RelayRow(fault))
    ensures Inv(Next(s, RelayRow(fault)))
  {
    var m, t := Marked(s.rows), Next(s, RelayRow(fault));
    assert s.todo[0] == m;
    RelayShape(s, fault);
    if s.rows[m].kind == Sendable {
      PublishHead(s);
    } else {
      NotSentCollapse(s);
    }
    if t.rows != s.rows {
      MarkedInv(s, t);
    }
  }

  lemma NextInv(s: State, e: Event)
    requires Inv(s) && Enabled(s, e)
    ensures Inv(Next(s, e))
  {
    match e
    case Enqueue(kind) =>
      var m, rows := Marked(s.rows), Next(s, e).rows;
      MarkedIs(rows, m);
      SameKinds(s.rows, rows, m);
    case Poll => UnpublishedRun(s.rows, 0, Marked(s.rows), BATCH_LIMIT);
    case RelayRow(fault) => RelayInv(s, fault);
    case Crash =>
  }

  ghost predicate Runs(s: State, events: seq<Event>)
    decreases |events|
  {
    events == [] || (Enabled(s, events[0]) && Runs(Next(s, events[0]), events[1..]))
  }

  ghost function After(s: State, events: seq<Event>): State
    requires Runs(s, events)
    decreases |events|
  {
    if events == [] then s else After(Next(s, events[0]), events[1..])
  }

  lemma {:induction false} RunInv(s: State, events: seq<Event>)
    requires Inv(s) && Runs(s, events)
    ensures Inv(After(s, events))
    decreases |events|
  {
    if events != [] {
      NextInv(s, events[0]);
      RunInv(Next(s, events[0]), events[1..]);
    }
  }

  /** Whatever is lost, unreported or restarted: published rows are a prefix of id order,
      and without immediate repetitions the bus is the sendable rows of that prefix,
      followed at most by the next row. */
  lemma BusStuttersOutbox(events: seq<Event>)
    requires Runs(Initial, events)
    ensures var s := After(Initial, events);
            var m := Marked(s.rows);
            && (forall i | 0 <= i < |s.rows| :: s.rows[i].published <==> i < m)
            && (forall i | 0 <= i < m && s.rows[i].kind == Sendable :: i in s.bus)
            && (|| Collapse(s.bus) == SendableIds(s.rows, m)
                || (m < |s.rows| && s.rows[m].kind == Sendable && Collapse(s.bus) == SendableIds(s.rows, m) + [m]))
  {
    RunInv(Initial, events);
    var s := After(Initial, events);
    forall i | 0 <= i < Marked(s.rows) && s.rows[i].kind == Sendable ensures i in s.bus {
      assert i in SendableIds(s.rows, Marked(s.rows));
      CollapseMember(s.bus, i);
    }
  }

  lemma {:induction false} CollapseMember(bus: seq<nat>, id: nat)
    ensures id in Collapse(bus) <==> id in bus
  {
    if |bus| > 1 {
      CollapseMember(bus[..|bus| - 1], id);
      assert bus == bus[..|bus| - 1] + [bus[|bus| - 1]];
      assert bus[|bus| - 2] in bus[..|bus| - 1];
    }
  }

  /** A row that cannot be read, or that the producer refuses, is never marked, so no later row is either. */
  lemma {:induction false} StuckRowBlocks(s: State, events: seq<Event>)
    requires Inv(s) && Runs(s, events)
    requires Marked(s.rows) < |s.rows| && Stuck(s.rows[Marked(s.rows)].kind)
    ensures Marked(After(s, events).rows) == Marked(s.rows)
    decreases |events|
  {
    if events != [] {
      var s', m := Next(s, events[0]), Marked(s.rows);
      NextInv(s, events[0]);
      if events[0].Enqueue? {
        MarkedIs(s'.rows, m);
      }
      assert s'.rows[m] == s.rows[m] && Marked(s'.rows) == m;
      StuckRowBlocks(s', events[1..]);
    }
  }

  // ---------------------------------------------------------------- the dead letters

  /** Rows whose dead letter was lost in some event of the run: the relay goes on without it,
      as it does when it has no producer for dead letters. */
  ghost function LostIn(s: State, events: seq<Event>): set<nat>
    requires Runs(s, events)
    decreases |events|
  {
    if events == [] then {}
    else LostIn(Next(s, events[0]), events[1..]) + if events[0] == RelayRow(PublishLost) then {s.todo[0]} else {}
  }

  /** Dead letters are those of poison rows, and no marked poison row is without one unless
      it was lost. */
  ghost predicate Quarantined(s: State, lost: set<nat>) {
    && (forall i | i in s.quarantine :: i < |s.rows| && s.rows[i].kind == Poison)
    && (forall i | 0 <= i < |s.rows| && s.rows[i].published && s.rows[i].kind == Poison :: i in s.quarantine || i in lost)
  }

  lemma NextQuarantined(s: State, e: Event, lost: set<nat>)
    requires Inv(s) && Quarantined(s, lost) && Enabled(s, e)
    ensures Quarantined(Next(s, e), lost + if e == RelayRow(PublishLost) then {s.todo[0]} else {})
  {
    if e.RelayRow? {
      RelayLetters(s, e.fault);
    }
  }

  /** What one row of the loop does to the dead letters. */
  lemma RelayLetters(s: State, fault: Fault)
    requires Enabled(s, RelayRow(fault))
    ensures var t, id := Next(s, RelayRow(fault)), s.todo[0];
            && (forall i :: i in t.quarantine <==> i in s.quarantine || (i == id && s.rows[id].kind == Poison && fault != PublishLost))
            && |t.rows| == |s.rows|
            && (forall i | 0 <= i < |t.rows| :: t.rows[i].kind == s.rows[i].kind && (t.rows[i].published ==> s.rows[i].published || i == id))
  {
  }

  lemma {:induction false} RunQuarantined(s: State, events: seq<Event>, lost: set<nat>)
    requires Inv(s) && Quarantined(s, lost) && Runs(s, events)
    ensures Quarantined(After(s, events), lost + LostIn(s, events))
    decreases |events|
  {
    if events != [] {
      var more := if events[0] == RelayRow(PublishLost) then {s.todo[0]} else {};
      NextInv(s, events[0]);
      NextQuarantined(s, events[0], lost);
      RunQuarantined(Next(s, events[0]), events[1..], lost + more);
      assert lost + more + LostIn(Next(s, events[0]), events[1..]) == lost + LostIn(s, events);
    }
  }

  /** Over every run: only poison rows have dead letters, and every poison row that is marked
      has one, unless the publish of one was lost. */
  lemma DeadLettersKept(events: seq<Event>)
    requires Runs(Initial, events)
    ensures Quarantined(After(Initial, events), LostIn(Initial, events))
  {
    RunQuarantined(Initial, events, {});
    assert {} + LostIn(Initial, events) == LostIn(Initial, events);
  }

  // ---------------------------------------------------------------- how far the relay gets

  ghost function Enqueued(events: seq<Event>): seq<Kind> {
    if events == [] then [] else EnqueuedBy(events[0]) + Enqueued(events[1..])
  }

  function EnqueuedBy(e: Event): seq<Kind> {
    if e.Enqueue? then [e.kind] else []
  }

  /** The row at hand is marked, reported or not: a sendable one once its publish is known to
      have worked, a poison one whatever became of its dead letter. */
  predicate Takes(kind: Kind, fault: Fault) {
    match kind
    case Sendable => fault == NoFault || fault == MarkUnreported
    case Poison => fault != MarkLost
    case _ => false
  }

  /** How many turns of the row loop mark a row. */
  ghost function Taken(s: State, events: seq<Event>): nat
    requires Runs(s, events)
    decreases |events|
  {
    if events == [] then 0
    else
      Taken(Next(s, events[0]), events[1..])
      + if events[0].RelayRow? && Takes(s.rows[s.todo[0]].kind, events[0].fault) then 1 else 0
  }

  lemma RelayMarks(s: State, fault: Fault)
    requires Inv(s) && Enabled(s, RelayRow(fault))
    ensures s.todo[0] == Marked(s.rows)
    ensures Next(s, RelayRow(fault)).rows == if Takes(s.rows[s.todo[0]].kind, fault) then Mark(s.rows, s.todo[0]) else s.rows
  {
  }

  lemma StepMarks(s: State, e: Event)
    requires Inv(s) && Enabled(s, e)
    ensures Marked(Next(s, e).rows) == Marked(s.rows) + if e.RelayRow? && Takes(s.rows[s.todo[0]].kind, e.fault) then 1 else 0
  {
    var m := Marked(s.rows);
    match e
    case Enqueue(kind) => MarkedIs(Next(s, e).rows, m);
    case RelayRow(fault) =>
      RelayMarks(s, fault);
      if Takes(s.rows[m].kind, fault) {
        MarkedIs(Mark(s.rows, m), m + 1);
      }
    case _ =>
  }

  lemma {:induction false} RunMarks(s: State, events: seq<Event>)
    requires Inv(s) && Runs(s, events)
    ensures Marked(After(s, events).rows) == Marked(s.rows) + Taken(s, events)
    decreases |events|
  {
    if events != [] {
      NextInv(s, events[0]);
      StepMarks(s, events[0]);
      RunMarks(Next(s, events[0]), events[1..]);
    }
  }

  function KindsOf(rows: seq<OutboxRow>): seq<Kind> {
    seq(|rows|, i requires 0 <= i < |rows| => rows[i].kind)
  }

  lemma StepEnqueues(s: State, e: Event)
    requires Inv(s) && Enabled(s, e)
    ensures KindsOf(Next(s, e).rows) == KindsOf(s.rows) + EnqueuedBy(e)
  {
    if e.RelayRow? {
      RelayLetters(s, e.fault);
    }
  }

  lemma Regrouped<T>(a: seq<T>, b: seq<T>, ab: seq<T>, c: seq<T>, abc: seq<T>)
    requires ab == a + b && abc == ab + c
    ensures abc == a + (b + c)
  {
  }

  lemma {:induction false} RunEnqueues(s: State, events: seq<Event>)
    requires Inv(s) && Runs(s, events)
    ensures KindsOf(After(s, events).rows) == KindsOf(s.rows) + Enqueued(events)
    decreases |events|
  {
    if events != [] {
      var t := Next(s, events[0]);
      NextInv(s, events[0]);
      StepEnqueues(s, events[0]);
      RunEnqueues(t, events[1..]);
      Regrouped(KindsOf(s.rows), EnqueuedBy(events[0]), KindsOf(t.rows), Enqueued(events[1..]), KindsOf(After(t, events[1..]).rows));
    }
  }

  /** Over every run: the outbox holds what was enqueued, in order, and as many of its rows are
      marked as turns of the row loop marked one; no other event marks, drops or changes a row. */
  lemma RowsAreCounted(events: seq<Event>)
    requires Runs(Initial, events)
    ensures var s := After(Initial, events);
            && KindsOf(s.rows) == Enqueued(events)
            && Marked(s.rows) == Taken(Initial, events)
  {
    InitialIsEmpty();
    RunEnqueues(Initial, events);
    RunMarks(Initial, events);
    NothingInFront(Enqueued(events));
  }

  lemma InitialIsEmpty()
    ensures Inv(Initial) && KindsOf(Initial.rows) == [] && Marked(Initial.rows) == 0
  {
  }

  lemma NothingInFront<T>(a: seq<T>)
    ensures [] + a == a
  {
  }

  lemma {:induction false} UnpublishedCount(rows: seq<OutboxRow>, at: nat, m: nat, limit: nat)
    requires at <= m <= |rows|
    requires forall i | at <= i < |rows| :: rows[i].published <==> i < m
    ensures |Unpublished(rows, at, limit)| == if |rows| - m < limit then |rows| - m else limit
    decreases |rows| - at
  {
    if at < |rows| && limit > 0 {
      if rows[at].published {
        UnpublishedCount(rows, at + 1, m, limit);
      } else {
        UnpublishedFrom(rows, at, limit);
      }
    }
  }

  lemma {:induction false} UnpublishedFrom(rows: seq<OutboxRow>, at: nat, limit: nat)
    requires at <= |rows| && forall i | at <= i < |rows| :: !rows[i].published
    ensures |Unpublished(rows, at, limit)| == if |rows| - at < limit then |rows| - at else limit
    decreases |rows| - at
  {
    if at < |rows| && limit > 0 {
      UnpublishedFrom(rows, at + 1, limit - 1);
    }
  }

  lemma PollTakes(s: State)
    requires Inv(s) && s.todo == []
    ensures var todo, left := Next(s, Poll).todo, |s.rows| - Marked(s.rows);
            |todo| == (if left < 50 then left else 50) && forall i | 0 <= i < |todo| :: todo[i] == Marked(s.rows) + i
  {
    UnpublishedCount(s.rows, 0, Marked(s.rows), 50);
    UnpublishedRun(s.rows, 0, Marked(s.rows), 50);
  }

  lemma RelayGoesOn(s: State, fault: Fault)
    requires Inv(s) && Enabled(s, RelayRow(fault))
    ensures s.todo[0] == Marked(s.rows)
    ensures Next(s, RelayRow(fault)).todo == if Takes(s.rows[s.todo[0]].kind, fault) && fault != MarkUnreported then s.todo[1..] else []
  {
  }

  /** What the relay has yet to do of its batch, after any step from any reachable state: a poll
      takes the first fifty unmarked rows or as many as there are; the batch goes on after a
      mark that was reported and ends at any failure. */
  lemma BatchLeft(events: seq<Event>, e: Event)
    requires Runs(Initial, events) && Enabled(After(Initial, events), e)
    ensures var s := After(Initial, events);
            var t, m := Next(s, e), Marked(s.rows);
            match e
            case Enqueue(_) => t.todo == s.todo
            case Poll => |t.todo| == (if |s.rows| - m < 50 then |s.rows| - m else 50) && forall i | 0 <= i < |t.todo| :: t.todo[i] == m + i
            case RelayRow(fault) =>
              s.todo[0] == m && t.todo == if Takes(s.rows[m].kind, fault) && fault != MarkUnreported then s.todo[1..] else []
            case Crash => t.todo == []
  {
    RunInv(Initial, events);
    var s := After(Initial, events);
    match e
    case Poll => PollTakes(s);
    case RelayRow(fault) => RelayGoesOn(s, fault);
    case _ =>
  }

  // ---------------------------------------------------------------- when the relay delivers

  /** One step of a relay that nothing disturbs: the next row of the batch, or the next poll. */
  function Undisturbed(s: State): State {
    if s.todo == [] then Next(s, Poll)
    else if s.todo[0] < |s.rows| then Next(s, RelayRow(NoFault))
    else s
  }

  function FaultFree(s: State, n: nat): State
    decreases n
  {
    if n == 0 then s else FaultFree(Undisturbed(s), n - 1)
  }

  /** From `s` to `t` every row has been marked, every sendable one is on the bus, and every
      poison one that was not marked has its dead letter. */
  ghost predicate Delivered(s: State, t: State) {
    && |t.rows| == |s.rows|
    && (forall i | 0 <= i < |t.rows| :: t.rows[i].published && (t.rows[i].kind == Sendable ==> i in t.bus))
    && DeadLettersOf(s, t)
  }

  ghost predicate DeadLettersOf(s: State, t: State) {
    forall i | 0 <= i < |s.rows| && i < |t.rows| && s.rows[i].kind == Poison && !s.rows[i].published && t.rows[i].published :: i in t.quarantine
  }

  predicate KeepsKinds(a: seq<OutboxRow>, b: seq<OutboxRow>) {
    |a| == |b| && forall i | 0 <= i < |a| :: b[i].kind == a[i].kind
  }

  lemma MarkKeepsKinds(rows: seq<OutboxRow>, id: nat)
    requires id < |rows|
    ensures KeepsKinds(rows, Mark(rows, id))
  {
  }

  lemma UndisturbedInv(s: State)
    requires Inv(s)
    ensures Inv(Undisturbed(s)) && KeepsKinds(s.rows, Undisturbed(s).rows)
  {
    if s.todo == [] {
      NextInv(s, Poll);
    } else if s.todo[0] < |s.rows| {
      RelayInv(s, NoFault);
      RelayShape(s, NoFault);
      MarkKeepsKinds(s.rows, s.todo[0]);
    }
  }

  lemma {:induction false} PollFinds(rows: seq<OutboxRow>, at: nat, limit: nat)
    requires at <= |rows| && limit > 0 && exists i :: at <= i < |rows| && !rows[i].published
    ensures Unpublished(rows, at, limit) != []
    decreases |rows| - at
  {
    if rows[at].published {
      PollFinds(rows, at + 1, limit);
    }
  }

  /** Two undisturbed steps mark the next row unless it is stuck. */
  lemma MarksNext(s: State)
    requires Inv(s) && Marked(s.rows) < |s.rows| && !Stuck(s.rows[Marked(s.rows)].kind)
    ensures exists n :: n <= 2 && Marked(FaultFree(s, n).rows) == Marked(s.rows) + 1
  {
    var polled := if s.todo == [] then Undisturbed(s) else s;
    UndisturbedInv(s);
    if s.todo == [] {
      PollFinds(s.rows, 0, BATCH_LIMIT);
      assert polled.rows == s.rows;
    }
    MarksHead(polled);
    assert FaultFree(polled, 1) == Undisturbed(polled);
    if s.todo == [] {
      assert FaultFree(s, 2) == FaultFree(polled, 1);
      assert Marked(FaultFree(s, 2).rows) == Marked(s.rows) + 1;
    } else {
      assert Marked(FaultFree(s, 1).rows) == Marked(s.rows) + 1;
    }
  }

  lemma MarksHead(s: State)
    requires Inv(s) && Marked(s.rows) < |s.rows| && !Stuck(s.rows[Marked(s.rows)].kind) && s.todo != []
    ensures Marked(Undisturbed(s).rows) == Marked(s.rows) + 1
  {
    var m := Marked(s.rows);
    assert s.todo[0] == m;
    MarkedIs(Mark(s.rows, m), m + 1);
  }

  lemma {:induction false} FaultFreeInv(s: State, n: nat)
    requires Inv(s)
    ensures var t := FaultFree(s, n);
            Inv(t) && KeepsKinds(s.rows, t.rows)
    decreases n
  {
    if n > 0 {
      UndisturbedInv(s);
      FaultFreeInv(Undisturbed(s), n - 1);
      KeptTwice(s.rows, Undisturbed(s).rows, FaultFree(s, n).rows);
    }
  }

  lemma KeptTwice(a: seq<OutboxRow>, b: seq<OutboxRow>, c: seq<OutboxRow>)
    requires KeepsKinds(a, b) && KeepsKinds(b, c)
    ensures KeepsKinds(a, c)
  {
  }

  lemma {:induction false} FaultFreeAdds(s: State, a: nat, b: nat)
    ensures FaultFree(s, a + b) == FaultFree(FaultFree(s, a), b)
    decreases a
  {
    if a > 0 {
      FaultFreeAdds(Undisturbed(s), a - 1, b);
    }
  }

  lemma UndisturbedLetters(s: State)
    requires Inv(s)
    ensures DeadLettersOf(s, Undisturbed(s)) && s.quarantine <= Undisturbed(s).quarantine
    ensures forall i | 0 <= i < |s.rows| && s.rows[i].published :: i < |Undisturbed(s).rows| && Undisturbed(s).rows[i].published
  {
  }

  /** Undisturbed, every poison row is marked with its dead letter. */
  lemma {:induction false} FaultFreeLetters(s: State, n: nat)
    requires Inv(s)
    ensures DeadLettersOf(s, FaultFree(s, n)) && s.quarantine <= FaultFree(s, n).quarantine
    decreases n
  {
    if n > 0 {
      var u, t := Undisturbed(s), FaultFree(s, n);
      UndisturbedInv(s);
      UndisturbedLetters(s);
      FaultFreeLetters(u, n - 1);
      LettersCarry(s, u, t);
    }
  }

  lemma LettersCarry(s: State, u: State, t: State)
    requires KeepsKinds(s.rows, u.rows) && DeadLettersOf(s, u) && DeadLettersOf(u, t) && u.quarantine <= t.quarantine
    ensures DeadLettersOf(s, t)
  {
    forall i | 0 <= i < |s.rows| && i < |t.rows| && s.rows[i].kind == Poison && !s.rows[i].published && t.rows[i].published
      ensures i in t.quarantine
    {
      assert u.rows[i].published ==> i in u.quarantine;
    }
  }

  /** No row that is not yet marked is stuck. */
  predicate NoneStuck(s: State) {
    forall i | 0 <= i < |s.rows| && !s.rows[i].published :: !Stuck(s.rows[i].kind)
  }

  lemma OneMore(s: State) returns (k: nat)
    requires Inv(s) && NoneStuck(s) && Marked(s.rows) < |s.rows|
    ensures var t := FaultFree(s, k); Inv(t) && NoneStuck(t) && |t.rows| == |s.rows| && Marked(t.rows) == Marked(s.rows) + 1
  {
    MarksNext(s);
    k :| k <= 2 && Marked(FaultFree(s, k).rows) == Marked(s.rows) + 1;
    FaultFreeInv(s, k);
  }

  ghost predicate AllMarked(s: State) {
    Inv(s) && Marked(s.rows) == |s.rows|
  }

  lemma {:induction false} MarksAll(s: State) returns (n: nat)
    requires Inv(s) && NoneStuck(s)
    ensures AllMarked(FaultFree(s, n))
    decreases |s.rows| - Marked(s.rows)
  {
    if Marked(s.rows) == |s.rows| {
      n := 0;
      assert FaultFree(s, 0) == s;
    } else {
      var k := OneMore(s);
      var rest := MarksAll(FaultFree(s, k));
      FaultFreeAdds(s, k, rest);
      n := k + rest;
    }
  }

  lemma AllMarkedIsDelivered(s: State)
    requires AllMarked(s)
    ensures forall i | 0 <= i < |s.rows| :: s.rows[i].published && (s.rows[i].kind == Sendable ==> i in s.bus)
  {
    assert Collapse(s.bus) == SendableIds(s.rows, |s.rows|);
    forall i | 0 <= i < |s.rows|
      ensures s.rows[i].published && (s.rows[i].kind == Sendable ==> i in s.bus)
    {
      assert s.rows[i].kind == Sendable ==> i in SendableIds(s.rows, |s.rows|);
      CollapseMember(s.bus, i);
    }
  }

  lemma UnreadStays(s: State, i: nat)
    requires i < |s.rows| && Stuck(s.rows[i].kind) && !s.rows[i].published
    ensures i < |Undisturbed(s).rows| && Undisturbed(s).rows[i] == s.rows[i]
  {
  }

  lemma {:induction false} StuckStays(s: State, n: nat, i: nat)
    requires Inv(s) && i < |s.rows| && Stuck(s.rows[i].kind) && !s.rows[i].published
    ensures var t := FaultFree(s, n); i < |t.rows| && !t.rows[i].published
    decreases n
  {
    if n > 0 {
      var u := Undisturbed(s);
      UndisturbedInv(s);
      UnreadStays(s, i);
      assert u.rows[i] == s.rows[i];
      StuckStays(u, n - 1, i);
    }
  }

  /** Left undisturbed, the relay delivers everything after some number of steps. */
  ghost predicate DeliversEventually(s: State) {
    exists n: nat :: Delivered(s, FaultFree(s, n))
  }

  /** From every reachable state, a relay left undisturbed gets every row marked, with the
      sendable ones on the bus and the poison ones among the dead letters, if and only if no row
      that is not yet marked is stuck. */
  lemma DeliversIff(events: seq<Event>)
    requires Runs(Initial, events)
    ensures var s := After(Initial, events);
            DeliversEventually(s) <==> NoneStuck(s)
  {
    RunInv(Initial, events);
    var s := After(Initial, events);
    if NoneStuck(s) {
      var n := MarksAll(s);
      AllMarkedIsDelivered(FaultFree(s, n));
      FaultFreeInv(s, n);
      FaultFreeLetters(s, n);
      assert Delivered(s, FaultFree(s, n));
    } else {
      var i :| 0 <= i < |s.rows| && !s.rows[i].published && Stuck(s.rows[i].kind);
      forall n: nat
        ensures !Delivered(s, FaultFree(s, n))
      {
        StuckStays(s, n, i);
      }
    }
  }
}
