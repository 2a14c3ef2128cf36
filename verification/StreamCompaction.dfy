/** The stream consumer of services/connectivity/app/stream_connector.py and its durable
    state in kafka_stream_registry.py: a last-writer-wins map over an at-least-once log,
    persisted key by key, with offsets committed only after a whole cycle. */
module StreamCompaction {
  import opened Wrappers

  type Key = string
  type Payload = string

  /** A message without the key field, or one that cannot be read, is skipped. */
  datatype Message = Keyed(key: Key, payload: Payload) | Skipped

  /** Last write wins. */
  function Fold(log: seq<Message>): map<Key, Payload> {
    Overlay(map[], log)
  }

  function Overlay(start: map<Key, Payload>, log: seq<Message>): map<Key, Payload> {
    if log == [] then start
    else
      var before, last := Overlay(start, log[..|log| - 1]), log[|log| - 1];
      if last.Keyed? then before[last.key := last.payload] else before
  }

  function Keys(log: seq<Message>): set<Key> {
    set i | 0 <= i < |log| && log[i].Keyed? :: log[i].key
  }

  /** `highest` is the highest log position whose effect was ever persisted. */
  datatype State = State(
    log: seq<Message>,
    committed: nat,
    position: nat,
    latest: map<Key, Payload>,
    batchKeys: set<Key>,
    durable: map<Key, Payload>,
    snapshot: map<Key, Payload>,
    highest: nat)

  /** How far one commit cycle gets before it fails, if it does. */
  datatype CycleEnd =
    | PersistLost            // nothing was written
    | PersistedOnly          // rows written, then the reply, the snapshot or a later step failed
    | SnapshotOnly           // snapshot written too, then the record or the offset commit failed
    | Complete

  datatype Event =
    | Produce(message: Message)
    | Drain(count: nat)
    | Cycle(end: CycleEnd)
    | Restart

  predicate Enabled(s: State, e: Event) {
    match e
    case Produce(_) => true
    case Drain(count) => s.position + count <= |s.log|
    case Cycle(_) => s.batchKeys != {}  // `dirty` is set exactly with the first batch key
    case Restart => s.committed <= |s.log|
  }

  function Changed(s: State): map<Key, Payload> {
    map k | k in s.batchKeys && k in s.latest :: s.latest[k]
  }

  function Persist(s: State): State {
    s.(durable := s.durable + Changed(s), highest := if s.position > s.highest then s.position else s.highest)
  }

  function Next(s: State, e: Event): State
    requires Enabled(s, e)
  {
    match e
    case Produce(message) => s.(log := s.log + [message])
    case Drain(count) =>
      var taken := s.log[s.position..s.position + count];
      s.(latest := Overlay(s.latest, taken), batchKeys := s.batchKeys + Keys(taken), position := s.position + count)
    case Cycle(end) =>
      (match end
       case PersistLost => s
       case PersistedOnly => Persist(s)
       case SnapshotOnly => Persist(s).(snapshot := s.latest)
       case Complete => Persist(s).(snapshot := s.latest, committed := s.position, batchKeys := {}))
    case Restart => s.(latest := s.durable, batchKeys := {}, position := s.committed)
  }

  const Initial := State([], 0, 0, map[], {}, map[], map[], 0)

  // ---------------------------------------------------------------- facts about the fold

  function Get(m: map<Key, Payload>, k: Key): Option<Payload> {
    if k in m then Some(m[k]) else None
  }

  lemma {:induction false} OverlayGet(start: map<Key, Payload>, a: seq<Message>, k: Key)
    ensures Get(Overlay(start, a), k) == if k in Keys(a) then Get(Fold(a), k) else Get(start, k)
    ensures k in Keys(a) ==> k in Fold(a)
  {
    if a != [] {
      var front, last := a[..|a| - 1], a[|a| - 1];
      OverlayGet(start, front, k);
      KeysConcat(front, [last]);
      assert a == front + [last];
      KeysOfOne(last);
    }
  }

  lemma KeysConcat(a: seq<Message>, b: seq<Message>)
    ensures Keys(a + b) == Keys(a) + Keys(b)
  {
    assert forall i | 0 <= i < |a| :: (a + b)[i] == a[i];
    assert forall i | 0 <= i < |b| :: (a + b)[|a| + i] == b[i];
    forall k | k in Keys(a + b) ensures k in Keys(a) || k in Keys(b) {
      var i :| 0 <= i < |a + b| && (a + b)[i].Keyed? && (a + b)[i].key == k;
      if i < |a| { assert a[i].key == k; } else { assert b[i - |a|].key == k; }
    }
  }

  lemma {:induction false} OverlayConcat(start: map<Key, Payload>, a: seq<Message>, b: seq<Message>)
    ensures Overlay(start, a + b) == Overlay(Overlay(start, a), b)
    decreases |b|
  {
    if b == [] {
      assert a + b == a;
    } else {
      assert (a + b)[..|a + b| - 1] == a + b[..|b| - 1];
      OverlayConcat(start, a, b[..|b| - 1]);
    }
  }

  lemma KeysOfOne(message: Message)
    ensures Keys([message]) == if message.Keyed? then {message.key} else {}
  {
    assert [message][0] == message;
  }

  /** The state after one message is taken from the topic. */
  function TakeNext(s: State): State
    requires s.position < |s.log|
  {
    var message := s.log[s.position];
    if message.Skipped? then s.(position := s.position + 1)
    else s.(position := s.position + 1, latest := s.latest[message.key := message.payload], batchKeys := s.batchKeys + {message.key})
  }

  /** Draining one message more. */
  lemma DrainOneMore(s: State, n: nat)
    requires Enabled(s, Drain(n + 1))
    ensures Next(s, Drain(n + 1)) == TakeNext(Next(s, Drain(n)))
  {
    var message := s.log[s.position + n];
    var taken := s.log[s.position..s.position + n];
    assert s.log[s.position..s.position + (n + 1)] == taken + [message];
    OverlaySnoc(s.latest, taken, message);
    KeysSnoc(s.batchKeys, taken, message);
    var t := Next(s, Drain(n));
    assert t == s.(latest := Overlay(s.latest, taken), batchKeys := s.batchKeys + Keys(taken), position := s.position + n);
    assert t.log[t.position] == message;
  }

  lemma OverlaySnoc(start: map<Key, Payload>, taken: seq<Message>, message: Message)
    ensures Overlay(start, taken + [message])
            == if message.Skipped? then Overlay(start, taken) else Overlay(start, taken)[message.key := message.payload]
  {
    assert (taken + [message])[..|taken|] == taken;
  }

  lemma KeysSnoc(keys: set<Key>, taken: seq<Message>, message: Message)
    ensures keys + Keys(taken + [message]) == keys + Keys(taken) + (if message.Skipped? then {} else {message.key})
  {
    KeysConcat(taken, [message]);
    KeysOfOne(message);
  }

  // ---------------------------------------------------------------- the code

  class StreamConnector {
    const log: seq<Message>    // the topic while this call runs
    var committed: nat
    var position: nat
    var latest: map<Key, Payload>
    var batchKeys: set<Key>
    var dirty: bool
    var durable: map<Key, Payload>
    var snapshot: map<Key, Payload>
    ghost var highest: nat

    ghost predicate Valid()
      reads this
    {
      position <= |log| && committed <= |log| && (dirty <==> batchKeys != {}) && batchKeys <= latest.Keys
    }

    ghost function View(): State
      reads this
    {
      State(log, committed, position, latest, batchKeys, durable, snapshot, highest)
    }

    constructor (s: State)
      requires s.position <= |s.log| && s.committed <= |s.log| && s.batchKeys <= s.latest.Keys
      ensures Valid() && View() == s
    {
      log, committed, position := s.log, s.committed, s.position;
      latest, batchKeys, dirty := s.latest, s.batchKeys, s.batchKeys != {};
      durable, snapshot, highest := s.durable, s.snapshot, s.highest;
    }

    /** `load_state`: a fresh process starts from the durable rows and the committed offset. */
    method LoadState()
      requires Valid()
      modifies this
      ensures Valid() && View() == Next(old(View()), Restart)
    {
      latest, dirty, batchKeys, position := durable, false, {}, committed;
    }

    method DrainMessages(count: nat)
      requires Valid() && Enabled(View(), Drain(count))
      modifies this
      ensures Valid() && View() == Next(old(View()), Drain(count))
    {
      ghost var start := View();
      assert log[position..position] == [];
      for n := 0 to count
        invariant Valid()
        invariant View() == Next(start, Drain(n))
      {
        DrainOneMore(start, n);
        TakeMessage();
      }
    }

    method TakeMessage()
      requires Valid() && position < |log|
      modifies this
      ensures Valid() && View() == TakeNext(old(View()))
    {
      var message := log[position];
      position := position + 1;
      if message.Keyed? {
        latest := latest[message.key := message.payload];
        batchKeys := batchKeys + {message.key};
        dirty := true;
      }
    }

    /** `persist_state`: upsert the changed rows in one statement. */
    method PersistState(records: map<Key, Payload>)
      requires Valid()
      modifies this`durable, this`highest
      ensures durable == old(durable) + records
      ensures highest == if position > old(highest) then position else old(highest)
    {
      if records != map[] {
        durable := durable + records;
      }
      highest := if position > highest then position else highest;
    }

    method CommitCycle(end: CycleEnd)
      requires Valid() && dirty
      modifies this
      ensures Valid() && View() == Next(old(View()), Cycle(end))
    {
      if end.PersistLost? {
        return;
      }
      PersistState(map k | k in batchKeys :: latest[k]);
      assert (map k | k in old(batchKeys) :: latest[k]) == Changed(old(View()));
      if end.PersistedOnly? {
        return;
      }
      snapshot := latest;
      if end.SnapshotOnly? {
        return;
      }
      committed, dirty, batchKeys := position, false, {};
    }
  }

  // ---------------------------------------------------------------- the invariant

  /** The value `k` has after some part of the log that ends between the two positions. */
  ghost predicate HeldWithin(log: seq<Message>, k: Key, value: Option<Payload>, low: nat, high: nat) {
    exists q: nat :: low <= q <= high && q <= |log| && Get(Fold(log[..q]), k) == value
  }

  ghost predicate Within(log: seq<Message>, m: map<Key, Payload>, low: nat, high: nat) {
    forall k :: HeldWithin(log, k, Get(m, k), low, high)
  }

  /** How far the consumer, or an earlier life of it, has got with this state. */
  function Furthest(s: State): nat {
    if s.position > s.highest then s.position else s.highest
  }

  /** Each value in memory is the last write up to some position from the consumer's own to
      the furthest persisted, and each in Postgres up to some position from the committed
      offset to there; the two differ on keys of the batch only. */
  ghost predicate Inv(s: State) {
    && s.committed <= s.position <= |s.log|
    && s.committed <= s.highest <= |s.log|
    && s.batchKeys <= s.latest.Keys
    && (forall k | k !in s.batchKeys :: Get(s.latest, k) == Get(s.durable, k))
    && Within(s.log, s.latest, s.position, Furthest(s))
    && Within(s.log, s.durable, s.committed, s.highest)
  }

  lemma HeldLonger(log: seq<Message>, m: map<Key, Payload>, low: nat, high: nat, low': nat, high': nat)
    requires Within(log, m, low, high) && low' <= low && high <= high'
    ensures Within(log, m, low', high')
  {
    forall k
      ensures HeldWithin(log, k, Get(m, k), low', high')
    {
      assert HeldWithin(log, k, Get(m, k), low, high);
    }
  }

  lemma HeldInLonger(log: seq<Message>, message: Message, m: map<Key, Payload>, low: nat, high: nat)
    requires Within(log, m, low, high)
    ensures Within(log + [message], m, low, high)
  {
    forall k
      ensures HeldWithin(log + [message], k, Get(m, k), low, high)
    {
      assert HeldWithin(log, k, Get(m, k), low, high);
      var q: nat :| low <= q <= high && q <= |log| && Get(Fold(log[..q]), k) == Get(m, k);
      assert (log + [message])[..q] == log[..q];
    }
  }

  /** A key not written between two positions has the same last write at both. */
  lemma SameFold(log: seq<Message>, p: nat, q: nat, k: Key)
    requires p <= q <= |log| && k !in Keys(log[p..q])
    ensures Get(Fold(log[..q]), k) == Get(Fold(log[..p]), k)
  {
    assert log[..q] == log[..p] + log[p..q];
    OverlayConcat(map[], log[..p], log[p..q]);
    OverlayGet(Fold(log[..p]), log[p..q], k);
  }

  lemma HeldPast(log: seq<Message>, k: Key, value: Option<Payload>, p: nat, n: nat, high: nat)
    requires p <= n <= |log| && k !in Keys(log[p..n]) && HeldWithin(log, k, value, p, high)
    ensures HeldWithin(log, k, value, n, if high > n then high else n)
  {
    var q: nat :| p <= q <= high && q <= |log| && Get(Fold(log[..q]), k) == value;
    if q < n {
      assert log[p..n] == log[p..q] + log[q..n];
      KeysConcat(log[p..q], log[q..n]);
      SameFold(log, q, n, k);
    }
  }

  lemma WrittenHeld(log: seq<Message>, p: nat, n: nat, k: Key)
    requires p <= n <= |log| && k in Keys(log[p..n])
    ensures Get(Fold(log[..n]), k) == Get(Fold(log[p..n]), k)
  {
    assert log[..n] == log[..p] + log[p..n];
    OverlayConcat(map[], log[..p], log[p..n]);
    OverlayGet(Fold(log[..p]), log[p..n], k);
  }

  lemma DrainedHeld(s: State, count: nat, k: Key)
    requires Within(s.log, s.latest, s.position, Furthest(s)) && Enabled(s, Drain(count))
    ensures var s' := Next(s, Drain(count)); HeldWithin(s.log, k, Get(s'.latest, k), s'.position, Furthest(s'))
  {
    var p, n := s.position, s.position + count;
    OverlayGet(s.latest, s.log[p..n], k);
    if k in Keys(s.log[p..n]) {
      WrittenHeld(s.log, p, n, k);
    } else {
      assert HeldWithin(s.log, k, Get(s.latest, k), p, Furthest(s));
      HeldPast(s.log, k, Get(s.latest, k), p, n, Furthest(s));
    }
  }

  lemma DrainInv(s: State, count: nat)
    requires Inv(s) && Enabled(s, Drain(count))
    ensures Inv(Next(s, Drain(count)))
  {
    var s' := Next(s, Drain(count));
    var taken := s.log[s.position..s.position + count];
    forall k
      ensures (k in s'.latest <==> k in s.latest || k in Keys(taken)) && (k !in s'.batchKeys ==> Get(s'.latest, k) == Get(s'.durable, k))
    {
      OverlayGet(s.latest, taken, k);
    }
    forall k
      ensures HeldWithin(s.log, k, Get(s'.latest, k), s'.position, Furthest(s'))
    {
      DrainedHeld(s, count, k);
    }
  }

  lemma PersistedIsLatest(s: State)
    requires Inv(s)
    ensures Persist(s).durable == s.latest
  {
    forall k
      ensures Get(Persist(s).durable, k) == Get(s.latest, k)
    {
      assert k in Changed(s) <==> k in s.batchKeys;
    }
    MapsEqual(Persist(s).durable, s.latest);
  }

  lemma CycleInv(s: State, end: CycleEnd)
    requires Inv(s) && Enabled(s, Cycle(end))
    ensures Inv(Next(s, Cycle(end)))
  {
    if end != PersistLost {
      PersistedIsLatest(s);
      HeldLonger(s.log, s.latest, s.position, Furthest(s), s.committed, Furthest(s));
    }
  }

  lemma NextInv(s: State, e: Event)
    requires Inv(s) && Enabled(s, e)
    ensures Inv(Next(s, e))
  {
    match e
    case Produce(message) =>
      HeldInLonger(s.log, message, s.latest, s.position, Furthest(s));
      HeldInLonger(s.log, message, s.durable, s.committed, s.highest);
    case Drain(count) => DrainInv(s, count);
    case Cycle(end) => CycleInv(s, end);
    case Restart =>
  }

  ghost predicate Runs(s: State, events: seq<Event>)
    decreases |events|
  {
    events == [] || (Enabled(s, events[0]) && Runs(Next(s, events[0]), events[1..]))
  }

  ghost function After(s: State, events: seq<Event>): State
    requires Runs(s, events)
    decreases |events|
  {
    if events == [] then s else After(Next(s, events[0]), events[1..])
  }

  lemma {:induction false} RunInv(s: State, events: seq<Event>)
    requires Inv(s) && Runs(s, events)
    ensures Inv(After(s, events))
    decreases |events|
  {
    if events != [] {
      NextInv(s, events[0]);
      RunInv(Next(s, events[0]), events[1..]);
    }
  }

  lemma MapsEqual(a: map<Key, Payload>, b: map<Key, Payload>)
    requires forall k :: Get(a, k) == Get(b, k)
    ensures a == b
  {
    forall k ensures k in a <==> k in b {
      assert Get(a, k) == Get(b, k);
    }
    forall k | k in a ensures a[k] == b[k] {
      assert Get(a, k) == Get(b, k);
    }
  }

  /** However drains, failed cycles, crashes and restarts interleave, each value in memory is
      the last write of its key up to some position between the consumer's own and the
      furthest ever persisted, and each value in Postgres up to some position between the
      committed offset and there. */
  lemma ValuesAreLastWrites(events: seq<Event>)
    requires Runs(Initial, events)
    ensures var s := After(Initial, events);
            && s.committed <= s.position <= |s.log|
            && Within(s.log, s.latest, s.position, Furthest(s))
            && Within(s.log, s.durable, s.committed, s.highest)
  {
    InitialInv();
    RunInv(Initial, events);
  }

  lemma InitialInv()
    ensures Inv(Initial)
  {
    forall k
      ensures HeldWithin([], k, Get(map[], k), 0, 0)
    {
      var log: seq<Message> := [];
      assert Get(Fold(log[..0]), k) == None;
    }
  }

  /** So past everything ever persisted the map is the fold of all that was consumed. */
  lemma ReplayConverges(events: seq<Event>)
    requires Runs(Initial, events)
    ensures var s := After(Initial, events);
            && s.position <= |s.log|
            && (s.highest <= s.position ==> s.latest == Fold(s.log[..s.position]))
  {
    ValuesAreLastWrites(events);
    var s := After(Initial, events);
    if s.highest <= s.position {
      FoldIfConstant(s.log, s.latest, s.position, s.position);
    }
  }

  /** A map of last writes between two positions with the same fold in between is that fold. */
  lemma FoldIfConstant(log: seq<Message>, m: map<Key, Payload>, low: nat, high: nat)
    requires low <= |log| && Within(log, m, low, high)
    requires forall q: nat | low <= q <= high && q <= |log| :: Fold(log[..q]) == Fold(log[..low])
    ensures m == Fold(log[..low])
  {
    forall k
      ensures Get(m, k) == Get(Fold(log[..low]), k)
    {
      assert HeldWithin(log, k, Get(m, k), low, high);
    }
    MapsEqual(m, Fold(log[..low]));
  }

  /** What the finished steps of a cycle leave. */
  ghost predicate LeftBy(end: CycleEnd, s: State, t: State) {
    && t.log == s.log && t.position == s.position && t.latest == s.latest
    && t.durable == (if end == PersistLost then s.durable else s.latest)
    && t.snapshot == (if end in {SnapshotOnly, Complete} then s.latest else s.snapshot)
    && (if end == Complete then t.committed == s.position && t.batchKeys == {}
        else t.committed == s.committed && t.batchKeys == s.batchKeys)
  }

  lemma CycleLeft(s: State, end: CycleEnd)
    requires Inv(s) && Enabled(s, Cycle(end))
    ensures LeftBy(end, s, Next(s, Cycle(end)))
  {
    PersistedIsLatest(s);
  }

  /** Of a cycle that fails, what its finished steps wrote stays and nothing else: in every
      reachable state the rows in Postgres become those in memory unless persisting was lost,
      the snapshot becomes them only after that, and the offset and the batch move only at the end. */
  lemma CycleLeaves(events: seq<Event>, end: CycleEnd)
    requires Runs(Initial, events) && Enabled(After(Initial, events), Cycle(end))
    ensures LeftBy(end, After(Initial, events), Next(After(Initial, events), Cycle(end)))
  {
    InitialInv();
    RunInv(Initial, events);
    CycleLeft(After(Initial, events), end);
  }

  /** Memory and Postgres differ on keys of the current batch only, and a complete cycle
      leaves memory, Postgres and the snapshot equal with the offset committed. */
  lemma CompleteCycleAgrees(events: seq<Event>)
    requires Runs(Initial, events)
    ensures var s := After(Initial, events);
            && (forall k | k !in s.batchKeys :: Get(s.latest, k) == Get(s.durable, k))
            && (Enabled(s, Cycle(Complete)) ==>
                  var done := Next(s, Cycle(Complete));
                  done.latest == done.durable == done.snapshot && done.committed == s.position && done.batchKeys == {})
  {
    InitialInv();
    RunInv(Initial, events);
    if Enabled(After(Initial, events), Cycle(Complete)) {
      CycleLeft(After(Initial, events), Complete);
    }
  }

  lemma RunsCons(s: State, e: Event, rest: seq<Event>)
    requires Enabled(s, e) && Runs(Next(s, e), rest)
    ensures Runs(s, [e] + rest) && After(s, [e] + rest) == After(Next(s, e), rest)
  {
    assert ([e] + rest)[1..] == rest;
  }

  /** One step in front of a run whose states are known. */
  lemma RunsStep(s: State, e: Event, t: State, rest: seq<Event>, end: State)
    requires Enabled(s, e) && Next(s, e) == t && Runs(t, rest) && After(t, rest) == end
    ensures Runs(s, [e] + rest) && After(s, [e] + rest) == end
  {
    RunsCons(s, e, rest);
  }

  lemma RunsSix(s0: State, e1: Event, s1: State, e2: Event, s2: State, e3: Event, s3: State,
                e4: Event, s4: State, e5: Event, s5: State, e6: Event, s6: State)
    requires Enabled(s0, e1) && Next(s0, e1) == s1 && Enabled(s1, e2) && Next(s1, e2) == s2
    requires Enabled(s2, e3) && Next(s2, e3) == s3 && Enabled(s3, e4) && Next(s3, e4) == s4
    requires Enabled(s4, e5) && Next(s4, e5) == s5 && Enabled(s5, e6) && Next(s5, e6) == s6
    ensures Runs(s0, [e1, e2, e3, e4, e5, e6]) && After(s0, [e1, e2, e3, e4, e5, e6]) == s6
  {
    RunsStep(s5, e6, s6, [], s6);
    RunsStep(s4, e5, s5, [e6] + [], s6);
    RunsStep(s3, e4, s4, [e5] + ([e6] + []), s6);
    RunsStep(s2, e3, s3, [e4] + ([e5] + ([e6] + [])), s6);
    RunsStep(s1, e2, s2, [e3] + ([e4] + ([e5] + ([e6] + []))), s6);
    RunsStep(s0, e1, s1, [e2] + ([e3] + ([e4] + ([e5] + ([e6] + [])))), s6);
    assert [e1] + ([e2] + ([e3] + ([e4] + ([e5] + ([e6] + []))))) == [e1, e2, e3, e4, e5, e6];
  }

  lemma DrainTwo(s: State, k: Key, older: Payload, newer: Payload)
    requires s.log == [Keyed(k, older), Keyed(k, newer)] && s.position == 0
    ensures Next(s, Drain(2)) == s.(position := 2, latest := s.latest[k := newer], batchKeys := s.batchKeys + {k})
    ensures Next(s, Drain(1)) == s.(position := 1, latest := s.latest[k := older], batchKeys := s.batchKeys + {k})
  {
    assert s.log[0..0] == [];
    assert Next(s, Drain(0)) == s;
    DrainOneMore(s, 0);
    DrainOneMore(s, 1);
    assert s.latest[k := older][k := newer] == s.latest[k := newer];
    assert s.batchKeys + {k} + {k} == s.batchKeys + {k};
  }

  lemma PersistOne(s: State, k: Key, payload: Payload)
    requires s.batchKeys == {k} && s.latest == map[k := payload] && s.durable == map[] && s.highest == 0
    ensures Persist(s) == s.(durable := map[k := payload], highest := s.position)
  {
    assert Changed(s) == map[k := payload];
    assert map[] + map[k := payload] == map[k := payload];
  }

  /** Replaying below the highest persisted position can put back an older value: the
      map is a fold of the log only once that position has been passed. */
  lemma ReplayBelowHighestIsStale(k: Key, older: Payload, newer: Payload)
    requires older != newer
    ensures var events := [Produce(Keyed(k, older)), Produce(Keyed(k, newer)), Drain(2), Cycle(PersistedOnly), Restart, Drain(1)];
            && Runs(Initial, events)
            && After(Initial, events).durable == map[k := newer]
            && After(Initial, events).latest == map[k := older]
  {
    var a, b := Keyed(k, older), Keyed(k, newer);
    var events := [Produce(a), Produce(b), Drain(2), Cycle(PersistedOnly), Restart, Drain(1)];
    var s1 := Initial.(log := [a]);
    var s2 := Initial.(log := [a, b]);
    var s3 := s2.(position := 2, latest := map[k := newer], batchKeys := {k});
    var s4 := s3.(durable := map[k := newer], highest := 2);
    var s5 := s4.(batchKeys := {}, position := 0);
    var s6 := s5.(position := 1, latest := map[k := older], batchKeys := {k});
    StaleSteps(k, older, newer, s1, s2, s3, s4, s5);
    RunsSix(Initial, Produce(a), s1, Produce(b), s2, Drain(2), s3, Cycle(PersistedOnly), s4, Restart, s5, Drain(1), s6);
  }

  lemma StaleSteps(k: Key, older: Payload, newer: Payload, s1: State, s2: State, s3: State, s4: State, s5: State)
    requires s1 == Initial.(log := [Keyed(k, older)]) && s2 == Initial.(log := [Keyed(k, older), Keyed(k, newer)])
    requires s3 == s2.(position := 2, latest := map[k := newer], batchKeys := {k})
    requires s4 == s3.(durable := map[k := newer], highest := 2) && s5 == s4.(batchKeys := {}, position := 0)
    ensures Next(Initial, Produce(Keyed(k, older))) == s1 && Next(s1, Produce(Keyed(k, newer))) == s2
    ensures Enabled(s2, Drain(2)) && Next(s2, Drain(2)) == s3
    ensures Enabled(s3, Cycle(PersistedOnly)) && Next(s3, Cycle(PersistedOnly)) == s4
    ensures Next(s4, Restart) == s5
    ensures Enabled(s5, Drain(1)) && Next(s5, Drain(1)) == s5.(position := 1, latest := map[k := older], batchKeys := {k})
  {
    assert [] + [Keyed(k, older)] == [Keyed(k, older)];
    assert [Keyed(k, older)] + [Keyed(k, newer)] == s2.log;
    DrainTwo(s2, k, older, newer);
    assert {} + {k} == {k};
    PersistOne(s3, k, newer);
    DrainTwo(s5, k, older, newer);
    assert map[k := newer][k := older] == map[k := older];
  }

  // ---------------------------------------------------------------- when the map is the fold below the highest

  ghost predicate Reachable(s: State) {
    exists events :: Runs(Initial, events) && After(Initial, events) == s
  }

  lemma {:induction false} RunSnoc(s: State, events: seq<Event>, e: Event)
    requires Runs(s, events) && Enabled(After(s, events), e)
    ensures Runs(s, events + [e]) && After(s, events + [e]) == Next(After(s, events), e)
    decreases |events|
  {
    if events == [] {
      assert [] + [e] == [e] && [e][1..] == [];
      assert Runs(Next(s, e), []);
    } else {
      RunSnoc(Next(s, events[0]), events[1..], e);
      assert (events + [e])[1..] == events[1..] + [e];
    }
  }

  lemma ReachNext(s: State, e: Event)
    requires Reachable(s) && Enabled(s, e)
    ensures Reachable(Next(s, e))
  {
    var events :| Runs(Initial, events) && After(Initial, events) == s;
    RunSnoc(Initial, events, e);
  }

  /** Restarted at offset `c`, with `m` in Postgres and everything up to `highest` persisted. */
  function Restarted(log: seq<Message>, c: nat, m: map<Key, Payload>, snapshot: map<Key, Payload>, highest: nat): State {
    State(log, c, c, m, {}, m, snapshot, highest)
  }

  lemma {:induction false} ReachLog(log: seq<Message>)
    ensures Reachable(Restarted(log, 0, map[], map[], 0))
  {
    if log == [] {
      assert Runs(Initial, []) && After(Initial, []) == Initial;
    } else {
      var front, last := log[..|log| - 1], log[|log| - 1];
      ReachLog(front);
      ReachNext(Restarted(front, 0, map[], map[], 0), Produce(last));
      assert front + [last] == log;
    }
  }

  /** Drained up to `n` from a restart. */
  lemma ReachDrained(log: seq<Message>, c: nat, m: map<Key, Payload>, snapshot: map<Key, Payload>, highest: nat, n: nat)
    requires c <= n <= |log| && Reachable(Restarted(log, c, m, snapshot, highest))
    ensures Reachable(State(log, c, n, Overlay(m, log[c..n]), Keys(log[c..n]), m, snapshot, highest))
  {
    ReachNext(Restarted(log, c, m, snapshot, highest), Drain(n - c));
    assert {} + Keys(log[c..n]) == Keys(log[c..n]);
  }

  /** Persist what was drained, fail, and restart: the rows stay, the offset does not move. */
  lemma ReachRedone(log: seq<Message>, c: nat, m: map<Key, Payload>, snapshot: map<Key, Payload>, highest: nat, n: nat)
    requires c <= n <= |log| && Reachable(Restarted(log, c, m, snapshot, highest)) && Keys(log[c..n]) != {}
    ensures Reachable(Restarted(log, c, Overlay(m, log[c..n]), snapshot, if n > highest then n else highest))
  {
    var s := State(log, c, n, Overlay(m, log[c..n]), Keys(log[c..n]), m, snapshot, highest);
    ReachDrained(log, c, m, snapshot, highest, n);
    ReachInv(s);
    PersistedIsLatest(s);
    ReachNext(s, Cycle(PersistedOnly));
    ReachNext(Next(s, Cycle(PersistedOnly)), Restart);
  }

  lemma ReachInv(s: State)
    requires Reachable(s)
    ensures Inv(s)
  {
    var events :| Runs(Initial, events) && After(Initial, events) == s;
    InitialInv();
    RunInv(Initial, events);
  }

  /** An offset at or below `p` with nothing written in between, where a consumer can restart
      with the fold of the log up to there. */
  lemma ReachCommitted(log: seq<Message>, p: nat) returns (c: nat, snapshot: map<Key, Payload>)
    requires p <= |log|
    ensures c <= p && Keys(log[c..p]) == {} && Reachable(Restarted(log, c, Fold(log[..c]), snapshot, c))
  {
    ReachLog(log);
    assert log[0..p] == log[..p];
    if Keys(log[..p]) == {} {
      c, snapshot := 0, map[];
    } else {
      c, snapshot := p, Fold(log[..p]);
      var s := State(log, 0, p, Fold(log[..p]), Keys(log[..p]), map[], map[], 0);
      ReachDrained(log, 0, map[], map[], 0, p);
      ReachInv(s);
      PersistedIsLatest(s);
      ReachNext(s, Cycle(Complete));
      assert Keys(log[p..p]) == {};
    }
  }

  lemma SameFolds(log: seq<Message>, p: nat, q: nat)
    requires p <= q <= |log| && Keys(log[p..q]) == {}
    ensures Fold(log[..q]) == Fold(log[..p])
  {
    forall k
      ensures Get(Fold(log[..q]), k) == Get(Fold(log[..p]), k)
    {
      SameFold(log, p, q, k);
    }
    MapsEqual(Fold(log[..q]), Fold(log[..p]));
  }

  lemma FoldOnto(log: seq<Message>, c: nat, n: nat)
    requires c <= n <= |log|
    ensures Overlay(Fold(log[..c]), log[c..n]) == Fold(log[..n])
  {
    assert log[..n] == log[..c] + log[c..n];
    OverlayConcat(map[], log[..c], log[c..n]);
  }

  lemma OverlayNothing(m: map<Key, Payload>, log: seq<Message>)
    requires Keys(log) == {}
    ensures Overlay(m, log) == m
  {
    forall k
      ensures Get(Overlay(m, log), k) == Get(m, k)
    {
      OverlayGet(m, log, k);
    }
    MapsEqual(Overlay(m, log), m);
  }

  /** A consumer at `p` can hold the fold up to any `q` it has persisted on the way to `h`. */
  lemma HoldsAhead(log: seq<Message>, p: nat, q: nat, h: nat) returns (s: State)
    requires p <= q <= h <= |log| && Fold(log[..q]) != Fold(log[..p])
    requires q == h || Fold(log[..h]) == Fold(log[..p])
    ensures Reachable(s) && s.log == log && s.position == p && s.highest == h && s.latest == Fold(log[..q])
  {
    var c, snapshot := ReachCommitted(log, p);
    SameFolds(log, c, p);
    var held := Fold(log[..h]);
    WrittenBetween(log, c, q, h);
    ReachRedone(log, c, Fold(log[..c]), snapshot, c, h);
    FoldOnto(log, c, h);
    if q != h {
      ReachRedone(log, c, held, snapshot, h, q);
      FoldOnto(log, c, q);
      held := Fold(log[..q]);
    }
    ReachDrained(log, c, held, snapshot, h, p);
    OverlayNothing(held, log[c..p]);
    s := State(log, c, p, Overlay(held, log[c..p]), Keys(log[c..p]), held, snapshot, h);
  }

  lemma WrittenBetween(log: seq<Message>, c: nat, q: nat, h: nat)
    requires c <= q <= h <= |log| && Fold(log[..q]) != Fold(log[..c])
    ensures Keys(log[c..q]) != {} && Keys(log[c..h]) != {}
  {
    if Keys(log[c..q]) == {} {
      SameFolds(log, c, q);
    }
    assert log[c..h] == log[c..q] + log[q..h];
    KeysConcat(log[c..q], log[q..h]);
  }

  /** Every consumer that is at `p` of this log when everything up to `h` has been persisted
      holds the fold of what it has consumed. */
  ghost predicate AlwaysFold(log: seq<Message>, p: nat, h: nat)
    requires p <= |log|
  {
    forall s | Reachable(s) && s.log == log && s.position == p && s.highest == h :: s.latest == Fold(log[..p])
  }

  /** They all do if and only if no write between `p` and `h` changes the fold. */
  lemma AlwaysFoldIff(log: seq<Message>, p: nat, h: nat)
    requires p <= h <= |log|
    ensures AlwaysFold(log, p, h) <==> forall q: nat | p <= q <= h :: Fold(log[..q]) == Fold(log[..p])
  {
    if forall q: nat | p <= q <= h :: Fold(log[..q]) == Fold(log[..p]) {
      forall s | Reachable(s) && s.log == log && s.position == p && s.highest == h
        ensures s.latest == Fold(log[..p])
      {
        ReachInv(s);
        FoldIfConstant(log, s.latest, p, h);
      }
    } else {
      var q: nat :| p <= q <= h && Fold(log[..q]) != Fold(log[..p]);
      var s := HoldsAhead(log, p, if Fold(log[..h]) != Fold(log[..p]) then h else q, h);
      assert Reachable(s) && s.latest != Fold(log[..p]);
    }
  }
}
