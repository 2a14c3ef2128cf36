/** Revocation state: the process-local denylists and capture stack of
    libs/holon_common/auth.py, the snapshot refresh of principal_status.py, and the durable
    rows of services/identity/app/token_revocation.py. Identity writes a row and its event
    in one transaction; a process receives the events in order, at any time. */
module Revocation {
  import opened Wrappers

  datatype Note = JtiRevoked(jti: string) | PrincipalDisabled(urn: string) | PrincipalEnabled(urn: string)

  /** What one process holds: the two sets, every capture list ever made, and the stack of
      the lists now capturing. A capture is named by its position in `lists`. */
  datatype Denylist = Denylist(disabled: set<string>, revoked: set<string>, lists: seq<seq<Note>>, captures: seq<nat>)

  predicate WellFormed(d: Denylist) {
    forall c | c in d.captures :: c < |d.lists|
  }

  function ValueOf(n: Note): string {
    match n
    case JtiRevoked(jti) => jti
    case PrincipalDisabled(urn) => urn
    case PrincipalEnabled(urn) => urn
  }

  function Record(d: Denylist, n: Note): Denylist {
    if d.captures != [] && ValueOf(n) != "" && d.captures[|d.captures| - 1] < |d.lists| then
      var top := d.captures[|d.captures| - 1];
      d.(lists := d.lists[top := d.lists[top] + [n]])
    else d
  }

  /** The effect on the two sets; empty values are ignored. */
  function Effect(d: Denylist, n: Note): Denylist {
    match n
    case JtiRevoked(jti) => if jti == "" then d else d.(revoked := d.revoked + {jti})
    case PrincipalDisabled(urn) => if urn == "" then d else d.(disabled := d.disabled + {urn})
    case PrincipalEnabled(urn) => d.(disabled := d.disabled - {urn})
  }

  function Apply(d: Denylist, n: Note): Denylist {
    Record(Effect(d, n), n)
  }

  function EffectAll(d: Denylist, notes: seq<Note>): Denylist {
    if notes == [] then d else Effect(EffectAll(d, notes[..|notes| - 1]), notes[|notes| - 1])
  }

  datatype Snapshot = Snapshot(disabled: set<string>, revoked: set<string>)

  function BeginCapture(d: Denylist): Denylist {
    d.(lists := d.lists + [[]], captures := d.captures + [|d.lists|])
  }

  /** Replace both sets, pop the innermost capture, whosever it is, and replay what the
      refresh's own list caught without recording it again. */
  function EndRefresh(d: Denylist, own: nat, snapshot: Snapshot): Denylist
    requires d.captures != [] && own < |d.lists|
  {
    EffectAll(Denylist(snapshot.disabled - {""}, snapshot.revoked - {""}, d.lists, d.captures[..|d.captures| - 1]), d.lists[own])
  }

  function FailRefresh(d: Denylist): Denylist
    requires d.captures != []
  {
    d.(captures := d.captures[..|d.captures| - 1])
  }

  // ---------------------------------------------------------------- the code

  class AuthState {
    var disabled: set<string>
    var revoked: set<string>
    var lists: seq<seq<Note>>
    var captures: seq<nat>

    function View(): Denylist
      reads this
    {
      Denylist(disabled, revoked, lists, captures)
    }

    constructor ()
      ensures View() == Denylist({}, {}, [], [])
    {
      disabled, revoked, lists, captures := {}, {}, [], [];
    }

    method NoteRevocation(n: Note)
      requires WellFormed(View())
      modifies this`lists
      ensures View() == Record(old(View()), n)
    {
      if captures != [] && ValueOf(n) != "" {
        var top := captures[|captures| - 1];
        assert top in captures;
        lists := lists[top := lists[top] + [n]];
      }
    }

    method MarkPrincipalDisabled(urn: string)
      requires WellFormed(View())
      modifies this
      ensures View() == Apply(old(View()), PrincipalDisabled(urn))
    {
      if urn != "" {
        disabled := disabled + {urn};
        NoteRevocation(PrincipalDisabled(urn));
      }
    }

    method MarkPrincipalEnabled(urn: string)
      requires WellFormed(View())
      modifies this
      ensures View() == Apply(old(View()), PrincipalEnabled(urn))
    {
      disabled := disabled - {urn};
      NoteRevocation(PrincipalEnabled(urn));
    }

    method MarkJtiRevoked(jti: string)
      requires WellFormed(View())
      modifies this
      ensures View() == Apply(old(View()), JtiRevoked(jti))
    {
      if jti != "" {
        revoked := revoked + {jti};
        NoteRevocation(JtiRevoked(jti));
      }
    }

    method ReplayRevocationEvents(events: seq<Note>)
      modifies this
      ensures View() == EffectAll(old(View()), events)
    {
      var held := captures;
      captures := [];
      ghost var start := View();
      for n := 0 to |events|
        invariant View() == EffectAll(start, events[..n]) && captures == []
      {
        assert events[..n + 1][..n] == events[..n];
        match events[n] {
          case JtiRevoked(jti) => MarkJtiRevoked(jti);
          case PrincipalDisabled(urn) => MarkPrincipalDisabled(urn);
          case PrincipalEnabled(urn) => MarkPrincipalEnabled(urn);
        }
        EffectKeepsCaptures(start, events[..n + 1]);
      }
      assert events[..|events|] == events;
      EffectKeepsCaptures(start, events);
      EffectIgnoresCaptures(old(View()), start, events);
      captures := captures + held;
    }

    method EnterCapture() returns (own: nat)
      modifies this
      ensures View() == BeginCapture(old(View())) && own == |old(lists)|
    {
      own := |lists|;
      lists, captures := lists + [[]], captures + [own];
    }

    /** The tail of a refresh, once the response has arrived. It has no await. */
    method FinishRefresh(own: nat, snapshot: Snapshot)
      requires WellFormed(View()) && captures != [] && own < |lists|
      modifies this
      ensures View() == EndRefresh(old(View()), own, snapshot)
    {
      disabled := snapshot.disabled - {""};
      revoked := snapshot.revoked - {""};
      captures := captures[..|captures| - 1];
      ReplayRevocationEvents(lists[own]);
    }
  }

  lemma {:induction false} EffectKeepsCaptures(d: Denylist, notes: seq<Note>)
    ensures EffectAll(d, notes).captures == d.captures && EffectAll(d, notes).lists == d.lists
  {
    if notes != [] {
      EffectKeepsCaptures(d, notes[..|notes| - 1]);
    }
  }

  lemma {:induction false} EffectIgnoresCaptures(a: Denylist, b: Denylist, notes: seq<Note>)
    requires a.disabled == b.disabled && a.revoked == b.revoked
    ensures EffectAll(a, notes) == EffectAll(b, notes).(lists := a.lists, captures := a.captures)
  {
    if notes != [] {
      EffectIgnoresCaptures(a, b, notes[..|notes| - 1]);
    }
  }

  // ---------------------------------------------------------------- the whole system

  /** An event of Identity. A revocation carries the token's expiry. */
  datatype Published = Revoked(jti: string, expires: int) | Disabled(urn: string) | Enabled(urn: string)

  /** `own` is the capture list of the refresh. */
  datatype Refresh = NoRefresh | Fetching(own: nat, since: nat) | Responded(own: nat, since: nat, at: nat, snapshot: Snapshot)

  /** `topic` is what Identity published, `delivered` how much of it this process has had.
      `inactive` and `rows` are Identity's tables; `started` is `inactive` at the start. */
  datatype State = State(
    clock: int,
    started: set<string>,
    inactive: set<string>,
    rows: map<string, int>,
    topic: seq<Published>,
    delivered: nat,
    local: Denylist,
    refresh: Refresh)

  datatype Event =
    | Tick(elapsed: nat)
    | Publish(event: Published)
    | Deliver
    | BeginHydrate
    | TakeSnapshot
    | EndHydrate
    | FailHydrate

  function NoteOf(p: Published): Note {
    match p
    case Revoked(jti, _) => JtiRevoked(jti)
    case Disabled(urn) => PrincipalDisabled(urn)
    case Enabled(urn) => PrincipalEnabled(urn)
  }

  ghost predicate CanStep(s: State, e: Event) {
    match e
    case Publish(event) =>
      && ValueOf(NoteOf(event)) != ""
      && (event.Revoked? ==>
            // a token has one expiry, and only a token still valid is revoked
            && event.expires > s.clock
            && forall n | 0 <= n < |s.topic| && s.topic[n].Revoked? && s.topic[n].jti == event.jti :: s.topic[n].expires == event.expires)
    case Deliver => s.delivered < |s.topic|
    case BeginHydrate => s.refresh == NoRefresh
    case TakeSnapshot => s.refresh.Fetching?
    case EndHydrate => s.refresh.Responded? && s.local.captures != [] && s.refresh.own < |s.local.lists|
    case FailHydrate => s.refresh != NoRefresh && s.local.captures != []
    case Tick(_) => true
  }

  ghost function Next(s: State, e: Event): State
    requires CanStep(s, e)
  {
    match e
    case Tick(elapsed) => s.(clock := s.clock + elapsed)
    case Publish(event) =>
      var out := s.(topic := s.topic + [event]);
      (match event
       case Revoked(jti, expires) => out.(rows := if jti in s.rows then s.rows else s.rows[jti := expires])
       case Disabled(urn) => out.(inactive := s.inactive + {urn})
       case Enabled(urn) => out.(inactive := s.inactive - {urn}))
    case Deliver => s.(local := Apply(s.local, NoteOf(s.topic[s.delivered])), delivered := s.delivered + 1)
    case BeginHydrate => s.(local := BeginCapture(s.local), refresh := Fetching(|s.local.lists|, s.delivered))
    case TakeSnapshot =>
      var valid := map j | j in s.rows && s.rows[j] > s.clock :: s.rows[j];
      s.(rows := valid, refresh := Responded(s.refresh.own, s.refresh.since, |s.topic|, Snapshot(s.inactive, valid.Keys)))
    case EndHydrate => s.(local := EndRefresh(s.local, s.refresh.own, s.refresh.snapshot), refresh := NoRefresh)
    case FailHydrate => s.(local := FailRefresh(s.local), refresh := NoRefresh)
  }

  /** A process that has just loaded Identity's tables. */
  function Initial(inactive: set<string>): State {
    State(0, inactive, inactive, map[], [], 0, Denylist(inactive, {}, [], []), NoRefresh)
  }

  /** Whether a principal is disabled once the first `n` events are applied in order. */
  function StatusAt(s: State, n: nat, urn: string): bool
    requires n <= |s.topic|
  {
    if n == 0 then urn in s.started
    else
      match s.topic[n - 1]
      case Disabled(u) => u == urn || StatusAt(s, n - 1, urn)
      case Enabled(u) => u != urn && StatusAt(s, n - 1, urn)
      case Revoked(_, _) => StatusAt(s, n - 1, urn)
  }

  predicate About(p: Published, urn: string) {
    !p.Revoked? && ValueOf(NoteOf(p)) == urn
  }

  /** The notes of a stretch of the topic. */
  function Notes(topic: seq<Published>): seq<Note> {
    seq(|topic|, i requires 0 <= i < |topic| => NoteOf(topic[i]))
  }

  /** What this process knows of a principal is its status at some point of the topic at
      or after everything delivered. */
  ghost predicate NeverBehind(s: State, urn: string) {
    exists p :: Knows(s, p, urn)
  }

  ghost predicate Knows(s: State, p: nat, urn: string) {
    s.delivered <= p <= |s.topic| && (urn in s.local.disabled <==> StatusAt(s, p, urn))
  }

  /** Delivered and not yet expired. */
  ghost predicate Revocable(s: State, n: nat) {
    n < |s.topic| && s.topic[n].Revoked? && s.topic[n].expires > s.clock
  }

  ghost predicate Inv(s: State) {
    && s.delivered <= |s.topic|
    && (forall n | 0 <= n < |s.topic| :: ValueOf(NoteOf(s.topic[n])) != "")
    && "" !in s.started
    && (forall urn :: urn in s.inactive <==> StatusAt(s, |s.topic|, urn))
    && (forall n: nat | Revocable(s, n) :: s.topic[n].jti in s.rows && s.rows[s.topic[n].jti] == s.topic[n].expires)
    && (forall j | j in s.rows :: Revoked(j, s.rows[j]) in s.topic)
    && (forall n: nat | n < s.delivered && Revocable(s, n) :: s.topic[n].jti in s.local.revoked)
    && (forall urn :: NeverBehind(s, urn))
    && (s.refresh == NoRefresh ==> s.local.captures == [])
    && (s.refresh != NoRefresh ==>
          && s.refresh.since <= s.delivered
          && s.local.captures == [s.refresh.own] && s.refresh.own < |s.local.lists|
          && s.local.lists[s.refresh.own] == Notes(s.topic[s.refresh.since..s.delivered]))
    && (s.refresh.Responded? ==>
          && s.refresh.since <= s.refresh.at <= |s.topic|
          && (forall urn :: urn in s.refresh.snapshot.disabled <==> StatusAt(s, s.refresh.at, urn))
          && (forall n: nat | n < s.refresh.since && Revocable(s, n) :: s.topic[n].jti in s.refresh.snapshot.revoked))
  }

  lemma {:induction false} StatusStable(s: State, m: nat, n: nat, urn: string)
    requires m <= n <= |s.topic| && forall i | m <= i < n :: !About(s.topic[i], urn)
    ensures StatusAt(s, n, urn) == StatusAt(s, m, urn)
  {
    if m < n {
      StatusStable(s, m, n - 1, urn);
    }
  }

  lemma {:induction false} StatusExtends(s: State, t: State, n: nat, urn: string)
    requires n <= |s.topic| <= |t.topic| && t.topic[..|s.topic|] == s.topic && s.started == t.started
    ensures StatusAt(s, n, urn) == StatusAt(t, n, urn)
  {
    if n > 0 {
      assert t.topic[..|s.topic|][n - 1] == t.topic[n - 1];
      StatusExtends(s, t, n - 1, urn);
    }
  }

  lemma PublishNeverBehind(s: State, event: Published, urn: string)
    requires Inv(s) && CanStep(s, Publish(event))
    ensures NeverBehind(Next(s, Publish(event)), urn)
  {
    var t := Next(s, Publish(event));
    assert t.topic[..|s.topic|] == s.topic;
    assert NeverBehind(s, urn);
    var p :| Knows(s, p, urn);
    StatusExtends(s, t, p, urn);
    assert Knows(t, p, urn);
  }

  lemma PublishStatus(s: State, event: Published, urn: string)
    requires Inv(s) && CanStep(s, Publish(event))
    ensures var t := Next(s, Publish(event)); urn in t.inactive <==> StatusAt(t, |t.topic|, urn)
  {
    var t := Next(s, Publish(event));
    assert t.topic[..|s.topic|] == s.topic;
    StatusExtends(s, t, |s.topic|, urn);
  }

  lemma PublishRowsKnown(s: State, event: Published)
    requires Inv(s) && CanStep(s, Publish(event))
    ensures var t := Next(s, Publish(event)); forall j | j in t.rows :: Revoked(j, t.rows[j]) in t.topic
  {
    var t := Next(s, Publish(event));
    forall j | j in t.rows
      ensures Revoked(j, t.rows[j]) in t.topic
    {
      if j in s.rows {
        assert Revoked(j, s.rows[j]) in s.topic;
      } else {
        assert t.topic[|s.topic|] == event;
      }
    }
  }

  lemma PublishInv(s: State, event: Published)
    requires Inv(s) && CanStep(s, Publish(event))
    ensures Inv(Next(s, Publish(event)))
  {
    var t := Next(s, Publish(event));
    forall urn ensures (urn in t.inactive <==> StatusAt(t, |t.topic|, urn)) && NeverBehind(t, urn) {
      PublishStatus(s, event, urn);
      PublishNeverBehind(s, event, urn);
    }
    forall n: nat | Revocable(t, n) ensures t.topic[n].jti in t.rows && t.rows[t.topic[n].jti] == t.topic[n].expires {
      PublishRows(s, event, n);
    }
    PublishRowsKnown(s, event);
    PublishRefresh(s, event);
    assert forall n: nat | n < |s.topic| && Revocable(t, n) :: Revocable(s, n);
  }

  lemma PublishRefresh(s: State, event: Published)
    requires Inv(s) && CanStep(s, Publish(event))
    ensures var t := Next(s, Publish(event));
            && (s.refresh != NoRefresh ==> t.topic[s.refresh.since..s.delivered] == s.topic[s.refresh.since..s.delivered])
            && (s.refresh.Responded? ==> forall urn :: urn in s.refresh.snapshot.disabled <==> StatusAt(t, s.refresh.at, urn))
  {
    var t := Next(s, Publish(event));
    assert t.topic[..|s.topic|] == s.topic;
    if s.refresh.Responded? {
      forall urn
        ensures urn in s.refresh.snapshot.disabled <==> StatusAt(t, s.refresh.at, urn)
      {
        StatusExtends(s, t, s.refresh.at, urn);
      }
    }
  }

  /** A row already there for the same token is as good as the new one. */
  lemma PublishRows(s: State, event: Published, n: nat)
    requires Inv(s) && CanStep(s, Publish(event)) && Revocable(Next(s, Publish(event)), n)
    ensures var t := Next(s, Publish(event)); t.topic[n].jti in t.rows && t.rows[t.topic[n].jti] == t.topic[n].expires
  {
    var t := Next(s, Publish(event));
    if n < |s.topic| {
      assert Revocable(s, n);
    } else if event.jti in s.rows {
      assert Revoked(event.jti, s.rows[event.jti]) in s.topic;
    }
  }

  lemma DeliverNeverBehind(s: State, urn: string)
    requires Inv(s) && CanStep(s, Deliver)
    ensures NeverBehind(Next(s, Deliver), urn)
  {
    var t, p := Next(s, Deliver), s.topic[s.delivered];
    assert NeverBehind(s, urn);
    var q :| Knows(s, q, urn);
    StatusSame(s, t, s.delivered + 1, urn);
    StatusSame(s, t, q, urn);
    if About(p, urn) {
      assert Knows(t, s.delivered + 1, urn);
    } else if q == s.delivered {
      StatusSame(s, t, s.delivered, urn);
      StatusStable(s, s.delivered, s.delivered + 1, urn);
      assert Knows(t, s.delivered + 1, urn);
    } else {
      assert Knows(t, q, urn);
    }
  }

  lemma DeliverInv(s: State)
    requires Inv(s) && CanStep(s, Deliver)
    ensures Inv(Next(s, Deliver))
  {
    var t, p := Next(s, Deliver), s.topic[s.delivered];
    forall urn ensures NeverBehind(t, urn) {
      DeliverNeverBehind(s, urn);
    }
    if s.refresh != NoRefresh {
      var since := s.refresh.since;
      assert t.topic[since..t.delivered] == s.topic[since..s.delivered] + [p];
      assert Notes(s.topic[since..s.delivered] + [p]) == Notes(s.topic[since..s.delivered]) + [NoteOf(p)];
      assert t.local.lists[s.refresh.own] == Notes(t.topic[since..t.delivered]);
    }
    if s.refresh.Responded? {
      forall urn ensures urn in t.refresh.snapshot.disabled <==> StatusAt(t, t.refresh.at, urn) {
        StatusSame(s, t, s.refresh.at, urn);
      }
    }
    forall urn ensures urn in t.inactive <==> StatusAt(t, |t.topic|, urn) {
      StatusSame(s, t, |s.topic|, urn);
    }
    assert forall n: nat :: Revocable(t, n) <==> Revocable(s, n);
  }

  lemma StatusSame(s: State, t: State, n: nat, urn: string)
    requires s.topic == t.topic && s.started == t.started && n <= |s.topic|
    ensures StatusAt(s, n, urn) == StatusAt(t, n, urn)
  {
    assert t.topic[..|s.topic|] == s.topic;
    StatusExtends(s, t, n, urn);
  }

  // ---------------------------------------------------------------- the replay

  lemma {:induction false} ReplayedJtis(d: Denylist, notes: seq<Note>, jti: string)
    ensures jti in EffectAll(d, notes).revoked <==> jti in d.revoked || (jti != "" && JtiRevoked(jti) in notes)
  {
    if notes != [] {
      ReplayedJtis(d, notes[..|notes| - 1], jti);
      assert notes == notes[..|notes| - 1] + [notes[|notes| - 1]];
    }
  }

  predicate Touched(topic: seq<Published>, urn: string) {
    topic != [] && (About(topic[|topic| - 1], urn) || Touched(topic[..|topic| - 1], urn))
  }

  lemma {:induction false} Untouched(topic: seq<Published>, urn: string)
    requires !Touched(topic, urn)
    ensures forall i | 0 <= i < |topic| :: !About(topic[i], urn)
  {
    if topic != [] {
      Untouched(topic[..|topic| - 1], urn);
    }
  }

  /** Replaying a stretch of the topic over a set that has the status at `at`. */
  lemma {:induction false} ReplayedStatus(s: State, d: Denylist, since: nat, n: nat, at: nat, urn: string)
    requires since <= n <= |s.topic| && since <= at <= |s.topic|
    requires forall i | 0 <= i < |s.topic| :: ValueOf(NoteOf(s.topic[i])) != ""
    requires urn in d.disabled <==> StatusAt(s, at, urn)
    ensures urn in EffectAll(d, Notes(s.topic[since..n])).disabled
            <==> if Touched(s.topic[since..n], urn) then StatusAt(s, n, urn) else StatusAt(s, at, urn)
  {
    if since == n {
      assert s.topic[since..n] == [];
      assert Notes([]) == [];
    } else {
      ReplayedStatus(s, d, since, n - 1, at, urn);
      var stretch, last := s.topic[since..n - 1], s.topic[n - 1];
      assert s.topic[since..n] == stretch + [last];
      ReplaySnoc(d, stretch, last, urn);
      StatusStep(s, n, urn);
    }
  }

  lemma StatusStep(s: State, n: nat, urn: string)
    requires 0 < n <= |s.topic|
    ensures StatusAt(s, n, urn) == if About(s.topic[n - 1], urn) then s.topic[n - 1].Disabled? else StatusAt(s, n - 1, urn)
  {
  }

  lemma ReplaySnoc(d: Denylist, topic: seq<Published>, last: Published, urn: string)
    requires ValueOf(NoteOf(last)) != ""
    ensures var before, after := EffectAll(d, Notes(topic)), EffectAll(d, Notes(topic + [last]));
            urn in after.disabled <==> if About(last, urn) then last.Disabled? else urn in before.disabled
    ensures Touched(topic + [last], urn) <==> About(last, urn) || Touched(topic, urn)
  {
    var notes := Notes(topic + [last]);
    assert notes[..|notes| - 1] == Notes(topic) && notes[|notes| - 1] == NoteOf(last);
    assert (topic + [last])[..|topic|] == topic;
  }

  lemma EndHydrateKnows(s: State, urn: string)
    requires Inv(s) && CanStep(s, EndHydrate)
    ensures NeverBehind(Next(s, EndHydrate), urn)
  {
    var t, since, at := Next(s, EndHydrate), s.refresh.since, s.refresh.at;
    var d := Denylist(s.refresh.snapshot.disabled - {""}, s.refresh.snapshot.revoked - {""}, s.local.lists, []);
    assert s.local.captures[..0] == [];
    if urn == "" {
      NeverEmpty(s, at);
      NeverEmpty(s, s.delivered);
    }
    ReplayedStatus(s, d, since, s.delivered, at, urn);
    StatusSame(s, t, s.delivered, urn);
    StatusSame(s, t, at, urn);
    if Touched(s.topic[since..s.delivered], urn) {
      assert Knows(t, s.delivered, urn);
    } else if at >= s.delivered {
      assert Knows(t, at, urn);
    } else {
      Untouched(s.topic[since..s.delivered], urn);
      forall i | at <= i < s.delivered ensures !About(s.topic[i], urn) {
        assert s.topic[since..s.delivered][i - since] == s.topic[i];
      }
      StatusStable(s, at, s.delivered, urn);
      assert Knows(t, s.delivered, urn);
    }
  }

  lemma {:induction false} NeverEmpty(s: State, n: nat)
    requires n <= |s.topic| && "" !in s.started && forall i | 0 <= i < |s.topic| :: ValueOf(NoteOf(s.topic[i])) != ""
    ensures !StatusAt(s, n, "")
  {
    if n > 0 {
      NeverEmpty(s, n - 1);
    }
  }

  lemma EndHydrateInv(s: State)
    requires Inv(s) && CanStep(s, EndHydrate)
    ensures Inv(Next(s, EndHydrate))
  {
    var t, since := Next(s, EndHydrate), s.refresh.since;
    assert s.local.captures[..0] == [];
    var d := Denylist(s.refresh.snapshot.disabled - {""}, s.refresh.snapshot.revoked - {""}, s.local.lists, []);
    var notes := Notes(s.topic[since..s.delivered]);
    assert t.local == EffectAll(d, notes);
    EffectKeepsCaptures(d, notes);
    forall urn ensures NeverBehind(t, urn) {
      EndHydrateKnows(s, urn);
    }
    forall urn ensures urn in t.inactive <==> StatusAt(t, |t.topic|, urn) {
      StatusSame(s, t, |s.topic|, urn);
    }
    forall n: nat | n < t.delivered && Revocable(t, n) ensures t.topic[n].jti in t.local.revoked {
      ReplayedJtis(d, notes, t.topic[n].jti);
      assert Revocable(s, n);
      if n >= since {
        assert notes[n - since] == JtiRevoked(t.topic[n].jti);
      }
    }
    assert forall n: nat :: Revocable(t, n) <==> Revocable(s, n);
  }

  lemma SnapshotInv(s: State)
    requires Inv(s) && CanStep(s, TakeSnapshot)
    ensures Inv(Next(s, TakeSnapshot))
  {
    var t := Next(s, TakeSnapshot);
    forall urn ensures (urn in t.inactive <==> StatusAt(t, |t.topic|, urn)) && NeverBehind(t, urn) {
      StatusSame(s, t, |s.topic|, urn);
      assert NeverBehind(s, urn);
      var p :| Knows(s, p, urn);
      StatusSame(s, t, p, urn);
      assert Knows(t, p, urn);
    }
    assert forall n: nat :: Revocable(t, n) <==> Revocable(s, n);
  }

  /** Steps that leave topic, tables and the local sets alone. */
  lemma QuietInv(s: State, e: Event)
    requires Inv(s) && CanStep(s, e) && (e.Tick? || e.BeginHydrate? || e.FailHydrate?)
    ensures Inv(Next(s, e))
  {
    var t := Next(s, e);
    forall urn ensures (urn in t.inactive <==> StatusAt(t, |t.topic|, urn)) && NeverBehind(t, urn) {
      StatusSame(s, t, |s.topic|, urn);
      assert NeverBehind(s, urn);
      var p :| Knows(s, p, urn);
      StatusSame(s, t, p, urn);
      assert Knows(t, p, urn);
    }
    if s.refresh.Responded? && e.Tick? {
      forall urn ensures urn in t.refresh.snapshot.disabled <==> StatusAt(t, t.refresh.at, urn) {
        StatusSame(s, t, s.refresh.at, urn);
      }
    }
    assert forall n: nat | Revocable(t, n) :: Revocable(s, n);
    if e.BeginHydrate? {
      assert Notes(s.topic[s.delivered..s.delivered]) == [];
    }
  }

  lemma NextInv(s: State, e: Event)
    requires Inv(s) && CanStep(s, e)
    ensures Inv(Next(s, e))
  {
    match e
    case Publish(event) => PublishInv(s, event);
    case Deliver => DeliverInv(s);
    case TakeSnapshot => SnapshotInv(s);
    case EndHydrate => EndHydrateInv(s);
    case _ => QuietInv(s, e);
  }

  ghost predicate Runs(s: State, events: seq<Event>)
    decreases |events|
  {
    events == [] || (CanStep(s, events[0]) && Runs(Next(s, events[0]), events[1..]))
  }

  ghost function After(s: State, events: seq<Event>): State
    requires Runs(s, events)
    decreases |events|
  {
    if events == [] then s else After(Next(s, events[0]), events[1..])
  }

  lemma {:induction false} RunInv(s: State, events: seq<Event>)
    requires Inv(s) && Runs(s, events)
    ensures Inv(After(s, events))
    decreases |events|
  {
    if events != [] {
      NextInv(s, events[0]);
      RunInv(Next(s, events[0]), events[1..]);
    }
  }

  lemma InitialInv(inactive: set<string>)
    requires "" !in inactive
    ensures Inv(Initial(inactive))
  {
    var s := Initial(inactive);
    forall urn ensures NeverBehind(s, urn) {
      assert Knows(s, 0, urn);
    }
  }

  /** However refreshes, failures and deliveries interleave, a delivered revocation of a
      token that has not expired is in force. */
  lemma DeliveredRevocationStays(inactive: set<string>, events: seq<Event>, n: nat)
    requires "" !in inactive && Runs(Initial(inactive), events)
    requires var s := After(Initial(inactive), events); n < s.delivered && Revocable(s, n)
    ensures var s := After(Initial(inactive), events); s.topic[n].jti in s.local.revoked
  {
    InitialInv(inactive);
    RunInv(Initial(inactive), events);
  }

  /** A process that has had every event agrees with Identity on who is disabled, even
      when a refresh replayed events older than its snapshot. */
  lemma DisabledSetConverges(inactive: set<string>, events: seq<Event>)
    requires "" !in inactive && Runs(Initial(inactive), events)
    requires var s := After(Initial(inactive), events); s.delivered == |s.topic|
    ensures var s := After(Initial(inactive), events); s.local.disabled == s.inactive
  {
    InitialInv(inactive);
    RunInv(Initial(inactive), events);
    var s := After(Initial(inactive), events);
    forall urn ensures urn in s.local.disabled <==> urn in s.inactive {
      assert NeverBehind(s, urn);
      var p :| Knows(s, p, urn);
    }
  }

  /** Tables and topic as they are, this process holds what Identity does. */
  ghost predicate HoldsIdentity(s: State, clock: int, local: Denylist) {
    && local.disabled == s.inactive
    && local.captures == []
    && forall j :: j in local.revoked <==> exists expires :: expires > clock && Revoked(j, expires) in s.topic
  }

  lemma RowsAreTopic(s: State, j: string)
    requires Inv(s)
    ensures j in s.rows && s.rows[j] > s.clock <==> exists expires :: expires > s.clock && Revoked(j, expires) in s.topic
    ensures j in s.rows ==> j != ""
  {
    if j in s.rows {
      assert Revoked(j, s.rows[j]) in s.topic;
      var n :| 0 <= n < |s.topic| && s.topic[n] == Revoked(j, s.rows[j]);
      assert ValueOf(NoteOf(s.topic[n])) != "";
    }
    if expires :| expires > s.clock && Revoked(j, expires) in s.topic {
      var n: nat :| n < |s.topic| && s.topic[n] == Revoked(j, expires);
      assert Revocable(s, n);
    }
  }

  lemma RefreshLoads(s: State)
    requires Inv(s) && s.refresh == NoRefresh
    ensures CanStep(s, BeginHydrate)
    ensures var asked := Next(s, BeginHydrate);
            && CanStep(asked, TakeSnapshot)
            && var answered := Next(asked, TakeSnapshot);
               && CanStep(answered, EndHydrate)
               && var t := Next(answered, EndHydrate);
                  t.refresh == NoRefresh && t.delivered == s.delivered && HoldsIdentity(s, s.clock, t.local)
  {
    var asked := Next(s, BeginHydrate);
    var answered := Next(asked, TakeSnapshot);
    var t := Next(answered, EndHydrate);
    assert answered.local.lists[answered.refresh.own] == [];
    assert t.local == Denylist(s.inactive - {""}, answered.refresh.snapshot.revoked - {""}, asked.local.lists, asked.local.captures[..0]);
    assert "" !in s.inactive by {
      NeverEmpty(s, |s.topic|);
    }
    forall j
      ensures j in t.local.revoked <==> exists expires :: expires > s.clock && Revoked(j, expires) in s.topic
    {
      RowsAreTopic(s, j);
    }
  }

  /** In every reachable state without a refresh running, however long ago the last one was, one
      that nothing disturbs leaves exactly Identity's disabled principals and exactly the tokens
      revoked so far that have not expired by then, even of events not delivered yet. */
  lemma QuietRefresh(inactive: set<string>, events: seq<Event>, elapsed: nat)
    requires "" !in inactive && Runs(Initial(inactive), events) && After(Initial(inactive), events).refresh == NoRefresh
    ensures var s, refresh := After(Initial(inactive), events), [Tick(elapsed), BeginHydrate, TakeSnapshot, EndHydrate];
            && Runs(s, refresh)
            && After(s, refresh).refresh == NoRefresh && After(s, refresh).delivered == s.delivered
            && HoldsIdentity(s, s.clock + elapsed, After(s, refresh).local)
  {
    InitialInv(inactive);
    RunInv(Initial(inactive), events);
    var s := After(Initial(inactive), events);
    var later := Next(s, Tick(elapsed));
    NextInv(s, Tick(elapsed));
    RefreshLoads(later);
    var asked := Next(later, BeginHydrate);
    var answered := Next(asked, TakeSnapshot);
    RunsFour(s, Tick(elapsed), BeginHydrate, TakeSnapshot, EndHydrate);
  }

  lemma RunsFour(s: State, a: Event, b: Event, c: Event, d: Event)
    requires CanStep(s, a) && CanStep(Next(s, a), b) && CanStep(Next(Next(s, a), b), c) && CanStep(Next(Next(Next(s, a), b), c), d)
    ensures Runs(s, [a, b, c, d]) && After(s, [a, b, c, d]) == Next(Next(Next(Next(s, a), b), c), d)
  {
    var last := Next(Next(Next(Next(s, a), b), c), d);
    assert Runs(last, []) && After(last, []) == last;
    assert [d][1..] == [] && [c, d][1..] == [d] && [b, c, d][1..] == [c, d] && [a, b, c, d][1..] == [b, c, d];
    assert Runs(Next(Next(s, a), b), [c, d]) && After(Next(Next(s, a), b), [c, d]) == last;
  }

  // ---------------------------------------------------------------- overlapping refreshes

  function ApplyAll(d: Denylist, notes: seq<Note>): Denylist {
    if notes == [] then d else Apply(ApplyAll(d, notes[..|notes| - 1]), notes[|notes| - 1])
  }

  /** Deliveries take effect and all go to the innermost list. */
  lemma {:induction false} DeliveredToTop(d: Denylist, notes: seq<Note>, top: nat)
    requires d.captures != [] && d.captures[|d.captures| - 1] == top < |d.lists|
    requires forall n | n in notes :: ValueOf(n) != ""
    ensures ApplyAll(d, notes) == EffectAll(d, notes).(lists := d.lists[top := d.lists[top] + notes])
  {
    if notes == [] {
      assert d.lists[top] + [] == d.lists[top];
      assert d.lists[top := d.lists[top]] == d.lists;
    } else {
      var front, last := notes[..|notes| - 1], notes[|notes| - 1];
      DeliveredToTop(d, front, top);
      EffectKeepsCaptures(d, front);
      assert last in notes;
      assert d.lists[top] + front + [last] == d.lists[top] + notes;
      EffectIgnoresCaptures(ApplyAll(d, front), EffectAll(d, front), []);
    }
  }

  /** Two refreshes that overlap: `n0` is delivered before the second begins, `n1` while both
      run. The outer list is `|d.lists|`, the inner one the next. */
  function Overlapping(d: Denylist, n0: seq<Note>, n1: seq<Note>): Denylist {
    ApplyAll(BeginCapture(ApplyAll(BeginCapture(d), n0)), n1)
  }

  lemma OverlappingLists(d: Denylist, n0: seq<Note>, n1: seq<Note>)
    requires d.captures == [] && forall n | n in n0 + n1 :: ValueOf(n) != ""
    ensures var o, a := Overlapping(d, n0, n1), |d.lists|;
            && o.captures == [a, a + 1] && |o.lists| == a + 2
            && o.lists[a] == n0 && o.lists[a + 1] == n1
  {
    var a := |d.lists|;
    var d1 := BeginCapture(d);
    DeliveredToTop(d1, n0, a);
    EffectKeepsCaptures(d1, n0);
    assert [] + n0 == n0 && [] + n1 == n1;
    var d2 := BeginCapture(ApplyAll(d1, n0));
    DeliveredToTop(d2, n1, a + 1);
    EffectKeepsCaptures(d2, n1);
  }

  /** One refresh ends and `n2` is delivered: it goes to the outer list, which is the one
      left capturing, whichever refresh ended. */
  lemma FirstEnds(o: Denylist, own: nat, snapshot: Snapshot, n2: seq<Note>, a: nat)
    requires o.captures == [a, a + 1] && |o.lists| == a + 2 && own < |o.lists|
    requires forall n | n in n2 :: ValueOf(n) != ""
    ensures var t := ApplyAll(EndRefresh(o, own, snapshot), n2);
            && t.captures == [a] && |t.lists| == a + 2
            && t.lists[a] == o.lists[a] + n2 && t.lists[a + 1] == o.lists[a + 1]
  {
    var base := Denylist(snapshot.disabled - {""}, snapshot.revoked - {""}, o.lists, o.captures[..1]);
    EffectKeepsCaptures(base, o.lists[own]);
    var e := EndRefresh(o, own, snapshot);
    assert e.captures == [a] && e.lists == o.lists;
    DeliveredToTop(e, n2, a);
    EffectKeepsCaptures(e, n2);
  }

  lemma LastEnds(t: Denylist, own: nat, snapshot: Snapshot, jti: string)
    requires |t.captures| == 1 && own < |t.lists| && jti != ""
    ensures var e := EndRefresh(t, own, snapshot);
            e.captures == [] && (jti in e.revoked <==> jti in snapshot.revoked || JtiRevoked(jti) in t.lists[own])
  {
    var base := Denylist(snapshot.disabled - {""}, snapshot.revoked - {""}, t.lists, t.captures[..0]);
    EffectKeepsCaptures(base, t.lists[own]);
    ReplayedJtis(base, t.lists[own], jti);
  }

  /** If the inner refresh ends first, the outer one then forgets exactly what was delivered
      while both ran and its own snapshot lacks. */
  lemma NestedRefreshes(d: Denylist, n0: seq<Note>, n1: seq<Note>, n2: seq<Note>, outer: Snapshot, inner: Snapshot, jti: string)
    requires d.captures == [] && jti != "" && forall n | n in n0 + n1 + n2 :: ValueOf(n) != ""
    ensures var o, a := Overlapping(d, n0, n1), |d.lists|;
            && |o.captures| == 2 && |o.lists| == a + 2
            && var t := ApplyAll(EndRefresh(o, a + 1, inner), n2);
               && |t.captures| == 1 && |t.lists| == a + 2
               && var e := EndRefresh(t, a, outer);
                  e.captures == [] && (jti in e.revoked <==> jti in outer.revoked || JtiRevoked(jti) in n0 + n2)
  {
    var o, a := Overlapping(d, n0, n1), |d.lists|;
    NotesAreNamed(n0, n1, n2);
    OverlappingLists(d, n0, n1);
    FirstEnds(o, a + 1, inner, n2, a);
    LastEnds(ApplyAll(EndRefresh(o, a + 1, inner), n2), a, outer, jti);
  }

  /** If the outer refresh ends first, it pops the inner one's list: the inner then keeps
      exactly what its own snapshot has and what was delivered while both ran. */
  lemma CrossedRefreshes(d: Denylist, n0: seq<Note>, n1: seq<Note>, n2: seq<Note>, outer: Snapshot, inner: Snapshot, jti: string)
    requires d.captures == [] && jti != "" && forall n | n in n0 + n1 + n2 :: ValueOf(n) != ""
    ensures var o, a := Overlapping(d, n0, n1), |d.lists|;
            && |o.captures| == 2 && |o.lists| == a + 2
            && var t := ApplyAll(EndRefresh(o, a, outer), n2);
               && |t.captures| == 1 && |t.lists| == a + 2
               && var e := EndRefresh(t, a + 1, inner);
                  e.captures == [] && (jti in e.revoked <==> jti in inner.revoked || JtiRevoked(jti) in n1)
  {
    var o, a := Overlapping(d, n0, n1), |d.lists|;
    NotesAreNamed(n0, n1, n2);
    OverlappingLists(d, n0, n1);
    FirstEnds(o, a, outer, n2, a);
    LastEnds(ApplyAll(EndRefresh(o, a, outer), n2), a + 1, inner, jti);
  }

  lemma NotesAreNamed(n0: seq<Note>, n1: seq<Note>, n2: seq<Note>)
    requires forall n | n in n0 + n1 + n2 :: ValueOf(n) != ""
    ensures forall n | n in n0 + n1 :: ValueOf(n) != ""
    ensures forall n | n in n2 :: ValueOf(n) != ""
  {
    assert forall n | n in n0 + n1 :: n in n0 + n1 + n2;
    assert forall n | n in n2 :: n in n0 + n1 + n2;
  }
}
