/** Authorization decisions and the denial cache of libs/holon_common/authz.py. A call may
    wait on the engines between its lookup and its store, and other calls step meanwhile. */
module DenialCache {
  import opened Wrappers

  // ---------------------------------------------------------------- the decision

  datatype Principal = Principal(urn: string, tenant: string, displayName: string, onBehalfOf: Option<string>, country: Option<string>)

  datatype Request = Request(resourceType: string, resourceUrn: string, permission: string, attributes: Option<map<string, string>>)

  datatype Decision = Decision(allowed: bool, reason: string)

  /** Fixed answers of the relationship engine and of the policy engine. */
  datatype Engines = Engines(
    rebac: (string, string, string, string) -> bool,
    abac: (Option<string>, map<string, string>) -> bool)

  datatype Key = Key(
    urn: string,
    onBehalfOf: Option<string>,
    country: Option<string>,
    resourceType: string,
    resourceUrn: string,
    permission: string,
    attributes: map<string, string>)

  function AttributesOf(r: Request): map<string, string> {
    if r.attributes.Some? then r.attributes.value else map[]
  }

  function CacheKey(p: Principal, r: Request): Key {
    Key(p.urn, p.onBehalfOf, p.country, r.resourceType, r.resourceUrn, r.permission, AttributesOf(r))
  }

  /** Relationship grants first, the mandant's too under delegation; policy can only restrict. */
  function Evaluate(e: Engines, p: Principal, r: Request): Decision {
    if !e.rebac(p.urn, r.resourceType, r.resourceUrn, r.permission) then
      Decision(false, "rebac_denied: " + p.urn + " has no '" + r.permission + "' on " + r.resourceUrn)
    else if p.onBehalfOf.Some? && !e.rebac(p.onBehalfOf.value, r.resourceType, r.resourceUrn, r.permission) then
      Decision(false, "rebac_denied: " + p.urn + " acts on behalf of " + p.onBehalfOf.value
                      + ", which has no '" + r.permission + "' on " + r.resourceUrn)
    else if !e.abac(p.country, AttributesOf(r)) then
      Decision(false, "abac_denied: policy restricted '" + r.permission + "' on " + r.resourceUrn)
    else Decision(true, "granted: " + p.urn + " -> " + r.permission + " on " + r.resourceUrn)
  }

  /** Equal keys give equal decisions, so a cached denial stands for every request with its key. */
  lemma KeyDeterminesDecision(e: Engines, p: Principal, r: Request, q: Principal, t: Request)
    requires CacheKey(p, r) == CacheKey(q, t)
    ensures Evaluate(e, p, r) == Evaluate(e, q, t)
  {
  }

  /** The grants and the policy as the engines answer: the actor's grant, its mandant's if it
      acts for one, and the policy for the actor's country. */
  predicate HasGrants(e: Engines, p: Principal, r: Request) {
    && e.rebac(p.urn, r.resourceType, r.resourceUrn, r.permission)
    && (p.onBehalfOf.Some? ==> e.rebac(p.onBehalfOf.value, r.resourceType, r.resourceUrn, r.permission))
  }

  predicate Permitted(e: Engines, p: Principal, r: Request) {
    HasGrants(e, p, r) && e.abac(p.country, if r.attributes.Some? then r.attributes.value else map[])
  }

  /** A request is allowed exactly when it has the grants and the policy allows it, and a
      denial blames the policy only where nothing but the policy stands in the way. */
  lemma AllowedIff(e: Engines, p: Principal, r: Request)
    ensures var d := Evaluate(e, p, r);
            && (d.allowed <==> Permitted(e, p, r))
            && (!d.allowed ==> |d.reason| > 5 && (d.reason[..5] == "abac_" <==> HasGrants(e, p, r)) && (d.reason[..5] == "rebac" <==> !HasGrants(e, p, r)))
  {
    var d := Evaluate(e, p, r);
    if !d.allowed {
      assert HasGrants(e, p, r) ==> d.reason[..5] == "abac_";
      assert !HasGrants(e, p, r) ==> d.reason[..5] == "rebac";
      assert "abac_"[0] != "rebac"[0];
    }
  }

  /** An agent gets only what it would get on its own and its mandant has the grant for. The
      policy is asked about the agent: of what the agent gets, its mandant gets on its own
      exactly what the policy allows the mandant too, so a decision is the intersection of
      both unless the policy alone is in the mandant's way. */
  lemma DelegationIntersectsGrants(e: Engines, p: Principal, r: Request, mandant: Principal)
    requires p.onBehalfOf == Some(mandant.urn) && mandant.onBehalfOf.None?
    ensures var alone, granted := Evaluate(e, p.(onBehalfOf := None), r).allowed, e.rebac(mandant.urn, r.resourceType, r.resourceUrn, r.permission);
            var policy := e.abac(mandant.country, AttributesOf(r));
            && (Evaluate(e, p, r).allowed <==> alone && granted)
            && (Evaluate(e, p, r).allowed ==> (Evaluate(e, mandant, r).allowed <==> policy))
            && ((Evaluate(e, p, r).allowed <==> alone && Evaluate(e, mandant, r).allowed) <==> (alone && granted ==> policy))
  {
  }

  // ---------------------------------------------------------------- the cache as a state machine

  /** A finished evaluation: its key, when it started and what it decided. */
  datatype Evaluation = Evaluation(key: Key, started: int, decision: Decision)

  datatype Entry = Entry(key: Key, decision: Decision, expires: int)

  /** `entries` is the ordered dictionary, least recently used first; `uses` records every
      hit and store, and `finished` every evaluation that returned. */
  datatype State = State(
    ttl: nat,
    bound: nat,
    clock: int,
    entries: seq<Entry>,
    waiting: map<nat, (Key, int)>,
    finished: set<Evaluation>,
    uses: seq<Key>)

  datatype Event =
    | Tick(elapsed: nat)
    | Begin(call: nat, key: Key)
    | Finish(call: nat, decision: Decision)
    | Abandon(call: nat)
    | Invalidate(urn: string)
    | Clear

  function Find(entries: seq<Entry>, key: Key): Option<Entry> {
    if entries == [] then None
    else if entries[0].key == key then Some(entries[0])
    else Find(entries[1..], key)
  }

  function Without(entries: seq<Entry>, key: Key): seq<Entry> {
    if entries == [] then []
    else if entries[0].key == key then Without(entries[1..], key)
    else [entries[0]] + Without(entries[1..], key)
  }

  predicate Mentions(key: Key, urn: string) {
    key.urn == urn || key.onBehalfOf == Some(urn)
  }

  function Purge(entries: seq<Entry>, urn: string): seq<Entry> {
    if entries == [] then []
    else if Mentions(entries[0].key, urn) then Purge(entries[1..], urn)
    else [entries[0]] + Purge(entries[1..], urn)
  }

  /** Drop from the least recently used end down to the bound. */
  function Evict(entries: seq<Entry>, bound: nat): seq<Entry> {
    if |entries| <= bound then entries else entries[|entries| - bound..]
  }

  /** The decision a call gets from the cache, if it does. */
  function Answer(s: State, key: Key): Option<Decision> {
    match Find(s.entries, key)
    case Some(entry) => if s.clock < entry.expires then Some(entry.decision) else None
    case None => None
  }

  predicate Enabled(s: State, e: Event) {
    match e
    case Begin(call, _) => call !in s.waiting
    case Finish(call, _) => call in s.waiting
    case Abandon(call) => call in s.waiting
    case _ => true
  }

  function Next(s: State, e: Event): State
    requires Enabled(s, e)
  {
    match e
    case Tick(elapsed) => s.(clock := s.clock + elapsed)
    case Begin(call, key) =>
      var cached := Find(s.entries, key);
      if cached.Some? && s.clock < cached.value.expires then
        s.(entries := Without(s.entries, key) + [cached.value], uses := s.uses + [key])
      else s.(entries := Without(s.entries, key), waiting := s.waiting[call := (key, s.clock)])
    case Finish(call, decision) =>
      var (key, started) := s.waiting[call];
      var done := s.(waiting := s.waiting - {call}, finished := s.finished + {Evaluation(key, started, decision)});
      if decision.allowed then done
      else done.(entries := Evict(Without(s.entries, key) + [Entry(key, decision, started + s.ttl)], s.bound), uses := s.uses + [key])
    case Abandon(call) => s.(waiting := s.waiting - {call})
    case Invalidate(urn) => s.(entries := Purge(s.entries, urn))
    case Clear => s.(entries := [])
  }

  function Initial(ttl: nat, bound: nat): State {
    State(ttl, bound, 0, [], map[], {}, [])
  }

  // ---------------------------------------------------------------- the code

  class PermissionClient {
    const ttl: nat
    const bound: nat
    var entries: seq<Entry>
    ghost var clock: int
    ghost var waiting: map<nat, (Key, int)>
    ghost var finished: set<Evaluation>
    ghost var uses: seq<Key>

    ghost function View(): State
      reads this
    {
      State(ttl, bound, clock, entries, waiting, finished, uses)
    }

    constructor (ttl: nat, bound: nat)
      ensures View() == Initial(ttl, bound)
    {
      this.ttl, this.bound, entries := ttl, bound, [];
      clock, waiting, finished, uses := 0, map[], {}, [];
    }

    /** The part of `authorize` before its await. Without an answer the call waits. */
    method LookupDecision(key: Key, now: int, ghost call: nat) returns (cached: Option<Decision>)
      requires now == clock && Enabled(View(), Begin(call, key))
      modifies this
      ensures View() == Next(old(View()), Begin(call, key))
      ensures cached == Answer(old(View()), key)
    {
      var found := Find(entries, key);
      if found.Some? {
        entries := Without(entries, key);
        if now < found.value.expires {
          entries := entries + [found.value];
          uses := uses + [key];
          return Some(found.value.decision);
        }
      } else {
        NothingWithout(entries, key);
      }
      waiting := waiting[call := (key, now)];
      return None;
    }

    /** The part after it: keep a denial, then evict. */
    method StoreDecision(key: Key, decision: Decision, started: int, ghost call: nat)
      requires Enabled(View(), Finish(call, decision)) && waiting[call] == (key, started)
      modifies this
      ensures View() == Next(old(View()), Finish(call, decision))
    {
      waiting, finished := waiting - {call}, finished + {Evaluation(key, started, decision)};
      if decision.allowed {
        return;
      }
      entries, uses := Without(entries, key) + [Entry(key, decision, started + ttl)], uses + [key];
      EvictOldest();
    }

    method EvictOldest()
      modifies this`entries
      ensures entries == Evict(old(entries), bound)
    {
      ghost var full := entries;
      while |entries| > bound
        invariant |entries| <= |full| && entries == full[|full| - |entries|..]
        invariant |entries| < bound ==> entries == full
      {
        entries := entries[1..];
      }
    }

    method InvalidatePrincipal(urn: string) returns (purged: nat)
      modifies this`entries
      ensures View() == Next(old(View()), Invalidate(urn))
      ensures purged == |old(entries)| - |entries|
    {
      var kept: seq<Entry> := [];
      for n := 0 to |entries|
        invariant entries == old(entries)
        invariant kept + Purge(entries[n..], urn) == Purge(entries, urn) && |kept| <= n
      {
        if !Mentions(entries[n].key, urn) {
          assert kept + ([entries[n]] + Purge(entries[n + 1..], urn)) == (kept + [entries[n]]) + Purge(entries[n + 1..], urn);
          kept := kept + [entries[n]];
        }
      }
      purged := |entries| - |kept|;
      entries := kept;
    }
  }

  lemma {:induction false} NothingWithout(entries: seq<Entry>, key: Key)
    requires Find(entries, key).None?
    ensures Without(entries, key) == entries
  {
    if entries != [] {
      NothingWithout(entries[1..], key);
    }
  }

  // ---------------------------------------------------------------- invariants

  /** The index of the last use of a key, or -1. */
  function LastUse(uses: seq<Key>, key: Key): int {
    if uses == [] then -1
    else if uses[|uses| - 1] == key then |uses| - 1
    else LastUse(uses[..|uses| - 1], key)
  }

  /** Keys are distinct and ordered by when they were last used. */
  ghost predicate Recency(entries: seq<Entry>, uses: seq<Key>) {
    forall i, j :: 0 <= i < j < |entries| ==> LastUse(uses, entries[i].key) < LastUse(uses, entries[j].key)
  }

  /** A denial from a finished evaluation of the entry's own key. */
  ghost predicate Backed(entry: Entry, finished: set<Evaluation>, ttl: nat) {
    && !entry.decision.allowed
    && Evaluation(entry.key, entry.expires - ttl, entry.decision) in finished
  }

  ghost predicate AllBacked(entries: seq<Entry>, finished: set<Evaluation>, ttl: nat) {
    forall x | x in entries :: Backed(x, finished, ttl)
  }

  ghost predicate Inv(s: State) {
    && |s.entries| <= s.bound
    && Recency(s.entries, s.uses)
    && AllBacked(s.entries, s.finished, s.ttl)
    && (forall v | v in s.finished :: v.started <= s.clock)
    && (forall c | c in s.waiting :: s.waiting[c].1 <= s.clock)
  }

  lemma {:induction false} FindMember(entries: seq<Entry>, key: Key)
    ensures Find(entries, key).Some? ==> Find(entries, key).value in entries && Find(entries, key).value.key == key
  {
    if entries != [] && entries[0].key != key {
      FindMember(entries[1..], key);
    }
  }

  lemma {:induction false} WithoutMembers(entries: seq<Entry>, key: Key)
    ensures |Without(entries, key)| <= |entries|
    ensures forall x :: x in Without(entries, key) <==> x in entries && x.key != key
    ensures (exists x :: x in entries && x.key == key) ==> |Without(entries, key)| < |entries|
  {
    if entries != [] {
      WithoutMembers(entries[1..], key);
      assert forall x :: x in entries <==> x == entries[0] || x in entries[1..];
    }
  }

  lemma {:induction false} PurgeMembers(entries: seq<Entry>, urn: string)
    ensures |Purge(entries, urn)| <= |entries|
    ensures forall x :: x in Purge(entries, urn) <==> x in entries && !Mentions(x.key, urn)
  {
    if entries != [] {
      PurgeMembers(entries[1..], urn);
      assert forall x :: x in entries <==> x == entries[0] || x in entries[1..];
    }
  }

  lemma RecencyCons(first: Entry, rest: seq<Entry>, uses: seq<Key>)
    requires Recency(rest, uses)
    requires forall x | x in rest :: LastUse(uses, first.key) < LastUse(uses, x.key)
    ensures Recency([first] + rest, uses)
  {
    var all := [first] + rest;
    forall i, j | 0 <= i < j < |all| ensures LastUse(uses, all[i].key) < LastUse(uses, all[j].key) {
      assert all[j] == rest[j - 1] && rest[j - 1] in rest;
      if i > 0 {
        assert all[i] == rest[i - 1];
      }
    }
  }

  lemma {:induction false} WithoutRecency(entries: seq<Entry>, key: Key, uses: seq<Key>)
    requires Recency(entries, uses)
    ensures Recency(Without(entries, key), uses)
  {
    if entries != [] {
      RecencyTail(entries, uses);
      WithoutRecency(entries[1..], key, uses);
      WithoutMembers(entries[1..], key);
      if entries[0].key != key {
        RecencyCons(entries[0], Without(entries[1..], key), uses);
      }
    }
  }

  lemma {:induction false} PurgeRecency(entries: seq<Entry>, urn: string, uses: seq<Key>)
    requires Recency(entries, uses)
    ensures Recency(Purge(entries, urn), uses)
  {
    if entries != [] {
      RecencyTail(entries, uses);
      PurgeRecency(entries[1..], urn, uses);
      PurgeMembers(entries[1..], urn);
      if !Mentions(entries[0].key, urn) {
        RecencyCons(entries[0], Purge(entries[1..], urn), uses);
      }
    }
  }

  lemma RecencyTail(entries: seq<Entry>, uses: seq<Key>)
    requires Recency(entries, uses) && entries != []
    ensures Recency(entries[1..], uses)
    ensures forall x | x in entries[1..] :: LastUse(uses, entries[0].key) < LastUse(uses, x.key)
  {
    var rest := entries[1..];
    forall i, j | 0 <= i < j < |rest| ensures LastUse(uses, rest[i].key) < LastUse(uses, rest[j].key) {
      assert rest[i] == entries[i + 1] && rest[j] == entries[j + 1];
    }
    forall x | x in rest ensures LastUse(uses, entries[0].key) < LastUse(uses, x.key) {
      var i :| 0 <= i < |rest| && rest[i] == x;
      assert entries[i + 1] == x;
    }
  }

  lemma LastUseSnoc(uses: seq<Key>, used: Key, key: Key)
    ensures LastUse(uses, key) < |uses|
    ensures LastUse(uses + [used], key) == if key == used then |uses| else LastUse(uses, key)
  {
    assert (uses + [used])[..|uses|] == uses;
    LastUseBelow(uses, key);
  }

  lemma {:induction false} LastUseBelow(uses: seq<Key>, key: Key)
    ensures LastUse(uses, key) < |uses|
  {
    if uses != [] && uses[|uses| - 1] != key {
      LastUseBelow(uses[..|uses| - 1], key);
    }
  }

  /** Moving a key to the end keeps the order of last uses. */
  lemma UseMovesToEnd(entries: seq<Entry>, uses: seq<Key>, entry: Entry)
    requires Recency(entries, uses)
    ensures Recency(Without(entries, entry.key) + [entry], uses + [entry.key])
  {
    var rest := Without(entries, entry.key);
    WithoutRecency(entries, entry.key, uses);
    WithoutMembers(entries, entry.key);
    var all := rest + [entry];
    forall i, j | 0 <= i < j < |all|
      ensures LastUse(uses + [entry.key], all[i].key) < LastUse(uses + [entry.key], all[j].key)
    {
      LastUseSnoc(uses, entry.key, all[i].key);
      LastUseSnoc(uses, entry.key, all[j].key);
      assert all[i] == rest[i] && rest[i] in rest;
      if j < |rest| {
        assert all[j] == rest[j] && rest[j] in rest;
      }
    }
  }

  lemma EvictRecency(entries: seq<Entry>, uses: seq<Key>, bound: nat)
    requires Recency(entries, uses)
    ensures Recency(Evict(entries, bound), uses)
    ensures forall x | x in Evict(entries, bound) :: x in entries
  {
    var out := Evict(entries, bound);
    var shift := |entries| - |out|;
    forall i, j | 0 <= i < j < |out| ensures LastUse(uses, out[i].key) < LastUse(uses, out[j].key) {
      assert out[i] == entries[i + shift] && out[j] == entries[j + shift];
    }
  }

  lemma BeginInv(s: State, call: nat, key: Key)
    requires Inv(s) && Enabled(s, Begin(call, key))
    ensures Inv(Next(s, Begin(call, key)))
  {
    FindMember(s.entries, key);
    WithoutMembers(s.entries, key);
    if Answer(s, key).Some? {
      UseMovesToEnd(s.entries, s.uses, Find(s.entries, key).value);
    } else {
      WithoutRecency(s.entries, key, s.uses);
    }
  }

  lemma StoreInv(s: State, entry: Entry)
    requires Recency(s.entries, s.uses) && AllBacked(s.entries, s.finished, s.ttl) && Backed(entry, s.finished, s.ttl)
    ensures var out := Evict(Without(s.entries, entry.key) + [entry], s.bound);
            && |out| <= s.bound
            && Recency(out, s.uses + [entry.key])
            && AllBacked(out, s.finished, s.ttl)
  {
    WithoutMembers(s.entries, entry.key);
    UseMovesToEnd(s.entries, s.uses, entry);
    EvictRecency(Without(s.entries, entry.key) + [entry], s.uses + [entry.key], s.bound);
  }

  lemma FinishInv(s: State, call: nat, decision: Decision)
    requires Inv(s) && Enabled(s, Finish(call, decision))
    ensures Inv(Next(s, Finish(call, decision)))
  {
    if !decision.allowed {
      var (key, started) := s.waiting[call];
      StoreInv(s.(finished := s.finished + {Evaluation(key, started, decision)}), Entry(key, decision, started + s.ttl));
    }
  }

  lemma NextInv(s: State, e: Event)
    requires Inv(s) && Enabled(s, e)
    ensures Inv(Next(s, e))
  {
    match e
    case Begin(call, key) => BeginInv(s, call, key);
    case Finish(call, decision) => FinishInv(s, call, decision);
    case Invalidate(urn) =>
      PurgeMembers(s.entries, urn);
      PurgeRecency(s.entries, urn, s.uses);
    case _ =>
  }

  ghost predicate Runs(s: State, events: seq<Event>)
    decreases |events|
  {
    events == [] || (Enabled(s, events[0]) && Runs(Next(s, events[0]), events[1..]))
  }

  ghost function After(s: State, events: seq<Event>): State
    requires Runs(s, events)
    decreases |events|
  {
    if events == [] then s else After(Next(s, events[0]), events[1..])
  }

  lemma {:induction false} RunInv(s: State, events: seq<Event>)
    requires Inv(s) && Runs(s, events)
    ensures Inv(After(s, events)) && After(s, events).ttl == s.ttl && After(s, events).bound == s.bound
    decreases |events|
  {
    if events != [] {
      NextInv(s, events[0]);
      RunInv(Next(s, events[0]), events[1..]);
    }
  }

  /** Over every interleaving: the cache stays within its bound, what it answers is a denial
      and never an allow, and that denial is the decision of an evaluation of the same key
      started less than the time-to-live ago. */
  lemma CachedAnswerIsRecentDenial(ttl: nat, bound: nat, events: seq<Event>, key: Key)
    requires Runs(Initial(ttl, bound), events)
    ensures var s := After(Initial(ttl, bound), events);
            && |s.entries| <= bound
            && (Answer(s, key).Some? ==>
                  && !Answer(s, key).value.allowed
                  && exists started :: && s.clock - ttl < started <= s.clock
                                       && Evaluation(key, started, Answer(s, key).value) in s.finished)
  {
    RunInv(Initial(ttl, bound), events);
    var s := After(Initial(ttl, bound), events);
    FindMember(s.entries, key);
    if Answer(s, key).Some? {
      var entry := Find(s.entries, key).value;
      assert Backed(entry, s.finished, ttl);
      assert Evaluation(key, entry.expires - ttl, Answer(s, key).value) in s.finished;
    }
  }

  /** Every evaluation that returned decided what the engines decide of its key. */
  ghost predicate Decided(e: Engines, s: State) {
    forall x | x in s.finished :: forall p, r | CacheKey(p, r) == x.key :: x.decision == Evaluate(e, p, r)
  }

  /** Runs whose calls all ask these engines. */
  ghost predicate RunsBy(e: Engines, s: State, events: seq<Event>)
    decreases |events|
  {
    events == []
    || (&& Enabled(s, events[0])
        && (events[0].Finish? ==>
              forall p, r | CacheKey(p, r) == s.waiting[events[0].call].0 :: events[0].decision == Evaluate(e, p, r))
        && RunsBy(e, Next(s, events[0]), events[1..]))
  }

  lemma {:induction false} RunsByDecided(e: Engines, s: State, events: seq<Event>)
    requires Decided(e, s) && RunsBy(e, s, events)
    ensures Runs(s, events) && Decided(e, After(s, events))
    decreases |events|
  {
    if events != [] {
      RunsByDecided(e, Next(s, events[0]), events[1..]);
    }
  }

  /** With unchanging engines the cache is not seen: what it answers for a key is what an
      evaluation of any request with that key would decide. */
  lemma CachedAnswerIsEvaluation(e: Engines, ttl: nat, bound: nat, events: seq<Event>, p: Principal, r: Request)
    requires RunsBy(e, Initial(ttl, bound), events)
    ensures Runs(Initial(ttl, bound), events)
    ensures var answer := Answer(After(Initial(ttl, bound), events), CacheKey(p, r));
            answer.Some? ==> answer.value == Evaluate(e, p, r)
  {
    RunsByDecided(e, Initial(ttl, bound), events);
    CachedAnswerIsRecentDenial(ttl, bound, events, CacheKey(p, r));
  }

  /** So what a call returns, from the cache or from its own evaluation, is an allow exactly
      when its request has the grants and the policy allows it. */
  lemma CallsDecideRightly(e: Engines, ttl: nat, bound: nat, events: seq<Event>, p: Principal, r: Request)
    requires RunsBy(e, Initial(ttl, bound), events)
    ensures Runs(Initial(ttl, bound), events)
    ensures var s, key := After(Initial(ttl, bound), events), CacheKey(p, r);
            && (Answer(s, key).Some? ==> (Answer(s, key).value.allowed <==> Permitted(e, p, r)))
            && (forall call, decision | call in s.waiting && s.waiting[call].0 == key && RunsBy(e, s, [Finish(call, decision)]) ::
                  decision.allowed <==> Permitted(e, p, r))
  {
    CachedAnswerIsEvaluation(e, ttl, bound, events, p, r);
    AllowedIff(e, p, r);
    var s := After(Initial(ttl, bound), events);
    forall call, decision | call in s.waiting && s.waiting[call].0 == CacheKey(p, r) && RunsBy(e, s, [Finish(call, decision)])
      ensures decision.allowed <==> Permitted(e, p, r)
    {
      assert [Finish(call, decision)][0] == Finish(call, decision);
      assert decision == Evaluate(e, p, r);
    }
  }

  /** Such runs exist: what `Evaluate` decides, it decides for every request with the key. */
  lemma DecisionFitsKey(e: Engines, p: Principal, r: Request)
    ensures forall q, t | CacheKey(q, t) == CacheKey(p, r) :: Evaluate(e, p, r) == Evaluate(e, q, t)
  {
    forall q, t | CacheKey(q, t) == CacheKey(p, r)
      ensures Evaluate(e, p, r) == Evaluate(e, q, t)
    {
      KeyDeterminesDecision(e, p, r, q, t);
    }
  }

  /** What a store evicts was used less recently than everything it keeps. */
  lemma EvictsLeastRecentlyUsed(s: State, call: nat, decision: Decision, gone: Entry, kept: Entry)
    requires Inv(s) && Enabled(s, Finish(call, decision))
    requires gone in s.entries && gone.key != s.waiting[call].0
    requires gone !in Next(s, Finish(call, decision)).entries && kept in Next(s, Finish(call, decision)).entries
    ensures var uses := Next(s, Finish(call, decision)).uses; LastUse(uses, gone.key) < LastUse(uses, kept.key)
  {
    var (key, started) := s.waiting[call];
    var entry := Entry(key, decision, started + s.ttl);
    WithoutMembers(s.entries, key);
    UseMovesToEnd(s.entries, s.uses, entry);
    assert gone in Without(s.entries, key);
    EvictOrder(Without(s.entries, key) + [entry], s.uses + [key], s.bound, gone, kept);
  }

  lemma EvictOrder(all: seq<Entry>, uses: seq<Key>, bound: nat, gone: Entry, kept: Entry)
    requires Recency(all, uses)
    requires gone in all && gone !in Evict(all, bound) && kept in Evict(all, bound)
    ensures LastUse(uses, gone.key) < LastUse(uses, kept.key)
  {
    var out := Evict(all, bound);
    var shift := |all| - |out|;
    forall n | shift <= n < |all| ensures all[n] in out {
      assert out[n - shift] == all[n];
    }
    var i :| 0 <= i < |all| && all[i] == gone;
    var j :| 0 <= j < |out| && out[j] == kept;
    assert out[j] == all[j + shift];
  }

  // ---------------------------------------------------------------- what each event leaves, key by key

  lemma {:induction false} FindWithout(entries: seq<Entry>, gone: Key, key: Key)
    ensures Find(Without(entries, gone), key) == if key == gone then None else Find(entries, key)
  {
    if entries != [] {
      FindWithout(entries[1..], gone, key);
    }
  }

  lemma {:induction false} FindPurged(entries: seq<Entry>, urn: string, key: Key)
    ensures Find(Purge(entries, urn), key) == if key.urn == urn || key.onBehalfOf == Some(urn) then None else Find(entries, key)
  {
    if entries != [] {
      FindPurged(entries[1..], urn, key);
    }
  }

  lemma {:induction false} FindSnoc(entries: seq<Entry>, last: Entry, key: Key)
    requires Find(entries, last.key).None?
    ensures Find(entries + [last], key) == if key == last.key then Some(last) else Find(entries, key)
  {
    if entries != [] {
      assert (entries + [last])[1..] == entries[1..] + [last];
      FindSnoc(entries[1..], last, key);
    }
  }

  /** After a lookup: an answered entry has moved to the end of the cache, and one that no longer
      answers is gone while the call waits with the time it asked at. */
  ghost predicate Asked(s: State, t: State, call: nat, key: Key) {
    && t.clock == s.clock
    && (forall other | other != key :: Find(t.entries, other) == Find(s.entries, other))
    && if Answer(s, key).Some? then
         t.waiting == s.waiting && t.entries != [] && Find(s.entries, key) == Find(t.entries, key) == Some(t.entries[|t.entries| - 1])
       else t.waiting == s.waiting[call := (key, s.clock)] && Find(t.entries, key).None?
  }

  lemma AskedIs(s: State, call: nat, key: Key)
    requires Enabled(s, Begin(call, key))
    ensures Asked(s, Next(s, Begin(call, key)), call, key)
  {
    var t := Next(s, Begin(call, key));
    FindMember(s.entries, key);
    FindWithout(s.entries, key, key);
    forall other | other != key
      ensures Find(t.entries, other) == Find(s.entries, other)
    {
      FindWithout(s.entries, key, other);
      if Answer(s, key).Some? {
        FindSnoc(Without(s.entries, key), Find(s.entries, key).value, other);
      }
    }
    if Answer(s, key).Some? {
      FindSnoc(Without(s.entries, key), Find(s.entries, key).value, key);
    }
  }

  /** Nothing outlives the time-to-live, counted from now. */
  lemma ExpiresInTime(s: State, elapsed: nat, key: Key)
    requires Inv(s) && elapsed >= s.ttl
    ensures Answer(Next(s, Tick(elapsed)), key).None?
  {
    FindMember(s.entries, key);
    if Find(s.entries, key).Some? {
      assert Backed(Find(s.entries, key).value, s.finished, s.ttl);
    }
  }

  /** What each event does in any reachable state: time alone makes every entry stop answering,
      a lookup leaves its key answered or waiting, an invalidation removes exactly the entries
      that name the principal as actor or mandant, a clearing all; a call that was abandoned or
      stored waits no more. */
  lemma EventLeaves(ttl: nat, bound: nat, events: seq<Event>, e: Event, key: Key)
    requires Runs(Initial(ttl, bound), events) && Enabled(After(Initial(ttl, bound), events), e)
    ensures var s := After(Initial(ttl, bound), events);
            var t := Next(s, e);
            var was, now := Find(s.entries, key), Find(t.entries, key);
            match e
            case Tick(elapsed) => now == was && t.waiting == s.waiting && (elapsed >= ttl ==> Answer(t, key).None?)
            case Begin(call, asked) => Asked(s, t, call, asked)
            case Finish(call, decision) => t.waiting == s.waiting - {call} && (decision.allowed ==> now == was)
            case Abandon(call) => now == was && t.waiting == s.waiting - {call}
            case Invalidate(urn) => t.waiting == s.waiting && now == if key.urn == urn || key.onBehalfOf == Some(urn) then None else was
            case Clear => t.waiting == s.waiting && now.None?
  {
    RunInv(Initial(ttl, bound), events);
    var s := After(Initial(ttl, bound), events);
    match e
    case Tick(elapsed) => if elapsed >= ttl { ExpiresInTime(s, elapsed, key); }
    case Begin(call, asked) => AskedIs(s, call, asked);
    case Invalidate(urn) => FindPurged(s.entries, urn, key);
    case _ =>
  }

  /** A start of an evaluation about the principal: at `since` or later, or that of a call
      that was in flight, `flying`. */
  ghost predicate Accounted(key: Key, started: int, since: int, flying: map<nat, (Key, int)>) {
    started >= since || exists c | c in flying :: flying[c] == (key, started)
  }

  ghost predicate FreshOrFlying(s: State, urn: string, since: int, flying: map<nat, (Key, int)>) {
    && (forall x | x in s.entries && Mentions(x.key, urn) :: Accounted(x.key, x.expires - s.ttl, since, flying))
    && (forall c | c in s.waiting && Mentions(s.waiting[c].0, urn) :: Accounted(s.waiting[c].0, s.waiting[c].1, since, flying))
    && s.clock >= since
  }

  lemma BeginStaysFresh(s: State, call: nat, key: Key, urn: string, since: int, flying: map<nat, (Key, int)>)
    requires Enabled(s, Begin(call, key)) && FreshOrFlying(s, urn, since, flying)
    ensures FreshOrFlying(Next(s, Begin(call, key)), urn, since, flying)
  {
    FindMember(s.entries, key);
    WithoutMembers(s.entries, key);
    var s' := Next(s, Begin(call, key));
    forall x | x in s'.entries
      ensures x in s.entries
    {
    }
  }

  lemma FinishStaysFresh(s: State, call: nat, decision: Decision, urn: string, since: int, flying: map<nat, (Key, int)>)
    requires Enabled(s, Finish(call, decision)) && FreshOrFlying(s, urn, since, flying)
    ensures FreshOrFlying(Next(s, Finish(call, decision)), urn, since, flying)
  {
    var (key, started) := s.waiting[call];
    WithoutMembers(s.entries, key);
    var s', entry := Next(s, Finish(call, decision)), Entry(key, decision, started + s.ttl);
    forall x | x in s'.entries
      ensures x in s.entries || x == entry
    {
    }
    assert Mentions(key, urn) ==> Accounted(key, started, since, flying);
  }

  lemma {:induction false} StaysFreshOrFlying(s: State, events: seq<Event>, urn: string, since: int, flying: map<nat, (Key, int)>)
    requires Runs(s, events) && FreshOrFlying(s, urn, since, flying)
    ensures FreshOrFlying(After(s, events), urn, since, flying) && After(s, events).ttl == s.ttl
    decreases |events|
  {
    if events != [] {
      match events[0] {
        case Begin(call, key) => BeginStaysFresh(s, call, key, urn, since, flying);
        case Finish(call, decision) => FinishStaysFresh(s, call, decision, urn, since, flying);
        case Invalidate(other) => PurgeMembers(s.entries, other);
        case _ =>
      }
      StaysFreshOrFlying(Next(s, events[0]), events[1..], urn, since, flying);
    }
  }

  /** The cache answers a denial about the principal whose evaluation began before `since`. */
  ghost predicate AnswersOlder(s: State, urn: string, since: int) {
    exists key :: Mentions(key, urn) && Answer(s, key).Some? && Find(s.entries, key).value.expires - s.ttl < since
  }

  /** Some run from here ends in a state whose cache does. */
  ghost predicate MayAnswerOlder(s: State, urn: string, since: int) {
    exists events :: Runs(s, events) && AnswersOlder(After(s, events), urn, since)
  }

  /** A call about the principal, begun earlier and still within its time-to-live, is waiting. */
  ghost predicate InFlight(s: State, call: nat, urn: string) {
    call in s.waiting && Mentions(s.waiting[call].0, urn) && s.waiting[call].1 < s.clock < s.waiting[call].1 + s.ttl
  }

  /** After an invalidation some run answers a denial about the principal that was begun
      before it, if and only if the cache can hold an entry and such a call is in flight. */
  lemma InvalidationLeaksIff(s: State, urn: string)
    requires Inv(s)
    ensures MayAnswerOlder(Next(s, Invalidate(urn)), urn, s.clock) <==> s.bound > 0 && exists c :: InFlight(s, c, urn)
  {
    var purged := Next(s, Invalidate(urn));
    if s.bound > 0 && exists c :: InFlight(s, c, urn) {
      var c :| InFlight(s, c, urn);
      var denial := Decision(false, "");
      InFlightDenialOutlivesInvalidation(s, c, denial, urn);
      var s' := Next(purged, Finish(c, denial));
      assert [Finish(c, denial)][1..] == [] && Runs(s', []);
      assert Runs(purged, [Finish(c, denial)]) && After(purged, [Finish(c, denial)]) == s';
      assert AnswersOlder(s', urn, s.clock);
    }
    forall events | Runs(purged, events) && AnswersOlder(After(purged, events), urn, s.clock)
      ensures s.bound > 0 && exists c :: InFlight(s, c, urn)
    {
      PurgedIsFresh(s, urn);
      StaysFreshOrFlying(purged, events, urn, s.clock, s.waiting);
      OlderAnswerWasFlying(After(purged, events), urn, s.clock, s.waiting);
      var c :| c in s.waiting && Mentions(s.waiting[c].0, urn) && s.waiting[c].1 < s.clock < s.waiting[c].1 + s.ttl;
      assert InFlight(s, c, urn);
      NextInv(s, Invalidate(urn));
      RunInv(purged, events);
      NoRoomNoAnswer(After(purged, events), urn, s.clock);
    }
  }

  lemma NoRoomNoAnswer(s: State, urn: string, since: int)
    requires Inv(s) && AnswersOlder(s, urn, since)
    ensures s.bound > 0
  {
    var key :| Mentions(key, urn) && Answer(s, key).Some?;
    FindMember(s.entries, key);
  }

  lemma PurgedIsFresh(s: State, urn: string)
    ensures FreshOrFlying(Next(s, Invalidate(urn)), urn, s.clock, s.waiting)
  {
    PurgeMembers(s.entries, urn);
  }

  lemma OlderAnswerWasFlying(s: State, urn: string, since: int, flying: map<nat, (Key, int)>)
    requires FreshOrFlying(s, urn, since, flying) && AnswersOlder(s, urn, since)
    ensures exists c :: c in flying && Mentions(flying[c].0, urn) && flying[c].1 < since < flying[c].1 + s.ttl
  {
    var key :| Mentions(key, urn) && Answer(s, key).Some? && Find(s.entries, key).value.expires - s.ttl < since;
    FindMember(s.entries, key);
    assert Accounted(key, Find(s.entries, key).value.expires - s.ttl, since, flying);
  }

  /** An evaluation in flight does store its denial after the invalidation. */
  lemma InFlightDenialOutlivesInvalidation(s: State, call: nat, decision: Decision, urn: string)
    requires call in s.waiting && Mentions(s.waiting[call].0, urn) && !decision.allowed && s.bound > 0
    requires s.clock < s.waiting[call].1 + s.ttl
    ensures var s' := Next(Next(s, Invalidate(urn)), Finish(call, decision));
            && Answer(s', s.waiting[call].0) == Some(decision)
            && Find(s'.entries, s.waiting[call].0) == Some(Entry(s.waiting[call].0, decision, s.waiting[call].1 + s.ttl))
  {
    var (key, started) := s.waiting[call];
    var entry, purged := Entry(key, decision, started + s.ttl), Next(s, Invalidate(urn));
    StoredIsFound(purged.entries, entry, s.bound);
    var s' := Next(purged, Finish(call, decision));
    assert s'.entries == Evict(Without(purged.entries, key) + [entry], s.bound) && s'.clock == s.clock;
    assert Find(s'.entries, key) == Some(entry);
  }

  lemma StoredIsFound(entries: seq<Entry>, entry: Entry, bound: nat)
    requires bound > 0
    ensures Find(Evict(Without(entries, entry.key) + [entry], bound), entry.key) == Some(entry)
  {
    var rest := Without(entries, entry.key);
    WithoutMembers(entries, entry.key);
    var out := Evict(rest + [entry], bound);
    assert out[|out| - 1] == entry;
    assert forall i | 0 <= i < |out| - 1 :: out[i] in rest;
    FindLast(out, entry.key);
  }

  lemma {:induction false} FindLast(entries: seq<Entry>, key: Key)
    requires entries != [] && entries[|entries| - 1].key == key
    requires forall i | 0 <= i < |entries| - 1 :: entries[i].key != key
    ensures Find(entries, key) == Some(entries[|entries| - 1])
  {
    if |entries| > 1 {
      FindLast(entries[1..], key);
    }
  }
}
