/** Several turns of one session at the same time. services/intelligence/app/agent_runtime.py
    takes no lock: each turn loads the session row once, counts on from what it loaded, and
    writes its own count over whatever the row holds by then. */
module AgentOverlap {
  import opened Wrappers
  import opened AgentTurn

  /** A turn in progress: the tool calls it read in the row, how many uses the session had
      tried by then, and those the turn has counted itself. */
  datatype Own = Own(loaded: nat, before: nat, counted: nat)

  /** `row` is the stored number of tool calls, `tried` every tool use of the session, and
      `last` the turn that wrote the row as it was then. */
  datatype State = State(max: nat, row: nat, tried: nat, turns: map<nat, Own>, last: Own)

  /** `TryLost` is a tool use that raises; `Leave` ends a turn with or without a write. */
  datatype Event = Load(turn: nat) | Try(turn: nat) | TryLost(turn: nat) | Write(turn: nat) | Leave(turn: nat)

  predicate Enabled(s: State, e: Event) {
    match e
    case Load(turn) => turn !in s.turns
    case Try(turn) => turn in s.turns && s.turns[turn].loaded + s.turns[turn].counted < s.max
    case TryLost(turn) => turn in s.turns && s.turns[turn].loaded + s.turns[turn].counted < s.max
    case Write(turn) => turn in s.turns
    case Leave(turn) => turn in s.turns
  }

  function Next(s: State, e: Event): State
    requires Enabled(s, e)
  {
    match e
    case Load(turn) => s.(turns := s.turns[turn := Own(s.row, s.tried, 0)])
    case Try(turn) => s.(tried := s.tried + 1, turns := s.turns[turn := s.turns[turn].(counted := s.turns[turn].counted + 1)])
    case TryLost(turn) => s.(tried := s.tried + 1, turns := s.turns - {turn})
    case Write(turn) => s.(row := s.turns[turn].loaded + s.turns[turn].counted, last := s.turns[turn])
    case Leave(turn) => s.(turns := s.turns - {turn})
  }

  function Initial(max: nat): State {
    State(max, 0, 0, map[], Own(0, 0, 0))
  }

  ghost predicate Runs(s: State, events: seq<Event>)
    decreases |events|
  {
    events == [] || (Enabled(s, events[0]) && Runs(Next(s, events[0]), events[1..]))
  }

  ghost function After(s: State, events: seq<Event>): State
    requires Runs(s, events)
    decreases |events|
  {
    if events == [] then s else After(Next(s, events[0]), events[1..])
  }

  ghost predicate Reaches(s: State, t: State) {
    exists events :: Runs(s, events) && After(s, events) == t
  }

  lemma ReachesSelf(s: State)
    ensures Reaches(s, s)
  {
    assert Runs(s, []) && After(s, []) == s;
  }

  lemma {:induction false} RunSnoc(s: State, events: seq<Event>, e: Event)
    requires Runs(s, events) && Enabled(After(s, events), e)
    ensures Runs(s, events + [e]) && After(s, events + [e]) == Next(After(s, events), e)
    decreases |events|
  {
    if events == [] {
      assert [] + [e] == [e] && [e][1..] == [];
      assert Runs(Next(s, e), []);
    } else {
      RunSnoc(Next(s, events[0]), events[1..], e);
      assert (events + [e])[1..] == events[1..] + [e];
    }
  }

  lemma ReachesNext(s: State, t: State, e: Event)
    requires Reaches(s, t) && Enabled(t, e)
    ensures Reaches(s, Next(t, e))
  {
    var events :| Runs(s, events) && After(s, events) == t;
    RunSnoc(s, events, e);
  }

  // ---------------------------------------------------------------- when the row accounts for everything

  ghost predicate Counts(own: Own, s: State) {
    own.loaded <= own.before && own.before + own.counted <= s.tried && own.loaded + own.counted <= s.max
  }

  ghost predicate Inv(s: State) {
    && s.row == s.last.loaded + s.last.counted && Counts(s.last, s)
    && forall t | t in s.turns :: Counts(s.turns[t], s)
  }

  lemma {:induction false} RunInv(s: State, events: seq<Event>)
    requires Inv(s) && Runs(s, events)
    ensures Inv(After(s, events)) && After(s, events).max == s.max
    decreases |events|
  {
    if events != [] {
      RunInv(Next(s, events[0]), events[1..]);
    }
  }

  /** However turns interleave, the stored count keeps the budget and never exceeds what was
      tried, and it accounts for every tool use if and only if the turn that wrote it last had
      loaded a row that did, and every use since that load is one that turn counted. */
  lemma RowAccountsIff(max: nat, events: seq<Event>)
    requires Runs(Initial(max), events)
    ensures var s := After(Initial(max), events);
            && s.row <= s.tried && s.row <= max
            && (s.row == s.tried <==> s.last.loaded == s.last.before && s.tried == s.last.before + s.last.counted)
  {
    RunInv(Initial(max), events);
  }

  /** One turn at a time, and each leaves after writing what it counted. */
  ghost predicate Orderly(s: State, e: Event) {
    match e
    case Load(_) => s.turns == map[]
    case TryLost(_) => false
    case Leave(turn) => turn in s.turns && s.row == s.turns[turn].loaded + s.turns[turn].counted
    case _ => true
  }

  ghost predicate RunsOrderly(s: State, events: seq<Event>)
    decreases |events|
  {
    events == [] || (Enabled(s, events[0]) && Orderly(s, events[0]) && RunsOrderly(Next(s, events[0]), events[1..]))
  }

  ghost predicate Settled(s: State) {
    if s.turns == map[] then s.row == s.tried
    else exists t :: s.turns.Keys == {t} && s.turns[t].loaded == s.turns[t].before && s.tried == s.turns[t].before + s.turns[t].counted
  }

  lemma {:induction false} OrderlySettles(s: State, events: seq<Event>)
    requires Settled(s) && RunsOrderly(s, events)
    ensures Runs(s, events) && Settled(After(s, events))
    decreases |events|
  {
    if events != [] {
      var s', e := Next(s, events[0]), events[0];
      if e.Load? {
        assert s'.turns.Keys == {e.turn};
      } else {
        var t :| s.turns.Keys == {t} && s.turns[t].loaded == s.turns[t].before && s.tried == s.turns[t].before + s.turns[t].counted;
        assert e.turn in s.turns.Keys;
        if e.Leave? {
          assert s'.turns.Keys == {};
        } else {
          assert s'.turns.Keys == {t};
        }
      }
      assert Settled(s');
      OrderlySettles(s', events[1..]);
    }
  }

  /** Then the budget bounds what a session tries. */
  lemma OrderlyTurnsKeepBudget(max: nat, events: seq<Event>)
    requires RunsOrderly(Initial(max), events)
    ensures Runs(Initial(max), events) && After(Initial(max), events).tried <= max
  {
    OrderlySettles(Initial(max), events);
    RunInv(Initial(max), events);
  }

  // ---------------------------------------------------------------- overlapping turns

  function Below(n: nat): (ids: set<nat>)
    ensures forall t: nat :: t in ids <==> t < n
  {
    if n == 0 then {} else Below(n - 1) + {n - 1}
  }

  /** `n` turns have loaded the empty row; those below `m` have tried all they may. */
  function Spent(max: nat, n: nat, m: nat, j: nat): map<nat, Own> {
    map t | t in Below(n) :: Own(0, 0, if t < m then max else if t == m then j else 0)
  }

  function Times(m: nat, max: nat): nat {
    if m == 0 then 0 else Times(m - 1, max) + max
  }

  function Overlapped(max: nat, n: nat, m: nat, j: nat): State {
    State(max, 0, Times(m, max) + j, Spent(max, n, m, j), Own(0, 0, 0))
  }

  lemma {:induction false} LoadAll(max: nat, n: nat)
    ensures Reaches(Initial(max), Overlapped(max, n, 0, 0))
  {
    if n == 0 {
      ReachesSelf(Initial(max));
      assert Spent(max, 0, 0, 0) == map[];
    } else {
      LoadAll(max, n - 1);
      ReachesNext(Initial(max), Overlapped(max, n - 1, 0, 0), Load(n - 1));
      assert Spent(max, n, 0, 0) == Spent(max, n - 1, 0, 0)[n - 1 := Own(0, 0, 0)];
    }
  }

  lemma {:induction false} TryAll(max: nat, n: nat, m: nat, j: nat)
    requires m <= n && j <= max && (m == n ==> j == 0)
    ensures Reaches(Initial(max), Overlapped(max, n, m, j))
    decreases m, j
  {
    if j > 0 {
      TryAll(max, n, m, j - 1);
      ReachesNext(Initial(max), Overlapped(max, n, m, j - 1), Try(m));
      assert Spent(max, n, m, j) == Spent(max, n, m, j - 1)[m := Own(0, 0, j)];
    } else if m > 0 {
      TryAll(max, n, m - 1, max);
      assert Spent(max, n, m, 0) == Spent(max, n, m - 1, max);
    } else {
      LoadAll(max, n);
    }
  }

  /** With overlapping turns no budget bounds a session: `n` of them try `n` times the budget
      and none of them raises, and when all have written the row shows one budget. */
  lemma OverlapEscapesBudget(max: nat, n: nat)
    requires n > 0
    ensures exists s :: Reaches(Initial(max), s) && s.tried == Times(n, max) && s.row == max
  {
    TryAll(max, n, n, 0);
    ReachesNext(Initial(max), Overlapped(max, n, n, 0), Write(0));
  }

  // ---------------------------------------------------------------- a turn of the code is such a turn

  /** The turn `id` of the machine, next to `others`, stands where the code's turn does. */
  ghost predicate Follows(s: State, id: nat, l: Live, others: map<nat, Own>, max: nat, tried: nat) {
    && s.max == max && s.row == l.stored.toolCalls
    && id !in others && id in s.turns && s.turns == others[id := s.turns[id]]
    && s.turns[id].loaded + s.turns[id].counted == l.consumed.toolCalls
    && s.tried == tried + l.attempts
  }

  /** The machine can get to where the code's turn is, from `s` on. */
  ghost predicate Matches(s: State, id: nat, l: Live, others: map<nat, Own>, tried: nat) {
    exists t :: Reaches(s, t) && Follows(t, id, l, others, s.max, tried)
  }

  /** The turn is over, and what it leaves is what the code leaves. */
  ghost predicate Leaves(s: State, l: Live, others: map<nat, Own>, tried: nat) {
    exists t :: Reaches(s, t) && t.turns == others && t.row == l.stored.toolCalls && t.tried == tried + l.attempts
  }

  /** A step of the code that neither tries a tool nor writes the row. */
  lemma Stays(s: State, id: nat, l: Live, l': Live, others: map<nat, Own>, tried: nat)
    requires Matches(s, id, l, others, tried)
    requires l'.stored.toolCalls == l.stored.toolCalls && l'.consumed.toolCalls == l.consumed.toolCalls && l'.attempts == l.attempts
    ensures Matches(s, id, l', others, tried)
  {
    var t :| Reaches(s, t) && Follows(t, id, l, others, s.max, tried);
    assert Follows(t, id, l', others, s.max, tried);
  }

  lemma Writes(s: State, id: nat, l: Live, others: map<nat, Own>, tried: nat, running: bool)
    requires Matches(s, id, l, others, tried)
    ensures Matches(s, id, l.(stored := l.consumed, running := running), others, tried)
  {
    var t :| Reaches(s, t) && Follows(t, id, l, others, s.max, tried);
    ReachesNext(s, t, Write(id));
    assert Follows(Next(t, Write(id)), id, l.(stored := l.consumed, running := running), others, s.max, tried);
  }

  lemma TurnEnds(s: State, id: nat, l: Live, others: map<nat, Own>, tried: nat)
    requires Matches(s, id, l, others, tried)
    ensures Leaves(s, l, others, tried)
  {
    var t :| Reaches(s, t) && Follows(t, id, l, others, s.max, tried);
    ReachesNext(s, t, Leave(id));
    assert t.turns - {id} == others;
  }

  lemma Tries(s: State, id: nat, l: Live, l': Live, others: map<nat, Own>, tried: nat)
    requires Matches(s, id, l, others, tried) && l.consumed.toolCalls < s.max
    requires l'.stored.toolCalls == l.stored.toolCalls && l'.attempts == l.attempts + 1
    ensures l'.consumed.toolCalls == l.consumed.toolCalls + 1 ==> Matches(s, id, l', others, tried)
    ensures l'.consumed.toolCalls == l.consumed.toolCalls ==> Leaves(s, l', others, tried)
  {
    var t :| Reaches(s, t) && Follows(t, id, l, others, s.max, tried);
    ReachesNext(s, t, Try(id));
    ReachesNext(s, t, TryLost(id));
    if l'.consumed.toolCalls == l.consumed.toolCalls + 1 {
      assert Follows(Next(t, Try(id)), id, l', others, s.max, tried);
    }
    assert t.turns - {id} == others;
  }

  lemma {:induction false} UseToolsMatches(s: State, id: nat, w: World, l: Live, blocks: seq<Block>, others: map<nat, Own>, tried: nat)
    requires (forall b | b in blocks :: b.ToolUse?) && w.maxToolCalls == s.max && Matches(s, id, l, others, tried)
    ensures var (after, end) := UseTools(w, l, blocks);
            if end.Some? then Leaves(s, after, others, tried) else Matches(s, id, after, others, tried)
    decreases |blocks|
  {
    if blocks != [] {
      var (next, end) := UseTool(w, l, blocks[0]);
      if l.consumed.toolCalls >= w.maxToolCalls {
        Writes(s, id, l, others, tried, false);
        TurnEnds(s, id, next, others, tried);
      } else {
        Tries(s, id, l, next, others, tried);
        if end.None? {
          UseToolsMatches(s, id, w, next, blocks[1..], others, tried);
        } else if end != Some(ToolRaised) {
          TurnEnds(s, id, next, others, tried);
        }
      }
    }
  }

  lemma AnsweredMatches(s: State, id: nat, w: World, l: Live, response: Response, others: map<nat, Own>, tried: nat)
    requires w.maxToolCalls == s.max && Matches(s, id, l, others, tried)
    ensures var (after, end) := Answered(w, l, response);
            if end.Some? then Leaves(s, after, others, tried) else Matches(s, id, after, others, tried)
  {
    var counted, said, uses := Counted(l, response), Said(l, response), ToolUses(response.blocks);
    var (after, end) := Answered(w, l, response);
    ToolUsesAre(response.blocks);
    Stays(s, id, l, counted, others, tried);
    Stays(s, id, l, said, others, tried);
    Writes(s, id, counted, others, tried, false);
    Writes(s, id, said, others, tried, said.running);
    UseToolsMatches(s, id, w, said, uses, others, tried);
    var (used, stop) := UseTools(w, said, uses);
    if counted.consumed.tokens > w.maxTokens || !w.records(|l.transcript|, AssistantRow) || uses == [] {
      TurnEnds(s, id, after, others, tried);
    } else if stop.None? {
      var closed := used.(messages := used.messages + [UserResults(used.results)], results := []);
      Stays(s, id, used, closed, others, tried);
      Writes(s, id, closed, others, tried, closed.running);
      if end.Some? {
        TurnEnds(s, id, after, others, tried);
      }
    }
  }

  lemma {:induction false} LoopMatches(s: State, id: nat, w: World, l: Live, others: map<nat, Own>, tried: nat)
    requires w.maxToolCalls == s.max && Matches(s, id, l, others, tried)
    ensures Leaves(s, Loop(w, l).0, others, tried)
    decreases w.maxIterations - l.consumed.iterations
  {
    if l.consumed.iterations >= w.maxIterations {
      Writes(s, id, l, others, tried, false);
      TurnEnds(s, id, Loop(w, l).0, others, tried);
    } else {
      match w.complete(l.messages)
      case None => TurnEnds(s, id, l, others, tried);
      case Some(response) =>
        AnsweredMatches(s, id, w, l, response, others, tried);
        AnsweredIterates(w, l, response);
        if Answered(w, l, response).1.None? {
          LoopMatches(s, id, w, Answered(w, l, response).0, others, tried);
        }
    }
  }

  /** A whole turn, on any row and whatever it dies of, is a run of the machine in which only
      it steps: it leaves the stored count and the number of uses tried that the machine has. */
  lemma TurnIsRun(s: State, id: nat, w: World, session: Session, text: string)
    requires w.maxToolCalls == s.max && s.row == session.stored.toolCalls && id !in s.turns
    ensures var after := TurnOf(w, session, text).0;
            exists t :: Reaches(s, t) && t.turns == s.turns && t.row == after.stored.toolCalls && t.tried == s.tried + after.attempts
  {
    var loaded, after := Next(s, Load(id)), TurnOf(w, session, text).0;
    ReachesSelf(s);
    ReachesNext(s, s, Load(id));
    assert Follows(loaded, id, Opened(session), s.turns, s.max, s.tried);
    assert Matches(s, id, Opened(session), s.turns, s.tried);
    Stays(s, id, Opened(session), Open(session, text), s.turns, s.tried);
    if after == Opened(session) || after == Open(session, text) {
      TurnEnds(s, id, after, s.turns, s.tried);
    } else {
      LoopMatches(s, id, w, Open(session, text), s.turns, s.tried);
    }
    assert Leaves(s, after, s.turns, s.tried);
  }
}
