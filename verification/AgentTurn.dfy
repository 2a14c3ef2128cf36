/** The agent turn of services/intelligence/app/agent_runtime.py: a loop of model calls and
    tool rounds over live messages, recorded row by row in a durable transcript from which
    the messages are rebuilt. JSON values are their canonical text. */
module AgentTurn {
  import opened Wrappers

  datatype Block = TextBlock(text: string) | ToolUse(id: string, name: string, input: string) | OtherBlock(json: string)

  datatype ToolResult = ToolResult(toolUseId: string, content: string)

  datatype Message = UserText(text: string) | UserResults(results: seq<ToolResult>) | Assistant(blocks: seq<Block>)

  /** A row of `agent_turn`; `OtherTurn` is any row the rebuild does not know. */
  datatype Turn = UserTurn(text: string) | AssistantTurn(blocks: seq<Block>) | ToolTurn(toolUseId: string, result: string) | OtherTurn

  // ---------------------------------------------------------------- the rebuild

  datatype Rebuild = Rebuild(messages: seq<Message>, pending: seq<ToolResult>)

  function Flush(r: Rebuild): seq<Message> {
    r.messages + Flushed(r.pending)
  }

  function Flushed(pending: seq<ToolResult>): seq<Message> {
    if pending == [] then [] else [UserResults(pending)]
  }

  function RebuildOf(transcript: seq<Turn>): Rebuild {
    if transcript == [] then Rebuild([], [])
    else
      var before := RebuildOf(transcript[..|transcript| - 1]);
      match transcript[|transcript| - 1]
      case ToolTurn(id, result) => before.(pending := before.pending + [ToolResult(id, result)])
      case UserTurn(text) => Rebuild(Flush(before) + [UserText(text)], [])
      case AssistantTurn(blocks) => Rebuild(Flush(before) + [Assistant(blocks)], [])
      case OtherTurn => Rebuild(Flush(before), [])
  }

  function MessagesFrom(transcript: seq<Turn>): seq<Message> {
    Flush(RebuildOf(transcript))
  }

  method MessagesFromTranscript(transcript: seq<Turn>) returns (messages: seq<Message>)
    ensures messages == MessagesFrom(transcript)
  {
    messages := [];
    var pending: seq<ToolResult> := [];
    for n := 0 to |transcript|
      invariant Rebuild(messages, pending) == RebuildOf(transcript[..n])
    {
      assert transcript[..n + 1][..n] == transcript[..n];
      var turn := transcript[n];
      if turn.ToolTurn? {
        pending := pending + [ToolResult(turn.toolUseId, turn.result)];
        continue;
      }
      if pending != [] {
        messages := messages + [UserResults(pending)];
        pending := [];
      }
      if turn.UserTurn? {
        messages := messages + [UserText(turn.text)];
      } else if turn.AssistantTurn? {
        messages := messages + [Assistant(turn.blocks)];
      }
    }
    assert transcript[..|transcript|] == transcript;
    if pending != [] {
      messages := messages + [UserResults(pending)];
    }
  }

  /** No tool result is lost, repeated or moved by the rebuild. */
  lemma {:induction false} ToolResultsConserved(transcript: seq<Turn>)
    ensures ResultsIn(MessagesFrom(transcript)) == ResultRows(transcript)
  {
    if transcript != [] {
      var front, last := transcript[..|transcript| - 1], transcript[|transcript| - 1];
      ToolResultsConserved(front);
      var before, after := RebuildOf(front), RebuildOf(transcript);
      ResultsConcat(before.messages, Flushed(before.pending));
      ResultsOfFlush(before.pending);
      ResultsOfFlush(after.pending);
      if last.ToolTurn? {
        ResultsConcat(after.messages, Flushed(after.pending));
      } else {
        assert Flush(after) == after.messages;
        if !last.OtherTurn? {
          var said := if last.UserTurn? then UserText(last.text) else Assistant(last.blocks);
          ResultsConcat(Flush(before), [said]);
          assert ResultsIn([said]) == [] by { assert [said][..0] == []; }
        }
      }
    }
  }

  function ResultsIn(messages: seq<Message>): seq<ToolResult> {
    if messages == [] then []
    else ResultsIn(messages[..|messages| - 1])
         + (if messages[|messages| - 1].UserResults? then messages[|messages| - 1].results else [])
  }

  function ResultRows(transcript: seq<Turn>): seq<ToolResult> {
    if transcript == [] then []
    else
      var last := transcript[|transcript| - 1];
      ResultRows(transcript[..|transcript| - 1]) + (if last.ToolTurn? then [ToolResult(last.toolUseId, last.result)] else [])
  }

  lemma {:induction false} ResultsConcat(a: seq<Message>, b: seq<Message>)
    ensures ResultsIn(a + b) == ResultsIn(a) + ResultsIn(b)
    decreases |b|
  {
    if b == [] {
      assert a + b == a;
    } else {
      assert (a + b)[..|a + b| - 1] == a + b[..|b| - 1];
      ResultsConcat(a, b[..|b| - 1]);
    }
  }

  lemma ResultsOfFlush(pending: seq<ToolResult>)
    ensures ResultsIn(Flushed(pending)) == pending
  {
    if pending != [] {
      assert [UserResults(pending)][..0] == [];
    }
  }

  // ---------------------------------------------------------------- one turn

  datatype Consumed = Consumed(iterations: nat, tokens: nat, toolCalls: nat)

  datatype Response = Response(blocks: seq<Block>, tokens: nat)

  /** What a turn writes to the transcript, and the points where it writes the session row. */
  datatype Row = UserRow | AssistantRow | ToolRow

  datatype Store = AtIterations | AtTokens | AtToolCalls | AfterRound | AtAnswer

  /** The session's budget and the world a turn talks to. Listing the tools, a model or tool
      call, a write of row `n` of the transcript and a write of the session row may raise. */
  datatype World = World(
    maxIterations: nat,
    maxTokens: nat,
    maxToolCalls: nat,
    lists: bool,
    complete: seq<Message> -> Option<Response>,
    tools: set<string>,
    invoke: (nat, Block) -> Option<string>,
    records: (nat, Row) -> bool,
    stores: (nat, Store) -> bool)

  /** `stored` and `running` are the session row, `attempts` counts every tool use tried, and
      `results` are those of the tool round in progress. */
  datatype Live = Live(
    transcript: seq<Turn>,
    messages: seq<Message>,
    results: seq<ToolResult>,
    consumed: Consumed,
    stored: Consumed,
    running: bool,
    attempts: nat)

  /** How a turn ends; the last five say what raised, and at which write. */
  datatype End =
    | Completed | OverIterations | OverTokens | OverToolCalls | NotRunning
    | ListRaised | ModelRaised | ToolRaised | RecordRaised(row: Row) | StoreRaised(store: Store)

  function ToolUses(blocks: seq<Block>): seq<Block> {
    if blocks == [] then []
    else if blocks[0].ToolUse? then [blocks[0]] + ToolUses(blocks[1..])
    else ToolUses(blocks[1..])
  }

  function UnknownTool(name: string): string {
    "{\"error\": \"unknown tool '" + name + "'\"}"
  }

  /** `_finish_session` with status aborted. */
  function Abort(w: World, l: Live, at: Store, end: End): (Live, End) {
    if w.stores(|l.transcript|, at) then (l.(stored := l.consumed, running := false), end) else (l, StoreRaised(at))
  }

  /** One tool use: over budget, raised, or recorded with its result. */
  function UseTool(w: World, l: Live, block: Block): (Live, Option<End>)
    requires block.ToolUse?
  {
    if l.consumed.toolCalls >= w.maxToolCalls then
      var (after, end) := Abort(w, l, AtToolCalls, OverToolCalls);
      (after, Some(end))
    else
      var tried := l.(attempts := l.attempts + 1);
      var result := if block.name in w.tools then w.invoke(l.attempts, block) else Some(UnknownTool(block.name));
      if result.None? then (tried, Some(ToolRaised))
      else
        var counted := tried.(consumed := l.consumed.(toolCalls := l.consumed.toolCalls + 1));
        if !w.records(|l.transcript|, ToolRow) then (counted, Some(RecordRaised(ToolRow)))
        else (counted.(transcript := l.transcript + [ToolTurn(block.id, result.value)],
                       results := l.results + [ToolResult(block.id, result.value)]), None)
  }

  function UseTools(w: World, l: Live, blocks: seq<Block>): (Live, Option<End>)
    requires forall b | b in blocks :: b.ToolUse?
    decreases |blocks|
  {
    if blocks == [] then (l, None)
    else
      var (next, end) := UseTool(w, l, blocks[0]);
      if end.Some? then (next, end) else UseTools(w, next, blocks[1..])
  }

  lemma {:induction false} ToolUsesAre(blocks: seq<Block>)
    ensures forall b | b in ToolUses(blocks) :: b.ToolUse? && b in blocks
  {
    if blocks != [] {
      ToolUsesAre(blocks[1..]);
    }
  }

  /** The answer counted, and then recorded. */
  function Counted(l: Live, response: Response): Live {
    l.(consumed := l.consumed.(iterations := l.consumed.iterations + 1, tokens := l.consumed.tokens + response.tokens))
  }

  function Said(l: Live, response: Response): Live {
    Counted(l, response).(transcript := l.transcript + [AssistantTurn(response.blocks)],
                          messages := l.messages + [Assistant(response.blocks)])
  }

  /** The model answered: record it, then run its tool round if it asked for one. */
  function Answered(w: World, l: Live, response: Response): (Live, Option<End>) {
    var counted := Counted(l, response);
    if counted.consumed.tokens > w.maxTokens then
      var (after, end) := Abort(w, counted, AtTokens, OverTokens);
      (after, Some(end))
    else if !w.records(|l.transcript|, AssistantRow) then (counted, Some(RecordRaised(AssistantRow)))
    else
      var said := Said(l, response);
      var uses := ToolUses(response.blocks);
      ToolUsesAre(response.blocks);
      if uses == [] then
        if w.stores(|said.transcript|, AtAnswer) then (said.(stored := said.consumed), Some(Completed))
        else (said, Some(StoreRaised(AtAnswer)))
      else
        var (after, end) := UseTools(w, said, uses);
        if end.Some? then (after, end)
        else
          var closed := after.(messages := after.messages + [UserResults(after.results)], results := []);
          if w.stores(|closed.transcript|, AfterRound) then (closed.(stored := closed.consumed), None)
          else (closed, Some(StoreRaised(AfterRound)))
  }

  /** The loop of `run_turn` from one of its heads. */
  function Loop(w: World, l: Live): (Live, End)
    decreases w.maxIterations - l.consumed.iterations
  {
    if l.consumed.iterations >= w.maxIterations then Abort(w, l, AtIterations, OverIterations)
    else
      match w.complete(l.messages)
      case None => (l, ModelRaised)
      case Some(response) =>
        var (next, end) := Answered(w, l, response);
        if end.Some? then (next, end.value)
        else
          AnsweredIterates(w, l, response);
          Loop(w, next)
  }

  /** The session between two turns. */
  datatype Session = Session(transcript: seq<Turn>, stored: Consumed, running: bool)

  function Opened(s: Session): Live {
    Live(s.transcript, MessagesFrom(s.transcript), [], s.stored, s.stored, s.running, 0)
  }

  /** The state at the first head: prior messages rebuilt, the user's message recorded. */
  function Open(s: Session, text: string): Live {
    Opened(s).(transcript := s.transcript + [UserTurn(text)], messages := MessagesFrom(s.transcript) + [UserText(text)])
  }

  /** `run_turn`. */
  function TurnOf(w: World, s: Session, text: string): (Live, End) {
    if !s.running then (Opened(s), NotRunning)
    else if !w.records(|s.transcript|, UserRow) then (Opened(s), RecordRaised(UserRow))
    else if !w.lists then (Open(s, text), ListRaised)
    else Loop(w, Open(s, text))
  }

  lemma {:induction false} UseToolsIterates(w: World, l: Live, blocks: seq<Block>)
    requires forall b | b in blocks :: b.ToolUse?
    ensures UseTools(w, l, blocks).0.consumed.iterations == l.consumed.iterations
    decreases |blocks|
  {
    if blocks != [] {
      var (next, end) := UseTool(w, l, blocks[0]);
      if end.None? {
        UseToolsIterates(w, next, blocks[1..]);
      }
    }
  }

  lemma AnsweredIterates(w: World, l: Live, response: Response)
    ensures Answered(w, l, response).0.consumed.iterations == l.consumed.iterations + 1
  {
    ToolUsesAre(response.blocks);
    UseToolsIterates(w, Said(l, response), ToolUses(response.blocks));
  }

  // ---------------------------------------------------------------- what is counted

  /** The turn ended after trying a tool and before the next write of the session row. */
  predicate DiesInRound(end: End, results: seq<ToolResult>) {
    || end == ToolRaised || end == RecordRaised(ToolRow) || end == StoreRaised(AfterRound)
    || (end == StoreRaised(AtToolCalls) && results != [])
  }

  /** The turn ended after using something up and before the next write of the session row. */
  predicate LosesConsumption(end: End) {
    || end == ToolRaised || end == RecordRaised(AssistantRow) || end == RecordRaised(ToolRow)
    || (end.StoreRaised? && end.store != AtIterations)
  }

  function Most(a: nat, b: nat): nat {
    if a > b then a else b
  }

  /** Tool uses of a round so far: `l` before, `after` behind them. */
  predicate RoundCounts(w: World, l: Live, after: Live, end: Option<End>) {
    && after.consumed.iterations == l.consumed.iterations && after.consumed.tokens == l.consumed.tokens
    && l.consumed.toolCalls <= after.consumed.toolCalls <= Most(l.consumed.toolCalls, w.maxToolCalls)
    && after.attempts - l.attempts == after.consumed.toolCalls - l.consumed.toolCalls + (if end == Some(ToolRaised) then 1 else 0)
    && (end == Some(ToolRaised) ==> after.consumed.toolCalls < w.maxToolCalls)
    && |after.results| - |l.results|
       == after.consumed.toolCalls - l.consumed.toolCalls - (if end == Some(RecordRaised(ToolRow)) then 1 else 0)
    && after.stored == (if end == Some(OverToolCalls) then after.consumed else l.stored)
    && (end.Some? ==> end.value in {OverToolCalls, ToolRaised, RecordRaised(ToolRow), StoreRaised(AtToolCalls)})
  }

  lemma {:induction false} UseToolsCounts(w: World, l: Live, blocks: seq<Block>)
    requires forall b | b in blocks :: b.ToolUse?
    ensures var (after, end) := UseTools(w, l, blocks);
            && RoundCounts(w, l, after, end)
            && (end.None? ==> |after.results| == |l.results| + |blocks|)
    decreases |blocks|
  {
    if blocks != [] {
      var (next, end) := UseTool(w, l, blocks[0]);
      if end.None? {
        UseToolsCounts(w, next, blocks[1..]);
      }
    }
  }

  /** From a head of the loop to the next one, or to the end of the turn. */
  predicate StepCounts(w: World, l: Live, after: Live, end: Option<End>) {
    && after.consumed.iterations == l.consumed.iterations + 1
    && l.consumed.toolCalls <= after.consumed.toolCalls <= Most(l.consumed.toolCalls, w.maxToolCalls)
    && after.attempts - l.attempts == after.consumed.toolCalls - l.consumed.toolCalls + (if end == Some(ToolRaised) then 1 else 0)
    && (end == Some(ToolRaised) ==> after.consumed.toolCalls < w.maxToolCalls)
    && (if end.Some? && LosesConsumption(end.value) then after.stored == l.stored else after.stored == after.consumed)
    && (end.Some? && LosesConsumption(end.value) && !DiesInRound(end.value, after.results) ==> after.consumed.toolCalls == l.consumed.toolCalls)
    && (end.Some? && DiesInRound(end.value, after.results) ==> after.attempts > l.attempts)
    && (end == Some(Completed) ==> after.consumed.tokens <= w.maxTokens && after.results == [])
    && (end.None? ==> after.results == [])
    && (end.Some? ==> !end.value.ModelRaised? && !end.value.ListRaised? && !end.value.NotRunning?
                      && end.value != StoreRaised(AtIterations) && end.value != RecordRaised(UserRow))
  }

  lemma AnsweredCounts(w: World, l: Live, response: Response)
    requires l.results == []
    ensures var (after, end) := Answered(w, l, response); StepCounts(w, l, after, end)
  {
    ToolUsesAre(response.blocks);
    UseToolsCounts(w, Said(l, response), ToolUses(response.blocks));
  }

  class AgentSession {
    var transcript: seq<Turn>
    var stored: Consumed
    var running: bool

    function View(): Session
      reads this
    {
      Session(transcript, stored, running)
    }

    constructor ()
      ensures View() == Session([], Consumed(0, 0, 0), true)
    {
      transcript, stored, running := [], Consumed(0, 0, 0), true;
    }

    /** `run_turn`, with the messages as they are live when it ends. */
    method RunTurn(w: World, text: string) returns (end: End, messages: seq<Message>, results: seq<ToolResult>)
      modifies this
      ensures var (l, e) := TurnOf(w, old(View()), text);
              && end == e && messages == l.messages && results == l.results
              && View() == Session(l.transcript, l.stored, l.running)
    {
      results := [];
      messages := MessagesFromTranscript(transcript);
      if !running {
        return NotRunning, messages, results;
      }
      if !w.records(|transcript|, UserRow) {
        return RecordRaised(UserRow), messages, results;
      }
      transcript := transcript + [UserTurn(text)];
      messages := messages + [UserText(text)];
      if !w.lists {
        return ListRaised, messages, results;
      }
      var consumed, attempts := stored, 0;
      ghost var open := Open(old(View()), text);
      while true
        invariant results == []
        invariant Loop(w, open) == Loop(w, Live(transcript, messages, results, consumed, stored, running, attempts))
        decreases w.maxIterations - consumed.iterations
      {
        if consumed.iterations >= w.maxIterations {
          end := FinishSession(w, consumed, AtIterations, OverIterations);
          return end, messages, results;
        }
        var reply := w.complete(messages);
        if reply.None? {
          return ModelRaised, messages, results;
        }
        AnsweredIterates(w, Live(transcript, messages, results, consumed, stored, running, attempts), reply.value);
        var stop;
        stop, messages, results, consumed, attempts := TakeAnswer(w, reply.value, messages, consumed, attempts);
        if stop.Some? {
          return stop.value, messages, results;
        }
      }
    }

    /** `_finish_session` with status aborted, in front of the exception that ends the turn. */
    method FinishSession(w: World, consumed: Consumed, at: Store, end: End) returns (raised: End)
      modifies this`stored, this`running
      ensures if w.stores(|transcript|, at) then stored == consumed && !running && raised == end
              else stored == old(stored) && running == old(running) && raised == StoreRaised(at)
    {
      if !w.stores(|transcript|, at) {
        return StoreRaised(at);
      }
      stored, running := consumed, false;
      return end;
    }

    method TakeAnswer(w: World, response: Response, messages: seq<Message>, consumed: Consumed, attempts: nat)
      returns (stop: Option<End>, messages': seq<Message>, results': seq<ToolResult>, consumed': Consumed, attempts': nat)
      modifies this
      ensures (Live(transcript, messages', results', consumed', stored, running, attempts'), stop)
              == Answered(w, Live(old(transcript), messages, [], consumed, old(stored), old(running), attempts), response)
      ensures stop.None? ==> results' == []
    {
      messages', results', attempts' := messages, [], attempts;
      consumed' := consumed.(iterations := consumed.iterations + 1, tokens := consumed.tokens + response.tokens);
      if consumed'.tokens > w.maxTokens {
        var end := FinishSession(w, consumed', AtTokens, OverTokens);
        return Some(end), messages', results', consumed', attempts';
      }
      if !w.records(|transcript|, AssistantRow) {
        return Some(RecordRaised(AssistantRow)), messages', results', consumed', attempts';
      }
      transcript := transcript + [AssistantTurn(response.blocks)];
      messages' := messages' + [Assistant(response.blocks)];
      var uses := ToolUses(response.blocks);
      ToolUsesAre(response.blocks);
      if uses == [] {
        if !w.stores(|transcript|, AtAnswer) {
          return Some(StoreRaised(AtAnswer)), messages', results', consumed', attempts';
        }
        stored := consumed';
        return Some(Completed), messages', results', consumed', attempts';
      }
      stop, results', consumed', attempts' := TakeToolRound(w, uses, messages', consumed', attempts');
      if stop.Some? {
        return;
      }
      messages' := messages' + [UserResults(results')];
      results' := [];
      if !w.stores(|transcript|, AfterRound) {
        return Some(StoreRaised(AfterRound)), messages', results', consumed', attempts';
      }
      stored := consumed';
    }

    /** The tool uses of one answer. */
    method TakeToolRound(w: World, uses: seq<Block>, messages: seq<Message>, consumed: Consumed, attempts: nat)
      returns (stop: Option<End>, results: seq<ToolResult>, consumed': Consumed, attempts': nat)
      requires forall b | b in uses :: b.ToolUse?
      modifies this
      ensures (Live(transcript, messages, results, consumed', stored, running, attempts'), stop)
              == UseTools(w, Live(old(transcript), messages, [], consumed, old(stored), old(running), attempts), uses)
    {
      results, consumed', attempts' := [], consumed, attempts;
      ghost var said := Live(transcript, messages, results, consumed', stored, running, attempts');
      for n := 0 to |uses|
        invariant UseTools(w, said, uses)
                  == UseTools(w, Live(transcript, messages, results, consumed', stored, running, attempts'), uses[n..])
      {
        var block := uses[n];
        assert uses[n..][1..] == uses[n + 1..];
        if consumed'.toolCalls >= w.maxToolCalls {
          var end := FinishSession(w, consumed', AtToolCalls, OverToolCalls);
          return Some(end), results, consumed', attempts';
        }
        var result := if block.name in w.tools then w.invoke(attempts', block) else Some(UnknownTool(block.name));
        attempts' := attempts' + 1;
        if result.None? {
          return Some(ToolRaised), results, consumed', attempts';
        }
        consumed' := consumed'.(toolCalls := consumed'.toolCalls + 1);
        if !w.records(|transcript|, ToolRow) {
          return Some(RecordRaised(ToolRow)), results, consumed', attempts';
        }
        transcript := transcript + [ToolTurn(block.id, result.value)];
        results := results + [ToolResult(block.id, result.value)];
      }
      stop := None;
    }
  }

  // ---------------------------------------------------------------- the transcript is the conversation

  /** The transcript rebuilds to the live messages, followed by the results of a tool round
      that has not been closed yet. */
  ghost predicate Faithful(l: Live) {
    RebuildOf(l.transcript).pending == l.results && RebuildOf(l.transcript).messages == l.messages
  }

  /** At a head of the loop the last results may still be pending in the rebuild. */
  ghost predicate FaithfulAtHead(l: Live) {
    l.results == [] && MessagesFrom(l.transcript) == l.messages
  }

  lemma RebuildSnoc(transcript: seq<Turn>, turn: Turn)
    ensures var before, after := RebuildOf(transcript), RebuildOf(transcript + [turn]);
            match turn
            case ToolTurn(id, result) => after == before.(pending := before.pending + [ToolResult(id, result)])
            case UserTurn(text) => after == Rebuild(Flush(before) + [UserText(text)], [])
            case AssistantTurn(blocks) => after == Rebuild(Flush(before) + [Assistant(blocks)], [])
            case OtherTurn => after == Rebuild(Flush(before), [])
  {
    assert (transcript + [turn])[..|transcript|] == transcript;
  }

  lemma {:induction false} UseToolsFaithful(w: World, l: Live, blocks: seq<Block>)
    requires (forall b | b in blocks :: b.ToolUse?) && Faithful(l)
    ensures Faithful(UseTools(w, l, blocks).0)
    ensures UseTools(w, l, blocks).1.None? ==> |UseTools(w, l, blocks).0.results| == |l.results| + |blocks|
    decreases |blocks|
  {
    if blocks != [] {
      var (next, end) := UseTool(w, l, blocks[0]);
      if end.None? {
        RebuildSnoc(l.transcript, next.transcript[|l.transcript|]);
        UseToolsFaithful(w, next, blocks[1..]);
      }
    }
  }

  lemma AnsweredFaithful(w: World, l: Live, response: Response)
    requires FaithfulAtHead(l)
    ensures var (after, end) := Answered(w, l, response);
            && MessagesFrom(after.transcript) == after.messages + Flushed(after.results)
            && (end.None? ==> FaithfulAtHead(after))
  {
    var said := Said(l, response);
    ToolUsesAre(response.blocks);
    RebuildSnoc(l.transcript, AssistantTurn(response.blocks));
    UseToolsFaithful(w, said, ToolUses(response.blocks));
    assert l.messages + Flushed(l.results) == l.messages;
    assert said.messages + Flushed(said.results) == said.messages;
    var closed := UseTools(w, said, ToolUses(response.blocks)).0;
    assert closed.messages + [UserResults(closed.results)] + Flushed([]) == closed.messages + [UserResults(closed.results)];
  }

  lemma {:induction false} LoopFaithful(w: World, l: Live)
    requires FaithfulAtHead(l)
    ensures var after := Loop(w, l).0; MessagesFrom(after.transcript) == after.messages + Flushed(after.results)
    decreases w.maxIterations - l.consumed.iterations
  {
    assert l.messages + Flushed(l.results) == l.messages;
    if l.consumed.iterations < w.maxIterations && w.complete(l.messages).Some? {
      var response := w.complete(l.messages).value;
      AnsweredFaithful(w, l, response);
      if Answered(w, l, response).1.None? {
        AnsweredIterates(w, l, response);
        LoopFaithful(w, Answered(w, l, response).0);
      }
    }
  }

  /** However the turn ends, and whatever the transcript held before it, the recorded rows
      rebuild to the live messages and the results of the round it died in. */
  lemma TranscriptIsConversation(w: World, s: Session, text: string)
    ensures var (after, end) := TurnOf(w, s, text);
            && MessagesFrom(after.transcript) == after.messages + Flushed(after.results)
            && (end == Completed ==> MessagesFrom(after.transcript) == after.messages)
  {
    RebuildSnoc(s.transcript, UserTurn(text));
    LoopFaithful(w, Open(s, text));
    LoopCounts(w, Open(s, text));
    var after := TurnOf(w, s, text).0;
    assert after.messages + [] == after.messages;
  }

  // ---------------------------------------------------------------- budgets

  predicate TurnCounts(w: World, l: Live, after: Live, end: End) {
    && after.consumed.iterations <= Most(l.consumed.iterations, w.maxIterations)
    && after.consumed.toolCalls <= Most(l.consumed.toolCalls, w.maxToolCalls)
    && l.attempts <= after.attempts
    && after.attempts - l.attempts == after.consumed.toolCalls - l.consumed.toolCalls + (if end == ToolRaised then 1 else 0)
    && (l.consumed.toolCalls <= w.maxToolCalls ==> after.attempts - l.attempts <= w.maxToolCalls - l.consumed.toolCalls)
    && after.stored.toolCalls <= after.consumed.toolCalls && after.stored.iterations <= after.consumed.iterations
    && (after.stored == after.consumed <==> !LosesConsumption(end))
    && (after.stored.toolCalls - l.stored.toolCalls == after.attempts - l.attempts <==> !DiesInRound(end, after.results))
    && after.stored.toolCalls - l.stored.toolCalls <= after.attempts - l.attempts
    && (end == Completed ==> after.results == [] && after.consumed.tokens <= w.maxTokens)
  }

  lemma {:induction false} LoopCounts(w: World, l: Live)
    requires l.results == [] && l.stored == l.consumed
    ensures var (after, end) := Loop(w, l); TurnCounts(w, l, after, end)
    decreases w.maxIterations - l.consumed.iterations
  {
    if l.consumed.iterations < w.maxIterations && w.complete(l.messages).Some? {
      var response := w.complete(l.messages).value;
      AnsweredCounts(w, l, response);
      if Answered(w, l, response).1.None? {
        LoopCounts(w, Answered(w, l, response).0);
      }
    }
  }

  lemma TurnIsCounted(w: World, s: Session, text: string)
    ensures var (after, end) := TurnOf(w, s, text); TurnCounts(w, Opened(s), after, end)
  {
    LoopCounts(w, Open(s, text));
  }

  /** One turn keeps every budget: model calls, tool calls, and tokens of an answer it accepts. */
  lemma BudgetsHold(w: World, s: Session, text: string)
    requires s.stored.iterations <= w.maxIterations && s.stored.toolCalls <= w.maxToolCalls
    ensures var (after, end) := TurnOf(w, s, text);
            && after.consumed.iterations <= w.maxIterations
            && s.stored.toolCalls + after.attempts <= w.maxToolCalls
            && after.stored.iterations <= w.maxIterations && after.stored.toolCalls <= w.maxToolCalls
            && (end == Completed ==> after.consumed.tokens <= w.maxTokens)
  {
    TurnIsCounted(w, s, text);
  }

  /** The session row accounts for every tool use of a turn if and only if the turn did not
      end between trying a tool and the next write of the row, and for everything it consumed
      if and only if it did not end between using something up and that write. */
  lemma TurnAccountedIff(w: World, s: Session, text: string)
    ensures var (after, end) := TurnOf(w, s, text);
            && (after.stored.toolCalls == s.stored.toolCalls + after.attempts <==> !DiesInRound(end, after.results))
            && (after.stored == after.consumed <==> !LosesConsumption(end))
            && after.stored.toolCalls <= s.stored.toolCalls + after.attempts
  {
    TurnIsCounted(w, s, text);
  }

  // ---------------------------------------------------------------- series of turns

  /** A turn of a session: what the model and the tools do in it, and the user's message. */
  type Prompt = (World, string)

  /** A series of turns, each starting when the one before has ended: the session row it ends
      with, the tool uses tried, and whether some turn died in a tool round. */
  datatype Series = Series(stored: Consumed, attempts: nat, died: bool)

  function AfterTurn(after: Live): Session {
    Session(after.transcript, after.stored, after.running)
  }

  function SeriesOf(s: Session, turns: seq<Prompt>): Series
    decreases |turns|
  {
    if turns == [] then Series(s.stored, 0, false)
    else
      var (after, end) := TurnOf(turns[0].0, s, turns[0].1);
      var rest := SeriesOf(AfterTurn(after), turns[1..]);
      Series(rest.stored, after.attempts + rest.attempts, rest.died || DiesInRound(end, after.results))
  }

  /** The row accounts for every tool use of a series if and only if no turn of it died in a
      tool round. */
  lemma {:induction false} SeriesAccountedIff(s: Session, turns: seq<Prompt>)
    ensures var series := SeriesOf(s, turns);
            && (series.stored.toolCalls == s.stored.toolCalls + series.attempts <==> !series.died)
            && series.stored.toolCalls <= s.stored.toolCalls + series.attempts
    decreases |turns|
  {
    if turns != [] {
      TurnAccountedIff(turns[0].0, s, turns[0].1);
      SeriesAccountedIff(AfterTurn(TurnOf(turns[0].0, s, turns[0].1).0), turns[1..]);
    }
  }

  lemma {:induction false} SeriesRowWithinBudget(s: Session, turns: seq<Prompt>, maxToolCalls: nat)
    requires s.stored.toolCalls <= maxToolCalls && forall t | t in turns :: t.0.maxToolCalls == maxToolCalls
    ensures SeriesOf(s, turns).stored.toolCalls <= maxToolCalls
    decreases |turns|
  {
    if turns != [] {
      assert turns[0] in turns;
      TurnIsCounted(turns[0].0, s, turns[0].1);
      SeriesRowWithinBudget(AfterTurn(TurnOf(turns[0].0, s, turns[0].1).0), turns[1..], maxToolCalls);
    }
  }

  /** So the tool budget bounds a whole session in which no turn dies in a tool round. */
  lemma SessionKeepsBudget(s: Session, turns: seq<Prompt>, maxToolCalls: nat)
    requires s.stored.toolCalls <= maxToolCalls && forall t | t in turns :: t.0.maxToolCalls == maxToolCalls
    requires !SeriesOf(s, turns).died
    ensures s.stored.toolCalls + SeriesOf(s, turns).attempts <= maxToolCalls
  {
    SeriesAccountedIff(s, turns);
    SeriesRowWithinBudget(s, turns, maxToolCalls);
  }

  /** What makes the first tool round of a turn the last. */
  datatype Failure = ToolFails | RecordFails | StoreFails

  /** A model that always asks for one tool, and a failure in the round of that tool. */
  function FailingWorld(calls: nat, tool: string, failure: Failure): World {
    World(20, 100000, calls, true, _ => Some(Response([ToolUse("t", tool, "{}")], 1)), {tool},
          (_, _) => if failure == ToolFails then None else Some("{}"),
          (_, row) => row != ToolRow || failure != RecordFails,
          (_, at) => at != AfterRound || failure != StoreFails)
  }

  /** And no budget bounds a session whose turns do: with such a model, a series of any length
      tries as many tools and leaves the session row as it was. */
  lemma {:induction false} DyingTurnsEscapeBudget(calls: nat, tool: string, transcript: seq<Turn>, turns: seq<Prompt>)
    requires calls > 0 && forall t | t in turns :: exists failure :: t.0 == FailingWorld(calls, tool, failure)
    ensures SeriesOf(Session(transcript, Consumed(0, 0, 0), true), turns) == Series(Consumed(0, 0, 0), |turns|, turns != [])
    decreases |turns|
  {
    if turns != [] {
      assert turns[0] in turns;
      var failure :| turns[0].0 == FailingWorld(calls, tool, failure);
      var zero := Consumed(0, 0, 0);
      FailingTurn(calls, tool, failure, transcript, turns[0].1);
      var after := TurnOf(turns[0].0, Session(transcript, zero, true), turns[0].1).0;
      DyingTurnsEscapeBudget(calls, tool, after.transcript, turns[1..]);
    }
  }

  lemma FailingTurn(calls: nat, tool: string, failure: Failure, transcript: seq<Turn>, text: string)
    requires calls > 0
    ensures var zero := Consumed(0, 0, 0);
            var (after, end) := TurnOf(FailingWorld(calls, tool, failure), Session(transcript, zero, true), text);
            after.stored == zero && after.running && after.attempts == 1 && DiesInRound(end, after.results)
  {
    var w := FailingWorld(calls, tool, failure);
    var s := Session(transcript, Consumed(0, 0, 0), true);
    var blocks := [ToolUse("t", tool, "{}")];
    assert blocks[1..] == [];
    assert ToolUses(blocks) == blocks;
    var response := Response(blocks, 1);
    var said := Said(Open(s, text), response);
    var (next, stop) := UseTool(w, said, blocks[0]);
    assert UseTools(w, said, blocks) == (if stop.Some? then (next, stop) else UseTools(w, next, []));
    assert UseTools(w, said, blocks) == (next, stop);
    var (after, end) := Answered(w, Open(s, text), response);
    assert end.Some? && after.stored == s.stored && after.attempts == 1;
    assert Loop(w, Open(s, text)) == (after, end.value);
  }
}
