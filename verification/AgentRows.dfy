/** What a turn of services/intelligence/app/agent_runtime.py writes and why it ends, told by
    the rows it adds to the transcript: the user's text, each answer of the model to the
    messages so far, and the result of each tool use of the answer in front of it. */
module AgentRows {
  import opened Wrappers
  import opened AgentTurn

  // ---------------------------------------------------------------- reading rows

  /** The `k`-th tool use among the blocks. */
  function NthUse(blocks: seq<Block>, k: nat): Option<Block> {
    if blocks == [] then None
    else if blocks[0].ToolUse? then if k == 0 then Some(blocks[0]) else NthUse(blocks[1..], k - 1)
    else NthUse(blocks[1..], k)
  }

  /** The blocks of the last answer. */
  function Spoken(rows: seq<Turn>): seq<Block> {
    if rows == [] then []
    else if rows[|rows| - 1].AssistantTurn? then rows[|rows| - 1].blocks
    else Spoken(rows[..|rows| - 1])
  }

  /** How many tool rows follow it. */
  function Trailing(rows: seq<Turn>): nat {
    if rows == [] || !rows[|rows| - 1].ToolTurn? then 0 else Trailing(rows[..|rows| - 1]) + 1
  }

  function ToolRows(rows: seq<Turn>): nat {
    if rows == [] then 0 else ToolRows(rows[..|rows| - 1]) + if rows[|rows| - 1].ToolTurn? then 1 else 0
  }

  /** The tool use whose result comes next, if the last answer has one left. */
  function NextUse(rows: seq<Turn>): Option<Block> {
    NthUse(Spoken(rows), Trailing(rows))
  }

  function AnswerTo(w: World, prior: seq<Turn>, rows: seq<Turn>): Option<Response> {
    w.complete(MessagesFrom(prior + rows))
  }

  /** A tool outside the list is not called. */
  predicate IsResult(w: World, n: nat, use: Block, result: string)
    requires use.ToolUse?
  {
    if use.name in w.tools then w.invoke(n, use) == Some(result) else result == UnknownTool(use.name)
  }

  predicate Fits(w: World, prior: seq<Turn>, text: string, rows: seq<Turn>, row: Turn) {
    match row
    case UserTurn(said) => rows == [] && said == text
    case AssistantTurn(blocks) =>
      && rows != [] && NextUse(rows).None?
      && AnswerTo(w, prior, rows).Some? && blocks == AnswerTo(w, prior, rows).value.blocks
    case ToolTurn(id, result) =>
      (match NextUse(rows)
       case Some(ToolUse(useId, name, input)) => id == useId && IsResult(w, ToolRows(rows), ToolUse(useId, name, input), result)
       case _ => false)
    case OtherTurn => false
  }

  /** Each row is the one that comes next. */
  predicate Follows(w: World, prior: seq<Turn>, text: string, rows: seq<Turn>) {
    rows == [] || (Follows(w, prior, text, rows[..|rows| - 1]) && Fits(w, prior, text, rows[..|rows| - 1], rows[|rows| - 1]))
  }

  function Plus(c: Consumed, iterations: nat, tokens: nat, toolCalls: nat): Consumed {
    Consumed(c.iterations + iterations, c.tokens + tokens, c.toolCalls + toolCalls)
  }

  /** What the rows cost: each answer its tokens, each tool row a call. */
  function Cost(w: World, prior: seq<Turn>, rows: seq<Turn>, start: Consumed): Consumed {
    if rows == [] then start
    else
      var front := rows[..|rows| - 1];
      var before := Cost(w, prior, front, start);
      match rows[|rows| - 1]
      case AssistantTurn(_) => Plus(before, 1, if AnswerTo(w, prior, front).Some? then AnswerTo(w, prior, front).value.tokens else 0, 0)
      case ToolTurn(_, _) => Plus(before, 0, 0, 1)
      case _ => before
  }

  // ---------------------------------------------------------------- why a turn ends

  /** The last answer came and was counted, but has no row. */
  predicate AnswerUnrecorded(end: End) {
    end == OverTokens || end == StoreRaised(AtTokens) || end == RecordRaised(AssistantRow)
  }

  /** What a turn has used up when it ends. */
  function Used(w: World, s: Session, rows: seq<Turn>, end: End): Consumed {
    var cost := Cost(w, s.transcript, rows, s.stored);
    if AnswerUnrecorded(end) && AnswerTo(w, s.transcript, rows).Some?
    then Plus(cost, 1, AnswerTo(w, s.transcript, rows).value.tokens, 0)
    else if end == RecordRaised(ToolRow) then Plus(cost, 0, 0, 1)
    else cost
  }

  /** Each way to end has its one reason. */
  predicate EndsFor(w: World, s: Session, rows: seq<Turn>, used: Consumed, end: End) {
    var written, use, answer := |s.transcript| + |rows|, NextUse(rows), AnswerTo(w, s.transcript, rows);
    match end
    case NotRunning => !s.running && rows == []
    case ListRaised => !w.lists && |rows| == 1
    case ModelRaised => rows != [] && use.None? && answer.None? && used.iterations < w.maxIterations
    case Completed => rows != [] && rows[|rows| - 1].AssistantTurn? && use.None? && used.tokens <= w.maxTokens && w.stores(written, AtAnswer)
    case OverIterations => rows != [] && use.None? && used.iterations >= w.maxIterations && w.stores(written, AtIterations)
    case OverTokens => answer.Some? && used.tokens > w.maxTokens && w.stores(written, AtTokens)
    case OverToolCalls => use.Some? && used.toolCalls >= w.maxToolCalls && w.stores(written, AtToolCalls)
    case ToolRaised => use.Some? && use.value.ToolUse? && use.value.name in w.tools && w.invoke(ToolRows(rows), use.value).None?
    case RecordRaised(row) =>
      && !w.records(written, row)
      && (match row
          case UserRow => rows == []
          case AssistantRow => rows != [] && answer.Some? && used.tokens <= w.maxTokens
          case ToolRow => use.Some? && use.value.ToolUse? && (use.value.name in w.tools ==> w.invoke(ToolRows(rows), use.value).Some?))
    case StoreRaised(store) =>
      && !w.stores(written, store)
      && (match store
          case AtIterations => use.None? && used.iterations >= w.maxIterations
          case AtTokens => answer.Some? && used.tokens > w.maxTokens
          case AtToolCalls => use.Some? && used.toolCalls >= w.maxToolCalls
          case AfterRound => use.None? && Trailing(rows) > 0
          case AtAnswer => rows != [] && rows[|rows| - 1].AssistantTurn? && use.None? && used.tokens <= w.maxTokens)
  }

  // ---------------------------------------------------------------- a turn step by step

  lemma {:induction false} NthUseIs(blocks: seq<Block>, k: nat)
    ensures NthUse(blocks, k) == if k < |ToolUses(blocks)| then Some(ToolUses(blocks)[k]) else None
  {
    if blocks != [] {
      NthUseIs(blocks[1..], if blocks[0].ToolUse? && k > 0 then k - 1 else k);
    }
  }

  /** The turn so far, from the transcript of session `s`. */
  ghost predicate Tracks(w: World, s: Session, text: string, l: Live, rows: seq<Turn>) {
    && l.transcript == s.transcript + rows && rows != []
    && Follows(w, s.transcript, text, rows)
    && l.attempts == ToolRows(rows) && l.consumed == Cost(w, s.transcript, rows, s.stored)
    && l.running && s.running
  }

  /** The turn when it has ended. */
  ghost predicate Explains(w: World, s: Session, text: string, after: Live, end: End, rows: seq<Turn>) {
    && after.transcript == s.transcript + rows
    && Follows(w, s.transcript, text, rows)
    && after.consumed == Used(w, s, rows, end)
    && EndsFor(w, s, rows, after.consumed, end)
    && (after.running <==> s.running && end !in {OverIterations, OverTokens, OverToolCalls})
  }

  lemma RowsSnoc(w: World, s: Session, text: string, rows: seq<Turn>, row: Turn)
    requires Follows(w, s.transcript, text, rows) && Fits(w, s.transcript, text, rows, row)
    ensures var all := rows + [row];
            && Follows(w, s.transcript, text, all)
            && (row.ToolTurn? ==> Spoken(all) == Spoken(rows) && Trailing(all) == Trailing(rows) + 1 && ToolRows(all) == ToolRows(rows) + 1
                                  && Cost(w, s.transcript, all, s.stored) == Plus(Cost(w, s.transcript, rows, s.stored), 0, 0, 1))
            && (row.AssistantTurn? ==> Spoken(all) == row.blocks && Trailing(all) == 0 && ToolRows(all) == ToolRows(rows)
                                       && Cost(w, s.transcript, all, s.stored)
                                          == Plus(Cost(w, s.transcript, rows, s.stored), 1, AnswerTo(w, s.transcript, rows).value.tokens, 0))
            && s.transcript + all == s.transcript + rows + [row]
  {
    assert (rows + [row])[..|rows|] == rows;
  }

  lemma {:induction false} UseToolsTracks(w: World, s: Session, text: string, l: Live, rows: seq<Turn>, k: nat) returns (rows': seq<Turn>)
    requires Tracks(w, s, text, l, rows) && Trailing(rows) == k <= |ToolUses(Spoken(rows))|
    ensures forall b | b in ToolUses(Spoken(rows))[k..] :: b.ToolUse?
    ensures var (after, end) := UseTools(w, l, ToolUses(Spoken(rows))[k..]);
            if end.Some? then Explains(w, s, text, after, end.value, rows')
            else Tracks(w, s, text, after, rows') && NextUse(rows').None? && Trailing(rows') == |ToolUses(Spoken(rows))|
    decreases |ToolUses(Spoken(rows))| - k
  {
    var uses := ToolUses(Spoken(rows));
    ToolUsesAre(Spoken(rows));
    NthUseIs(Spoken(rows), k);
    rows' := rows;
    if k < |uses| {
      var (next, end) := UseTool(w, l, uses[k]);
      assert uses[k..][0] == uses[k] && uses[k..][1..] == uses[k + 1..];
      if end.Some? {
        UseToolEnds(w, s, text, l, rows, uses[k]);
      } else {
        rows' := UseToolTracks(w, s, text, l, rows, uses[k]);
        rows' := UseToolsTracks(w, s, text, next, rows', k + 1);
      }
    }
  }

  lemma UseToolEnds(w: World, s: Session, text: string, l: Live, rows: seq<Turn>, use: Block)
    requires Tracks(w, s, text, l, rows) && NextUse(rows) == Some(use) && use.ToolUse? && UseTool(w, l, use).1.Some?
    ensures var (after, end) := UseTool(w, l, use); Explains(w, s, text, after, end.value, rows)
  {
  }

  lemma UseToolTracks(w: World, s: Session, text: string, l: Live, rows: seq<Turn>, use: Block) returns (rows': seq<Turn>)
    requires Tracks(w, s, text, l, rows) && NextUse(rows) == Some(use) && use.ToolUse? && UseTool(w, l, use).1.None?
    ensures Tracks(w, s, text, UseTool(w, l, use).0, rows') && Spoken(rows') == Spoken(rows) && Trailing(rows') == Trailing(rows) + 1
  {
    var row := UseTool(w, l, use).0.transcript[|l.transcript|];
    RowsSnoc(w, s, text, rows, row);
    rows' := rows + [row];
  }

  /** The answer recorded. */
  lemma SaidTracks(w: World, s: Session, text: string, l: Live, rows: seq<Turn>, response: Response)
    requires Tracks(w, s, text, l, rows) && NextUse(rows).None? && AnswerTo(w, s.transcript, rows) == Some(response)
    ensures var all := rows + [AssistantTurn(response.blocks)];
            && Tracks(w, s, text, Said(l, response), all)
            && all[|all| - 1].AssistantTurn? && Spoken(all) == response.blocks && Trailing(all) == 0
            && (NextUse(all).None? <==> ToolUses(response.blocks) == [])
  {
    RowsSnoc(w, s, text, rows, AssistantTurn(response.blocks));
    NthUseIs(response.blocks, 0);
  }

  lemma AnsweredTracks(w: World, s: Session, text: string, l: Live, rows: seq<Turn>, response: Response) returns (rows': seq<Turn>)
    requires Tracks(w, s, text, l, rows) && NextUse(rows).None? && AnswerTo(w, s.transcript, rows) == Some(response)
    ensures var (after, end) := Answered(w, l, response);
            if end.Some? then Explains(w, s, text, after, end.value, rows')
            else Tracks(w, s, text, after, rows') && NextUse(rows').None?
  {
    rows' := rows;
    var uses := ToolUses(response.blocks);
    ToolUsesAre(response.blocks);
    if Counted(l, response).consumed.tokens > w.maxTokens || !w.records(|l.transcript|, AssistantRow) {
      UnrecordedEnds(w, s, text, l, rows, response);
    } else {
      SaidTracks(w, s, text, l, rows, response);
      rows' := rows + [AssistantTurn(response.blocks)];
      if uses == [] {
        LastAnswerEnds(w, s, text, l, response, rows');
      } else {
        assert uses[0..] == uses;
        rows' := UseToolsTracks(w, s, text, Said(l, response), rows', 0);
        RoundTracks(w, s, text, l, response, rows');
      }
    }
  }

  lemma UnrecordedEnds(w: World, s: Session, text: string, l: Live, rows: seq<Turn>, response: Response)
    requires Tracks(w, s, text, l, rows) && AnswerTo(w, s.transcript, rows) == Some(response)
    requires Counted(l, response).consumed.tokens > w.maxTokens || !w.records(|l.transcript|, AssistantRow)
    ensures var (after, end) := Answered(w, l, response); end.Some? && Explains(w, s, text, after, end.value, rows)
  {
  }

  lemma LastAnswerEnds(w: World, s: Session, text: string, l: Live, response: Response, rows: seq<Turn>)
    requires Tracks(w, s, text, Said(l, response), rows) && NextUse(rows).None? && rows[|rows| - 1].AssistantTurn?
    requires Counted(l, response).consumed.tokens <= w.maxTokens && w.records(|l.transcript|, AssistantRow)
    requires ToolUses(response.blocks) == []
    ensures var (after, end) := Answered(w, l, response); end.Some? && Explains(w, s, text, after, end.value, rows)
  {
  }

  /** The end of a round. */
  lemma RoundTracks(w: World, s: Session, text: string, l: Live, response: Response, rows: seq<Turn>)
    requires ToolUses(response.blocks) != [] && Counted(l, response).consumed.tokens <= w.maxTokens && w.records(|l.transcript|, AssistantRow)
    requires (forall b | b in ToolUses(response.blocks) :: b.ToolUse?)
    requires var (after, end) := UseTools(w, Said(l, response), ToolUses(response.blocks));
             if end.Some? then Explains(w, s, text, after, end.value, rows)
             else Tracks(w, s, text, after, rows) && NextUse(rows).None? && Trailing(rows) == |ToolUses(response.blocks)|
    ensures var (after, end) := Answered(w, l, response);
            if end.Some? then Explains(w, s, text, after, end.value, rows)
            else Tracks(w, s, text, after, rows) && NextUse(rows).None?
  {
  }

  lemma {:induction false} LoopTracks(w: World, s: Session, text: string, l: Live, rows: seq<Turn>) returns (rows': seq<Turn>)
    requires Tracks(w, s, text, l, rows) && FaithfulAtHead(l) && NextUse(rows).None?
    ensures var (after, end) := Loop(w, l); Explains(w, s, text, after, end, rows')
    decreases w.maxIterations - l.consumed.iterations
  {
    rows' := rows;
    assert AnswerTo(w, s.transcript, rows) == w.complete(l.messages);
    if l.consumed.iterations < w.maxIterations && w.complete(l.messages).Some? {
      var response := w.complete(l.messages).value;
      rows' := AnsweredTracks(w, s, text, l, rows, response);
      AnsweredFaithful(w, l, response);
      AnsweredIterates(w, l, response);
      if Answered(w, l, response).1.None? {
        rows' := LoopTracks(w, s, text, Answered(w, l, response).0, rows');
      }
    }
  }

  lemma OpenTracks(w: World, s: Session, text: string)
    requires s.running
    ensures Tracks(w, s, text, Open(s, text), [UserTurn(text)])
    ensures NextUse([UserTurn(text)]).None? && FaithfulAtHead(Open(s, text))
  {
    var rows: seq<Turn> := [];
    RowsSnoc(w, s, text, rows, UserTurn(text));
    assert rows + [UserTurn(text)] == [UserTurn(text)] && [UserTurn(text)][..0] == rows;
    assert Spoken([UserTurn(text)]) == Spoken(rows) == [];
    RebuildSnoc(s.transcript, UserTurn(text));
  }

  lemma TurnRows(w: World, s: Session, text: string) returns (rows: seq<Turn>)
    ensures var (after, end) := TurnOf(w, s, text); Explains(w, s, text, after, end, rows)
  {
    rows := [];
    assert s.transcript + rows == s.transcript;
    if s.running && w.records(|s.transcript|, UserRow) {
      OpenTracks(w, s, text);
      rows := [UserTurn(text)];
      if w.lists {
        rows := LoopTracks(w, s, text, Open(s, text), rows);
      }
    }
  }

  /** Every turn, however it ends: the rows it adds are the user's text, the model's answers to
      the messages before them, and for the tool uses of each answer, in order and with their
      ids, what the tool answered, or the unknown-tool error exactly for a name that is not
      listed. It has used up what those rows cost, and it ends for the reason it gives. */
  lemma TurnExplained(w: World, s: Session, text: string)
    ensures var (after, end) := TurnOf(w, s, text);
            && s.transcript <= after.transcript
            && Explains(w, s, text, after, end, after.transcript[|s.transcript|..])
  {
    var rows := TurnRows(w, s, text);
    assert (s.transcript + rows)[|s.transcript|..] == rows;
  }

  // ---------------------------------------------------------------- tools that are not listed

  /** The worlds differ only in what a tool that is not listed would answer. */
  ghost predicate SameListedTools(w: World, v: World) {
    && w == v.(invoke := w.invoke)
    && (forall n, b: Block | b.ToolUse? && b.name in w.tools :: w.invoke(n, b) == v.invoke(n, b))
  }

  lemma {:induction false} UseToolsAlike(w: World, v: World, l: Live, blocks: seq<Block>)
    requires SameListedTools(w, v) && (forall b | b in blocks :: b.ToolUse?)
    ensures UseTools(w, l, blocks) == UseTools(v, l, blocks)
    decreases |blocks|
  {
    if blocks != [] {
      var (next, end) := UseTool(w, l, blocks[0]);
      if end.None? {
        UseToolsAlike(w, v, next, blocks[1..]);
      }
    }
  }

  lemma {:induction false} LoopAlike(w: World, v: World, l: Live)
    requires SameListedTools(w, v)
    ensures Loop(w, l) == Loop(v, l)
    decreases w.maxIterations - l.consumed.iterations
  {
    if l.consumed.iterations < w.maxIterations && w.complete(l.messages).Some? {
      var response := w.complete(l.messages).value;
      ToolUsesAre(response.blocks);
      UseToolsAlike(w, v, Said(l, response), ToolUses(response.blocks));
      AnsweredIterates(w, l, response);
      if Answered(w, l, response).1.None? {
        LoopAlike(w, v, Answered(w, l, response).0);
      }
    }
  }

  /** So a turn never depends on what a tool that is not listed would answer. */
  lemma UnlistedToolsDoNotMatter(w: World, v: World, s: Session, text: string)
    requires SameListedTools(w, v)
    ensures TurnOf(w, s, text) == TurnOf(v, s, text)
  {
    LoopAlike(w, v, Open(s, text));
  }
}
