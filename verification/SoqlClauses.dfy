/** Which part of a query the filter of `_apply_cursor` ends up in. The outer query is read as
    the words and marks that stand outside literals and parentheses, whatever white space is
    between them, independently of how services/connectivity/app/salesforce_source_fetch.py
    looks for its keywords. */
module SoqlClauses {
  import opened Wrappers
  import opened SoqlCursor

  // ---------------------------------------------------------------- the outer query as tokens

  predicate IsWordChar(c: char) {
    'a' <= c <= 'z' || 'A' <= c <= 'Z' || '0' <= c <= '9' || c == '_' || c == '.'
  }

  predicate IsWord(w: string) {
    w != "" && forall i | 0 <= i < |w| :: IsWordChar(w[i])
  }

  predicate IsWhite(c: char) {
    c == ' ' || c == '\t' || c == '\n' || c == '\r'
  }

  datatype Token = Word(text: string) | Mark(c: char)

  /** A reader of the outer query: its quote mode, how many parentheses it is inside of, the
      word it is reading, and the tokens in front of that. */
  datatype Lex = Lex(mode: Mode, depth: int, word: string, tokens: seq<Token>)

  const Start := Lex(Out, 0, "", [])

  function Paren(c: char): int {
    if c == '(' then 1 else if c == ')' then -1 else 0
  }

  function Closed(l: Lex): seq<Token> {
    if l.word == "" then l.tokens else l.tokens + [Word(l.word)]
  }

  /** A literal is one mark, its opening quote, and so is what stands in parentheses. */
  function LexStep(l: Lex, c: char): Lex {
    if l.mode != Out then l.(mode := Step(l.mode, c))
    else if l.depth != 0 then l.(mode := Step(Out, c), depth := l.depth + Paren(c))
    else if IsWordChar(c) then l.(word := l.word + [LowerChar(c)])
    else Lex(Step(Out, c), Paren(c), "", Closed(l) + if IsWhite(c) then [] else [Mark(c)])
  }

  function LexFrom(l: Lex, s: string): Lex {
    if s == "" then l else LexStep(LexFrom(l, s[..|s| - 1]), s[|s| - 1])
  }

  function Tokens(s: string): seq<Token> {
    Closed(LexFrom(Start, s))
  }

  lemma {:induction false} LexConcat(l: Lex, a: string, b: string)
    ensures LexFrom(l, a + b) == LexFrom(LexFrom(l, a), b)
    decreases |b|
  {
    if b == "" {
      assert a + b == a;
    } else {
      assert (a + b)[..|a + b| - 1] == a + b[..|b| - 1];
      LexConcat(l, a, b[..|b| - 1]);
    }
  }

  lemma LexOne(l: Lex, c: char)
    ensures LexFrom(l, [c]) == LexStep(l, c)
  {
    assert [c][..0] == "";
  }

  lemma {:induction false} LexMode(l: Lex, s: string)
    ensures LexFrom(l, s).mode == ModeFrom(l.mode, s, |s|)
  {
    if s != "" {
      LexMode(l, s[..|s| - 1]);
      ReadOn(l.mode, s, 0, s[..|s| - 1], |s| - 1);
    }
  }

  /** Inside a literal or parentheses no word is being read. */
  lemma {:induction false} NoWordInside(s: string)
    ensures var l := LexFrom(Start, s); l.mode != Out || l.depth != 0 ==> l.word == ""
  {
    if s != "" {
      NoWordInside(s[..|s| - 1]);
    }
  }

  /** What has been read before does not matter to what is read from here. */
  lemma {:induction false} LexShift(l: Lex, before: seq<Token>, s: string)
    ensures var r := LexFrom(l, s); LexFrom(l.(tokens := before + l.tokens), s) == r.(tokens := before + r.tokens)
  {
    if s != "" {
      LexShift(l, before, s[..|s| - 1]);
      var r := LexFrom(l, s[..|s| - 1]);
      assert before + (r.tokens + [Word(r.word)]) == before + r.tokens + [Word(r.word)];
      var c := s[|s| - 1];
      assert before + (Closed(r) + [Mark(c)]) == before + Closed(r) + [Mark(c)];
      assert before + (Closed(r) + []) == before + Closed(r) + [];
    }
  }

  lemma {:induction false} LexWord(l: Lex, w: string)
    requires l.mode == Out && l.depth == 0 && forall i | 0 <= i < |w| :: IsWordChar(w[i])
    ensures LexFrom(l, w) == l.(word := l.word + Lower(w))
  {
    if w == "" {
      assert l.word + Lower(w) == l.word;
    } else {
      var front := w[..|w| - 1];
      LexWord(l, front);
      assert l.word + Lower(front) + [LowerChar(w[|w| - 1])] == l.word + Lower(w);
    }
  }

  /** Nothing of the outer query is read inside a literal. */
  lemma {:induction false} LexInside(l: Lex, body: string)
    requires forall n | 0 <= n < |body| :: ModeFrom(l.mode, body, n) != Out
    ensures LexFrom(l, body) == l.(mode := ModeFrom(l.mode, body, |body|))
  {
    if body != "" {
      var front := body[..|body| - 1];
      forall n | 0 <= n <= |front|
        ensures ModeFrom(l.mode, front, n) == ModeFrom(l.mode, body, n)
      {
        ReadOn(l.mode, body, 0, front, n);
      }
      LexInside(l, front);
    }
  }

  // ---------------------------------------------------------------- the clauses

  /** Words that open a clause, and those that do with a BY. */
  datatype Grammar = Grammar(clauses: set<string>, clausesBy: set<string>)

  /** The clauses behind the object list of a query. */
  const SOQL := Grammar({"where", "with", "having", "limit", "offset", "for", "update"}, {"group", "order"})

  predicate Separates(g: Grammar) {
    && "where" in g.clauses && "where" !in g.clausesBy
    && "and" !in g.clauses + g.clausesBy && "by" !in g.clauses + g.clausesBy
  }

  predicate Opens(g: Grammar, t: seq<Token>, i: nat)
    requires i < |t|
  {
    && t[i].Word?
    && (t[i].text in g.clauses || (t[i].text in g.clausesBy && i + 1 < |t| && t[i + 1] == Word("by")))
  }

  /** The first clause from position `i` on, or the end. */
  function Ahead(g: Grammar, t: seq<Token>, i: nat): (a: nat)
    requires i <= |t|
    ensures i <= a <= |t|
    ensures a < |t| ==> Opens(g, t, a)
    ensures forall j | i <= j < a :: !Opens(g, t, j)
    decreases |t| - i
  {
    if i == |t| || Opens(g, t, i) then i else Ahead(g, t, i + 1)
  }

  /** A query: what precedes its first clause, its WHERE condition, and the other clauses. */
  datatype Query = Query(front: seq<Token>, cond: Option<seq<Token>>, rest: seq<Token>)

  function Read(g: Grammar, t: seq<Token>): Query {
    var a := Ahead(g, t, 0);
    if a < |t| && t[a] == Word("where") then
      var b := Ahead(g, t, a + 1);
      Query(t[..a], Some(t[a + 1..b]), t[b..])
    else Query(t[..a], None, t[a..])
  }

  function Compared(field: string): seq<Token> {
    [Word(Lower(field)), Mark('>'), Mark('=')]
  }

  /** The comparison of a field with a value. */
  function FilterOf(field: string, value: seq<Token>): seq<Token> {
    Compared(field) + value
  }

  /** No word of the value means anything to the grammar. */
  predicate IsValue(g: Grammar, value: seq<Token>) {
    value != [] && forall i | 0 <= i < |value| && value[i].Word? :: value[i].text !in g.clauses + g.clausesBy + {"or"}
  }

  /** `after` is `before` but for the filter, which is its whole condition or the last conjunct
      of it. A conjunct of the whole condition it is only where no OR stands. */
  predicate Joined(before: Query, after: Query, filter: seq<Token>) {
    && after.front == before.front && after.rest == before.rest
    && after.cond == Some(if before.cond.Some? then before.cond.value + [Word("and")] + filter else filter)
    && Word("or") !in after.cond.value
  }

  /** What stands before the insertion point, in the outer query, has no clause but a WHERE,
      has that exactly if one was found, and no OR in it; and the field is no clause word. */
  predicate TakesFilter(g: Grammar, head: seq<Token>, found: bool, field: string) {
    var q := Read(g, head);
    && q.rest == []
    && (found <==> q.cond.Some?)
    && (q.cond.Some? ==> Word("or") !in q.cond.value)
    && Lower(field) !in g.clauses + {"or"}
  }

  /** No clause word that needs its BY is cut off from it. */
  predicate Apart(g: Grammar, a: seq<Token>, b: seq<Token>) {
    a == [] || b == [] || b[0] != Word("by") || !(a[|a| - 1].Word? && a[|a| - 1].text in g.clausesBy)
  }

  lemma OpensConcat(g: Grammar, a: seq<Token>, b: seq<Token>)
    requires Apart(g, a, b)
    ensures forall i: nat | i < |a| :: Opens(g, a + b, i) <==> Opens(g, a, i)
    ensures forall i: nat | i < |b| :: Opens(g, a + b, |a| + i) <==> Opens(g, b, i)
  {
  }

  lemma AheadIs(g: Grammar, t: seq<Token>, i: nat, a: nat)
    requires i <= a <= |t| && (a < |t| ==> Opens(g, t, a)) && forall j: nat | i <= j < a :: !Opens(g, t, j)
    ensures Ahead(g, t, i) == a
  {
  }

  /** From position `i` on in `b`, whatever precedes `b`. */
  lemma AheadBehind(g: Grammar, a: seq<Token>, b: seq<Token>, i: nat)
    requires Separates(g) && Apart(g, a, b) && i <= |b|
    ensures Ahead(g, a + b, |a| + i) == |a| + Ahead(g, b, i)
  {
    OpensConcat(g, a, b);
    var e := |a| + Ahead(g, b, i);
    assert e < |a + b| ==> Opens(g, a + b, |a| + (e - |a|));
    forall j: nat | |a| + i <= j < e
      ensures !Opens(g, a + b, j)
    {
      assert Opens(g, a + b, |a| + (j - |a|)) <==> Opens(g, b, j - |a|);
    }
    AheadIs(g, a + b, |a| + i, e);
  }

  predicate Clauseless(g: Grammar, t: seq<Token>) {
    Ahead(g, t, 0) == |t|
  }

  predicate IsRest(g: Grammar, tail: seq<Token>) {
    tail == [] || Opens(g, tail, 0)
  }

  /** Behind a text without clauses the first clause is that of what follows. */
  lemma AheadPast(g: Grammar, a: seq<Token>, b: seq<Token>)
    requires Separates(g) && Clauseless(g, a) && Apart(g, a, b)
    ensures Ahead(g, a + b, 0) == |a| + Ahead(g, b, 0)
  {
    AheadBehind(g, a, b, 0);
    OpensConcat(g, a, b);
    AheadIs(g, a + b, 0, |a| + Ahead(g, b, 0));
  }

  /** What `Read` finds is what its tokens are made of. */
  lemma Decompose(g: Grammar, t: seq<Token>)
    requires Separates(g)
    ensures var q := Read(g, t);
            && t == q.front + ((if q.cond.Some? then [Word("where")] + q.cond.value else []) + q.rest)
            && Clauseless(g, q.front) && IsRest(g, q.rest)
            && (q.cond.Some? ==> Clauseless(g, q.cond.value))
            && (q.cond.None? && q.rest != [] ==> q.rest[0] != Word("where"))
  {
    var a := Ahead(g, t, 0);
    Stretch(g, t, 0, a);
    assert t[0..a] == t[..a];
    if a < |t| && t[a] == Word("where") {
      var b := Ahead(g, t, a + 1);
      Stretch(g, t, a + 1, b);
      CutAt(t, a, b);
    } else {
      assert t == t[..a] + t[a..] && [] + t[a..] == t[a..];
    }
  }

  lemma CutAt(t: seq<Token>, a: nat, b: nat)
    requires a < b <= |t|
    ensures t == t[..a] + ([t[a]] + t[a + 1..b] + t[b..])
  {
  }

  /** Between a position and the first clause from there on no clause opens. */
  lemma Stretch(g: Grammar, t: seq<Token>, i: nat, a: nat)
    requires i <= |t| && a == Ahead(g, t, i)
    ensures Clauseless(g, t[i..a]) && IsRest(g, t[a..])
  {
    var s := t[i..a];
    forall j: nat | j < |s|
      ensures !Opens(g, s, j)
    {
      assert !Opens(g, t, i + j);
    }
    AheadIs(g, s, 0, |s|);
    if a < |t| {
      assert Opens(g, t, a);
      assert t[a..][0] == t[a] && (a + 1 < |t| ==> t[a..][1] == t[a + 1]);
    }
  }

  lemma ReadWhere(g: Grammar, front: seq<Token>, cond: seq<Token>, rest: seq<Token>)
    requires Separates(g) && Clauseless(g, front) && Clauseless(g, cond) && IsRest(g, rest)
    ensures Read(g, front + ([Word("where")] + cond + rest)) == Query(front, Some(cond), rest)
  {
    var behind := [Word("where")] + cond + rest;
    AheadIs(g, behind, 0, 0);
    AheadPast(g, front, behind);
    AheadIs(g, rest, 0, 0);
    AheadPast(g, cond, rest);
    AheadBehindWhere(g, front, cond + rest);
    SeqAssoc(front, [Word("where")], cond + rest);
    SeqAssoc([Word("where")], cond, rest);
    ThreeParts(front, Word("where"), cond, rest);
  }

  lemma AheadBehindWhere(g: Grammar, front: seq<Token>, tail: seq<Token>)
    requires Separates(g)
    ensures Ahead(g, front + [Word("where")] + tail, |front| + 1) == |front| + 1 + Ahead(g, tail, 0)
  {
    AheadBehind(g, front + [Word("where")], tail, 0);
  }

  lemma SeqAssoc(a: seq<Token>, b: seq<Token>, c: seq<Token>)
    ensures a + b + c == a + (b + c)
  {
  }

  lemma ThreeParts(front: seq<Token>, where: Token, cond: seq<Token>, rest: seq<Token>)
    ensures var t, a := front + ([where] + cond + rest), |front|;
            t[..a] == front && t[a] == where && t[a + 1..a + 1 + |cond|] == cond && t[a + 1 + |cond|..] == rest
  {
  }

  lemma ReadPlain(g: Grammar, front: seq<Token>, rest: seq<Token>)
    requires Separates(g) && Clauseless(g, front) && IsRest(g, rest) && (rest != [] ==> rest[0] != Word("where"))
    ensures Read(g, front + rest) == Query(front, None, rest)
  {
    AheadIs(g, rest, 0, 0);
    AheadPast(g, front, rest);
  }

  // ---------------------------------------------------------------- the insertion on tokens

  /** The words inserted in front of the literal, and its mark. */
  function Added(found: bool, field: string, value: seq<Token>): seq<Token> {
    [Word(if found then "and" else "where")] + FilterOf(field, value)
  }

  /** On tokens: the query is joined to the filter if and only if the head takes it. */
  lemma JoinedIff(g: Grammar, head: seq<Token>, tail: seq<Token>, found: bool, field: string, value: seq<Token>)
    requires Separates(g) && IsValue(g, value) && IsRest(g, tail) && (tail != [] ==> tail[0] != Word("where"))
    ensures Joined(Read(g, head + tail), Read(g, head + (Added(found, field, value) + tail)), FilterOf(field, value))
            <==> TakesFilter(g, head, found, field)
  {
    var q := Read(g, head);
    if q.rest != [] {
      AppendToRest(g, head, tail);
      AppendToRest(g, head, Added(found, field, value) + tail);
    } else if q.cond.Some? {
      JoinedToWhere(g, head, tail, found, field, value);
    } else {
      JoinedToNone(g, head, tail, found, field, value);
    }
  }

  /** Behind a further clause nothing reaches the condition. */
  lemma AppendToRest(g: Grammar, head: seq<Token>, more: seq<Token>)
    requires Separates(g) && Read(g, head).rest != []
    ensures Read(g, head + more) == Read(g, head).(rest := Read(g, head).rest + more)
  {
    var q := Read(g, head);
    var rest := q.rest + more;
    Decompose(g, head);
    assert Opens(g, rest, 0) && rest[0] == q.rest[0];
    if q.cond.Some? {
      ReadWhere(g, q.front, q.cond.value, rest);
      Regroup(q.front, [Word("where")] + q.cond.value, q.rest, more);
    } else {
      ReadPlain(g, q.front, rest);
      Regroup(q.front, [], q.rest, more);
      assert [] + rest == rest && [] + q.rest == q.rest;
    }
  }

  lemma Regroup(a: seq<Token>, b: seq<Token>, c: seq<Token>, d: seq<Token>)
    ensures a + (b + c) + d == a + (b + (c + d))
  {
  }

  lemma FilterReads(g: Grammar, field: string, value: seq<Token>)
    requires IsValue(g, value)
    ensures var filter := FilterOf(field, value); if Lower(field) in g.clauses then Opens(g, filter, 0) else Clauseless(g, filter)
  {
    if Lower(field) !in g.clauses {
      AheadIs(g, FilterOf(field, value), 0, |FilterOf(field, value)|);
    }
  }

  /** The clauses behind a head that has at most its WHERE clause. */
  lemma ReadBehind(g: Grammar, head: seq<Token>, rest: seq<Token>)
    requires Separates(g) && IsRest(g, rest) && Read(g, head).rest == []
    requires Read(g, head).cond.Some? || rest == [] || rest[0] != Word("where")
    ensures Read(g, head + rest) == Read(g, head).(rest := rest)
  {
    var q := Read(g, head);
    Decompose(g, head);
    if q.cond.Some? {
      var where := [Word("where")] + q.cond.value;
      ReadWhere(g, q.front, q.cond.value, rest);
      assert head == q.front + where by {
        assert where + [] == where;
      }
      assert q.front + where + rest == q.front + (where + rest);
    } else {
      ReadPlain(g, q.front, rest);
      assert head == q.front;
    }
  }

  lemma OrIn(g: Grammar, cond: seq<Token>, field: string, value: seq<Token>)
    requires IsValue(g, value)
    ensures Word("or") in cond + [Word("and")] + FilterOf(field, value) <==> Word("or") in cond || Lower(field) == "or"
    ensures Word("or") in FilterOf(field, value) <==> Lower(field) == "or"
  {
    assert FilterOf(field, value)[0] == Word(Lower(field));
  }

  lemma JoinedToWhere(g: Grammar, head: seq<Token>, tail: seq<Token>, found: bool, field: string, value: seq<Token>)
    requires Separates(g) && IsValue(g, value) && IsRest(g, tail) && (tail != [] ==> tail[0] != Word("where"))
    requires Read(g, head).rest == [] && Read(g, head).cond.Some?
    ensures Joined(Read(g, head + tail), Read(g, head + (Added(found, field, value) + tail)), FilterOf(field, value))
            <==> TakesFilter(g, head, found, field)
  {
    var q, filter := Read(g, head), FilterOf(field, value);
    ReadBehind(g, head, tail);
    OrIn(g, q.cond.value, field, value);
    if !found {
      assert Opens(g, Added(found, field, value) + tail, 0);
      ReadBehind(g, head, Added(found, field, value) + tail);
      assert Read(g, head + (Added(found, field, value) + tail)).cond == q.cond;
    } else {
      Decompose(g, head);
      JoinedByAnd(g, q.front, q.cond.value, filter, tail, field, value);
      var where := [Word("where")] + q.cond.value;
      assert where + [] == where;
      assert |q.cond.value + [Word("and")]| < |q.cond.value + [Word("and")] + filter|;
    }
  }

  lemma JoinedByAnd(g: Grammar, front: seq<Token>, cond: seq<Token>, filter: seq<Token>, tail: seq<Token>, field: string, value: seq<Token>)
    requires Separates(g) && IsValue(g, value) && Clauseless(g, front) && Clauseless(g, cond) && IsRest(g, tail)
    requires filter == FilterOf(field, value)
    ensures var q := Read(g, front + ([Word("where")] + cond) + ([Word("and")] + filter + tail));
            if Lower(field) in g.clauses then q.cond == Some(cond + [Word("and")])
            else q == Query(front, Some(cond + [Word("and")] + filter), tail)
  {
    var where, and := [Word("where")], [Word("and")];
    AheadIs(g, and, 0, 1);
    AheadPast(g, cond, and);
    FilterReads(g, field, value);
    if Lower(field) in g.clauses {
      assert Opens(g, filter + tail, 0);
      ReadWhere(g, front, cond + and, filter + tail);
      FiveParts(front, where, cond, and, filter, tail);
    } else {
      AheadPast(g, cond + and, filter);
      ReadWhere(g, front, cond + and + filter, tail);
      FiveParts(front, where, cond, and, filter, tail);
    }
  }

  lemma FiveParts(a: seq<Token>, b: seq<Token>, c: seq<Token>, d: seq<Token>, e: seq<Token>, f: seq<Token>)
    ensures a + (b + c) + (d + e + f) == a + (b + (c + d) + (e + f)) == a + (b + (c + d + e) + f)
  {
    assert d + e + f == d + (e + f);
    assert b + (c + d) + (e + f) == b + c + (d + e + f);
    assert b + (c + d + e) + f == b + c + (d + e + f);
  }

  lemma JoinedToNone(g: Grammar, head: seq<Token>, tail: seq<Token>, found: bool, field: string, value: seq<Token>)
    requires Separates(g) && IsValue(g, value) && IsRest(g, tail) && (tail != [] ==> tail[0] != Word("where"))
    requires Read(g, head).rest == [] && Read(g, head).cond.None?
    ensures Joined(Read(g, head + tail), Read(g, head + (Added(found, field, value) + tail)), FilterOf(field, value))
            <==> TakesFilter(g, head, found, field)
  {
    Decompose(g, head);
    assert head == Read(g, head).front;
    ReadBehind(g, head, tail);
    OrIn(g, [], field, value);
    if found {
      var more := Added(found, field, value) + tail;
      AheadPast(g, head, more);
      assert !Opens(g, more, 0);
      assert |Read(g, head + more).front| > |head|;
    } else {
      JoinedByWhere(g, head, FilterOf(field, value), tail, field, value);
    }
  }

  lemma JoinedByWhere(g: Grammar, front: seq<Token>, filter: seq<Token>, tail: seq<Token>, field: string, value: seq<Token>)
    requires Separates(g) && IsValue(g, value) && Clauseless(g, front) && IsRest(g, tail)
    requires filter == FilterOf(field, value)
    ensures var q := Read(g, front + ([Word("where")] + filter + tail));
            if Lower(field) in g.clauses then q.cond == Some([]) else q == Query(front, Some(filter), tail)
  {
    FilterReads(g, field, value);
    if Lower(field) in g.clauses {
      AheadIs(g, [], 0, 0);
      assert Opens(g, filter + tail, 0);
      ReadWhere(g, front, [], filter + tail);
      assert [Word("where")] + [] + (filter + tail) == [Word("where")] + filter + tail;
    } else {
      ReadWhere(g, front, filter, tail);
    }
  }

  // ---------------------------------------------------------------- the insertion read as tokens

  const KEYWORD_CHARS := " order by limit offset"

  /** The folding shows the characters of the trailing keywords where they stand in the text,
      as `str.lower` does on a text without U+0130, the one letter that gets longer. */
  ghost predicate KeepsPlaces(fold: Fold, s: string) {
    |fold(s)| == |s| && forall i, c | 0 <= i < |s| && c in KEYWORD_CHARS :: fold(s)[i] == c <==> LowerChar(s[i]) == c
  }

  /** A word and white space behind it. */
  lemma LexWordWhite(tokens: seq<Token>, w: string, white: char)
    requires IsWord(w) && IsWhite(white)
    ensures LexFrom(Lex(Out, 0, "", tokens), w + [white]) == Lex(Out, 0, "", tokens + [Word(Lower(w))])
  {
    var l := Lex(Out, 0, "", tokens);
    LexConcat(l, w, [white]);
    LexWord(l, w);
    assert "" + Lower(w) == Lower(w);
    LexOne(l.(word := Lower(w)), white);
  }

  lemma LexComparison(tokens: seq<Token>, field: string)
    requires IsWord(field)
    ensures LexFrom(Lex(Out, 0, "", tokens), field + " >= ") == Lex(Out, 0, "", tokens + Compared(field))
  {
    assert field + " >= " == (field + [' ']) + ">= ";
    LexConcat(Lex(Out, 0, "", tokens), field + [' '], ">= ");
    LexWordWhite(tokens, field, ' ');
    LexOperator(tokens + [Word(Lower(field))]);
    assert tokens + [Word(Lower(field))] + [Mark('>'), Mark('=')] == tokens + Compared(field);
  }

  /** The word that joins the filter. */
  lemma LexJoiner(l: Lex, w: string)
    requires l.mode == Out && l.depth == 0 && IsWord(w)
    ensures LexFrom(l, [' '] + (w + [' '])) == Lex(Out, 0, "", Closed(l) + [Word(Lower(w))])
  {
    LexOne(l, ' ');
    LexConcat(l, [' '], w + [' ']);
    LexWordWhite(Closed(l), w, ' ');
    assert Closed(l) + [] == Closed(l);
  }

  function Joiner(found: bool): string {
    if found then " AND " else " WHERE "
  }

  lemma JoinerWord(found: bool) returns (w: string)
    ensures IsWord(w) && Joiner(found) == [' '] + (w + [' '])
    ensures Lower(w) == if found then "and" else "where"
  {
    w := if found then "AND" else "WHERE";
  }

  function JoinWord(found: bool): Token {
    Word(if found then "and" else "where")
  }

  lemma LexJoint(l: Lex, found: bool, field: string)
    requires l.mode == Out && l.depth == 0 && IsWord(field)
    ensures LexFrom(l, Joiner(found) + (field + " >= ")) == Lex(Out, 0, "", Closed(l) + [JoinWord(found)] + Compared(field))
  {
    var w := JoinerWord(found);
    LexJoiner(l, w);
    LexConcat(l, Joiner(found), field + " >= ");
    LexComparison(Closed(l) + [JoinWord(found)], field);
  }

  lemma AddedIs(tokens: seq<Token>, found: bool, field: string, value: seq<Token>)
    ensures tokens + [JoinWord(found)] + Compared(field) + value == tokens + Added(found, field, value)
  {
    assert Added(found, field, value) == [JoinWord(found)] + (Compared(field) + value);
  }

  lemma LexOperator(tokens: seq<Token>)
    ensures LexFrom(Lex(Out, 0, "", tokens), ">= ") == Lex(Out, 0, "", tokens + [Mark('>'), Mark('=')])
  {
    var l := Lex(Out, 0, "", tokens);
    assert ">= " == ['>'] + (['='] + [' ']);
    LexConcat(l, ['>'], ['='] + [' ']);
    LexOne(l, '>');
    var l1 := Lex(Out, 0, "", tokens + [Mark('>')]);
    LexConcat(l1, ['='], [' ']);
    LexOne(l1, '=');
    LexOne(Lex(Out, 0, "", tokens + [Mark('>')] + [Mark('=')]), ' ');
    assert tokens + [Mark('>')] + [Mark('=')] + [] == tokens + [Mark('>'), Mark('=')];
  }

  /** In parentheses a text without parentheses and quotes is not read. */
  lemma {:induction false} LexInParens(l: Lex, s: string)
    requires l.mode == Out && l.depth != 0 && forall c | c in s :: Paren(c) == 0 && c != '\''
    ensures LexFrom(l, s) == l
  {
    if s != "" {
      assert s[|s| - 1] in s;
      LexInParens(l, s[..|s| - 1]);
    }
  }

  /** A literal is read as its opening quote. */
  lemma LexLiteral(l: Lex, body: string)
    requires l.mode == Out && l.word == "" && StaysIn(body)
    ensures LexFrom(l, "'" + body + "'") == if l.depth == 0 then l.(tokens := l.tokens + [Mark('\'')]) else l
  {
    var open := LexStep(l, '\'');
    LexConcat(l, "'" + body, "'");
    LexConcat(l, "'", body);
    LexOne(l, '\'');
    LexInside(open, body);
    LexOne(open, '\'');
    LexOne(open.(mode := ModeFrom(In, body, |body|)), '\'');
  }

  /** From between two tokens, or a word that the text's first character ends, the rest is
      read on its own. */
  lemma LexBehind(l: Lex, s: string)
    requires l.mode == Out && l.depth == 0 && (l.word == "" || s == "" || IsWhite(s[0]))
    ensures Closed(LexFrom(l, s)) == Closed(l) + Tokens(s)
  {
    if s == "" {
      assert Closed(l) + [] == Closed(l);
    } else if l.word == "" {
      assert l == Start.(tokens := l.tokens + []);
      LexBehindTokens(l.tokens, s);
    } else {
      assert s == [s[0]] + s[1..];
      LexConcat(l, [s[0]], s[1..]);
      LexConcat(Start, [s[0]], s[1..]);
      LexOne(l, s[0]);
      LexOne(Start, s[0]);
      assert Closed(l) + [] == Closed(l);
      LexBehindTokens(Closed(l), s[1..]);
    }
  }

  lemma LexBehindTokens(tokens: seq<Token>, s: string)
    ensures Closed(LexFrom(Lex(Out, 0, "", tokens), s)) == tokens + Tokens(s)
  {
    LexShift(Start, tokens, s);
    var r := LexFrom(Start, s);
    assert tokens + [] == tokens;
    assert tokens + (r.tokens + [Word(r.word)]) == tokens + r.tokens + [Word(r.word)];
  }

  /** A value as tokens: a text literal is its opening quote, a date its numbers and marks. */
  function ValueTokens(value: Value): seq<Token> {
    match value
    case Literal(_) => [Mark('\'')]
    case Date(text) => Tokens(text)
  }

  predicate IsPlain(value: Value) {
    value.Date? ==> IsDate(value.text)
  }

  lemma DateChars(text: string)
    requires IsDate(text)
    ensures QuoteFree(text) && forall c | c in text :: Paren(c) == 0 && c != '\''
  {
  }

  /** Outside parentheses a text without them stays outside. */
  lemma {:induction false} LexFlat(l: Lex, s: string)
    requires l.mode == Out && l.depth == 0 && forall i | 0 <= i < |s| :: Paren(s[i]) == 0 && s[i] != '\''
    ensures LexFrom(l, s).mode == Out && LexFrom(l, s).depth == 0
  {
    if s != "" {
      LexFlat(l, s[..|s| - 1]);
    }
  }

  /** A value and what follows it. */
  lemma LexValue(tokens: seq<Token>, value: Value, tail: string)
    requires IsPlain(value) && (tail == "" || IsWhite(tail[0]))
    ensures Closed(LexFrom(LexFrom(Lex(Out, 0, "", tokens), Rendering(value)), tail)) == tokens + ValueTokens(value) + Tokens(tail)
  {
    match value
    case Literal(cursor) =>
      EscapedStaysIn(cursor);
      LexLiteral(Lex(Out, 0, "", tokens), Escape(cursor));
      LexBehindTokens(tokens + [Mark('\'')], tail);
    case Date(text) =>
      var l := Lex(Out, 0, "", tokens);
      DateChars(text);
      assert forall i | 0 <= i < |text| :: text[i] in text;
      LexFlat(l, text);
      LexBehindTokens(tokens, text);
      LexBehind(LexFrom(l, text), tail);
  }

  lemma ValueInParens(l: Lex, value: Value)
    requires l.mode == Out && l.depth != 0 && l.word == "" && IsPlain(value)
    ensures LexFrom(l, Rendering(value)) == l
  {
    match value
    case Literal(cursor) =>
      EscapedStaysIn(cursor);
      LexLiteral(l, Escape(cursor));
    case Date(text) =>
      DateChars(text);
      LexInParens(l, text);
  }

  lemma JointHasNoParens(found: bool, field: string)
    requires IsWord(field)
    ensures forall c | c in Joiner(found) + (field + " >= ") :: Paren(c) == 0 && c != '\''
  {
    assert forall c | c in field :: IsWordChar(c);
  }

  /** A trailing clause outside quotes, as the code finds it, opens a clause. */
  lemma TailOpens(fold: Fold, soql: string, split: nat)
    requires IsSplit(fold, soql, split) && KeepsPlaces(fold, soql) && split < |soql|
    ensures IsWhite(soql[split])
    ensures var tokens := Tokens(soql[split..]); IsRest(SOQL, tokens) && tokens != [] && tokens[0] != Word("where")
  {
    var k :| 0 <= k < 3 && Found(fold, soql, TAILS[k], split);
    var tail := soql[split..];
    KeywordStands(fold, soql, TAILS[k], split);
    assert |tail| >= |TAILS[k]| && Lower(tail[..|TAILS[k]|]) == TAILS[k];
    if k == 0 {
      OrderByOpens(tail);
    } else {
      OneWordOpens(tail, if k == 1 then "limit" else "offset");
    }
  }

  lemma KeywordStands(fold: Fold, soql: string, keyword: string, at: nat)
    requires KeepsPlaces(fold, soql) && StartsAt(fold, soql, keyword, at) && forall c | c in keyword :: c in KEYWORD_CHARS
    ensures at + |keyword| <= |soql| && Lower(soql[at..][..|keyword|]) == keyword
  {
    var text := soql[at..][..|keyword|];
    forall i | 0 <= i < |keyword|
      ensures Lower(text)[i] == keyword[i]
    {
      assert fold(soql)[at + i] == fold(soql)[at..at + |keyword|][i];
      assert keyword[i] in keyword;
    }
  }

  /** White space, a word, white space. */
  lemma LexFirstWord(tokens: seq<Token>, s: string, w: string)
    requires |s| == |w| + 2 && IsWhite(s[0]) && IsWhite(s[|w| + 1])
    requires IsWord(s[1..|w| + 1]) && Lower(s[1..|w| + 1]) == w
    ensures LexFrom(Lex(Out, 0, "", tokens), s) == Lex(Out, 0, "", tokens + [Word(w)])
  {
    var l, word, last := Lex(Out, 0, "", tokens), s[1..|w| + 1], s[|w| + 1];
    assert s == [s[0]] + (word + [last]);
    LexConcat(l, [s[0]], word + [last]);
    LexOne(l, s[0]);
    assert LexStep(l, s[0]) == l by {
      assert tokens + [] == tokens;
    }
    LexWordWhite(tokens, word, last);
  }

  predicate IsSmall(w: string) {
    w != "" && forall i | 0 <= i < |w| :: 'a' <= w[i] <= 'z'
  }

  lemma LoweredWord(s: string, w: string)
    requires |s| == |w| + 2 && Lower(s) == [' '] + (w + [' ']) && IsSmall(w)
    ensures s[0] == ' ' && s[|w| + 1] == ' '
    ensures IsWord(s[1..|w| + 1]) && Lower(s[1..|w| + 1]) == w
  {
    var word := s[1..|w| + 1];
    assert Lower(s)[0] == ' ' && Lower(s)[|w| + 1] == ' ';
    assert Lower(s)[1..|w| + 1] == w;
    forall i | 0 <= i < |w|
      ensures LowerChar(word[i]) == w[i] && IsWordChar(word[i])
    {
      assert Lower(s)[1..|w| + 1][i] == LowerChar(s[i + 1]);
    }
  }

  /** `tokens` open one of the clauses behind the condition. */
  lemma OpensRest(tokens: seq<Token>, w: string, more: seq<Token>)
    requires tokens == [Word(w)] + more && w != "where"
    requires w in SOQL.clauses || (w in SOQL.clausesBy && more != [] && more[0] == Word("by"))
    ensures IsRest(SOQL, tokens) && tokens != [] && tokens[0] != Word("where")
  {
  }

  lemma OneWordOpens(tail: string, w: string)
    requires w in SOQL.clauses && w != "where" && IsSmall(w)
    requires |tail| >= |w| + 2 && Lower(tail[..|w| + 2]) == [' '] + (w + [' '])
    ensures tail[0] == ' '
    ensures var tokens := Tokens(tail); IsRest(SOQL, tokens) && tokens != [] && tokens[0] != Word("where")
  {
    var first, rest := tail[..|w| + 2], tail[|w| + 2..];
    LoweredWord(first, w);
    LexFirstWord([], first, w);
    LexConcat(Start, first, rest);
    assert tail == first + rest;
    LexBehindTokens([Word(w)], rest);
    assert [] + [Word(w)] == [Word(w)];
    OpensRest(Tokens(tail), w, Tokens(rest));
  }

  lemma OrderByOpens(tail: string)
    requires |tail| >= 10 && Lower(tail[..10]) == " order by "
    ensures tail[0] == ' '
    ensures var tokens := Tokens(tail); IsRest(SOQL, tokens) && tokens != [] && tokens[0] != Word("where")
  {
    var rest := tail[10..];
    LexOrderBy(tail[..10]);
    LexConcat(Start, tail[..10], rest);
    assert tail == tail[..10] + rest;
    LexBehindTokens([Word("order"), Word("by")], rest);
    assert [Word("order"), Word("by")] + Tokens(rest) == [Word("order")] + ([Word("by")] + Tokens(rest));
    OpensRest(Tokens(tail), "order", [Word("by")] + Tokens(rest));
  }

  lemma LexOrderBy(s: string)
    requires Lower(s) == " order by "
    ensures s[0] == ' ' && LexFrom(Start, s) == Lex(Out, 0, "", [Word("order"), Word("by")])
  {
    var order, second := s[..7], s[6..];
    assert Lower(order) == Lower(s)[..7] == [' '] + ("order" + [' ']);
    assert Lower(second) == Lower(s)[6..] == [' '] + ("by" + [' ']);
    LoweredWord(order, "order");
    LoweredWord(second, "by");
    LexFirstWord([], order, "order");
    assert [] + [Word("order")] == [Word("order")] && [Word("order")] + [Word("by")] == [Word("order"), Word("by")];
    LexWordWhite([Word("order")], second[1..3], second[3]);
    assert s == order + (second[1..3] + [second[3]]);
    LexConcat(Start, order, second[1..3] + [second[3]]);
  }

  // ---------------------------------------------------------------- which queries take the filter

  /** The value at `p` stands outside literals, and the outer query with the filter is the
      outer query as it was, its condition restricted by the filter. */
  ghost predicate FiltersOuterQuery(soql: string, out: string, p: nat, field: string, value: Value)
    requires p <= |out|
  {
    ModeAt(out, p) == Out && Joined(Read(SOQL, Tokens(soql)), Read(SOQL, Tokens(out)), FilterOf(field, ValueTokens(value)))
  }

  /** The text ends outside literals and parentheses. */
  predicate EndsOutside(head: string) {
    LexFrom(Start, head).mode == Out && LexFrom(Start, head).depth == 0
  }

  /** The output, in its parts. */
  function Parts(head: string, found: bool, field: string, value: Value, tail: string): string {
    head + (Joiner(found) + (field + " >= ")) + Rendering(value) + tail
  }

  lemma InsertedParts(found: bool, soql: string, split: nat, field: string, value: Value)
    requires split <= |soql|
    ensures Inserted(found, soql, split, field, value) == Parts(soql[..split], found, field, value, soql[split..])
  {
    var head, tail, joint := soql[..split], soql[split..], Joiner(found) + (field + " >= ");
    assert Lead(found, field) == joint;
    assert head + joint + (Rendering(value) + tail) == head + joint + Rendering(value) + tail;
  }

  lemma LexParts(head: string, found: bool, field: string, value: Value, tail: string)
    ensures LexFrom(Start, Parts(head, found, field, value, tail))
            == LexFrom(LexFrom(LexFrom(LexFrom(Start, head), Joiner(found) + (field + " >= ")), Rendering(value)), tail)
  {
    var joint := Joiner(found) + (field + " >= ");
    LexConcat(Start, head, joint);
    LexConcat(Start, head + joint, Rendering(value));
    LexConcat(Start, head + joint + Rendering(value), tail);
  }

  lemma InsertedTokens(head: string, tail: string, found: bool, field: string, value: Value)
    requires LexFrom(Start, head).mode == Out && IsWord(field) && IsPlain(value)
    requires tail == "" || IsWhite(tail[0])
    ensures var out := Parts(head, found, field, value, tail);
            if EndsOutside(head) then
              && Tokens(head + tail) == Tokens(head) + Tokens(tail)
              && Tokens(out) == Tokens(head) + (Added(found, field, ValueTokens(value)) + Tokens(tail))
            else Tokens(out) == Tokens(head + tail)
  {
    var l := LexFrom(Start, head);
    NoWordInside(head);
    LexConcat(Start, head, tail);
    LexParts(head, found, field, value, tail);
    if EndsOutside(head) {
      LexBehind(l, tail);
      LexJoint(l, found, field);
      LexValue(Closed(l) + [JoinWord(found)] + Compared(field), value, tail);
      AddedIs(Closed(l), found, field, ValueTokens(value));
      SeqAssoc(Closed(l), Added(found, field, ValueTokens(value)), Tokens(tail));
    } else {
      JointHasNoParens(found, field);
      LexInParens(l, Joiner(found) + (field + " >= "));
      ValueInParens(l, value);
    }
  }

  lemma NotJoinedToItself(q: Query, filter: seq<Token>)
    requires filter != []
    ensures !Joined(q, q, filter)
  {
    if q.cond.Some? {
      assert |q.cond.value + [Word("and")] + filter| > |q.cond.value|;
    }
  }

  lemma ModeOfHead(soql: string, split: nat)
    requires split <= |soql|
    ensures LexFrom(Start, soql[..split]).mode == ModeAt(soql, split)
  {
    LexMode(Start, soql[..split]);
    ReadOn(Out, soql, 0, soql[..split], split);
  }

  lemma WordHasNoQuotes(field: string)
    requires IsWord(field)
    ensures QuoteFree(field)
  {
    assert forall c | c in field :: IsWordChar(c);
  }

  /** Where the value stands. */
  lemma ValueMode(found: bool, soql: string, split: nat, field: string, value: Value)
    requires split <= |soql| && IsWord(field)
    ensures var out, p := Inserted(found, soql, split, field, value), |Front(found, soql, split, field)|;
            p <= |out| && (ModeAt(out, p) == Out <==> ModeAt(soql, split) == Out)
  {
    var front := Front(found, soql, split, field);
    WordHasNoQuotes(field);
    FrontMode(found, soql, split, field);
    ModeOfFront(front, value, soql[split..]);
  }

  lemma ModeOfFront(front: string, value: Value, tail: string)
    ensures ModeAt(Behind(front, value, tail), |front|) == ModeFrom(Out, front, |front|)
  {
    ReadOn(Out, Behind(front, value, tail), 0, front, |front|);
  }

  lemma TailIsRest(fold: Fold, soql: string, split: nat)
    requires IsSplit(fold, soql, split) && KeepsPlaces(fold, soql)
    ensures split < |soql| ==> IsWhite(soql[split])
    ensures var tail := Tokens(soql[split..]); IsRest(SOQL, tail) && (tail != [] ==> tail[0] != Word("where"))
  {
    if split < |soql| {
      TailOpens(fold, soql, split);
    } else {
      assert soql[split..] == "";
    }
  }

  /** The output against the query, as tokens. */
  lemma OutputTokens(found: bool, soql: string, split: nat, field: string, value: Value)
    requires split <= |soql| && ModeAt(soql, split) == Out && (split < |soql| ==> IsWhite(soql[split]))
    requires IsWord(field) && IsPlain(value)
    ensures var head, tail, out := soql[..split], Tokens(soql[split..]), Inserted(found, soql, split, field, value);
            if EndsOutside(head) then
              Tokens(soql) == Tokens(head) + tail && Tokens(out) == Tokens(head) + (Added(found, field, ValueTokens(value)) + tail)
            else Tokens(out) == Tokens(soql)
  {
    var head, tail := soql[..split], soql[split..];
    ModeOfHead(soql, split);
    InsertedParts(found, soql, split, field, value);
    assert soql == head + tail;
    InsertedTokens(head, tail, found, field, value);
  }

  /** For every query, cursor and joiner: the filter restricts the condition of the outer
      query, and changes nothing else of it, if and only if the query up to the insertion
      point ends outside literals and parentheses, has no clause in the outer query but a
      WHERE, has that exactly if the joiner says so, and has no OR in it; and the field is no
      clause word. */
  lemma FiltersOuterQueryIff(fold: Fold, found: bool, soql: string, split: nat, field: string, value: Value)
    requires IsSplit(fold, soql, split) && KeepsPlaces(fold, soql) && IsWord(field) && IsPlain(value)
    ensures var out, p := Inserted(found, soql, split, field, value), |Front(found, soql, split, field)|;
            && p <= |out|
            && (FiltersOuterQuery(soql, out, p, field, value)
                <==> EndsOutside(soql[..split]) && TakesFilter(SOQL, Tokens(soql[..split]), found, field))
  {
    ValueMode(found, soql, split, field, value);
    ModeOfHead(soql, split);
    if ModeAt(soql, split) == Out {
      OutputJoinedIff(fold, found, soql, split, field, value);
    }
  }

  lemma OutputJoinedIff(fold: Fold, found: bool, soql: string, split: nat, field: string, value: Value)
    requires IsSplit(fold, soql, split) && KeepsPlaces(fold, soql) && IsWord(field) && IsPlain(value)
    requires ModeAt(soql, split) == Out
    ensures var head, out := soql[..split], Inserted(found, soql, split, field, value);
            Joined(Read(SOQL, Tokens(soql)), Read(SOQL, Tokens(out)), FilterOf(field, ValueTokens(value)))
            <==> EndsOutside(head) && TakesFilter(SOQL, Tokens(head), found, field)
  {
    var head, out := soql[..split], Inserted(found, soql, split, field, value);
    TailIsRest(fold, soql, split);
    OutputTokens(found, soql, split, field, value);
    SoqlSeparates();
    ValueIsPlain(value);
    TokensIff(SOQL, Tokens(head), Tokens(soql[split..]), Tokens(soql), Tokens(out), EndsOutside(head), found, field, ValueTokens(value));
  }

  /** The words of a date have digits, a small t and a small z in them only. */
  predicate IsNumber(w: string) {
    w != "" && forall i | 0 <= i < |w| :: '0' <= w[i] <= '9' || w[i] == 't' || w[i] == 'z'
  }

  lemma {:induction false} DateTokens(s: string)
    requires forall i | 0 <= i < |s| :: '0' <= s[i] <= '9' || s[i] in "-:TZ"
    ensures var l := LexFrom(Start, s);
            && l.mode == Out && l.depth == 0 && (l.word != "" ==> IsNumber(l.word)) && (s != "" ==> l.word != "" || l.tokens != [])
            && (forall i | 0 <= i < |l.tokens| && l.tokens[i].Word? :: IsNumber(l.tokens[i].text))
  {
    if s != "" {
      DateTokens(s[..|s| - 1]);
    }
  }

  lemma ValueIsPlain(value: Value)
    requires IsPlain(value)
    ensures IsValue(SOQL, ValueTokens(value))
  {
    if value.Date? {
      DateTokens(value.text);
      forall i | 0 <= i < |ValueTokens(value)| && ValueTokens(value)[i].Word?
        ensures ValueTokens(value)[i].text !in SOQL.clauses + SOQL.clausesBy + {"or"}
      {
        NumberIsNoClause(ValueTokens(value)[i].text);
      }
    }
  }

  lemma NumberIsNoClause(w: string)
    requires IsNumber(w)
    ensures w !in SOQL.clauses + SOQL.clausesBy + {"or"}
  {
    assert forall x | x in SOQL.clauses + SOQL.clausesBy + {"or"} :: x[0] in "whlofugo";
  }

  lemma SoqlSeparates()
    ensures Separates(SOQL)
  {
  }

  lemma TokensIff(g: Grammar, head: seq<Token>, tail: seq<Token>, before: seq<Token>, after: seq<Token>,
                  outside: bool, found: bool, field: string, value: seq<Token>)
    requires Separates(g) && IsValue(g, value) && IsRest(g, tail) && (tail != [] ==> tail[0] != Word("where"))
    requires if outside then before == head + tail && after == head + (Added(found, field, value) + tail) else before == after
    ensures Joined(Read(g, before), Read(g, after), FilterOf(field, value)) <==> outside && TakesFilter(g, head, found, field)
  {
    if outside {
      JoinedIff(g, head, tail, found, field, value);
    } else {
      NotJoinedToItself(Read(g, before), FilterOf(field, value));
    }
  }

  // ---------------------------------------------------------------- accepted queries that fail

  /** No space of the text has this small letter behind it. */
  predicate NoSpaceBefore(s: string, c: char) {
    forall i | 0 <= i < |s| - 1 && s[i] == ' ' :: LowerChar(s[i + 1]) != c
  }

  /** A piece of a query without quotes in which no trailing clause begins. */
  predicate Calm(s: string) {
    && s != "" && s[|s| - 1] != ' '
    && QuoteFree(s) && NoSpaceBefore(s, 'o') && NoSpaceBefore(s, 'l')
  }

  lemma CalmJoin(a: string, b: string)
    requires Calm(a) && Calm(b)
    ensures Calm(a + b)
    ensures NoSpaceBefore(a, 'w') && NoSpaceBefore(b, 'w') ==> NoSpaceBefore(a + b, 'w')
  {
    var s := a + b;
    forall i | 0 <= i < |s| - 1 && s[i] == ' '
      ensures if i < |a| then i < |a| - 1 && s[i] == a[i] && s[i + 1] == a[i + 1]
              else s[i] == b[i - |a|] && s[i + 1] == b[i - |a| + 1]
    {
    }
  }

  lemma KeywordIsSpaced(s: string, keyword: string, i: nat)
    requires |keyword| > 1 && keyword[0] == ' ' && StartsAt(Lower, s, keyword, i)
    ensures i + 1 < |s| && s[i] == ' ' && LowerChar(s[i + 1]) == keyword[1]
  {
    var start := Lower(s)[i..i + |keyword|];
    assert start[0] == LowerChar(s[i]) && start[1] == LowerChar(s[i + 1]);
  }

  lemma NoKeyword(s: string, keyword: string, i: nat)
    requires |keyword| > 1 && keyword[0] == ' ' && NoSpaceBefore(s, keyword[1])
    ensures !StartsAt(Lower, s, keyword, i)
  {
    if StartsAt(Lower, s, keyword, i) {
      KeywordIsSpaced(s, keyword, i);
    }
  }

  lemma NoWhere(s: string)
    requires NoSpaceBefore(s, 'w')
    ensures !HasWhere(Lower, s)
  {
    forall i: nat
      ensures !Found(Lower, s, " where ", i)
    {
      NoKeyword(s, " where ", i);
    }
  }

  /** Keywords in front of a space that follows the text are keywords of the text. */
  lemma NoneBefore(head: string, tail: string, keyword: string, i: nat)
    requires |keyword| > 1 && keyword[0] == ' ' && NoSpaceBefore(head, keyword[1])
    requires i < |head| && head[|head| - 1] != ' '
    ensures !StartsAt(Lower, head + tail, keyword, i)
  {
    if StartsAt(Lower, head + tail, keyword, i) {
      KeywordIsSpaced(head + tail, keyword, i);
    }
  }

  /** Text in which no trailing clause begins, then one: the filter goes between them. */
  lemma SplitsBefore(head: string, tail: string)
    requires Calm(head) && (tail == "" || (tail[0] == ' ' && StartsAt(Lower, tail, " limit ", 0)))
    ensures IsSplit(Lower, head + tail, |head|)
  {
    if tail != "" {
      LimitFound(head, tail);
    }
    forall i: nat | i < |head|
      ensures !FoundAny(Lower, head + tail, i)
    {
      NoneBefore(head, tail, " order by ", i);
      NoneBefore(head, tail, " limit ", i);
      NoneBefore(head, tail, " offset ", i);
    }
  }

  lemma LimitFound(head: string, tail: string)
    requires QuoteFree(head) && tail != "" && tail[0] == ' ' && StartsAt(Lower, tail, " limit ", 0)
    ensures FoundAny(Lower, head + tail, |head|)
  {
    var s := head + tail;
    assert Lower(s)[|head|..|head| + 7] == Lower(tail)[0..0 + 7];
    QuoteFreeMode(Out, head, |head|);
    ReadOn(Out, s, 0, head, |head|);
    assert Found(Lower, s, TAILS[1], |head|);
  }

  lemma WhereBetween(a: string, b: string)
    requires QuoteFree(a)
    ensures HasWhere(Lower, a + " where " + b)
  {
    var s := a + " where " + b;
    QuoteFreeMode(Out, a, |a|);
    ReadOn(Out, s, 0, a, |a|);
    assert Lower(s)[|a|..|a| + 7] == " where ";
    assert Found(Lower, s, " where ", |a|);
  }

  /** What the code makes of a query with the cursor `x`. */
  ghost function Output(soql: string, split: nat, field: string): string
    requires split <= |soql|
  {
    Inserted(HasWhere(Lower, soql[..split]), soql, split, field, Literal("x"))
  }

  /** The output, with its joiner. */
  lemma OutputIs(head: string, tail: string, found: bool, field: string)
    requires HasWhere(Lower, head) == found
    ensures Output(head + tail, |head|, field) == head + (Joiner(found) + field + " >= 'x'") + tail
  {
    assert Escape("x") == "x" by {
      assert "x"[1..] == "";
    }
    assert (head + tail)[..|head|] == head && (head + tail)[|head|..] == tail;
  }

  lemma OutputAtEnd(soql: string, found: bool, field: string)
    requires Calm(soql) && (HasWhere(Lower, soql) <==> found)
    ensures IsSplit(Lower, soql, |soql|)
    ensures Output(soql, |soql|, field) == soql + (Joiner(found) + field + " >= 'x'")
  {
    assert soql + "" == soql;
    SplitsBefore(soql, "");
    OutputIs(soql, "", found, field);
  }

  /** A query without a WHERE between two spaces gets one, whatever clause it ends with. */
  lemma OutputWithWhere(a: string, b: string)
    requires Calm(a) && Calm(b) && NoSpaceBefore(a, 'w') && NoSpaceBefore(b, 'w')
    ensures IsSplit(Lower, a + b, |a + b|)
    ensures Output(a + b, |a + b|, "d") == a + b + " WHERE d >= 'x'"
  {
    CalmJoin(a, b);
    NoWhere(a + b);
    OutputAtEnd(a + b, false, "d");
  }

  lemma PlainQuery()
    ensures Calm("select a from b") && NoSpaceBefore("select a from b", 'w')
  {
    var s := "select a from b";
    assert forall i | 0 <= i < |s| && s[i] == ' ' :: i == 6 || i == 8 || i == 13;
  }

  lemma OpenSubquery()
    ensures Calm("select a,(select b from c") && NoSpaceBefore("select a,(select b from c", 'w')
  {
    var s := "select a,(select b from c";
    assert forall i | 0 <= i < |s| && s[i] == ' ' :: i == 6 || i == 16 || i == 18 || i == 23;
  }

  /** A WHERE behind a line break is not seen, and a second one is written. */
  lemma NewlineWhereIsRepeated()
    ensures var soql := "select a from b" + "\nwhere c";
            IsSplit(Lower, soql, |soql|) && Output(soql, |soql|, "d") == soql + " WHERE d >= 'x'"
  {
    PlainQuery();
    OutputWithWhere("select a from b", "\nwhere c");
  }

  /** A LIMIT behind a line break is not seen either, and the filter is written behind it. */
  lemma NewlineLimitIsPassed()
    ensures var soql := "select a from b" + "\nlimit 1";
            IsSplit(Lower, soql, |soql|) && Output(soql, |soql|, "d") == soql + " WHERE d >= 'x'"
  {
    PlainQuery();
    OutputWithWhere("select a from b", "\nlimit 1");
  }

  /** So is a GROUP BY. */
  lemma GroupByIsPassed()
    ensures var soql := "select a from b" + " group by a";
            IsSplit(Lower, soql, |soql|) && Output(soql, |soql|, "d") == soql + " WHERE d >= 'x'"
  {
    PlainQuery();
    OutputWithWhere("select a from b", " group by a");
  }

  /** A query with a WHERE between two spaces gets an AND. */
  lemma OutputWithAnd(a: string, b: string, field: string)
    requires Calm(a) && Calm(" where " + b)
    ensures var soql := a + " where " + b;
            IsSplit(Lower, soql, |soql|) && Output(soql, |soql|, field) == soql + (" AND " + field + " >= 'x'")
  {
    assert a + " where " + b == a + (" where " + b);
    CalmJoin(a, " where " + b);
    WhereBetween(a, b);
    OutputAtEnd(a + " where " + b, true, field);
  }

  /** Behind an OR the filter restricts the last alternative only. */
  lemma OrEscapesFilter()
    ensures var soql := "select a from b" + " where " + "c\nor d";
            IsSplit(Lower, soql, |soql|) && Output(soql, |soql|, "e") == soql + " AND e >= 'x'"
  {
    PlainQuery();
    OutputWithAnd("select a from b", "c\nor d", "e");
    assert " AND " + "e" + " >= 'x'" == " AND e >= 'x'";
  }

  /** The WHERE of a subquery makes the filter a conjunct of nothing. */
  lemma SubqueryWhereMisleads()
    ensures var soql := "select a,(select b from c" + " where " + "d) from e";
            IsSplit(Lower, soql, |soql|) && Output(soql, |soql|, "f") == soql + " AND f >= 'x'"
  {
    OpenSubquery();
    OutputWithAnd("select a,(select b from c", "d) from e", "f");
    assert " AND " + "f" + " >= 'x'" == " AND f >= 'x'";
  }

  lemma LimitStands(rest: string)
    ensures StartsAt(Lower, " limit " + rest, " limit ", 0)
  {
    assert Lower(" limit " + rest)[0..0 + 7] == Lower(" limit ") == " limit ";
  }

  lemma OutputBeforeLimit(head: string, rest: string, field: string)
    requires Calm(head) && NoSpaceBefore(head, 'w')
    ensures var soql := head + (" limit " + rest);
            IsSplit(Lower, soql, |head|)
            && Output(soql, |head|, field) == head + (" WHERE " + field + " >= 'x'") + (" limit " + rest)
  {
    LimitStands(rest);
    SplitsBefore(head, " limit " + rest);
    NoWhere(head);
    OutputIs(head, " limit " + rest, false, field);
  }

  /** The trailing clause of a subquery takes the filter into the subquery. */
  lemma SubqueryClauseTakesFilter()
    ensures var head, tail := "select a,(select b from c", " limit " + "1) from d";
            IsSplit(Lower, head + tail, |head|)
            && Output(head + tail, |head|, "e") == head + " WHERE e >= 'x'" + tail
  {
    OpenSubquery();
    OutputBeforeLimit("select a,(select b from c", "1) from d", "e");
    assert " WHERE " + "e" + " >= 'x'" == " WHERE e >= 'x'";
  }
}
