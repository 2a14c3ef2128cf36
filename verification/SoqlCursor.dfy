/** Adding the incremental filter to a SOQL query: `_outside_quotes` and `_apply_cursor` of
    services/connectivity/app/salesforce_source_fetch.py. */
module SoqlCursor {
  import opened Text
  import opened Wrappers

  // ---------------------------------------------------------------- the quote automaton

  /** Where a reader of SOQL stands: outside a literal, inside one, or after its backslash. */
  datatype Mode = Out | In | Skip

  function Step(m: Mode, c: char): Mode {
    match m
    case Out => if c == '\'' then In else Out
    case In => if c == '\\' then Skip else if c == '\'' then Out else In
    case Skip => In
  }

  /** The mode in front of position `i` for a reader that starts in mode `m`. */
  function ModeFrom(m: Mode, s: string, i: nat): Mode
    requires i <= |s|
  {
    if i == 0 then m else Step(ModeFrom(m, s, i - 1), s[i - 1])
  }

  function ModeAt(s: string, i: nat): Mode
    requires i <= |s|
  {
    ModeFrom(Out, s, i)
  }

  /** Reading `t` where it stands in `s` is reading it from the mode in front of it. */
  lemma {:induction false} ReadOn(m: Mode, s: string, at: nat, t: string, n: nat)
    requires at + n <= |s| && n <= |t| && forall j | 0 <= j < n :: s[at + j] == t[j]
    ensures ModeFrom(m, s, at + n) == ModeFrom(ModeFrom(m, s, at), t, n)
  {
    if n > 0 {
      ReadOn(m, s, at, t, n - 1);
    }
  }

  lemma ConcatModes(m: Mode, a: string, b: string, k: nat)
    requires k <= |b|
    ensures ModeFrom(m, a + b, |a| + k) == ModeFrom(ModeFrom(m, a, |a|), b, k)
  {
    ReadOn(m, a + b, 0, a, |a|);
    ReadOn(m, a + b, |a|, b, k);
  }

  // ---------------------------------------------------------------- finding a keyword

  /** `str.lower`. Nothing is assumed of it: it may even change the length of the text. */
  type Fold = string -> string

  /** A folding that maps each character to one, as lower case does on ASCII. */
  ghost predicate Charwise(fold: Fold, f: char -> char) {
    forall s :: FoldsBy(fold, f, s)
  }

  ghost predicate FoldsBy(fold: Fold, f: char -> char, s: string) {
    |fold(s)| == |s| && forall i | 0 <= i < |s| :: fold(s)[i] == f(s[i])
  }

  function LowerChar(c: char): char {
    if 'A' <= c <= 'Z' then 'a' + (c - 'A') else c
  }

  /** Lower case of an ASCII text. */
  function Lower(s: string): (l: string)
    ensures |l| == |s|
  {
    seq(|s|, i requires 0 <= i < |s| => LowerChar(s[i]))
  }

  predicate StartsAt(fold: Fold, s: string, keyword: string, i: nat) {
    i + |keyword| <= |fold(s)| && fold(s)[i..i + |keyword|] == keyword
  }

  /** The keyword stands at `i`, outside quotes. */
  predicate Found(fold: Fold, s: string, keyword: string, i: nat) {
    i < |s| && ModeAt(s, i) == Out && s[i] != '\'' && StartsAt(fold, s, keyword, i)
  }

  /** The least index of the keyword outside quotes, or -1. */
  ghost predicate IsFirst(fold: Fold, s: string, keyword: string, r: int) {
    if r == -1 then forall i: nat :: !Found(fold, s, keyword, i)
    else 0 <= r && Found(fold, s, keyword, r) && forall i: nat | i < r :: !Found(fold, s, keyword, i)
  }

  /** `_outside_quotes`. */
  method OutsideQuotes(fold: Fold, soql: string, keyword: string) returns (r: int)
    ensures IsFirst(fold, soql, keyword, r)
  {
    var inQuote := false;
    var i := 0;
    var lower := fold(soql);
    while i < |soql|
      invariant i <= |soql| + 1
      invariant i <= |soql| ==> ModeAt(soql, i) == if inQuote then In else Out
      invariant forall j: nat | j < i :: !Found(fold, soql, keyword, j)
      decreases |soql| - i
    {
      var ch := soql[i];
      assert ModeAt(soql, i + 1) == Step(ModeAt(soql, i), ch);
      if inQuote && ch == '\\' {
        assert i + 2 <= |soql| ==> ModeAt(soql, i + 2) == In;
        i := i + 2;
        continue;
      }
      if ch == '\'' {
        inQuote := !inQuote;
        i := i + 1;
        continue;
      }
      if !inQuote && i + |keyword| <= |lower| && lower[i..i + |keyword|] == keyword {
        return i;
      }
      i := i + 1;
    }
    return -1;
  }

  // ---------------------------------------------------------------- the inserted filter

  const TAILS := [" order by ", " limit ", " offset "]

  ghost predicate FoundAny(fold: Fold, s: string, i: nat) {
    exists k | 0 <= k < 3 :: Found(fold, s, TAILS[k], i)
  }

  /** The filter goes in front of the first trailing clause outside quotes, else at the end. */
  ghost predicate IsSplit(fold: Fold, s: string, split: nat) {
    && split <= |s|
    && (split < |s| ==> FoundAny(fold, s, split))
    && (forall i: nat | i < split :: !FoundAny(fold, s, i))
  }

  /** No ORDER BY, LIMIT or OFFSET outside quotes stands in front of the cut, and unless the cut
      is at the end one of them stands at it. */
  lemma CutsAtFirstTrailingClause(fold: Fold, s: string, split: nat)
    requires IsSplit(fold, s, split)
    ensures split < |s| ==> Found(fold, s, " order by ", split) || Found(fold, s, " limit ", split) || Found(fold, s, " offset ", split)
    ensures forall i: nat | i < split ::
              !Found(fold, s, " order by ", i) && !Found(fold, s, " limit ", i) && !Found(fold, s, " offset ", i)
  {
    forall i: nat | i < split
      ensures !Found(fold, s, " order by ", i) && !Found(fold, s, " limit ", i) && !Found(fold, s, " offset ", i)
    {
      assert !FoundAny(fold, s, i);
      assert !Found(fold, s, TAILS[0], i) && !Found(fold, s, TAILS[1], i) && !Found(fold, s, TAILS[2], i);
    }
  }

  function EscapeChar(c: char): string {
    if c == '\\' || c == '\'' then ['\\', c] else [c]
  }

  function Escape(s: string): string {
    if s == "" then "" else EscapeChar(s[0]) + Escape(s[1..])
  }

  /** What SOQL reads between the quotes. */
  function Unescape(s: string): string {
    if s == "" then ""
    else if s[0] == '\\' && |s| > 1 then [s[1]] + Unescape(s[2..])
    else [s[0]] + Unescape(s[1..])
  }

  /** Doubling backslashes first and escaping quotes second treats each character once. */
  lemma {:induction false} ChainedReplaceIsEscape(s: string)
    ensures Replace(Replace(s, '\\', "\\\\"), '\'', "\\'") == Escape(s)
  {
    if s != "" {
      ReplaceConcat(ReplaceOne(s[0], '\\', "\\\\"), Replace(s[1..], '\\', "\\\\"), '\'', "\\'");
      ChainedReplaceIsEscape(s[1..]);
      ReplacePair('\\', '\\', '\'', "\\'");
      ReplaceSingle(s[0], '\'', "\\'");
    }
  }

  lemma {:induction false} UnescapeEscaped(s: string)
    ensures Unescape(Escape(s)) == s
  {
    if s != "" {
      var tail := Escape(s[1..]);
      UnescapeEscaped(s[1..]);
      var text := EscapeChar(s[0]) + tail;
      if s[0] == '\\' || s[0] == '\'' {
        assert text[2..] == tail;
      } else {
        assert text[1..] == tail;
      }
    }
  }

  lemma EscapeCharMode(c: char)
    ensures var head := EscapeChar(c); ModeFrom(In, head, |head|) == In && (|head| > 1 ==> ModeFrom(In, head, 1) == Skip)
  {
    var head := EscapeChar(c);
    assert ModeFrom(In, head, 1) == Step(In, head[0]);
    if |head| > 1 {
      assert ModeFrom(In, head, 2) == Step(ModeFrom(In, head, 1), head[1]);
    }
  }

  /** A reader that entered an escaped text is still inside after every prefix of it, and
      between two characters at its end. */
  lemma {:induction false} EscapedStaysInside(s: string, k: nat)
    requires k <= |Escape(s)|
    ensures ModeFrom(In, Escape(s), k) != Out
    ensures ModeFrom(In, Escape(s), |Escape(s)|) == In
    decreases |s|
  {
    if s != "" {
      var head, tail := EscapeChar(s[0]), Escape(s[1..]);
      EscapeCharMode(s[0]);
      ConcatModes(In, head, tail, |tail|);
      if k >= |head| {
        EscapedStaysInside(s[1..], k - |head|);
        ConcatModes(In, head, tail, k - |head|);
      } else {
        EscapedStaysInside(s[1..], 0);
        ReadOn(In, head + tail, 0, head, k);
      }
    }
  }

  /** What the field is compared with: a text in quotes, or a date or time without. */
  datatype Value = Literal(cursor: string) | Date(text: string)

  function Rendering(value: Value): string {
    match value
    case Literal(cursor) => "'" + Escape(cursor) + "'"
    case Date(text) => text
  }

  /** The characters of `YYYY-MM-DD` and `YYYY-MM-DDThh:mm:ssZ`. */
  predicate IsDate(text: string) {
    text != "" && forall i | 0 <= i < |text| :: '0' <= text[i] <= '9' || text[i] in "-:TZ"
  }

  /** The insertion point of `_apply_cursor`. */
  method FindSplit(fold: Fold, soql: string) returns (split: nat)
    ensures IsSplit(fold, soql, split)
  {
    var splitAt := -1;
    for n := 0 to 3
      invariant -1 <= splitAt < |soql|
      invariant splitAt != -1 ==> exists k | 0 <= k < n :: Found(fold, soql, TAILS[k], splitAt)
      invariant forall k, i: nat | 0 <= k < n && (splitAt == -1 || i < splitAt) :: !Found(fold, soql, TAILS[k], i)
    {
      var idx := OutsideQuotes(fold, soql, TAILS[n]);
      if idx != -1 && (splitAt == -1 || idx < splitAt) {
        splitAt := idx;
      }
    }
    return if splitAt != -1 then splitAt else |soql|;
  }

  /** `_apply_cursor`. `date` is what `_soql_date_literal` makes of the cursor, if it is one. */
  method ApplyCursor(fold: Fold, soql: string, cursorProperty: string, lastCursorValue: string, date: Option<string>)
    returns (r: string, split: nat)
    ensures IsSplit(fold, soql, split)
    ensures r == Inserted(HasWhere(fold, soql[..split]), soql, split, cursorProperty, if date.Some? then Date(date.value) else Literal(lastCursorValue))
  {
    ChainedReplaceIsEscape(lastCursorValue);
    var clause;
    if date.Some? {
      clause := cursorProperty + " >= " + date.value;
    } else {
      var literal := Replace(Replace(lastCursorValue, '\\', "\\\\"), '\'', "\\'");
      clause := cursorProperty + " >= '" + literal + "'";
      ClauseIs(cursorProperty, literal);
    }
    split := FindSplit(fold, soql);
    var head, tail := soql[..split], soql[split..];
    var whereAt := OutsideQuotes(fold, head, " where ");
    var joiner := if whereAt != -1 then " AND " else " WHERE ";
    r := head + joiner + clause + tail;
    JoinerIs(fold, head, whereAt);
    Assembled(whereAt != -1, soql, split, cursorProperty, if date.Some? then Date(date.value) else Literal(lastCursorValue));
  }

  lemma ClauseIs(cursorProperty: string, literal: string)
    ensures cursorProperty + " >= '" + literal + "'" == cursorProperty + " >= " + ("'" + literal + "'")
  {
    assert " >= '" == " >= " + "'";
  }

  lemma JoinerIs(fold: Fold, head: string, whereAt: int)
    requires IsFirst(fold, head, " where ", whereAt)
    ensures HasWhere(fold, head) <==> whereAt != -1
  {
    if whereAt != -1 {
      assert Found(fold, head, " where ", whereAt);
    }
  }

  lemma Assembled(found: bool, soql: string, split: nat, cursorProperty: string, value: Value)
    requires split <= |soql|
    ensures var joiner := if found then " AND " else " WHERE ";
            soql[..split] + joiner + (cursorProperty + " >= " + Rendering(value)) + soql[split..]
            == Inserted(found, soql, split, cursorProperty, value)
  {
    var joiner := if found then " AND " else " WHERE ";
    var head, tail, text := soql[..split], soql[split..], Rendering(value);
    assert head + joiner + (cursorProperty + " >= " + text) + tail == head + (joiner + cursorProperty + " >= ") + (text + tail);
  }

  ghost predicate HasWhere(fold: Fold, head: string) {
    exists i: nat :: Found(fold, head, " where ", i)
  }

  /** What stands between the head of the query and the value; `found` says whether the head
      has a WHERE as the code looks for it. */
  function Lead(found: bool, cursorProperty: string): string {
    (if found then " AND " else " WHERE ") + cursorProperty + " >= "
  }

  function Inserted(found: bool, soql: string, split: nat, cursorProperty: string, value: Value): string
    requires split <= |soql|
  {
    Behind(Front(found, soql, split, cursorProperty), value, soql[split..])
  }

  function Behind(front: string, value: Value, tail: string): string {
    front + (Rendering(value) + tail)
  }

  // ---------------------------------------------------------------- the insertion is quote-exact

  predicate QuoteFree(s: string) {
    forall c | c in s :: c != '\'' && c != '\\'
  }

  lemma {:induction false} QuoteFreeMode(m: Mode, s: string, n: nat)
    requires QuoteFree(s) && n <= |s|
    ensures ModeFrom(m, s, n) == if m == Out then Out else if n == 0 then m else In
  {
    if n > 0 {
      QuoteFreeMode(m, s, n - 1);
      assert s[n - 1] in s;
    }
  }

  lemma LeadMode(found: bool, m: Mode, cursorProperty: string)
    requires QuoteFree(cursorProperty)
    ensures var lead := Lead(found, cursorProperty); ModeFrom(m, lead, |lead|) == if m == Out then Out else In
  {
    var lead := Lead(found, cursorProperty);
    assert QuoteFree(" AND ") && QuoteFree(" WHERE ") && QuoteFree(" >= ");
    QuoteFreeMode(m, lead, |lead|);
  }

  /** The reader stands outside at `p`, enters a literal there, stays inside up to `e`, where
      it leaves, and reads `cursor` between the two quotes. */
  predicate LiteralAt(out: string, p: nat, e: nat, cursor: string) {
    && p < e < |out|
    && ModeAt(out, p) == Out && out[p] == '\''
    && (forall k | p < k <= e :: ModeAt(out, k) != Out)
    && out[e] == '\'' && ModeAt(out, e + 1) == Out
    && Unescape(out[p + 1..e]) == cursor
  }

  /** `out` is `front`, a quote, `body`, a quote, `tail`, character by character. */
  predicate Spliced(out: string, front: string, body: string, tail: string) {
    && |out| == |front| + 2 + |body| + |tail|
    && (forall j | 0 <= j < |front| :: out[j] == front[j])
    && out[|front|] == '\''
    && (forall j | 0 <= j < |body| :: out[|front| + 1 + j] == body[j])
    && out[|front| + 1 + |body|] == '\''
    && (forall j | 0 <= j < |tail| :: out[|front| + 2 + |body| + j] == tail[j])
  }

  lemma SplicedIs(front: string, body: string, tail: string)
    ensures Spliced(front + ("'" + body + "'" + tail), front, body, tail)
  {
  }

  /** A text that keeps a reader inside. */
  ghost predicate StaysIn(body: string) {
    ModeFrom(In, body, |body|) == In && forall n | 0 <= n <= |body| :: ModeFrom(In, body, n) != Out
  }

  lemma EscapedStaysIn(cursor: string)
    ensures StaysIn(Escape(cursor))
  {
    forall n | 0 <= n <= |Escape(cursor)|
      ensures ModeFrom(In, Escape(cursor), n) != Out
    {
      EscapedStaysInside(cursor, n);
    }
    EscapedStaysInside(cursor, 0);
  }

  lemma SplicedFront(out: string, front: string, body: string, tail: string)
    requires Spliced(out, front, body, tail)
    ensures ModeAt(out, |front|) == ModeFrom(Out, front, |front|)
    ensures ModeFrom(Out, front, |front|) == Out ==> ModeAt(out, |front| + 1) == In
  {
    ReadOn(Out, out, 0, front, |front|);
    assert ModeAt(out, |front| + 1) == Step(ModeAt(out, |front|), '\'');
  }

  lemma SplicedInside(out: string, front: string, body: string, tail: string)
    requires Spliced(out, front, body, tail) && StaysIn(body) && ModeFrom(Out, front, |front|) == Out
    ensures forall k | |front| < k <= |front| + 1 + |body| :: ModeAt(out, k) != Out
  {
    SplicedFront(out, front, body, tail);
    forall k | |front| < k <= |front| + 1 + |body|
      ensures ModeAt(out, k) != Out
    {
      ReadOn(Out, out, |front| + 1, body, k - |front| - 1);
    }
  }

  lemma SplicedEnd(out: string, front: string, body: string, tail: string)
    requires Spliced(out, front, body, tail) && StaysIn(body) && ModeFrom(Out, front, |front|) == Out
    ensures ModeAt(out, |front| + 2 + |body|) == Out
  {
    var e := |front| + 1 + |body|;
    SplicedFront(out, front, body, tail);
    ReadOn(Out, out, |front| + 1, body, |body|);
    assert ModeAt(out, e + 1) == Step(ModeAt(out, e), '\'');
  }

  /** So the literal stands at the end of `front` exactly when `front` ends outside quotes. */
  lemma SplicedLiteralIff(out: string, front: string, body: string, tail: string, cursor: string)
    requires Spliced(out, front, body, tail) && StaysIn(body) && Unescape(body) == cursor
    ensures LiteralAt(out, |front|, |front| + 1 + |body|, cursor) <==> ModeFrom(Out, front, |front|) == Out
  {
    SplicedFront(out, front, body, tail);
    if ModeFrom(Out, front, |front|) == Out {
      SplicedInside(out, front, body, tail);
      SplicedEnd(out, front, body, tail);
      assert out[|front| + 1..|front| + 1 + |body|] == body;
    }
  }

  /** The head of the query ends outside quotes exactly when a trailing clause was found
      outside quotes or every quote of the query closes. */
  lemma HeadIsOutsideIff(fold: Fold, soql: string, split: nat)
    requires IsSplit(fold, soql, split)
    ensures ModeAt(soql, split) == Out <==> (exists i: nat :: FoundAny(fold, soql, i)) || ModeAt(soql, |soql|) == Out
  {
    if split < |soql| {
      assert FoundAny(fold, soql, split);
    } else {
      forall i: nat
        ensures !FoundAny(fold, soql, i)
      {
        if i >= split {
          assert !Found(fold, soql, TAILS[0], i) && !Found(fold, soql, TAILS[1], i) && !Found(fold, soql, TAILS[2], i);
        }
      }
    }
  }

  /** What precedes the opening quote. */
  function Front(found: bool, soql: string, split: nat, cursorProperty: string): string
    requires split <= |soql|
  {
    soql[..split] + Lead(found, cursorProperty)
  }

  lemma FrontMode(found: bool, soql: string, split: nat, cursorProperty: string)
    requires split <= |soql| && QuoteFree(cursorProperty)
    ensures var front := Front(found, soql, split, cursorProperty);
            ModeFrom(Out, front, |front|) == Out <==> ModeAt(soql, split) == Out
  {
    var head, front := soql[..split], Front(found, soql, split, cursorProperty);
    var lead := Lead(found, cursorProperty);
    ReadOn(Out, front, 0, soql, split);
    ReadOn(Out, front, split, lead, |lead|);
    LeadMode(found, ModeAt(soql, split), cursorProperty);
  }

  lemma InsertedIsSpliced(found: bool, soql: string, split: nat, cursorProperty: string, cursor: string)
    requires split <= |soql|
    ensures Spliced(Inserted(found, soql, split, cursorProperty, Literal(cursor)), Front(found, soql, split, cursorProperty), Escape(cursor), soql[split..])
    ensures |Front(found, soql, split, cursorProperty)| >= split
  {
    SplicedIs(Front(found, soql, split, cursorProperty), Escape(cursor), soql[split..]);
  }

  lemma LiteralBehindFront(out: string, front: string, cursor: string, tail: string, outside: bool)
    requires out == Behind(front, Literal(cursor), tail)
    requires outside <==> ModeFrom(Out, front, |front|) == Out
    ensures LiteralAt(out, |front|, |front| + 1 + |Escape(cursor)|, cursor) <==> outside
  {
    SplicedIs(front, Escape(cursor), tail);
    CursorLiteralIff(out, front, cursor, tail);
  }

  lemma CursorLiteralIff(out: string, front: string, cursor: string, tail: string)
    requires Spliced(out, front, Escape(cursor), tail)
    ensures LiteralAt(out, |front|, |front| + 1 + |Escape(cursor)|, cursor) <==> ModeFrom(Out, front, |front|) == Out
  {
    UnescapeEscaped(cursor);
    EscapedStaysIn(cursor);
    SplicedLiteralIff(out, front, Escape(cursor), tail, cursor);
  }

  lemma InsertedLiteralIff(found: bool, soql: string, split: nat, cursorProperty: string, cursor: string)
    requires split <= |soql| && QuoteFree(cursorProperty)
    ensures var front := Front(found, soql, split, cursorProperty);
            LiteralAt(Behind(front, Literal(cursor), soql[split..]), |front|, |front| + 1 + |Escape(cursor)|, cursor)
            <==> ModeAt(soql, split) == Out
  {
    var front := Front(found, soql, split, cursorProperty);
    FrontMode(found, soql, split, cursorProperty);
    LiteralBehindFront(Behind(front, Literal(cursor), soql[split..]), front, cursor, soql[split..], ModeAt(soql, split) == Out);
  }

  /** The cursor goes in as one literal holding exactly the cursor, whatever quotes and
      backslashes it contains, if and only if the head of the query ends outside quotes. */
  lemma InsertionIsQuoteExactIff(fold: Fold, found: bool, soql: string, split: nat, cursorProperty: string, cursor: string)
    requires IsSplit(fold, soql, split) && QuoteFree(cursorProperty)
    ensures var p := |Front(found, soql, split, cursorProperty)|;
            LiteralAt(Inserted(found, soql, split, cursorProperty, Literal(cursor)), p, p + 1 + |Escape(cursor)|, cursor)
            <==> (exists i: nat :: FoundAny(fold, soql, i)) || ModeAt(soql, |soql|) == Out
  {
    HeadIsOutsideIff(fold, soql, split);
    InsertedLiteralIff(found, soql, split, cursorProperty, cursor);
  }

  /** The tail is read as before: same text, and the same mode at each of its positions. */
  lemma TailReadsAsBefore(fold: Fold, found: bool, soql: string, split: nat, cursorProperty: string, value: Value, k: nat)
    requires IsSplit(fold, soql, split) && QuoteFree(cursorProperty) && ModeAt(soql, split) == Out
    requires (value.Date? ==> IsDate(value.text)) && k <= |soql| - split
    ensures TailKept(Inserted(found, soql, split, cursorProperty, value), soql, split, k)
  {
    var front := Front(found, soql, split, cursorProperty);
    FrontMode(found, soql, split, cursorProperty);
    match value
    case Literal(cursor) =>
      InsertedIsSpliced(found, soql, split, cursorProperty, cursor);
      EscapedStaysIn(cursor);
      SplicedKeepsTail(Inserted(found, soql, split, cursorProperty, value), front, Escape(cursor), soql, split, k);
    case Date(text) =>
      assert |front| >= split;
      QuoteFreeMode(Out, text, |text|);
      DateKeepsTail(front, text, soql, split, k);
  }

  lemma DateKeepsTail(front: string, text: string, soql: string, split: nat, k: nat)
    requires split + k <= |soql| && |front| >= split && QuoteFree(text)
    requires ModeFrom(Out, front, |front|) == Out == ModeAt(soql, split)
    ensures TailKept(front + (text + soql[split..]), soql, split, k)
  {
    var before, tail := front + text, soql[split..];
    assert front + (text + tail) == before + tail;
    ConcatModes(Out, front, text, |text|);
    ReadOn(Out, before, 0, front, |front|);
    QuoteFreeMode(Out, text, |text|);
    TailBehind(before, soql, split, k);
  }

  lemma TailBehind(before: string, soql: string, split: nat, k: nat)
    requires split + k <= |soql| && |before| >= split && ModeFrom(Out, before, |before|) == Out == ModeAt(soql, split)
    ensures TailKept(before + soql[split..], soql, split, k)
  {
    var tail := soql[split..];
    assert (before + tail)[|before|..] == tail;
    ConcatModes(Out, before, tail, k);
    ReadOn(Out, soql, split, tail, k);
  }

  /** `out` ends like `soql` from `split` on, and is read alike `k` characters into that. */
  predicate TailKept(out: string, soql: string, split: nat, k: nat)
    requires split + k <= |soql|
  {
    var at := |out| - |soql| + split;
    at >= split && out[at..] == soql[split..] && ModeAt(out, at + k) == ModeAt(soql, split + k)
  }

  lemma SplicedKeepsTail(out: string, front: string, body: string, soql: string, split: nat, k: nat)
    requires split + k <= |soql| && Spliced(out, front, body, soql[split..]) && StaysIn(body) && |front| >= split
    requires ModeFrom(Out, front, |front|) == Out == ModeAt(soql, split)
    ensures TailKept(out, soql, split, k)
  {
    SplicedTail(out, front, body, soql[split..], k);
    ReadOn(Out, soql, split, soql[split..], k);
  }

  lemma SplicedTail(out: string, front: string, body: string, tail: string, k: nat)
    requires Spliced(out, front, body, tail) && StaysIn(body) && ModeFrom(Out, front, |front|) == Out && k <= |tail|
    ensures out[|front| + 2 + |body|..] == tail
    ensures ModeAt(out, |front| + 2 + |body| + k) == ModeFrom(Out, tail, k)
  {
    SplicedEnd(out, front, body, tail);
    ReadOn(Out, out, |front| + 2 + |body|, tail, k);
  }

  /** Under a folding by characters every keyword is found at the same places of the tail as
      before. */
  lemma TailKeywordsKept(fold: Fold, f: char -> char, found: bool, soql: string, split: nat, cursorProperty: string, value: Value, keyword: string, k: nat)
    requires Charwise(fold, f)
    requires IsSplit(fold, soql, split) && QuoteFree(cursorProperty) && ModeAt(soql, split) == Out
    requires (value.Date? ==> IsDate(value.text)) && k < |soql| - split
    ensures var out := Inserted(found, soql, split, cursorProperty, value);
            Found(fold, out, keyword, |out| - |soql| + split + k) <==> Found(fold, soql, keyword, split + k)
  {
    TailReadsAsBefore(fold, found, soql, split, cursorProperty, value, k);
    SameKeywords(fold, f, Inserted(found, soql, split, cursorProperty, value), soql, split, keyword, k);
  }

  lemma SameKeywords(fold: Fold, f: char -> char, out: string, soql: string, split: nat, keyword: string, k: nat)
    requires Charwise(fold, f) && split + k < |soql| && TailKept(out, soql, split, k)
    ensures Found(fold, out, keyword, |out| - |soql| + split + k) <==> Found(fold, soql, keyword, split + k)
  {
    assert FoldsBy(fold, f, out) && FoldsBy(fold, f, soql);
    SameTail(fold, f, out, |out| - |soql| + split, soql, split, keyword, k);
  }

  /** Two texts with the same tail have the same keywords in it. */
  lemma SameTail(fold: Fold, f: char -> char, a: string, i: nat, b: string, j: nat, keyword: string, k: nat)
    requires FoldsBy(fold, f, a) && FoldsBy(fold, f, b)
    requires i <= |a| && j <= |b| && a[i..] == b[j..] && k < |a| - i
    ensures a[i + k] == b[j + k]
    ensures StartsAt(fold, a, keyword, i + k) <==> StartsAt(fold, b, keyword, j + k)
  {
    assert a[i..][k] == b[j..][k];
    assert |a| - i == |b| - j;
    if k + |keyword| <= |a| - i {
      var x, y := fold(a)[i + k..i + k + |keyword|], fold(b)[j + k..j + k + |keyword|];
      forall n | 0 <= n < |x|
        ensures x[n] == y[n]
      {
        assert a[i..][k + n] == b[j..][k + n];
      }
      assert x == y;
    }
  }

  lemma LowerIsCharwise()
    ensures Charwise(Lower, LowerChar)
  {
    forall s
      ensures FoldsBy(Lower, LowerChar, s)
    {
    }
  }
}
