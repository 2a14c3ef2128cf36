/** Listing audit events (libs/holon_common/audit_store.py): the query assembled from the
    filters, and pages by descending id whose tokens carry the last id shown. The table is
    in id order, and an insert gets an id above all ids visible before it. */
module AuditPaging {
  import opened Wrappers
  import opened PageToken

  datatype Event = Event(
    id: int,
    tenant: string,
    occurredAt: int,
    category: string,
    action: string,
    outcome: string,
    actor: Option<string>,
    trace: Option<string>)

  datatype Filters = Filters(
    category: Option<string>,
    action: Option<string>,
    actor: Option<string>,
    outcome: Option<string>,
    trace: Option<string>,
    occurredAfter: Option<int>,
    occurredBefore: Option<int>)

  // ---------------------------------------------------------------- what a listing means

  /** An empty filter text filters nothing, and a null column matches no text. */
  predicate TextMatches(want: Option<string>, have: Option<string>) {
    want.None? || want.value == "" || have == want
  }

  predicate TextsMatch(tenant: string, f: Filters, e: Event) {
    && e.tenant == tenant
    && TextMatches(f.category, Some(e.category))
    && TextMatches(f.action, Some(e.action))
    && TextMatches(f.actor, e.actor)
    && TextMatches(f.outcome, Some(e.outcome))
    && TextMatches(f.trace, e.trace)
  }

  predicate Matches(tenant: string, f: Filters, e: Event) {
    && TextsMatch(tenant, f, e)
    && (f.occurredAfter.Some? ==> e.occurredAt >= f.occurredAfter.value)
    && (f.occurredBefore.Some? ==> e.occurredAt <= f.occurredBefore.value)
  }

  predicate IsBelow(after: Option<int>, e: Event) {
    after.Some? ==> e.id < after.value
  }

  /** The matching events below `after`, newest first. */
  function Listing(table: seq<Event>, tenant: string, f: Filters, after: Option<int>): seq<Event> {
    if table == [] then []
    else
      var last, older := table[|table| - 1], Listing(table[..|table| - 1], tenant, f, after);
      if Matches(tenant, f, last) && IsBelow(after, last) then [last] + older else older
  }

  function TakeUpTo<T>(s: seq<T>, n: nat): seq<T> {
    if |s| <= n then s else s[..n]
  }

  // ---------------------------------------------------------------- the assembled query

  datatype Column = TenantId | Category | Action | ActorUrn | Outcome | TraceId | OccurredAt | Id

  datatype Op = Eq | AtLeast | AtMost | Below

  /** `column op $placeholder`, placeholders counting from 1. */
  datatype Clause = Clause(column: Column, op: Op, placeholder: nat)

  datatype Arg = Text(text: string) | Number(number: int)

  predicate Bound(clauses: seq<Clause>, args: seq<Arg>) {
    forall c | c in clauses :: 1 <= c.placeholder <= |args|
  }

  function TextColumn(column: Column, e: Event): Option<string> {
    match column
    case TenantId => Some(e.tenant)
    case Category => Some(e.category)
    case Action => Some(e.action)
    case ActorUrn => e.actor
    case Outcome => Some(e.outcome)
    case TraceId => e.trace
    case _ => None
  }

  function NumberColumn(column: Column, e: Event): int {
    if column.Id? then e.id else e.occurredAt
  }

  predicate ClauseHolds(c: Clause, arg: Arg, e: Event) {
    if arg.Text? then c.op.Eq? && TextColumn(c.column, e) == Some(arg.text)
    else
      match c.op
      case Eq => NumberColumn(c.column, e) == arg.number
      case AtLeast => NumberColumn(c.column, e) >= arg.number
      case AtMost => NumberColumn(c.column, e) <= arg.number
      case Below => NumberColumn(c.column, e) < arg.number
  }

  /** The WHERE condition, clauses joined by AND. */
  predicate Where(clauses: seq<Clause>, args: seq<Arg>, e: Event)
    requires Bound(clauses, args)
  {
    forall c | c in clauses :: ClauseHolds(c, args[c.placeholder - 1], e)
  }

  /** The rows of the condition, ORDER BY id DESC. */
  function Selected(table: seq<Event>, clauses: seq<Clause>, args: seq<Arg>): seq<Event>
    requires Bound(clauses, args)
  {
    if table == [] then []
    else
      var last, older := table[|table| - 1], Selected(table[..|table| - 1], clauses, args);
      if Where(clauses, args, last) then [last] + older else older
  }

  lemma AddClause(clauses: seq<Clause>, args: seq<Arg>, column: Column, op: Op, arg: Arg)
    requires Bound(clauses, args)
    ensures var clauses', args' := clauses + [Clause(column, op, |args| + 1)], args + [arg];
            && Bound(clauses', args')
            && forall e :: Where(clauses', args', e) <==>
                 Where(clauses, args, e) && ClauseHolds(Clause(column, op, |args| + 1), arg, e)
  {
    var added := Clause(column, op, |args| + 1);
    var clauses', args' := clauses + [added], args + [arg];
    forall e
      ensures Where(clauses', args', e) <==> Where(clauses, args, e) && ClauseHolds(added, arg, e)
    {
      assert added in clauses';
      if Where(clauses', args', e) {
        forall c | c in clauses
          ensures ClauseHolds(c, args[c.placeholder - 1], e)
        {
          assert c in clauses';
        }
      }
    }
  }

  lemma {:induction false} SelectedIsListing(table: seq<Event>, clauses: seq<Clause>, args: seq<Arg>, tenant: string, f: Filters, after: Option<int>)
    requires Bound(clauses, args)
    requires forall e :: Where(clauses, args, e) <==> Matches(tenant, f, e) && IsBelow(after, e)
    ensures Selected(table, clauses, args) == Listing(table, tenant, f, after)
  {
    if table != [] {
      SelectedIsListing(table[..|table| - 1], clauses, args, tenant, f, after);
    }
  }

  /** `list_events`: the query built clause by clause, and what it returns. */
  method ListEvents(table: seq<Event>, tenant: string, f: Filters, afterId: Option<int>, pageSize: nat) returns (rows: seq<Event>)
    ensures rows == TakeUpTo(Listing(table, tenant, f, afterId), pageSize)
    ensures |rows| <= pageSize && rows <= Listing(table, tenant, f, afterId)
    ensures |rows| < pageSize ==> rows == Listing(table, tenant, f, afterId)
  {
    var clauses, args, idx := BuildQuery(tenant, f, afterId);
    args := args + [Number(pageSize)];
    assert forall e :: Where(clauses, args, e) <==> Matches(tenant, f, e) && IsBelow(afterId, e) by {
      assert forall c | c in clauses :: args[..idx - 1][c.placeholder - 1] == args[c.placeholder - 1];
      assert args[..idx - 1] + [Number(pageSize)] == args;
    }
    SelectedIsListing(table, clauses, args, tenant, f, afterId);
    var limit := args[idx - 1].number;
    rows := TakeUpTo(Selected(table, clauses, args), limit);
  }

  method BuildQuery(tenant: string, f: Filters, afterId: Option<int>) returns (clauses: seq<Clause>, args: seq<Arg>, idx: nat)
    ensures idx == |args| + 1 && Bound(clauses, args)
    ensures forall e :: Where(clauses, args, e) <==> Matches(tenant, f, e) && IsBelow(afterId, e)
  {
    clauses, args, idx := BuildTexts(tenant, f);
    clauses, args, idx := AddNumber(clauses, args, idx, OccurredAt, AtLeast, f.occurredAfter);
    clauses, args, idx := AddNumber(clauses, args, idx, OccurredAt, AtMost, f.occurredBefore);
    clauses, args, idx := AddNumber(clauses, args, idx, Id, Below, afterId);
  }

  /** The clauses on text columns. */
  method BuildTexts(tenant: string, f: Filters) returns (clauses: seq<Clause>, args: seq<Arg>, idx: nat)
    ensures idx == |args| + 1 && Bound(clauses, args)
    ensures forall e :: Where(clauses, args, e) <==> TextsMatch(tenant, f, e)
  {
    clauses, args, idx := [Clause(TenantId, Eq, 1)], [Text(tenant)], 2;
    assert forall e :: Where(clauses, args, e) <==> e.tenant == tenant by {
      assert clauses[0] in clauses;
    }
    clauses, args, idx := AddText(clauses, args, idx, Category, f.category);
    clauses, args, idx := AddText(clauses, args, idx, Action, f.action);
    clauses, args, idx := AddText(clauses, args, idx, ActorUrn, f.actor);
    clauses, args, idx := AddText(clauses, args, idx, Outcome, f.outcome);
    clauses, args, idx := AddText(clauses, args, idx, TraceId, f.trace);
  }

  /** One `if text:` step of the assembly. */
  method AddText(clauses: seq<Clause>, args: seq<Arg>, idx: nat, column: Column, text: Option<string>)
    returns (clauses': seq<Clause>, args': seq<Arg>, idx': nat)
    requires Bound(clauses, args) && idx == |args| + 1
    ensures Bound(clauses', args') && idx' == |args'| + 1
    ensures forall e :: Where(clauses', args', e) <==> Where(clauses, args, e) && TextMatches(text, TextColumn(column, e))
  {
    clauses', args', idx' := clauses, args, idx;
    if text.Some? && text.value != "" {
      AddClause(clauses, args, column, Eq, Text(text.value));
      clauses' := clauses' + [Clause(column, Eq, idx)];
      args' := args' + [Text(text.value)];
      idx' := idx + 1;
    }
  }

  /** One `if number is not None:` step of the assembly. */
  method AddNumber(clauses: seq<Clause>, args: seq<Arg>, idx: nat, column: Column, op: Op, number: Option<int>)
    returns (clauses': seq<Clause>, args': seq<Arg>, idx': nat)
    requires Bound(clauses, args) && idx == |args| + 1
    ensures Bound(clauses', args') && idx' == |args'| + 1
    ensures forall e :: Where(clauses', args', e) <==>
                          Where(clauses, args, e) && (number.Some? ==> ClauseHolds(Clause(column, op, idx), Number(number.value), e))
  {
    clauses', args', idx' := clauses, args, idx;
    if number.Some? {
      AddClause(clauses, args, column, op, Number(number.value));
      clauses' := clauses' + [Clause(column, op, idx)];
      args' := args' + [Number(number.value)];
      idx' := idx + 1;
    }
  }

  // ---------------------------------------------------------------- one page

  const CATEGORIES := {"authz", "action", "identity", "ontology", "access"}

  datatype PageError = InvalidAuditCategory | InvalidPageSize | InvalidPageToken

  datatype Page = Page(data: seq<Event>, next: Option<string>, pageSize: int)

  function DecodePageToken(tokens: Tokens, token: Option<string>): Result<Option<int>, PageError> {
    if token.None? || token.value == "" then Ok(None)
    else
      var id := tokens.decode(token.value);
      if id.None? then Err(InvalidPageToken) else Ok(id)
  }

  predicate Acceptable(f: Filters, pageSize: int) {
    (f.category.Some? ==> f.category.value in CATEGORIES) && 1 <= pageSize <= 100
  }

  /** As many events as fit, and a token if there are more. */
  function Cut(tokens: Tokens, rows: seq<Event>, pageSize: int): (page: Page)
    requires 1 <= pageSize
    ensures page.next.Some? <==> |rows| > pageSize
  {
    if |rows| > pageSize then Page(rows[..pageSize], Some(tokens.encode(rows[pageSize - 1].id)), pageSize)
    else Page(rows, None, pageSize)
  }

  function PageAfter(tokens: Tokens, table: seq<Event>, tenant: string, f: Filters, pageSize: int, after: Option<int>): Page
    requires 1 <= pageSize
  {
    Cut(tokens, Listing(table, tenant, f, after), pageSize)
  }

  method ListEventsPage(table: seq<Event>, tenant: string, f: Filters, pageSize: int, token: Option<string>) returns (r: Result<Page, PageError>)
    ensures f.category.Some? && f.category.value !in CATEGORIES ==> r == Err(InvalidAuditCategory)
    ensures (f.category.Some? ==> f.category.value in CATEGORIES) && !(1 <= pageSize <= 100) ==> r == Err(InvalidPageSize)
    ensures Acceptable(f, pageSize) && DecodePageToken(TOKENS, token).Err? ==> r == Err(InvalidPageToken)
    ensures Acceptable(f, pageSize) && DecodePageToken(TOKENS, token).Ok? ==>
              r == Ok(PageAfter(TOKENS, table, tenant, f, pageSize, DecodePageToken(TOKENS, token).value))
  {
    if f.category.Some? && f.category.value !in CATEGORIES {
      return Err(InvalidAuditCategory);
    }
    if pageSize < 1 || pageSize > 100 {
      return Err(InvalidPageSize);
    }
    var decoded := DecodePageToken(TOKENS, token);
    if decoded.Err? {
      return Err(InvalidPageToken);
    }
    var rows := ListEvents(table, tenant, f, decoded.value, pageSize + 1);
    ghost var all := Listing(table, tenant, f, decoded.value);
    var nextToken: Option<string> := None;
    if |rows| > pageSize {
      assert rows[..pageSize] == all[..pageSize];
      rows := rows[..pageSize];
      nextToken := Some(TOKENS.encode(rows[|rows| - 1].id));
    }
    return Ok(Page(rows, nextToken, pageSize));
  }

  // ---------------------------------------------------------------- following the tokens

  ghost predicate Ascending(table: seq<Event>) {
    forall i, j | 0 <= i < j < |table| :: table[i].id < table[j].id
  }

  /** A client's walk: page `k` is read from `tables[k]`, the table having grown since page
      `k - 1`, with no token first and then always with the token of the page before. */
  ghost predicate Walk(tokens: Tokens, tables: seq<seq<Event>>, tenant: string, f: Filters, pageSize: int, pages: seq<Page>) {
    && Acceptable(f, pageSize)
    && |tables| == |pages| > 0
    && (forall k | 0 <= k < |tables| :: Ascending(tables[k]) && tables[0] <= tables[k])
    && pages[0] == PageAfter(tokens, tables[0], tenant, f, pageSize, None)
    && (forall k | 1 <= k < |pages| :: Follows(tokens, tables, tenant, f, pageSize, pages, k))
  }

  ghost predicate Follows(tokens: Tokens, tables: seq<seq<Event>>, tenant: string, f: Filters, pageSize: int, pages: seq<Page>, k: nat)
    requires 1 <= k < |pages| && |tables| == |pages| && 1 <= pageSize
  {
    && pages[k - 1].next.Some?
    && DecodePageToken(tokens, pages[k - 1].next).Ok?
    && pages[k] == PageAfter(tokens, tables[k], tenant, f, pageSize, DecodePageToken(tokens, pages[k - 1].next).value)
  }

  lemma {:induction false} ListingMembers(table: seq<Event>, tenant: string, f: Filters, after: Option<int>)
    requires Ascending(table)
    ensures forall e :: e in Listing(table, tenant, f, after) <==> e in table && Matches(tenant, f, e) && IsBelow(after, e)
    ensures forall i, j | 0 <= i < j < |Listing(table, tenant, f, after)| ::
              Listing(table, tenant, f, after)[i].id > Listing(table, tenant, f, after)[j].id
  {
    if table != [] {
      var front, last := table[..|table| - 1], table[|table| - 1];
      ListingMembers(front, tenant, f, after);
      assert table == front + [last];
      forall e | e in Listing(front, tenant, f, after)
        ensures e.id < last.id
      {
        assert e in front;
      }
    }
  }

  predicate Given(want: Option<string>) {
    want.Some? && |want.value| > 0
  }

  /** An event is listed exactly if it is the tenant's, below the id asked for, equal to every
      filter text that is given and not outside the times that are given. */
  lemma ListedIff(table: seq<Event>, tenant: string, f: Filters, after: Option<int>, e: Event)
    requires Ascending(table)
    ensures e in Listing(table, tenant, f, after)
            <==> && e in table && e.tenant == tenant
                 && (after.None? || e.id < after.value)
                 && (Given(f.category) ==> e.category == f.category.value)
                 && (Given(f.action) ==> e.action == f.action.value)
                 && (Given(f.outcome) ==> e.outcome == f.outcome.value)
                 && (Given(f.actor) ==> e.actor.Some? && e.actor.value == f.actor.value)
                 && (Given(f.trace) ==> e.trace.Some? && e.trace.value == f.trace.value)
                 && (f.occurredAfter.None? || f.occurredAfter.value <= e.occurredAt)
                 && (f.occurredBefore.None? || f.occurredBefore.value >= e.occurredAt)
  {
    ListingMembers(table, tenant, f, after);
  }

  /** Events above every id asked for do not show. */
  lemma {:induction false} InsertsDoNotShow(table: seq<Event>, grown: seq<Event>, tenant: string, f: Filters, after: int)
    requires Ascending(grown) && table <= grown
    requires exists e :: e in table && e.id == after
    ensures Listing(grown, tenant, f, Some(after)) == Listing(table, tenant, f, Some(after))
    decreases |grown|
  {
    if |grown| == |table| {
      assert grown == table;
    } else {
      var front, last := grown[..|grown| - 1], grown[|grown| - 1];
      var e :| e in table && e.id == after;
      var i :| 0 <= i < |table| && table[i] == e;
      assert grown[i].id < last.id;
      InsertsDoNotShow(table, front, tenant, f, after);
    }
  }

  /** If no id reaches the bound, the bound does not matter. */
  lemma {:induction false} BoundAbove(table: seq<Event>, tenant: string, f: Filters, after: int)
    requires forall e | e in table :: e.id < after
    ensures Listing(table, tenant, f, Some(after)) == Listing(table, tenant, f, None)
  {
    if table != [] {
      BoundAbove(table[..|table| - 1], tenant, f, after);
    }
  }

  /** Asking below the id at position `j` of a listing gives the rest of it. */
  lemma {:induction false} BelowIsRest(table: seq<Event>, tenant: string, f: Filters, j: nat)
    requires Ascending(table) && j < |Listing(table, tenant, f, None)|
    ensures Listing(table, tenant, f, Some(Listing(table, tenant, f, None)[j].id)) == Listing(table, tenant, f, None)[j + 1..]
  {
    var front, last := table[..|table| - 1], table[|table| - 1];
    var all := Listing(table, tenant, f, None);
    assert all[j] in all;
    ListingMembers(front, tenant, f, None);
    if !Matches(tenant, f, last) {
      BelowIsRest(front, tenant, f, j);
    } else if j == 0 {
      BoundAbove(front, tenant, f, last.id);
    } else {
      assert all[j] == Listing(front, tenant, f, None)[j - 1];
      assert all[j] in front;
      BelowIsRest(front, tenant, f, j - 1);
    }
  }

  /** The page whose first event is at position `start` of the whole listing. */
  ghost predicate IsSlice(tokens: Tokens, all: seq<Event>, pageSize: int, start: nat, page: Page)
    requires 1 <= pageSize
  {
    start <= |all| && page == Cut(tokens, all[start..], pageSize)
  }

  lemma TokenFollows(tokens: Tokens, all: seq<Event>, pageSize: int, start: nat, page: Page)
    requires tokens.RoundTrip() && 1 <= pageSize && IsSlice(tokens, all, pageSize, start, page)
    ensures page.next.Some? <==> start + pageSize < |all|
    ensures DecodePageToken(tokens, page.next) == Ok(if page.next.Some? then Some(all[start + pageSize - 1].id) else None)
  {
  }

  lemma NextSlice(tokens: Tokens, table: seq<Event>, grown: seq<Event>, tenant: string, f: Filters, pageSize: int, start: nat, page: Page, next: Page)
    requires tokens.RoundTrip() && Ascending(table) && Ascending(grown) && table <= grown && 1 <= pageSize
    requires IsSlice(tokens, Listing(table, tenant, f, None), pageSize, start, page) && page.next.Some?
    requires DecodePageToken(tokens, page.next).Ok?
    requires next == PageAfter(tokens, grown, tenant, f, pageSize, DecodePageToken(tokens, page.next).value)
    ensures start + pageSize < |Listing(table, tenant, f, None)|
    ensures IsSlice(tokens, Listing(table, tenant, f, None), pageSize, start + pageSize, next)
  {
    var all := Listing(table, tenant, f, None);
    TokenFollows(tokens, all, pageSize, start, page);
    ListingBelow(table, grown, tenant, f, start + pageSize - 1);
  }

  lemma ListingBelow(table: seq<Event>, grown: seq<Event>, tenant: string, f: Filters, at: nat)
    requires Ascending(table) && Ascending(grown) && table <= grown && at < |Listing(table, tenant, f, None)|
    ensures var all := Listing(table, tenant, f, None);
            Listing(grown, tenant, f, Some(all[at].id)) == all[at + 1..]
  {
    var all := Listing(table, tenant, f, None);
    ListingMembers(table, tenant, f, None);
    assert all[at] in all;
    InsertsDoNotShow(table, grown, tenant, f, all[at].id);
    BelowIsRest(table, tenant, f, at);
  }

  /** How many events the first `k` full pages show. */
  function Shown(pageSize: nat, k: nat): nat {
    if k == 0 then 0 else Shown(pageSize, k - 1) + pageSize
  }

  lemma {:induction false} ShownIsProduct(pageSize: nat, k: nat)
    ensures Shown(pageSize, k) == pageSize * k
  {
    if k > 0 {
      ShownIsProduct(pageSize, k - 1);
      assert pageSize * (k - 1) + pageSize == pageSize * k;
    }
  }

  lemma {:induction false} PagesAreSlices(tokens: Tokens, tables: seq<seq<Event>>, tenant: string, f: Filters, pageSize: int, pages: seq<Page>, k: nat)
    requires tokens.RoundTrip() && Walk(tokens, tables, tenant, f, pageSize, pages) && k < |pages|
    ensures IsSlice(tokens, Listing(tables[0], tenant, f, None), pageSize, Shown(pageSize, k), pages[k])
    ensures k > 0 ==> Shown(pageSize, k) < |Listing(tables[0], tenant, f, None)| && pages[k - 1].next.Some?
  {
    if k == 0 {
      FirstSlice(tokens, tables[0], tenant, f, pageSize);
    } else {
      PagesAreSlices(tokens, tables, tenant, f, pageSize, pages, k - 1);
      assert Follows(tokens, tables, tenant, f, pageSize, pages, k);
      NextSlice(tokens, tables[0], tables[k], tenant, f, pageSize, Shown(pageSize, k - 1), pages[k - 1], pages[k]);
      assert Shown(pageSize, k) == Shown(pageSize, k - 1) + pageSize;
    }
  }

  lemma FirstSlice(tokens: Tokens, table: seq<Event>, tenant: string, f: Filters, pageSize: int)
    requires 1 <= pageSize
    ensures IsSlice(tokens, Listing(table, tenant, f, None), pageSize, 0, PageAfter(tokens, table, tenant, f, pageSize, None))
  {
    assert Listing(table, tenant, f, None)[0..] == Listing(table, tenant, f, None);
  }

  function DataOf(pages: seq<Page>): seq<seq<Event>> {
    seq(|pages|, k requires 0 <= k < |pages| => pages[k].data)
  }

  lemma {:induction false} PagesConcatenate(tokens: Tokens, tables: seq<seq<Event>>, tenant: string, f: Filters, pageSize: int, pages: seq<Page>, k: nat)
    requires tokens.RoundTrip() && Walk(tokens, tables, tenant, f, pageSize, pages) && k < |pages|
    ensures StartsWith(Listing(tables[0], tenant, f, None), Flatten(DataOf(pages)[..k]), Shown(pageSize, k))
  {
    var all := Listing(tables[0], tenant, f, None);
    if k > 0 {
      PagesAreSlices(tokens, tables, tenant, f, pageSize, pages, k);
      PagesConcatenate(tokens, tables, tenant, f, pageSize, pages, k - 1);
      PagesAreSlices(tokens, tables, tenant, f, pageSize, pages, k - 1);
      JoinPage(tokens, all, pageSize, pages, k - 1);
    }
  }

  predicate StartsWith(all: seq<Event>, shown: seq<Event>, n: nat) {
    n <= |all| && shown == all[..n]
  }

  lemma JoinPage(tokens: Tokens, all: seq<Event>, pageSize: int, pages: seq<Page>, k: nat)
    requires 1 <= pageSize && k < |pages| && pages[k].next.Some?
    requires IsSlice(tokens, all, pageSize, Shown(pageSize, k), pages[k])
    requires StartsWith(all, Flatten(DataOf(pages)[..k]), Shown(pageSize, k))
    ensures StartsWith(all, Flatten(DataOf(pages)[..k + 1]), Shown(pageSize, k + 1))
  {
    SliceJoins(tokens, all, pageSize, Shown(pageSize, k), pages[k]);
    AppendPage(pages, k);
  }

  lemma AppendPage(pages: seq<Page>, k: nat)
    requires k < |pages|
    ensures Flatten(DataOf(pages)[..k + 1]) == Flatten(DataOf(pages)[..k]) + pages[k].data
  {
    FlattenSnoc(DataOf(pages)[..k], pages[k].data);
    assert DataOf(pages)[..k + 1] == DataOf(pages)[..k] + [pages[k].data];
  }

  lemma SliceJoins(tokens: Tokens, all: seq<Event>, pageSize: int, start: nat, page: Page)
    requires 1 <= pageSize && IsSlice(tokens, all, pageSize, start, page)
    ensures page.next.Some? ==> start + pageSize <= |all| && all[..start] + page.data == all[..start + pageSize]
    ensures page.next.None? ==> all[..start] + page.data == all
  {
  }

  lemma WalkShowsListing(tokens: Tokens, tables: seq<seq<Event>>, tenant: string, f: Filters, pageSize: int, pages: seq<Page>)
    requires tokens.RoundTrip() && Walk(tokens, tables, tenant, f, pageSize, pages)
    ensures var all := Listing(tables[0], tenant, f, None);
            && (|pages| > 1 ==> Shown(pageSize, |pages| - 1) < |all|)
            && (pages[|pages| - 1].next.Some? <==> Shown(pageSize, |pages|) < |all|)
            && (pages[|pages| - 1].next.None? ==> Flatten(DataOf(pages)) == all)
  {
    var n, all := |pages| - 1, Listing(tables[0], tenant, f, None);
    PagesConcatenate(tokens, tables, tenant, f, pageSize, pages, n);
    PagesAreSlices(tokens, tables, tenant, f, pageSize, pages, n);
    MoreIffLeft(tokens, all, pageSize, n, pages[n]);
    if pages[n].next.None? {
      SliceJoins(tokens, all, pageSize, Shown(pageSize, n), pages[n]);
      AppendPage(pages, n);
      assert DataOf(pages)[..n + 1] == DataOf(pages);
    }
  }

  /** A page of the first listing carries a token exactly while some of it is left. */
  lemma MoreIffLeft(tokens: Tokens, all: seq<Event>, pageSize: int, k: nat, page: Page)
    requires 1 <= pageSize && IsSlice(tokens, all, pageSize, Shown(pageSize, k), page)
    ensures page.next.Some? <==> Shown(pageSize, k + 1) < |all|
  {
  }

  /** Following the tokens to the end shows exactly the matching events that were there at
      the first page, newest first and each once, whatever is inserted in between. */
  lemma PagingIsComplete(tables: seq<seq<Event>>, tenant: string, f: Filters, pageSize: int, pages: seq<Page>)
    requires Walk(TOKENS, tables, tenant, f, pageSize, pages) && pages[|pages| - 1].next.None?
    ensures var shown := Flatten(DataOf(pages));
            && (forall e :: e in shown <==> e in tables[0] && Matches(tenant, f, e))
            && (forall i, j | 0 <= i < j < |shown| :: shown[i].id > shown[j].id)
  {
    TokensRoundTrip();
    WalkShowsListing(TOKENS, tables, tenant, f, pageSize, pages);
    ListingMembers(tables[0], tenant, f, None);
  }

  /** Every walk ends: page by page it uses up the first listing, asking for another page
      exactly while some of it is left. */
  lemma PagingTerminates(tables: seq<seq<Event>>, tenant: string, f: Filters, pageSize: int, pages: seq<Page>)
    requires Walk(TOKENS, tables, tenant, f, pageSize, pages)
    ensures |pages| > 1 ==> Shown(pageSize, |pages| - 1) < |Listing(tables[0], tenant, f, None)|
    ensures pages[|pages| - 1].next.Some? <==> Shown(pageSize, |pages|) < |Listing(tables[0], tenant, f, None)|
  {
    TokensRoundTrip();
    WalkShowsListing(TOKENS, tables, tenant, f, pageSize, pages);
  }

  /** A token that does not decode is refused, and only such a one; an absent or empty token asks
      for the first page. */
  lemma RefusedIff(token: Option<string>)
    ensures DecodePageToken(TOKENS, token).Err? <==> token.Some? && |token.value| > 0 && TOKENS.decode(token.value).None?
    ensures token.None? || |token.value| == 0 ==> DecodePageToken(TOKENS, token) == Ok(None)
    ensures DecodePageToken(TOKENS, token).Ok? && token.Some? && |token.value| > 0 ==> DecodePageToken(TOKENS, token).value.Some?
  {
  }

  /** The token of a page is always accepted, and asks for what is below its last event. */
  lemma TokenIsAccepted(rows: seq<Event>, pageSize: int)
    requires 1 <= pageSize && |rows| > pageSize
    ensures var page := Cut(TOKENS, rows, pageSize);
            DecodePageToken(TOKENS, page.next) == Ok(Some(page.data[pageSize - 1].id))
  {
    TokensRoundTrip();
  }
}
