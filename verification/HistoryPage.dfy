/**
  The GitOps history read page by page: whatever the page size and the scan cap,
  the pages concatenate to the authorised rows of the whole table.
*/
module HistoryPage {
  import opened Common

  const DEFAULT_LIMIT := 50
  const MAX_LIMIT := 100
  const SCAN_CAP := 1000
  const MAX_SAFE_INTEGER := 0x1F_FFFF_FFFF_FFFF

  datatype Row = Row(createdAt: nat, id: string, applicationId: string, stackName: Option<string>, nodeId: Option<int>)

  datatype Filters = Filters(applicationId: Option<string>, stackName: Option<string>, nodeId: Option<int>)

  datatype Cursor = Cursor(createdAt: nat, id: string)

  datatype Item = Item(row: Row, stackResourcePresent: bool, lifecycle: Option<string>)

  datatype Scope = PerRow | AuthorizedStack(stackName: string)

  /** What decides a row's visibility: the store, the stacks on disk, the caller's grants, the route's scope. */
  datatype Context = Context(
    lifecycles: map<string, string>,
    liveDirect: map<string, string>,
    present: set<string>,
    audit: bool,
    stackRead: set<string>,
    scope: Scope)

  // ---------------------------------------------------------------- cursors

  function Digits(n: nat): (t: string)
    ensures t != [] && AllDigits(t)
  {
    if n < 10 then [DigitChar(n)] else Digits(n / 10) + [DigitChar(n % 10)]
  }

  function DigitChar(n: nat): (c: char)
    requires n < 10
    ensures '0' <= c <= '9'
  {
    '0' + n as char
  }

  predicate AllDigits(t: string) {
    forall i | 0 <= i < |t| :: '0' <= t[i] <= '9'
  }

  function DigitsValue(t: string): nat
    requires AllDigits(t)
  {
    if t == [] then 0 else DigitsValue(t[..|t| - 1]) * 10 + (t[|t| - 1] - '0') as nat
  }

  predicate IsLowerHex(c: char) {
    '0' <= c <= '9' || 'a' <= c <= 'f'
  }

  /** `randomUUID()` text: 8-4-4-4-12 lower-case hex digits. */
  predicate IsHistoryId(id: string) {
    && |id| == 36
    && forall i | 0 <= i < 36 :: if i == 8 || i == 13 || i == 18 || i == 23 then id[i] == '-' else IsLowerHex(id[i])
  }

  function IndexOf(t: string, c: char): (i: nat)
    ensures i <= |t| && (forall j | 0 <= j < i :: t[j] != c) && (i < |t| ==> t[i] == c)
  {
    if t == [] || t[0] == c then 0 else 1 + IndexOf(t[1..], c)
  }

  function EncodeCursor(c: Cursor): string {
    Digits(c.createdAt) + "." + c.id
  }

  function DecodeCursor(raw: string): Option<Cursor> {
    var separator := IndexOf(raw, '.');
    if separator == |raw| || separator == 0 || separator == |raw| - 1 then None
    else
      var time, id := raw[..separator], raw[separator + 1..];
      if !AllDigits(time) || DigitsValue(time) > MAX_SAFE_INTEGER || !IsHistoryId(id) then None
      else Some(Cursor(DigitsValue(time), id))
  }

  lemma {:induction false} DigitsRoundTrip(n: nat)
    ensures DigitsValue(Digits(n)) == n
  {
    if n >= 10 {
      DigitsRoundTrip(n / 10);
      assert Digits(n)[..|Digits(n)| - 1] == Digits(n / 10);
    } else {
      assert Digits(n)[..0] == [];
    }
  }

  /** A cursor the server hands out is the cursor it reads back. */
  lemma CursorRoundTrip(c: Cursor)
    requires c.createdAt <= MAX_SAFE_INTEGER && IsHistoryId(c.id)
    ensures DecodeCursor(EncodeCursor(c)) == Some(c)
  {
    var time := Digits(c.createdAt);
    var raw := EncodeCursor(c);
    assert raw[|time|] == '.';
    assert forall j | 0 <= j < |time| :: raw[j] == time[j] != '.';
    assert IndexOf(raw, '.') == |time|;
    assert raw[..|time|] == time && raw[|time| + 1..] == c.id;
    DigitsRoundTrip(c.createdAt);
  }

  // ------------------------------------------------------------ the query

  function CursorOf(r: Row): Cursor {
    Cursor(r.createdAt, r.id)
  }

  /** `created_at < ? OR (created_at = ? AND id < ?)` */
  predicate IsAfter(c: Cursor, r: Row) {
    r.createdAt < c.createdAt || (r.createdAt == c.createdAt && Less(r.id, c.id))
  }

  predicate Matches(f: Filters, r: Row) {
    && (f.applicationId.Some? ==> r.applicationId == f.applicationId.value)
    && (f.stackName.Some? ==> r.stackName == f.stackName)
    && (f.nodeId.Some? ==> r.nodeId == f.nodeId || r.nodeId == None)
  }

  function Select(rows: seq<Row>, f: Filters): seq<Row> {
    if rows == [] then [] else (if Matches(f, rows[0]) then [rows[0]] else []) + Select(rows[1..], f)
  }

  function AfterCursor(rows: seq<Row>, cursor: Option<Cursor>): seq<Row> {
    if cursor.None? then rows
    else if rows == [] then []
    else (if IsAfter(cursor.value, rows[0]) then [rows[0]] else []) + AfterCursor(rows[1..], cursor)
  }

  /** The rows of a scan window: newest first, past the cursor, at most `cap`. */
  function QueryHistoryRows(table: seq<Row>, f: Filters, cursor: Option<Cursor>, cap: nat): seq<Row> {
    var rows := AfterCursor(Select(table, f), cursor);
    if |rows| <= cap then rows else rows[..cap]
  }

  /** Newest first in the total order on time and id. */
  ghost predicate Ordered(rows: seq<Row>) {
    forall i, j | 0 <= i < j < |rows| :: IsAfter(CursorOf(rows[i]), rows[j])
  }

  /** A row the store can hold. */
  predicate IsRow(r: Row) {
    r.createdAt <= MAX_SAFE_INTEGER && IsHistoryId(r.id)
  }

  ghost predicate IsTable(rows: seq<Row>) {
    Ordered(rows) && forall i | 0 <= i < |rows| :: IsRow(rows[i])
  }

  /** Exactly the rows that match, which `SelectIsTable` has in the table's order. */
  lemma {:induction false} SelectKeeps(rows: seq<Row>, f: Filters)
    ensures forall r :: r in Select(rows, f) <==> r in rows && Matches(f, r)
  {
    if rows != [] {
      SelectKeeps(rows[1..], f);
      assert rows == [rows[0]] + rows[1..];
    }
  }

  lemma RestIsTable(rows: seq<Row>)
    requires IsTable(rows) && rows != []
    ensures IsTable(rows[1..]) && IsRow(rows[0]) && forall r | r in rows[1..] :: IsAfter(CursorOf(rows[0]), r)
  {
    var rest := rows[1..];
    forall i, j | 0 <= i < j < |rest| ensures IsAfter(CursorOf(rest[i]), rest[j]) {
      assert rest[i] == rows[i + 1] && rest[j] == rows[j + 1];
    }
    forall i | 0 <= i < |rest| ensures IsRow(rest[i]) && IsAfter(CursorOf(rows[0]), rest[i]) {
      assert rest[i] == rows[i + 1];
    }
  }

  lemma TableWith(head: Row, rest: seq<Row>)
    requires IsRow(head) && IsTable(rest) && forall r | r in rest :: IsAfter(CursorOf(head), r)
    ensures IsTable([head] + rest)
  {
    var rows := [head] + rest;
    forall i, j | 0 <= i < j < |rows| ensures IsAfter(CursorOf(rows[i]), rows[j]) {
      assert rows[j] == rest[j - 1] && rest[j - 1] in rest;
      if i > 0 { assert rows[i] == rest[i - 1]; }
    }
    forall i | 0 <= i < |rows| ensures IsRow(rows[i]) { if i > 0 { assert rows[i] == rest[i - 1]; } }
  }

  lemma {:induction false} SelectIsTable(rows: seq<Row>, f: Filters)
    requires IsTable(rows)
    ensures IsTable(Select(rows, f))
  {
    if rows != [] {
      var rest := Select(rows[1..], f);
      RestIsTable(rows);
      SelectIsTable(rows[1..], f);
      SelectKeeps(rows[1..], f);
      if Matches(f, rows[0]) { TableWith(rows[0], rest); } else { assert Select(rows, f) == rest; }
    }
  }

  predicate NoneAfter(c: Cursor, rows: seq<Row>) {
    forall i | 0 <= i < |rows| :: !IsAfter(c, rows[i])
  }

  predicate AllAfter(c: Cursor, rows: seq<Row>) {
    forall i | 0 <= i < |rows| :: IsAfter(c, rows[i])
  }

  lemma {:induction false} KeepsAll(rows: seq<Row>, c: Cursor)
    requires AllAfter(c, rows)
    ensures AfterCursor(rows, Some(c)) == rows
  {
    if rows != [] {
      KeepsAll(rows[1..], c);
      assert rows == [rows[0]] + rows[1..];
    }
  }

  lemma {:induction false} SkipsAll(rows: seq<Row>, tail: seq<Row>, c: Cursor)
    requires NoneAfter(c, rows)
    ensures AfterCursor(rows + tail, Some(c)) == AfterCursor(tail, Some(c))
  {
    if rows == [] {
      assert rows + tail == tail;
    } else {
      assert (rows + tail)[1..] == rows[1..] + tail;
      SkipsAll(rows[1..], tail, c);
    }
  }

  /** No row up to `k` comes after row `k`. */
  lemma NotAfter(rows: seq<Row>, i: nat, k: nat)
    requires Ordered(rows) && i <= k < |rows|
    ensures !IsAfter(CursorOf(rows[k]), rows[i])
  {
    var a, b := rows[i], rows[k];
    if i < k {
      assert IsAfter(CursorOf(a), b);
      if a.createdAt == b.createdAt { LessIsAsymmetric(b.id, a.id); }
    } else if Less(a.id, a.id) {
      LessIsAsymmetric(a.id, a.id);
    }
  }

  lemma HeadIsNotAfter(rows: seq<Row>, k: nat)
    requires Ordered(rows) && k < |rows|
    ensures NoneAfter(CursorOf(rows[k]), rows[..k + 1])
  {
    var head := rows[..k + 1];
    forall i | 0 <= i < |head| ensures !IsAfter(CursorOf(rows[k]), head[i]) { NotAfter(rows, i, k); }
  }

  lemma TailIsAfter(rows: seq<Row>, k: nat)
    requires Ordered(rows) && k < |rows|
    ensures AllAfter(CursorOf(rows[k]), rows[k + 1..])
  {
    var tail := rows[k + 1..];
    forall i | 0 <= i < |tail| ensures IsAfter(CursorOf(rows[k]), tail[i]) { assert tail[i] == rows[k + 1 + i]; }
  }

  lemma CutBehind(rows: seq<Row>, k: nat)
    requires k < |rows|
    ensures rows == rows[..k + 1] + rows[k + 1..]
  {
  }

  lemma ResumesBetween(rows: seq<Row>, head: seq<Row>, tail: seq<Row>, c: Cursor)
    requires rows == head + tail && NoneAfter(c, head) && AllAfter(c, tail)
    ensures AfterCursor(rows, Some(c)) == tail
  {
    SkipsAll(head, tail, c);
    KeepsAll(tail, c);
  }

  /** Resuming at the cursor of row `k` yields exactly the rows behind it. */
  lemma ResumesAt(rows: seq<Row>, k: nat)
    requires Ordered(rows) && k < |rows|
    ensures AfterCursor(rows, Some(CursorOf(rows[k]))) == rows[k + 1..]
  {
    HeadIsNotAfter(rows, k);
    TailIsAfter(rows, k);
    CutBehind(rows, k);
    ResumesBetween(rows, rows[..k + 1], rows[k + 1..], CursorOf(rows[k]));
  }

  // -------------------------------------------------------- authorisation

  datatype Requirement = Audit | StackRead(stackName: string)

  function ClassifyHistoryRow(stackName: Option<string>, lifecycle: Option<string>, present: bool): Requirement {
    if stackName.None? || stackName.value == "" then Audit
    else if lifecycle != Some("active") then Audit
    else if !present then Audit
    else StackRead(stackName.value)
  }

  predicate Satisfies(ctx: Context, requirement: Requirement) {
    match requirement
    case Audit => ctx.audit
    case StackRead(stackName) => stackName in ctx.stackRead
  }

  function Lifecycle(ctx: Context, applicationId: string): Option<string> {
    if applicationId in ctx.lifecycles then Some(ctx.lifecycles[applicationId]) else None
  }

  function ItemOf(ctx: Context, r: Row): Item {
    Item(r, r.stackName.Some? && r.stackName.value in ctx.present, Lifecycle(ctx, r.applicationId))
  }

  /** The application a stack grant exempts, when the scope names one. */
  function ScopedApplication(ctx: Context): Option<string> {
    if ctx.scope.AuthorizedStack? && ctx.scope.stackName in ctx.liveDirect then
      Some(ctx.liveDirect[ctx.scope.stackName]) else None
  }

  predicate Authorized(ctx: Context, r: Row) {
    || ScopedApplication(ctx) == Some(r.applicationId)
    || Satisfies(ctx,
      ClassifyHistoryRow(r.stackName, Lifecycle(ctx, r.applicationId), ItemOf(ctx, r).stackResourcePresent))
  }

  /** The row's application is live and the stack it names is on disk: a grant on that stack covers it. */
  predicate IsCoveredByStack(ctx: Context, r: Row) {
    && r.stackName.Some? && r.stackName.value != "" && r.stackName.value in ctx.present
    && r.applicationId in ctx.lifecycles && ctx.lifecycles[r.applicationId] == "active"
  }

  /** The route is for the stack whose live application wrote the row. */
  predicate IsScoped(ctx: Context, r: Row) {
    && ctx.scope.AuthorizedStack? && ctx.scope.stackName in ctx.liveDirect
    && ctx.liveDirect[ctx.scope.stackName] == r.applicationId
  }

  /** Who may read a row: its own stack's readers while its application lives, auditors otherwise. */
  lemma AuthorizedExactly(ctx: Context, r: Row)
    ensures Authorized(ctx, r) <==>
      IsScoped(ctx, r) || if IsCoveredByStack(ctx, r) then r.stackName.value in ctx.stackRead else ctx.audit
  {
  }

  /** The authorised rows, in order. */
  function AuthorizedItems(ctx: Context, rows: seq<Row>): (items: seq<Item>)
    ensures |items| <= |rows|
  {
    if rows == [] then []
    else
      var last := rows[|rows| - 1];
      AuthorizedItems(ctx, rows[..|rows| - 1]) + (if Authorized(ctx, last) then [ItemOf(ctx, last)] else [])
  }

  lemma {:induction false} AuthorizedItemsConcat(ctx: Context, a: seq<Row>, b: seq<Row>)
    ensures AuthorizedItems(ctx, a + b) == AuthorizedItems(ctx, a) + AuthorizedItems(ctx, b)
    decreases |b|
  {
    if b == [] {
      assert a + b == a;
    } else {
      assert (a + b)[..|a + b| - 1] == a + b[..|b| - 1];
      AuthorizedItemsConcat(ctx, a, b[..|b| - 1]);
    }
  }

  /** What is read of a row: itself, whether its stack is there, and its application's lifecycle. */
  predicate IsItemOf(ctx: Context, r: Row, item: Item) {
    && item.row == r
    && (item.stackResourcePresent <==> r.stackName.Some? && r.stackName.value in ctx.present)
    && (if r.applicationId in ctx.lifecycles then item.lifecycle == Some(ctx.lifecycles[r.applicationId])
        else item.lifecycle == None)
  }

  lemma ItemIs(ctx: Context, r: Row, item: Item)
    ensures item == ItemOf(ctx, r) <==> IsItemOf(ctx, r, item)
  {
  }

  /** The items are exactly those of the authorised rows. */
  lemma {:induction false} ItemsAreAuthorized(ctx: Context, rows: seq<Row>, item: Item)
    ensures item in AuthorizedItems(ctx, rows) <==>
      item.row in rows && Authorized(ctx, item.row) && IsItemOf(ctx, item.row, item)
    decreases |rows|
  {
    if rows != [] {
      var init, last := rows[..|rows| - 1], rows[|rows| - 1];
      ItemsAreAuthorized(ctx, init, item);
      assert rows == init + [last];
      ItemIs(ctx, last, item);
    }
  }

  // ---------------------------------------------------------------- pages

  datatype Page = Page(items: seq<Item>, nextCursor: Option<string>)

  /** No shorter prefix of the window fills the page. */
  ghost predicate NotFullBefore(ctx: Context, rows: seq<Row>, limit: nat, n: nat)
    requires n <= |rows|
  {
    forall m {:trigger AuthorizedItems(ctx, rows[..m])} | 0 <= m < n :: |AuthorizedItems(ctx, rows[..m])| < limit
  }

  lemma AuthorizedItemsNext(ctx: Context, rows: seq<Row>, i: nat)
    requires i < |rows|
    ensures AuthorizedItems(ctx, rows[..i + 1])
         == AuthorizedItems(ctx, rows[..i]) + (if Authorized(ctx, rows[i]) then [ItemOf(ctx, rows[i])] else [])
  {
    assert rows[..i + 1][..i] == rows[..i];
  }

  /** `n` rows were examined: all of the window, or just enough to fill the page. */
  ghost predicate IsPage(ctx: Context, rows: seq<Row>, limit: nat, cap: nat, page: Page, n: nat) {
    && n <= |rows|
    && page.items == AuthorizedItems(ctx, rows[..n])
    && |page.items| <= limit
    && (n < |rows| ==> |page.items| == limit)
    && NotFullBefore(ctx, rows, limit, n)
    && page.nextCursor
      == (if n > 0 && (n < |rows| || |rows| == cap) then Some(EncodeCursor(CursorOf(rows[n - 1]))) else None)
  }

  /** The page is what some prefix of the window gives. */
  ghost predicate IsPageOf(ctx: Context, rows: seq<Row>, limit: nat, cap: nat, page: Page) {
    exists n: nat :: IsPage(ctx, rows, limit, cap, page, n)
  }

  /** The first `i` rows were examined and gave these items. */
  ghost predicate Scanned(ctx: Context, rows: seq<Row>, limit: nat, i: nat, items: seq<Item>) {
    && i <= |rows| && items == AuthorizedItems(ctx, rows[..i])
    && |items| <= limit && NotFullBefore(ctx, rows, limit, i)
  }

  lemma ScanNext(ctx: Context, rows: seq<Row>, limit: nat, i: nat, items: seq<Item>)
    requires Scanned(ctx, rows, limit, i, items) && i < |rows| && |items| < limit
    ensures Scanned(ctx, rows, limit, i + 1, items + (if Authorized(ctx, rows[i]) then [ItemOf(ctx, rows[i])] else []))
  {
    AuthorizedItemsNext(ctx, rows, i);
  }

  function NextCursor(exhausted: bool, full: bool, lastExamined: Option<Row>): Option<string> {
    if (!exhausted || full) && lastExamined.Some? then Some(EncodeCursor(CursorOf(lastExamined.value))) else None
  }

  lemma ScanEnd(ctx: Context, rows: seq<Row>, limit: nat, cap: nat, i: nat, items: seq<Item>, lastExamined: Option<Row>)
    requires Scanned(ctx, rows, limit, i, items) && (i < |rows| ==> |items| == limit)
    requires lastExamined == if i == 0 then None else Some(rows[i - 1])
    ensures IsPageOf(ctx, rows, limit, cap, Page(items, NextCursor(i == |rows|, |rows| == cap, lastExamined)))
  {
    assert IsPage(ctx, rows, limit, cap, Page(items, NextCursor(i == |rows|, |rows| == cap, lastExamined)), i);
  }

  method BuildHistoryPage(table: seq<Row>, f: Filters, ctx: Context, limit: nat, cursor: Option<Cursor>, cap: nat)
    returns (page: Page)
    requires limit >= 1
    ensures IsPageOf(ctx, QueryHistoryRows(table, f, cursor, cap), limit, cap, page)
  {
    var rows := QueryHistoryRows(table, f, cursor, cap);
    page := ScanRows(rows, ctx, limit, cap);
  }

  method ScanRows(rows: seq<Row>, ctx: Context, limit: nat, cap: nat) returns (page: Page)
    requires limit >= 1
    ensures IsPageOf(ctx, rows, limit, cap, page)
  {
    var scoped := ScopedApplication(ctx);
    var applications: map<string, Option<string>> := map[];
    var items: seq<Item> := [];
    var lastExamined: Option<Row> := None;
    var exhausted := true;
    var i := 0;
    while i < |rows|
      invariant Scanned(ctx, rows, limit, i, items)
      invariant lastExamined == if i == 0 then None else Some(rows[i - 1])
      invariant forall id | id in applications :: applications[id] == Lifecycle(ctx, id)
      invariant exhausted
    {
      if |items| == limit {
        exhausted := false;
        break;
      }
      var row := rows[i];
      lastExamined := Some(row);
      var present := row.stackName.Some? && row.stackName.value in ctx.present;
      if row.applicationId !in applications {
        applications := applications[row.applicationId := Lifecycle(ctx, row.applicationId)];
      }
      var lifecycle := applications[row.applicationId];
      ScanNext(ctx, rows, limit, i, items);
      var covered := scoped.Some? && row.applicationId == scoped.value;
      if covered || Satisfies(ctx, ClassifyHistoryRow(row.stackName, lifecycle, present)) {
        items := items + [Item(row, present, lifecycle)];
      } else {
        assert items + [] == items;
      }
      i := i + 1;
    }
    ScanEnd(ctx, rows, limit, cap, i, items, lastExamined);
    page := Page(items, NextCursor(exhausted, |rows| == cap, lastExamined));
  }

  /** The page size: absent, unusable and non-positive values fall back to the default, large ones are capped. */
  function ParseLimit(value: Option<int>): (limit: nat)
    ensures 1 <= limit <= MAX_LIMIT
    ensures value.Some? && 1 <= value.value <= MAX_LIMIT ==> limit == value.value
    ensures value.Some? && MAX_LIMIT < value.value <= MAX_SAFE_INTEGER ==> limit == MAX_LIMIT
    ensures value.None? || value.value < 1 || value.value > MAX_SAFE_INTEGER ==> limit == DEFAULT_LIMIT
  {
    if value.None? then DEFAULT_LIMIT
    else if value.value < 1 || value.value > MAX_SAFE_INTEGER then DEFAULT_LIMIT
    else if value.value < MAX_LIMIT then value.value
    else MAX_LIMIT
  }

  function CursorIn(cursorRaw: Option<string>): Option<Cursor> {
    if cursorRaw.None? then None else DecodeCursor(cursorRaw.value)
  }

  datatype Response = BadCursor | Answer(page: Page)

  /** One request: a cursor that does not decode is refused, never treated as the first page. */
  method RespondWithHistory(table: seq<Row>, f: Filters, ctx: Context, limit: nat, cursorRaw: Option<string>, cap: nat)
    returns (response: Response)
    requires limit >= 1
    ensures response.BadCursor? <==> cursorRaw.Some? && DecodeCursor(cursorRaw.value).None?
    ensures response.Answer? ==>
      IsPageOf(ctx, QueryHistoryRows(table, f, CursorIn(cursorRaw), cap), limit, cap, response.page)
  {
    var cursor: Option<Cursor> := None;
    if cursorRaw.Some? {
      cursor := DecodeCursor(cursorRaw.value);
      if cursor.None? { return BadCursor; }
    }
    var page := BuildHistoryPage(table, f, ctx, limit, cursor, cap);
    response := Answer(page);
  }

  /** Where a client stands: the request cursor resumes behind the first `k` matching rows. */
  ghost predicate Position(rows: seq<Row>, cursorRaw: Option<string>, k: nat) {
    && k <= |rows|
    && (k == 0 ==> cursorRaw == None)
    && (k > 0 ==> cursorRaw == Some(EncodeCursor(CursorOf(rows[k - 1]))))
  }

  /** At most `cap` rows behind the first `k`. */
  function Window(rows: seq<Row>, k: nat, cap: nat): seq<Row>
    requires k <= |rows|
  {
    if |rows| - k <= cap then rows[k..] else rows[k..][..cap]
  }

  lemma WindowAt(table: seq<Row>, f: Filters, cursorRaw: Option<string>, k: nat, cap: nat)
    requires IsTable(table) && Position(Select(table, f), cursorRaw, k)
    ensures cursorRaw.Some? ==> DecodeCursor(cursorRaw.value).Some?
    ensures QueryHistoryRows(table, f, CursorIn(cursorRaw), cap) == Window(Select(table, f), k, cap)
  {
    var rows := Select(table, f);
    SelectIsTable(table, f);
    if k > 0 {
      CursorRoundTrip(CursorOf(rows[k - 1]));
      ResumesAt(rows, k - 1);
    }
  }

  /** The page takes the client from position `k` to position `next`, and ends the run exactly at the last row. */
  ghost predicate Advances(ctx: Context, rows: seq<Row>, k: nat, page: Page, next: nat) {
    && k <= next <= |rows|
    && AuthorizedItems(ctx, rows[..k]) + page.items == AuthorizedItems(ctx, rows[..next])
    && (page.nextCursor.Some? ==> k < next && Position(rows, page.nextCursor, next))
    && (page.nextCursor.None? ==> next == |rows|)
  }

  /** One page moves the client on by the rows examined. */
  lemma PageAdvances(ctx: Context, rows: seq<Row>, k: nat, limit: nat, cap: nat, page: Page, n: nat)
    requires limit >= 1 && cap >= 1 && k <= |rows|
    requires IsPage(ctx, Window(rows, k, cap), limit, cap, page, n)
    ensures Advances(ctx, rows, k, page, k + n)
  {
    var window := Window(rows, k, cap);
    assert window[..n] == rows[k..k + n] && rows[..k] + rows[k..k + n] == rows[..k + n];
    AuthorizedItemsConcat(ctx, rows[..k], rows[k..k + n]);
    if n > 0 { assert window[n - 1] == rows[k + n - 1]; }
  }

  lemma PageAdvancesBy(ctx: Context, rows: seq<Row>, k: nat, limit: nat, cap: nat, page: Page) returns (next: nat)
    requires limit >= 1 && cap >= 1 && k <= |rows| && IsPageOf(ctx, Window(rows, k, cap), limit, cap, page)
    ensures Advances(ctx, rows, k, page, next)
  {
    var n :| IsPage(ctx, Window(rows, k, cap), limit, cap, page, n);
    PageAdvances(ctx, rows, k, limit, cap, page, n);
    next := k + n;
  }

  /** The client's next request, from position `k` to position `next`. */
  method FetchPage(table: seq<Row>, f: Filters, ctx: Context, limit: nat, cap: nat, cursorRaw: Option<string>,
      ghost k: nat)
    returns (response: Response, ghost next: nat)
    requires IsTable(table) && limit >= 1 && cap >= 1 && Position(Select(table, f), cursorRaw, k)
    ensures response.Answer? && Advances(ctx, Select(table, f), k, response.page, next)
  {
    WindowAt(table, f, cursorRaw, k, cap);
    response := RespondWithHistory(table, f, ctx, limit, cursorRaw, cap);
    next := PageAdvancesBy(ctx, Select(table, f), k, limit, cap, response.page);
  }

  /**
    A client that follows `nextCursor` until it is null: it is never refused, it
    stops, and it has read the authorised rows of the whole table, each once and
    in order, whatever the page size and the scan cap.
  */
  method FollowCursors(table: seq<Row>, f: Filters, ctx: Context, limit: nat, cap: nat)
    returns (all: seq<Item>, refused: bool)
    requires IsTable(table) && limit >= 1 && cap >= 1
    ensures !refused
    ensures all == AuthorizedItems(ctx, Select(table, f))
  {
    ghost var rows := Select(table, f);
    ghost var k := 0;
    var cursorRaw: Option<string> := None;
    all, refused := [], false;
    var more := true;
    while more
      invariant k <= |rows| && (more ==> Position(rows, cursorRaw, k))
      invariant all == AuthorizedItems(ctx, rows[..k])
      invariant !more ==> k == |rows|
      decreases |rows| - k, more
    {
      var response, next := FetchPage(table, f, ctx, limit, cap, cursorRaw, k);
      if response.BadCursor? { return all, true; }
      all := all + response.page.items;
      k := next;
      cursorRaw := response.page.nextCursor;
      more := cursorRaw.Some?;
    }
    assert rows[..k] == rows;
  }

  /** The routes' own page size and scan cap: any `limit` parameter leads through the whole history. */
  method ReadHistory(table: seq<Row>, f: Filters, ctx: Context, limitParam: Option<int>) returns (all: seq<Item>)
    requires IsTable(table)
    ensures all == AuthorizedItems(ctx, Select(table, f))
  {
    var refused;
    all, refused := FollowCursors(table, f, ctx, ParseLimit(limitParam), SCAN_CAP);
  }
}
