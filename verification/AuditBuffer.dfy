/** The audit log's write-through/write-behind buffer and its batch INSERT (`AuditLogger`).

    High-risk events are written at once; the others wait in a buffer that is flushed when it
    holds a batch, and when the logger's context exits.  A database call either inserts all its
    rows or none, and none if one of them violates a column constraint of `audit_logs`.  Up to the
    last section, calls run one at a time.
 */
module AuditBuffer {
  import opened Results
  import opened Tallies

  datatype RiskLevel = Critical | High | Medium | Low | Info

  /** A query parameter, as rendered for the database. */
  datatype Cell = Null | Text(text: string)

  datatype ComplianceEvent = ComplianceEvent(
    riskLevel: RiskLevel,
    userId: Cell,
    ipAddress: Cell,
    userAgent: Cell,
    sessionId: Cell,
    action: Cell,
    resourceType: Cell,
    resourceId: Cell,
    requestMethod: Cell,
    requestPath: Cell,
    hasEventData: bool,
    requestBody: Cell,
    responseStatus: Cell,
    riskScore: Cell,
    references: Cell)

  /** What the conversion of an event draws afresh: a log id and the current time.  The event's
      own id and timestamp are not stored. */
  datatype Stamp = Stamp(logId: Cell, timestamp: Cell)

  type Row = seq<Cell>

  const BATCH_SIZE: nat := 100
  const COLUMNS: nat := 15

  predicate FitsIn(c: Cell, limit: nat) { c.Text? ==> |c.text| <= limit }

  /** The conversion to an audit log entry validates lengths that the event itself does not bound. */
  predicate Convertible(e: ComplianceEvent) {
    && FitsIn(e.ipAddress, 45)
    && FitsIn(e.userAgent, 500)
    && (e.hasEventData ==> FitsIn(e.requestPath, 200))
  }

  function ToRow(e: ComplianceEvent, s: Stamp): (row: Row)
    ensures |row| == COLUMNS
  {
    [s.logId, e.userId, e.ipAddress, e.userAgent, e.sessionId, e.action, e.resourceType, e.resourceId,
     e.requestMethod, e.requestPath, e.requestBody, e.responseStatus, e.riskScore, e.references, s.timestamp]
  }

  // ---------- the columns of `audit_logs` ----------

  predicate HexDigit(c: char) {
    '0' <= c <= '9' || 'a' <= c <= 'f' || 'A' <= c <= 'F'
  }

  function HexDigits(text: string): (n: nat)
    ensures n <= |text|
  {
    if text == [] then 0
    else HexDigits(text[..|text| - 1]) + if HexDigit(text[|text| - 1]) then 1 else 0
  }

  /** A UUID as text: 32 hexadecimal digits, and at most four hyphens between them. */
  predicate IsUuid(text: string) {
    && 32 <= |text| <= 36 && HexDigits(text) == 32
    && forall i | 0 <= i < |text| :: HexDigit(text[i]) || text[i] == '-'
  }

  predicate ActionColumn(c: Cell) { c.Text? && |c.text| <= 100 }

  predicate ResourceTypeColumn(c: Cell) { c.Text? && |c.text| <= 50 }

  predicate ResourceIdColumn(c: Cell) { c.Text? ==> IsUuid(c.text) }

  /** The column constraints that an event can violate. */
  predicate TableAccepts(row: Row)
    requires |row| == COLUMNS
  {
    ActionColumn(row[5]) && ResourceTypeColumn(row[6]) && ResourceIdColumn(row[7])
  }

  predicate Storable(e: ComplianceEvent) {
    ActionColumn(e.action) && ResourceTypeColumn(e.resourceType) && ResourceIdColumn(e.resourceId)
  }

  /** An event that can become a row of the table. */
  predicate Acceptable(e: ComplianceEvent) {
    Convertible(e) && Storable(e)
  }

  predicate WriteThrough(e: ComplianceEvent) {
    e.riskLevel.Critical? || e.riskLevel.High?
  }

  // ---------- the batch INSERT ----------

  /** The rows of a batch; event `i` gets stamp `draw(i)`. */
  function ToRows(events: seq<ComplianceEvent>, draw: nat -> Stamp): seq<Row> {
    seq(|events|, i requires 0 <= i < |events| => ToRow(events[i], draw(i)))
  }

  function Flatten(rows: seq<Row>): seq<Cell> {
    if rows == [] then [] else Flatten(rows[..|rows| - 1]) + rows[|rows| - 1]
  }

  /** The placeholder numbers of one row: `$base+1` to `$base+15`. */
  function RowPlaceholders(i: nat): (r: seq<nat>)
    ensures |r| == COLUMNS
  {
    var base := i * 15;
    [base + 1, base + 2, base + 3, base + 4, base + 5, base + 6, base + 7, base + 8, base + 9, base + 10,
     base + 11, base + 12, base + 13, base + 14, base + 15]
  }

  function Placeholders(n: nat): seq<seq<nat>> {
    seq(n, i requires 0 <= i < n => RowPlaceholders(i))
  }

  predicate Binds(placeholders: seq<seq<nat>>, values: seq<Cell>) {
    forall i, j | 0 <= i < |placeholders| && 0 <= j < |placeholders[i]| :: 1 <= placeholders[i][j] <= |values|
  }

  /** The rows that the database inserts: placeholder `$p` stands for value number `p`. */
  function BoundRows(placeholders: seq<seq<nat>>, values: seq<Cell>): seq<Row>
    requires Binds(placeholders, values)
  {
    seq(|placeholders|, i requires 0 <= i < |placeholders| =>
      seq(|placeholders[i]|, j requires 0 <= j < |placeholders[i]| => values[placeholders[i][j] - 1]))
  }

  predicate Rectangular(rows: seq<Row>) {
    forall i | 0 <= i < |rows| :: |rows[i]| == COLUMNS
  }

  lemma {:induction false} FlattenLength(rows: seq<Row>)
    requires Rectangular(rows)
    ensures |Flatten(rows)| == 15 * |rows|
  {
    if rows != [] {
      FlattenLength(rows[..|rows| - 1]);
    }
  }

  lemma {:induction false} FlattenAt(rows: seq<Row>, i: nat, j: nat)
    requires Rectangular(rows) && i < |rows| && j < COLUMNS
    ensures |Flatten(rows)| == 15 * |rows| && Flatten(rows)[15 * i + j] == rows[i][j]
  {
    FlattenLength(rows);
    var front := rows[..|rows| - 1];
    FlattenLength(front);
    if i < |front| {
      FlattenAt(front, i, j);
    }
  }

  /** For any number of events the placeholders are `$1` to `$15n` in order, row by row. */
  lemma {:induction false} PlaceholdersInOrder(n: nat, i: nat, j: nat)
    requires i < n && j < COLUMNS
    ensures Placeholders(n)[i][j] == 15 * i + j + 1
  {
    var row := RowPlaceholders(i);
    assert forall k | 0 <= k < COLUMNS :: row[k] == i * 15 + k + 1;
  }

  /** Binding the flattened values through the placeholders gives back the rows. */
  lemma {:induction false} BatchBindsRows(rows: seq<Row>)
    requires Rectangular(rows)
    ensures Binds(Placeholders(|rows|), Flatten(rows))
    ensures BoundRows(Placeholders(|rows|), Flatten(rows)) == rows
  {
    var placeholders, values := Placeholders(|rows|), Flatten(rows);
    FlattenLength(rows);
    forall i, j | 0 <= i < |rows| && 0 <= j < COLUMNS
      ensures 1 <= placeholders[i][j] <= |values| && values[placeholders[i][j] - 1] == rows[i][j]
    {
      PlaceholdersInOrder(|rows|, i, j);
      FlattenAt(rows, i, j);
    }
    var bound := BoundRows(placeholders, values);
    forall i | 0 <= i < |rows|
      ensures bound[i] == rows[i]
    {
      assert forall j | 0 <= j < COLUMNS :: bound[i][j] == rows[i][j];
    }
  }

  /** A row holds an event when it is the event's row under some stamp. */
  predicate RowOf(row: Row, e: ComplianceEvent) {
    |row| == COLUMNS && row == ToRow(e, Stamp(row[0], row[14]))
  }

  /** Row by row, a table holds the given events. */
  predicate Holds(rows: seq<Row>, events: seq<ComplianceEvent>) {
    |rows| == |events| && forall i | 0 <= i < |events| :: RowOf(rows[i], events[i])
  }

  predicate AllRowsAccepted(rows: seq<Row>) {
    forall i | 0 <= i < |rows| :: |rows[i]| == COLUMNS && TableAccepts(rows[i])
  }

  /** The table accepts the rows of some events exactly when each event is storable. */
  lemma {:induction false} AcceptedIffStorable(rows: seq<Row>, events: seq<ComplianceEvent>)
    requires Holds(rows, events)
    ensures AllRowsAccepted(rows) <==> AllStorable(events)
  {
    forall i | 0 <= i < |rows|
      ensures |rows[i]| == COLUMNS && (TableAccepts(rows[i]) <==> Storable(events[i]))
    {
      assert RowOf(rows[i], events[i]);
    }
  }

  /** The batch INSERT of some events inserts one row for each of them, in order. */
  lemma {:induction false} BatchInsertsEvents(events: seq<ComplianceEvent>, draw: nat -> Stamp)
    ensures Binds(Placeholders(|events|), Flatten(ToRows(events, draw)))
    ensures Holds(BoundRows(Placeholders(|events|), Flatten(ToRows(events, draw))), events)
  {
    var rows := ToRows(events, draw);
    forall i | 0 <= i < |rows|
      ensures |rows[i]| == COLUMNS && RowOf(rows[i], events[i])
    {
      assert rows[i] == ToRow(events[i], draw(i));
    }
    BatchBindsRows(rows);
  }

  /** The columns that both INSERT statements name. */
  datatype Column =
    | Id | UserId | IpAddress | UserAgent | SessionId
    | Action | ResourceType | ResourceId | RequestMethod | RequestPath
    | RequestBody | ResponseStatus | RiskScore | SecurityAlerts | CreatedAt

  /** Their column list. */
  const INSERT_COLUMNS: seq<Column> := [
    Id, UserId, IpAddress, UserAgent, SessionId,
    Action, ResourceType, ResourceId, RequestMethod, RequestPath,
    RequestBody, ResponseStatus, RiskScore, SecurityAlerts, CreatedAt]

  /** What each column is for, by name. */
  function ColumnValue(e: ComplianceEvent, stamp: Stamp, column: Column): Cell {
    match column
    case Id => stamp.logId
    case UserId => e.userId
    case IpAddress => e.ipAddress
    case UserAgent => e.userAgent
    case SessionId => e.sessionId
    case Action => e.action
    case ResourceType => e.resourceType
    case ResourceId => e.resourceId
    case RequestMethod => e.requestMethod
    case RequestPath => e.requestPath
    case RequestBody => e.requestBody
    case ResponseStatus => e.responseStatus
    case RiskScore => e.riskScore
    case SecurityAlerts => e.references
    case CreatedAt => stamp.timestamp
  }

  /** Each attribute of an event is stored in the column of that name. */
  lemma {:induction false} StoredColumns(e: ComplianceEvent, stamp: Stamp, c: nat)
    requires c < COLUMNS
    ensures ToRow(e, stamp)[c] == ColumnValue(e, stamp, INSERT_COLUMNS[c])
  {
  }

  // ---------- the logger, on values ----------

  /** The events in the database, in insertion order, and the buffer. */
  datatype State = State(stored: seq<ComplianceEvent>, pending: seq<ComplianceEvent>)

  predicate AllConvertible(events: seq<ComplianceEvent>) {
    forall i | 0 <= i < |events| :: Convertible(events[i])
  }

  predicate AllStorable(events: seq<ComplianceEvent>) {
    forall i | 0 <= i < |events| :: Storable(events[i])
  }

  predicate AllAcceptable(events: seq<ComplianceEvent>) {
    forall i | 0 <= i < |events| :: Acceptable(events[i])
  }

  /** Whether a flush succeeds; `dbOk` says that nothing but the column constraints would make the
      database refuse. */
  predicate FlushSucceeds(s: State, dbOk: bool) {
    s.pending == [] || (AllAcceptable(s.pending) && dbOk)
  }

  function Flushed(s: State, dbOk: bool): State {
    if FlushSucceeds(s, dbOk) then State(s.stored + s.pending, []) else s
  }

  /** A call; `dbOk` is the outcome of the database call it makes, if any, column constraints apart. */
  datatype Call = Log(event: ComplianceEvent, dbOk: bool) | Exit(dbOk: bool)

  function AfterCall(s: State, c: Call): State {
    match c
    case Exit(dbOk) => Flushed(s, dbOk)
    case Log(e, dbOk) =>
      if WriteThrough(e) then
        if Acceptable(e) && dbOk then s.(stored := s.stored + [e]) else s
      else
        var t := s.(pending := s.pending + [e]);
        if |t.pending| >= BATCH_SIZE then Flushed(t, dbOk) else t
  }

  /** Whether the call returns `Ok` (for `Exit`: returns without raising). */
  predicate ReturnsOk(s: State, c: Call) {
    match c
    case Exit(dbOk) => FlushSucceeds(s, dbOk)
    case Log(e, dbOk) =>
      if WriteThrough(e) then Acceptable(e) && dbOk
      else
        var t := s.(pending := s.pending + [e]);
        |t.pending| >= BATCH_SIZE ==> FlushSucceeds(t, dbOk)
  }

  // ---------- the logger, as the program runs it ----------

  /** Collects the values of the batch, event after event; stops at one that cannot be converted. */
  method BatchValues(events: seq<ComplianceEvent>, draw: nat -> Stamp) returns (values: seq<Cell>, converted: bool)
    ensures converted <==> AllConvertible(events)
    ensures converted ==> values == Flatten(ToRows(events, draw))
  {
    values := [];
    var rows := ToRows(events, draw);
    for i := 0 to |events|
      invariant values == Flatten(rows[..i])
      invariant forall k | 0 <= k < i :: Convertible(events[k])
    {
      if !Convertible(events[i]) {
        return values, false;
      }
      assert rows[..i + 1][..i] == rows[..i];
      values := values + ToRow(events[i], draw(i));
    }
    assert rows[..|events|] == rows;
    converted := true;
  }

  method BatchPlaceholders(n: nat) returns (placeholders: seq<seq<nat>>)
    ensures placeholders == Placeholders(n)
  {
    placeholders := [];
    for i := 0 to n
      invariant placeholders == Placeholders(i)
    {
      placeholders := placeholders + [RowPlaceholders(i)];
    }
  }

  /** Builds the batch query and its values; `rows` is what the database makes of them. */
  method BatchRows(events: seq<ComplianceEvent>, draw: nat -> Stamp) returns (rows: seq<Row>, converted: bool)
    ensures converted <==> AllConvertible(events)
    ensures converted ==> Holds(rows, events)
  {
    rows := [];
    var values;
    values, converted := BatchValues(events, draw);
    if converted {
      var placeholders := BatchPlaceholders(|events|);
      BatchInsertsEvents(events, draw);
      rows := BoundRows(placeholders, values);
    }
  }

  class AuditLogger {
    var pending: seq<ComplianceEvent>
    var auditLogs: seq<Row>
    ghost var stored: seq<ComplianceEvent>

    ghost predicate Valid()
      reads this
    {
      Holds(auditLogs, stored) && AllRowsAccepted(auditLogs)
    }

    ghost function View(): State
      reads this
    {
      State(stored, pending)
    }

    constructor ()
      ensures Valid() && View() == State([], [])
    {
      pending, auditLogs, stored := [], [], [];
    }

    method LogEvent(event: ComplianceEvent, draw: nat -> Stamp, dbOk: bool) returns (r: Result<()>)
      requires Valid()
      modifies this
      ensures Valid()
      ensures View() == AfterCall(old(View()), Log(event, dbOk))
      ensures r.Ok? <==> ReturnsOk(old(View()), Log(event, dbOk))
    {
      if WriteThrough(event) {
        r := WriteEventToDatabase(event, draw(0), dbOk);
      } else {
        pending := pending + [event];
        r := Ok(());
        if |pending| >= BATCH_SIZE {
          r := FlushPendingEvents(draw, dbOk);
        }
      }
    }

    method WriteEventToDatabase(event: ComplianceEvent, stamp: Stamp, dbOk: bool) returns (r: Result<()>)
      requires Valid()
      modifies this
      ensures Valid() && pending == old(pending)
      ensures r.Ok? <==> Acceptable(event) && dbOk
      ensures stored == if r.Ok? then old(stored) + [event] else old(stored)
    {
      if !Convertible(event) {
        return Err("validation error");
      }
      var row := ToRow(event, stamp);
      if !TableAccepts(row) || !dbOk {
        return Err("database error");
      }
      auditLogs := auditLogs + [row];
      stored := stored + [event];
      return Ok(());
    }

    method FlushPendingEvents(draw: nat -> Stamp, dbOk: bool) returns (r: Result<()>)
      requires Valid()
      modifies this
      ensures Valid()
      ensures View() == Flushed(old(View()), dbOk)
      ensures r.Ok? <==> FlushSucceeds(old(View()), dbOk)
    {
      if pending == [] {
        return Ok(());
      }
      var rows, converted := BatchRows(pending, draw);
      if !converted {
        return Err("validation error");
      }
      AcceptedIffStorable(rows, pending);
      if !AllRowsAccepted(rows) || !dbOk {
        return Err("database error");
      }
      auditLogs := auditLogs + rows;
      stored := stored + pending;
      pending := [];
      return Ok(());
    }

    method AsyncExit(draw: nat -> Stamp, dbOk: bool) returns (r: Result<()>)
      requires Valid()
      modifies this
      ensures Valid()
      ensures View() == AfterCall(old(View()), Exit(dbOk))
      ensures r.Ok? <==> ReturnsOk(old(View()), Exit(dbOk))
    {
      r := Ok(());
      if pending != [] {
        r := FlushPendingEvents(draw, dbOk);
      }
    }
  }

  // ---------- conservation, over every run of one-at-a-time calls ----------

  ghost predicate CallAt(cs: seq<Call>, ss: seq<State>, k: nat)
    requires k < |cs| && |ss| == |cs| + 1
  {
    ss[k + 1] == AfterCall(ss[k], cs[k])
  }

  ghost predicate IsRun(cs: seq<Call>, ss: seq<State>) {
    && |ss| == |cs| + 1
    && ss[0] == State([], [])
    && forall k {:trigger CallAt(cs, ss, k)} | 0 <= k < |cs| :: CallAt(cs, ss, k)
  }

  /** The events of one class, in order. */
  function Only(events: seq<ComplianceEvent>, high: bool): seq<ComplianceEvent> {
    if events == [] then []
    else
      var e := events[|events| - 1];
      Only(events[..|events| - 1], high) + if WriteThrough(e) == high then [e] else []
  }

  /** What one call adds to the low-risk events logged. */
  function LowOf(c: Call): seq<ComplianceEvent> {
    if c.Log? && !WriteThrough(c.event) then [c.event] else []
  }

  /** The low-risk events of the first `k` calls, whatever the calls returned. */
  function LowLogged(cs: seq<Call>, k: nat): seq<ComplianceEvent>
    requires k <= |cs|
  {
    if k == 0 then []
    else LowLogged(cs, k - 1) + LowOf(cs[k - 1])
  }

  /** The high-risk events of those of the first `k` calls that returned `Ok`. */
  function HighAccepted(cs: seq<Call>, ss: seq<State>, k: nat): seq<ComplianceEvent>
    requires k <= |cs| && |ss| == |cs| + 1
  {
    if k == 0 then []
    else
      var c := cs[k - 1];
      HighAccepted(cs, ss, k - 1)
      + if c.Log? && WriteThrough(c.event) && ReturnsOk(ss[k - 1], c) then [c.event] else []
  }

  lemma {:induction false} OnlyOfConcat(a: seq<ComplianceEvent>, b: seq<ComplianceEvent>, high: bool)
    ensures Only(a + b, high) == Only(a, high) + Only(b, high)
  {
    if b == [] {
      assert a + b == a;
    } else {
      OnlyOfConcat(a, b[..|b| - 1], high);
      assert (a + b)[..|a + b| - 1] == a + b[..|b| - 1];
    }
  }

  lemma {:induction false} OnlyOfClass(events: seq<ComplianceEvent>, high: bool)
    requires forall i | 0 <= i < |events| :: WriteThrough(events[i]) == high
    ensures Only(events, high) == events && Only(events, !high) == []
  {
    if events != [] {
      OnlyOfClass(events[..|events| - 1], high);
    }
  }

  predicate BufferIsLow(s: State) {
    forall i | 0 <= i < |s.pending| :: !WriteThrough(s.pending[i])
  }

  /** The low-risk events logged so far are those stored, followed by those pending. */
  function LowEvents(s: State): seq<ComplianceEvent> {
    Only(s.stored, false) + s.pending
  }

  lemma {:induction false} FlushConserves(s: State, dbOk: bool)
    requires BufferIsLow(s)
    ensures BufferIsLow(Flushed(s, dbOk))
    ensures LowEvents(Flushed(s, dbOk)) == LowEvents(s)
    ensures Only(Flushed(s, dbOk).stored, true) == Only(s.stored, true)
  {
    OnlyOfConcat(s.stored, s.pending, false);
    OnlyOfConcat(s.stored, s.pending, true);
    OnlyOfClass(s.pending, false);
  }

  lemma {:induction false} CallConserves(s: State, c: Call, t: State)
    requires BufferIsLow(s) && t == AfterCall(s, c)
    ensures BufferIsLow(t)
    ensures LowEvents(t) == LowEvents(s) + if c.Log? && !WriteThrough(c.event) then [c.event] else []
    ensures Only(t.stored, true)
         == Only(s.stored, true) + if c.Log? && WriteThrough(c.event) && ReturnsOk(s, c) then [c.event] else []
  {
    match c {
      case Exit(dbOk) => FlushConserves(s, dbOk);
      case Log(e, dbOk) =>
        if WriteThrough(e) {
          OnlyOfConcat(s.stored, [e], false);
          OnlyOfConcat(s.stored, [e], true);
          OnlyOfClass([e], true);
        } else {
          LowCallConserves(s, e, dbOk);
        }
    }
  }

  lemma {:induction false} LowCallConserves(s: State, e: ComplianceEvent, dbOk: bool)
    requires BufferIsLow(s) && !WriteThrough(e)
    ensures var t := AfterCall(s, Log(e, dbOk));
      BufferIsLow(t) && LowEvents(t) == LowEvents(s) + [e] && Only(t.stored, true) == Only(s.stored, true)
  {
    var buffered := s.(pending := s.pending + [e]);
    assert LowEvents(buffered) == LowEvents(s) + [e];
    FlushConserves(buffered, dbOk);
  }

  /** Conservation, whatever database calls fail: the stored low-risk events followed by the
      buffer are exactly the low-risk events logged, in log order, and the stored high-risk
      events are exactly those whose call returned `Ok`. */
  lemma {:induction false} EventsAreConserved(cs: seq<Call>, ss: seq<State>, k: nat)
    requires IsRun(cs, ss) && k <= |cs|
    ensures BufferIsLow(ss[k])
    ensures Only(ss[k].stored, false) + ss[k].pending == LowLogged(cs, k)
    ensures Only(ss[k].stored, true) == HighAccepted(cs, ss, k)
  {
    if k > 0 {
      EventsAreConserved(cs, ss, k - 1);
      assert CallAt(cs, ss, k - 1);
      CallConserves(ss[k - 1], cs[k - 1], ss[k]);
    }
  }

  lemma {:induction false} ClassesPartition(events: seq<ComplianceEvent>)
    ensures multiset(events) == multiset(Only(events, false)) + multiset(Only(events, true))
  {
    if events != [] {
      var front, e := events[..|events| - 1], events[|events| - 1];
      assert events == front + [e];
      ClassesPartition(front);
    }
  }

  /** Exactly once each: database and buffer together hold every accepted event, and nothing else. */
  lemma {:induction false} EveryEventOnce(cs: seq<Call>, ss: seq<State>, k: nat)
    requires IsRun(cs, ss) && k <= |cs|
    ensures multiset(ss[k].stored) + multiset(ss[k].pending)
         == multiset(LowLogged(cs, k)) + multiset(HighAccepted(cs, ss, k))
  {
    EventsAreConserved(cs, ss, k);
    ClassesPartition(ss[k].stored);
    assert multiset(LowLogged(cs, k)) == multiset(Only(ss[k].stored, false)) + multiset(ss[k].pending);
  }

  /** What the risk level of an event decides.  Critical and high-risk events bypass the buffer: the call
      is `Ok` exactly when the event is stored by itself, at once.  The others wait: the event joins the
      buffer, and reaches the database only together with all of it, once it holds 100 events. */
  lemma {:induction false} RiskLevelDecides(s: State, e: ComplianceEvent, dbOk: bool)
    ensures e.riskLevel == Critical || e.riskLevel == High ==>
      var ok, t := ReturnsOk(s, Log(e, dbOk)), AfterCall(s, Log(e, dbOk));
      && (ok <==> Acceptable(e) && dbOk)
      && t == State(if ok then s.stored + [e] else s.stored, s.pending)
    ensures e.riskLevel == Medium || e.riskLevel == Low || e.riskLevel == Info ==>
      var ok, t, buffer := ReturnsOk(s, Log(e, dbOk)), AfterCall(s, Log(e, dbOk)), s.pending + [e];
      if |buffer| < 100 then ok && t == State(s.stored, buffer)
      else (ok <==> AllAcceptable(buffer) && dbOk)
           && t == if ok then State(s.stored + buffer, []) else State(s.stored, buffer)
  {
  }

  lemma {:induction false} OnlyMembers(events: seq<ComplianceEvent>, high: bool)
    ensures forall e :: e in Only(events, high)
                   <==> e in events && (high <==> e.riskLevel == Critical || e.riskLevel == High)
  {
    if events != [] {
      var front, last := events[..|events| - 1], events[|events| - 1];
      assert events == front + [last];
      OnlyMembers(front, high);
    }
  }

  /** Conservation by risk level: a critical or high-risk event is in the database exactly when a call that
      logged it returned `Ok`; any other event that was logged is in the database or in the buffer. */
  lemma {:induction false} ConservedByRiskLevel(cs: seq<Call>, ss: seq<State>, k: nat, e: ComplianceEvent)
    requires IsRun(cs, ss) && k <= |cs|
    ensures e.riskLevel == Critical || e.riskLevel == High ==>
      (e in ss[k].stored <==> exists j | 0 <= j < k :: cs[j].Log? && cs[j].event == e && ReturnsOk(ss[j], cs[j]))
    ensures e.riskLevel == Medium || e.riskLevel == Low || e.riskLevel == Info ==>
      (e in ss[k].stored || e in ss[k].pending <==> exists j | 0 <= j < k :: cs[j].Log? && cs[j].event == e)
  {
    EventsAreConserved(cs, ss, k);
    OnlyMembers(ss[k].stored, true);
    OnlyMembers(ss[k].stored, false);
    AcceptedMembers(cs, ss, k, e);
    LowMembers(cs, k, e);
    assert e in LowLogged(cs, k) <==> e in Only(ss[k].stored, false) || e in ss[k].pending;
  }

  lemma {:induction false} AcceptedMembers(cs: seq<Call>, ss: seq<State>, k: nat, e: ComplianceEvent)
    requires k <= |cs| && |ss| == |cs| + 1
    ensures e.riskLevel == Critical || e.riskLevel == High ==>
      (e in HighAccepted(cs, ss, k)
       <==> exists j | 0 <= j < k :: cs[j].Log? && cs[j].event == e && ReturnsOk(ss[j], cs[j]))
  {
    if k > 0 {
      AcceptedMembers(cs, ss, k - 1, e);
    }
  }

  lemma {:induction false} LowMembers(cs: seq<Call>, k: nat, e: ComplianceEvent)
    requires k <= |cs|
    ensures e.riskLevel == Medium || e.riskLevel == Low || e.riskLevel == Info ==>
      (e in LowLogged(cs, k) <==> exists j | 0 <= j < k :: cs[j].Log? && cs[j].event == e)
  {
    if k > 0 {
      LowMembers(cs, k - 1, e);
    }
  }

  /** A low-risk `Ok` leaves less than a batch in the buffer, and so does a clean exit. */
  lemma {:induction false} OkLeavesLessThanABatch(s: State, c: Call)
    requires c.Exit? || !WriteThrough(c.event)
    ensures ReturnsOk(s, c) ==> |AfterCall(s, c).pending| < BATCH_SIZE
    ensures c.Exit? && ReturnsOk(s, c) ==> AfterCall(s, c).pending == []
    ensures c.Log? && !ReturnsOk(s, c) ==> AfterCall(s, c).pending == s.pending + [c.event]
  {
  }

  lemma {:induction false} AcceptableConcat(a: seq<ComplianceEvent>, b: seq<ComplianceEvent>)
    ensures AllAcceptable(a + b) <==> AllAcceptable(a) && AllAcceptable(b)
  {
    assert forall i | 0 <= i < |a| :: (a + b)[i] == a[i];
    assert forall i | 0 <= i < |b| :: (a + b)[|a| + i] == b[i];
  }

  lemma {:induction false} FlushKeepsAcceptability(s: State, dbOk: bool)
    ensures AllAcceptable(Flushed(s, dbOk).pending) <==> AllAcceptable(s.pending)
  {
  }

  lemma {:induction false} CallAcceptability(s: State, c: Call, t: State)
    requires t == AfterCall(s, c)
    ensures AllAcceptable(t.pending) <==> AllAcceptable(s.pending) && AllAcceptable(LowOf(c))
  {
    match c {
      case Exit(dbOk) => FlushKeepsAcceptability(s, dbOk);
      case Log(e, dbOk) =>
        if !WriteThrough(e) {
          AcceptableConcat(s.pending, [e]);
          FlushKeepsAcceptability(s.(pending := s.pending + [e]), dbOk);
        }
    }
  }

  /** Whatever database calls fail: the buffer can be stored exactly when every low-risk event
      logged so far can. */
  lemma {:induction false} BufferAcceptableIff(cs: seq<Call>, ss: seq<State>, k: nat)
    requires IsRun(cs, ss) && k <= |cs|
    ensures AllAcceptable(ss[k].pending) <==> AllAcceptable(LowLogged(cs, k))
  {
    if k > 0 {
      BufferAcceptableIff(cs, ss, k - 1);
      assert CallAt(cs, ss, k - 1);
      CallAcceptability(ss[k - 1], cs[k - 1], ss[k]);
      AcceptableConcat(LowLogged(cs, k - 1), LowOf(cs[k - 1]));
    }
  }

  /** When the buffer drains: an exit, in any run, leaves it empty if and only if it was empty
      already, or every low-risk event logged converts and fits the table, and the database call does not
      fail for another reason. */
  lemma {:induction false} ExitDrainsIff(cs: seq<Call>, ss: seq<State>, k: nat)
    requires IsRun(cs, ss) && k < |cs| && cs[k].Exit?
    ensures ss[k + 1].pending == []
       <==> ss[k].pending == [] || (cs[k].dbOk && AllAcceptable(LowLogged(cs, k)))
    ensures cs[k].dbOk ==> (ss[k + 1].pending == [] <==> AllAcceptable(LowLogged(cs, k + 1)))
  {
    BufferAcceptableIff(cs, ss, k);
    BufferAcceptableIff(cs, ss, k + 1);
    assert CallAt(cs, ss, k);
    assert LowLogged(cs, k + 1) == LowLogged(cs, k);
  }

  /** One low-risk event that does not convert, or does not fit the table, blocks the buffer for good: from
      the call that logs it on, no low-risk event reaches the database, whatever the database does. */
  lemma {:induction false} RefusedEventBlocks(cs: seq<Call>, ss: seq<State>, i: nat, j: nat)
    requires IsRun(cs, ss) && i <= j <= |cs| && !AllAcceptable(LowLogged(cs, i))
    ensures Only(ss[j].stored, false) == Only(ss[i].stored, false)
    ensures ss[i].pending <= ss[j].pending && ss[j].pending != []
  {
    BufferAcceptableIff(cs, ss, i);
    if i < j {
      RefusedEventBlocks(cs, ss, i, j - 1);
      var b :| 0 <= b < |ss[i].pending| && !Acceptable(ss[i].pending[b]);
      assert ss[j - 1].pending[b] == ss[i].pending[b];
      assert CallAt(cs, ss, j - 1);
      BlockedCall(ss[j - 1], cs[j - 1], ss[j], b);
    }
  }

  function Repeated(c: char, n: nat): (s: string)
    ensures |s| == n
  {
    seq(n, i => c)
  }

  lemma {:induction false} HexDigitsCounted(text: string)
    ensures HexDigits(text) == |set i | 0 <= i < |text| && HexDigit(text[i])|
  {
    assert (set i | 0 <= i < |text| && HexDigit(text[i])) == Where(text, HexDigit);
    if text != [] {
      var front, last := text[..|text| - 1], text[|text| - 1];
      assert text == front + [last];
      HexDigitsCounted(front);
      assert (set i | 0 <= i < |front| && HexDigit(front[i])) == Where(front, HexDigit);
      WhereAppend(front, last, HexDigit);
    }
  }

  /** Which events can be stored, in characters. */
  lemma {:induction false} AcceptableInCharacters(e: ComplianceEvent)
    ensures Acceptable(e) <==>
      && (e.ipAddress.Text? ==> |e.ipAddress.text| <= 45)
      && (e.userAgent.Text? ==> |e.userAgent.text| <= 500)
      && (e.hasEventData && e.requestPath.Text? ==> |e.requestPath.text| <= 200)
      && e.action.Text? && |e.action.text| <= 100
      && e.resourceType.Text? && |e.resourceType.text| <= 50
      && (e.resourceId.Text? ==>
            var t := e.resourceId.text;
            && |t| <= 36 && |set i | 0 <= i < |t| && HexDigit(t[i])| == 32
            && forall i | 0 <= i < |t| :: HexDigit(t[i]) || t[i] == '-')
  {
    if e.resourceId.Text? {
      HexDigitsCounted(e.resourceId.text);
    }
  }

  /** A low-risk event that is not acceptable: the context exit raises and the event stays in the buffer,
      although the database refuses for no other reason. */
  lemma {:induction false} RefusedEventStays(e: ComplianceEvent) returns (cs: seq<Call>, ss: seq<State>)
    requires !WriteThrough(e) && !Acceptable(e)
    ensures cs == [Log(e, true), Exit(true)] && IsRun(cs, ss)
    ensures !ReturnsOk(ss[1], cs[1]) && ss[2].pending == [e] && ss[2].stored == []
  {
    cs := [Log(e, true), Exit(true)];
    ss := [State([], []), State([], [e]), State([], [e])];
    assert [e][0] == e;
    assert CallAt(cs, ss, 0);
    assert CallAt(cs, ss, 1);
  }

  /** Events that the logger itself creates: successful authentications and errors have no resource type,
      and control events have a control id such as "SEC-001" as their resource id.  A user agent of more
      than 500 characters does not convert. */
  lemma {:induction false} CommonRefusals(e: ComplianceEvent)
    ensures e.resourceType == Null ==> !Acceptable(e)
    ensures e.resourceId == Text("SEC-001") ==> !Acceptable(e)
    ensures e.userAgent == Text(Repeated('a', 501)) ==> !Acceptable(e)
  {
    assert |"SEC-001"| < 32;
  }

  lemma {:induction false} BlockedCall(s: State, c: Call, t: State, b: nat)
    requires b < |s.pending| && !Acceptable(s.pending[b]) && t == AfterCall(s, c)
    ensures s.pending <= t.pending && Only(t.stored, false) == Only(s.stored, false)
  {
    if c.Log? {
      var pending := s.pending + [c.event];
      assert pending[b] == s.pending[b];
      OnlyOfConcat(s.stored, [c.event], false);
    }
  }

  // ---------- the same buffer, when tasks interleave ----------

  /** A flush in flight has copied the buffer into its query and awaits the database; other tasks
      may append or start a flush of their own before it clears the buffer. */
  datatype Shared = Shared(
    stored: seq<ComplianceEvent>,
    pending: seq<ComplianceEvent>,
    inFlight: seq<seq<ComplianceEvent>>)

  datatype Step = Append(event: ComplianceEvent) | Begin | Commit(flush: nat) | Abort(flush: nat)

  predicate CanStep(s: Shared, t: Step) {
    match t
    case Append(_) => true
    case Begin => s.pending != [] && AllConvertible(s.pending)
    case Commit(f) => f < |s.inFlight| && AllStorable(s.inFlight[f])
    case Abort(f) => f < |s.inFlight|
  }

  function AfterStep(s: Shared, t: Step): Shared
    requires CanStep(s, t)
  {
    match t
    case Append(e) => s.(pending := s.pending + [e])
    case Begin => s.(inFlight := s.inFlight + [s.pending])
    case Commit(f) => Shared(s.stored + s.inFlight[f], [], s.inFlight[..f] + s.inFlight[f + 1..])
    case Abort(f) => s.(inFlight := s.inFlight[..f] + s.inFlight[f + 1..])
  }

  ghost predicate StepAt(ts: seq<Step>, ss: seq<Shared>, k: nat)
    requires k < |ts| && |ss| == |ts| + 1
  {
    CanStep(ss[k], ts[k]) && ss[k + 1] == AfterStep(ss[k], ts[k])
  }

  ghost predicate IsInterleaving(ts: seq<Step>, ss: seq<Shared>) {
    && |ss| == |ts| + 1
    && ss[0] == Shared([], [], [])
    && forall k {:trigger StepAt(ts, ss, k)} | 0 <= k < |ts| :: StepAt(ts, ss, k)
  }

  function Appended(ts: seq<Step>, k: nat): seq<ComplianceEvent>
    requires k <= |ts|
  {
    if k == 0 then []
    else Appended(ts, k - 1) + if ts[k - 1].Append? then [ts[k - 1].event] else []
  }

  /** A commit that clears something other than what it stored. */
  predicate ClearsOthers(s: Shared, t: Step) {
    t.Commit? && t.flush < |s.inFlight| && s.inFlight[t.flush] != s.pending
  }

  lemma {:induction false} StepConserves(s: Shared, t: Step, v: Shared, logged: seq<ComplianceEvent>)
    requires CanStep(s, t) && v == AfterStep(s, t) && s.stored + s.pending == logged
    ensures v.stored + v.pending == logged + (if t.Append? then [t.event] else []) <==> !ClearsOthers(s, t)
  {
    assert logged + [] == logged;
    if t.Append? {
      assert s.stored + (s.pending + [t.event]) == logged + [t.event];
    } else if t.Commit? {
      var batch := s.inFlight[t.flush];
      assert v.stored + v.pending == s.stored + batch;
      if s.stored + batch == s.stored + s.pending {
        assert batch == (s.stored + batch)[|s.stored|..] == (s.stored + s.pending)[|s.stored|..] == s.pending;
      }
    }
  }

  /** Under free interleaving no event is lost or duplicated exactly when every commit finds the
      buffer as its flush copied it. */
  lemma {:induction false} InterleavedConservation(ts: seq<Step>, ss: seq<Shared>, n: nat)
    requires IsInterleaving(ts, ss) && n <= |ts|
    ensures (forall k | 0 <= k <= n :: ss[k].stored + ss[k].pending == Appended(ts, k))
       <==> (forall k | 0 <= k < n :: !ClearsOthers(ss[k], ts[k]))
  {
    if n > 0 {
      InterleavedConservation(ts, ss, n - 1);
      assert StepAt(ts, ss, n - 1);
      if ss[n - 1].stored + ss[n - 1].pending == Appended(ts, n - 1) {
        StepConserves(ss[n - 1], ts[n - 1], ss[n], Appended(ts, n - 1));
      }
    }
  }

  /** How many flushes are in flight after the first `k` steps. */
  function Flying(ts: seq<Step>, k: nat): int
    requires k <= |ts|
  {
    if k == 0 then 0
    else Flying(ts, k - 1) + match ts[k - 1]
                             case Append(_) => 0
                             case Begin => 1
                             case Commit(_) => -1
                             case Abort(_) => -1
  }

  /** The step that began the flush which is number `f` of those in flight after the first `k` steps. */
  function BegunAt(ts: seq<Step>, k: nat, f: nat): (b: nat)
    requires k <= |ts|
    ensures b <= k
  {
    if k == 0 then 0
    else
      match ts[k - 1]
      case Append(_) => BegunAt(ts, k - 1, f)
      case Begin => if f == Flying(ts, k - 1) then k - 1 else BegunAt(ts, k - 1, f)
      case Commit(g) => BegunAt(ts, k - 1, if f < g then f else f + 1)
      case Abort(g) => BegunAt(ts, k - 1, if f < g then f else f + 1)
  }

  /** Between two steps no event is logged and no flush commits. */
  predicate QuietBetween(ts: seq<Step>, b: nat, k: nat) {
    forall j | b <= j < k && j < |ts| :: !ts[j].Append? && !ts[j].Commit?
  }

  lemma {:induction false} FlyingIsInFlight(ts: seq<Step>, ss: seq<Shared>, k: nat)
    requires IsInterleaving(ts, ss) && k <= |ts|
    ensures |ss[k].inFlight| == Flying(ts, k)
  {
    if k > 0 {
      FlyingIsInFlight(ts, ss, k - 1);
      assert StepAt(ts, ss, k - 1);
    }
  }

  /** A flush in flight holds the buffer as it was when the flush began. */
  lemma {:induction false} FlushHoldsCopy(ts: seq<Step>, ss: seq<Shared>, k: nat, f: nat)
    requires IsInterleaving(ts, ss) && k <= |ts| && f < |ss[k].inFlight|
    ensures BegunAt(ts, k, f) < k && ss[k].inFlight[f] == ss[BegunAt(ts, k, f)].pending
  {
    FlyingIsInFlight(ts, ss, k);
    if k > 0 {
      assert StepAt(ts, ss, k - 1);
      FlyingIsInFlight(ts, ss, k - 1);
      match ts[k - 1] {
        case Append(_) => FlushHoldsCopy(ts, ss, k - 1, f);
        case Begin =>
          if f < |ss[k - 1].inFlight| {
            FlushHoldsCopy(ts, ss, k - 1, f);
          }
        case Commit(g) => FlushHoldsCopy(ts, ss, k - 1, if f < g then f else f + 1);
        case Abort(g) => FlushHoldsCopy(ts, ss, k - 1, if f < g then f else f + 1);
      }
    }
  }

  lemma {:induction false} QuietKeepsBuffer(ts: seq<Step>, ss: seq<Shared>, b: nat, k: nat)
    requires IsInterleaving(ts, ss) && b <= k <= |ts| && QuietBetween(ts, b, k)
    ensures ss[k].pending == ss[b].pending
  {
    if b < k {
      QuietKeepsBuffer(ts, ss, b, k - 1);
      assert StepAt(ts, ss, k - 1);
    }
  }

  /** From the step that begins a flush to its commit, no event is logged and no other flush commits. */
  predicate QuietCommits(ts: seq<Step>) {
    forall k | 0 <= k < |ts| && ts[k].Commit? :: QuietBetween(ts, BegunAt(ts, k, ts[k].flush), k)
  }

  ghost predicate Conserves(ts: seq<Step>, ss: seq<Shared>)
    requires |ss| == |ts| + 1
  {
    forall k | 0 <= k <= |ts| :: ss[k].stored + ss[k].pending == Appended(ts, k)
  }

  /** A schedule of quiet commits conserves all events. */
  lemma {:induction false} QuietFlushesConserve(ts: seq<Step>, ss: seq<Shared>)
    requires IsInterleaving(ts, ss) && QuietCommits(ts)
    ensures Conserves(ts, ss)
  {
    forall k | 0 <= k < |ts|
      ensures !ClearsOthers(ss[k], ts[k])
    {
      if ts[k].Commit? {
        assert StepAt(ts, ss, k);
        FlushHoldsCopy(ts, ss, k, ts[k].flush);
        QuietKeepsBuffer(ts, ss, BegunAt(ts, k, ts[k].flush), k);
      }
    }
    InterleavedConservation(ts, ss, |ts|);
  }

  ghost predicate DistinctEvents(events: seq<ComplianceEvent>) {
    forall i, j | 0 <= i < j < |events| :: events[i] != events[j]
  }

  lemma {:induction false} AppendedGrows(ts: seq<Step>, b: nat, k: nat)
    requires b <= k <= |ts|
    ensures Appended(ts, b) <= Appended(ts, k)
    ensures forall j | b <= j < k && ts[j].Append? :: |Appended(ts, b)| < |Appended(ts, k)|
  {
    if b < k {
      AppendedGrows(ts, b, k - 1);
    }
  }

  lemma {:induction false} FlushIsNotEmpty(ts: seq<Step>, ss: seq<Shared>, k: nat, f: nat)
    requires IsInterleaving(ts, ss) && k <= |ts| && f < |ss[k].inFlight|
    ensures ss[k].inFlight[f] != []
  {
    if k > 0 {
      assert StepAt(ts, ss, k - 1);
      match ts[k - 1] {
        case Append(_) => FlushIsNotEmpty(ts, ss, k - 1, f);
        case Begin =>
          if f < |ss[k - 1].inFlight| {
            FlushIsNotEmpty(ts, ss, k - 1, f);
          }
        case Commit(g) => FlushIsNotEmpty(ts, ss, k - 1, if f < g then f else f + 1);
        case Abort(g) => FlushIsNotEmpty(ts, ss, k - 1, if f < g then f else f + 1);
      }
    }
  }

  lemma {:induction false} StoredGrows(ts: seq<Step>, ss: seq<Shared>, b: nat, k: nat)
    requires IsInterleaving(ts, ss) && b <= k <= |ts|
    ensures |ss[b].stored| <= |ss[k].stored|
    ensures forall j | b <= j < k && ts[j].Commit? :: |ss[b].stored| < |ss[k].stored|
  {
    if b < k {
      StoredGrows(ts, ss, b, k - 1);
      assert StepAt(ts, ss, k - 1);
      if ts[k - 1].Commit? {
        FlushIsNotEmpty(ts, ss, k - 1, ts[k - 1].flush);
      }
    }
  }

  /** If one buffer ends both a longer and a shorter prefix of distinct events, the two are the same. */
  lemma {:induction false} SameEnd(shorter: seq<ComplianceEvent>, longer: seq<ComplianceEvent>,
                                   front: seq<ComplianceEvent>, back: seq<ComplianceEvent>,
                                   buffer: seq<ComplianceEvent>)
    requires shorter <= longer && DistinctEvents(longer) && buffer != []
    requires shorter == front + buffer && longer == back + buffer
    ensures |shorter| == |longer|
  {
    var last := buffer[|buffer| - 1];
    assert shorter[|shorter| - 1] == last && longer[|longer| - 1] == last;
    assert longer[|shorter| - 1] == last;
  }

  lemma {:induction false} ConservingCommitIsQuiet(ts: seq<Step>, ss: seq<Shared>, b: nat, k: nat)
    requires IsInterleaving(ts, ss) && b <= k <= |ts| && ss[b].pending == ss[k].pending != []
    requires ss[b].stored + ss[b].pending == Appended(ts, b) && ss[k].stored + ss[k].pending == Appended(ts, k)
    requires DistinctEvents(Appended(ts, k))
    ensures QuietBetween(ts, b, k)
  {
    AppendedGrows(ts, b, k);
    StoredGrows(ts, ss, b, k);
    SameEnd(Appended(ts, b), Appended(ts, k), ss[b].stored, ss[k].stored, ss[k].pending);
  }

  lemma {:induction false} DistinctPrefix(ts: seq<Step>, k: nat)
    requires k <= |ts| && DistinctEvents(Appended(ts, |ts|))
    ensures DistinctEvents(Appended(ts, k))
  {
    AppendedGrows(ts, k, |ts|);
  }

  lemma {:induction false} ClearsOwnCopy(ts: seq<Step>, ss: seq<Shared>, k: nat)
    requires IsInterleaving(ts, ss) && k < |ts| && Conserves(ts, ss)
    ensures !ClearsOthers(ss[k], ts[k])
  {
    InterleavedConservation(ts, ss, |ts|);
  }

  /** When no two events are equal, the schedule alone decides: all events are conserved throughout if and
      only if every commit is quiet. */
  lemma {:induction false} ConservesIffQuiet(ts: seq<Step>, ss: seq<Shared>)
    requires IsInterleaving(ts, ss) && DistinctEvents(Appended(ts, |ts|))
    ensures Conserves(ts, ss) <==> QuietCommits(ts)
  {
    if QuietCommits(ts) {
      QuietFlushesConserve(ts, ss);
    }
    if Conserves(ts, ss) {
      forall k | 0 <= k < |ts| && ts[k].Commit?
        ensures QuietBetween(ts, BegunAt(ts, k, ts[k].flush), k)
      {
        var b := BegunAt(ts, k, ts[k].flush);
        assert StepAt(ts, ss, k);
        FlushHoldsCopy(ts, ss, k, ts[k].flush);
        FlushIsNotEmpty(ts, ss, k, ts[k].flush);
        ClearsOwnCopy(ts, ss, k);
        DistinctPrefix(ts, k);
        ConservingCommitIsQuiet(ts, ss, b, k);
      }
    }
  }

  /** An event logged while a flush awaits the database is lost when the flush clears the buffer. */
  lemma {:induction false} AppendDuringFlushIsLost(a: ComplianceEvent, b: ComplianceEvent)
      returns (ts: seq<Step>, ss: seq<Shared>)
    requires Acceptable(a)
    ensures IsInterleaving(ts, ss) && Appended(ts, |ts|) == [a, b]
    ensures ss[|ts|].stored == [a] && ss[|ts|].pending == []
  {
    ts := [Append(a), Begin, Append(b), Commit(0)];
    ss := [Shared([], [], []), Shared([], [a], []), Shared([], [a], [[a]]), Shared([], [a, b], [[a]]),
           Shared([a], [], [])];
    assert Appended(ts, 1) == [a];
    assert Appended(ts, 2) == [a];
    assert Appended(ts, 3) == [a, b];
    forall k | 0 <= k < |ts|
      ensures StepAt(ts, ss, k)
    {
    }
  }
}
