/**
 The SQLite-backed store and its query cursor.

 SQLite itself enters through a few documented rules: a new row id is one above the largest
 one; `reset` keeps the bindings; a parameter can be bound only while its statement is ready;
 an unbound parameter is NULL and `IFNULL` turns it into "matches"; the sorting SELECT reads
 the table at its first step and later steps only walk that result, ties in row-id order;
 a step past the end starts over; and, for a statement made by `sqlite3_prepare`, `reset`
 reports the failure of the step before it.
 */
module SqliteStore {
  import opened TrustTypes

  /******* The table *******/

  /** What a row stores beside its id. */
  datatype Entry = Entry(app: string, feature: int32, when: int64, answer: Answer)
  datatype Row = Row(id: nat, entry: Entry)

  ghost predicate IdsIncrease(rows: seq<Row>) {
    && (forall i, j :: 0 <= i < j < |rows| ==> rows[i].id < rows[j].id)
    && (forall i :: 0 <= i < |rows| ==> 1 <= rows[i].id)
  }

  function NextId(rows: seq<Row>): nat {
    if rows == [] then 1 else rows[|rows| - 1].id + 1
  }

  function Contents(rows: seq<Row>): seq<Entry> {
    if rows == [] then [] else [rows[0].entry] + Contents(rows[1..])
  }

  /** Reading a row back narrows the feature again, widens it, and takes the text as a C string. */
  function ToRequest(row: Row): Request {
    Request(CString(row.entry.app), Unsigned64(Narrow32(row.entry.feature)), row.entry.when, row.entry.answer)
  }

  /******* Adding and removing *******/

  /**
   The rows, plus what two prepared statements remember from one call to the next: the text
   parameter, and whether the last insertion failed.
   */
  datatype StoreState = StoreState(
    rows: seq<Row>, insertApp: Option<string>, insertFailed: bool, removeApp: Option<string>)

  const EMPTY_STORE := StoreState([], None, false, None)

  datatype StoreOp = Add(request: Request) | RemoveApplication(id: string) | Reset
  datatype StoreResult = StoreResult(state: StoreState, ok: bool)

  /** Binding a text parameter does nothing for the empty string. */
  function BindText(bound: Option<string>, s: string): Option<string> {
    if s == "" then bound else Some(s)
  }

  /** The entry that reaches the table; a NULL application id violates the schema. */
  function InsertedEntry(bound: Option<string>, r: Request): Option<Entry> {
    match BindText(bound, r.from)
    case None => None
    case Some(app) => Some(Entry(app, Narrow32(r.feature), r.when, r.answer))
  }

  /** `ApplicationId=NULL` holds of no row. */
  function OtherApplication(bound: Option<string>): Row -> bool {
    (row: Row) => bound != Some(row.entry.app)
  }

  function NotFrom(id: string): Entry -> bool {
    (entry: Entry) => entry.app != id
  }

  function WithoutApplication(rows: seq<Row>, bound: Option<string>): seq<Row> {
    Keep(rows, OtherApplication(bound))
  }

  function ApplyStore(s: StoreState, op: StoreOp): StoreResult {
    match op
    case Reset => StoreResult(s.(rows := []), true)
    case RemoveApplication(id) =>
      var bound := BindText(s.removeApp, id);
      StoreResult(s.(rows := WithoutApplication(s.rows, bound), removeApp := bound), true)
    case Add(r) =>
      if s.insertFailed then
        StoreResult(s.(insertFailed := false), false)
      else
        match InsertedEntry(s.insertApp, r)
        case None => StoreResult(s.(insertFailed := true), false)
        case Some(entry) =>
          StoreResult(s.(rows := s.rows + [Row(NextId(s.rows), entry)], insertApp := Some(entry.app)), true)
  }

  function RunStore(s: StoreState, ops: seq<StoreOp>): StoreState
    decreases |ops|
  {
    if ops == [] then s else RunStore(ApplyStore(s, ops[0]).state, ops[1..])
  }

  /** Which of the operations succeed. */
  function Successes(s: StoreState, ops: seq<StoreOp>): (oks: seq<bool>)
    ensures |oks| == |ops|
    decreases |ops|
  {
    if ops == [] then []
    else [ApplyStore(s, ops[0]).ok] + Successes(ApplyStore(s, ops[0]).state, ops[1..])
  }

  /** The promised store: a plain list without statements, bindings or row ids. */
  function Reference(m: seq<Entry>, op: StoreOp): seq<Entry> {
    match op
    case Reset => []
    case RemoveApplication(id) => Keep(m, NotFrom(id))
    case Add(r) => m + [Entry(r.from, Narrow32(r.feature), r.when, r.answer)]
  }

  function RunReference(m: seq<Entry>, ops: seq<StoreOp>): seq<Entry>
    decreases |ops|
  {
    if ops == [] then m else RunReference(Reference(m, ops[0]), ops[1..])
  }

  predicate NamesApplication(op: StoreOp) {
    match op
    case Add(r) => r.from != ""
    case RemoveApplication(id) => id != ""
    case Reset => true
  }

  lemma {:induction false} ContentsAppend(a: seq<Row>, b: seq<Row>)
    ensures Contents(a + b) == Contents(a) + Contents(b)
  {
    if a == [] {
      assert a + b == b;
    } else {
      assert (a + b)[1..] == a[1..] + b;
      ContentsAppend(a[1..], b);
    }
  }

  lemma {:induction false} ContentsWithoutApplication(rows: seq<Row>, id: string)
    ensures Contents(WithoutApplication(rows, Some(id))) == Keep(Contents(rows), NotFrom(id))
  {
    if rows != [] {
      ContentsWithoutApplication(rows[1..], id);
      var kept := WithoutApplication(rows[1..], Some(id));
      ContentsAppend([rows[0]], kept);
      assert OtherApplication(Some(id))(rows[0]) <==> NotFrom(id)(rows[0].entry);
      assert WithoutApplication(rows, Some(id)) == if rows[0].entry.app != id then [rows[0]] + kept else kept;
      assert Contents(rows)[1..] == Contents(rows[1..]);
    }
  }

  lemma {:induction false} KeepIncreasing(rows: seq<Row>, p: Row -> bool)
    requires IdsIncrease(rows)
    ensures IdsIncrease(Keep(rows, p))
  {
    if rows != [] {
      KeepIncreasing(rows[1..], p);
      var rest := Keep(rows[1..], p);
      forall i | 0 <= i < |rest| ensures rows[0].id < rest[i].id {
        assert rest[i] in rows[1..];
      }
    }
  }

  lemma AppendIncreasing(rows: seq<Row>, entry: Entry)
    requires IdsIncrease(rows)
    ensures IdsIncrease(rows + [Row(NextId(rows), entry)])
  {
  }

  /** One operation naming its application acts on the contents as on the plain list. */
  lemma ApplyRefines(s: StoreState, op: StoreOp)
    requires IdsIncrease(s.rows) && !s.insertFailed && NamesApplication(op)
    ensures var r := ApplyStore(s, op);
            && r.ok && !r.state.insertFailed && IdsIncrease(r.state.rows)
            && Contents(r.state.rows) == Reference(Contents(s.rows), op)
  {
    match op
    case Reset =>
    case RemoveApplication(id) =>
      ContentsWithoutApplication(s.rows, id);
      KeepIncreasing(s.rows, OtherApplication(Some(id)));
    case Add(r) =>
      var entry := Entry(r.from, Narrow32(r.feature), r.when, r.answer);
      AppendIncreasing(s.rows, entry);
      ContentsAppend(s.rows, [Row(NextId(s.rows), entry)]);
      assert Contents([Row(NextId(s.rows), entry)]) == [entry];
  }

  /**
   Over every history in which applications have names, all calls succeed and the table holds
   what the plain list holds, although the statements carry bindings across calls; row ids
   stay unique.
   */
  lemma {:induction false} HistoryRefines(s: StoreState, ops: seq<StoreOp>)
    requires IdsIncrease(s.rows) && !s.insertFailed
    requires forall i :: 0 <= i < |ops| ==> NamesApplication(ops[i])
    ensures var t := RunStore(s, ops);
            && !t.insertFailed && IdsIncrease(t.rows)
            && Contents(t.rows) == RunReference(Contents(s.rows), ops)
    ensures forall i :: 0 <= i < |ops| ==> Successes(s, ops)[i]
    decreases |ops|
  {
    if ops != [] {
      ApplyRefines(s, ops[0]);
      HistoryRefines(ApplyStore(s, ops[0]).state, ops[1..]);
    }
  }

  /** The inserted entry is fixed by the request alone exactly when the request names an application. */
  lemma InsertFixedByRequestIff(r: Request)
    ensures (forall b1, b2 :: InsertedEntry(b1, r) == InsertedEntry(b2, r)) <==> r.from != ""
  {
    if r.from == "" {
      assert InsertedEntry(None, r) != InsertedEntry(Some("earlier.app"), r);
    }
  }

  /** A removal is fixed by its argument alone exactly when the argument is not empty. */
  lemma RemovalFixedByArgumentIff(id: string)
    ensures (forall rows, b1, b2 ::
               WithoutApplication(rows, BindText(b1, id)) == WithoutApplication(rows, BindText(b2, id)))
            <==> id != ""
  {
    if id == "" {
      var rows := [Row(1, Entry("earlier.app", 0, 0, Granted))];
      var kept := WithoutApplication(rows, BindText(None, id));
      var gone := WithoutApplication(rows, BindText(Some("earlier.app"), id));
      assert rows[0] in kept && rows[0] !in gone;
    }
  }

  /**
   An unnamed request is stored under whatever application the statement has bound, which is
   that of the insertion before it.
   */
  lemma UnnamedRequestBorrows(s: StoreState, r: Request)
    requires IdsIncrease(s.rows) && !s.insertFailed && r.from == "" && s.insertApp.Some?
    ensures Contents(ApplyStore(s, Add(r)).state.rows)
            == Reference(Contents(s.rows), Add(r.(from := s.insertApp.value)))
    ensures forall named: Request :: named.from != "" ==> ApplyStore(s, Add(named)).state.insertApp == Some(named.from)
  {
    var row := Row(NextId(s.rows), Entry(s.insertApp.value, Narrow32(r.feature), r.when, r.answer));
    ContentsAppend(s.rows, [row]);
    assert Contents([row]) == [row.entry];
  }

  /**
   The history with every name written out: an unnamed addition or removal means the application
   of the last named one, and a removal before any named one means nothing.
   */
  function WithNames(ops: seq<StoreOp>, added: string, removed: Option<string>): seq<StoreOp>
    decreases |ops|
  {
    if ops == [] then []
    else match ops[0]
      case Reset => [Reset] + WithNames(ops[1..], added, removed)
      case Add(r) =>
        var name := if r.from == "" then added else r.from;
        [Add(r.(from := name))] + WithNames(ops[1..], name, removed)
      case RemoveApplication(id) =>
        var name := if id == "" then removed else Some(id);
        (if name.None? then [] else [RemoveApplication(name.value)]) + WithNames(ops[1..], added, name)
  }

  /**
   Over every history, named or not, once an application has been inserted: all calls succeed,
   and the table holds what the plain list holds after the history with its names written out.
   In particular neither `reset` nor a removal makes the store forget the name it inserts under.
   */
  lemma {:induction false} HistoryBorrows(s: StoreState, ops: seq<StoreOp>, added: string)
    requires IdsIncrease(s.rows) && !s.insertFailed && s.insertApp == Some(added)
    ensures var t := RunStore(s, ops);
            && !t.insertFailed && IdsIncrease(t.rows)
            && Contents(t.rows) == RunReference(Contents(s.rows), WithNames(ops, added, s.removeApp))
    ensures forall i :: 0 <= i < |ops| ==> Successes(s, ops)[i]
    decreases |ops|
  {
    if ops != [] {
      var next := ApplyStore(s, ops[0]).state;
      var name := if ops[0].Add? && ops[0].request.from != "" then ops[0].request.from else added;
      BorrowStep(s, ops[0], added);
      HistoryBorrows(next, ops[1..], name);
      var all := WithNames(ops, added, s.removeApp);
      var rest := WithNames(ops[1..], name, next.removeApp);
      assert all != rest ==> all[1..] == rest;
    }
  }

  lemma BorrowStep(s: StoreState, op: StoreOp, added: string)
    requires IdsIncrease(s.rows) && !s.insertFailed && s.insertApp == Some(added)
    ensures var r := ApplyStore(s, op);
            && r.ok && !r.state.insertFailed && IdsIncrease(r.state.rows)
            && r.state.insertApp == Some(if op.Add? && op.request.from != "" then op.request.from else added)
            && r.state.removeApp == (if op.RemoveApplication? && op.id != "" then Some(op.id) else s.removeApp)
            && Contents(r.state.rows)
               == match op
                  case Reset => []
                  case Add(q) => Reference(Contents(s.rows), Add(q.(from := if q.from == "" then added else q.from)))
                  case RemoveApplication(id) =>
                    var name := if id == "" then s.removeApp else Some(id);
                    if name.None? then Contents(s.rows) else Reference(Contents(s.rows), RemoveApplication(name.value))
  {
    match op
    case Reset =>
    case Add(q) =>
      if q.from == "" {
        UnnamedRequestBorrows(s, q);
        AppendIncreasing(s.rows, InsertedEntry(s.insertApp, q).value);
      } else {
        ApplyRefines(s, op);
      }
    case RemoveApplication(id) =>
      var name := BindText(s.removeApp, id);
      KeepIncreasing(s.rows, OtherApplication(name));
      if name.Some? {
        ContentsWithoutApplication(s.rows, name.value);
      } else {
        KeepAll(s.rows, OtherApplication(name));
      }
  }

  function Additions(ops: seq<StoreOp>): nat
    decreases |ops|
  {
    if ops == [] then 0 else (if ops[0].Add? then 1 else 0) + Additions(ops[1..])
  }

  /** Row ids are never larger than the number of additions ever made. */
  lemma {:induction false} IdsBounded(s: StoreState, ops: seq<StoreOp>, bound: nat)
    requires forall row :: row in s.rows ==> row.id <= bound
    ensures forall row :: row in RunStore(s, ops).rows ==> row.id <= bound + Additions(ops)
    decreases |ops|
  {
    if ops != [] {
      var next := ApplyStore(s, ops[0]).state;
      forall row | row in next.rows ensures row.id <= bound + if ops[0].Add? then 1 else 0 {
        if s.rows != [] { assert s.rows[|s.rows| - 1] in s.rows; }
      }
      IdsBounded(next, ops[1..], bound + if ops[0].Add? then 1 else 0);
    }
  }

  /** Neither resets nor removals clear a failed insertion: the next addition fails, and clears it. */
  lemma {:induction false} FailureWaits(s: StoreState, ops: seq<StoreOp>, r: Request)
    requires s.insertFailed && forall i :: 0 <= i < |ops| ==> !ops[i].Add?
    ensures var t := RunStore(s, ops);
            t.insertFailed && t.insertApp == s.insertApp
            && ApplyStore(t, Add(r)) == StoreResult(t.(insertFailed := false), false)
    decreases |ops|
  {
    if ops != [] { FailureWaits(ApplyStore(s, ops[0]).state, ops[1..], r); }
  }

  /** With nothing bound it is refused, and so is the next request; the one after that is stored. */
  lemma UnnamedRequestBlocks(s: StoreState, r: Request, next: Request, third: Request)
    requires IdsIncrease(s.rows) && !s.insertFailed && r.from == "" && s.insertApp == None && third.from != ""
    ensures var refused := ApplyStore(s, Add(r));
            var blocked := ApplyStore(refused.state, Add(next));
            && !refused.ok && refused.state.rows == s.rows
            && !blocked.ok && blocked.state == s
            && Contents(ApplyStore(blocked.state, Add(third)).state.rows) == Reference(Contents(s.rows), Add(third))
  {
    ApplyRefines(s, Add(third));
  }

  /******* Selecting *******/

  /** The five parameters of the SELECT; `None` is an unbound parameter. */
  datatype Filter = Filter(
    app: Option<string>, feature: Option<int64>, lower: Option<int64>, upper: Option<int64>, answer: Option<Answer>)

  const NO_FILTER := Filter(None, None, None, None, None)

  function IfNull<T>(bound: Option<T>, column: T): T {
    if bound.Some? then bound.value else column
  }

  predicate Passes(f: Filter, e: Entry) {
    && e.app == IfNull(f.app, e.app)
    && e.feature == IfNull(f.feature, e.feature)
    && IfNull(f.lower, e.when) <= e.when <= IfNull(f.upper, e.when)
    && e.answer == IfNull(f.answer, e.answer)
  }

  function PassesRow(f: Filter): Row -> bool {
    (row: Row) => Passes(f, row.entry)
  }

  function FailsRow(f: Filter): Row -> bool {
    (row: Row) => !Passes(f, row.entry)
  }

  function Matching(rows: seq<Row>, f: Filter): seq<Row> {
    Keep(rows, PassesRow(f))
  }

  /** Puts a row in front of all rows that are not newer. */
  function InsertByTime(row: Row, sorted: seq<Row>): (r: seq<Row>)
    ensures forall x :: x in r <==> x == row || x in sorted
  {
    if sorted == [] || sorted[0].entry.when <= row.entry.when then [row] + sorted
    else [sorted[0]] + InsertByTime(row, sorted[1..])
  }

  function NewestFirst(rows: seq<Row>): (r: seq<Row>)
    ensures forall x :: x in r <==> x in rows
  {
    if rows == [] then [] else InsertByTime(rows[0], NewestFirst(rows[1..]))
  }

  function Select(rows: seq<Row>, f: Filter): seq<Row> {
    NewestFirst(Matching(rows, f))
  }

  predicate Before(a: Row, b: Row) {
    a.entry.when > b.entry.when || (a.entry.when == b.entry.when && a.id < b.id)
  }

  ghost predicate InOrder(rs: seq<Row>) {
    forall i, j :: 0 <= i < j < |rs| ==> Before(rs[i], rs[j])
  }

  /** What the SELECT promises, said without an algorithm: each passing row once, newest first. */
  ghost predicate IsSelection(rs: seq<Row>, rows: seq<Row>, f: Filter) {
    InOrder(rs) && forall row :: row in rs <==> row in rows && Passes(f, row.entry)
  }

  lemma {:induction false} InsertKeepsOrder(row: Row, sorted: seq<Row>)
    requires InOrder(sorted)
    requires forall x :: x in sorted ==> row.id < x.id
    ensures InOrder(InsertByTime(row, sorted))
  {
    if sorted == [] || sorted[0].entry.when <= row.entry.when {
      forall j | 0 <= j < |sorted| ensures Before(row, sorted[j]) {
        assert sorted[j] in sorted;
        assert j == 0 || Before(sorted[0], sorted[j]);
      }
    } else {
      InsertKeepsOrder(row, sorted[1..]);
      var rest := InsertByTime(row, sorted[1..]);
      forall j | 0 <= j < |rest| ensures Before(sorted[0], rest[j]) {
        assert rest[j] in rest;
        assert rest[j] == row || rest[j] in sorted[1..];
      }
    }
  }

  lemma {:induction false} NewestFirstInOrder(rows: seq<Row>)
    requires IdsIncrease(rows)
    ensures InOrder(NewestFirst(rows))
  {
    if rows != [] {
      NewestFirstInOrder(rows[1..]);
      InsertKeepsOrder(rows[0], NewestFirst(rows[1..]));
    }
  }

  /** The computed result meets the promise. */
  lemma SelectIsSelection(rows: seq<Row>, f: Filter)
    requires IdsIncrease(rows)
    ensures IsSelection(Select(rows, f), rows, f)
  {
    KeepIncreasing(rows, PassesRow(f));
    NewestFirstInOrder(Matching(rows, f));
  }

  /** And the promise leaves no choice. */
  lemma {:induction false} SelectionUnique(a: seq<Row>, b: seq<Row>)
    requires InOrder(a) && InOrder(b)
    requires forall row :: row in a <==> row in b
    ensures a == b
  {
    assert a != [] ==> a[0] in b;
    assert b != [] ==> b[0] in a;
    if a != [] && b != [] {
      assert forall k :: 0 < k < |b| ==> Before(b[0], b[k]);
      assert forall k :: 0 < k < |a| ==> Before(a[0], a[k]);
      assert a[0] == b[0] && a[0] !in a[1..] && b[0] !in b[1..];
      forall row ensures row in a[1..] <==> row in b[1..] {
        assert row in a <==> row == a[0] || row in a[1..];
        assert row in b <==> row == b[0] || row in b[1..];
      }
      SelectionUnique(a[1..], b[1..]);
      assert a == [a[0]] + a[1..] && b == [b[0]] + b[1..];
    }
  }

  lemma SelectionIsSelect(selection: seq<Row>, rows: seq<Row>, f: Filter)
    requires IdsIncrease(rows) && IsSelection(selection, rows, f)
    ensures selection == Select(rows, f)
  {
    SelectIsSelection(rows, f);
    SelectionUnique(selection, Select(rows, f));
  }

  /******* The cursor *******/

  datatype Phase = Ready | OnRow | Halted
  datatype Status = Armed | HasMoreResults | Eor | Error

  /** `pending` starts with the row the statement stands on. */
  datatype Cursor = Cursor(filter: Filter, phase: Phase, pending: seq<Row>, status: Status)

  const NEW_CURSOR := Cursor(NO_FILTER, Ready, [], Armed)

  datatype QueryOp =
    | ForApplicationId(id: string)
    | ForFeature(feature: uint64)
    | ForInterval(begin: int64, end: int64)
    | ForAnswer(answer: Answer)
    | All
    | Execute
    | Next
    | Erase
    | Current
    | GetStatus

  datatype Outcome = Done | IsStatus(status: Status) | IsRequest(request: Request) | NoCurrentResult | Threw
  datatype QueryResult = QueryResult(cursor: Cursor, rows: seq<Row>, outcome: Outcome)

  function DropFirst<T>(s: seq<T>): seq<T> {
    if s == [] then [] else s[1..]
  }

  /** One step of the SELECT together with the status update that follows it. */
  function Step(c: Cursor, rows: seq<Row>): Cursor {
    var pending := if c.phase == OnRow then DropFirst(c.pending) else Select(rows, c.filter);
    if pending == [] then c.(phase := Halted, pending := [], status := Eor)
    else c.(phase := OnRow, pending := pending, status := HasMoreResults)
  }

  function Rewind(c: Cursor): Cursor {
    c.(phase := Ready, pending := [])
  }

  /** The columns of a statement that stands on no row read as NULL, that is as zero and "". */
  function CurrentColumns(c: Cursor): Request {
    if c.pending == [] then Request("", 0, 0, Denied) else ToRequest(c.pending[0])
  }

  function CurrentId(c: Cursor): int32 {
    if c.pending == [] then 0 else Narrow32(c.pending[0].id)
  }

  function OtherId(id: int): Row -> bool {
    (row: Row) => row.id != id
  }

  function DeleteId(rows: seq<Row>, id: int): seq<Row> {
    Keep(rows, OtherId(id))
  }

  function ApplyQuery(c: Cursor, rows: seq<Row>, op: QueryOp): QueryResult {
    match op
    case ForApplicationId(id) =>
      if id == "" then QueryResult(c, rows, Done) else Bind(c, rows, c.filter.(app := Some(id)))
    case ForFeature(feature) => Bind(c, rows, c.filter.(feature := Some(Narrow64(feature))))
    case ForInterval(begin, end) => Bind(c, rows, c.filter.(lower := Some(begin), upper := Some(end)))
    case ForAnswer(answer) => Bind(c, rows, c.filter.(answer := Some(answer)))
    case All => QueryResult(Rewind(c).(filter := NO_FILTER), rows, Done)
    case Execute => QueryResult(Step(Rewind(c), rows), rows, Done)
    case Next => QueryResult(Step(c, rows), rows, Done)
    case Erase =>
      if c.status == Eor then QueryResult(c, rows, Threw)
      else
        var left := DeleteId(rows, CurrentId(c));
        QueryResult(Step(c, left), left, Done)
    case Current =>
      QueryResult(c, rows,
                  if c.status == Error then Threw
                  else if c.status == HasMoreResults then IsRequest(CurrentColumns(c))
                  else NoCurrentResult)
    case GetStatus => QueryResult(c, rows, IsStatus(c.status))
  }

  function Bind(c: Cursor, rows: seq<Row>, filter: Filter): QueryResult {
    if c.phase == Ready then QueryResult(c.(filter := filter), rows, Done) else QueryResult(c, rows, Threw)
  }

  /** Repeated `next`; `tables[k]` is the table, changed by others, at the k-th call. */
  function Advance(c: Cursor, tables: seq<seq<Row>>): Cursor
    decreases |tables|
  {
    if tables == [] then c
    else Advance(ApplyQuery(c, tables[0], Next).cursor, tables[1..])
  }

  lemma {:induction false} AdvanceWalks(c: Cursor, tables: seq<seq<Row>>)
    requires c.phase == OnRow && c.status == HasMoreResults && |tables| < |c.pending|
    ensures Advance(c, tables) == c.(pending := c.pending[|tables|..])
    decreases |tables|
  {
    if tables != [] {
      var n := ApplyQuery(c, tables[0], Next).cursor;
      AdvanceWalks(n, tables[1..]);
      assert c.pending[1..][|tables| - 1..] == c.pending[|tables|..];
    }
  }

  lemma {:induction false} AdvanceLast(c: Cursor, tables: seq<seq<Row>>, last: seq<Row>)
    ensures Advance(c, tables + [last]) == ApplyQuery(Advance(c, tables), last, Next).cursor
    decreases |tables|
  {
    if tables == [] {
      assert (tables + [last])[1..] == [];
    } else {
      assert (tables + [last])[1..] == tables[1..] + [last];
      AdvanceLast(ApplyQuery(c, tables[0], Next).cursor, tables[1..], last);
    }
  }

  lemma WalkToEnd(c: Cursor, tables: seq<seq<Row>>)
    requires c.phase == OnRow && c.status == HasMoreResults && |tables| == |c.pending| > 0
    ensures Advance(c, tables) == c.(phase := Halted, pending := [], status := Eor)
  {
    var k := |tables| - 1;
    AdvanceWalks(c, tables[..k]);
    AdvanceLast(c, tables[..k], tables[k]);
    assert tables == tables[..k] + [tables[k]];
  }

  /** What the query reports as its status. */
  ghost predicate Reports(c: Cursor, status: Status) {
    forall rows :: ApplyQuery(c, rows, GetStatus) == QueryResult(c, rows, IsStatus(status))
  }

  /**
   What a user sees of a query: the status it reports, its current request, and at the end of
   the results an exception from `erase`, which then deletes nothing.
   */
  ghost predicate Shows(c: Cursor, selection: seq<Row>, k: nat)
    requires k <= |selection|
  {
    && Reports(c, if k < |selection| then HasMoreResults else Eor)
    && (forall rows ::
          ApplyQuery(c, rows, Current)
          == QueryResult(c, rows, if k < |selection| then IsRequest(ToRequest(selection[k])) else NoCurrentResult))
    && (k == |selection| ==> forall rows :: ApplyQuery(c, rows, Erase) == QueryResult(c, rows, Threw))
    && (k < |selection| ==> forall rows :: ApplyQuery(c, rows, Erase).outcome == Done)
  }

  lemma WalkShows(c: Cursor, tables: seq<seq<Row>>)
    requires |tables| <= |c.pending| && c.phase != Ready
    requires c.phase == OnRow <==> c.pending != []
    requires c.status == if c.pending == [] then Eor else HasMoreResults
    ensures Shows(Advance(c, tables), c.pending, |tables|)
  {
    if |tables| < |c.pending| {
      AdvanceWalks(c, tables);
    } else if c.pending != [] {
      WalkToEnd(c, tables);
    }
  }

  lemma ExecuteShows(c: Cursor, rows: seq<Row>, tables: seq<seq<Row>>)
    requires |tables| <= |Select(rows, c.filter)|
    ensures Shows(Advance(ApplyQuery(c, rows, Execute).cursor, tables), Select(rows, c.filter), |tables|)
  {
    var start := ApplyQuery(c, rows, Execute).cursor;
    assert start.pending == Select(rows, c.filter);
    WalkShows(start, tables);
  }

  /**
   After `execute`, the k-th `next` shows the k-th selected row of the table as it was at
   `execute`, whatever happens to the table meanwhile; the call after the last row ends the
   results.
   */
  lemma CursorVisitsSelection(c: Cursor, rows: seq<Row>, selection: seq<Row>, tables: seq<seq<Row>>)
    requires IdsIncrease(rows) && IsSelection(selection, rows, c.filter)
    requires |tables| <= |selection|
    ensures Shows(Advance(ApplyQuery(c, rows, Execute).cursor, tables), selection, |tables|)
  {
    SelectionIsSelect(selection, rows, c.filter);
    ExecuteShows(c, rows, tables);
  }

  lemma AdvanceToEnd(c: Cursor, rows: seq<Row>, tables: seq<seq<Row>>)
    requires |tables| == |Select(rows, c.filter)|
    ensures Advance(ApplyQuery(c, rows, Execute).cursor, tables) == c.(phase := Halted, pending := [], status := Eor)
  {
    if tables != [] { WalkToEnd(ApplyQuery(c, rows, Execute).cursor, tables); }
  }

  lemma NextFromEnd(end: Cursor, later: seq<Row>)
    requires end.phase == Halted && end.pending == []
    ensures Advance(end, [later]) == ApplyQuery(end, later, Execute).cursor
  {
    var next := ApplyQuery(end, later, Next).cursor;
    assert Rewind(end).filter == end.filter && next == ApplyQuery(end, later, Execute).cursor;
    AdvanceLast(end, [], later);
    assert [] + [later] == [later];
  }

  /** A `next` beyond the end of the results starts the query over, on the table as it is then. */
  lemma NextStartsOver(c: Cursor, rows: seq<Row>, tables: seq<seq<Row>>, later: seq<Row>, again: seq<Row>)
    requires IdsIncrease(rows) && |tables| == |Select(rows, c.filter)|
    requires IdsIncrease(later) && IsSelection(again, later, c.filter)
    ensures Shows(Advance(Advance(ApplyQuery(c, rows, Execute).cursor, tables), [later]), again, 0)
  {
    SelectionIsSelect(again, later, c.filter);
    AdvanceToEnd(c, rows, tables);
    var end := c.(phase := Halted, pending := [], status := Eor);
    NextFromEnd(end, later);
    ExecuteShows(end, later, []);
    var next := ApplyQuery(end, later, Execute).cursor;
    assert Advance(next, []) == next;
  }

  /** A call on a query, with the table as it is then. */
  datatype Called = Called(op: QueryOp, rows: seq<Row>)

  function Operate(c: Cursor, calls: seq<Called>): Cursor
    decreases |calls|
  {
    if calls == [] then c
    else
      var last := calls[|calls| - 1];
      ApplyQuery(Operate(c, calls[..|calls| - 1]), last.rows, last.op).cursor
  }

  predicate Steps(op: QueryOp) {
    op.Execute? || op.Next? || op.Erase?
  }

  lemma ReportsStatus(c: Cursor, status: Status)
    ensures Reports(c, status) <==> c.status == status
  {
    assert ApplyQuery(c, [], GetStatus).outcome == IsStatus(c.status);
  }

  lemma {:induction false} ArmedField(calls: seq<Called>)
    ensures Operate(NEW_CURSOR, calls).status == Armed <==> forall i :: 0 <= i < |calls| ==> !Steps(calls[i].op)
    decreases |calls|
  {
    if calls != [] {
      var front, last := calls[..|calls| - 1], calls[|calls| - 1];
      ArmedField(front);
      OnlyStepsMoveStatus(Operate(NEW_CURSOR, front), last.rows, last.op, Armed);
      ReportsStatus(Operate(NEW_CURSOR, front), Armed);
      ReportsStatus(Operate(NEW_CURSOR, front), Eor);
      ReportsStatus(Operate(NEW_CURSOR, calls), Armed);
      assert calls == front + [last];
    }
  }

  /** A query is armed from its creation until the first call that steps it, and not later. */
  lemma ArmedIff(calls: seq<Called>)
    ensures var c := Operate(NEW_CURSOR, calls);
            && (Reports(c, Armed) <==> forall i :: 0 <= i < |calls| ==> !Steps(calls[i].op))
            && (Reports(c, Armed) ==> forall rows :: ApplyQuery(c, rows, Current).outcome == NoCurrentResult)
  {
    ArmedField(calls);
    ArmedShowsNothing(Operate(NEW_CURSOR, calls));
  }

  lemma ArmedShowsNothing(c: Cursor)
    ensures Reports(c, Armed) <==> c.status == Armed
    ensures Reports(c, Armed) ==> forall rows :: ApplyQuery(c, rows, Current).outcome == NoCurrentResult
  {
    ReportsStatus(c, Armed);
  }

  /** Calls that do not step the query leave the status it reports alone, `all` included. */
  lemma OnlyStepsMoveStatus(c: Cursor, rows: seq<Row>, op: QueryOp, status: Status)
    ensures !Steps(op) ==> (Reports(ApplyQuery(c, rows, op).cursor, status) <==> Reports(c, status))
    ensures Steps(op) && status == Armed && !(op.Erase? && Reports(c, Eor)) ==>
              !Reports(ApplyQuery(c, rows, op).cursor, status)
  {
    ReportsStatus(c, status);
    ReportsStatus(c, Eor);
    ReportsStatus(ApplyQuery(c, rows, op).cursor, status);
  }

  /** `erase` throws exactly if the query reports the end of its results; off a row it deletes nothing. */
  lemma EraseThrowsIff(c: Cursor, rows: seq<Row>)
    requires IdsIncrease(rows)
    ensures ApplyQuery(c, rows, Erase).outcome == Threw <==> Reports(c, Eor)
    ensures c.pending == [] ==> ApplyQuery(c, rows, Erase).rows == rows
  {
    ReportsStatus(c, Eor);
    if c.pending == [] { KeepAll(rows, OtherId(0)); }
  }

  /** After `all` on a row the query still reports more results, and shows an empty, denied request. */
  lemma AllOnRowShowsEmpty(c: Cursor, rows: seq<Row>)
    requires StatusTracksRow(c) && Reports(c, HasMoreResults)
    ensures var d := ApplyQuery(c, rows, All).cursor;
            Reports(d, HasMoreResults) && ApplyQuery(d, rows, Current).outcome == IsRequest(Request("", 0, 0, Denied))
  {
    ReportsStatus(c, HasMoreResults);
  }

  /******* Filters *******/

  predicate Binds(op: QueryOp) {
    op.ForApplicationId? || op.ForFeature? || op.ForInterval? || op.ForAnswer?
  }

  /** An empty application id binds nothing. */
  predicate Restricts(op: QueryOp) {
    Binds(op) && op != ForApplicationId("")
  }

  predicate SameKind(a: QueryOp, b: QueryOp) {
    || (a.ForApplicationId? && b.ForApplicationId?) || (a.ForFeature? && b.ForFeature?)
    || (a.ForInterval? && b.ForInterval?) || (a.ForAnswer? && b.ForAnswer?)
  }

  /** What each restriction means for a stored entry. */
  predicate Accepts(op: QueryOp, e: Entry) {
    match op
    case ForApplicationId(id) => e.app == id
    case ForFeature(feature) => e.feature == Narrow64(feature)
    case ForInterval(begin, end) => begin <= e.when <= end
    case ForAnswer(answer) => e.answer == answer
    case _ => true
  }

  /** Of several restrictions of one kind the last one counts. */
  ghost predicate Decisive(ops: seq<QueryOp>, i: nat)
    requires i < |ops|
  {
    Restricts(ops[i]) && forall j :: i < j < |ops| && Restricts(ops[j]) ==> !SameKind(ops[i], ops[j])
  }

  ghost predicate AcceptedByAll(ops: seq<QueryOp>, e: Entry) {
    forall i :: 0 <= i < |ops| && Decisive(ops, i) ==> Accepts(ops[i], e)
  }

  function Configure(c: Cursor, rows: seq<Row>, ops: seq<QueryOp>): Cursor
    decreases |ops|
  {
    if ops == [] then c
    else ApplyQuery(Configure(c, rows, ops[..|ops| - 1]), rows, ops[|ops| - 1]).cursor
  }

  /** The part of the filter that a restriction of the same kind as `op` binds. */
  predicate PassesPart(f: Filter, op: QueryOp, e: Entry) {
    match op
    case ForApplicationId(_) => e.app == IfNull(f.app, e.app)
    case ForFeature(_) => e.feature == IfNull(f.feature, e.feature)
    case ForInterval(_, _) => IfNull(f.lower, e.when) <= e.when <= IfNull(f.upper, e.when)
    case ForAnswer(_) => e.answer == IfNull(f.answer, e.answer)
    case _ => true
  }

  /** The restrictions of the kind of `op` that count. */
  ghost predicate AcceptedByKind(ops: seq<QueryOp>, op: QueryOp, e: Entry) {
    forall i :: 0 <= i < |ops| && Decisive(ops, i) && SameKind(op, ops[i]) ==> Accepts(ops[i], e)
  }

  /**
   From `execute` on, through any number of `next`s, a restriction throws and changes nothing,
   except that an empty application id never throws; after `all` it is accepted again.
   */
  lemma RestrictionsOnlyBeforeExecute(c: Cursor, rows: seq<Row>, tables: seq<seq<Row>>, op: QueryOp)
    requires Binds(op)
    ensures var d := Advance(ApplyQuery(c, rows, Execute).cursor, tables);
            && ApplyQuery(d, rows, op) == QueryResult(d, rows, if op == ForApplicationId("") then Done else Threw)
            && ApplyQuery(ApplyQuery(d, rows, All).cursor, rows, op).outcome == Done
  {
    AdvanceRuns(ApplyQuery(c, rows, Execute).cursor, tables);
  }

  lemma {:induction false} AdvanceRuns(c: Cursor, tables: seq<seq<Row>>)
    requires c.phase != Ready
    ensures Advance(c, tables).phase != Ready
    decreases |tables|
  {
    if tables != [] { AdvanceRuns(ApplyQuery(c, tables[0], Next).cursor, tables[1..]); }
  }

  lemma BindReplacesPart(c: Cursor, rows: seq<Row>, op: QueryOp, kind: QueryOp, e: Entry)
    requires c.phase == Ready && Binds(op) && Binds(kind)
    ensures var d := ApplyQuery(c, rows, op).cursor;
            && d.phase == Ready
            && PassesPart(d.filter, kind, e)
               == if Restricts(op) && SameKind(op, kind) then Accepts(op, e) else PassesPart(c.filter, kind, e)
  {
  }

  lemma AcceptedByKindLast(ops: seq<QueryOp>, op: QueryOp, kind: QueryOp, e: Entry)
    requires Binds(op) && Binds(kind)
    ensures AcceptedByKind(ops + [op], kind, e)
            == if Restricts(op) && SameKind(op, kind) then Accepts(op, e) else AcceptedByKind(ops, kind, e)
  {
    var all := ops + [op];
    assert Decisive(all, |ops|) <==> Restricts(op);
    assert forall j :: 0 <= j < |ops| ==> all[j] == ops[j];
    forall i | 0 <= i < |ops|
      ensures Decisive(all, i) <==> Decisive(ops, i) && !(Restricts(op) && SameKind(ops[i], op))
    {
      assert all[|ops|] == op;
      if Decisive(all, i) {
        forall j | i < j < |ops| && Restricts(ops[j]) ensures !SameKind(ops[i], ops[j]) { assert all[j] == ops[j]; }
      }
    }
  }

  lemma {:induction false} ConfigurePart(c: Cursor, rows: seq<Row>, ops: seq<QueryOp>, kind: QueryOp, e: Entry)
    requires c.phase == Ready && c.filter == NO_FILTER && Binds(kind)
    requires forall i :: 0 <= i < |ops| ==> Binds(ops[i])
    ensures Configure(c, rows, ops).phase == Ready
    ensures PassesPart(Configure(c, rows, ops).filter, kind, e) <==> AcceptedByKind(ops, kind, e)
    decreases |ops|
  {
    if ops != [] {
      var k := |ops| - 1;
      ConfigurePart(c, rows, ops[..k], kind, e);
      BindReplacesPart(Configure(c, rows, ops[..k]), rows, ops[k], kind, e);
      AcceptedByKindLast(ops[..k], ops[k], kind, e);
      assert ops == ops[..k] + [ops[k]];
    }
  }

  lemma PartsCover(f: Filter, e: Entry)
    ensures Passes(f, e) <==> forall kind :: Binds(kind) ==> PassesPart(f, kind, e)
  {
    var app, feature, interval, answer := ForApplicationId(""), ForFeature(0), ForInterval(0, 0), ForAnswer(Denied);
    if forall kind :: Binds(kind) ==> PassesPart(f, kind, e) {
      assert PassesPart(f, app, e) && PassesPart(f, feature, e);
      assert PassesPart(f, interval, e) && PassesPart(f, answer, e);
    }
  }

  lemma KindsCover(ops: seq<QueryOp>, e: Entry)
    ensures AcceptedByAll(ops, e) <==> forall kind :: Binds(kind) ==> AcceptedByKind(ops, kind, e)
  {
    if forall kind :: Binds(kind) ==> AcceptedByKind(ops, kind, e) {
      forall i | 0 <= i < |ops| && Decisive(ops, i) ensures Accepts(ops[i], e) {
        assert AcceptedByKind(ops, ops[i], e);
      }
    }
  }

  /** The filter bound by any restrictions is the conjunction of the last one of each kind. */
  lemma ConfigureNarrows(c: Cursor, rows: seq<Row>, ops: seq<QueryOp>, e: Entry)
    requires forall i :: 0 <= i < |ops| ==> Binds(ops[i])
    ensures Passes(Configure(ApplyQuery(c, rows, All).cursor, rows, ops).filter, e) <==> AcceptedByAll(ops, e)
  {
    var start := ApplyQuery(c, rows, All).cursor;
    var filter := Configure(start, rows, ops).filter;
    forall kind | Binds(kind) ensures PassesPart(filter, kind, e) <==> AcceptedByKind(ops, kind, e) {
      ConfigurePart(start, rows, ops, kind, e);
    }
    PartsCover(filter, e);
    KindsCover(ops, e);
  }

  lemma ExecuteSelects(c: Cursor, rows: seq<Row>)
    requires IdsIncrease(rows)
    ensures IsSelection(ApplyQuery(c, rows, Execute).cursor.pending, rows, c.filter)
  {
    SelectIsSelection(rows, c.filter);
  }

  /**
   Whatever was done with a query before: after `all` and any restrictions, `execute` selects
   exactly the rows that satisfy all of them, the last one of each kind counting.
   */
  lemma QuerySelectsConjunction(c: Cursor, rows: seq<Row>, ops: seq<QueryOp>)
    requires IdsIncrease(rows) && forall i :: 0 <= i < |ops| ==> Binds(ops[i])
    ensures var d := Configure(ApplyQuery(c, rows, All).cursor, rows, ops);
            var selection := ApplyQuery(d, rows, Execute).cursor.pending;
            && InOrder(selection)
            && forall row :: row in selection <==> row in rows && AcceptedByAll(ops, row.entry)
  {
    var d := Configure(ApplyQuery(c, rows, All).cursor, rows, ops);
    ExecuteSelects(d, rows);
    forall row: Row ensures Passes(d.filter, row.entry) <==> AcceptedByAll(ops, row.entry) {
      ConfigureNarrows(c, rows, ops, row.entry);
    }
  }

  /** The status says "more results" exactly while the statement stands on a row. */
  predicate StatusTracksRow(c: Cursor) {
    && (c.phase == OnRow <==> c.pending != [])
    && (c.status == HasMoreResults <==> c.phase == OnRow)
  }

  /** `execute` establishes that, and every operation keeps it, except `all` on a row. */
  lemma StatusTracksRowIff(c: Cursor, rows: seq<Row>, op: QueryOp)
    requires op == Execute || StatusTracksRow(c)
    ensures StatusTracksRow(ApplyQuery(c, rows, op).cursor) <==> (op == All ==> c.phase != OnRow)
  {
  }

  /******* Widths *******/

  /** A query for its own feature finds the stored request. */
  predicate FoundByFeature(r: Request) {
    Passes(NO_FILTER.(feature := Some(Narrow64(r.feature))), Entry(r.from, Narrow32(r.feature), r.when, r.answer))
  }

  /**
   The feature is written as a 32-bit and queried as a 64-bit integer: a request is found by
   its own feature exactly when the upper half of the feature repeats bit 31.
   */
  lemma FoundByFeatureIff(r: Request)
    ensures FoundByFeature(r) <==> SignExtended(r.feature)
  {
    NarrowingsAgreeIff(r.feature);
  }

  /** The value of a 64-bit pattern whose upper half repeats bit 31. */
  lemma SignedValue(f: uint64)
    requires SignExtended(f)
    ensures Narrow32(f) == Narrow64(f) == if f < 0x8000_0000 then f else f - 0x1_0000_0000_0000_0000
  {
  }

  lemma NarrowingsAgreeIff(f: uint64)
    ensures Narrow64(f) == Narrow32(f) <==> SignExtended(f)
    ensures Unsigned64(Narrow32(Narrow32(f))) == f <==> SignExtended(f)
  {
    var low := Narrow32(f);
    assert Narrow32(low) == low;
    if SignExtended(f) { SignedValue(f); }
  }

  /** Within that range distinct features stay distinct, when stored and when queried. */
  lemma FeaturesNeverCollide(f: uint64, g: uint64)
    requires SignExtended(f) && SignExtended(g)
    ensures Narrow32(f) == Narrow64(g) <==> f == g
  {
    SignedValue(f);
    SignedValue(g);
  }

  /**
   Two different features collide, the stored form of one matching a query for the other,
   exactly if the stored one does not survive the narrowing, the other one does, and they share
   their low 32 bits.
   */
  lemma FeaturesCollideIff(f: uint64, g: uint64)
    requires f != g
    ensures Narrow32(f) == Narrow64(g) <==> !SignExtended(f) && SignExtended(g) && Narrow32(f) == Narrow32(g)
  {
    NarrowingsAgreeIff(g);
    if SignExtended(g) { SignedValue(g); }
    if SignExtended(f) { SignedValue(f); }
  }

  /** A whole request survives add and `current` exactly for such features and NUL-free names. */
  lemma ReadBackIff(r: Request, id: nat)
    requires r.from != ""
    ensures ToRequest(Row(id, Entry(r.from, Narrow32(r.feature), r.when, r.answer))) == r
            <==> SignExtended(r.feature) && NulFree(r.from)
    ensures var q := ToRequest(Row(id, Entry(r.from, Narrow32(r.feature), r.when, r.answer)));
            q.when == r.when && q.answer == r.answer && (NulFree(r.from) ==> q.from == r.from)
  {
    NarrowingsAgreeIff(r.feature);
  }

  /** `erase` narrows the row id: it deletes the row the cursor shows exactly for small ids. */
  lemma EraseHitsCurrentRowIff(c: Cursor, rows: seq<Row>)
    requires IdsIncrease(rows) && StatusTracksRow(c) && c.status == HasMoreResults
    requires c.pending[0] in rows && c.pending[0].id < 0x8000_0000_0000_0000
    ensures c.pending[0] !in ApplyQuery(c, rows, Erase).rows <==> c.pending[0].id < 0x8000_0000
  {
  }

  /******* Erasing all results *******/

  datatype Erased = Erased(cursor: Cursor, rows: seq<Row>, count: nat)

  function EraseToEnd(c: Cursor, rows: seq<Row>): Erased
    decreases |c.pending|
  {
    if c.status != HasMoreResults || !StatusTracksRow(c) then Erased(c, rows, 0)
    else
      var r := ApplyQuery(c, rows, Erase);
      var e := EraseToEnd(r.cursor, r.rows);
      e.(count := e.count + 1)
  }

  function NotIn(gone: seq<Row>): Row -> bool {
    (row: Row) => row !in gone
  }

  lemma SameIdSameRow(rows: seq<Row>, a: Row, b: Row)
    requires IdsIncrease(rows) && a in rows && b in rows && a.id == b.id
    ensures a == b
  {
  }

  /** Deleting the first pending row leaves the others in the table and out of its way. */
  lemma EraseFirst(rows: seq<Row>, pending: seq<Row>)
    requires IdsIncrease(rows) && pending != [] && InOrder(pending)
    requires forall row :: row in pending ==> row in rows
    ensures var left := DeleteId(rows, pending[0].id);
            && IdsIncrease(left) && (forall row :: row in pending[1..] ==> row in left)
            && Keep(left, NotIn(pending[1..])) == Keep(rows, NotIn(pending))
  {
    var first := pending[0];
    KeepIncreasing(rows, OtherId(first.id));
    forall row | row in rows
      ensures row.id == first.id <==> row == first
      ensures row in pending <==> row == first || row in pending[1..]
    {
      if row.id == first.id { SameIdSameRow(rows, row, first); }
    }
    assert first !in pending[1..];
    KeepTwice(rows, OtherId(first.id), NotIn(pending[1..]), NotIn(pending));
  }

  lemma EraseOnce(c: Cursor, rows: seq<Row>)
    requires StatusTracksRow(c) && c.status == HasMoreResults && c.pending[0].id < 0x8000_0000
    ensures var r := ApplyQuery(c, rows, Erase);
            && r.rows == DeleteId(rows, c.pending[0].id) && StatusTracksRow(r.cursor)
            && r.cursor.pending == c.pending[1..]
            && r.cursor.status == (if |c.pending| == 1 then Eor else HasMoreResults)
            && EraseToEnd(c, rows).rows == EraseToEnd(r.cursor, r.rows).rows
            && EraseToEnd(c, rows).cursor == EraseToEnd(r.cursor, r.rows).cursor
            && EraseToEnd(c, rows).count == EraseToEnd(r.cursor, r.rows).count + 1
  {
  }

  lemma {:induction false} EraseToEndDeletes(c: Cursor, rows: seq<Row>)
    requires IdsIncrease(rows) && StatusTracksRow(c) && c.status == HasMoreResults && InOrder(c.pending)
    requires forall row :: row in c.pending ==> row in rows && row.id < 0x8000_0000
    ensures var e := EraseToEnd(c, rows);
            e.rows == Keep(rows, NotIn(c.pending)) && e.count == |c.pending| && e.cursor.status == Eor
    decreases |c.pending|
  {
    EraseFirst(rows, c.pending);
    EraseOnce(c, rows);
    var r := ApplyQuery(c, rows, Erase);
    if |c.pending| > 1 {
      assert InOrder(c.pending[1..]);
      EraseToEndDeletes(r.cursor, r.rows);
    } else {
      KeepAll(r.rows, NotIn(c.pending[1..]));
    }
  }

  /** Whatever the ids, there is one erase per pending row, and no large id is ever deleted. */
  lemma {:induction false} EraseToEndSpares(c: Cursor, rows: seq<Row>)
    requires StatusTracksRow(c) && c.status != Error && c.status != Armed
    ensures var e := EraseToEnd(c, rows);
            && e.count == |c.pending| && e.cursor.status == Eor
            && forall row :: row in rows && row.id >= 0x8000_0000 ==> row in e.rows
    decreases |c.pending|
  {
    if c.status == HasMoreResults {
      var r := ApplyQuery(c, rows, Erase);
      EraseToEndSpares(r.cursor, r.rows);
    }
  }

  /**
   Executing a query and erasing until the end of the results takes one erase per match. It
   deletes exactly the matching rows if and only if their ids fit 32 signed bits.
   */
  lemma EraseAllDeletesMatchesIff(c: Cursor, rows: seq<Row>)
    requires IdsIncrease(rows)
    ensures var e := EraseToEnd(ApplyQuery(c, rows, Execute).cursor, rows);
            && e.count == |Matching(rows, c.filter)| && e.cursor.status == Eor
            && (e.rows == Keep(rows, FailsRow(c.filter))
                <==> forall row :: row in Matching(rows, c.filter) ==> row.id < 0x8000_0000)
  {
    SelectIsSelection(rows, c.filter);
    SortKeepsLength(Matching(rows, c.filter));
    var start := ApplyQuery(c, rows, Execute).cursor;
    EraseToEndSpares(start, rows);
    if forall row :: row in Matching(rows, c.filter) ==> row.id < 0x8000_0000 {
      if start.status == HasMoreResults {
        EraseToEndDeletes(start, rows);
        KeepSame(rows, NotIn(start.pending), FailsRow(c.filter));
      } else {
        assert Select(rows, c.filter) == [];
        KeepAll(rows, FailsRow(c.filter));
      }
    }
  }

  lemma {:induction false} SortKeepsLength(rows: seq<Row>)
    ensures |NewestFirst(rows)| == |rows|
  {
    if rows != [] {
      SortKeepsLength(rows[1..]);
      InsertKeepsLength(rows[0], NewestFirst(rows[1..]));
    }
  }

  lemma {:induction false} InsertKeepsLength(row: Row, sorted: seq<Row>)
    ensures |InsertByTime(row, sorted)| == |sorted| + 1
  {
    if sorted != [] { InsertKeepsLength(row, sorted[1..]); }
  }

  /******* The classes *******/

  /** The store object: its table and the statements it keeps prepared. */
  class Store {
    var rows: seq<Row>
    var insertApp: Option<string>
    var insertFailed: bool
    var removeApp: Option<string>

    function State(): StoreState
      reads this
    {
      StoreState(rows, insertApp, insertFailed, removeApp)
    }

    /** Opens the table found in the database file; a new file has no rows. */
    constructor (rows: seq<Row>)
      ensures State() == StoreState(rows, None, false, None)
    {
      this.rows, insertApp, insertFailed, removeApp := rows, None, false, None;
    }

    method ResetStore()
      modifies this
      ensures State() == ApplyStore(old(State()), Reset).state
    {
      rows := [];
    }

    method AddRequest(r: Request) returns (ok: bool)
      modifies this
      ensures StoreResult(State(), ok) == ApplyStore(old(State()), Add(r))
    {
      if insertFailed {
        insertFailed := false;
        return false;
      }
      if r.from != "" {
        insertApp := Some(r.from);
      }
      match insertApp {
        case None =>
          insertFailed := true;
          ok := false;
        case Some(app) =>
          rows := rows + [Row(NextId(rows), Entry(app, Narrow32(r.feature), r.when, r.answer))];
          ok := true;
      }
    }

    method RemoveApp(id: string)
      modifies this
      ensures State() == ApplyStore(old(State()), RemoveApplication(id)).state
    {
      if id != "" {
        removeApp := Some(id);
      }
      var bound := removeApp;
      rows := Keep(rows, OtherApplication(bound));
    }
  }

  /** A query object: a SELECT statement of its own over the shared table. */
  class Query {
    const store: Store
    var filter: Filter
    var phase: Phase
    var pending: seq<Row>
    var status: Status

    function State(): Cursor
      reads this
    {
      Cursor(filter, phase, pending, status)
    }

    constructor (store: Store)
      ensures this.store == store && State() == NEW_CURSOR
    {
      this.store := store;
      filter, phase, pending, status := NO_FILTER, Ready, [], Armed;
    }

    method BindFilter(f: Filter) returns (ok: bool)
      modifies this`filter
      ensures ok == (phase == Ready)
      ensures filter == if ok then f else old(filter)
    {
      ok := phase == Ready;
      if ok { filter := f; }
    }

    method RestrictToApplication(id: string) returns (ok: bool)
      modifies this`filter
      ensures QueryResult(State(), store.rows, if ok then Done else Threw)
              == ApplyQuery(old(State()), store.rows, ForApplicationId(id))
    {
      if id == "" { return true; }
      ok := BindFilter(filter.(app := Some(id)));
    }

    method RestrictToFeature(feature: uint64) returns (ok: bool)
      modifies this`filter
      ensures QueryResult(State(), store.rows, if ok then Done else Threw)
              == ApplyQuery(old(State()), store.rows, ForFeature(feature))
    {
      ok := BindFilter(filter.(feature := Some(Narrow64(feature))));
    }

    method RestrictToInterval(begin: int64, end: int64) returns (ok: bool)
      modifies this`filter
      ensures QueryResult(State(), store.rows, if ok then Done else Threw)
              == ApplyQuery(old(State()), store.rows, ForInterval(begin, end))
    {
      ok := BindFilter(filter.(lower := Some(begin)));
      if ok { ok := BindFilter(filter.(upper := Some(end))); }
    }

    method RestrictToAnswer(answer: Answer) returns (ok: bool)
      modifies this`filter
      ensures QueryResult(State(), store.rows, if ok then Done else Threw)
              == ApplyQuery(old(State()), store.rows, ForAnswer(answer))
    {
      ok := BindFilter(filter.(answer := Some(answer)));
    }

    method MatchAll()
      modifies this
      ensures State() == ApplyQuery(old(State()), store.rows, All).cursor
    {
      phase, pending := Ready, [];
      filter := NO_FILTER;
    }

    method StepStatement()
      modifies this`phase, this`pending, this`status
      ensures State() == Step(old(State()), store.rows)
    {
      if phase == OnRow {
        pending := DropFirst(pending);
      } else {
        pending := Select(store.rows, filter);
      }
      if pending == [] {
        phase, status := Halted, Eor;
      } else {
        phase, status := OnRow, HasMoreResults;
      }
    }

    method ExecuteQuery()
      modifies this
      ensures State() == ApplyQuery(old(State()), store.rows, Execute).cursor
    {
      phase, pending := Ready, [];
      StepStatement();
    }

    method MoveNext()
      modifies this
      ensures State() == ApplyQuery(old(State()), store.rows, Next).cursor
    {
      StepStatement();
    }

    method EraseCurrent() returns (ok: bool)
      modifies this, store`rows
      ensures QueryResult(State(), store.rows, if ok then Done else Threw)
              == ApplyQuery(old(State()), old(store.rows), Erase)
    {
      if status == Eor { return false; }
      var id := CurrentId(Cursor(filter, phase, pending, status));
      store.rows := DeleteId(store.rows, id);
      StepStatement();
      ok := true;
    }

    method GetCurrent() returns (outcome: Outcome)
      ensures QueryResult(State(), store.rows, outcome) == ApplyQuery(State(), store.rows, Current)
    {
      match status {
        case Error => outcome := Threw;
        case Eor => outcome := NoCurrentResult;
        case Armed => outcome := NoCurrentResult;
        case HasMoreResults => outcome := IsRequest(CurrentColumns(Cursor(filter, phase, pending, status)));
      }
    }
  }
}
