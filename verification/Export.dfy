/** The asynchronous CSV export (apps/worker/src/jobs/export-csv.ts): keyset pagination over a fixed table. */
module Export {
  import opened Wrappers
  import opened Csv

  /** A usage_event row: its primary key (id as a 128-bit number), the filtered columns, and the 17 printed cells. */
  datatype Row = Row(id: nat, occurredAt: int, workspaceId: string, userId: string, projectId: string,
                     provider: string, model: string, cells: seq<Value>)

  datatype Params = Params(scopeUserId: Option<string>, userId: Option<string>, projectId: Option<string>,
                           provider: Option<string>, model: Option<string>, from: Option<int>, to: Option<int>)

  datatype Cursor = Cursor(occurredAt: int, id: nat)

  /** An absent filter, or an empty string, filters nothing. */
  predicate Admits(filter: Option<string>, column: string) {
    filter.None? || filter.value == "" || filter.value == column
  }

  /** buildEventWhere */
  predicate Where(workspaceId: string, p: Params, r: Row) {
    && r.workspaceId == workspaceId
    && (if p.scopeUserId.Some? && p.scopeUserId.value != "" then r.userId == p.scopeUserId.value
      else Admits(p.userId, r.userId))
    && Admits(p.projectId, r.projectId) && Admits(p.provider, r.provider) && Admits(p.model, r.model)
    && (p.from.Some? ==> p.from.value <= r.occurredAt) && (p.to.Some? ==> r.occurredAt < p.to.value)
  }

  /** ORDER BY occurredAt DESC, id DESC */
  predicate Precedes(a: Row, b: Row) {
    a.occurredAt > b.occurredAt || (a.occurredAt == b.occurredAt && a.id > b.id)
  }

  predicate After(r: Row, c: Option<Cursor>) {
    c.None? || r.occurredAt < c.value.occurredAt || (r.occurredAt == c.value.occurredAt && r.id < c.value.id)
  }

  /** The primary key (id, occurredAt). */
  ghost predicate UniqueKeys(rows: seq<Row>) {
    forall i, j :: 0 <= i < j < |rows| ==> rows[i].id != rows[j].id || rows[i].occurredAt != rows[j].occurredAt
  }

  ghost predicate Ordered(rows: seq<Row>) {
    forall i, j :: 0 <= i < j < |rows| ==> Precedes(rows[i], rows[j])
  }

  // ----- what the database does for one findMany -----

  function Filter(rows: seq<Row>, workspaceId: string, p: Params, c: Option<Cursor>): seq<Row> {
    if rows == [] then []
    else
      (if Where(workspaceId, p, rows[0]) && After(rows[0], c) then [rows[0]] else [])
        + Filter(rows[1..], workspaceId, p, c)
  }

  function Insert(r: Row, sorted: seq<Row>): seq<Row> {
    if sorted == [] || Precedes(r, sorted[0]) then [r] + sorted else [sorted[0]] + Insert(r, sorted[1..])
  }

  function Sort(rows: seq<Row>): seq<Row> {
    if rows == [] then [] else Insert(rows[0], Sort(rows[1..]))
  }

  function FindMany(table: seq<Row>, workspaceId: string, p: Params, c: Option<Cursor>, take: nat): seq<Row> {
    var all := Sort(Filter(table, workspaceId, p, c));
    if |all| <= take then all else all[..take]
  }

  lemma {:induction false} InsertKeeps(r: Row, sorted: seq<Row>)
    requires Ordered(sorted)
    requires forall i :: 0 <= i < |sorted| ==> sorted[i].id != r.id || sorted[i].occurredAt != r.occurredAt
    ensures Ordered(Insert(r, sorted)) && multiset(Insert(r, sorted)) == multiset(sorted) + multiset{r}
  {
    if sorted == [] || Precedes(r, sorted[0]) {
    } else {
      var rest := Insert(r, sorted[1..]);
      InsertKeeps(r, sorted[1..]);
      assert sorted == [sorted[0]] + sorted[1..];
      forall j | 0 <= j < |rest| ensures Precedes(sorted[0], rest[j]) {
        assert rest[j] in multiset(rest);
        assert rest[j] == r || rest[j] in sorted[1..];
      }
    }
  }

  lemma KeyIsNew(rows: seq<Row>, others: seq<Row>)
    requires rows != [] && UniqueKeys(rows) && multiset(others) == multiset(rows[1..])
    ensures forall i :: 0 <= i < |others| ==> others[i].id != rows[0].id || others[i].occurredAt != rows[0].occurredAt
  {
    forall i | 0 <= i < |others| ensures others[i].id != rows[0].id || others[i].occurredAt != rows[0].occurredAt {
      assert others[i] in multiset(rows[1..]);
      var k :| 0 <= k < |rows[1..]| && rows[1..][k] == others[i];
      assert rows[k + 1] == rows[1..][k];
    }
  }

  /** Sorting a table with unique keys orders it strictly and keeps every row once. */
  lemma {:induction false} SortSorts(rows: seq<Row>)
    requires UniqueKeys(rows)
    ensures Ordered(Sort(rows)) && multiset(Sort(rows)) == multiset(rows)
  {
    if rows != [] {
      SortSorts(rows[1..]);
      assert rows == [rows[0]] + rows[1..];
      KeyIsNew(rows, Sort(rows[1..]));
      InsertKeeps(rows[0], Sort(rows[1..]));
    }
  }

  lemma {:induction false} FilterKeeps(rows: seq<Row>, workspaceId: string, p: Params, c: Option<Cursor>)
    requires UniqueKeys(rows)
    ensures UniqueKeys(Filter(rows, workspaceId, p, c))
    ensures forall r :: r in Filter(rows, workspaceId, p, c) <==> r in rows && Where(workspaceId, p, r) && After(r, c)
  {
    if rows != [] {
      FilterKeeps(rows[1..], workspaceId, p, c);
      assert rows == [rows[0]] + rows[1..];
      var rest := Filter(rows[1..], workspaceId, p, c);
      forall k | 0 <= k < |rest| ensures rest[k].id != rows[0].id || rest[k].occurredAt != rows[0].occurredAt {
        assert rest[k] in rest;
        var m :| 0 <= m < |rows[1..]| && rows[1..][m] == rest[k];
        assert rows[m + 1] == rest[k];
      }
    }
  }

  /** Two strictly ordered sequences with the same rows are equal. */
  lemma {:induction false} OrderedIsUnique(a: seq<Row>, b: seq<Row>)
    requires Ordered(a) && Ordered(b) && forall r :: r in a <==> r in b
    ensures a == b
  {
    if a != [] && b != [] {
      assert a[0] in b && b[0] in a;
      assert a[0] == b[0];
      forall r ensures r in a[1..] <==> r in b[1..] {
        assert r in a[1..] ==> r in a && r != a[0];
        assert r in b[1..] ==> r in b && r != b[0];
      }
      OrderedIsUnique(a[1..], b[1..]);
    } else if a != [] {
      HasMember(a);
    } else if b != [] {
      HasMember(b);
    }
  }

  lemma HasMember(a: seq<Row>)
    requires a != []
    ensures exists r :: r in a
  {
    assert a[0] in a;
  }

  /** The whole answer, as one query without a cursor or a limit would give it. */
  function Answer(table: seq<Row>, workspaceId: string, p: Params): seq<Row> {
    Sort(Filter(table, workspaceId, p, None))
  }

  /** What the answer is, without saying how it is computed. */
  lemma AnswerIsExact(table: seq<Row>, workspaceId: string, p: Params)
    requires UniqueKeys(table)
    ensures var a := Answer(table, workspaceId, p);
      && Ordered(a)
      && (forall r :: r in a <==> r in table && Where(workspaceId, p, r))
      && forall r :: multiset(a)[r] <= 1
  {
    var f := Filter(table, workspaceId, p, None);
    var a := Answer(table, workspaceId, p);
    FilterKeeps(table, workspaceId, p, None);
    SortSorts(f);
    assert forall r :: r in a <==> r in multiset(a);
    assert forall r :: r in f <==> r in multiset(f);
    forall r ensures multiset(a)[r] <= 1 { StrictOrderHasNoCopies(a, r); }
  }

  lemma {:induction false} StrictOrderHasNoCopies(a: seq<Row>, r: Row)
    requires Ordered(a)
    ensures multiset(a)[r] <= 1
  {
    if a != [] {
      assert a == [a[0]] + a[1..];
      StrictOrderHasNoCopies(a[1..], r);
      if a[0] == r { assert r !in a[1..]; }
    }
  }

  /** The cursor left by the first n rows of an answer. */
  function CursorAt(a: seq<Row>, n: nat): Option<Cursor>
    requires n <= |a|
  {
    if n == 0 then None else Some(Cursor(a[n - 1].occurredAt, a[n - 1].id))
  }

  /** The rows after a cursor are those behind its position, ties on occurredAt included. */
  lemma AfterCursor(a: seq<Row>, n: nat, r: Row)
    requires Ordered(a) && n <= |a|
    ensures r in a[n..] <==> r in a && After(r, CursorAt(a, n))
  {
    if r in a[n..] {
      var i :| 0 <= i < |a[n..]| && a[n..][i] == r;
      assert a[n + i] == r;
    }
    if r in a && After(r, CursorAt(a, n)) {
      var i :| 0 <= i < |a| && a[i] == r;
      assert i >= n;
      assert a[n..][i - n] == r;
    }
  }

  lemma TailIsOrdered(a: seq<Row>, n: nat)
    requires Ordered(a) && n <= |a|
    ensures Ordered(a[n..])
  {}

  /** Everything behind the cursor, sorted, is the rest of the answer. */
  lemma RestOfAnswer(table: seq<Row>, workspaceId: string, p: Params, n: nat)
    requires UniqueKeys(table) && n <= |Answer(table, workspaceId, p)|
    ensures var a := Answer(table, workspaceId, p);
      Sort(Filter(table, workspaceId, p, CursorAt(a, n))) == a[n..]
  {
    var a := Answer(table, workspaceId, p);
    var f := Filter(table, workspaceId, p, CursorAt(a, n));
    AnswerIsExact(table, workspaceId, p);
    FilterKeeps(table, workspaceId, p, CursorAt(a, n));
    SortSorts(f);
    forall r ensures r in Sort(f) <==> r in a[n..] {
      assert r in Sort(f) <==> r in multiset(Sort(f));
      assert r in f <==> r in multiset(f);
      AfterCursor(a, n, r);
    }
    TailIsOrdered(a, n);
    OrderedIsUnique(Sort(f), a[n..]);
  }

  /** A page read behind the cursor left by row n is the next stretch of the answer. */
  lemma PageIsNextStretch(table: seq<Row>, workspaceId: string, p: Params, n: nat, take: nat)
    requires UniqueKeys(table) && n <= |Answer(table, workspaceId, p)|
    ensures var a := Answer(table, workspaceId, p);
      FindMany(table, workspaceId, p, CursorAt(a, n), take) == a[n..if n + take <= |a| then n + take else |a|]
  {
    RestOfAnswer(table, workspaceId, p, n);
  }

  function CellsOf(rows: seq<Row>): seq<seq<Value>> { seq(|rows|, i requires 0 <= i < |rows| => rows[i].cells) }

  lemma {:induction false} FileGrows(rows: seq<seq<Value>>, row: seq<Value>)
    ensures CsvFile(rows + [row]) == CsvFile(rows) + (CsvRow(row) + "\n")
  {
    if rows == [] {
      assert rows + [row] == [row] && [row][1..] == [];
      assert CsvFile([]) == "";
    } else {
      assert (rows + [row])[1..] == rows[1..] + [row];
      FileGrows(rows[1..], row);
    }
  }

  /** The file after the header and the first k rows. */
  ghost function FileUpTo(header: seq<Value>, a: seq<Row>, k: nat): string
    requires k <= |a|
  {
    CsvFile([header] + CellsOf(a[..k]))
  }

  lemma NextLine(header: seq<Value>, a: seq<Row>, k: nat)
    requires k < |a|
    ensures FileUpTo(header, a, k + 1) == FileUpTo(header, a, k) + (CsvRow(a[k].cells) + "\n")
  {
    FileGrows([header] + CellsOf(a[..k]), a[k].cells);
    assert [header] + CellsOf(a[..k + 1]) == [header] + CellsOf(a[..k]) + [a[k].cells];
  }

  lemma HeaderLine(header: seq<Value>, a: seq<Row>)
    ensures FileUpTo(header, a, 0) == CsvRow(header) + "\n"
  {
    FileGrows([], header);
    assert [] + [header] == [header] + CellsOf(a[..0]);
  }

  /** The loop of writeUsageEvents: header, then page after page until one comes back short. */
  method WriteUsageEvents(table: seq<Row>, workspaceId: string, p: Params, header: seq<Value>, batch: nat)
    returns (out: string, total: nat)
    requires UniqueKeys(table) && batch >= 1
    ensures out == CsvFile([header] + CellsOf(Answer(table, workspaceId, p)))
    ensures total == |Answer(table, workspaceId, p)|
  {
    hide Answer, FindMany, CsvRow;
    ghost var a := Answer(table, workspaceId, p);
    HeaderLine(header, a);
    out := CsvRow(header) + "\n";
    total := 0;
    var cursor: Option<Cursor> := None;
    while true
      invariant total <= |a| && cursor == CursorAt(a, total)
      invariant out == FileUpTo(header, a, total)
      decreases |a| - total
    {
      var rows := FindMany(table, workspaceId, p, cursor, batch);
      PageIsNextStretch(table, workspaceId, p, total, batch);
      if |rows| == 0 { break; }
      for k := 0 to |rows|
        invariant out == FileUpTo(header, a, total + k)
      {
        NextLine(header, a, total + k);
        out := out + (CsvRow(rows[k].cells) + "\n");
      }
      total := total + |rows|;
      var last := rows[|rows| - 1];
      cursor := Some(Cursor(last.occurredAt, last.id));
      if |rows| < batch { break; }
    }
    assert a[..|a|] == a;
  }

  /** An RFC 4180 reader recovers from the finished file exactly the matching rows, in order, after the header. */
  lemma ExportReadsBack(table: seq<Row>, workspaceId: string, p: Params, header: seq<Value>)
    requires header != [] && forall i :: 0 <= i < |table| ==> table[i].cells != []
    requires UniqueKeys(table)
    ensures var a := Answer(table, workspaceId, p);
      ReadFile(CsvFile([header] + CellsOf(a))) == Some([TextsOf(header)] + TextsOfRows(CellsOf(a)))
  {
    var a := Answer(table, workspaceId, p);
    var rows := [header] + CellsOf(a);
    AnswerIsExact(table, workspaceId, p);
    forall i | 0 <= i < |rows| ensures rows[i] != [] {
      if i > 0 { assert a[i - 1] in a; }
    }
    FileReadsBack(rows);
    assert TextsOfRows(rows) == [TextsOf(header)] + TextsOfRows(CellsOf(a));
  }

  predicate Asks(filter: Option<string>) { filter.Some? && filter.value != "" }

  /**
   * The rows of an export, column by column: those of the workspace, of the member it is scoped to or else the member
   * asked for, with the project, provider and model asked for, from `from` on and before `to`; the latest first, and
   * of one instant the larger id.
   */
  lemma AnswerByColumns(table: seq<Row>, workspaceId: string, p: Params, r: Row)
    requires UniqueKeys(table)
    ensures r in Answer(table, workspaceId, p) <==>
      && r in table && r.workspaceId == workspaceId
      && (Asks(p.scopeUserId) ==> r.userId == p.scopeUserId.value)
      && (!Asks(p.scopeUserId) && Asks(p.userId) ==> r.userId == p.userId.value)
      && (Asks(p.projectId) ==> r.projectId == p.projectId.value)
      && (Asks(p.provider) ==> r.provider == p.provider.value)
      && (Asks(p.model) ==> r.model == p.model.value)
      && (p.from.Some? ==> r.occurredAt >= p.from.value) && (p.to.Some? ==> r.occurredAt < p.to.value)
    ensures var a := Answer(table, workspaceId, p);
      forall i, j :: 0 <= i < j < |a| ==>
        a[i].occurredAt > a[j].occurredAt || (a[i].occurredAt == a[j].occurredAt && a[i].id > a[j].id)
  {
    AnswerIsExact(table, workspaceId, p);
  }

  /** A scoped member exports only their own rows, whatever filters they pass. */
  lemma ScopeConfines(table: seq<Row>, workspaceId: string, p: Params, r: Row)
    requires UniqueKeys(table) && p.scopeUserId.Some? && p.scopeUserId.value != ""
    requires r in Answer(table, workspaceId, p)
    ensures r.userId == p.scopeUserId.value && r.workspaceId == workspaceId
  {
    AnswerIsExact(table, workspaceId, p);
  }

  // ----- the job row -----

  datatype Status = PENDING | RUNNING | DONE | FAILED

  datatype Kind = UsageEvents(params: Params) | Unsupported

  /** One row of the job table; `file` is the finished file that filePath and expiresAt announce. */
  datatype JobRow = JobRow(status: Status, rowCount: Option<nat>, file: Option<string>, error: bool) {
    predicate Terminal() { status == DONE || status == FAILED }
  }

  const NEW_JOB := JobRow(PENDING, None, None, false)

  /** Where the try block throws before it comes to the DONE update, if it does. */
  datatype Fault = NoFault | OpeningFile | Writing | Finishing

  /** One attempt: whether the lookup succeeds, how the three updates end, and how the rest of the try block fares. */
  datatype Attempt = Attempt(finds: bool, running: Call, body: Fault, done: Call, failed: Call) {
    /** It enters the try block. */
    predicate Starts() { finds && running.Succeeds? }

    /** It comes to the DONE update. */
    predicate Writes(kind: Kind) { Starts() && kind.UsageEvents? && body == NoFault }

    /** It comes to the FAILED update. */
    predicate Catches(kind: Kind) { Starts() && !(Writes(kind) && done.Succeeds?) }

    predicate MarksRunning() { finds && running.Lands() }

    predicate MarksDone(kind: Kind) { Writes(kind) && done.Lands() }

    predicate MarksFailed(kind: Kind) { Catches(kind) && failed.Lands() }

    /** It brings an open job to an end. */
    predicate Ends(kind: Kind) { MarksDone(kind) || MarksFailed(kind) }

    /** An open job's attempt that returns without an exception. */
    predicate Returns(kind: Kind) { Starts() && (Catches(kind) ==> failed.Succeeds?) }
  }

  /** The file a job asks for. */
  datatype Task = Task(table: seq<Row>, header: seq<Value>, workspaceId: string, kind: Kind) {
    function Rows(): seq<Row> { if kind.UsageEvents? then Answer(table, workspaceId, kind.params) else [] }

    function File(): string { CsvFile([header] + CellsOf(Rows())) }
  }

  /** The row that an attempt leaves: of its updates, each that takes effect, in order. */
  function AfterAttempt(task: Task, row: JobRow, a: Attempt): JobRow {
    if row.Terminal() then row
    else
      var started := if a.MarksRunning() then row.(status := RUNNING) else row;
      var finished :=
        if a.MarksDone(task.kind)
        then started.(status := DONE, rowCount := Some(|task.Rows()|), file := Some(task.File()))
        else started;
      if a.MarksFailed(task.kind) then finished.(status := FAILED, error := true) else finished
  }

  function AfterAttempts(task: Task, attempts: seq<Attempt>): JobRow {
    if attempts == [] then NEW_JOB
    else AfterAttempt(task, AfterAttempts(task, attempts[..|attempts| - 1]), attempts[|attempts| - 1])
  }

  class Job {
    const workspaceId: string
    const kind: Kind
    var status: Status
    var rowCount: Option<nat>
    var file: Option<string>
    var error: bool

    ghost function Abs(): JobRow
      reads this
    {
      JobRow(status, rowCount, file, error)
    }

    constructor (workspaceId: string, kind: Kind)
      ensures this.workspaceId == workspaceId && this.kind == kind && Abs() == NEW_JOB
    {
      this.workspaceId, this.kind := workspaceId, kind;
      status, rowCount, file, error := PENDING, None, None, false;
    }

    /** One attempt of runExportJob; `threw` when an exception reaches the queue, which then tries again. */
    method Run(table: seq<Row>, header: seq<Value>, batch: nat, a: Attempt) returns (threw: bool)
      requires UniqueKeys(table) && batch >= 1
      modifies this
      ensures Abs() == AfterAttempt(Task(table, header, workspaceId, kind), old(Abs()), a)
      ensures threw <==> !a.finds || (!old(Abs()).Terminal() && !a.Returns(kind))
      ensures threw ==> !a.finds || !a.running.Succeeds? || !a.failed.Succeeds?
      ensures !old(Abs()).Terminal() && (!a.finds || !a.running.Succeeds?) ==> threw
    {
      threw := !a.finds;
      if !a.finds || status == DONE || status == FAILED { return; }
      if a.running.Lands() { status := RUNNING; }
      if !a.running.Succeeds? { return true; }
      if a.body != OpeningFile && a.body != Writing && kind.UsageEvents? {
        var out, total := WriteUsageEvents(table, workspaceId, kind.params, header, batch);
        if a.body == NoFault {
          if a.done.Lands() { status, rowCount, file := DONE, Some(total), Some(out); }
          if a.done.Succeeds? { return; }
        }
      }
      if a.failed.Lands() { status, error := FAILED, true; }
      threw := !a.failed.Succeeds?;
    }
  }

  /** The first attempt that brings the job to an end. */
  function FirstEnd(kind: Kind, attempts: seq<Attempt>): Option<Attempt> {
    if attempts == [] then None
    else
      var before, a := FirstEnd(kind, attempts[..|attempts| - 1]), attempts[|attempts| - 1];
      if before.None? && a.Ends(kind) then Some(a) else before
  }

  /**
   * After any attempts a job is terminal if and only if the DONE or the FAILED update of some attempt took effect,
   * whether or not its call returned. The first such attempt decides: the row is FAILED exactly when its FAILED update
   * took effect, and announces the whole answer exactly when its DONE update did, which is possible in both cases. A
   * job that is not terminal is RUNNING once the RUNNING update of any attempt took effect.
   */
  lemma {:induction false} TerminalIffSomeAttemptEnds(task: Task, attempts: seq<Attempt>)
    ensures var row, end := AfterAttempts(task, attempts), FirstEnd(task.kind, attempts);
      && (row.Terminal() <==> exists i :: 0 <= i < |attempts| && attempts[i].Ends(task.kind))
      && (end.Some? <==> row.Terminal())
      && (end.Some? ==>
        && row.status == (if end.value.MarksFailed(task.kind) then FAILED else DONE)
        && row.error == end.value.MarksFailed(task.kind)
        && row.rowCount == (if end.value.MarksDone(task.kind) then Some(|task.Rows()|) else None)
        && row.file == if end.value.MarksDone(task.kind) then Some(task.File()) else None)
      && (end.None? ==>
        row.(status := PENDING) == NEW_JOB
          && (row.status == RUNNING <==> exists i :: 0 <= i < |attempts| && attempts[i].MarksRunning()))
  {
    if attempts != [] {
      var init, a := attempts[..|attempts| - 1], attempts[|attempts| - 1];
      TerminalIffSomeAttemptEnds(task, init);
      assert attempts == init + [a];
      assert (exists i :: 0 <= i < |attempts| && attempts[i].Ends(task.kind)) <==>
        ((exists i :: 0 <= i < |init| && init[i].Ends(task.kind)) || a.Ends(task.kind)) by {
          SomeOfAll(init, a, (x: Attempt) => x.Ends(task.kind));
        }
      assert (exists i :: 0 <= i < |attempts| && attempts[i].MarksRunning()) <==>
        ((exists i :: 0 <= i < |init| && init[i].MarksRunning()) || a.MarksRunning()) by {
          SomeOfAll(init, a, (x: Attempt) => x.MarksRunning());
        }
    }
  }

  /**
   * What a status promises: DONE always announces the whole answer and no error, and FAILED an error and neither file
   * nor count unless the reply of a DONE update was lost.
   */
  lemma WhatAStatusPromises(task: Task, attempts: seq<Attempt>)
    ensures var row := AfterAttempts(task, attempts);
      && (row.status == DONE ==> row == JobRow(DONE, Some(|task.Rows()|), Some(task.File()), false))
      && (row.status == FAILED && (forall a :: a in attempts ==> !a.done.LandsAndThrows?) ==>
            row == JobRow(FAILED, None, None, true))
  {
    TerminalIffSomeAttemptEnds(task, attempts);
    FirstEndIsAnAttempt(task.kind, attempts);
  }

  lemma SomeOfAll(init: seq<Attempt>, a: Attempt, p: Attempt -> bool)
    ensures (exists i :: 0 <= i < |init + [a]| && p((init + [a])[i])) <==>
      ((exists i :: 0 <= i < |init| && p(init[i])) || p(a))
  {
    var all := init + [a];
    if i :| 0 <= i < |init| && p(init[i]) { assert p(all[i]); }
    if p(a) { assert p(all[|init|]); }
  }

  /**
   * An attempt on an open job, update by update. The DONE update is reached exactly when the lookup and the RUNNING
   * update succeeded, the export is of usage events and its file was written and finished; the FAILED update when the
   * RUNNING update succeeded and then anything threw.
   */
  lemma WhatAnAttemptDoes(task: Task, row: JobRow, a: Attempt)
    requires !row.Terminal()
    ensures var next := AfterAttempt(task, row, a);
      var written := a.body == NoFault && task.kind.UsageEvents?;
      && (!a.finds || a.running.Throws? ==> next == row)
      && (a.finds && a.running.LandsAndThrows? ==> next == row.(status := RUNNING))
      && (a.finds && a.running.Succeeds? ==>
            && (next.status == DONE <==> written && !a.done.Throws? && (a.done.Succeeds? || a.failed.Throws?))
            && (next.status == FAILED <==> !(written && a.done.Succeeds?) && !a.failed.Throws?)
            && (next.status != DONE && next.status != FAILED ==> next.status == RUNNING)
            && next.rowCount == (if written && !a.done.Throws? then Some(|task.Rows()|) else row.rowCount)
            && next.file == (if written && !a.done.Throws? then Some(task.File()) else row.file)
            && next.error == (next.status == FAILED || row.error))
  {}

  lemma {:induction false} FirstEndIsAnAttempt(kind: Kind, attempts: seq<Attempt>)
    ensures var end := FirstEnd(kind, attempts);
      end.Some? ==> end.value in attempts && end.value.Ends(kind)
  {
    if attempts != [] { FirstEndIsAnAttempt(kind, attempts[..|attempts| - 1]); }
  }

  lemma OneAttempt(task: Task, a: Attempt)
    ensures AfterAttempts(task, [a]) == AfterAttempt(task, NEW_JOB, a)
  {
    assert [a][..0] == [];
  }

  /**
   * The outage that makes the try block throw makes the FAILED update throw too: both attempts of a job leave it
   * RUNNING.
   */
  lemma OutageLeavesItRunning(task: Task)
    ensures var outage := Attempt(true, Succeeds, Writing, Throws, Throws);
      AfterAttempts(task, [outage, outage]) == JobRow(RUNNING, None, None, false)
  {
    var outage := Attempt(true, Succeeds, Writing, Throws, Throws);
    assert [outage, outage][..1] == [outage];
    OneAttempt(task, outage);
  }

  /** The DONE update takes effect and its reply is lost: the job reads FAILED and announces its finished file. */
  lemma LostReplyFailsAFinishedJob(task: Task)
    requires task.kind.UsageEvents?
    ensures AfterAttempts(task, [Attempt(true, Succeeds, NoFault, LandsAndThrows, Succeeds)]) ==
      JobRow(FAILED, Some(|task.Rows()|), Some(task.File()), true)
  {
    OneAttempt(task, Attempt(true, Succeeds, NoFault, LandsAndThrows, Succeeds));
  }
}
