/** Import and export of a project's tickets as CSV records, and what they promise together. */
module CsvServices {
  import opened Schema
  import opened TicketTable
  import opened Operations
  import opened Csv
  import opened CsvLaws
  import opened DatabaseModel
  import TicketsRepository

  // ----- import -----

  /** The body of the per-row try: validate, then insert. */
  method ImportOne(db: Database, js: Runtime, raw: Record, project: int) returns (error: Option<RowError>)
    modifies db`tickets, db`nextTicket
    ensures (db.Snapshot(), error) == ImportRow(old(db.Snapshot()), js, raw, project)
  {
    match ValidateRow(js, raw, project) {
      case Invalid(e) =>
        NeverInsertFailed(js, raw, project);
        error := Some(e);
      case Valid(dto) =>
        var ok, id := TicketsRepository.Create(db, dto);
        error := if ok then None else Some(InsertFailed);
    }
  }

  lemma NeverInsertFailed(js: Runtime, raw: Record, project: int)
    ensures ValidateRow(js, raw, project) != Invalid(InsertFailed)
  {
  }

  lemma ImportSnoc(s: State, js: Runtime, rows: seq<Record>, i: nat, project: int)
    requires i < |rows|
    ensures var r := ImportRows(s, js, rows[..i], project);
            var (next, error) := ImportRow(r.state, js, rows[i], project);
            ImportRows(s, js, rows[..i + 1], project)
            == if error.Some? then ImportResult(next, r.created, r.errors + [(i + 1, error.value)])
               else ImportResult(next, r.created + [r.state.nextTicket], r.errors)
  {
    assert rows[..i + 1][..i] == rows[..i];
  }

  /** Row by row: a bad row is recorded and the batch goes on. */
  method ImportBatch(db: Database, js: Runtime, project: int, rows: seq<Record>)
    returns (created: nat, failed: nat, errors: seq<(nat, RowError)>)
    modifies db`tickets, db`nextTicket
    ensures var r := ImportRows(old(db.Snapshot()), js, rows, project);
            db.Snapshot() == r.state && created == |r.created| && failed == |r.errors| && errors == r.errors
  {
    created, failed, errors := 0, 0, [];
    ghost var s := db.Snapshot();
    ghost var r := ImportRows(s, js, rows[..0], project);
    for i := 0 to |rows|
      invariant r == ImportRows(s, js, rows[..i], project)
      invariant db.Snapshot() == r.state && created == |r.created| && failed == |r.errors| && errors == r.errors
    {
      ImportSnoc(s, js, rows, i, project);
      var rowNumber := i + 1;
      var error := ImportOne(db, js, rows[i], project);
      if error.None? {
        created := created + 1;
      } else {
        failed := failed + 1;
        errors := errors + [(rowNumber, error.value)];
      }
      r := ImportRows(s, js, rows[..i + 1], project);
    }
    assert rows[..|rows|] == rows;
  }

  /** CsvImportService.importIntoProject; records is None when the text does not parse. */
  method ImportIntoProject(db: Database, js: Runtime, project: int, records: Option<seq<Record>>, who: int)
    returns (r: Result<ImportSummary>)
    modifies db
    ensures (db.Snapshot(), r) == ImportCsv(old(db.Snapshot()), js, project, records, who)
  {
    if project !in db.projects {
      return Err(NotFound);
    }
    if records.None? {
      return Err(BadRequest);
    }
    var created, failed, errors := ImportBatch(db, js, project, records.value);
    db.Log(Entry(CREATE, PROJECT, project, Some(who), USER_ACTOR, CsvImported(created, failed)));
    r := Ok(ImportSummary(created, failed, errors));
  }

  // ----- export -----

  /** Active tickets of the project below bound, ORDER BY id. */
  function ProjectRows(tickets: Tickets, project: int, bound: nat): seq<(nat, Ticket)> {
    if bound == 0 then []
    else ProjectRows(tickets, project, bound - 1)
         + if Active(tickets, bound - 1) && tickets[bound - 1].project == project
           then [(bound - 1, tickets[bound - 1])]
           else []
  }

  /** User ids are positive, so an assignee cell is a plain decimal number. */
  ghost predicate PositiveAssignees(tickets: Tickets) {
    forall id :: id in tickets && tickets[id].assignee.Some? ==> tickets[id].assignee.value >= 1
  }

  ghost predicate PositiveRows(rows: seq<(nat, Ticket)>) {
    forall i :: 0 <= i < |rows| && rows[i].1.assignee.Some? ==> rows[i].1.assignee.value >= 1
  }

  function Records(rows: seq<(nat, Ticket)>): (records: seq<Record>)
    requires PositiveRows(rows)
    ensures |records| == |rows| && forall i :: 0 <= i < |rows| ==> records[i] == ExportRecord(rows[i].0, rows[i].1)
  {
    seq(|rows|, i requires 0 <= i < |rows| => ExportRecord(rows[i].0, rows[i].1))
  }

  lemma {:induction false} ProjectRowsPositive(tickets: Tickets, project: int, bound: nat)
    requires PositiveAssignees(tickets)
    ensures PositiveRows(ProjectRows(tickets, project, bound))
  {
    if bound > 0 {
      ProjectRowsPositive(tickets, project, bound - 1);
    }
  }

  /** The export lists every active ticket of the project below the bound once, in increasing id order, and
      nothing else. */
  lemma {:induction false} ProjectRowsSpec(tickets: Tickets, project: int, bound: nat)
    ensures var rows := ProjectRows(tickets, project, bound);
            && (forall id: nat :: id < bound && id in tickets && !tickets[id].deleted && tickets[id].project == project
                  ==> (id, tickets[id]) in rows)
            && (forall row :: row in rows ==>
                  && row.0 < bound && row.0 in tickets && row.1 == tickets[row.0]
                  && !row.1.deleted && row.1.project == project)
            && (forall i, j :: 0 <= i < j < |rows| ==> rows[i].0 < rows[j].0)
  {
    if bound > 0 {
      ProjectRowsSpec(tickets, project, bound - 1);
      var rest := ProjectRows(tickets, project, bound - 1);
      forall i | 0 <= i < |rest|
        ensures rest[i].0 < bound - 1
      {
        assert rest[i] in rest;
      }
    }
  }

  method ExportProject(db: Database, project: int) returns (r: Result<seq<Record>>)
    requires PositiveAssignees(db.tickets)
    ensures project !in db.projects ==> r == Err(NotFound)
    ensures project in db.projects ==>
      PositiveRows(ProjectRows(db.tickets, project, db.nextTicket))
      && r == Ok(Records(ProjectRows(db.tickets, project, db.nextTicket)))
  {
    if project !in db.projects {
      return Err(NotFound);
    }
    var rows: seq<(nat, Ticket)> := [];
    for id := 0 to db.nextTicket
      invariant rows == ProjectRows(db.tickets, project, id)
    {
      if Active(db.tickets, id) && db.tickets[id].project == project {
        rows := rows + [(id, db.tickets[id])];
      }
    }
    ProjectRowsPositive(db.tickets, project, db.nextTicket);
    r := Ok(Records(rows));
  }

  // ----- laws of the import loop -----

  /** What each row, taken by itself, comes to. */
  function Checks(users: map<int, User>, js: Runtime, records: seq<Record>, project: int): (checks: seq<RowResult>)
    ensures |checks| == |records|
    ensures forall i :: 0 <= i < |records| ==> checks[i] == CheckRow(users, js, records[i], project)
  {
    seq(|records|, i requires 0 <= i < |records| => CheckRow(users, js, records[i], project))
  }

  /** The inputs of the rows that pass, in order. */
  function Passed(checks: seq<RowResult>): seq<CreateDto> {
    if checks == [] then []
    else
      var last := checks[|checks| - 1];
      Passed(checks[..|checks| - 1]) + if last.Valid? then [last.dto] else []
  }

  /** The rows that fail, counted from 1, with their problems, in order. */
  function Failures(checks: seq<RowResult>): seq<(nat, RowError)> {
    if checks == [] then []
    else
      var last := checks[|checks| - 1];
      Failures(checks[..|checks| - 1]) + if last.Invalid? then [(|checks|, last.error)] else []
  }

  ghost predicate Reported(errors: seq<(nat, RowError)>, row: nat) {
    exists k :: 0 <= k < |errors| && errors[k].0 == row
  }

  /** Exactly the failing rows are reported, each with its first problem, in increasing row number. */
  ghost predicate ExactErrors(checks: seq<RowResult>, errors: seq<(nat, RowError)>) {
    && (forall k :: 0 <= k < |errors| ==>
          1 <= errors[k].0 <= |checks| && checks[errors[k].0 - 1] == Invalid(errors[k].1))
    && (forall k, l :: 0 <= k < l < |errors| ==> errors[k].0 < errors[l].0)
    && (forall i :: 0 <= i < |checks| && checks[i].Invalid? ==> Reported(errors, i + 1))
  }

  lemma ReportedMore(errors: seq<(nat, RowError)>, more: seq<(nat, RowError)>, row: nat)
    requires Reported(errors, row)
    ensures Reported(errors + more, row)
  {
    var k :| 0 <= k < |errors| && errors[k].0 == row;
    assert (errors + more)[k].0 == row;
  }

  lemma {:induction false} FailuresExact(checks: seq<RowResult>)
    ensures ExactErrors(checks, Failures(checks)) && |Passed(checks)| + |Failures(checks)| == |checks|
  {
    if checks != [] {
      FailuresExact(checks[..|checks| - 1]);
      ExactSnoc(checks, Failures(checks[..|checks| - 1]));
    }
  }

  lemma ExactSnoc(checks: seq<RowResult>, earlier: seq<(nat, RowError)>)
    requires checks != [] && ExactErrors(checks[..|checks| - 1], earlier)
    ensures var last := checks[|checks| - 1];
            ExactErrors(checks, earlier + if last.Invalid? then [(|checks|, last.error)] else [])
  {
    var n := |checks| - 1;
    var more := if checks[n].Invalid? then [(|checks|, checks[n].error)] else [];
    forall i | 0 <= i < |checks| && checks[i].Invalid?
      ensures Reported(earlier + more, i + 1)
    {
      if i < n {
        assert checks[..n][i].Invalid?;
        ReportedMore(earlier, more, i + 1);
      } else {
        assert (earlier + more)[|earlier|].0 == i + 1;
      }
    }
  }

  /** The tickets with the given ids are new and are exactly the given inputs with column defaults, in order. */
  ghost predicate Inserted(s: State, after: State, ids: seq<int>, dtos: seq<CreateDto>) {
    && |ids| == |dtos|
    && (forall j :: 0 <= j < |ids| ==> s.nextTicket <= ids[j] < after.nextTicket
                                       && ids[j] in after.tickets && after.tickets[ids[j]] == NewRow(dtos[j]))
    && (forall i, j :: 0 <= i < j < |ids| ==> ids[i] < ids[j])
    && (forall id :: id in s.tickets ==> id in after.tickets && after.tickets[id] == s.tickets[id])
    && (forall id :: id in after.tickets ==> id in s.tickets || id in ids)
    && s.nextTicket <= after.nextTicket && after.users == s.users
    && (forall id :: id in after.tickets ==> id < after.nextTicket)
  }

  lemma InsertedSnoc(s: State, mid: State, ids: seq<int>, dtos: seq<CreateDto>, dto: CreateDto)
    requires Inserted(s, mid, ids, dtos)
    ensures Inserted(s, InsertTicket(mid, NewRow(dto)), ids + [mid.nextTicket], dtos + [dto])
  {
    var after, ids' := InsertTicket(mid, NewRow(dto)), ids + [mid.nextTicket];
    forall id | id in after.tickets
      ensures id in s.tickets || id in ids'
    {
      if id == mid.nextTicket {
        assert ids'[|ids|] == id;
      } else if id !in s.tickets {
        assert id in ids;
        var j :| 0 <= j < |ids| && ids[j] == id;
        assert ids'[j] == id;
      }
    }
  }

  /** A result agrees with the checks of the rows handled so far. */
  ghost predicate Follows(s: State, r: ImportResult, checks: seq<RowResult>) {
    Inserted(s, r.state, r.created, Passed(checks)) && r.errors == Failures(checks)
  }

  lemma FollowsInsert(s: State, r: ImportResult, checks: seq<RowResult>, checked: RowResult, next: ImportResult)
    requires Follows(s, r, checks)
    requires var (state, error) := InsertChecked(r.state, checked);
             next == if error.Some? then ImportResult(state, r.created, r.errors + [(|checks| + 1, error.value)])
                     else ImportResult(state, r.created + [r.state.nextTicket], r.errors)
    ensures Follows(s, next, checks + [checked])
  {
    assert (checks + [checked])[..|checks|] == checks;
    if checked.Valid? {
      InsertedSnoc(s, r.state, r.created, Passed(checks), checked.dto);
    }
  }

  lemma ChecksSnoc(users: map<int, User>, js: Runtime, records: seq<Record>, project: int)
    requires records != []
    ensures var n := |records| - 1;
            Checks(users, js, records, project)
            == Checks(users, js, records[..n], project) + [CheckRow(users, js, records[n], project)]
  {
  }

  lemma {:induction false} ImportFollowsChecks(s: State, js: Runtime, records: seq<Record>, project: int)
    requires forall id :: id in s.tickets ==> id < s.nextTicket
    ensures Follows(s, ImportRows(s, js, records, project), Checks(s.users, js, records, project))
  {
    if records != [] {
      var n := |records| - 1;
      ImportFollowsChecks(s, js, records[..n], project);
      var r, checks := ImportRows(s, js, records[..n], project), Checks(s.users, js, records[..n], project);
      var checked := CheckRow(s.users, js, records[n], project);
      assert ImportRow(r.state, js, records[n], project) == InsertChecked(r.state, checked);
      ChecksSnoc(s.users, js, records, project);
      FollowsInsert(s, r, checks, checked, ImportRows(s, js, records, project));
    }
  }

  /** The passing rows among the first n. */
  ghost function ValidBefore(checks: seq<RowResult>, n: nat): set<nat>
    requires n <= |checks|
  {
    set i: nat | i < n && checks[i].Valid?
  }

  lemma {:induction false} PassedCounts(checks: seq<RowResult>, n: nat)
    requires n <= |checks|
    ensures |Passed(checks[..n])| == |ValidBefore(checks, n)|
  {
    if n == 0 {
      assert ValidBefore(checks, 0) == {};
    } else {
      PassedCounts(checks, n - 1);
      assert checks[..n][..n - 1] == checks[..n - 1];
      var more, fewer := ValidBefore(checks, n), ValidBefore(checks, n - 1);
      if checks[n - 1].Valid? {
        assert more - {n - 1} == fewer && n - 1 in more;
      } else {
        assert more == fewer;
      }
    }
  }

  lemma {:induction false} PassedGrows(checks: seq<RowResult>, n: nat)
    requires n <= |checks|
    ensures Passed(checks[..n]) <= Passed(checks)
    decreases |checks| - n
  {
    if n < |checks| {
      PassedGrows(checks, n + 1);
      assert checks[..n + 1][..n] == checks[..n];
    } else {
      assert checks[..n] == checks;
    }
  }

  /** The input of a passing row comes after those of the passing rows before it. */
  lemma PassedAt(checks: seq<RowResult>, i: nat)
    requires i < |checks| && checks[i].Valid?
    ensures var j := |ValidBefore(checks, i)|; j < |Passed(checks)| && Passed(checks)[j] == checks[i].dto
  {
    PassedCounts(checks, i);
    PassedGrows(checks, i + 1);
    assert checks[..i + 1][..i] == checks[..i];
  }

  /** The acceptable rows among the first n. */
  ghost function AcceptableBefore(users: map<int, User>, js: Runtime, records: seq<Record>, n: nat): set<nat>
    requires n <= |records|
  {
    set i: nat | i < n && Acceptable(users, js, records[i])
  }

  lemma AcceptablePass(users: map<int, User>, js: Runtime, records: seq<Record>, project: int, n: nat)
    requires n <= |records|
    ensures AcceptableBefore(users, js, records, n) == ValidBefore(Checks(users, js, records, project), n)
  {
    var checks := Checks(users, js, records, project);
    forall i: nat | i < n
      ensures checks[i].Valid? <==> Acceptable(users, js, records[i])
    {
      AcceptedExactly(users, js, records[i], project);
    }
  }

  /** The ticket of an acceptable row. */
  lemma TicketOfRow(s: State, js: Runtime, records: seq<Record>, project: int, i: nat)
    requires forall id :: id in s.tickets ==> id < s.nextTicket
    requires i < |records| && Acceptable(s.users, js, records[i])
    ensures var r, j := ImportRows(s, js, records, project), |AcceptableBefore(s.users, js, records, i)|;
            && j < |r.created| && r.created[j] in r.state.tickets
            && Becomes(js, records[i], project, r.state.tickets[r.created[j]])
  {
    var checks := Checks(s.users, js, records, project);
    AcceptedExactly(s.users, js, records[i], project);
    AcceptedBecomes(s.users, js, records[i], project);
    AcceptablePass(s.users, js, records, project, i);
    PassedAt(checks, i);
    ImportFollowsChecks(s, js, records, project);
  }

  lemma FailingReported(checks: seq<RowResult>, i: nat)
    requires i < |checks|
    ensures Reported(Failures(checks), i + 1) <==> checks[i].Invalid?
  {
    var errors := Failures(checks);
    FailuresExact(checks);
    if Reported(errors, i + 1) {
      var k :| 0 <= k < |errors| && errors[k].0 == i + 1;
      assert checks[errors[k].0 - 1] == Invalid(errors[k].1);
    }
  }

  /** The report of a row. */
  lemma ReportOfRow(s: State, js: Runtime, records: seq<Record>, project: int, i: nat)
    requires forall id :: id in s.tickets ==> id < s.nextTicket
    requires i < |records|
    ensures Reported(ImportRows(s, js, records, project).errors, i + 1) <==> !Acceptable(s.users, js, records[i])
  {
    ImportFollowsChecks(s, js, records, project);
    FailingReported(Checks(s.users, js, records, project), i);
    AcceptedExactly(s.users, js, records[i], project);
  }

  lemma ProblemOfRow(s: State, js: Runtime, records: seq<Record>, project: int, k: nat)
    requires forall id :: id in s.tickets ==> id < s.nextTicket
    requires k < |ImportRows(s, js, records, project).errors|
    ensures var e := ImportRows(s, js, records, project).errors[k];
            1 <= e.0 <= |records| && FirstProblem(s.users, js, records[e.0 - 1], e.1)
  {
    var checks := Checks(s.users, js, records, project);
    ImportFollowsChecks(s, js, records, project);
    FailuresExact(checks);
    RefusedFor(s.users, js, records[ImportRows(s, js, records, project).errors[k].0 - 1], project);
  }

  /** The tickets with these ids are new, in increasing order; every other row is as it was. */
  ghost predicate OnlyAdded(s: State, after: State, ids: seq<int>) {
    && (forall j :: 0 <= j < |ids| ==> ids[j] in after.tickets && ids[j] !in s.tickets)
    && (forall i, j :: 0 <= i < j < |ids| ==> ids[i] < ids[j])
    && (forall id :: id in s.tickets ==> id in after.tickets && after.tickets[id] == s.tickets[id])
    && (forall id :: id in after.tickets ==> id in s.tickets || id in ids)
  }

  lemma ImportShape(s: State, js: Runtime, records: seq<Record>, project: int)
    requires forall id :: id in s.tickets ==> id < s.nextTicket
    ensures var r := ImportRows(s, js, records, project);
            && |r.created| + |r.errors| == |records|
            && |r.created| == |AcceptableBefore(s.users, js, records, |records|)|
            && OnlyAdded(s, r.state, r.created)
            && forall k, l :: 0 <= k < l < |r.errors| ==> r.errors[k].0 < r.errors[l].0
  {
    var checks := Checks(s.users, js, records, project);
    ImportFollowsChecks(s, js, records, project);
    FailuresExact(checks);
    PassedCounts(checks, |records|);
    AcceptablePass(s.users, js, records, project, |records|);
    assert checks[..|records|] == checks;
  }

  /** created + failed = n; the tickets created are exactly those of the acceptable rows, in order, with what
      their cells say; exactly the other rows are reported, each with its first problem, in increasing row
      number; no other ticket changes. */
  lemma ImportIsExact(s: State, js: Runtime, records: seq<Record>, project: int)
    requires forall id :: id in s.tickets ==> id < s.nextTicket
    ensures var r := ImportRows(s, js, records, project);
            && |r.created| + |r.errors| == |records|
            && |r.created| == |AcceptableBefore(s.users, js, records, |records|)|
            && OnlyAdded(s, r.state, r.created)
            && (forall i: nat :: i < |records| && Acceptable(s.users, js, records[i]) ==>
                  var j := |AcceptableBefore(s.users, js, records, i)|;
                  j < |r.created| && r.created[j] in r.state.tickets
                  && Becomes(js, records[i], project, r.state.tickets[r.created[j]]))
            && (forall i: nat :: i < |records| ==>
                  (Reported(r.errors, i + 1) <==> !Acceptable(s.users, js, records[i])))
            && (forall k :: 0 <= k < |r.errors| ==>
                  && 1 <= r.errors[k].0 <= |records|
                  && FirstProblem(s.users, js, records[r.errors[k].0 - 1], r.errors[k].1))
            && (forall k, l :: 0 <= k < l < |r.errors| ==> r.errors[k].0 < r.errors[l].0)
  {
    ImportShape(s, js, records, project);
    forall i: nat | i < |records| && Acceptable(s.users, js, records[i]) {
      TicketOfRow(s, js, records, project, i);
    }
    forall i: nat | i < |records| {
      ReportOfRow(s, js, records, project, i);
    }
    forall k: nat | k < |ImportRows(s, js, records, project).errors| {
      ProblemOfRow(s, js, records, project, k);
    }
  }

  ghost predicate OnlyTickets(s: State, after: State) {
    after == s.(tickets := after.tickets, nextTicket := after.nextTicket)
  }

  lemma InsertTouchesTickets(s: State, mid: State, checked: RowResult)
    requires OnlyTickets(s, mid)
    ensures OnlyTickets(s, InsertChecked(mid, checked).0)
  {
  }

  lemma {:induction false} RowsTouchTickets(s: State, js: Runtime, records: seq<Record>, project: int)
    ensures OnlyTickets(s, ImportRows(s, js, records, project).state)
  {
    if records != [] {
      var n := |records| - 1;
      RowsTouchTickets(s, js, records[..n], project);
      var mid := ImportRows(s, js, records[..n], project).state;
      InsertTouchesTickets(s, mid, CheckRow(mid.users, js, records[n], project));
    }
  }

  /** 404 for a project that is not there, 400 for a text that does not parse; otherwise the answer is the tally
      of the rows, and one entry with the two counts is logged for the project. */
  lemma ImportAnswers(s: State, js: Runtime, project: int, records: Option<seq<Record>>, who: int)
    requires s.outages == []
    ensures var (after, r) := ImportCsv(s, js, project, records, who);
            if project !in s.projects then (after, r) == (s, Err(NotFound))
            else if records.None? then (after, r) == (s, Err(BadRequest))
            else
              var rows := ImportRows(s, js, records.value, project);
              var created, failed := |rows.created|, |rows.errors|;
              && r == Ok(ImportSummary(created, failed, rows.errors))
              && after == s.(tickets := rows.state.tickets, nextTicket := rows.state.nextTicket,
                             log := s.log + [Entry(CREATE, PROJECT, project, Some(who), USER_ACTOR,
                                                   CsvImported(created, failed))])
  {
    if records.Some? {
      RowsTouchTickets(s, js, records.value, project);
    }
  }

  // ----- round trip -----

  /** A list of tickets an export can carry to any project of the same database without loss. */
  ghost predicate Portable(rows: seq<(nat, Ticket)>, users: map<int, User>) {
    forall i :: 0 <= i < |rows| ==>
      Exportable(rows[i].1) && (rows[i].1.assignee.Some? ==> rows[i].1.assignee.value in users)
  }

  lemma {:induction false} AllPass(checks: seq<RowResult>)
    requires forall i :: 0 <= i < |checks| ==> checks[i].Valid?
    ensures Failures(checks) == [] && |Passed(checks)| == |checks|
    ensures forall i :: 0 <= i < |checks| ==> Passed(checks)[i] == checks[i].dto
  {
    if checks != [] {
      AllPass(checks[..|checks| - 1]);
    }
  }

  lemma ExportedRowPasses(users: map<int, User>, js: Runtime, rows: seq<(nat, Ticket)>, project: int, i: nat)
    requires i < |rows| && Portable(rows, users) && PositiveRows(rows)
    ensures Checks(users, js, Records(rows), project)[i] == Valid(Reimported(rows[i].1, project))
  {
    RecordRoundTrip(js, rows[i].0, rows[i].1, project);
  }

  /** Equal in everything a record carries; absent and empty descriptions are identified. */
  predicate SameRecord(t: Ticket, u: Ticket) {
    u.title == t.title && u.description.GetOr("") == t.description.GetOr("") && u.status == t.status
    && u.priority == t.priority && u.kind == t.kind && u.assignee == t.assignee
  }

  lemma CopyIsSameRecord(t: Ticket, project: int)
    ensures SameRecord(t, NewRow(Reimported(t, project))) && NewRow(Reimported(t, project)).project == project
  {
  }

  /** The i-th created ticket is new, in the project, and a copy of the i-th row. */
  ghost predicate CopiesInOrder(s: State, r: ImportResult, rows: seq<(nat, Ticket)>, project: int) {
    |r.created| == |rows| &&
    forall i :: 0 <= i < |rows| ==>
      r.created[i] in r.state.tickets && r.created[i] !in s.tickets
      && SameRecord(rows[i].1, r.state.tickets[r.created[i]]) && r.state.tickets[r.created[i]].project == project
  }

  /** Importing the exported records of any portable list of tickets fails nowhere and creates, in order,
      tickets equal to them. */
  lemma ExportImportRoundTrip(s: State, js: Runtime, rows: seq<(nat, Ticket)>, project: int)
    requires Portable(rows, s.users) && forall id :: id in s.tickets ==> id < s.nextTicket
    ensures PositiveRows(rows)
    ensures var r := ImportRows(s, js, Records(rows), project);
            r.errors == [] && CopiesInOrder(s, r, rows, project)
  {
    var checks := Checks(s.users, js, Records(rows), project);
    forall i: nat | i < |rows|
      ensures checks[i] == Valid(Reimported(rows[i].1, project))
    {
      ExportedRowPasses(s.users, js, rows, project, i);
    }
    AllPass(checks);
    ImportFollowsChecks(s, js, Records(rows), project);
    forall i | 0 <= i < |rows|
      ensures var r := ImportRows(s, js, Records(rows), project);
              r.state.tickets[r.created[i]] == NewRow(Reimported(rows[i].1, project))
    {
      assert Passed(checks)[i] == checks[i].dto;
    }
    forall i | 0 <= i < |rows| {
      CopyIsSameRecord(rows[i].1, project);
    }
  }
}
