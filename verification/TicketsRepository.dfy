/** The statements on the tickets table, executed on the database object. */
module TicketsRepository {
  import opened Schema
  import opened TicketTable
  import opened Sql
  import opened StatementBuilders
  import opened DatabaseModel
  import Operations

  method FindById(db: Database, id: int) returns (row: Option<Ticket>)
    ensures row == if Active(db.tickets, id) then Some(db.tickets[id]) else None
  {
    row := if Active(db.tickets, id) then Some(db.tickets[id]) else None;
  }

  method FindByIdAnyState(db: Database, id: int) returns (row: Option<Ticket>)
    ensures row == if id in db.tickets then Some(db.tickets[id]) else None
  {
    row := if id in db.tickets then Some(db.tickets[id]) else None;
  }

  /** INSERT ... RETURNING; a missing assignee violates its foreign key, after the id was drawn. */
  method Create(db: Database, dto: CreateDto) returns (ok: bool, id: int)
    modifies db`tickets, db`nextTicket
    ensures id == old(db.nextTicket)
    ensures ok <==> dto.assignee.Some? ==> dto.assignee.value in db.users
    ensures db.Snapshot() == if ok then Operations.InsertTicket(old(db.Snapshot()), NewRow(dto))
                             else old(db.Snapshot()).(nextTicket := id + 1)
  {
    var cols, params := BuildInsert(dto);
    var row := ExecInsert(cols, params).value;
    id := db.nextTicket;
    db.nextTicket := db.nextTicket + 1;
    ok := row.assignee.Some? ==> row.assignee.value in db.users;
    if ok {
      db.tickets := db.tickets[id := row];
    }
  }

  method UpdateWithVersionCheck(db: Database, id: int, expected: int, p: Patch, resetOverdue: bool)
    returns (row: Option<Ticket>)
    modifies db`tickets
    ensures (db.tickets, row) == TicketTable.UpdateWithVersionCheck(old(db.tickets), id, expected, p, resetOverdue)
  {
    var stmt, params := BuildUpdate(id, expected, p, resetOverdue);
    var result := ExecUpdate(stmt, params, db.tickets).value;
    db.tickets, row := result.0, result.1;
  }

  method SoftDelete(db: Database, id: int) returns (deleted: bool)
    modifies db`tickets
    ensures db.tickets == TicketTable.SoftDelete(old(db.tickets), id) && deleted == Active(old(db.tickets), id)
  {
    deleted := Active(db.tickets, id);
    if deleted {
      db.tickets := db.tickets[id := db.tickets[id].(deleted := true)];
    }
  }

  method Restore(db: Database, id: int) returns (restored: bool)
    modifies db`tickets
    ensures db.tickets == TicketTable.Restore(old(db.tickets), id)
    ensures restored == (id in old(db.tickets) && old(db.tickets)[id].deleted)
  {
    restored := id in db.tickets && db.tickets[id].deleted;
    if restored {
      db.tickets := db.tickets[id := db.tickets[id].(deleted := false)];
    }
  }

  /** The active, unresolved rows due before now, each once, ORDER BY id. */
  method FindOverdueUnresolved(db: Database, now: int) returns (rows: seq<(int, Ticket)>)
    ensures rows == OverdueRows(db.tickets, now, db.nextTicket)
    ensures forall id :: (exists i :: 0 <= i < |rows| && rows[i].0 == id) <==>
              && 0 <= id < db.nextTicket && id in db.tickets && db.tickets[id].dueDate.Some?
              && db.tickets[id].dueDate.value < now && db.tickets[id].status != DONE && !db.tickets[id].deleted
    ensures forall i :: 0 <= i < |rows| ==> rows[i].0 in db.tickets && rows[i].1 == db.tickets[rows[i].0]
    ensures forall i, j :: 0 <= i < j < |rows| ==> rows[i].0 < rows[j].0
  {
    OverdueRowsSpec(db.tickets, now, db.nextTicket);
    OverdueRowOf(db.tickets, now, db.nextTicket);
    rows := [];
    for id := 0 to db.nextTicket
      invariant rows == OverdueRows(db.tickets, now, id)
    {
      if id in db.tickets && Overdue(db.tickets[id], now) {
        rows := rows + [(id, db.tickets[id])];
      }
    }
  }

  method ApplyEscalation(db: Database, id: int, change: Escalation) returns (row: Option<Ticket>)
    modifies db`tickets, db`applied
    ensures (db.tickets, row) == TicketTable.ApplyEscalation(old(db.tickets), id, change)
    ensures row.Some? <==> id in old(db.tickets) && old(db.tickets)[id].status != DONE && !old(db.tickets)[id].deleted
    ensures db.applied == old(db.applied) + if row.Some? then [(id, change)] else []
  {
    row := None;
    if Open(db.tickets, id) {
      row := Some(EscalatedRow(db.tickets[id], change));
      db.tickets, db.applied := db.tickets[id := row.value], db.applied + [(id, change)];
    }
  }

  method CountOpen(db: Database, project: int, user: int) returns (count: nat)
    ensures count == Load(db.tickets, project, user, db.nextTicket)
  {
    count := 0;
    for id := 0 to db.nextTicket
      invariant count == Load(db.tickets, project, user, id)
    {
      if id in db.tickets && Counts(db.tickets[id], project, user) {
        count := count + 1;
      }
    }
  }

  datatype WorkloadRow = WorkloadRow(user: int, username: string, open: nat)

  /** (count, created_at) ascending. */
  ghost predicate Precedes(tickets: Tickets, users: map<int, User>, project: int, bound: nat, u: int, v: int) {
    u in users && v in users &&
    var mine, theirs := Load(tickets, project, u, bound), Load(tickets, project, v, bound);
    mine < theirs || (mine == theirs && users[u].createdAt <= users[v].createdAt)
  }

  /** The next row of the workload query among the given developers. */
  method FirstOf(db: Database, project: int, candidates: set<int>) returns (u: int, open: nat)
    requires (exists c :: c in candidates) && forall c :: c in candidates ==> c in db.users
    ensures u in candidates && open == Load(db.tickets, project, u, db.nextTicket)
    ensures forall c :: c in candidates ==> Precedes(db.tickets, db.users, project, db.nextTicket, u, c)
  {
    u :| u in candidates;
    open := CountOpen(db, project, u);
    var rest := candidates - {u};
    while exists x :: x in rest
      invariant rest <= candidates && u in candidates && open == Load(db.tickets, project, u, db.nextTicket)
      invariant forall c :: c in candidates && c !in rest ==>
                  Precedes(db.tickets, db.users, project, db.nextTicket, u, c)
      decreases rest
    {
      var c :| c in rest;
      var n := CountOpen(db, project, c);
      if n < open || (n == open && db.users[c].createdAt < db.users[u].createdAt) {
        u, open := c, n;
      }
      rest := rest - {c};
    }
  }

  /** The row the query shows for a user. */
  ghost predicate RowFor(db: Database, project: int, row: WorkloadRow)
    reads db
  {
    row.user in db.users && row.username == db.users[row.user].username
    && row.open == Load(db.tickets, project, row.user, db.nextTicket)
  }

  ghost predicate ListedIn(rows: seq<WorkloadRow>, u: int) {
    exists i :: 0 <= i < |rows| && rows[i].user == u
  }

  /** Every developer once, with the number of tickets of the project assigned to them that are neither DONE nor
      deleted; fewest first, then earliest registered. */
  method WorkloadByProject(db: Database, project: int) returns (rows: seq<WorkloadRow>)
    ensures forall u :: u in db.users && db.users[u].role == DEVELOPER <==> ListedIn(rows, u)
    ensures forall i :: 0 <= i < |rows| ==>
      && rows[i].user in db.users && rows[i].username == db.users[rows[i].user].username
      && rows[i].open == |set id | id in db.tickets && 0 <= id < db.nextTicket
                                   && db.tickets[id].assignee == Some(rows[i].user)
                                   && db.tickets[id].project == project
                                   && db.tickets[id].status != DONE && db.tickets[id].deleted == false|
    ensures forall i, j :: 0 <= i < j < |rows| ==>
      && rows[i].user != rows[j].user && rows[i].user in db.users && rows[j].user in db.users
      && (rows[i].open < rows[j].open
          || (rows[i].open == rows[j].open
              && db.users[rows[i].user].createdAt <= db.users[rows[j].user].createdAt))
    ensures forall i :: 0 <= i < |rows| ==> RowFor(db, project, rows[i])
  {
    rows := [];
    var rest := set u | u in db.users && db.users[u].role == DEVELOPER;
    while exists x :: x in rest
      invariant forall u :: u in rest ==> IsDeveloper(db.users, u) && !ListedIn(rows, u)
      invariant forall u :: IsDeveloper(db.users, u) <==> u in rest || ListedIn(rows, u)
      invariant forall i :: 0 <= i < |rows| ==> RowFor(db, project, rows[i])
      invariant forall i, j :: 0 <= i < j < |rows| ==>
        rows[i].user != rows[j].user
        && Precedes(db.tickets, db.users, project, db.nextTicket, rows[i].user, rows[j].user)
      invariant forall i, c :: 0 <= i < |rows| && c in rest ==>
        Precedes(db.tickets, db.users, project, db.nextTicket, rows[i].user, c)
      decreases rest
    {
      var u, open := FirstOf(db, project, rest);
      var row := WorkloadRow(u, db.users[u].username, open);
      ghost var before := rows;
      rows := rows + [row];
      forall v
        ensures ListedIn(rows, v) <==> ListedIn(before, v) || v == u
      {
        assert forall i :: 0 <= i < |before| ==> rows[i] == before[i];
        assert rows[|before|].user == u;
      }
      rest := rest - {u};
    }
    forall i | 0 <= i < |rows|
      ensures rows[i].open == |CountedIds(db.tickets, project, rows[i].user, db.nextTicket)|
    {
      LoadCounts(db.tickets, project, rows[i].user, db.nextTicket);
    }
  }
}
