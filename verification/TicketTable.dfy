/** What each statement of the tickets and dependencies repositories does to its table. */
module TicketTable {
  import opened Schema
  import opened Graph

  type Tickets = map<int, Ticket>

  /** INSERT with the column defaults: TODO, MEDIUM, not overdue, version 1. */
  function NewRow(dto: CreateDto): Ticket {
    Ticket(dto.title, dto.description, dto.status.GetOr(TODO), dto.priority.GetOr(MEDIUM), dto.kind,
           dto.project, dto.assignee, dto.dueDate, false, 1, false)
  }

  /** The row with the supplied columns overwritten. */
  function Merge(t: Ticket, p: Patch): Ticket {
    t.(title := p.title.GetOr(t.title),
       description := if p.description.Some? then p.description else t.description,
       status := p.status.GetOr(t.status),
       priority := p.priority.GetOr(t.priority),
       assignee := if p.assignee.Some? then p.assignee else t.assignee,
       dueDate := if p.dueDate.Some? then p.dueDate else t.dueDate)
  }

  /** The row a committed client write leaves. */
  function Patched(t: Ticket, p: Patch, resetOverdue: bool): Ticket {
    Merge(t, p).(isOverdue := !resetOverdue && t.isOverdue, version := t.version + 1)
  }

  /** UPDATE ... WHERE id AND version AND deleted_at IS NULL RETURNING. */
  function UpdateWithVersionCheck(tickets: Tickets, id: int, expected: int, p: Patch, resetOverdue: bool)
    : (Tickets, Option<Ticket>)
  {
    if Active(tickets, id) && tickets[id].version == expected then
      var row := Patched(tickets[id], p, resetOverdue);
      (tickets[id := row], Some(row))
    else (tickets, None)
  }

  /** What an update checks on the row it read: DONE is terminal, and the status only moves forward. */
  function ReadError(before: Ticket, p: Patch): Option<Error> {
    if before.status == DONE then Some(Conflict)
    else if p.status.Some? && StatusRank(p.status.value) < StatusRank(before.status) then Some(BadRequest)
    else None
  }

  function SoftDelete(tickets: Tickets, id: int): Tickets {
    if Active(tickets, id) then tickets[id := tickets[id].(deleted := true)] else tickets
  }

  function Restore(tickets: Tickets, id: int): Tickets {
    if id in tickets && tickets[id].deleted then tickets[id := tickets[id].(deleted := false)] else tickets
  }

  /** ON DELETE SET NULL on tickets.assignee_id; versions do not move. */
  function ClearAssignee(tickets: Tickets, user: int): Tickets {
    map id | id in tickets ::
      if tickets[id].assignee == Some(user) then tickets[id].(assignee := None) else tickets[id]
  }

  predicate IsDone(tickets: Tickets, id: int) {
    id in tickets && tickets[id].status == DONE
  }

  predicate PastDue(t: Ticket, now: int) {
    t.dueDate.Some? && t.dueDate.value < now
  }

  /** Every flagged ticket has a due date before now. */
  ghost predicate FlagsPastDue(tickets: Tickets, now: int) {
    forall id :: id in tickets && tickets[id].isOverdue ==> PastDue(tickets[id], now)
  }

  ghost predicate OverdueIsCritical(tickets: Tickets) {
    forall id :: id in tickets && tickets[id].isOverdue ==> tickets[id].priority == CRITICAL
  }

  // ----- escalation statements -----

  datatype Escalation = Promote(newPriority: Priority) | MarkOverdue

  function EscalatedRow(t: Ticket, change: Escalation): Ticket {
    match change
    case Promote(p) => t.(priority := p, version := t.version + 1)
    case MarkOverdue => t.(isOverdue := true, version := t.version + 1)
  }

  /** UPDATE ... WHERE id AND status <> 'DONE' AND deleted_at IS NULL: no version check. */
  function ApplyEscalation(tickets: Tickets, id: int, change: Escalation): (Tickets, Option<Ticket>) {
    if Open(tickets, id) then
      var row := EscalatedRow(tickets[id], change);
      (tickets[id := row], Some(row))
    else (tickets, None)
  }

  /** One level up PRIORITY_LADDER; CRITICAL stays. */
  function NextPriority(p: Priority): Priority {
    match p
    case LOW => MEDIUM
    case MEDIUM => HIGH
    case HIGH => CRITICAL
    case CRITICAL => CRITICAL
  }

  predicate Overdue(t: Ticket, now: int) {
    PastDue(t, now) && t.status != DONE && !t.deleted
  }

  /** The escalation scan over ids below bound, ORDER BY id ASC. */
  function OverdueRows(tickets: Tickets, now: int, bound: nat): seq<(int, Ticket)> {
    if bound == 0 then []
    else
      var rest := OverdueRows(tickets, now, bound - 1);
      if bound - 1 in tickets && Overdue(tickets[bound - 1], now)
      then rest + [(bound - 1, tickets[bound - 1])]
      else rest
  }

  /** What the service decides to do about one scanned row; None when it is flagged already. */
  function Decision(scanned: Ticket): Option<Escalation> {
    if scanned.priority != CRITICAL then Some(Promote(NextPriority(scanned.priority)))
    else if !scanned.isOverdue then Some(MarkOverdue)
    else None
  }

  // ----- dependency statements -----

  /** The blockers countUnresolvedBlockers counts: active and not DONE. */
  function Unresolved(tickets: Tickets, deps: Edges, id: int): set<int> {
    set e | e in deps && e.0 == id && Open(tickets, e.1) :: e.1
  }

  function BlockerIds(deps: Edges, id: int): set<int> {
    set e | e in deps && e.0 == id :: e.1
  }

  // ----- workload -----

  predicate Counts(t: Ticket, project: int, user: int) {
    t.assignee == Some(user) && t.project == project && t.status != DONE && !t.deleted
  }

  /** COUNT(t.id) of the workload query over ids below bound. */
  function Load(tickets: Tickets, project: int, user: int, bound: nat): nat {
    if bound == 0 then 0
    else Load(tickets, project, user, bound - 1)
         + if bound - 1 in tickets && Counts(tickets[bound - 1], project, user) then 1 else 0
  }

  predicate IsDeveloper(users: map<int, User>, u: int) {
    u in users && users[u].role == DEVELOPER
  }

  /** The workload query may list u first: fewest open tickets, then earliest registration.
      Developers that tie on both come in no defined order. */
  ghost predicate FirstInWorkload(tickets: Tickets, users: map<int, User>, project: int, bound: nat, u: int) {
    IsDeveloper(users, u)
    && forall v :: IsDeveloper(users, v) ==>
      var mine, theirs := Load(tickets, project, u, bound), Load(tickets, project, v, bound);
      mine < theirs || (mine == theirs && users[u].createdAt <= users[v].createdAt)
  }

  lemma {:induction false} OverdueRowsMember(tickets: Tickets, now: int, bound: nat, i: nat)
    requires i < |OverdueRows(tickets, now, bound)|
    ensures var row := OverdueRows(tickets, now, bound)[i];
            0 <= row.0 < bound && row.0 in tickets && row.1 == tickets[row.0] && Overdue(row.1, now)
  {
    if i < |OverdueRows(tickets, now, bound - 1)| {
      OverdueRowsMember(tickets, now, bound - 1, i);
    }
  }

  /** The scan lists exactly the overdue rows below bound, in strictly increasing id order. */
  lemma {:induction false} OverdueRowsSpec(tickets: Tickets, now: int, bound: nat)
    ensures var rows := OverdueRows(tickets, now, bound);
            && (forall id :: 0 <= id < bound && id in tickets && Overdue(tickets[id], now)
                  ==> (id, tickets[id]) in rows)
            && (forall row :: row in rows ==>
                  && 0 <= row.0 < bound && row.0 in tickets
                  && row.1 == tickets[row.0] && Overdue(row.1, now))
            && (forall i, j :: 0 <= i < j < |rows| ==> rows[i].0 < rows[j].0)
  {
    if bound > 0 {
      OverdueRowsSpec(tickets, now, bound - 1);
      var rest := OverdueRows(tickets, now, bound - 1);
      forall i | 0 <= i < |rest|
        ensures rest[i].0 < bound - 1
      {
        assert rest[i] in rest;
      }
    }
  }

  /** The scan's ids. */
  lemma OverdueRowOf(tickets: Tickets, now: int, bound: nat)
    ensures var rows := OverdueRows(tickets, now, bound);
            forall id :: (exists i :: 0 <= i < |rows| && rows[i].0 == id) <==>
              && 0 <= id < bound && id in tickets && tickets[id].dueDate.Some?
              && tickets[id].dueDate.value < now && tickets[id].status != DONE && !tickets[id].deleted
  {
    var rows := OverdueRows(tickets, now, bound);
    OverdueRowsSpec(tickets, now, bound);
    forall id | 0 <= id < bound && id in tickets && Overdue(tickets[id], now)
      ensures exists i :: 0 <= i < |rows| && rows[i].0 == id
    {
      var row := (id, tickets[id]);
      var i :| 0 <= i < |rows| && rows[i] == row;
      assert rows[i].0 == id;
    }
  }

  /** The ids of the open tickets of a user in a project, below bound. */
  ghost function CountedIds(tickets: Tickets, project: int, user: int, bound: nat): set<int> {
    set id | id in tickets && 0 <= id < bound && tickets[id].assignee == Some(user) && tickets[id].project == project
             && tickets[id].status != DONE && tickets[id].deleted == false
  }

  /** The load is the number of these. */
  lemma {:induction false} LoadCounts(tickets: Tickets, project: int, user: int, bound: nat)
    ensures Load(tickets, project, user, bound) == |CountedIds(tickets, project, user, bound)|
  {
    if bound == 0 {
      assert CountedIds(tickets, project, user, 0) == {};
    } else {
      LoadCounts(tickets, project, user, bound - 1);
      var id, fewer := bound - 1, CountedIds(tickets, project, user, bound - 1);
      if id in tickets && Counts(tickets[id], project, user) {
        assert CountedIds(tickets, project, user, bound) == fewer + {id};
      } else {
        assert CountedIds(tickets, project, user, bound) == fewer;
      }
    }
  }

  /** The load only looks at ids below its bound. */
  lemma {:induction false} LoadFrame(a: Tickets, b: Tickets, project: int, user: int, bound: nat)
    requires forall id :: 0 <= id < bound ==>
               (id in a && Counts(a[id], project, user)) == (id in b && Counts(b[id], project, user))
    ensures Load(a, project, user, bound) == Load(b, project, user, bound)
  {
    if bound > 0 {
      LoadFrame(a, b, project, user, bound - 1);
    }
  }
}
