/** The ticket operations as the service runs them: read, check, write, log. */
module TicketsService {
  import opened Schema
  import opened TicketTable
  import opened Diffing
  import opened Operations
  import opened DatabaseModel
  import TicketsRepository
  import DependenciesRepository

  /** The first workload row, if any, is a legal pick. */
  method LeastLoaded(db: Database, project: int) returns (pick: Option<int>)
    ensures LegalPick(db.Snapshot(), project, pick)
  {
    var rows := TicketsRepository.WorkloadByProject(db, project);
    if rows == [] {
      pick := None;
      forall u
        ensures !IsDeveloper(db.users, u)
      {
        assert !TicketsRepository.ListedIn(rows, u);
      }
    } else {
      pick := Some(rows[0].user);
      forall v | IsDeveloper(db.users, v)
        ensures TicketsRepository.Precedes(db.tickets, db.users, project, db.nextTicket, rows[0].user, v)
      {
        assert TicketsRepository.ListedIn(rows, v);
        var i :| 0 <= i < |rows| && rows[i].user == v;
      }
    }
  }

  method Create(db: Database, dto: CreateDto, who: int) returns (r: Result<int>, ghost pick: Option<int>)
    modifies db
    ensures dto.assignee.None? && dto.project in old(db.projects) ==> LegalPick(old(db.Snapshot()), dto.project, pick)
    ensures (db.Snapshot(), r) == CreateTicket(old(db.Snapshot()), dto, who, pick)
  {
    pick := None;
    if dto.project !in db.projects {
      return Err(NotFound), pick;
    }
    if dto.assignee.Some? && dto.assignee.value !in db.users {
      return Err(NotFound), pick;
    }
    var autoAssigned: Option<int> := None;
    if dto.assignee.None? {
      autoAssigned := LeastLoaded(db, dto.project);
      pick := autoAssigned;
    }
    var input := dto.(assignee := if dto.assignee.Some? then dto.assignee else autoAssigned);
    var ok, id := TicketsRepository.Create(db, input);
    var row := db.tickets[id];
    db.Log(Entry(CREATE, TICKET, id, Some(who), USER_ACTOR,
                 TicketCreated(row.title, row.project, row.kind, row.status, row.priority, row.assignee)));
    if autoAssigned.Some? {
      db.Log(Entry(AUTO_ASSIGN, TICKET, id, None, SYSTEM_ACTOR, AutoAssigned(autoAssigned.value)));
    }
    r := Ok(id);
  }

  /** Forward-only moves on STATUS_ORDER. */
  predicate LegalTransition(current: Status, next: Status) {
    StatusRank(current) <= StatusRank(next)
  }

  method Update(db: Database, id: int, dto: UpdateDto, who: int) returns (r: Result<Ticket>)
    modifies db
    ensures (db.Snapshot(), r) == PatchTicket(old(db.Snapshot()), id, dto, who)
  {
    var p := dto.patch;
    var hasUpdate :=
      p.title.Some? || p.description.Some? || p.status.Some? || p.priority.Some? || p.assignee.Some? || p.dueDate.Some?;
    if !hasUpdate {
      return Err(BadRequest);
    }
    if dto.version.None? {
      return Err(BadRequest);
    }
    var found := TicketsRepository.FindById(db, id);
    if found.None? {
      return Err(NotFound);
    }
    var before := found.value;
    if before.status == DONE {
      return Err(Conflict);
    }
    if p.status.Some? && p.status.value != before.status && !LegalTransition(before.status, p.status.value) {
      return Err(BadRequest);
    }
    if p.status == Some(DONE) {
      var unresolved := DependenciesRepository.CountUnresolvedBlockers(db, id);
      if unresolved > 0 {
        return Err(Conflict);
      }
    }
    if p.assignee.Some? && p.assignee.value !in db.users {
      return Err(NotFound);
    }
    var resetOverdueFlag := p.priority.Some?;
    var updated := TicketsRepository.UpdateWithVersionCheck(db, id, dto.version.value, p, resetOverdueFlag);
    if updated.None? {
      return Err(Conflict);
    }
    var diff := DiffMetadata(before, updated.value, TICKET_FIELDS);
    db.Log(Entry(UPDATE, TICKET, id, Some(who), USER_ACTOR, Diff(diff)));
    r := Ok(updated.value);
  }

  method SoftDelete(db: Database, id: int, who: int) returns (r: Result<()>)
    modifies db
    ensures (db.Snapshot(), r) == DeleteTicket(old(db.Snapshot()), id, who)
  {
    var before := TicketsRepository.FindById(db, id);
    if before.None? {
      return Err(NotFound);
    }
    var deleted := TicketsRepository.SoftDelete(db, id);
    if !deleted {
      return Err(NotFound);
    }
    db.Log(TicketEntry(DELETE, id, before.value, who));
    r := Ok(());
  }

  method Restore(db: Database, id: int, who: int) returns (r: Result<()>)
    modifies db
    ensures (db.Snapshot(), r) == RestoreTicket(old(db.Snapshot()), id, who)
  {
    var existing := TicketsRepository.FindByIdAnyState(db, id);
    if existing.None? {
      return Err(NotFound);
    }
    if !existing.value.deleted {
      return Err(Conflict);
    }
    var _ := TicketsRepository.Restore(db, id);
    db.Log(TicketEntry(RESTORE, id, existing.value, who));
    r := Ok(());
  }
}
