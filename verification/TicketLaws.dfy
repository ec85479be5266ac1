/** Creating, deleting and restoring tickets in terms of the request and the rows alone. */
module TicketLaws {
  import opened Schema
  import opened TicketTable
  import opened Operations
  import opened System

  // ----- create -----

  /** 404 for a project that is not there or an assignee who is not a user; accepted otherwise. */
  lemma CreateAnswers(s: State, dto: CreateDto, who: int, pick: Option<int>)
    ensures var r := CreateTicket(s, dto, who, pick).1;
            && (r.Ok? <==> dto.project in s.projects && (dto.assignee.Some? ==> dto.assignee.value in s.users))
            && (r.Err? ==> r.error == NotFound && CreateTicket(s, dto, who, pick).0 == s)
            && (r.Ok? ==> r.value == s.nextTicket)
  {
  }

  /** The row of an accepted create: TODO, MEDIUM, unflagged, version 1 unless the request says otherwise, and the
      assignee it names or else the picked one; all other rows as they were. */
  lemma CreatedRow(s: State, dto: CreateDto, who: int, pick: Option<int>)
    requires CreateTicket(s, dto, who, pick).1.Ok?
    ensures var after := CreateTicket(s, dto, who, pick).0;
            && s.nextTicket in after.tickets && after.nextTicket == s.nextTicket + 1
            && after == s.(tickets := s.tickets[s.nextTicket := after.tickets[s.nextTicket]],
                           nextTicket := after.nextTicket, log := after.log, outages := after.outages)
            && after.tickets[s.nextTicket] == Ticket(
                 dto.title, dto.description, if dto.status.Some? then dto.status.value else TODO,
                 if dto.priority.Some? then dto.priority.value else MEDIUM, dto.kind, dto.project,
                 if dto.assignee.Some? then dto.assignee else pick, dto.dueDate, false, 1, false)
  {
  }

  /** Its entries: one for the ticket, and a second one by the system exactly when the system chose the assignee. */
  lemma CreateEntries(s: State, dto: CreateDto, who: int, pick: Option<int>)
    requires CreateTicket(s, dto, who, pick).1.Ok? && s.outages == []
    ensures var after, id := CreateTicket(s, dto, who, pick).0, s.nextTicket;
            && id in after.tickets
            && var t := after.tickets[id];
               var created := Entry(CREATE, TICKET, id, Some(who), USER_ACTOR,
                                    TicketCreated(t.title, t.project, t.kind, t.status, t.priority, t.assignee));
               after.log == s.log + [created]
                 + if dto.assignee.None? && pick.Some?
                   then [Entry(AUTO_ASSIGN, TICKET, id, None, SYSTEM_ACTOR, AutoAssigned(pick.value))] else []
  {
  }

  // ----- the automatic choice -----

  /** The open tickets of a user in a project. */
  ghost function OpenOf(s: State, project: int, user: int): set<int> {
    set id | id in s.tickets && s.tickets[id].assignee == Some(user) && s.tickets[id].project == project
             && s.tickets[id].status != DONE && s.tickets[id].deleted == false
  }

  lemma LoadIsOpen(s: State, project: int, user: int)
    requires TicketInv(s)
    ensures Load(s.tickets, project, user, s.nextTicket) == |OpenOf(s, project, user)|
  {
    LoadCounts(s.tickets, project, user, s.nextTicket);
    assert CountedIds(s.tickets, project, user, s.nextTicket) == OpenOf(s, project, user);
  }

  /** With an assignee in the request, or without any developer, the system chooses nobody. Otherwise it chooses a
      developer with the fewest open tickets in the project, and among those one registered first. */
  lemma PickIsFirst(s: State, project: int, pick: Option<int>)
    requires TicketInv(s) && LegalPick(s, project, pick)
    ensures pick.None? <==> forall u :: u in s.users ==> s.users[u].role != DEVELOPER
    ensures pick.Some? ==>
              && pick.value in s.users && s.users[pick.value].role == DEVELOPER
              && forall v :: v in s.users && s.users[v].role == DEVELOPER ==>
                   var mine, theirs := |OpenOf(s, project, pick.value)|, |OpenOf(s, project, v)|;
                   mine < theirs || (mine == theirs && s.users[pick.value].createdAt <= s.users[v].createdAt)
  {
    if pick.Some? {
      LoadIsOpen(s, project, pick.value);
      forall v | v in s.users && s.users[v].role == DEVELOPER
        ensures var mine, theirs := |OpenOf(s, project, pick.value)|, |OpenOf(s, project, v)|;
                mine < theirs || (mine == theirs && s.users[pick.value].createdAt <= s.users[v].createdAt)
      {
        assert IsDeveloper(s.users, v);
        LoadIsOpen(s, project, v);
      }
    } else {
      forall u | u in s.users
        ensures s.users[u].role != DEVELOPER
      {
        assert !IsDeveloper(s.users, u);
      }
    }
  }

  /** A ticket created in another project changes nobody's workload in this one. */
  lemma OtherProjectsDoNotCount(s: State, dto: CreateDto, who: int, pick: Option<int>, project: int, user: int)
    requires TicketInv(s) && dto.project != project && CreateTicket(s, dto, who, pick).1.Ok?
    ensures OpenOf(CreateTicket(s, dto, who, pick).0, project, user) == OpenOf(s, project, user)
  {
    CreatedRow(s, dto, who, pick);
  }

  // ----- soft delete and restore -----

  /** A delete answers 404 exactly for a ticket that is missing or deleted already; otherwise exactly that row is
      marked, every other column and row kept, and its entry is logged. */
  lemma DeleteMarks(s: State, id: int, who: int)
    requires s.outages == []
    ensures DeleteTicket(s, id, who)
         == if id !in s.tickets || s.tickets[id].deleted then (s, Err(NotFound))
            else
              var t := s.tickets[id];
              (s.(tickets := s.tickets[id := t.(deleted := true)],
                  log := s.log + [Entry(DELETE, TICKET, id, Some(who), USER_ACTOR, TicketRef(t.title, t.project))]),
               Ok(()))
  {
  }

  /** A restore answers 404 for a missing ticket and 409 for one that is not deleted; otherwise exactly the mark
      goes, and its entry is logged. */
  lemma RestoreUnmarks(s: State, id: int, who: int)
    requires s.outages == []
    ensures RestoreTicket(s, id, who)
         == if id !in s.tickets then (s, Err(NotFound))
            else if !s.tickets[id].deleted then (s, Err(Conflict))
            else
              var t := s.tickets[id];
              (s.(tickets := s.tickets[id := t.(deleted := false)],
                  log := s.log + [Entry(RESTORE, TICKET, id, Some(who), USER_ACTOR, TicketRef(t.title, t.project))]),
               Ok(()))
  {
  }

  /** Delete and restore give the table back. */
  lemma RestoreUndoesDelete(s: State, id: int, who: int)
    requires DeleteTicket(s, id, who).1.Ok?
    ensures var deleted := DeleteTicket(s, id, who).0;
            && id in deleted.tickets && deleted.tickets[id].deleted && deleted.tickets != s.tickets
            && RestoreTicket(deleted, id, who).1.Ok? && RestoreTicket(deleted, id, who).0.tickets == s.tickets
  {
    var deleted := DeleteTicket(s, id, who).0;
    assert deleted.tickets[id] != s.tickets[id];
    assert RestoreTicket(deleted, id, who).0.tickets == s.tickets;
  }
}
