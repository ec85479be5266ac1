/** The update of a ticket in terms of the request and the rows alone: which request gets which answer, and
    what an accepted one leaves behind. */
module UpdateLaws {
  import opened Schema
  import opened Operations
  import D = Diffing
  import TT = TicketTable

  /** Some updatable field is in the body. */
  predicate Supplies(p: Patch) {
    p.title.Some? || p.description.Some? || p.status.Some? || p.priority.Some? || p.assignee.Some? || p.dueDate.Some?
  }

  /** The three moves against the life cycle TODO, IN_PROGRESS, IN_REVIEW, DONE that do not start at its end. */
  predicate Backward(from: Status, to: Status) {
    || (from == IN_PROGRESS && to == TODO)
    || (from == IN_REVIEW && to == TODO)
    || (from == IN_REVIEW && to == IN_PROGRESS)
  }

  predicate MovesBack(t: Ticket, p: Patch) {
    p.status.Some? && Backward(t.status, p.status.value)
  }

  /** A blocker that is neither DONE nor deleted is left. */
  ghost predicate StillBlocked(s: State, id: int) {
    exists b :: (id, b) in s.deps && b in s.tickets && !s.tickets[b].deleted && s.tickets[b].status != DONE
  }

  /** The patch moves a ticket to DONE that is still blocked. */
  ghost predicate GateShut(s: State, id: int, p: Patch) {
    p.status == Some(DONE) && StillBlocked(s, id)
  }

  /** The patch names an assignee who is not a user. */
  predicate NamesNobody(s: State, p: Patch) {
    p.assignee.Some? && p.assignee.value !in s.users
  }

  /** The ticket exists, is not deleted and is not DONE. */
  predicate Updatable(s: State, id: int) {
    id in s.tickets && !s.tickets[id].deleted && s.tickets[id].status != DONE
  }

  lemma BlockedMeansUnresolved(s: State, id: int)
    ensures StillBlocked(s, id) <==> TT.Unresolved(s.tickets, s.deps, id) != {}
  {
    if b :| b in TT.Unresolved(s.tickets, s.deps, id) {
      assert (id, b) in s.deps;
    } else {
      forall b | (id, b) in s.deps && b in s.tickets && !s.tickets[b].deleted
        ensures s.tickets[b].status == DONE
      {
        assert b !in TT.Unresolved(s.tickets, s.deps, id);
        var e := (id, b);
        assert e.1 == b;
      }
    }
  }

  /** 400: an empty body, no version, or a move back. */
  lemma UpdateBadRequest(s: State, id: int, dto: UpdateDto, who: int)
    ensures PatchTicket(s, id, dto, who).1 == Err(BadRequest)
       <==> || !Supplies(dto.patch) || dto.version.None?
            || (Updatable(s, id) && MovesBack(s.tickets[id], dto.patch))
  {
  }

  /** 404: no such ticket, or no such assignee. */
  lemma UpdateNotFound(s: State, id: int, dto: UpdateDto, who: int)
    requires Supplies(dto.patch) && dto.version.Some?
    ensures PatchTicket(s, id, dto, who).1 == Err(NotFound)
       <==> || id !in s.tickets || s.tickets[id].deleted
            || (s.tickets[id].status != DONE && !MovesBack(s.tickets[id], dto.patch) && !GateShut(s, id, dto.patch)
                && NamesNobody(s, dto.patch))
  {
    BlockedMeansUnresolved(s, id);
  }

  /** 409: a DONE ticket, an open blocker, or another version. */
  lemma UpdateConflict(s: State, id: int, dto: UpdateDto, who: int)
    requires Supplies(dto.patch) && dto.version.Some?
    ensures PatchTicket(s, id, dto, who).1 == Err(Conflict)
       <==> && id in s.tickets && !s.tickets[id].deleted
            && (s.tickets[id].status == DONE
                || (!MovesBack(s.tickets[id], dto.patch)
                    && (GateShut(s, id, dto.patch)
                        || (!NamesNobody(s, dto.patch) && dto.version.value != s.tickets[id].version))))
  {
    BlockedMeansUnresolved(s, id);
  }

  /** Accepted: everything else. */
  lemma UpdateAccepted(s: State, id: int, dto: UpdateDto, who: int)
    ensures PatchTicket(s, id, dto, who).1.Ok?
       <==> && Supplies(dto.patch) && dto.version.Some? && Updatable(s, id)
            && !MovesBack(s.tickets[id], dto.patch) && !GateShut(s, id, dto.patch) && !NamesNobody(s, dto.patch)
            && dto.version.value == s.tickets[id].version
  {
    BlockedMeansUnresolved(s, id);
  }

  function Or<T>(supplied: Option<T>, present: T): T {
    if supplied.Some? then supplied.value else present
  }

  /** Supplied columns overwritten, the flag kept unless it is to be cleared, the next version; type, project and
      the rest as they were. */
  function Overwritten(t: Ticket, p: Patch, clearFlag: bool): Ticket {
    Ticket(Or(p.title, t.title), if p.description.Some? then p.description else t.description,
           Or(p.status, t.status), Or(p.priority, t.priority), t.kind, t.project,
           if p.assignee.Some? then p.assignee else t.assignee, if p.dueDate.Some? then p.dueDate else t.dueDate,
           !clearFlag && t.isOverdue, t.version + 1, t.deleted)
  }

  /** The guarded UPDATE hits exactly a ticket that is there, is not deleted and has the expected version, and then
      overwrites its row only. */
  lemma GuardedWrite(tickets: TT.Tickets, id: int, expected: int, p: Patch, clearFlag: bool)
    ensures TT.UpdateWithVersionCheck(tickets, id, expected, p, clearFlag)
         == if id in tickets && !tickets[id].deleted && tickets[id].version == expected
            then
              var row := Overwritten(tickets[id], p, clearFlag);
              (tickets[id := row], Some(row))
            else (tickets, None)
  {
  }

  /** The row an accepted update answers and leaves; a supplied priority clears the flag. */
  lemma UpdatedRow(s: State, id: int, dto: UpdateDto, who: int)
    requires PatchTicket(s, id, dto, who).1.Ok?
    ensures var (after, r) := PatchTicket(s, id, dto, who);
            && id in s.tickets && after.tickets == s.tickets[id := r.value]
            && after == s.(tickets := after.tickets, log := after.log, outages := after.outages)
            && r.value == Overwritten(s.tickets[id], dto.patch, dto.patch.priority.Some?)
  {
  }

  /** A refused update changes nothing, its log included. */
  lemma RefusedUpdate(s: State, id: int, dto: UpdateDto, who: int)
    requires PatchTicket(s, id, dto, who).1.Err?
    ensures PatchTicket(s, id, dto, who).0 == s
  {
  }

  /** One column of the recorded difference: there exactly when the column differs, with both values. */
  ghost predicate Records(d: map<Field, Change>, f: Field, from: FieldValue, to: FieldValue) {
    if from == to then f !in d else f in d && d[f] == Change(from, to)
  }

  /** A due date is recorded unless both are null, because dates are compared by identity. */
  ghost predicate RecordsDate(d: map<Field, Change>, from: Option<int>, to: Option<int>) {
    if from.None? && to.None? then FDueDate !in d else FDueDate in d && d[FDueDate] == Change(Time(from), Time(to))
  }

  /** The differences of the seven audited columns. */
  ghost predicate RecordsAll(d: map<Field, Change>, t: Ticket, u: Ticket) {
    && Records(d, FTitle, Text(Some(t.title)), Text(Some(u.title)))
    && Records(d, FDescription, Text(t.description), Text(u.description))
    && Records(d, FStatus, StatusValue(t.status), StatusValue(u.status))
    && Records(d, FPriority, PriorityValue(t.priority), PriorityValue(u.priority))
    && Records(d, FAssignee, Id(t.assignee), Id(u.assignee))
    && Records(d, FIsOverdue, Flag(t.isOverdue), Flag(u.isOverdue))
    && RecordsDate(d, t.dueDate, u.dueDate)
  }

  lemma DiffRecords(t: Ticket, u: Ticket)
    ensures RecordsAll(D.DiffOf(t, u, D.FieldSet(D.TICKET_FIELDS)), t, u)
  {
    assert D.TICKET_FIELDS[0] == FTitle && D.TICKET_FIELDS[1] == FDescription && D.TICKET_FIELDS[2] == FStatus;
    assert D.TICKET_FIELDS[3] == FPriority && D.TICKET_FIELDS[4] == FAssignee && D.TICKET_FIELDS[5] == FDueDate;
    assert D.TICKET_FIELDS[6] == FIsOverdue;
  }

  /** The entry of an accepted update: who did it to what, and the differences. */
  lemma UpdateEntry(s: State, id: int, dto: UpdateDto, who: int)
    requires PatchTicket(s, id, dto, who).1.Ok? && s.outages == []
    ensures var (after, r) := PatchTicket(s, id, dto, who);
            && id in s.tickets && |after.log| == |s.log| + 1 && s.log <= after.log
            && var e := after.log[|s.log|];
               && e == Entry(UPDATE, TICKET, id, Some(who), USER_ACTOR, e.meta) && e.meta.Diff?
               && RecordsAll(e.meta.changes, s.tickets[id], r.value)
  {
    DiffRecords(s.tickets[id], PatchTicket(s, id, dto, who).1.value);
  }
}
