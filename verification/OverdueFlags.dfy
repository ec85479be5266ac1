/** What an overdue flag still says about the due date. */
module OverdueFlags {
  import opened Schema
  import opened TicketTable
  import opened Operations
  import opened EscalationLaws
  import opened System
  import Csv

  /** A PATCH that goes through on a flagged ticket and moves its due date to now or later, without
      touching the priority. */
  ghost predicate Postpones(s: State, op: Op, now: int) {
    op.PatchOp? && PatchError(s, op.id, op.patch).None? && s.tickets[op.id].isOverdue
    && op.patch.patch.priority.None? && op.patch.patch.dueDate.Some? && op.patch.patch.dueDate.value >= now
  }

  lemma PatchFlags(s: State, op: Op, now: int)
    requires op.PatchOp? && FlagsPastDue(s.tickets, now)
    ensures FlagsPastDue(PatchTicket(s, op.id, op.patch, op.who).0.tickets, now) <==> !Postpones(s, op, now)
  {
    if Postpones(s, op, now) {
      var after := PatchTicket(s, op.id, op.patch, op.who).0.tickets;
      assert after[op.id].isOverdue && !PastDue(after[op.id], now);
    }
  }

  lemma EscalateFlags(s: State, clock: int, now: int)
    requires Numbered(s) && FlagsPastDue(s.tickets, now) && clock <= now
    ensures FlagsPastDue(Escalate(s, clock).0.tickets, now)
  {
    EscalateWhole(s, clock);
    var after := Escalate(s, clock).0.tickets;
    forall id | id in after && after[id].isOverdue
      ensures PastDue(after[id], now)
    {
      if Overdue(s.tickets[id], clock) {
        EscalationStep(s.tickets[id], clock);
      }
    }
  }

  lemma InsertFlags(s: State, op: Op, now: int)
    requires TicketInv(s) && FlagsPastDue(s.tickets, now) && op.ImportOp?
    ensures FlagsPastDue(Step(s, op).tickets, now)
  {
    if op.records.Some? {
      ImportFlags(s, op.js, op.records.value, op.project, now);
    }
  }

  lemma {:induction false} ImportFlags(s: State, js: Csv.Runtime, records: seq<Csv.Record>, project: int, now: int)
    requires FlagsPastDue(s.tickets, now)
    ensures FlagsPastDue(ImportRows(s, js, records, project).state.tickets, now)
  {
    if records != [] {
      var n := |records| - 1;
      ImportFlags(s, js, records[..n], project, now);
      var mid := ImportRows(s, js, records[..n], project).state;
      var checked := CheckRow(mid.users, js, records[n], project);
    }
  }

  /** Creation, deletion and restore, dependencies, and the deletion of users. */
  lemma QuietFlags(s: State, op: Op, now: int)
    requires FlagsPastDue(s.tickets, now)
    requires op.CreateTicketOp? || op.DeleteOp? || op.RestoreOp? || op.DeleteUserOp?
             || op.AddDependencyOp? || op.RemoveDependencyOp?
    ensures FlagsPastDue(Step(s, op).tickets, now)
  {
  }

  /** "Flagged implies past due" survives a step, at any clock not before the cycles run so far, exactly
      when the step does not postpone a flagged ticket. */
  lemma StepFlags(s: State, op: Op, now: int)
    requires TicketInv(s) && FlagsPastDue(s.tickets, now) && (op.EscalateOp? ==> op.now <= now)
    ensures FlagsPastDue(Step(s, op).tickets, now) <==> !Postpones(s, op, now)
  {
    if op.PatchOp? {
      PatchFlags(s, op, now);
    } else if op.EscalateOp? {
      EscalateFlags(s, op.now, now);
    } else if op.ImportOp? {
      InsertFlags(s, op, now);
    } else if LeavesTickets(op) {
      TicketsLeft(s, op);
    } else {
      QuietFlags(s, op, now);
    }
  }
}
