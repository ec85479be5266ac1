/** Serial runs of the whole system, and what every reachable state satisfies. */
module System {
  import opened Schema
  import opened Graph
  import opened TicketTable
  import opened Operations
  import opened EscalationLaws
  import Csv

  datatype Op =
    | CreateTicketOp(dto: CreateDto, who: int, pick: Option<int>)
    | ImportOp(js: Csv.Runtime, project: int, records: Option<seq<Csv.Record>>, who: int)
    | PatchOp(id: int, patch: UpdateDto, who: int)
    | DeleteOp(id: int, who: int)
    | RestoreOp(id: int, who: int)
    | AddDependencyOp(t: int, b: int, who: int)
    | RemoveDependencyOp(t: int, b: int, who: int)
    | EscalateOp(now: int)
    | CreateUserOp(user: User, creator: Option<int>)
    | UpdateUserOp(id: int, fullName: Option<string>, role: Option<Role>, who: int)
    | DeleteUserOp(id: int, referenced: bool, who: int)
    | ProjectOp(project: int, change: ProjectChange, who: int)
    | CreateCommentOp(ticket: int, author: int, content: string, now: int, who: int, failAt: Option<nat>)
    | EditCommentOp(ticket: int, id: int, content: string, version: Option<int>, who: int, failAt: Option<nat>)
    | DeleteCommentOp(ticket: int, id: int, who: int)

  /** The workload query may answer pick; any other operation may always be attempted. */
  ghost predicate Enabled(s: State, op: Op) {
    op.CreateTicketOp? ==> LegalPick(s, op.dto.project, op.pick)
  }

  ghost function Step(s: State, op: Op): State {
    match op
    case CreateTicketOp(dto, who, pick) => CreateTicket(s, dto, who, pick).0
    case ImportOp(js, project, records, who) => ImportCsv(s, js, project, records, who).0
    case PatchOp(id, dto, who) => PatchTicket(s, id, dto, who).0
    case DeleteOp(id, who) => DeleteTicket(s, id, who).0
    case RestoreOp(id, who) => RestoreTicket(s, id, who).0
    case AddDependencyOp(t, b, who) => AddDependency(s, t, b, who).0
    case RemoveDependencyOp(t, b, who) => RemoveDependency(s, t, b, who).0
    case EscalateOp(now) => Escalate(s, now).0
    case CreateUserOp(user, creator) => CreateUser(s, user, creator).0
    case UpdateUserOp(id, fullName, role, who) => UpdateUser(s, id, fullName, role, who).0
    case DeleteUserOp(id, referenced, who) => DeleteUser(s, id, referenced, who).0
    case ProjectOp(project, change, who) => ChangeProject(s, project, change, who)
    case CreateCommentOp(ticket, author, content, now, who, failAt) =>
      CreateComment(s, ticket, author, content, now, who, failAt).0
    case EditCommentOp(ticket, id, content, version, who, failAt) =>
      EditComment(s, ticket, id, content, version, who, failAt).0
    case DeleteCommentOp(ticket, id, who) => DeleteComment(s, ticket, id, who).0
  }

  ghost function Run(s: State, ops: seq<Op>): State {
    if ops == [] then s else Step(Run(s, ops[..|ops| - 1]), ops[|ops| - 1])
  }

  ghost predicate Legal(s: State, ops: seq<Op>) {
    ops == [] || (Legal(s, ops[..|ops| - 1]) && Enabled(Run(s, ops[..|ops| - 1]), ops[|ops| - 1]))
  }

  /** The empty database, with any script of audit outages. */
  ghost function Start(outages: seq<bool>): State {
    EMPTY_STATE.(outages := outages)
  }

  // ----- invariants of the ticket tables -----

  ghost predicate EdgesInProject(tickets: Tickets, deps: Edges) {
    forall e :: e in deps ==> e.0 in tickets && e.1 in tickets && tickets[e.0].project == tickets[e.1].project
  }

  ghost predicate AssigneesExist(tickets: Tickets, users: map<int, User>) {
    forall id :: id in tickets && tickets[id].assignee.Some? ==> tickets[id].assignee.value in users
  }

  ghost predicate UsersNumbered(s: State) {
    forall u :: u in s.users ==> 0 < u < s.nextUser
  }

  ghost predicate TicketInv(s: State) {
    && s.nextTicket > 0 && s.nextUser > 0
    && Numbered(s) && UsersNumbered(s)
    && EdgesInProject(s.tickets, s.deps) && Acyclic(s.deps)
    && OverdueIsCritical(s.tickets) && AssigneesExist(s.tickets, s.users)
  }

  lemma StartInv(outages: seq<bool>)
    ensures TicketInv(Start(outages))
  {
    AcyclicByEdges(Start(outages).deps);
  }

  lemma InsertInv(s: State, row: Ticket)
    requires TicketInv(s) && !row.isOverdue
    requires row.assignee.Some? ==> row.assignee.value in s.users
    ensures TicketInv(InsertTicket(s, row))
  {
  }

  lemma InsertCheckedInv(s: State, checked: Csv.RowResult)
    requires TicketInv(s)
    requires checked.Valid? && checked.dto.assignee.Some? ==> checked.dto.assignee.value in s.users
    ensures TicketInv(InsertChecked(s, checked).0) && OnlyInserts(s, InsertChecked(s, checked).0)
  {
    if checked.Valid? {
      InsertInv(s, NewRow(checked.dto));
    }
  }

  /** Nothing but new ticket rows. */
  ghost predicate OnlyInserts(s: State, after: State) {
    && after == s.(tickets := after.tickets, nextTicket := after.nextTicket)
    && s.nextTicket <= after.nextTicket
    && (forall id :: id in s.tickets ==> id in after.tickets && after.tickets[id] == s.tickets[id])
    && (forall id :: id in after.tickets && id !in s.tickets ==> s.nextTicket <= id && !after.tickets[id].deleted)
  }

  lemma {:induction false} ImportInv(s: State, js: Csv.Runtime, records: seq<Csv.Record>, project: int)
    requires TicketInv(s)
    ensures TicketInv(ImportRows(s, js, records, project).state)
    ensures OnlyInserts(s, ImportRows(s, js, records, project).state)
  {
    if records != [] {
      var n := |records| - 1;
      ImportInv(s, js, records[..n], project);
      var mid := ImportRows(s, js, records[..n], project).state;
      InsertCheckedInv(mid, CheckRow(mid.users, js, records[n], project));
    }
  }

  lemma PatchInv(s: State, id: int, dto: UpdateDto, who: int)
    requires TicketInv(s)
    ensures TicketInv(PatchTicket(s, id, dto, who).0)
  {
  }

  lemma EscalateInv(s: State, now: int)
    requires TicketInv(s)
    ensures TicketInv(Escalate(s, now).0)
  {
    EscalateWhole(s, now);
    var after := Escalate(s, now).0;
    forall id | id in s.tickets
      ensures after.tickets[id].isOverdue ==> after.tickets[id].priority == CRITICAL
      ensures after.tickets[id].project == s.tickets[id].project && after.tickets[id].assignee == s.tickets[id].assignee
    {
      if Overdue(s.tickets[id], now) {
        EscalationStep(s.tickets[id], now);
      }
    }
  }

  lemma DeleteAndRestoreInv(s: State, id: int, who: int)
    requires TicketInv(s)
    ensures TicketInv(DeleteTicket(s, id, who).0) && TicketInv(RestoreTicket(s, id, who).0)
  {
  }

  lemma UserInv(s: State, user: User, creator: Option<int>, id: int, referenced: bool, who: int)
    requires TicketInv(s)
    ensures TicketInv(CreateUser(s, user, creator).0) && TicketInv(DeleteUser(s, id, referenced, who).0)
  {
  }

  lemma AddDependencyInv(s: State, t: int, b: int, who: int)
    requires TicketInv(s)
    ensures TicketInv(AddDependency(s, t, b, who).0)
  {
    AddEdgeAcyclic(s.deps, t, b);
  }

  lemma RemoveDependencyInv(s: State, t: int, b: int, who: int)
    requires TicketInv(s)
    ensures TicketInv(RemoveDependency(s, t, b, who).0)
  {
    AcyclicSubset(s.deps - {(t, b)}, s.deps);
  }

  lemma CreateInv(s: State, dto: CreateDto, who: int, pick: Option<int>)
    requires TicketInv(s) && LegalPick(s, dto.project, pick)
    ensures TicketInv(CreateTicket(s, dto, who, pick).0)
  {
    if dto.project in s.projects && (dto.assignee.Some? ==> dto.assignee.value in s.users) {
      InsertInv(s, NewRow(WithAssignee(dto, pick)));
    }
  }

  /** Operations on users and projects, and comment operations, leave tickets and edges alone. */
  predicate LeavesTickets(op: Op) {
    || op.CreateUserOp? || op.UpdateUserOp? || op.ProjectOp?
    || op.CreateCommentOp? || op.EditCommentOp? || op.DeleteCommentOp?
  }

  lemma TicketsLeft(s: State, op: Op)
    requires LeavesTickets(op)
    ensures Step(s, op).tickets == s.tickets && Step(s, op).deps == s.deps
  {
  }

  /** Comment operations do not touch what the ticket invariants speak about. */
  lemma CommentOpsFrame(s: State, op: Op)
    requires op.CreateCommentOp? || op.EditCommentOp? || op.DeleteCommentOp?
    ensures var after := Step(s, op);
            after == s.(comments := after.comments, nextComment := after.nextComment, mentions := after.mentions,
                        log := after.log, outages := after.outages)
  {
  }

  lemma UpdateUserInv(s: State, op: Op)
    requires TicketInv(s) && op.UpdateUserOp?
    ensures TicketInv(Step(s, op))
  {
  }

  lemma ProjectInv(s: State, op: Op)
    requires TicketInv(s) && op.ProjectOp?
    ensures TicketInv(Step(s, op))
  {
  }

  lemma CommentOpsInv(s: State, op: Op)
    requires TicketInv(s) && (op.CreateCommentOp? || op.EditCommentOp? || op.DeleteCommentOp?)
    ensures TicketInv(Step(s, op))
  {
    CommentOpsFrame(s, op);
  }

  /** Every operation keeps the invariants. */
  lemma StepInv(s: State, op: Op)
    requires TicketInv(s) && Enabled(s, op)
    ensures TicketInv(Step(s, op))
  {
    match op
    case CreateTicketOp(dto, who, pick) => CreateInv(s, dto, who, pick);
    case ImportOp(js, project, records, who) =>
      if records.Some? {
        ImportInv(s, js, records.value, project);
      }
    case PatchOp(id, dto, who) => PatchInv(s, id, dto, who);
    case AddDependencyOp(t, b, who) => AddDependencyInv(s, t, b, who);
    case RemoveDependencyOp(t, b, who) => RemoveDependencyInv(s, t, b, who);
    case EscalateOp(now) => EscalateInv(s, now);
    case DeleteOp(id, who) => DeleteAndRestoreInv(s, id, who);
    case RestoreOp(id, who) => DeleteAndRestoreInv(s, id, who);
    case CreateUserOp(user, creator) => UserInv(s, user, creator, 0, false, 0);
    case DeleteUserOp(id, referenced, who) => UserInv(s, User("", "", ADMIN, 0), None, id, referenced, who);
    case UpdateUserOp(_, _, _, _) => UpdateUserInv(s, op);
    case ProjectOp(_, _, _) => ProjectInv(s, op);
    case CreateCommentOp(_, _, _, _, _, _) => CommentOpsInv(s, op);
    case EditCommentOp(_, _, _, _, _, _) => CommentOpsInv(s, op);
    case DeleteCommentOp(_, _, _) => CommentOpsInv(s, op);
  }

  lemma {:induction false} RunCons(s: State, op: Op, ops: seq<Op>)
    ensures Run(s, [op] + ops) == Run(Step(s, op), ops)
  {
    var all := [op] + ops;
    if ops == [] {
      assert all[..0] == [];
    } else {
      var last := |ops| - 1;
      RunCons(s, op, ops[..last]);
      assert all[..|all| - 1] == [op] + ops[..last];
    }
  }

  lemma {:induction false} RunInv(s: State, ops: seq<Op>)
    requires TicketInv(s) && Legal(s, ops)
    ensures TicketInv(Run(s, ops))
  {
    if ops != [] {
      RunInv(s, ops[..|ops| - 1]);
      StepInv(Run(s, ops[..|ops| - 1]), ops[|ops| - 1]);
    }
  }

  /** In every serially reachable state the whole dependency relation, soft-deleted tickets included, has no
      cycle, and everything that directly or transitively blocks a ticket is in its project. */
  lemma BlockersStayInProject(outages: seq<bool>, ops: seq<Op>, t: int, b: int)
    requires Legal(Start(outages), ops)
    requires Reach(Run(Start(outages), ops).deps, t, b) && t in Run(Start(outages), ops).tickets
    ensures var s := Run(Start(outages), ops);
            && Acyclic(s.deps)
            && b in s.tickets && s.tickets[b].project == s.tickets[t].project
  {
    StartInv(outages);
    RunInv(Start(outages), ops);
    var s := Run(Start(outages), ops);
    var same := set id | id in s.tickets && s.tickets[id].project == s.tickets[t].project;
    ClosedContainsReachable(s.deps, same, t, b);
  }

  /** In every serially reachable state an overdue flag only sits on a CRITICAL ticket. */
  lemma FlaggedOnlyWhenCritical(outages: seq<bool>, ops: seq<Op>)
    requires Legal(Start(outages), ops)
    ensures OverdueIsCritical(Run(Start(outages), ops).tickets)
  {
    StartInv(outages);
    RunInv(Start(outages), ops);
  }
}
