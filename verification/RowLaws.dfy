/** What any single row is after any operation of the system, told from the operation and the rows before it. */
module RowLaws {
  import opened Schema
  import opened MentionParser
  import opened Operations
  import opened System
  import CL = CommentLaws
  import EL = EscalationLaws
  import TL = TicketLaws
  import UL = UpdateLaws

  // ----- tickets -----

  /** The update goes through. */
  ghost predicate Updates(s: State, id: int, dto: UpdateDto) {
    && UL.Supplies(dto.patch) && dto.version.Some? && UL.Updatable(s, id)
    && !UL.MovesBack(s.tickets[id], dto.patch) && !UL.GateShut(s, id, dto.patch) && !UL.NamesNobody(s, dto.patch)
    && dto.version.value == s.tickets[id].version
  }

  /** The user wrote no comment and is not referenced elsewhere. */
  ghost predicate Removable(s: State, user: int, referenced: bool) {
    user in s.users && !referenced && forall c :: c in s.comments ==> s.comments[c].author != user
  }

  /** The row of a ticket after an operation. */
  ghost predicate TicketAfter(s: State, op: Op, id: int, u: Ticket)
    requires id in s.tickets
  {
    var t := s.tickets[id];
    if op.PatchOp? && op.id == id && Updates(s, id, op.patch)
    then u == UL.Overwritten(t, op.patch.patch, op.patch.patch.priority.Some?)
    else if op.DeleteOp? && op.id == id then u == t.(deleted := true)
    else if op.RestoreOp? && op.id == id then u == t.(deleted := false)
    else if op.EscalateOp? && EL.Due(s.tickets, op.now, id) then EL.StepsOn(t, u)
    else if op.DeleteUserOp? && Removable(s, op.id, op.referenced) && t.assignee == Some(op.id)
    then u == t.(assignee := None)
    else u == t
  }

  /** Any ticket after any operation. */
  lemma TicketAfterStep(s: State, op: Op, id: int)
    requires TicketInv(s) && id in s.tickets
    ensures id in Step(s, op).tickets && TicketAfter(s, op, id, Step(s, op).tickets[id])
  {
    match op
    case PatchOp(_, _, _) => PatchedTicket(s, op, id);
    case EscalateOp(now) => EL.RowsExactly(s, now);
    case ImportOp(js, project, records, _) =>
      if project in s.projects && records.Some? {
        ImportInv(s, js, records.value, project);
      }
    case CreateTicketOp(_, _, _) => ShortTicketOps(s, op, id);
    case DeleteOp(_, _) => ShortTicketOps(s, op, id);
    case RestoreOp(_, _) => ShortTicketOps(s, op, id);
    case DeleteUserOp(_, _, _) => ShortTicketOps(s, op, id);
    case AddDependencyOp(_, _, _) => EdgeOpsKeepTickets(s, op);
    case RemoveDependencyOp(_, _, _) => EdgeOpsKeepTickets(s, op);
    case _ => TicketsLeft(s, op);
  }

  lemma EdgeOpsKeepTickets(s: State, op: Op)
    requires op.AddDependencyOp? || op.RemoveDependencyOp?
    ensures Step(s, op).tickets == s.tickets
  {
  }

  lemma ShortTicketOps(s: State, op: Op, id: int)
    requires op.CreateTicketOp? || op.DeleteOp? || op.RestoreOp? || op.DeleteUserOp?
    requires TicketInv(s) && id in s.tickets
    ensures id in Step(s, op).tickets && TicketAfter(s, op, id, Step(s, op).tickets[id])
  {
  }

  lemma PatchedTicket(s: State, op: Op, id: int)
    requires op.PatchOp? && id in s.tickets
    ensures id in Step(s, op).tickets && TicketAfter(s, op, id, Step(s, op).tickets[id])
  {
    UL.UpdateAccepted(s, op.id, op.patch, op.who);
    if PatchTicket(s, op.id, op.patch, op.who).1.Ok? {
      UL.UpdatedRow(s, op.id, op.patch, op.who);
    } else {
      UL.RefusedUpdate(s, op.id, op.patch, op.who);
    }
  }

  /** Any ticket that is new after an operation other than an import, of which `CsvServices.ImportIsExact` speaks. */
  lemma NewTicketAfterStep(s: State, op: Op, id: int)
    requires TicketInv(s) && id !in s.tickets && !op.ImportOp?
    ensures id in Step(s, op).tickets
       <==> && op.CreateTicketOp? && id == s.nextTicket && op.dto.project in s.projects
            && (op.dto.assignee.Some? ==> op.dto.assignee.value in s.users)
  {
    match op
    case CreateTicketOp(dto, who, pick) => TL.CreateAnswers(s, dto, who, pick);
    case EscalateOp(now) => EL.EscalateWhole(s, now);
    case AddDependencyOp(_, _, _) => EdgeOpsKeepTickets(s, op);
    case RemoveDependencyOp(_, _, _) => EdgeOpsKeepTickets(s, op);
    case PatchOp(_, _, _) =>
    case DeleteOp(_, _) =>
    case RestoreOp(_, _) =>
    case DeleteUserOp(_, _, _) =>
    case _ => TicketsLeft(s, op);
  }

  // ----- comments and mentions -----

  /** No statement of a create or of an edit of the present version raises up to COMMIT. */
  ghost predicate RunsThrough(users: map<int, User>, text: string, failAt: Option<nat>) {
    failAt.Some? ==>
      failAt.value >= if CL.MentionsNone(text) then 6 else if CL.Addressed(users, text) == {} then 7 else 8
  }

  ghost predicate Creates(s: State, op: Op) {
    && op.CreateCommentOp? && op.ticket in s.tickets && !s.tickets[op.ticket].deleted && op.author in s.users
    && RunsThrough(s.users, op.content, op.failAt)
  }

  ghost predicate Edits(s: State, op: Op) {
    && op.EditCommentOp? && op.id in s.comments && s.comments[op.id].ticket == op.ticket
    && op.version == Some(s.comments[op.id].version) && RunsThrough(s.users, op.content, op.failAt)
  }

  predicate Deletes(s: State, op: Op) {
    op.DeleteCommentOp? && op.id in s.comments && s.comments[op.id].ticket == op.ticket
  }

  /** Comment c after an operation. */
  ghost function CommentAfter(s: State, op: Op, c: int): Option<Comment> {
    if Creates(s, op) && c == s.nextComment then Some(Comment(op.ticket, op.author, op.content, 1, op.now))
    else if c !in s.comments || (Deletes(s, op) && c == op.id) then None
    else
      var present := s.comments[c];
      if Edits(s, op) && c == op.id
      then Some(Comment(present.ticket, present.author, op.content, present.version + 1, present.createdAt))
      else Some(present)
  }

  /** Whether comment c mentions user u after an operation. */
  ghost predicate MentionAfter(s: State, op: Op, c: int, u: int) {
    if (Creates(s, op) && c == s.nextComment) || (Edits(s, op) && c == op.id)
    then ((c, u) in s.mentions && !Edits(s, op)) || (u in s.users && Mentions(op.content, s.users[u].username))
    else
      && (c, u) in s.mentions && !(Deletes(s, op) && c == op.id)
      && !(op.DeleteUserOp? && Removable(s, op.id, op.referenced) && u == op.id)
  }

  ghost predicate CommentFits(s: State, op: Op, after: State, c: int, u: int) {
    && (if c in after.comments then Some(after.comments[c]) else None) == CommentAfter(s, op, c)
    && ((c, u) in after.mentions <==> MentionAfter(s, op, c, u))
  }

  /** Any comment and any mention after any operation. */
  lemma CommentAfterStep(s: State, op: Op, c: int, u: int)
    requires TicketInv(s)
    ensures CommentFits(s, op, Step(s, op), c, u)
  {
    match op
    case CreateCommentOp(_, _, _, _, _, _) => CreatedAfter(s, op, c, u);
    case EditCommentOp(_, _, _, _, _, _) => EditedAfter(s, op, c, u);
    case DeleteCommentOp(_, _, _) => DeletedAfter(s, op, c, u);
    case DeleteUserOp(_, _, _) => DeletedAfter(s, op, c, u);
    case _ =>
      OthersKeepComments(s, op);
      KeptAfter(s, op, Step(s, op), c, u);
  }

  lemma KeptAfter(s: State, op: Op, after: State, c: int, u: int)
    requires !op.CreateCommentOp? && !op.EditCommentOp? && !op.DeleteCommentOp? && !op.DeleteUserOp?
    requires after.comments == s.comments && after.mentions == s.mentions
    ensures CommentFits(s, op, after, c, u)
  {
  }

  lemma CreatedAfter(s: State, op: Op, c: int, u: int)
    requires op.CreateCommentOp?
    ensures CommentFits(s, op, Step(s, op), c, u)
  {
    CreatedFits(s, op, c, u);
  }

  lemma CreatedFits(s: State, op: Op, c: int, u: int)
    requires op.CreateCommentOp?
    ensures CommentFits(s, op, CreateComment(s, op.ticket, op.author, op.content, op.now, op.who, op.failAt).0, c, u)
  {
    CL.StatementCounts(s.users, op.content);
    CL.AddressedAreMentioned(s.users, op.content);
    CL.PairsExactly(s.nextComment, CL.Addressed(s.users, op.content));
  }

  lemma EditedAfter(s: State, op: Op, c: int, u: int)
    requires op.EditCommentOp?
    ensures CommentFits(s, op, Step(s, op), c, u)
  {
    EditedFits(s, op, c, u);
  }

  lemma EditedFits(s: State, op: Op, c: int, u: int)
    requires op.EditCommentOp?
    ensures CommentFits(s, op, EditComment(s, op.ticket, op.id, op.content, op.version, op.who, op.failAt).0, c, u)
  {
    CL.StatementCounts(s.users, op.content);
    CL.AddressedAreMentioned(s.users, op.content);
    CL.PairsExactly(op.id, CL.Addressed(s.users, op.content));
  }

  lemma DeletedAfter(s: State, op: Op, c: int, u: int)
    requires op.DeleteCommentOp? || op.DeleteUserOp?
    ensures CommentFits(s, op, Step(s, op), c, u)
  {
  }

  lemma OthersKeepComments(s: State, op: Op)
    requires TicketInv(s)
    requires !op.CreateCommentOp? && !op.EditCommentOp? && !op.DeleteCommentOp? && !op.DeleteUserOp?
    ensures Step(s, op).comments == s.comments && Step(s, op).mentions == s.mentions
  {
    if op.EscalateOp? {
      EL.EscalateWhole(s, op.now);
    } else if op.ImportOp? && op.records.Some? {
      ImportInv(s, op.js, op.records.value, op.project);
    }
  }

  // ----- users -----

  ghost predicate Registers(s: State, op: Op) {
    op.CreateUserOp? && forall u :: u in s.users ==> !SameName(s.users[u].username, op.user.username)
  }

  /** User u after an operation. */
  ghost function UserAfter(s: State, op: Op, u: int): Option<User> {
    if Registers(s, op) && u == s.nextUser then Some(op.user)
    else if u !in s.users || (op.DeleteUserOp? && u == op.id && Removable(s, u, op.referenced)) then None
    else if op.UpdateUserOp? && u == op.id then
      var name := if op.fullName.Some? then op.fullName.value else s.users[u].fullName;
      var rights := if op.role.Some? then op.role.value else s.users[u].role;
      Some(User(s.users[u].username, name, rights, s.users[u].createdAt))
    else Some(s.users[u])
  }

  ghost predicate UserFits(s: State, op: Op, after: State, u: int) {
    (if u in after.users then Some(after.users[u]) else None) == UserAfter(s, op, u)
  }

  /** Any user after any operation. */
  lemma UserAfterStep(s: State, op: Op, u: int)
    requires TicketInv(s)
    ensures UserFits(s, op, Step(s, op), u)
  {
    if op.CreateUserOp? {
      RegisteredAfter(s, op, u);
    } else if op.UpdateUserOp? || op.DeleteUserOp? {
      ChangedAfter(s, op, u);
    } else {
      OthersKeepUsers(s, op);
    }
  }

  lemma RegisteredAfter(s: State, op: Op, u: int)
    requires op.CreateUserOp?
    ensures UserFits(s, op, Step(s, op), u)
  {
    forall v | v in s.users
      ensures SameName(s.users[v].username, op.user.username)
         <==> Lower(s.users[v].username) == Lower(op.user.username)
    {
      SameNameIsLower(s.users[v].username, op.user.username);
    }
  }

  lemma ChangedAfter(s: State, op: Op, u: int)
    requires op.UpdateUserOp? || op.DeleteUserOp?
    ensures UserFits(s, op, Step(s, op), u)
  {
  }

  lemma OthersKeepUsers(s: State, op: Op)
    requires TicketInv(s) && !op.CreateUserOp? && !op.UpdateUserOp? && !op.DeleteUserOp?
    ensures Step(s, op).users == s.users
  {
    if op.EscalateOp? {
      EL.EscalateWhole(s, op.now);
    } else if op.ImportOp? && op.records.Some? {
      ImportInv(s, op.js, op.records.value, op.project);
    }
  }
}
