/** The rows of the database tables, the request bodies, and the audit entries. */
module Schema {

  datatype Option<+T> = None | Some(value: T) {
    function GetOr(default: T): T {
      match this
      case Some(v) => v
      case None => default
    }
  }

  /** The failures a service raises; Internal is a database error it lets through. */
  datatype Error = BadRequest | NotFound | Conflict | Internal

  datatype Result<+T> = Ok(value: T) | Err(error: Error)

  datatype Status = TODO | IN_PROGRESS | IN_REVIEW | DONE
  datatype Priority = LOW | MEDIUM | HIGH | CRITICAL
  datatype TicketType = BUG | FEATURE | TECHNICAL
  datatype Role = ADMIN | DEVELOPER

  /** STATUS_ORDER of the tickets service. */
  function StatusRank(s: Status): nat {
    match s
    case TODO => 0
    case IN_PROGRESS => 1
    case IN_REVIEW => 2
    case DONE => 3
  }

  /** The position of a priority on PRIORITY_LADDER. */
  function PriorityRank(p: Priority): nat {
    match p
    case LOW => 0
    case MEDIUM => 1
    case HIGH => 2
    case CRITICAL => 3
  }

  datatype Ticket = Ticket(
    title: string, description: Option<string>, status: Status, priority: Priority, kind: TicketType,
    project: int, assignee: Option<int>, dueDate: Option<int>, isOverdue: bool, version: int, deleted: bool)

  datatype User = User(username: string, fullName: string, role: Role, createdAt: int)

  datatype Comment = Comment(ticket: int, author: int, content: string, version: int, createdAt: int)

  datatype CreateDto = CreateDto(
    title: string, description: Option<string>, status: Option<Status>, priority: Option<Priority>,
    kind: TicketType, project: int, assignee: Option<int>, dueDate: Option<int>)

  /** The updatable columns of a PATCH body. */
  datatype Patch = Patch(
    title: Option<string>, description: Option<string>, status: Option<Status>,
    priority: Option<Priority>, assignee: Option<int>, dueDate: Option<int>)

  const EMPTY_PATCH := Patch(None, None, None, None, None, None)

  datatype UpdateDto = UpdateDto(patch: Patch, version: Option<int>)

  // ----- audit log -----

  datatype Action = CREATE | UPDATE | DELETE | RESTORE | AUTO_ASSIGN | PRIORITY_ESCALATED
  datatype Actor = USER_ACTOR | SYSTEM_ACTOR
  datatype Entity = USER | PROJECT | TICKET | COMMENT | DEPENDENCY

  datatype Field = FTitle | FDescription | FStatus | FPriority | FAssignee | FDueDate | FIsOverdue
  datatype FieldValue =
    | Text(text: Option<string>)
    | StatusValue(status: Status)
    | PriorityValue(priority: Priority)
    | Id(id: Option<int>)
    | Time(time: Option<int>)
    | Flag(flag: bool)
  datatype Change = Change(from: FieldValue, to: FieldValue)

  datatype Metadata =
    | TicketCreated(
        title: string, project: int, kind: TicketType, status: Status, priority: Priority, assignee: Option<int>)
    | AutoAssigned(assigneeId: int)
    | Diff(changes: map<Field, Change>)
    | Promotion(from: Priority, to: Priority)
    | OverdueFlagged
    | TicketRef(title: string, project: int)
    | DependencyRef(ticketId: int, blockedBy: int)
    | CsvImported(created: int, failed: int)
    | CommentCreated(ticketId: int, authorId: int, mentioned: set<int>)
    | CommentEdited(contentChanged: bool, mentioned: set<int>)
    | CommentRef(ticketId: int, authorId: int)
    | UserRef(username: string, role: Role)
    | UserDiff(names: Option<(string, string)>, roles: Option<(Role, Role)>)
    | ProjectRef

  datatype Entry = Entry(
    action: Action, entity: Entity, entityId: int, performedBy: Option<int>, actor: Actor, meta: Metadata)

  // ----- the whole database -----

  /** Every table, the id sequences, and a script of audit-insert outages: the n-th stand-alone
      audit insert from now on fails exactly when outages[n] is true. */
  datatype State = State(
    tickets: map<int, Ticket>, nextTicket: nat,
    deps: set<(int, int)>,
    users: map<int, User>, nextUser: nat,
    projects: set<int>,
    comments: map<int, Comment>, nextComment: nat,
    mentions: set<(int, int)>,
    log: seq<Entry>, outages: seq<bool>)

  const EMPTY_STATE := State(map[], 1, {}, map[], 1, {}, map[], 1, {}, [], [])

  /** AuditService.log: the insert is attempted, a failure is swallowed. */
  function Logged(s: State, e: Entry): (r: State)
    ensures r == s.(log := r.log, outages := r.outages)
    ensures r.log == s.log || r.log == s.log + [e]
    ensures s.outages == [] ==> r.log == s.log + [e] && r.outages == []
  {
    if s.outages == [] then s.(log := s.log + [e])
    else if s.outages[0] then s.(outages := s.outages[1..])
    else s.(log := s.log + [e], outages := s.outages[1..])
  }

  /** The row exists and is not soft-deleted. */
  predicate Active(tickets: map<int, Ticket>, id: int) {
    id in tickets && !tickets[id].deleted
  }

  /** The row is visible and not resolved. */
  predicate Open(tickets: map<int, Ticket>, id: int) {
    Active(tickets, id) && tickets[id].status != DONE
  }

  /** The mention rows that name the given users in one comment. */
  function MentionPairs(comment: int, users: set<int>): (pairs: set<(int, int)>)
    ensures forall u :: u in users ==> (comment, u) in pairs
    ensures forall p :: p in pairs ==> p.0 == comment && p.1 in users
  {
    set u | u in users :: (comment, u)
  }
}
