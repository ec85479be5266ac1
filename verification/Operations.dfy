/** What each service operation, run without interference, does to the database and answers. */
module Operations {
  import opened Schema
  import opened Graph
  import opened TicketTable
  import opened Diffing
  import opened MentionParser
  import opened Csv

  // ----- tickets -----

  /** The first workload row, when there is a developer at all. */
  ghost predicate LegalPick(s: State, project: int, pick: Option<int>) {
    if pick.Some? then FirstInWorkload(s.tickets, s.users, project, s.nextTicket, pick.value)
    else forall u :: !IsDeveloper(s.users, u)
  }

  function InsertTicket(s: State, row: Ticket): State {
    s.(tickets := s.tickets[s.nextTicket := row], nextTicket := s.nextTicket + 1)
  }

  function CreatedEntry(id: int, row: Ticket, who: int): Entry {
    Entry(CREATE, TICKET, id, Some(who), USER_ACTOR,
          TicketCreated(row.title, row.project, row.kind, row.status, row.priority, row.assignee))
  }

  /** The assignee chosen by the system: only when the request names none. */
  function AutoAssignee(dto: CreateDto, pick: Option<int>): Option<int> {
    if dto.assignee.Some? then None else pick
  }

  function WithAssignee(dto: CreateDto, pick: Option<int>): CreateDto {
    dto.(assignee := if dto.assignee.Some? then dto.assignee else pick)
  }

  /** TicketsService.create; pick is the first row of the workload query. */
  function CreateTicket(s: State, dto: CreateDto, who: int, pick: Option<int>): (State, Result<int>) {
    if dto.project !in s.projects then (s, Err(NotFound))
    else if dto.assignee.Some? && dto.assignee.value !in s.users then (s, Err(NotFound))
    else
      var id, auto, row := s.nextTicket, AutoAssignee(dto, pick), NewRow(WithAssignee(dto, pick));
      var s1 := Logged(InsertTicket(s, row), CreatedEntry(id, row, who));
      var s2 := if auto.None? then s1
                else Logged(s1, Entry(AUTO_ASSIGN, TICKET, id, None, SYSTEM_ACTOR, AutoAssigned(auto.value)));
      (s2, Ok(id))
  }

  /** Why a PATCH is refused; None when it goes through. */
  function PatchError(s: State, id: int, dto: UpdateDto): Option<Error> {
    if dto.patch == EMPTY_PATCH || dto.version.None? then Some(BadRequest)
    else if !Active(s.tickets, id) then Some(NotFound)
    else
      var before := s.tickets[id];
      if ReadError(before, dto.patch).Some? then ReadError(before, dto.patch)
      else if dto.patch.status == Some(DONE) && Unresolved(s.tickets, s.deps, id) != {} then Some(Conflict)
      else if dto.patch.assignee.Some? && dto.patch.assignee.value !in s.users then Some(NotFound)
      else if dto.version.value != before.version then Some(Conflict)
      else None
  }

  function UpdatedEntry(id: int, before: Ticket, after: Ticket, who: int): Entry {
    Entry(UPDATE, TICKET, id, Some(who), USER_ACTOR, Diff(DiffOf(before, after, FieldSet(TICKET_FIELDS))))
  }

  /** TicketsService.update. */
  function PatchTicket(s: State, id: int, dto: UpdateDto, who: int): (State, Result<Ticket>) {
    var error := PatchError(s, id, dto);
    if error.Some? then (s, Err(error.value))
    else
      var before := s.tickets[id];
      var after := Patched(before, dto.patch, dto.patch.priority.Some?);
      (Logged(s.(tickets := s.tickets[id := after]), UpdatedEntry(id, before, after, who)), Ok(after))
  }

  function TicketEntry(action: Action, id: int, t: Ticket, who: int): Entry {
    Entry(action, TICKET, id, Some(who), USER_ACTOR, TicketRef(t.title, t.project))
  }

  /** TicketsService.softDelete. */
  function DeleteTicket(s: State, id: int, who: int): (State, Result<()>) {
    if !Active(s.tickets, id) then (s, Err(NotFound))
    else (Logged(s.(tickets := SoftDelete(s.tickets, id)), TicketEntry(DELETE, id, s.tickets[id], who)), Ok(()))
  }

  /** TicketsService.restore. */
  function RestoreTicket(s: State, id: int, who: int): (State, Result<()>) {
    if id !in s.tickets then (s, Err(NotFound))
    else if !s.tickets[id].deleted then (s, Err(Conflict))
    else (Logged(s.(tickets := Restore(s.tickets, id)), TicketEntry(RESTORE, id, s.tickets[id], who)), Ok(()))
  }

  // ----- dependencies -----

  function DependencyEntry(action: Action, t: int, b: int, who: int): Entry {
    Entry(action, DEPENDENCY, t, Some(who), USER_ACTOR, DependencyRef(t, b))
  }

  /** Why "t is blocked by b" is refused. */
  ghost function DependencyError(s: State, t: int, b: int): Option<Error> {
    if t == b then Some(BadRequest)
    else if !Active(s.tickets, t) || !Active(s.tickets, b) then Some(NotFound)
    else if s.tickets[t].project != s.tickets[b].project then Some(BadRequest)
    else if Reach(s.deps, b, t) then Some(BadRequest)
    else None
  }

  /** DependenciesService.add, check and insert taken together. */
  ghost function AddDependency(s: State, t: int, b: int, who: int): (State, Result<()>) {
    var error := DependencyError(s, t, b);
    if error.Some? then (s, Err(error.value))
    else if (t, b) in s.deps then (s, Ok(()))
    else (Logged(s.(deps := s.deps + {(t, b)}), DependencyEntry(CREATE, t, b, who)), Ok(()))
  }

  /** DependenciesService.remove. */
  function RemoveDependency(s: State, t: int, b: int, who: int): (State, Result<()>) {
    if (t, b) !in s.deps then (s, Err(NotFound))
    else (Logged(s.(deps := s.deps - {(t, b)}), DependencyEntry(DELETE, t, b, who)), Ok(()))
  }

  // ----- escalation -----

  datatype Summary = Summary(scanned: nat, promoted: nat, markedOverdue: nat, skipped: nat)

  datatype Outcome = Promoted | Marked | Skipped

  function EscalationEntry(id: int, scanned: Ticket, change: Escalation): Entry {
    Entry(PRIORITY_ESCALATED, TICKET, id, None, SYSTEM_ACTOR,
          match change
          case Promote(next) => Promotion(scanned.priority, next)
          case MarkOverdue => OverdueFlagged)
  }

  function RowOutcome(s: State, row: (int, Ticket)): Outcome {
    match Decision(row.1)
    case None => Skipped
    case Some(Promote(_)) => if Open(s.tickets, row.0) then Promoted else Skipped
    case Some(MarkOverdue) => if Open(s.tickets, row.0) then Marked else Skipped
  }

  /** One iteration of the escalation loop. */
  function EscalateRow(s: State, row: (int, Ticket)): State {
    match Decision(row.1)
    case None => s
    case Some(change) =>
      if Open(s.tickets, row.0)
      then Logged(s.(tickets := ApplyEscalation(s.tickets, row.0, change).0), EscalationEntry(row.0, row.1, change))
      else s
  }

  function Count(m: Summary, o: Outcome): Summary {
    match o
    case Promoted => m.(promoted := m.promoted + 1)
    case Marked => m.(markedOverdue := m.markedOverdue + 1)
    case Skipped => m.(skipped := m.skipped + 1)
  }

  function EscalateRows(s: State, rows: seq<(int, Ticket)>): (State, Summary) {
    if rows == [] then (s, Summary(0, 0, 0, 0))
    else
      var (mid, m) := EscalateRows(s, rows[..|rows| - 1]);
      var row := rows[|rows| - 1];
      (EscalateRow(mid, row), Count(m, RowOutcome(mid, row)).(scanned := m.scanned + 1))
  }

  /** EscalationService.runOnce at clock now, without interference. */
  function Escalate(s: State, now: int): (State, Summary) {
    EscalateRows(s, OverdueRows(s.tickets, now, s.nextTicket))
  }

  // ----- CSV import -----

  /** Validation, and the foreign key a missing assignee violates on insert. */
  function CheckRow(users: map<int, User>, js: Runtime, raw: Record, project: int): (r: RowResult)
    ensures r.Valid? && r.dto.assignee.Some? ==> r.dto.assignee.value in users
  {
    match ValidateRow(js, raw, project)
    case Invalid(e) => Invalid(e)
    case Valid(dto) => if dto.assignee.Some? && dto.assignee.value !in users then Invalid(InsertFailed) else Valid(dto)
  }

  /** The insert of a checked row; one that violates the foreign key still uses up an id. */
  function InsertChecked(s: State, checked: RowResult): (State, Option<RowError>) {
    match checked
    case Invalid(e) => (if e == InsertFailed then s.(nextTicket := s.nextTicket + 1) else s, Some(e))
    case Valid(dto) => (InsertTicket(s, NewRow(dto)), None)
  }

  function ImportRow(s: State, js: Runtime, raw: Record, project: int): (State, Option<RowError>) {
    InsertChecked(s, CheckRow(s.users, js, raw, project))
  }

  datatype ImportResult = ImportResult(state: State, created: seq<int>, errors: seq<(nat, RowError)>)

  /** The loop of importIntoProject: ids created, and (1-based row, message) of the failures. */
  function ImportRows(s: State, js: Runtime, records: seq<Record>, project: int): ImportResult {
    if records == [] then ImportResult(s, [], [])
    else
      var n := |records| - 1;
      var r := ImportRows(s, js, records[..n], project);
      var (next, error) := ImportRow(r.state, js, records[n], project);
      if error.Some? then ImportResult(next, r.created, r.errors + [(n + 1, error.value)])
      else ImportResult(next, r.created + [r.state.nextTicket], r.errors)
  }

  datatype ImportSummary = ImportSummary(created: nat, failed: nat, errors: seq<(nat, RowError)>)

  /** CsvImportService.importIntoProject; records is None when the text does not parse. */
  function ImportCsv(s: State, js: Runtime, project: int, records: Option<seq<Record>>, who: int)
    : (State, Result<ImportSummary>)
  {
    if project !in s.projects then (s, Err(NotFound))
    else if records.None? then (s, Err(BadRequest))
    else
      var r := ImportRows(s, js, records.value, project);
      (Logged(r.state, Entry(CREATE, PROJECT, project, Some(who), USER_ACTOR, CsvImported(|r.created|, |r.errors|))),
       Ok(ImportSummary(|r.created|, |r.errors|, r.errors)))
  }

  // ----- users and projects -----

  /** An accepted create, edit, soft delete or restore of a project. */
  datatype ProjectChange = CreateProject | EditProject | DeleteProject | RestoreProject

  function ProjectEntry(project: int, change: ProjectChange, who: int): Entry {
    var action := match change
                  case CreateProject => CREATE
                  case EditProject => UPDATE
                  case DeleteProject => DELETE
                  case RestoreProject => RESTORE;
    Entry(action, PROJECT, project, Some(who), USER_ACTOR, ProjectRef)
  }

  /** The active projects after the change. */
  function ProjectsAfter(projects: set<int>, project: int, change: ProjectChange): set<int> {
    match change
    case EditProject => projects
    case DeleteProject => projects - {project}
    case _ => projects + {project}
  }

  /** The operations of ProjectsService, of which only whether a project is active matters here. */
  function ChangeProject(s: State, project: int, change: ProjectChange, who: int): State {
    Logged(s.(projects := ProjectsAfter(s.projects, project, change)), ProjectEntry(project, change, who))
  }

  function UserEntry(action: Action, id: int, u: User, who: int): Entry {
    Entry(action, USER, id, Some(who), USER_ACTOR, UserRef(u.username, u.role))
  }

  /** The difference of the two mutable columns. */
  function UserUpdatedEntry(id: int, before: User, after: User, who: int): Entry {
    Entry(UPDATE, USER, id, Some(who), USER_ACTOR,
          UserDiff(if before.fullName != after.fullName then Some((before.fullName, after.fullName)) else None,
                   if before.role != after.role then Some((before.role, after.role)) else None))
  }

  predicate NameTaken(users: map<int, User>, username: string) {
    exists u :: u in users && Lower(users[u].username) == Lower(username)
  }

  function CreateUser(s: State, user: User, who: Option<int>): (State, Result<int>) {
    if NameTaken(s.users, user.username) then (s, Err(Conflict))
    else
      var id := s.nextUser;
      (Logged(s.(users := s.users[id := user], nextUser := id + 1), UserEntry(CREATE, id, user, who.GetOr(id))), Ok(id))
  }

  function UpdateUser(s: State, id: int, fullName: Option<string>, role: Option<Role>, who: int)
    : (State, Result<User>)
  {
    if fullName.None? && role.None? then (s, Err(BadRequest))
    else if id !in s.users then (s, Err(NotFound))
    else
      var before := s.users[id];
      var after := before.(fullName := fullName.GetOr(before.fullName), role := role.GetOr(before.role));
      (Logged(s.(users := s.users[id := after]), UserUpdatedEntry(id, before, after, who)), Ok(after))
  }

  predicate HasComments(s: State, user: int) {
    exists c :: c in s.comments && s.comments[c].author == user
  }

  /** UsersService.delete with the foreign-key actions: restrict on authored comments (and on the
      projects and attachments summed up in referenced), cascade to mentions, clear assignees. */
  function DeleteUser(s: State, id: int, referenced: bool, who: int): (State, Result<()>) {
    if id !in s.users then (s, Err(NotFound))
    else if referenced || HasComments(s, id) then (s, Err(Internal))
    else
      var s1 := s.(users := s.users - {id}, tickets := ClearAssignee(s.tickets, id),
                   mentions := set p | p in s.mentions && p.1 != id);
      (Logged(s1, UserEntry(DELETE, id, s.users[id], who)), Ok(()))
  }

  // ----- comments -----

  /** The registered users whose lower-cased names the text mentions. */
  function MentionedUsers(users: map<int, User>, content: string): set<int> {
    set u | u in users && Lower(users[u].username) in ParseMentions(content)
  }

  function CommentEntry(action: Action, id: int, who: int, meta: Metadata): Entry {
    Entry(action, COMMENT, id, Some(who), USER_ACTOR, meta)
  }

  /** One of the first so many statements of a call is the one that raises; they count from 0. */
  predicate Fails(failAt: Option<nat>, statements: nat) {
    failAt.Some? && failAt.value < statements
  }

  /** The usernames are looked up unless the text names none. */
  function NameLookups(content: string): nat {
    if ParseMentions(content) == [] then 0 else 1
  }

  /** BEGIN, INSERT comment, INSERT mentions unless there are none, INSERT audit, COMMIT. */
  function CreateStatements(mentioned: set<int>): nat {
    if mentioned == {} then 4 else 5
  }

  /** The statements of a create up to BEGIN: ticket, author, usernames. */
  function BeforeCreate(content: string): nat {
    2 + NameLookups(content)
  }

  /** The statements of a create up to and with COMMIT; after them the mentions are read back. */
  function CreateCommit(users: map<int, User>, content: string): nat {
    BeforeCreate(content) + CreateStatements(MentionedUsers(users, content))
  }

  function CommittedComment(s: State, c: Comment, mentioned: set<int>, who: int): State {
    var id := s.nextComment;
    s.(comments := s.comments[id := c], nextComment := id + 1,
       mentions := s.mentions + MentionPairs(id, mentioned),
       log := s.log + [CommentEntry(CREATE, id, who, CommentCreated(c.ticket, c.author, mentioned))])
  }

  /** A create that has passed its checks: the transaction, with BEGIN as statement number begin and commit
      the number after COMMIT, and the read-back. A rolled-back insert still uses up an id; a read-back that
      raises undoes nothing. */
  function CreateChecked(s: State, c: Comment, mentioned: set<int>, who: int, begin: nat, commit: nat,
                         failAt: Option<nat>)
    : (State, Result<int>)
  {
    if Fails(failAt, commit) then
      (s.(nextComment := if failAt.value <= begin + 1 then s.nextComment else s.nextComment + 1), Err(Internal))
    else (CommittedComment(s, c, mentioned, who), if failAt == Some(commit) then Err(Internal) else Ok(s.nextComment))
  }

  /** CommentsService.create at clock now, when its statement number failAt raises. */
  function CreateComment(s: State, ticket: int, author: int, content: string, now: int, who: int, failAt: Option<nat>)
    : (State, Result<int>)
  {
    if failAt == Some(0) then (s, Err(Internal))
    else if !Active(s.tickets, ticket) then (s, Err(NotFound))
    else if failAt == Some(1) then (s, Err(Internal))
    else if author !in s.users then (s, Err(NotFound))
    else
      CreateChecked(s, Comment(ticket, author, content, 1, now), MentionedUsers(s.users, content), who,
                    BeforeCreate(content), CreateCommit(s.users, content), failAt)
  }

  function WithoutMentionsOf(mentions: set<(int, int)>, comment: int): set<(int, int)> {
    set p | p in mentions && p.0 != comment
  }

  function CommittedEdit(s: State, id: int, content: string, mentioned: set<int>, who: int): State
    requires id in s.comments
  {
    var c := s.comments[id];
    s.(comments := s.comments[id := c.(content := content, version := c.version + 1)],
       mentions := WithoutMentionsOf(s.mentions, id) + MentionPairs(id, mentioned),
       log := s.log + [CommentEntry(UPDATE, id, who, CommentEdited(c.content != content, mentioned))])
  }

  /** BEGIN, UPDATE, then for a current version DELETE mentions, INSERT mentions unless there are none
      and INSERT audit, then COMMIT. */
  function UpdateStatements(stale: bool, mentioned: set<int>): nat {
    if stale then 3 else if mentioned == {} then 5 else 6
  }

  /** The statements of an edit up to and with COMMIT: comment, usernames, transaction; after them the
      mentions, or for a stale version the live row, are read back. */
  function EditCommit(users: map<int, User>, content: string, stale: bool): nat {
    1 + NameLookups(content) + UpdateStatements(stale, MentionedUsers(users, content))
  }

  /** An edit that has passed its checks: the transaction, and the read-back. */
  function EditChecked(s: State, id: int, content: string, mentioned: set<int>, who: int, stale: bool, commit: nat,
                       failAt: Option<nat>)
    : (State, Result<int>)
    requires id in s.comments
  {
    if Fails(failAt, commit) then (s, Err(Internal))
    else
      (if stale then s else CommittedEdit(s, id, content, mentioned, who),
       if failAt == Some(commit) then Err(Internal) else if stale then Err(Conflict) else Ok(id))
  }

  /** CommentsService.update, when its statement number failAt raises. */
  function EditComment(s: State, ticket: int, id: int, content: string, version: Option<int>, who: int,
                       failAt: Option<nat>)
    : (State, Result<int>)
  {
    if version.None? then (s, Err(BadRequest))
    else if failAt == Some(0) then (s, Err(Internal))
    else if id !in s.comments || s.comments[id].ticket != ticket then (s, Err(NotFound))
    else
      var stale := s.comments[id].version != version.value;
      var commit := EditCommit(s.users, content, stale);
      EditChecked(s, id, content, MentionedUsers(s.users, content), who, stale, commit, failAt)
  }

  /** CommentsService.delete, with the cascade to the mention rows. */
  function DeleteComment(s: State, ticket: int, id: int, who: int): (State, Result<()>) {
    if id !in s.comments || s.comments[id].ticket != ticket then (s, Err(NotFound))
    else
      var s1 := s.(comments := s.comments - {id}, mentions := WithoutMentionsOf(s.mentions, id));
      (Logged(s1, CommentEntry(DELETE, id, who, CommentRef(ticket, s.comments[id].author))), Ok(()))
  }
}
