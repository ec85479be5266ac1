/** Stand-alone audit inserts may fail without any effect but the missing entries: under every script of
    outages a run has the same tables and gives the same answers as without, and its log is the complete
    log with exactly the failed inserts left out. */
module AuditOutages {
  import opened Schema
  import opened TicketTable
  import opened Operations
  import opened System
  import Csv

  // ----- the log that outages leave -----

  /** Written inside a comment transaction: such an entry cannot get lost by itself. */
  predicate Transactional(e: Entry) {
    e.entity == COMMENT && (e.action == CREATE || e.action == UPDATE)
  }

  /** The log so far, and the outages still to come. */
  datatype Trail = Trail(log: seq<Entry>, outages: seq<bool>)

  /** The next entry of the complete log is attempted. */
  function Attempt(t: Trail, e: Entry): Trail {
    if Transactional(e) || t.outages == [] then t.(log := t.log + [e])
    else Trail(if t.outages[0] then t.log else t.log + [e], t.outages[1..])
  }

  /** What is left of a complete log: each stand-alone insert meets the next item of the script. */
  function Surviving(complete: seq<Entry>, outages: seq<bool>): Trail {
    if complete == [] then Trail([], outages)
    else Attempt(Surviving(complete[..|complete| - 1], outages), complete[|complete| - 1])
  }

  lemma SurvivingSnoc(complete: seq<Entry>, outages: seq<bool>, e: Entry)
    ensures Surviving(complete + [e], outages) == Attempt(Surviving(complete, outages), e)
  {
    assert (complete + [e])[..|complete|] == complete;
  }

  /** Equal up to the audit log. */
  ghost predicate SameData(a: State, b: State) {
    a == b.(log := a.log, outages := a.outages)
  }

  /** State a, under the script, is state b, without outages, but for the entries that failed. */
  ghost predicate Mirrors(a: State, b: State, outages: seq<bool>) {
    SameData(a, b) && b.outages == [] && Trail(a.log, a.outages) == Surviving(b.log, outages)
  }

  lemma LoggedMirrors(a: State, b: State, outages: seq<bool>, e: Entry)
    requires Mirrors(a, b, outages) && !Transactional(e)
    ensures Mirrors(Logged(a, e), Logged(b, e), outages)
  {
    SurvivingSnoc(b.log, outages, e);
  }

  /** The same change of tables on both sides. */
  lemma ChangedMirrors(a: State, b: State, a': State, b': State, outages: seq<bool>)
    requires Mirrors(a, b, outages) && SameData(a', b')
    requires a'.log == a.log && a'.outages == a.outages && b'.log == b.log && b'.outages == b.outages
    ensures Mirrors(a', b', outages)
  {
  }

  /** The same change of tables and one stand-alone entry. */
  lemma ChangedAndLogged(a: State, b: State, a': State, b': State, outages: seq<bool>, e: Entry)
    requires Mirrors(a, b, outages) && SameData(a', b') && !Transactional(e)
    requires a'.log == a.log && a'.outages == a.outages && b'.log == b.log && b'.outages == b.outages
    ensures Mirrors(Logged(a', e), Logged(b', e), outages)
  {
    ChangedMirrors(a, b, a', b', outages);
    LoggedMirrors(a', b', outages, e);
  }

  // ----- answers -----

  datatype Answer =
    | IdAnswer(id: Result<int>)
    | RowAnswer(row: Result<Ticket>)
    | UserAnswer(user: Result<User>)
    | ImportAnswer(summary: Result<ImportSummary>)
    | CycleAnswer(counts: Summary)
    | PlainAnswer(done: Result<()>)

  /** What the caller of an operation gets. */
  ghost function AnswerOf(s: State, op: Op): Answer {
    match op
    case CreateTicketOp(dto, who, pick) => IdAnswer(CreateTicket(s, dto, who, pick).1)
    case ImportOp(js, project, records, who) => ImportAnswer(ImportCsv(s, js, project, records, who).1)
    case PatchOp(id, dto, who) => RowAnswer(PatchTicket(s, id, dto, who).1)
    case DeleteOp(id, who) => PlainAnswer(DeleteTicket(s, id, who).1)
    case RestoreOp(id, who) => PlainAnswer(RestoreTicket(s, id, who).1)
    case AddDependencyOp(t, b, who) => PlainAnswer(AddDependency(s, t, b, who).1)
    case RemoveDependencyOp(t, b, who) => PlainAnswer(RemoveDependency(s, t, b, who).1)
    case EscalateOp(now) => CycleAnswer(Escalate(s, now).1)
    case CreateUserOp(user, creator) => IdAnswer(CreateUser(s, user, creator).1)
    case UpdateUserOp(id, fullName, role, who) => UserAnswer(UpdateUser(s, id, fullName, role, who).1)
    case DeleteUserOp(id, referenced, who) => PlainAnswer(DeleteUser(s, id, referenced, who).1)
    case ProjectOp(_, _, _) => PlainAnswer(Ok(()))
    case CreateCommentOp(ticket, author, content, now, who, failAt) =>
      IdAnswer(CreateComment(s, ticket, author, content, now, who, failAt).1)
    case EditCommentOp(ticket, id, content, version, who, failAt) =>
      IdAnswer(EditComment(s, ticket, id, content, version, who, failAt).1)
    case DeleteCommentOp(ticket, id, who) => PlainAnswer(DeleteComment(s, ticket, id, who).1)
  }

  /** The step keeps the two states mirrored and answers the same. */
  ghost predicate Agree(a: State, b: State, op: Op, outages: seq<bool>) {
    Mirrors(Step(a, op), Step(b, op), outages) && AnswerOf(a, op) == AnswerOf(b, op)
  }

  // ----- operations -----

  lemma CreateAgrees(a: State, b: State, op: Op, outages: seq<bool>)
    requires Mirrors(a, b, outages) && op.CreateTicketOp?
    ensures Agree(a, b, op, outages)
  {
    if CreateTicket(a, op.dto, op.who, op.pick).1.Ok? {
      var row, auto := NewRow(WithAssignee(op.dto, op.pick)), AutoAssignee(op.dto, op.pick);
      var e := CreatedEntry(a.nextTicket, row, op.who);
      ChangedAndLogged(a, b, InsertTicket(a, row), InsertTicket(b, row), outages, e);
      if auto.Some? {
        LoggedMirrors(Logged(InsertTicket(a, row), e), Logged(InsertTicket(b, row), e), outages,
                      Entry(AUTO_ASSIGN, TICKET, a.nextTicket, None, SYSTEM_ACTOR, AutoAssigned(auto.value)));
      }
    }
  }

  lemma PatchAgrees(a: State, b: State, op: Op, outages: seq<bool>)
    requires Mirrors(a, b, outages) && op.PatchOp?
    ensures Agree(a, b, op, outages)
  {
    if PatchError(a, op.id, op.patch).None? {
      var before := a.tickets[op.id];
      var after := Patched(before, op.patch.patch, op.patch.patch.priority.Some?);
      ChangedAndLogged(a, b, a.(tickets := a.tickets[op.id := after]), b.(tickets := b.tickets[op.id := after]),
                       outages, UpdatedEntry(op.id, before, after, op.who));
    }
  }

  lemma MarkAgrees(a: State, b: State, op: Op, outages: seq<bool>)
    requires Mirrors(a, b, outages) && (op.DeleteOp? || op.RestoreOp?)
    ensures Agree(a, b, op, outages)
  {
    if op.DeleteOp? && Active(a.tickets, op.id) {
      var after := SoftDelete(a.tickets, op.id);
      ChangedAndLogged(a, b, a.(tickets := after), b.(tickets := after), outages,
                       TicketEntry(DELETE, op.id, a.tickets[op.id], op.who));
    } else if op.RestoreOp? && op.id in a.tickets && a.tickets[op.id].deleted {
      var after := Restore(a.tickets, op.id);
      ChangedAndLogged(a, b, a.(tickets := after), b.(tickets := after), outages,
                       TicketEntry(RESTORE, op.id, a.tickets[op.id], op.who));
    }
  }

  lemma DependencyAgrees(a: State, b: State, op: Op, outages: seq<bool>)
    requires Mirrors(a, b, outages) && (op.AddDependencyOp? || op.RemoveDependencyOp?)
    ensures Agree(a, b, op, outages)
  {
    if op.AddDependencyOp? {
      var after := a.deps + {(op.t, op.b)};
      ChangedAndLogged(a, b, a.(deps := after), b.(deps := after), outages,
                       DependencyEntry(CREATE, op.t, op.b, op.who));
    } else {
      var after := a.deps - {(op.t, op.b)};
      ChangedAndLogged(a, b, a.(deps := after), b.(deps := after), outages,
                       DependencyEntry(DELETE, op.t, op.b, op.who));
    }
  }

  lemma CreateUserAgrees(a: State, b: State, op: Op, outages: seq<bool>)
    requires Mirrors(a, b, outages) && op.CreateUserOp?
    ensures Agree(a, b, op, outages)
  {
    var id, users := a.nextUser, a.users[a.nextUser := op.user];
    ChangedAndLogged(a, b, a.(users := users, nextUser := id + 1), b.(users := users, nextUser := id + 1), outages,
                     UserEntry(CREATE, id, op.user, op.creator.GetOr(id)));
  }

  lemma UpdateUserAgrees(a: State, b: State, op: Op, outages: seq<bool>)
    requires Mirrors(a, b, outages) && op.UpdateUserOp?
    ensures Agree(a, b, op, outages)
  {
    if op.id in a.users {
      var u := a.users[op.id].(fullName := op.fullName.GetOr(a.users[op.id].fullName),
                               role := op.role.GetOr(a.users[op.id].role));
      var users := a.users[op.id := u];
      ChangedAndLogged(a, b, a.(users := users), b.(users := users), outages,
                       UserUpdatedEntry(op.id, a.users[op.id], u, op.who));
    }
  }

  lemma DeleteUserAgrees(a: State, b: State, op: Op, outages: seq<bool>)
    requires Mirrors(a, b, outages) && op.DeleteUserOp?
    ensures Agree(a, b, op, outages)
  {
    if op.id in a.users {
      var mentions := set p | p in a.mentions && p.1 != op.id;
      var users, tickets := a.users - {op.id}, ClearAssignee(a.tickets, op.id);
      ChangedAndLogged(a, b, a.(users := users, tickets := tickets, mentions := mentions),
                       b.(users := users, tickets := tickets, mentions := mentions), outages,
                       UserEntry(DELETE, op.id, a.users[op.id], op.who));
    }
  }

  lemma ProjectAgrees(a: State, b: State, op: Op, outages: seq<bool>)
    requires Mirrors(a, b, outages) && op.ProjectOp?
    ensures Agree(a, b, op, outages)
  {
    var projects := ProjectsAfter(a.projects, op.project, op.change);
    ChangedAndLogged(a, b, a.(projects := projects), b.(projects := projects), outages,
                     ProjectEntry(op.project, op.change, op.who));
  }

  lemma EscalateRowMirrors(a: State, b: State, row: (int, Ticket), outages: seq<bool>)
    requires Mirrors(a, b, outages)
    ensures Mirrors(EscalateRow(a, row), EscalateRow(b, row), outages) && RowOutcome(a, row) == RowOutcome(b, row)
  {
    if Decision(row.1).Some? {
      var change := Decision(row.1).value;
      var after := ApplyEscalation(a.tickets, row.0, change).0;
      ChangedAndLogged(a, b, a.(tickets := after), b.(tickets := after), outages,
                       EscalationEntry(row.0, row.1, change));
    }
  }

  lemma {:induction false} EscalateRowsMirror(a: State, b: State, rows: seq<(int, Ticket)>, outages: seq<bool>)
    requires Mirrors(a, b, outages)
    ensures Mirrors(EscalateRows(a, rows).0, EscalateRows(b, rows).0, outages)
    ensures EscalateRows(a, rows).1 == EscalateRows(b, rows).1
  {
    if rows != [] {
      var earlier := rows[..|rows| - 1];
      EscalateRowsMirror(a, b, earlier, outages);
      EscalateRowMirrors(EscalateRows(a, earlier).0, EscalateRows(b, earlier).0, rows[|rows| - 1], outages);
    }
  }

  lemma InsertCheckedMirrors(a: State, b: State, checked: Csv.RowResult, outages: seq<bool>)
    requires Mirrors(a, b, outages)
    ensures Mirrors(InsertChecked(a, checked).0, InsertChecked(b, checked).0, outages)
    ensures InsertChecked(a, checked).1 == InsertChecked(b, checked).1
  {
    ChangedMirrors(a, b, InsertChecked(a, checked).0, InsertChecked(b, checked).0, outages);
  }

  lemma {:induction false} ImportRowsMirror(a: State, b: State, js: Csv.Runtime, records: seq<Csv.Record>, project: int,
                                            outages: seq<bool>)
    requires Mirrors(a, b, outages)
    ensures var x, y := ImportRows(a, js, records, project), ImportRows(b, js, records, project);
            Mirrors(x.state, y.state, outages) && x.created == y.created && x.errors == y.errors
  {
    if records != [] {
      var n := |records| - 1;
      ImportRowsMirror(a, b, js, records[..n], project, outages);
      var x, y := ImportRows(a, js, records[..n], project).state, ImportRows(b, js, records[..n], project).state;
      InsertCheckedMirrors(x, y, CheckRow(x.users, js, records[n], project), outages);
    }
  }

  lemma ImportAgrees(a: State, b: State, op: Op, outages: seq<bool>)
    requires Mirrors(a, b, outages) && op.ImportOp?
    ensures Agree(a, b, op, outages)
  {
    if op.project in a.projects && op.records.Some? {
      ImportRowsMirror(a, b, op.js, op.records.value, op.project, outages);
      var x := ImportRows(a, op.js, op.records.value, op.project);
      var y := ImportRows(b, op.js, op.records.value, op.project);
      LoggedMirrors(x.state, y.state, outages,
                    Entry(CREATE, PROJECT, op.project, Some(op.who), USER_ACTOR, CsvImported(|x.created|, |x.errors|)));
    }
  }

  /** The entry of a comment transaction is on both logs or on none. */
  lemma TransactionMirrors(a: State, b: State, a': State, b': State, outages: seq<bool>, e: Entry)
    requires Mirrors(a, b, outages) && SameData(a', b') && Transactional(e)
    requires a'.log == a.log + [e] && a'.outages == a.outages && b'.log == b.log + [e] && b'.outages == b.outages
    ensures Mirrors(a', b', outages)
  {
    SurvivingSnoc(b.log, outages, e);
  }

  lemma CommittedCommentMirrors(a: State, b: State, c: Comment, mentioned: set<int>, who: int, outages: seq<bool>)
    requires Mirrors(a, b, outages)
    ensures Mirrors(CommittedComment(a, c, mentioned, who), CommittedComment(b, c, mentioned, who), outages)
  {
    TransactionMirrors(a, b, CommittedComment(a, c, mentioned, who), CommittedComment(b, c, mentioned, who), outages,
                       CommentEntry(CREATE, a.nextComment, who, CommentCreated(c.ticket, c.author, mentioned)));
  }

  lemma CreateCheckedAgrees(a: State, b: State, c: Comment, mentioned: set<int>, who: int, begin: nat, commit: nat,
                            failAt: Option<nat>, outages: seq<bool>)
    requires Mirrors(a, b, outages)
    ensures var x := CreateChecked(a, c, mentioned, who, begin, commit, failAt);
            var y := CreateChecked(b, c, mentioned, who, begin, commit, failAt);
            Mirrors(x.0, y.0, outages) && x.1 == y.1
  {
    CommittedCommentMirrors(a, b, c, mentioned, who, outages);
  }

  /** A create is either refused, leaving the state alone, or run with what it read. */
  ghost predicate CreateRuns(s: State, op: Op, c: Comment, mentioned: set<int>, begin: nat, commit: nat)
    requires op.CreateCommentOp?
  {
    CreateComment(s, op.ticket, op.author, op.content, op.now, op.who, op.failAt)
    == CreateChecked(s, c, mentioned, op.who, begin, commit, op.failAt)
  }

  ghost predicate CreateRefused(s: State, op: Op, e: Error)
    requires op.CreateCommentOp?
  {
    CreateComment(s, op.ticket, op.author, op.content, op.now, op.who, op.failAt) == (s, Err(e))
  }

  lemma CreateShape(a: State, b: State, op: Op) returns (c: Comment, mentioned: set<int>, begin: nat, commit: nat)
    requires SameData(a, b) && op.CreateCommentOp?
    ensures (CreateRuns(a, op, c, mentioned, begin, commit) && CreateRuns(b, op, c, mentioned, begin, commit))
         || exists e :: CreateRefused(a, op, e) && CreateRefused(b, op, e)
  {
    c := Comment(op.ticket, op.author, op.content, 1, op.now);
    mentioned := MentionedUsers(a.users, op.content);
    begin, commit := BeforeCreate(op.content), CreateCommit(a.users, op.content);
    if op.failAt == Some(0) || op.failAt == Some(1) {
      assert CreateRefused(a, op, Internal) || CreateRefused(a, op, NotFound);
    } else if !Active(a.tickets, op.ticket) || op.author !in a.users {
      assert CreateRefused(a, op, NotFound);
    }
  }

  lemma CreateCommentAgrees(a: State, b: State, op: Op, outages: seq<bool>)
    requires Mirrors(a, b, outages) && op.CreateCommentOp?
    ensures Agree(a, b, op, outages)
  {
    var c, mentioned, begin, commit := CreateShape(a, b, op);
    CreateCheckedAgrees(a, b, c, mentioned, op.who, begin, commit, op.failAt, outages);
  }

  lemma CommittedEditMirrors(a: State, b: State, id: int, content: string, mentioned: set<int>, who: int,
                             outages: seq<bool>)
    requires Mirrors(a, b, outages) && id in a.comments
    ensures Mirrors(CommittedEdit(a, id, content, mentioned, who),
                    CommittedEdit(b, id, content, mentioned, who), outages)
  {
    var e := CommentEntry(UPDATE, id, who, CommentEdited(a.comments[id].content != content, mentioned));
    TransactionMirrors(a, b, CommittedEdit(a, id, content, mentioned, who),
                       CommittedEdit(b, id, content, mentioned, who), outages, e);
  }

  lemma EditCheckedAgrees(a: State, b: State, id: int, content: string, mentioned: set<int>, who: int, stale: bool,
                          commit: nat, failAt: Option<nat>, outages: seq<bool>)
    requires Mirrors(a, b, outages) && id in a.comments
    ensures var x := EditChecked(a, id, content, mentioned, who, stale, commit, failAt);
            var y := EditChecked(b, id, content, mentioned, who, stale, commit, failAt);
            Mirrors(x.0, y.0, outages) && x.1 == y.1
  {
    CommittedEditMirrors(a, b, id, content, mentioned, who, outages);
  }

  lemma EditCommentAgrees(a: State, b: State, op: Op, outages: seq<bool>)
    requires Mirrors(a, b, outages) && op.EditCommentOp?
    ensures Agree(a, b, op, outages)
  {
    assert a.users == b.users && a.comments == b.comments;
    if op.id in a.comments && op.version.Some? {
      var stale := a.comments[op.id].version != op.version.value;
      EditCheckedAgrees(a, b, op.id, op.content, MentionedUsers(a.users, op.content), op.who, stale,
                        EditCommit(a.users, op.content, stale), op.failAt, outages);
    }
  }

  lemma DeleteCommentAgrees(a: State, b: State, op: Op, outages: seq<bool>)
    requires Mirrors(a, b, outages) && op.DeleteCommentOp?
    ensures Agree(a, b, op, outages)
  {
    if op.id in a.comments {
      var comments, mentions := a.comments - {op.id}, WithoutMentionsOf(a.mentions, op.id);
      ChangedAndLogged(a, b, a.(comments := comments, mentions := mentions),
                       b.(comments := comments, mentions := mentions), outages,
                       CommentEntry(DELETE, op.id, op.who, CommentRef(op.ticket, a.comments[op.id].author)));
    }
  }

  lemma StepAgrees(a: State, b: State, op: Op, outages: seq<bool>)
    requires Mirrors(a, b, outages)
    ensures Agree(a, b, op, outages)
  {
    match op
    case EscalateOp(now) => EscalateRowsMirror(a, b, OverdueRows(a.tickets, now, a.nextTicket), outages);
    case ImportOp(_, _, _, _) => ImportAgrees(a, b, op, outages);
    case CreateTicketOp(_, _, _) => CreateAgrees(a, b, op, outages);
    case PatchOp(_, _, _) => PatchAgrees(a, b, op, outages);
    case DeleteOp(_, _) => MarkAgrees(a, b, op, outages);
    case RestoreOp(_, _) => MarkAgrees(a, b, op, outages);
    case AddDependencyOp(_, _, _) => DependencyAgrees(a, b, op, outages);
    case RemoveDependencyOp(_, _, _) => DependencyAgrees(a, b, op, outages);
    case CreateUserOp(_, _) => CreateUserAgrees(a, b, op, outages);
    case UpdateUserOp(_, _, _, _) => UpdateUserAgrees(a, b, op, outages);
    case DeleteUserOp(_, _, _) => DeleteUserAgrees(a, b, op, outages);
    case ProjectOp(_, _, _) => ProjectAgrees(a, b, op, outages);
    case CreateCommentOp(_, _, _, _, _, _) => CreateCommentAgrees(a, b, op, outages);
    case EditCommentOp(_, _, _, _, _, _) => EditCommentAgrees(a, b, op, outages);
    case DeleteCommentOp(_, _, _) => DeleteCommentAgrees(a, b, op, outages);
  }

  /** Whatever audit inserts fail: the data after a run is that of the same run without failures, and its log
      is the complete log with exactly the failed inserts left out. */
  lemma {:induction false} OutagesAreHarmless(outages: seq<bool>, ops: seq<Op>)
    ensures Mirrors(Run(Start(outages), ops), Run(Start([]), ops), outages)
  {
    if ops != [] {
      var earlier := ops[..|ops| - 1];
      OutagesAreHarmless(outages, earlier);
      StepAgrees(Run(Start(outages), earlier), Run(Start([]), earlier), ops[|ops| - 1], outages);
    }
  }

  /** And every operation of the run answers the same. */
  lemma AnswersAreTheSame(outages: seq<bool>, ops: seq<Op>, k: nat)
    requires k < |ops|
    ensures AnswerOf(Run(Start(outages), ops[..k]), ops[k]) == AnswerOf(Run(Start([]), ops[..k]), ops[k])
  {
    OutagesAreHarmless(outages, ops[..k]);
    StepAgrees(Run(Start(outages), ops[..k]), Run(Start([]), ops[..k]), ops[k], outages);
  }
}
