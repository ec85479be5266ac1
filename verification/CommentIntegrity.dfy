/** Comments, their mention rows and their audit entries stay in step in every reachable state,
    whatever statement of a comment transaction fails. */
module CommentIntegrity {
  import opened Schema
  import opened TicketTable
  import opened Operations
  import opened EscalationLaws
  import opened MentionParser
  import opened System
  import Csv

  /** How many entries record the action on comment id. */
  function Entries(log: seq<Entry>, action: Action, id: int): nat {
    if log == [] then 0
    else
      var last := log[|log| - 1];
      Entries(log[..|log| - 1], action, id)
      + if last.entity == COMMENT && last.action == action && last.entityId == id then 1 else 0
  }

  lemma EntriesAppend(log: seq<Entry>, e: Entry, action: Action, id: int)
    ensures Entries(log + [e], action, id)
         == Entries(log, action, id) + if e.entity == COMMENT && e.action == action && e.entityId == id then 1 else 0
  {
    assert (log + [e])[..|log|] == log;
  }

  /** The longer log adds no creation and no edit of a comment. */
  ghost predicate QuietForComments(before: seq<Entry>, after: seq<Entry>) {
    before <= after
    && forall i :: |before| <= i < |after| ==> after[i].entity != COMMENT || after[i].action == DELETE
  }

  lemma {:induction false} QuietKeepsEntries(before: seq<Entry>, after: seq<Entry>, action: Action, id: int)
    requires QuietForComments(before, after) && action != DELETE
    ensures Entries(after, action, id) == Entries(before, action, id)
    decreases |after|
  {
    if |after| > |before| {
      QuietKeepsEntries(before, after[..|after| - 1], action, id);
    } else {
      assert after == before;
    }
  }

  // ----- the invariants -----

  ghost predicate CommentsLinked(s: State) {
    && s.nextComment > 0
    && forall c :: c in s.comments ==>
         0 < c < s.nextComment && s.comments[c].author in s.users && s.comments[c].ticket in s.tickets
  }

  /** A mention row joins a comment and a user whose name the comment's present text mentions. */
  ghost predicate MentionsJustified(s: State) {
    forall p :: p in s.mentions ==>
      && p.0 in s.comments && p.1 in s.users
      && Lower(s.users[p.1].username) in ParseMentions(s.comments[p.0].content)
  }

  /** One CREATE entry, and one UPDATE entry per version after the first. */
  ghost predicate CommentsAudited(s: State) {
    && (forall c :: c in s.comments ==>
          Entries(s.log, CREATE, c) == 1 && s.comments[c].version == 1 + Entries(s.log, UPDATE, c))
    && (forall c :: c >= s.nextComment ==> Entries(s.log, CREATE, c) == 0 && Entries(s.log, UPDATE, c) == 0)
  }

  ghost predicate CommentInv(s: State) {
    CommentsLinked(s) && MentionsJustified(s) && CommentsAudited(s)
  }

  // ----- steps that leave comments alone -----

  /** Comments stay, no user they need goes away or changes name, and the log stays quiet. */
  lemma FrameKeeps(s: State, after: State)
    requires CommentInv(s)
    requires after.comments == s.comments && after.nextComment == s.nextComment && after.mentions <= s.mentions
    requires forall t :: t in s.tickets ==> t in after.tickets
    requires forall c :: c in s.comments ==> s.comments[c].author in after.users
    requires forall p :: p in after.mentions ==>
               p.1 in after.users && p.1 in s.users && after.users[p.1].username == s.users[p.1].username
    requires QuietForComments(s.log, after.log)
    ensures CommentInv(after)
  {
    forall c
      ensures Entries(after.log, CREATE, c) == Entries(s.log, CREATE, c)
      ensures Entries(after.log, UPDATE, c) == Entries(s.log, UPDATE, c)
    {
      QuietKeepsEntries(s.log, after.log, CREATE, c);
      QuietKeepsEntries(s.log, after.log, UPDATE, c);
    }
  }

  lemma {:induction false} EscalateIsQuiet(s: State, rows: seq<(int, Ticket)>)
    ensures QuietForComments(s.log, EscalateRows(s, rows).0.log)
  {
    if rows != [] {
      EscalateIsQuiet(s, rows[..|rows| - 1]);
    }
  }

  lemma CreateTicketKeeps(s: State, dto: CreateDto, who: int, pick: Option<int>)
    requires CommentInv(s) && TicketInv(s)
    ensures CommentInv(CreateTicket(s, dto, who, pick).0)
  {
    FrameKeeps(s, CreateTicket(s, dto, who, pick).0);
  }

  lemma PatchTicketKeeps(s: State, id: int, dto: UpdateDto, who: int)
    requires CommentInv(s)
    ensures CommentInv(PatchTicket(s, id, dto, who).0)
  {
    FrameKeeps(s, PatchTicket(s, id, dto, who).0);
  }

  lemma DeletionKeeps(s: State, id: int, who: int)
    requires CommentInv(s)
    ensures CommentInv(DeleteTicket(s, id, who).0) && CommentInv(RestoreTicket(s, id, who).0)
  {
    FrameKeeps(s, DeleteTicket(s, id, who).0);
    FrameKeeps(s, RestoreTicket(s, id, who).0);
  }

  lemma DependencyKeeps(s: State, t: int, b: int, who: int)
    requires CommentInv(s)
    ensures CommentInv(AddDependency(s, t, b, who).0) && CommentInv(RemoveDependency(s, t, b, who).0)
  {
    FrameKeeps(s, AddDependency(s, t, b, who).0);
    FrameKeeps(s, RemoveDependency(s, t, b, who).0);
  }

  lemma EscalateKeepsComments(s: State, now: int)
    requires CommentInv(s) && TicketInv(s)
    ensures CommentInv(Escalate(s, now).0)
  {
    EscalateWhole(s, now);
    EscalateIsQuiet(s, OverdueRows(s.tickets, now, s.nextTicket));
    FrameKeeps(s, Escalate(s, now).0);
  }

  lemma ImportKeepsComments(s: State, js: Csv.Runtime, project: int, records: Option<seq<Csv.Record>>, who: int)
    requires CommentInv(s) && TicketInv(s)
    ensures CommentInv(ImportCsv(s, js, project, records, who).0)
  {
    if project in s.projects && records.Some? {
      ImportInv(s, js, records.value, project);
      FrameKeeps(s, ImportRows(s, js, records.value, project).state);
      FrameKeeps(ImportRows(s, js, records.value, project).state, ImportCsv(s, js, project, records, who).0);
    }
  }

  /** Registration, renaming of the display name or role, and deletion with its cascade. */
  lemma CreateUserKeeps(s: State, user: User, creator: Option<int>)
    requires CommentInv(s) && TicketInv(s)
    ensures CommentInv(CreateUser(s, user, creator).0)
  {
    FrameKeeps(s, CreateUser(s, user, creator).0);
  }

  lemma UpdateUserKeeps(s: State, id: int, fullName: Option<string>, role: Option<Role>, who: int)
    requires CommentInv(s)
    ensures CommentInv(UpdateUser(s, id, fullName, role, who).0)
  {
    FrameKeeps(s, UpdateUser(s, id, fullName, role, who).0);
  }

  lemma DeleteUserKeeps(s: State, id: int, referenced: bool, who: int)
    requires CommentInv(s)
    ensures CommentInv(DeleteUser(s, id, referenced, who).0)
  {
    FrameKeeps(s, DeleteUser(s, id, referenced, who).0);
  }

  // ----- comment transactions -----

  ghost function RowsOf(mentions: set<(int, int)>, comment: int): set<int> {
    set p | p in mentions && p.0 == comment :: p.1
  }

  /** A created comment, its rows exactly the mentioned registered users, and one audit entry more. */
  ghost predicate CommentAdded(s: State, after: State, c: Comment) {
    var id := s.nextComment;
    && id !in s.comments && after.comments == s.comments[id := c]
    && RowsOf(after.mentions, id) == MentionedUsers(s.users, c.content)
    && WithoutMentionsOf(after.mentions, id) == s.mentions
    && |after.log| == |s.log| + 1
  }

  /** Ticket and author exist. */
  predicate Accepts(s: State, ticket: int, author: int) {
    Active(s.tickets, ticket) && author in s.users
  }

  lemma CommittedCommentAdded(s: State, c: Comment, who: int)
    requires CommentInv(s)
    ensures CommentAdded(s, CommittedComment(s, c, MentionedUsers(s.users, c.content), who), c)
  {
    var after, id := CommittedComment(s, c, MentionedUsers(s.users, c.content), who), s.nextComment;
    assert forall p :: p in s.mentions ==> p.0 != id;
    forall u | u in MentionedUsers(s.users, c.content)
      ensures u in RowsOf(after.mentions, id)
    {
      assert (id, u) in after.mentions;
    }
    assert WithoutMentionsOf(after.mentions, id) == s.mentions;
  }

  /** For a failure at any statement of the call: the create either commits everything or changes no comment,
      mention row or audit entry; it commits exactly when ticket and author exist and no statement up to
      COMMIT fails. An error answer means that nothing changed exactly when the failing statement is not the
      read-back after COMMIT. */
  lemma CreateAllOrNothing(s: State, ticket: int, author: int, content: string, now: int, who: int, failAt: Option<nat>)
    requires CommentInv(s)
    ensures var (after, r) := CreateComment(s, ticket, author, content, now, who, failAt);
            var commit := CreateCommit(s.users, content);
            && (if Accepts(s, ticket, author) && !Fails(failAt, commit)
                then CommentAdded(s, after, Comment(ticket, author, content, 1, now))
                else after == s.(nextComment := after.nextComment))
            && (r.Ok? <==> Accepts(s, ticket, author) && !Fails(failAt, commit + 1))
            && (r.Ok? ==> r.value == s.nextComment)
            && ((r.Err? ==> after == s.(nextComment := after.nextComment))
                <==> !(Accepts(s, ticket, author) && failAt == Some(commit)))
  {
    CommittedCommentAdded(s, Comment(ticket, author, content, 1, now), who);
  }

  /** A committed edit: the new text, its rows exactly the users it mentions, and one audit entry more. */
  ghost predicate CommentChanged(s: State, after: State, id: int, content: string) {
    && id in s.comments
    && after.comments == s.comments[id := s.comments[id].(content := content, version := s.comments[id].version + 1)]
    && RowsOf(after.mentions, id) == MentionedUsers(s.users, content)
    && WithoutMentionsOf(after.mentions, id) == WithoutMentionsOf(s.mentions, id)
    && |after.log| == |s.log| + 1
  }

  lemma CommittedEditChanges(s: State, id: int, content: string, who: int)
    requires id in s.comments
    ensures CommentChanged(s, CommittedEdit(s, id, content, MentionedUsers(s.users, content), who), id, content)
  {
    var after := CommittedEdit(s, id, content, MentionedUsers(s.users, content), who);
    forall u | u in MentionedUsers(s.users, content)
      ensures u in RowsOf(after.mentions, id)
    {
      assert (id, u) in after.mentions;
    }
    assert WithoutMentionsOf(after.mentions, id) == WithoutMentionsOf(s.mentions, id);
  }

  /** The comment is on the ticket, and the version sent is its present one. */
  predicate Current(s: State, ticket: int, id: int, version: Option<int>) {
    version.Some? && id in s.comments && s.comments[id].ticket == ticket && s.comments[id].version == version.value
  }

  /** For a failure at any statement of the call: the edit either commits text, version, mention rows and audit
      entry together, or leaves the database as it was; it commits exactly when the version is current and no
      statement up to COMMIT fails. An error answer means that nothing changed exactly when the failing
      statement is not the read-back of a committed edit. */
  lemma EditAllOrNothing(s: State, ticket: int, id: int, content: string, version: Option<int>, who: int,
                         failAt: Option<nat>)
    ensures var (after, r) := EditComment(s, ticket, id, content, version, who, failAt);
            var commit := EditCommit(s.users, content, false);
            && (if Current(s, ticket, id, version) && !Fails(failAt, commit)
                then CommentChanged(s, after, id, content) else after == s)
            && (r.Ok? <==> Current(s, ticket, id, version) && !Fails(failAt, commit + 1))
            && ((r.Err? ==> after == s) <==> !(Current(s, ticket, id, version) && failAt == Some(commit)))
  {
    if id in s.comments {
      CommittedEditChanges(s, id, content, who);
    }
  }

  lemma CommittedCommentKeeps(s: State, c: Comment, who: int)
    requires CommentInv(s) && c.version == 1 && c.author in s.users && c.ticket in s.tickets
    ensures CommentInv(CommittedComment(s, c, MentionedUsers(s.users, c.content), who))
  {
    var mentioned, id := MentionedUsers(s.users, c.content), s.nextComment;
    var after := CommittedComment(s, c, mentioned, who);
    var e := CommentEntry(CREATE, id, who, CommentCreated(c.ticket, c.author, mentioned));
    forall x
      ensures Entries(after.log, CREATE, x) == Entries(s.log, CREATE, x) + if x == id then 1 else 0
      ensures Entries(after.log, UPDATE, x) == Entries(s.log, UPDATE, x)
    {
      EntriesAppend(s.log, e, CREATE, x);
      EntriesAppend(s.log, e, UPDATE, x);
    }
  }

  lemma CreateCommentKeeps(s: State, op: Op)
    requires CommentInv(s) && op.CreateCommentOp?
    ensures CommentInv(Step(s, op))
  {
    if Accepts(s, op.ticket, op.author) {
      CommittedCommentKeeps(s, Comment(op.ticket, op.author, op.content, 1, op.now), op.who);
    }
  }

  lemma CommittedEditKeeps(s: State, id: int, content: string, who: int)
    requires CommentInv(s) && id in s.comments
    ensures CommentInv(CommittedEdit(s, id, content, MentionedUsers(s.users, content), who))
  {
    var mentioned := MentionedUsers(s.users, content);
    var after := CommittedEdit(s, id, content, mentioned, who);
    var e := CommentEntry(UPDATE, id, who, CommentEdited(s.comments[id].content != content, mentioned));
    forall x
      ensures Entries(after.log, CREATE, x) == Entries(s.log, CREATE, x)
      ensures Entries(after.log, UPDATE, x) == Entries(s.log, UPDATE, x) + if x == id then 1 else 0
    {
      EntriesAppend(s.log, e, CREATE, x);
      EntriesAppend(s.log, e, UPDATE, x);
    }
  }

  lemma EditCommentKeeps(s: State, op: Op)
    requires CommentInv(s) && op.EditCommentOp?
    ensures CommentInv(Step(s, op))
  {
    if op.id in s.comments {
      CommittedEditKeeps(s, op.id, op.content, op.who);
    }
  }

  lemma DeleteCommentKeeps(s: State, op: Op)
    requires CommentInv(s) && op.DeleteCommentOp?
    ensures CommentInv(Step(s, op))
  {
    var after := Step(s, op);
    forall c
      ensures Entries(after.log, CREATE, c) == Entries(s.log, CREATE, c)
      ensures Entries(after.log, UPDATE, c) == Entries(s.log, UPDATE, c)
    {
      QuietKeepsEntries(s.log, after.log, CREATE, c);
      QuietKeepsEntries(s.log, after.log, UPDATE, c);
    }
  }

  lemma StepKeepsComments(s: State, op: Op)
    requires CommentInv(s) && TicketInv(s)
    ensures CommentInv(Step(s, op))
  {
    match op
    case CreateCommentOp(_, _, _, _, _, _) => CreateCommentKeeps(s, op);
    case EditCommentOp(_, _, _, _, _, _) => EditCommentKeeps(s, op);
    case DeleteCommentOp(_, _, _) => DeleteCommentKeeps(s, op);
    case CreateTicketOp(dto, who, pick) => CreateTicketKeeps(s, dto, who, pick);
    case PatchOp(id, dto, who) => PatchTicketKeeps(s, id, dto, who);
    case DeleteOp(id, who) => DeletionKeeps(s, id, who);
    case RestoreOp(id, who) => DeletionKeeps(s, id, who);
    case AddDependencyOp(t, b, who) => DependencyKeeps(s, t, b, who);
    case RemoveDependencyOp(t, b, who) => DependencyKeeps(s, t, b, who);
    case ProjectOp(_, _, _) => FrameKeeps(s, Step(s, op));
    case EscalateOp(now) => EscalateKeepsComments(s, now);
    case ImportOp(js, project, records, who) => ImportKeepsComments(s, js, project, records, who);
    case CreateUserOp(user, creator) => CreateUserKeeps(s, user, creator);
    case UpdateUserOp(id, fullName, role, who) => UpdateUserKeeps(s, id, fullName, role, who);
    case DeleteUserOp(id, referenced, who) => DeleteUserKeeps(s, id, referenced, who);
  }

  /** In every reachable state, under any failures of comment statements and any outages of stand-alone
      audit inserts: every mention row is justified by the present text, and every live comment has its
      CREATE entry and exactly one UPDATE entry per further version. */
  lemma {:induction false} CommentsStayConsistent(outages: seq<bool>, ops: seq<Op>)
    requires Legal(Start(outages), ops)
    ensures CommentInv(Run(Start(outages), ops))
  {
    if ops != [] {
      CommentsStayConsistent(outages, ops[..|ops| - 1]);
      StartInv(outages);
      RunInv(Start(outages), ops[..|ops| - 1]);
      StepKeepsComments(Run(Start(outages), ops[..|ops| - 1]), ops[|ops| - 1]);
    }
  }
}
