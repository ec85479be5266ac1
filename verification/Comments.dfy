/** Transactions, and the comment writes that run inside them. */
module CommentsRepository {
  import opened Schema
  import opened StatementBuilders
  import opened Sql
  import opened Operations
  import opened DatabaseModel

  /** The callback a comment write hands to DatabaseService.transaction, audit insert included. */
  datatype Body =
    | CreateBody(comment: Comment, mentioned: seq<int>, who: int)
    | EditBody(id: int, expected: int, content: string, mentioned: seq<int>, contentChanged: bool, who: int)

  function AsSet(ids: seq<int>): set<int> {
    set i | i in ids
  }

  ghost predicate NoDuplicates(ids: seq<int>) {
    forall i, j :: 0 <= i < j < |ids| ==> ids[i] != ids[j]
  }

  /** Mention rows join to comments below the sequence, as the foreign key and the sequence guarantee. */
  ghost predicate MentionsNumbered(db: Database)
    reads db
  {
    (forall p :: p in db.mentions ==> p.0 < db.nextComment) && (forall c :: c in db.comments ==> c < db.nextComment)
  }

  /** INSERT INTO comment_mentions VALUES ...: raises on a failing statement or a violated key. */
  method InsertMentions(db: Database, id: int, mentioned: seq<int>) returns (ok: bool)
    requires mentioned != []
    modifies db`mentions, db`failAt
    ensures ok <==> old(db.failAt) != Some(0) && AsSet(mentioned) <= db.users.Keys
                    && MentionPairs(id, AsSet(mentioned)) !! old(db.mentions)
    ensures db.mentions == if ok then old(db.mentions) + MentionPairs(id, AsSet(mentioned)) else old(db.mentions)
    ensures ok ==> db.failAt == if old(db.failAt).Some? then Some(old(db.failAt).value - 1) else None
  {
    ok := db.Statement();
    if ok {
      var rows, params := BuildMentionRows(id, mentioned);
      var added := RowsInserted(rows, params);
      assert AsSet(mentioned) == set u | u in mentioned;
      ok := AsSet(mentioned) <= db.users.Keys && added !! db.mentions;
      if ok {
        db.mentions := db.mentions + added;
      }
    }
  }

  /** The mention rows, when there are any. */
  method InsertAnyMentions(db: Database, id: int, mentioned: seq<int>) returns (ok: bool)
    modifies db`mentions, db`failAt
    ensures ok <==> mentioned == []
                    || (old(db.failAt) != Some(0) && AsSet(mentioned) <= db.users.Keys
                        && MentionPairs(id, AsSet(mentioned)) !! old(db.mentions))
    ensures ok ==> db.mentions == old(db.mentions) + MentionPairs(id, AsSet(mentioned))
    ensures ok ==> Remaining(old(db.failAt), if mentioned == [] then 0 else 1, db.failAt)
  {
    ok := true;
    if mentioned != [] {
      ok := InsertMentions(db, id, mentioned);
    } else {
      assert MentionPairs(id, AsSet(mentioned)) == {};
    }
  }

  /** insertWithClient: the audit row joins the transaction. */
  method InsertAuditInTransaction(db: Database, e: Entry) returns (ok: bool)
    modifies db`log, db`failAt
    ensures ok == (old(db.failAt) != Some(0))
    ensures db.log == if ok then old(db.log) + [e] else old(db.log)
    ensures ok ==> db.failAt == if old(db.failAt).Some? then Some(old(db.failAt).value - 1) else None
  {
    ok := db.Statement();
    if ok {
      db.log := db.log + [e];
    }
  }

  /** A row the callback writes refers to a ticket or user that is gone by then, as a user deleted since the
      service looked the mentions up. */
  predicate KeyViolated(s: State, b: Body) {
    if b.CreateBody? then
      b.comment.ticket !in s.tickets || b.comment.author !in s.users || !(AsSet(b.mentioned) <= s.users.Keys)
    else
      b.id in s.comments && s.comments[b.id].version == b.expected && !(AsSet(b.mentioned) <= s.users.Keys)
  }

  /** So many statements went through. */
  predicate Remaining(before: Option<nat>, statements: nat, after: Option<nat>) {
    if before.None? then after.None? else before.value >= statements && after == Some(before.value - statements)
  }

  /** INSERT INTO comments: once executed it uses up an id, also when it violates a key. */
  method InsertComment(db: Database, c: Comment) returns (ok: bool, id: int)
    modifies db`comments, db`nextComment, db`failAt
    ensures id == old(db.nextComment)
    ensures ok <==> old(db.failAt) != Some(0) && c.ticket in db.tickets && c.author in db.users
    ensures db.nextComment == if old(db.failAt) == Some(0) then id else id + 1
    ensures db.comments == if ok then old(db.comments)[id := c] else old(db.comments)
    ensures ok ==> Remaining(old(db.failAt), 1, db.failAt)
  {
    id := db.nextComment;
    ok := db.Statement();
    if ok {
      db.nextComment := id + 1;
      ok := c.ticket in db.tickets && c.author in db.users;
    }
    if ok {
      db.comments := db.comments[id := c];
    }
  }

  function CreatedMeta(b: Body): Metadata
    requires b.CreateBody?
  {
    CommentCreated(b.comment.ticket, b.comment.author, AsSet(b.mentioned))
  }

  function EditedMeta(b: Body): Metadata
    requires b.EditBody?
  {
    CommentEdited(b.contentChanged, AsSet(b.mentioned))
  }

  /** createWithMentions inside its transaction, BEGIN done. */
  method RunCreate(db: Database, b: Body) returns (ok: bool, id: int)
    requires b.CreateBody? && NoDuplicates(b.mentioned) && MentionsNumbered(db)
    modifies db`comments, db`nextComment, db`mentions, db`log, db`failAt
    ensures id == old(db.nextComment)
    ensures ok <==> !Fails(old(db.failAt), if b.mentioned == [] then 2 else 3) && !KeyViolated(old(db.Snapshot()), b)
    ensures db.nextComment == if old(db.failAt) == Some(0) then id else id + 1
    ensures ok ==> db.Snapshot() == CommittedComment(old(db.Snapshot()), b.comment, AsSet(b.mentioned), b.who)
    ensures ok ==> Remaining(old(db.failAt), if b.mentioned == [] then 2 else 3, db.failAt)
  {
    ok, id := InsertComment(db, b.comment);
    if !ok { return; }
    ok := InsertAnyMentions(db, id, b.mentioned);
    if !ok { return; }
    ok := InsertAuditInTransaction(db, CommentEntry(CREATE, id, b.who, CreatedMeta(b)));
  }

  /** updateContentAndMentions inside its transaction, BEGIN done; current tells whether the version matched. */
  method RunEdit(db: Database, b: Body) returns (ok: bool, current: bool)
    requires b.EditBody? && NoDuplicates(b.mentioned)
    modifies db`comments, db`mentions, db`log, db`failAt
    ensures current ==> b.id in old(db.comments) && old(db.comments)[b.id].version == b.expected
    ensures ok ==> current == (b.id in old(db.comments) && old(db.comments)[b.id].version == b.expected)
    ensures ok <==> !Fails(old(db.failAt), StatementsOf(old(db.comments), b)) && !KeyViolated(old(db.Snapshot()), b)
    ensures ok && !current ==> db.Snapshot() == old(db.Snapshot())
    ensures ok && current ==>
      db.comments == old(db.comments)[b.id := old(db.comments)[b.id].(content := b.content, version := b.expected + 1)]
      && db.mentions == WithoutMentionsOf(old(db.mentions), b.id) + MentionPairs(b.id, AsSet(b.mentioned))
      && db.log == old(db.log) + [CommentEntry(UPDATE, b.id, b.who, EditedMeta(b))]
    ensures ok ==> Remaining(old(db.failAt), StatementsOf(old(db.comments), b), db.failAt)
  {
    current := false;
    ok := db.Statement();
    if !ok { return; }
    if !(b.id in db.comments && db.comments[b.id].version == b.expected) { return; }
    current := true;
    db.comments := db.comments[b.id := db.comments[b.id].(content := b.content, version := b.expected + 1)];
    ok := db.Statement();
    if !ok { return; }
    db.mentions := WithoutMentionsOf(db.mentions, b.id);
    ok := InsertAnyMentions(db, b.id, b.mentioned);
    if !ok { return; }
    ok := InsertAuditInTransaction(db, CommentEntry(UPDATE, b.id, b.who, EditedMeta(b)));
  }

  /** The statements of an edit between BEGIN and COMMIT. */
  function StatementsOf(comments: map<int, Comment>, b: Body): nat
    requires b.EditBody?
  {
    if b.id in comments && comments[b.id].version == b.expected then (if b.mentioned == [] then 3 else 4) else 1
  }

  /** What a transaction answers: it raised, the callback returned null, or it returned a comment id. */
  datatype TxResult = Raised | NoRow | Row(id: int)

  // ----- the meaning of a callback that runs through -----

  function BodyStatements(s: State, b: Body): nat {
    if b.CreateBody? then (if b.mentioned == [] then 2 else 3) else StatementsOf(s.comments, b)
  }

  function BodyResult(s: State, b: Body): TxResult {
    if b.CreateBody? then Row(s.nextComment)
    else if b.id in s.comments && s.comments[b.id].version == b.expected then Row(b.id)
    else NoRow
  }

  function BodyEffect(s: State, b: Body): State {
    if b.CreateBody? then CommittedComment(s, b.comment, AsSet(b.mentioned), b.who)
    else if b.id in s.comments && s.comments[b.id].version == b.expected then
      s.(comments := s.comments[b.id := s.comments[b.id].(content := b.content, version := b.expected + 1)],
         mentions := WithoutMentionsOf(s.mentions, b.id) + MentionPairs(b.id, AsSet(b.mentioned)),
         log := s.log + [CommentEntry(UPDATE, b.id, b.who, CommentEdited(b.contentChanged, AsSet(b.mentioned)))])
    else s
  }

  /** The id sequence after a failure: a create whose insert was executed used up an id. */
  function NextCommentAfterFailure(s: State, b: Body, insertFails: bool): nat {
    if b.CreateBody? && !insertFails then s.nextComment + 1 else s.nextComment
  }

  method RunBody(db: Database, b: Body) returns (ok: bool, value: TxResult)
    requires NoDuplicates(b.mentioned) && MentionsNumbered(db)
    modifies db`comments, db`nextComment, db`mentions, db`log, db`failAt
    ensures ok <==> !Fails(old(db.failAt), BodyStatements(old(db.Snapshot()), b)) && !KeyViolated(old(db.Snapshot()), b)
    ensures ok ==> value == BodyResult(old(db.Snapshot()), b) && db.Snapshot() == BodyEffect(old(db.Snapshot()), b)
    ensures ok ==> Remaining(old(db.failAt), BodyStatements(old(db.Snapshot()), b), db.failAt)
    ensures db.nextComment == NextCommentAfterFailure(old(db.Snapshot()), b, old(db.failAt) == Some(0))
  {
    if b.CreateBody? {
      var id: int;
      ok, id := RunCreate(db, b);
      value := Row(id);
    } else {
      var current: bool;
      ok, current := RunEdit(db, b);
      value := if current then Row(b.id) else NoRow;
    }
  }

  /** DatabaseService.transaction: BEGIN, the callback, COMMIT; on any raise ROLLBACK. All of the
      callback's effect or, but for a used-up id, nothing; the former exactly when no statement from
      BEGIN to COMMIT raises, by itself or because it violates a key. A callback that returns null commits
      nothing but is not rolled back. */
  method Transaction(db: Database, b: Body) returns (r: TxResult)
    requires db.undo.None?
    requires NoDuplicates(b.mentioned) && MentionsNumbered(db)
    modifies db
    ensures db.undo.None?
    ensures r.Raised? <==>
      Fails(old(db.failAt), 2 + BodyStatements(old(db.Snapshot()), b)) || KeyViolated(old(db.Snapshot()), b)
    ensures !r.Raised? ==> Remaining(old(db.failAt), 2 + BodyStatements(old(db.Snapshot()), b), db.failAt)
    ensures !r.Raised? ==> r == BodyResult(old(db.Snapshot()), b) && db.Snapshot() == BodyEffect(old(db.Snapshot()), b)
    ensures r.Raised? ==> db.Snapshot() == old(db.Snapshot()).(
      nextComment := NextCommentAfterFailure(old(db.Snapshot()), b, Fails(old(db.failAt), 2)))
  {
    r := Raised;
    var ok := db.Statement();
    if ok {
      db.Begin();
      var value: TxResult;
      ok, value := RunBody(db, b);
      if ok {
        ok := db.Statement();
      }
      if ok {
        db.Commit();
        r := value;
        return;
      }
    }
    db.Rollback();
  }
}

/** The comment operations as the service runs them. */
module CommentsService {
  import opened Schema
  import opened MentionParser
  import opened Operations
  import opened DatabaseModel
  import opened CommentsRepository

  /** Parse, look up the names without regard to case, and collect each user id once. */
  method ResolveMentions(db: Database, content: string) returns (ids: seq<int>)
    ensures AsSet(ids) == MentionedUsers(db.users, content) && NoDuplicates(ids)
  {
    var usernames := Parse(content);
    if usernames == [] {
      assert MentionedUsers(db.users, content) == {};
      assert AsSet([]) == {};
      return [];
    }
    var found := set u | u in db.users && Lower(db.users[u].username) in usernames;
    var rows := Enumerate(found);
    assert forall u :: u in AsSet(rows) <==> u in MentionedUsers(db.users, content);
    var seen: set<int> := {};
    ids := [];
    for n := 0 to |rows|
      invariant seen == AsSet(ids) && AsSet(ids) == AsSet(rows[..n]) && NoDuplicates(ids)
    {
      assert rows[..n + 1] == rows[..n] + [rows[n]];
      if rows[n] !in seen {
        seen := seen + {rows[n]};
        ids := ids + [rows[n]];
      }
    }
    assert rows[..|rows|] == rows;
  }

  /** resolveMentions as a call makes it: the lookup is a statement of its own, unless there is no name. */
  method LookUpMentions(db: Database, content: string) returns (ok: bool, ids: seq<int>)
    modifies db`failAt
    ensures ok <==> !Fails(old(db.failAt), NameLookups(content))
    ensures ok ==> AsSet(ids) == MentionedUsers(db.users, content) && NoDuplicates(ids)
    ensures ok ==> Remaining(old(db.failAt), NameLookups(content), db.failAt)
  {
    var usernames := Parse(content);
    ok, ids := true, [];
    if usernames != [] {
      ok := db.Statement();
    }
    if ok {
      ids := ResolveMentions(db, content);
    }
  }

  method Create(db: Database, ticket: int, author: int, content: string, now: int, who: int) returns (r: Result<int>)
    requires MentionsNumbered(db) && db.undo.None?
    modifies db
    ensures db.undo.None?
    ensures (db.Snapshot(), r) == CreateComment(old(db.Snapshot()), ticket, author, content, now, who, old(db.failAt))
  {
    var ok := db.Statement();
    if !ok {
      return Err(Internal);
    }
    if !Active(db.tickets, ticket) {
      return Err(NotFound);
    }
    ok := db.Statement();
    if !ok {
      return Err(Internal);
    }
    if author !in db.users {
      return Err(NotFound);
    }
    var ids: seq<int>;
    ok, ids := LookUpMentions(db, content);
    if !ok {
      return Err(Internal);
    }
    EmptyExactly(ids);
    var tx := Transaction(db, CreateBody(Comment(ticket, author, content, 1, now), ids, who));
    if !tx.Row? {
      return Err(Internal);
    }
    ok := db.Statement();
    r := if ok then Ok(tx.id) else Err(Internal);
  }

  lemma EmptyExactly(ids: seq<int>)
    ensures ids == [] <==> AsSet(ids) == {}
  {
    if ids != [] {
      assert ids[0] in AsSet(ids);
    }
  }

  method Update(db: Database, ticket: int, id: int, content: string, version: Option<int>, who: int)
    returns (r: Result<int>)
    requires MentionsNumbered(db) && db.undo.None?
    modifies db
    ensures db.undo.None?
    ensures (db.Snapshot(), r) == EditComment(old(db.Snapshot()), ticket, id, content, version, who, old(db.failAt))
  {
    if version.None? {
      return Err(BadRequest);
    }
    var ok := db.Statement();
    if !ok {
      return Err(Internal);
    }
    if id !in db.comments {
      return Err(NotFound);
    }
    var existing := db.comments[id];
    if existing.ticket != ticket {
      return Err(NotFound);
    }
    var ids: seq<int>;
    ok, ids := LookUpMentions(db, content);
    if !ok {
      return Err(Internal);
    }
    EmptyExactly(ids);
    var tx := Transaction(db, EditBody(id, version.value, content, ids, existing.content != content, who));
    if tx.Raised? {
      return Err(Internal);
    }
    ok := db.Statement();
    r := if !ok then Err(Internal) else if tx.NoRow? then Err(Conflict) else Ok(id);
  }

  method Delete(db: Database, ticket: int, id: int, who: int) returns (r: Result<()>)
    modifies db
    ensures (db.Snapshot(), r) == DeleteComment(old(db.Snapshot()), ticket, id, who)
  {
    if id !in db.comments || db.comments[id].ticket != ticket {
      return Err(NotFound);
    }
    var existing := db.comments[id];
    db.comments := db.comments - {id};
    db.mentions := WithoutMentionsOf(db.mentions, id);
    db.Log(CommentEntry(DELETE, id, who, CommentRef(ticket, existing.author)));
    r := Ok(());
  }
}
