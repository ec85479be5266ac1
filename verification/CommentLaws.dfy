/** Creating, editing and deleting comments in terms of the request and the rows alone, when no statement raises. */
module CommentLaws {
  import opened Schema
  import opened Operations
  import opened MentionParser

  /** The registered users whose names, in whatever case, the text mentions. */
  ghost function Addressed(users: map<int, User>, text: string): set<int> {
    set u | u in users && Mentions(text, users[u].username)
  }

  lemma AddressedAreMentioned(users: map<int, User>, text: string)
    ensures MentionedUsers(users, text) == Addressed(users, text)
  {
    forall u | u in users
      ensures u in MentionedUsers(users, text) <==> u in Addressed(users, text)
    {
      ParsedWhenMentioned(text, users[u].username);
    }
  }

  /** 404 without an active ticket or without the author; otherwise the comment, a mention row for each addressed
      user, and the entry. */
  lemma CreatedComment(s: State, ticket: int, author: int, text: string, now: int, who: int)
    ensures var (after, r) := CreateComment(s, ticket, author, text, now, who, None);
            if !(ticket in s.tickets && !s.tickets[ticket].deleted && author in s.users)
            then (after, r) == (s, Err(NotFound))
            else
              var id, users := s.nextComment, Addressed(s.users, text);
              && r == Ok(id)
              && after == s.(comments := s.comments[id := Comment(ticket, author, text, 1, now)], nextComment := id + 1,
                             mentions := after.mentions,
                             log := s.log + [Entry(CREATE, COMMENT, id, Some(who), USER_ACTOR,
                                                   CommentCreated(ticket, author, users))])
              && forall p :: p in after.mentions <==> p in s.mentions || (p.0 == id && p.1 in users)
  {
    AddressedAreMentioned(s.users, text);
    PairsExactly(s.nextComment, Addressed(s.users, text));
  }

  lemma PairsExactly(comment: int, users: set<int>)
    ensures forall p :: p in MentionPairs(comment, users) <==> p.0 == comment && p.1 in users
  {
    forall p: (int, int) | p.0 == comment && p.1 in users
      ensures p in MentionPairs(comment, users)
    {
      assert p == (comment, p.1);
    }
  }

  /** 400 without a version, 404 for a comment that is missing or on another ticket, 409 for another version, and
      then nothing changes; otherwise the text, the next version, a mention row for each user addressed now and for
      no other, and the entry, which says whether the text changed. */
  lemma EditedComment(s: State, ticket: int, id: int, text: string, version: Option<int>, who: int)
    ensures var (after, r) := EditComment(s, ticket, id, text, version, who, None);
            if version.None? then (after, r) == (s, Err(BadRequest))
            else if id !in s.comments || s.comments[id].ticket != ticket then (after, r) == (s, Err(NotFound))
            else if s.comments[id].version != version.value then (after, r) == (s, Err(Conflict))
            else
              var c, users := s.comments[id], Addressed(s.users, text);
              && r == Ok(id)
              && after == s.(comments := s.comments[id := Comment(ticket, c.author, text, c.version + 1, c.createdAt)],
                             mentions := after.mentions,
                             log := s.log + [Entry(UPDATE, COMMENT, id, Some(who), USER_ACTOR,
                                                   CommentEdited(text != c.content, users))])
              && forall p :: p in after.mentions <==> (p in s.mentions && p.0 != id) || (p.0 == id && p.1 in users)
  {
    AddressedAreMentioned(s.users, text);
    PairsExactly(id, Addressed(s.users, text));
  }

  /** 404 for a comment that is missing or on another ticket; otherwise it goes, with its mention rows and no
      others, and the entry is logged. */
  lemma DeletedComment(s: State, ticket: int, id: int, who: int)
    requires s.outages == []
    ensures var (after, r) := DeleteComment(s, ticket, id, who);
            if id !in s.comments || s.comments[id].ticket != ticket then (after, r) == (s, Err(NotFound))
            else
              && r == Ok(())
              && after == s.(comments := after.comments, mentions := after.mentions,
                             log := s.log + [Entry(DELETE, COMMENT, id, Some(who), USER_ACTOR,
                                                   CommentRef(ticket, s.comments[id].author))])
              && (forall c :: c in after.comments <==> c in s.comments && c != id)
              && (forall c :: c in after.comments ==> after.comments[c] == s.comments[c])
              && (forall p :: p in after.mentions <==> p in s.mentions && p.0 != id)
  {
  }

  /** The text mentions no name at all. */
  ghost predicate MentionsNone(text: string) {
    forall name :: !Mentions(text, name)
  }

  lemma NothingParsed(text: string)
    ensures ParseMentions(text) == [] <==> MentionsNone(text)
  {
    if ParseMentions(text) == [] {
      forall name
        ensures !Mentions(text, name)
      {
        ParsedWhenMentioned(text, name);
      }
    } else {
      var name := ParseMentions(text)[0];
      ParsedExactly(text);
      assert name in ParseMentions(text);
      LowerTwice();
      ParsedWhenMentioned(text, name);
    }
  }

  lemma LowerTwice()
    ensures forall x :: Lower(Lower(x)) == Lower(x)
  {
  }

  /** The numbers of statements up to and with COMMIT. A create reads ticket and author, looks the names up if there
      are any, begins, inserts the comment, its mention rows if there are any and its entry, and commits. An edit
      reads the comment, looks the names up if there are any, begins, updates and, unless the version is stale,
      deletes the old mention rows, inserts new ones if there are any and inserts its entry; then it commits. */
  lemma StatementCounts(users: map<int, User>, text: string)
    ensures CreateCommit(users, text) == if MentionsNone(text) then 6 else if Addressed(users, text) == {} then 7 else 8
    ensures EditCommit(users, text, false)
         == if MentionsNone(text) then 6 else if Addressed(users, text) == {} then 7 else 8
    ensures EditCommit(users, text, true) == if MentionsNone(text) then 4 else 5
  {
    NothingParsed(text);
    AddressedAreMentioned(users, text);
  }

  /** A create whose statement number n raises before COMMIT is through answers an internal error and leaves at most
      a used-up id: from the statement after the comment's own insert on. */
  lemma FailedCreate(s: State, ticket: int, author: int, text: string, now: int, who: int, n: nat)
    requires ticket in s.tickets && !s.tickets[ticket].deleted && author in s.users
    requires n < if MentionsNone(text) then 6 else if Addressed(s.users, text) == {} then 7 else 8
    ensures CreateComment(s, ticket, author, text, now, who, Some(n))
         == (s.(nextComment := s.nextComment + if n < (if MentionsNone(text) then 4 else 5) then 0 else 1),
             Err(Internal))
  {
    StatementCounts(s.users, text);
    NothingParsed(text);
  }

  /** An edit whose statement number n raises before COMMIT is through changes nothing. */
  lemma FailedEdit(s: State, ticket: int, id: int, text: string, version: int, who: int, n: nat)
    requires id in s.comments && s.comments[id].ticket == ticket && s.comments[id].version == version
    requires n < if MentionsNone(text) then 6 else if Addressed(s.users, text) == {} then 7 else 8
    ensures EditComment(s, ticket, id, text, Some(version), who, Some(n)) == (s, Err(Internal))
  {
    StatementCounts(s.users, text);
  }
}
