/** Registering, changing and deleting users in terms of the request and the rows alone. */
module UserLaws {
  import opened Schema
  import opened Operations
  import opened MentionParser

  /** 409 exactly for a name that some user has already, in whatever case; otherwise the user gets the next id, and
      the entry names as its author the one who asked or, at a registration, the new user. */
  lemma RegisteredUser(s: State, user: User, who: Option<int>)
    requires s.outages == []
    ensures CreateUser(s, user, who)
         == if exists u :: u in s.users && SameName(s.users[u].username, user.username) then (s, Err(Conflict))
            else
              var id := s.nextUser;
              (s.(users := s.users[id := user], nextUser := id + 1,
                  log := s.log + [Entry(CREATE, USER, id, Some(if who.Some? then who.value else id), USER_ACTOR,
                                        UserRef(user.username, user.role))]),
               Ok(id))
  {
    forall u | u in s.users
      ensures SameName(s.users[u].username, user.username) <==> Lower(s.users[u].username) == Lower(user.username)
    {
      SameNameIsLower(s.users[u].username, user.username);
    }
  }

  /** 400 for an empty request, 404 for a missing user; otherwise the supplied columns are overwritten and the entry
      holds those that changed. */
  lemma ChangedUser(s: State, id: int, fullName: Option<string>, role: Option<Role>, who: int)
    requires s.outages == []
    ensures var (after, r) := UpdateUser(s, id, fullName, role, who);
            if fullName.None? && role.None? then (after, r) == (s, Err(BadRequest))
            else if id !in s.users then (after, r) == (s, Err(NotFound))
            else
              var u := s.users[id];
              var name := if fullName.Some? then fullName.value else u.fullName;
              var rights := if role.Some? then role.value else u.role;
              var diff := UserDiff(if u.fullName == name then None else Some((u.fullName, name)),
                                   if u.role == rights then None else Some((u.role, rights)));
              && r == Ok(User(u.username, name, rights, u.createdAt))
              && after == s.(users := s.users[id := r.value],
                             log := s.log + [Entry(UPDATE, USER, id, Some(who), USER_ACTOR, diff)])
  {
  }

  /** 404 for a missing user; a database error for one who wrote a comment or is referenced elsewhere, and then
      nothing changes; otherwise the user goes with all mentions of them, their tickets lose the assignee and
      nothing else, and the entry is logged. */
  lemma DeletedUser(s: State, id: int, referenced: bool, who: int)
    requires s.outages == []
    ensures var (after, r) := DeleteUser(s, id, referenced, who);
            if id !in s.users then (after, r) == (s, Err(NotFound))
            else if referenced || exists c :: c in s.comments && s.comments[c].author == id
            then (after, r) == (s, Err(Internal))
            else
              && r == Ok(())
              && after == s.(users := after.users, tickets := after.tickets, mentions := after.mentions,
                             log := s.log + [Entry(DELETE, USER, id, Some(who), USER_ACTOR,
                                                   UserRef(s.users[id].username, s.users[id].role))])
              && (forall u :: u in after.users <==> u in s.users && u != id)
              && (forall u :: u in after.users ==> after.users[u] == s.users[u])
              && (forall p :: p in after.mentions <==> p in s.mentions && p.1 != id)
              && after.tickets.Keys == s.tickets.Keys
              && forall t :: t in s.tickets ==>
                   after.tickets[t] == if s.tickets[t].assignee == Some(id) then s.tickets[t].(assignee := None)
                                       else s.tickets[t]
  {
  }
}
