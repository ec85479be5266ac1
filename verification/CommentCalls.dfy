/** Comment creates and edits split at their awaits, running against each other, comment deletions, and the
    registration and deletion of users, with a failure of any statement. Tickets, whose rows never disappear,
    are not part of this machine. */
module CommentCalls {
  import opened Schema
  import opened MentionParser
  import opened Operations
  import CI = CommentIntegrity

  /** What a call writes: a new comment, or a new text for comment id at the version its client sent. */
  datatype Target = NewComment(ticket: int, author: int) | OldComment(id: int, version: int)

  /** Where a call is suspended: existing is the row getOrThrow read; ids are the users the usernames were
      resolved to, when the user sequence stood at since. */
  datatype Phase =
    | Sent
    | AwaitNames(existing: Option<Comment>)
    | AwaitTransaction(existing: Option<Comment>, ids: set<int>, since: nat)

  datatype Call = Call(target: Target, content: string, who: int, phase: Phase)

  /** Tables, audit log, calls in flight, and for each comment the texts its versions 1, 2, ... stood for. */
  datatype Machine = Machine(
    users: map<int, User>, nextUser: nat, comments: map<int, Comment>, nextComment: nat, mentions: set<(int, int)>,
    log: seq<Entry>, calls: map<int, Call>, texts: map<int, seq<string>>)

  const EMPTY := Machine(map[], 1, map[], 1, {}, [], map[], map[])

  /** Whether a statement up to the call's next await fails: in a create's transaction, before its INSERT has
      used up an id, or after. */
  datatype Fault = NoFault | Early | Late

  datatype Event =
    | Submit(call: int, target: Target, content: string, who: int)
    | Proceed(call: int, fault: Fault, now: int)
    | DeleteComment(id: int, who: int)
    | Register(user: User)
    | Unregister(id: int)

  function Texts(m: Machine, id: int): seq<string> {
    if id in m.texts then m.texts[id] else []
  }

  function Ended(m: Machine, call: int): Machine {
    m.(calls := m.calls - {call})
  }

  function At(m: Machine, call: int, phase: Phase): Machine
    requires call in m.calls
  {
    m.(calls := m.calls[call := m.calls[call].(phase := phase)])
  }

  /** The committed transaction of a create. */
  function Created(m: Machine, c: Call, now: int): Machine
    requires c.target.NewComment? && c.phase.AwaitTransaction?
  {
    var id := m.nextComment;
    var meta := CommentCreated(c.target.ticket, c.target.author, c.phase.ids);
    m.(comments := m.comments[id := Comment(c.target.ticket, c.target.author, c.content, 1, now)],
       nextComment := id + 1, mentions := m.mentions + MentionPairs(id, c.phase.ids),
       log := m.log + [CommentEntry(CREATE, id, c.who, meta)], texts := m.texts[id := [c.content]])
  }

  /** What an edit records of its text: compared with the row it read, not with the one it hits. */
  function SaysChanged(c: Call): bool
    requires c.phase.AwaitTransaction?
  {
    c.phase.existing.Some? && c.phase.existing.value.content != c.content
  }

  /** The committed transaction of an edit. */
  function Edited(m: Machine, c: Call): Machine
    requires c.target.OldComment? && c.phase.AwaitTransaction? && c.target.id in m.comments
  {
    var id, hit := c.target.id, m.comments[c.target.id];
    m.(comments := m.comments[id := hit.(content := c.content, version := hit.version + 1)],
       mentions := WithoutMentionsOf(m.mentions, id) + MentionPairs(id, c.phase.ids),
       log := m.log + [CommentEntry(UPDATE, id, c.who, CommentEdited(SaysChanged(c), c.phase.ids))],
       texts := m.texts[id := Texts(m, id) + [c.content]])
  }

  /** The transaction commits: its keys exist, and an edit still finds its version. */
  predicate Commits(m: Machine, c: Call) {
    && c.phase.AwaitTransaction? && c.phase.ids <= m.users.Keys
    && match c.target
       case NewComment(_, author) => author in m.users
       case OldComment(id, version) => id in m.comments && m.comments[id].version == version
  }

  /** The tables after the transaction of a call. */
  function Done(m: Machine, c: Call, now: int): Machine
    requires Commits(m, c)
  {
    if c.target.NewComment? then Created(m, c, now) else Edited(m, c)
  }

  /** One call runs from its present await to the next one. */
  function Advance(m: Machine, call: int, fault: Fault, now: int): Machine
    requires call in m.calls
  {
    var c := m.calls[call];
    match c.phase
    case Sent =>
      if !fault.NoFault? then Ended(m, call)
      else
        (match c.target
         case NewComment(_, author) => if author in m.users then At(m, call, AwaitNames(None)) else Ended(m, call)
         case OldComment(id, _) =>
           if id in m.comments then At(m, call, AwaitNames(Some(m.comments[id]))) else Ended(m, call))
    case AwaitNames(existing) =>
      if !fault.NoFault? then Ended(m, call)
      else At(m, call, AwaitTransaction(existing, MentionedUsers(m.users, c.content), m.nextUser))
    case AwaitTransaction(_, _, _) =>
      if fault.NoFault? && Commits(m, c) then Ended(Done(m, c, now), call)
      else if c.target.NewComment? && !fault.Early? then Ended(m, call).(nextComment := m.nextComment + 1)
      else Ended(m, call)
  }

  predicate Authored(m: Machine, user: int) {
    exists c :: c in m.comments && m.comments[c].author == user
  }

  function Next(m: Machine, e: Event): Machine {
    match e
    case Submit(call, target, content, who) =>
      if call in m.calls then m else m.(calls := m.calls[call := Call(target, content, who, Sent)])
    case Proceed(call, fault, now) => if call in m.calls then Advance(m, call, fault, now) else m
    case DeleteComment(id, who) =>
      if id !in m.comments then m
      else
        var c := m.comments[id];
        m.(comments := m.comments - {id}, mentions := WithoutMentionsOf(m.mentions, id),
           log := m.log + [CommentEntry(DELETE, id, who, CommentRef(c.ticket, c.author))])
    case Register(user) => m.(users := m.users[m.nextUser := user], nextUser := m.nextUser + 1)
    case Unregister(user) =>
      if Authored(m, user) then m
      else m.(users := m.users - {user}, mentions := set p | p in m.mentions && p.1 != user)
  }

  function Run(m: Machine, es: seq<Event>): Machine {
    if es == [] then m else Next(Run(m, es[..|es| - 1]), es[|es| - 1])
  }

  // ----- invariants -----

  predicate Named(m: Machine, u: int, content: string)
    requires u in m.users
  {
    Lower(m.users[u].username) in ParseMentions(content)
  }

  ghost predicate Numbered(m: Machine) {
    && m.nextUser > 0 && m.nextComment > 0
    && (forall u :: u in m.users ==> 0 < u < m.nextUser)
    && (forall c :: c in m.comments ==> 0 < c < m.nextComment && m.comments[c].author in m.users)
    && (forall c :: c in m.texts ==> c < m.nextComment)
  }

  /** A mention row joins a comment and a user whose name the comment's present text mentions. */
  ghost predicate Justified(m: Machine) {
    forall p :: p in m.mentions ==> p.0 in m.comments && p.1 in m.users && Named(m, p.1, m.comments[p.0].content)
  }

  /** One CREATE entry, and one UPDATE entry per version after the first. */
  ghost predicate Audited(m: Machine) {
    && (forall c :: c in m.comments ==>
          CI.Entries(m.log, CREATE, c) == 1 && m.comments[c].version == 1 + CI.Entries(m.log, UPDATE, c))
    && (forall c :: c >= m.nextComment ==> CI.Entries(m.log, CREATE, c) == 0 && CI.Entries(m.log, UPDATE, c) == 0)
  }

  /** Version v of comment id had this text. */
  ghost predicate HadText(m: Machine, id: int, version: int, content: string) {
    1 <= version <= |Texts(m, id)| && Texts(m, id)[version - 1] == content
  }

  /** The last text is the present one. */
  ghost predicate TextsOk(m: Machine) {
    forall c :: c in m.comments ==>
      m.comments[c].version == |Texts(m, c)| && HadText(m, c, m.comments[c].version, m.comments[c].content)
  }

  /** The resolved users are those the text names among the users registered at the lookup, but for some that
      are gone; the row read was a version of the comment. */
  ghost predicate CallOk(m: Machine, c: Call) {
    && (c.phase.AwaitTransaction? ==>
          && c.phase.since <= m.nextUser
          && (forall u :: u in c.phase.ids ==> u < c.phase.since)
          && (forall u :: u in m.users && u < c.phase.since ==> (u in c.phase.ids <==> Named(m, u, c.content))))
    && (!c.phase.Sent? && c.target.OldComment? ==>
          c.phase.existing.Some? && ReadText(m, c.target.id, c.phase.existing.value))
  }

  ghost predicate ReadText(m: Machine, id: int, existing: Comment) {
    HadText(m, id, existing.version, existing.content) && id < m.nextComment
    && (id in m.comments ==> existing.version <= m.comments[id].version)
  }

  ghost predicate Inv(m: Machine) {
    && Numbered(m) && Justified(m) && Audited(m) && TextsOk(m)
    && forall call :: call in m.calls ==> CallOk(m, m.calls[call])
  }

  // ----- steps -----

  /** Users keep their names, user and comment ids do not come back, versions and texts are not forgotten. */
  ghost predicate Grows(m: Machine, after: Machine) {
    && m.nextUser <= after.nextUser && m.nextComment <= after.nextComment
    && (forall u :: u in after.users ==> (u in m.users && after.users[u] == m.users[u]) || u >= m.nextUser)
    && (forall id :: Texts(m, id) <= Texts(after, id) || id >= m.nextComment)
    && (forall id :: id in after.comments ==>
          (id in m.comments && m.comments[id].version <= after.comments[id].version) || id >= m.nextComment)
  }

  lemma CallStays(m: Machine, after: Machine, c: Call)
    requires CallOk(m, c) && Grows(m, after)
    ensures CallOk(after, c)
  {
    if !c.phase.Sent? && c.target.OldComment? {
      assert Texts(m, c.target.id) <= Texts(after, c.target.id);
    }
  }

  lemma CallsStay(m: Machine, after: Machine)
    requires Inv(m) && Grows(m, after)
    requires forall call :: call in after.calls ==>
               (call in m.calls && after.calls[call] == m.calls[call]) || CallOk(after, after.calls[call])
    ensures forall call :: call in after.calls ==> CallOk(after, after.calls[call])
  {
    forall call | call in after.calls
      ensures CallOk(after, after.calls[call])
    {
      if call in m.calls && after.calls[call] == m.calls[call] {
        CallStays(m, after, m.calls[call]);
      }
    }
  }

  lemma LogAppend(log: seq<Entry>, e: Entry)
    ensures forall action, c ::
              CI.Entries(log + [e], action, c)
              == CI.Entries(log, action, c)
                 + (if e.entity == COMMENT && e.action == action && e.entityId == c then 1 else 0)
  {
    forall action, c
      ensures CI.Entries(log + [e], action, c)
           == CI.Entries(log, action, c) + if e.entity == COMMENT && e.action == action && e.entityId == c then 1 else 0
    {
      CI.EntriesAppend(log, e, action, c);
    }
  }

  lemma CreatedTables(m: Machine, c: Call, now: int)
    requires Inv(m) && CallOk(m, c) && Commits(m, c) && c.target.NewComment?
    ensures var after := Created(m, c, now);
            Numbered(after) && Justified(after) && Audited(after) && TextsOk(after) && Grows(m, after)
  {
    LogAppend(m.log, CommentEntry(CREATE, m.nextComment, c.who,
                                  CommentCreated(c.target.ticket, c.target.author, c.phase.ids)));
  }

  lemma EditedJustified(m: Machine, c: Call)
    requires Inv(m) && CallOk(m, c) && Commits(m, c) && c.target.OldComment?
    ensures Justified(Edited(m, c))
  {
  }

  lemma EditedTables(m: Machine, c: Call)
    requires Inv(m) && CallOk(m, c) && Commits(m, c) && c.target.OldComment?
    ensures Numbered(Edited(m, c)) && TextsOk(Edited(m, c)) && Grows(m, Edited(m, c))
  {
  }

  lemma EditedAudited(m: Machine, c: Call)
    requires Inv(m) && CallOk(m, c) && Commits(m, c) && c.target.OldComment?
    ensures Audited(Edited(m, c))
  {
    LogAppend(m.log, CommentEntry(UPDATE, c.target.id, c.who, CommentEdited(SaysChanged(c), c.phase.ids)));
  }

  lemma DoneKeeps(m: Machine, c: Call, now: int)
    requires Inv(m) && CallOk(m, c) && Commits(m, c)
    ensures Inv(Done(m, c, now)) && Grows(m, Done(m, c, now))
  {
    if c.target.NewComment? {
      CreatedTables(m, c, now);
    } else {
      EditedJustified(m, c);
      EditedTables(m, c);
      EditedAudited(m, c);
    }
    CallsStay(m, Done(m, c, now));
  }

  lemma EndedKeeps(m: Machine, call: int)
    requires Inv(m)
    ensures Inv(Ended(m, call))
  {
    CallsStay(m, Ended(m, call));
  }

  lemma BurnedKeeps(m: Machine)
    requires Inv(m)
    ensures Inv(m.(nextComment := m.nextComment + 1))
  {
    CallsStay(m, m.(nextComment := m.nextComment + 1));
  }

  lemma AtKeeps(m: Machine, call: int, phase: Phase)
    requires Inv(m) && call in m.calls && CallOk(m, m.calls[call].(phase := phase))
    ensures Inv(At(m, call, phase))
  {
    assert CallOk(At(m, call, phase), m.calls[call].(phase := phase));
    CallsStay(m, At(m, call, phase));
  }

  lemma ReadKeeps(m: Machine, call: int, now: int)
    requires Inv(m) && call in m.calls && !m.calls[call].phase.AwaitTransaction?
    ensures Inv(Advance(m, call, NoFault, now))
  {
    var c := m.calls[call];
    assert CallOk(m, c);
    var after := Advance(m, call, NoFault, now);
    if call in after.calls {
      AtKeeps(m, call, after.calls[call].phase);
    } else {
      EndedKeeps(m, call);
    }
  }

  lemma CommitKeeps(m: Machine, call: int, now: int)
    requires Inv(m) && call in m.calls && Commits(m, m.calls[call])
    ensures Inv(Ended(Done(m, m.calls[call], now), call))
  {
    assert CallOk(m, m.calls[call]);
    DoneKeeps(m, m.calls[call], now);
    EndedKeeps(Done(m, m.calls[call], now), call);
  }

  /** A call that ends without effect, but for a used-up id. */
  lemma RefusedKeeps(m: Machine, call: int)
    requires Inv(m)
    ensures Inv(Ended(m, call)) && Inv(Ended(m, call).(nextComment := m.nextComment + 1))
  {
    EndedKeeps(m, call);
    BurnedKeeps(Ended(m, call));
  }

  lemma AdvanceKeeps(m: Machine, call: int, fault: Fault, now: int)
    requires Inv(m) && call in m.calls
    ensures Inv(Advance(m, call, fault, now))
  {
    var c := m.calls[call];
    if fault.NoFault? && !c.phase.AwaitTransaction? {
      ReadKeeps(m, call, now);
    } else if fault.NoFault? && Commits(m, c) {
      CommitKeeps(m, call, now);
    } else {
      RefusedKeeps(m, call);
    }
  }

  lemma DeleteKeeps(m: Machine, id: int, who: int)
    requires Inv(m)
    ensures Inv(Next(m, DeleteComment(id, who)))
  {
    if id in m.comments {
      LogAppend(m.log, CommentEntry(DELETE, id, who, CommentRef(m.comments[id].ticket, m.comments[id].author)));
      CallsStay(m, Next(m, DeleteComment(id, who)));
    }
  }

  lemma RegisterKeeps(m: Machine, user: User)
    requires Inv(m)
    ensures Inv(Next(m, Register(user)))
  {
    CallsStay(m, Next(m, Register(user)));
  }

  lemma UnregisterTables(m: Machine, id: int)
    requires Inv(m) && !Authored(m, id)
    ensures var after := Next(m, Unregister(id));
            Numbered(after) && Justified(after) && Audited(after) && TextsOk(after) && Grows(m, after)
  {
  }

  lemma UnregisterKeeps(m: Machine, id: int)
    requires Inv(m)
    ensures Inv(Next(m, Unregister(id)))
  {
    if !Authored(m, id) {
      UnregisterTables(m, id);
      CallsStay(m, Next(m, Unregister(id)));
    }
  }

  lemma NextKeeps(m: Machine, e: Event)
    requires Inv(m)
    ensures Inv(Next(m, e))
  {
    match e
    case Submit(call, target, content, who) => CallsStay(m, Next(m, e));
    case Proceed(call, fault, now) =>
      if call in m.calls {
        AdvanceKeeps(m, call, fault, now);
      }
    case DeleteComment(id, who) => DeleteKeeps(m, id, who);
    case Register(user) => RegisterKeeps(m, user);
    case Unregister(id) => UnregisterKeeps(m, id);
  }

  lemma {:induction false} RunKeeps(es: seq<Event>)
    ensures Inv(Run(EMPTY, es))
  {
    if es != [] {
      RunKeeps(es[..|es| - 1]);
      NextKeeps(Run(EMPTY, es[..|es| - 1]), es[|es| - 1]);
    }
  }

  /** In every interleaving, whatever versions clients send and whatever statements fail: every mention row is
      justified by the comment's present text, and every live comment has one CREATE entry and one UPDATE
      entry per further version. */
  lemma InterleavedCommentsConsistent(es: seq<Event>)
    ensures Justified(Run(EMPTY, es)) && Audited(Run(EMPTY, es))
  {
    RunKeeps(es);
  }

  // ----- what a commit leaves, exactly -----

  /** The comment a call writes. */
  function Written(m: Machine, c: Call): int {
    if c.target.NewComment? then m.nextComment else c.target.id
  }

  lemma RowsAfter(m: Machine, c: Call, now: int)
    requires Inv(m) && Commits(m, c)
    ensures CI.RowsOf(Done(m, c, now).mentions, Written(m, c)) == c.phase.ids
  {
    var after, id := Done(m, c, now), Written(m, c);
    forall u | u in c.phase.ids
      ensures u in CI.RowsOf(after.mentions, id)
    {
      assert (id, u) in after.mentions;
    }
  }

  /** Right after its commit a comment's rows are exactly the registered users its text names, exactly when none
      of them registered since the call looked the names up. */
  lemma RowsExactly(m: Machine, c: Call, now: int)
    requires Inv(m) && CallOk(m, c) && Commits(m, c)
    ensures CI.RowsOf(Done(m, c, now).mentions, Written(m, c)) == MentionedUsers(m.users, c.content)
       <==> forall u :: u in m.users && Named(m, u, c.content) ==> u < c.phase.since
  {
    RowsAfter(m, c, now);
    var named := MentionedUsers(m.users, c.content);
    assert forall u :: u in named <==> u in m.users && Named(m, u, c.content);
    assert forall u :: u in c.phase.ids ==> u in m.users && u < c.phase.since;
    if forall u :: u in m.users && Named(m, u, c.content) ==> u < c.phase.since {
      forall u
        ensures u in c.phase.ids <==> u in named
      {
        assert u in named ==> u < c.phase.since;
      }
      assert c.phase.ids == named;
    }
  }

  /** The same for every commit of every interleaving. */
  lemma CommittedRowsExactly(es: seq<Event>, call: int, now: int)
    requires call in Run(EMPTY, es).calls && Commits(Run(EMPTY, es), Run(EMPTY, es).calls[call])
    ensures var m, c := Run(EMPTY, es), Run(EMPTY, es).calls[call];
            var after := Next(m, Proceed(call, NoFault, now));
            CI.RowsOf(after.mentions, Written(m, c)) == MentionedUsers(after.users, c.content)
            <==> forall u :: u in m.users && Named(m, u, c.content) ==> u < c.phase.since
  {
    RunKeeps(es);
    var m, c := Run(EMPTY, es), Run(EMPTY, es).calls[call];
    assert CallOk(m, c);
    RowsExactly(m, c, now);
  }

  /** The entry says whether the text changed truly. */
  predicate TrueFlag(m: Machine, c: Call)
    requires Commits(m, c)
  {
    c.target.OldComment? ==> SaysChanged(c) == (m.comments[c.target.id].content != c.content)
  }

  /** An edit's entry is true exactly when the text it read and the one it hits both are, or both are not, the
      new one; with a version not beyond the one it read they are the same text. */
  lemma FlagExactly(m: Machine, c: Call)
    requires Inv(m) && CallOk(m, c) && Commits(m, c) && c.target.OldComment?
    ensures var existing, hit := c.phase.existing.value, m.comments[c.target.id];
            && (TrueFlag(m, c) <==> (existing.content == c.content <==> hit.content == c.content))
            && (c.target.version <= existing.version ==> existing.content == hit.content)
  {
  }

  // ----- clients that send no version beyond the present one -----

  predicate Modest(m: Machine, e: Event) {
    e.Submit? && e.target.OldComment? ==>
      if e.target.id in m.comments then e.target.version <= m.comments[e.target.id].version
      else e.target.id < m.nextComment || e.target.version <= 1
  }

  predicate ModestRun(es: seq<Event>) {
    es == [] || (ModestRun(es[..|es| - 1]) && Modest(Run(EMPTY, es[..|es| - 1]), es[|es| - 1]))
  }

  /** The version sent is at most the version read, or still to be read. */
  ghost predicate Squeezed(m: Machine, c: Call) {
    c.target.OldComment? ==>
      if c.phase.Sent? then c.target.id in m.comments ==> c.target.version <= m.comments[c.target.id].version
      else c.phase.existing.Some? && c.target.version <= c.phase.existing.value.version
  }

  ghost predicate AllSqueezed(m: Machine) {
    forall call :: call in m.calls ==> Squeezed(m, m.calls[call]) && NoGuess(m, m.calls[call])
  }

  /** The id a call names has been handed out, or its version is no guess. */
  ghost predicate NoGuess(m: Machine, c: Call) {
    c.target.OldComment? ==> c.target.id < m.nextComment || c.target.version <= 1
  }

  /** Every commit of the run logs truly whether it changed the text. */
  ghost predicate TrueFlags(es: seq<Event>) {
    es == [] ||
    var m, e := Run(EMPTY, es[..|es| - 1]), es[|es| - 1];
    TrueFlags(es[..|es| - 1])
    && (e.Proceed? && e.call in m.calls && Commits(m, m.calls[e.call]) ==> TrueFlag(m, m.calls[e.call]))
  }

  lemma SqueezedStays(m: Machine, after: Machine, c: Call)
    requires Squeezed(m, c) && NoGuess(m, c) && Grows(m, after) && TextsOk(after)
    ensures Squeezed(after, c) && NoGuess(after, c)
  {
  }

  lemma AdvanceGrows(m: Machine, call: int, fault: Fault, now: int)
    requires Inv(m) && call in m.calls
    ensures Grows(m, Advance(m, call, fault, now))
  {
    var c, after := m.calls[call], Advance(m, call, fault, now);
    assert CallOk(m, c);
    if fault.NoFault? && Commits(m, c) {
      DoneKeeps(m, c, now);
    } else {
      assert after == m.(calls := after.calls, nextComment := after.nextComment);
    }
  }

  lemma NextGrows(m: Machine, e: Event)
    requires Inv(m)
    ensures Grows(m, Next(m, e))
  {
    if e.Proceed? && e.call in m.calls {
      AdvanceGrows(m, e.call, e.fault, e.now);
    }
  }

  lemma AdvanceSqueezed(m: Machine, e: Event)
    requires Inv(m) && e.Proceed? && e.call in m.calls && Squeezed(m, m.calls[e.call]) && NoGuess(m, m.calls[e.call])
    ensures e.call in Next(m, e).calls ==>
              Squeezed(Next(m, e), Next(m, e).calls[e.call]) && NoGuess(Next(m, e), Next(m, e).calls[e.call])
  {
  }

  lemma AdvanceLeavesCalls(m: Machine, call: int, fault: Fault, now: int, other: int)
    requires call in m.calls && other in Advance(m, call, fault, now).calls && other != call
    ensures other in m.calls && Advance(m, call, fault, now).calls[other] == m.calls[other]
  {
  }

  lemma OtherCalls(m: Machine, e: Event, call: int)
    requires call in Next(m, e).calls
    ensures || (call in m.calls && Next(m, e).calls[call] == m.calls[call])
            || (e.Submit? && Next(m, e).calls[call] == Call(e.target, e.content, e.who, Sent)
                && Next(m, e).comments == m.comments)
            || (e.Proceed? && e.call == call && call in m.calls)
  {
    if e.Proceed? && e.call in m.calls && e.call != call {
      AdvanceLeavesCalls(m, e.call, e.fault, e.now, call);
    }
  }

  lemma NextSqueezed(m: Machine, e: Event)
    requires Inv(m) && AllSqueezed(m) && Modest(m, e)
    ensures AllSqueezed(Next(m, e))
  {
    var after := Next(m, e);
    NextGrows(m, e);
    NextKeeps(m, e);
    forall call | call in after.calls
      ensures Squeezed(after, after.calls[call]) && NoGuess(after, after.calls[call])
    {
      OtherCalls(m, e, call);
      if call in m.calls && after.calls[call] == m.calls[call] {
        SqueezedStays(m, after, m.calls[call]);
      } else if e.Proceed? {
        AdvanceSqueezed(m, e);
      }
    }
  }

  lemma {:induction false} RunSqueezed(es: seq<Event>)
    requires ModestRun(es)
    ensures AllSqueezed(Run(EMPTY, es)) && TrueFlags(es)
  {
    if es != [] {
      var earlier := es[..|es| - 1];
      var m, e := Run(EMPTY, earlier), es[|es| - 1];
      RunSqueezed(earlier);
      RunKeeps(earlier);
      NextSqueezed(m, e);
      if e.Proceed? && e.call in m.calls && Commits(m, m.calls[e.call]) && m.calls[e.call].target.OldComment? {
        assert Squeezed(m, m.calls[e.call]) && CallOk(m, m.calls[e.call]);
        FlagExactly(m, m.calls[e.call]);
      }
    }
  }

  /** When no client sends a version beyond the present one, every UPDATE entry says truly whether its edit
      changed the text. */
  lemma EditsSayTruly(es: seq<Event>)
    requires ModestRun(es)
    ensures TrueFlags(es)
  {
    RunSqueezed(es);
  }
}
