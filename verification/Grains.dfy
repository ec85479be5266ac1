/** The two grains of the model agree: a PATCH call, an escalation cycle or a comment call that nobody interrupts
    is the atomic operation, in tables and audit entries, and a PATCH call also in its answer. */
module Grains {
  import opened Schema
  import opened TicketTable
  import opened Interleaving
  import CC = CommentCalls
  import Operations

  // ----- a PATCH call -----

  /** The call goes on until it has ended: at most a read, two checks, a write and a log entry. */
  function Finish(m: Machine, call: int): Machine {
    var m1 := Next(Next(m, Proceed(call)), Proceed(call));
    Next(Next(Next(m1, Proceed(call)), Proceed(call)), Proceed(call))
  }

  /** One call taken through all its awaits without anybody else running. */
  function Uninterrupted(m: Machine, call: int, id: int, patch: Patch, version: int, who: int): Machine {
    Finish(Next(m, Submit(call, id, patch, version, who)), call)
  }

  /** The machine and the database hold the same rows and the same audit entries. */
  ghost predicate SameTables(m: Machine, s: State) {
    && s.tickets == m.tickets && s.nextTicket == m.nextTicket && s.deps == m.deps && s.users.Keys == m.users
    && s.log == m.log && s.outages == []
  }

  /** The call has ended with the effect and the answer of the atomic operation: a refusal wrote nothing; a
      success wrote once, and showed the row it answers. */
  ghost predicate EndsAs(m: Machine, after: Machine, call: int, id: int, atomic: (State, Result<Ticket>)) {
    && call !in after.requests && after.tickets == atomic.0.tickets && after.log == atomic.0.log
    && |after.writes| == |m.writes| + (if atomic.1.Ok? then 1 else 0)
    && call in after.answers && after.answers[call] == atomic.1
    && (atomic.1.Err? ==> after.seen == m.seen)
    && (atomic.1.Ok? ==>
          after.seen == m.seen + {(id, atomic.1.value.version, FieldsOf(atomic.1.value))})
  }

  /** What a call that has passed all its checks does to the database. */
  function WriteAndLog(s: State, q: Request, before: Ticket): (State, Result<Ticket>) {
    if q.patch.assignee.Some? && q.patch.assignee.value !in s.users then (s, Err(NotFound))
    else
      var (tickets, row) := UpdateWithVersionCheck(s.tickets, q.id, q.version, q.patch, q.patch.priority.Some?);
      if row.None? then (s, Err(Conflict))
      else (Logged(s.(tickets := tickets), Operations.UpdatedEntry(q.id, before, row.value, q.who)), Ok(row.value))
  }

  lemma FromWrite(m: Machine, s: State, call: int, before: Ticket)
    requires SameTables(m, s) && call in m.requests && m.requests[call].phase == AwaitWrite(before)
    requires m.requests[call].patch.assignee.Some? ==> m.requests[call].patch.assignee.value in m.users
    ensures var after := Next(Next(m, Proceed(call)), Proceed(call));
            EndsAs(m, after, call, m.requests[call].id, WriteAndLog(s, m.requests[call], before))
  {
    var q := m.requests[call];
    if CommittedRow(m, q).Some? {
      assert Next(m, Proceed(call)).requests[call].phase == AwaitAudit(before, CommittedRow(m, q).value);
    }
  }

  lemma EndedStays(m: Machine, call: int)
    requires call !in m.requests
    ensures Next(m, Proceed(call)) == m && Finish(m, call) == m
  {
  }

  lemma FromAssignee(m: Machine, s: State, call: int, before: Ticket)
    requires SameTables(m, s) && call in m.requests && m.requests[call].phase == AfterBlockers(m.requests[call], before)
    ensures var after := Next(Next(Next(m, Proceed(call)), Proceed(call)), Proceed(call));
            EndsAs(m, after, call, m.requests[call].id, WriteAndLog(s, m.requests[call], before))
  {
    var q := m.requests[call];
    var m1 := Next(m, Proceed(call));
    if q.patch.assignee.None? {
      FromWrite(m, s, call, before);
      EndedStays(Next(m1, Proceed(call)), call);
    } else if q.patch.assignee.value in m.users {
      FromWrite(m1, s, call, before);
      assert m1.requests[call] == q.(phase := AwaitWrite(before));
    }
  }

  /** The atomic operation as its read, its gate and the rest. */
  lemma AtomicFromRead(s: State, q: Request)
    requires q.patch != EMPTY_PATCH
    ensures var atomic := Operations.PatchTicket(s, q.id, UpdateDto(q.patch, Some(q.version)), q.who);
            if !Active(s.tickets, q.id) then atomic == (s, Err(NotFound))
            else if ReadError(s.tickets[q.id], q.patch).Some?
            then atomic == (s, Err(ReadError(s.tickets[q.id], q.patch).value))
            else if q.patch.status == Some(DONE) && Unresolved(s.tickets, s.deps, q.id) != {}
            then atomic == (s, Err(Conflict))
            else atomic == WriteAndLog(s, q, s.tickets[q.id])
  {
  }

  /** From the gate on. */
  lemma FromBlockers(m: Machine, s: State, call: int, before: Ticket)
    requires SameTables(m, s) && call in m.requests
    requires m.requests[call].phase == AwaitBlockers(before)
    ensures var q, m1 := m.requests[call], Next(m, Proceed(call));
            var after := Next(Next(Next(m1, Proceed(call)), Proceed(call)), Proceed(call));
            EndsAs(m, after, call, q.id,
                   if Unresolved(s.tickets, s.deps, q.id) != {} then (s, Err(Conflict)) else WriteAndLog(s, q, before))
  {
    var q, m1 := m.requests[call], Next(m, Proceed(call));
    if Unresolved(s.tickets, s.deps, q.id) == {} {
      assert m1.requests[call] == q.(phase := AfterBlockers(q, before));
      FromAssignee(m1, s, call, before);
    }
  }

  /** The read and the checks on the row it found. */
  lemma ReadStep(m: Machine, call: int)
    requires call in m.requests && m.requests[call].phase.Submitted?
    ensures var q, m1 := m.requests[call], Next(m, Proceed(call));
            if Refusal(m, q).Some? then m1 == End(m, call, Err(Refusal(m, q).value))
            else
              var before := m.tickets[q.id];
              var gated := q.patch.status == Some(DONE);
              m1 == Resume(m, call, if gated then AwaitBlockers(before) else AfterBlockers(q, before))
  {
  }

  /** What a call does from its read on. */
  function ReadAndRest(s: State, q: Request): (State, Result<Ticket>) {
    Operations.PatchTicket(s, q.id, UpdateDto(q.patch, Some(q.version)), q.who)
  }

  /** A call that is refused at once. */
  lemma RefusedAtOnce(m: Machine, s: State, call: int, e: Error)
    requires SameTables(m, s) && call in m.requests && Next(m, Proceed(call)) == End(m, call, Err(e))
    ensures EndsAs(m, Finish(m, call), call, m.requests[call].id, (s, Err(e)))
  {
    EndedStays(End(m, call, Err(e)), call);
  }

  /** From the read on, for a patch that goes through the DONE gate. */
  lemma FromGatedRead(m: Machine, s: State, call: int)
    requires SameTables(m, s) && call in m.requests && m.requests[call].phase.Submitted?
    requires m.requests[call].patch.status == Some(DONE)
    ensures EndsAs(m, Finish(m, call), call, m.requests[call].id, ReadAndRest(s, m.requests[call]))
  {
    var q, m1 := m.requests[call], Next(m, Proceed(call));
    AtomicFromRead(s, q);
    ReadStep(m, call);
    if Refusal(m, q).Some? {
      RefusedAtOnce(m, s, call, Refusal(m, q).value);
    } else {
      assert m1.requests[call] == q.(phase := AwaitBlockers(m.tickets[q.id]));
      FromBlockers(m1, s, call, m.tickets[q.id]);
    }
  }

  /** From the read on, for any other patch. */
  lemma FromFreeRead(m: Machine, s: State, call: int)
    requires SameTables(m, s) && call in m.requests && m.requests[call].phase.Submitted?
    requires m.requests[call].patch.status != Some(DONE) && m.requests[call].patch != EMPTY_PATCH
    ensures EndsAs(m, Finish(m, call), call, m.requests[call].id, ReadAndRest(s, m.requests[call]))
  {
    var q, m1 := m.requests[call], Next(m, Proceed(call));
    AtomicFromRead(s, q);
    ReadStep(m, call);
    if Refusal(m, q).Some? {
      RefusedAtOnce(m, s, call, Refusal(m, q).value);
    } else {
      assert m1.requests[call] == q.(phase := AfterBlockers(q, m.tickets[q.id]));
      FromAssignee(m1, s, call, m.tickets[q.id]);
      EndedStays(Next(Next(Next(m1, Proceed(call)), Proceed(call)), Proceed(call)), call);
    }
  }

  /** A call that nobody interrupts is the atomic PATCH. */
  lemma UninterruptedIsAtomic(m: Machine, s: State, call: int, id: int, patch: Patch, version: int, who: int)
    requires SameTables(m, s) && call !in m.requests
    ensures var atomic := Operations.PatchTicket(s, id, UpdateDto(patch, Some(version)), who);
            EndsAs(m, Uninterrupted(m, call, id, patch, version, who), call, id, atomic)
  {
    if patch == EMPTY_PATCH {
      EndedStays(m, call);
    } else if patch.status == Some(DONE) {
      FromGatedRead(Next(m, Submit(call, id, patch, version, who)), s, call);
    } else {
      FromFreeRead(Next(m, Submit(call, id, patch, version, who)), s, call);
    }
  }

  // ----- an escalation cycle -----

  /** The cycle goes on until no row and no entry is left. */
  function Drain(m: Machine, cycle: int): Machine
    requires cycle in m.cycles
    decreases 2 * |m.cycles[cycle].rows| + if m.cycles[cycle].pending.Some? then 1 else 0
  {
    var c := m.cycles[cycle];
    if c.pending.None? && c.rows == [] then m else Drain(EscalateFirst(m, cycle), cycle)
  }

  /** The loop may as well start with its first row. */
  lemma {:induction false} EscalateRowsCons(s: State, rows: seq<(int, Ticket)>)
    requires rows != []
    ensures var mid, first := Operations.EscalateRow(s, rows[0]), Operations.RowOutcome(s, rows[0]);
            var (after, m) := Operations.EscalateRows(s, rows);
            var (after', m') := Operations.EscalateRows(mid, rows[1..]);
            && after == after'
            && m.promoted == m'.promoted + (if first.Promoted? then 1 else 0)
            && m.markedOverdue == m'.markedOverdue + (if first.Marked? then 1 else 0)
  {
    var last := |rows| - 1;
    if last == 0 {
      assert rows[..0] == [] && rows[1..] == [];
    } else {
      EscalateRowsCons(s, rows[..last]);
      assert rows[..last][1..] == rows[1..][..last - 1];
      assert rows[1..][last - 1] == rows[last] && |rows[1..]| == last;
    }
  }

  /** One row of an uninterrupted cycle, its write and its entry. */
  lemma DrainRow(m: Machine, s: State, cycle: int) returns (k: Machine)
    requires cycle in m.cycles && m.cycles[cycle].pending.None? && m.cycles[cycle].rows != [] && SameTables(m, s)
    ensures var c := m.cycles[cycle];
            && SameTables(k, Operations.EscalateRow(s, c.rows[0]))
            && cycle in k.cycles && k.cycles[cycle] == Cycle(c.since, c.rows[1..], None)
            && Drain(m, cycle) == Drain(k, cycle)
            && |k.writes| == |m.writes| + if Operations.RowOutcome(s, c.rows[0]).Skipped? then 0 else 1
  {
    var c := m.cycles[cycle];
    k := EscalateFirst(m, cycle);
    if CycleWrite(m, c).Some? {
      assert k.cycles[cycle].pending.Some?;
      k := EscalateFirst(k, cycle);
    }
  }

  lemma {:induction false} DrainIsEscalateRows(m: Machine, s: State, cycle: int)
    requires cycle in m.cycles && m.cycles[cycle].pending.None? && SameTables(m, s)
    ensures var (after, sum) := Operations.EscalateRows(s, m.cycles[cycle].rows);
            && SameTables(Drain(m, cycle), after)
            && |Drain(m, cycle).writes| == |m.writes| + sum.promoted + sum.markedOverdue
    decreases |m.cycles[cycle].rows|
  {
    var c := m.cycles[cycle];
    if c.rows != [] {
      var k := DrainRow(m, s, cycle);
      DrainIsEscalateRows(k, Operations.EscalateRow(s, c.rows[0]), cycle);
      EscalateRowsCons(s, c.rows);
    }
  }

  /** A cycle that nobody interrupts is the atomic escalation, and makes one write for each promotion and flag. */
  lemma UninterruptedCycle(m: Machine, s: State, cycle: int, now: int)
    requires SameTables(m, s) && cycle !in m.cycles
    ensures var (after, sum) := Operations.Escalate(s, now);
            var end := Drain(Next(m, Scan(cycle, now)), cycle);
            SameTables(end, after) && |end.writes| == |m.writes| + sum.promoted + sum.markedOverdue
  {
    DrainIsEscalateRows(Next(m, Scan(cycle, now)), s, cycle);
  }

  // ----- operations of one statement that writes -----

  /** The same rows; the entries of these operations are not part of the machine. */
  ghost predicate SameRows(m: Machine, s: State) {
    s.tickets == m.tickets && s.nextTicket == m.nextTicket && s.deps == m.deps && s.users.Keys == m.users
  }

  lemma DeletionsAgree(m: Machine, s: State, id: int, who: int)
    requires SameRows(m, s)
    ensures SameRows(Next(m, Delete(id)), Operations.DeleteTicket(s, id, who).0)
    ensures SameRows(Next(m, Undelete(id)), Operations.RestoreTicket(s, id, who).0)
  {
  }

  /** An accepted add or removal of a dependency. */
  lemma LinksAgree(m: Machine, s: State, t: int, b: int, who: int)
    requires SameRows(m, s)
    ensures Operations.AddDependency(s, t, b, who).1.Ok? ==>
              SameRows(Next(m, Link(t, b)), Operations.AddDependency(s, t, b, who).0)
    ensures SameRows(Next(m, Unlink(t, b)), Operations.RemoveDependency(s, t, b, who).0)
  {
    if (t, b) in s.deps {
      assert s.deps + {(t, b)} == s.deps;
    } else {
      assert s.deps - {(t, b)} == s.deps;
    }
  }

  /** An accepted create, with the assignee it ends up with. */
  lemma CreatesAgree(m: Machine, s: State, dto: CreateDto, pick: Option<int>, who: int)
    requires SameRows(m, s) && Operations.CreateTicket(s, dto, who, pick).1.Ok?
    ensures SameRows(Next(m, Create(Operations.WithAssignee(dto, pick))),
                     Operations.CreateTicket(s, dto, who, pick).0)
  {
  }

  /** An accepted deletion of a user. */
  lemma RemovalsAgree(m: Machine, s: State, user: int, who: int)
    requires SameRows(m, s) && Operations.DeleteUser(s, user, false, who).1.Ok?
    ensures SameRows(Next(m, RemoveUser(user)), Operations.DeleteUser(s, user, false, who).0)
  {
    assert (s.users - {user}).Keys == s.users.Keys - {user};
  }

  // ----- a comment call -----

  /** Both hold the same users, comments, mention rows and audit entries. */
  ghost predicate SameComments(m: CC.Machine, s: State) {
    && m.users == s.users && m.nextUser == s.nextUser && m.comments == s.comments && m.nextComment == s.nextComment
    && m.mentions == s.mentions && m.log == s.log
  }

  /** A call and its statements, none of which fails, without anybody else running. */
  function CommentCall(m: CC.Machine, call: int, target: CC.Target, text: string, who: int, now: int): CC.Machine {
    var m1 := CC.Next(m, CC.Submit(call, target, text, who));
    var m2 := CC.Next(m1, CC.Proceed(call, CC.NoFault, now));
    CC.Next(CC.Next(m2, CC.Proceed(call, CC.NoFault, now)), CC.Proceed(call, CC.NoFault, now))
  }

  /** A create on an active ticket that nobody interrupts is the atomic create. */
  lemma UninterruptedCreate(m: CC.Machine, s: State, call: int, ticket: int, author: int, text: string, who: int,
                            now: int)
    requires SameComments(m, s) && call !in m.calls && Active(s.tickets, ticket)
    ensures var end := CommentCall(m, call, CC.NewComment(ticket, author), text, who, now);
            call !in end.calls && SameComments(end, Operations.CreateComment(s, ticket, author, text, now, who, None).0)
  {
    var m1 := CC.Next(m, CC.Submit(call, CC.NewComment(ticket, author), text, who));
    var m2 := CC.Next(m1, CC.Proceed(call, CC.NoFault, now));
    if author in s.users {
      var ids := Operations.MentionedUsers(s.users, text);
      var m3 := CC.Next(m2, CC.Proceed(call, CC.NoFault, now));
      assert m3.calls[call].phase == CC.AwaitTransaction(None, ids, m.nextUser);
    }
  }

  /** An edit of a comment of the ticket that nobody interrupts is the atomic edit. */
  lemma UninterruptedEdit(m: CC.Machine, s: State, call: int, ticket: int, id: int, text: string, version: int,
                          who: int, now: int)
    requires SameComments(m, s) && call !in m.calls && (id in s.comments ==> s.comments[id].ticket == ticket)
    ensures var end := CommentCall(m, call, CC.OldComment(id, version), text, who, now);
            var after := Operations.EditComment(s, ticket, id, text, Some(version), who, None).0;
            call !in end.calls && SameComments(end, after)
  {
    var m1 := CC.Next(m, CC.Submit(call, CC.OldComment(id, version), text, who));
    var m2 := CC.Next(m1, CC.Proceed(call, CC.NoFault, now));
    if id in s.comments {
      var ids := Operations.MentionedUsers(s.users, text);
      var m3 := CC.Next(m2, CC.Proceed(call, CC.NoFault, now));
      assert m3.calls[call].phase == CC.AwaitTransaction(Some(s.comments[id]), ids, m.nextUser);
    }
  }

  /** Deleting a comment or a user that may go, and registering a user whose name is free. */
  lemma CommentStatementsAgree(m: CC.Machine, s: State, id: int, user: User, who: int)
    requires SameComments(m, s)
    ensures s.outages == [] && id in s.comments ==>
              SameComments(CC.Next(m, CC.DeleteComment(id, who)),
                           Operations.DeleteComment(s, s.comments[id].ticket, id, who).0)
    ensures Operations.DeleteUser(s, id, false, who).1.Ok? ==>
              SameComments(CC.Next(m, CC.Unregister(id)), Operations.DeleteUser(s, id, false, who).0.(log := s.log))
    ensures Operations.CreateUser(s, user, None).1.Ok? ==>
              SameComments(CC.Next(m, CC.Register(user)), Operations.CreateUser(s, user, None).0.(log := s.log))
  {
  }
}
