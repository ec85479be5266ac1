/** When a DONE ticket can have an unresolved blocker after all, and exactly which operations of a serial run
    cause it. */
module ResolvedBlockers {
  import opened Schema
  import opened Graph
  import opened TicketTable
  import opened Operations
  import opened EscalationLaws
  import opened System

  /** The edges from a DONE ticket to an active blocker that is not DONE. */
  ghost function Violations(s: State): Edges {
    set e | e in s.deps && IsDone(s.tickets, e.0) && Open(s.tickets, e.1)
  }

  /** The guard of the two steps that revive a blocker of a DONE ticket. */
  ghost predicate Revives(s: State, op: Op) {
    match op
    case AddDependencyOp(t, b, _) =>
      DependencyError(s, t, b).None? && (t, b) !in s.deps && IsDone(s.tickets, t) && Open(s.tickets, b)
    case RestoreOp(id, _) =>
      id in s.tickets && s.tickets[id].deleted && s.tickets[id].status != DONE
      && exists e :: e in s.deps && e.1 == id && IsDone(s.tickets, e.0)
    case _ => false
  }

  /** Rows that stay DONE or not, and are not reopened, add no violation. */
  lemma TableShrinks(s: State, after: State)
    requires after.deps <= s.deps && EdgesInProject(s.tickets, s.deps)
    requires forall id :: id in s.tickets && IsDone(after.tickets, id) ==> IsDone(s.tickets, id)
    requires forall id :: id in s.tickets && Open(after.tickets, id) ==> Open(s.tickets, id)
    ensures Violations(after) <= Violations(s)
  {
  }

  /** The DONE gate: finishing a ticket adds no violation. */
  lemma PatchShrinks(s: State, id: int, dto: UpdateDto, who: int)
    requires EdgesInProject(s.tickets, s.deps)
    ensures Violations(PatchTicket(s, id, dto, who).0) <= Violations(s)
  {
    if PatchError(s, id, dto).None? {
      var after := PatchTicket(s, id, dto, who).0;
      forall e | e in Violations(after)
        ensures e in Violations(s)
      {
        if e.0 == id && dto.patch.status == Some(DONE) {
          assert e.1 !in Unresolved(s.tickets, s.deps, id);
        }
      }
    }
  }

  lemma EscalateShrinks(s: State, now: int)
    requires TicketInv(s)
    ensures Violations(Escalate(s, now).0) <= Violations(s)
  {
    EscalateWhole(s, now);
    var after := Escalate(s, now).0;
    forall id | id in s.tickets
      ensures after.tickets[id].status == s.tickets[id].status && after.tickets[id].deleted == s.tickets[id].deleted
    {
      if Overdue(s.tickets[id], now) {
        EscalationStep(s.tickets[id], now);
      }
    }
    TableShrinks(s, after);
  }

  lemma AddDependencyExact(s: State, t: int, b: int, who: int)
    ensures Violations(AddDependency(s, t, b, who).0) <= Violations(s) <==> !Revives(s, AddDependencyOp(t, b, who))
  {
    var after := AddDependency(s, t, b, who).0;
    if Revives(s, AddDependencyOp(t, b, who)) {
      assert (t, b) in Violations(after) && (t, b) !in Violations(s);
    }
  }

  lemma RestoreExact(s: State, id: int, who: int)
    ensures Violations(RestoreTicket(s, id, who).0) <= Violations(s) <==> !Revives(s, RestoreOp(id, who))
  {
    var after := RestoreTicket(s, id, who).0;
    if Revives(s, RestoreOp(id, who)) {
      var e :| e in s.deps && e.1 == id && IsDone(s.tickets, e.0);
      assert e in Violations(after) && e !in Violations(s);
    } else {
      forall e | e in Violations(after)
        ensures e in Violations(s)
      {
        if e.1 == id && after != s {
          assert IsDone(s.tickets, e.0);
        }
      }
    }
  }

  lemma InsertShrinks(s: State, op: Op)
    requires TicketInv(s) && (op.CreateTicketOp? || op.ImportOp?)
    ensures Violations(Step(s, op)) <= Violations(s)
  {
    match op
    case ImportOp(js, project, records, who) =>
      if records.Some? {
        ImportInv(s, js, records.value, project);
      }
      TableShrinks(s, Step(s, op));
    case CreateTicketOp(_, _, _) => TableShrinks(s, Step(s, op));
  }

  lemma DeleteShrinks(s: State, op: Op)
    requires TicketInv(s) && (op.DeleteOp? || op.RemoveDependencyOp? || op.DeleteUserOp?)
    ensures Violations(Step(s, op)) <= Violations(s)
  {
    TableShrinks(s, Step(s, op));
  }

  /** An operation that nobody interrupts adds a violation exactly when its guard says so before the call. */
  lemma StepExact(s: State, op: Op)
    requires TicketInv(s) && Enabled(s, op)
    ensures Violations(Step(s, op)) <= Violations(s) <==> !Revives(s, op)
  {
    if op.AddDependencyOp? {
      AddDependencyExact(s, op.t, op.b, op.who);
    } else if op.RestoreOp? {
      RestoreExact(s, op.id, op.who);
    } else if op.PatchOp? {
      PatchShrinks(s, op.id, op.patch, op.who);
    } else if op.EscalateOp? {
      EscalateShrinks(s, op.now);
    } else if op.ImportOp? || op.CreateTicketOp? {
      InsertShrinks(s, op);
    } else if LeavesTickets(op) {
      TicketsLeft(s, op);
    } else {
      DeleteShrinks(s, op);
    }
  }

  /** Some step of the run revives a blocker of a DONE ticket. */
  ghost predicate RevivesSomewhere(s: State, ops: seq<Op>) {
    ops != [] && (RevivesSomewhere(s, ops[..|ops| - 1]) || Revives(Run(s, ops[..|ops| - 1]), ops[|ops| - 1]))
  }

  /** DONE tickets have only resolved blockers after every step of the run. */
  ghost predicate AlwaysResolved(s: State, ops: seq<Op>) {
    Violations(Run(s, ops)) == {} && (ops == [] || AlwaysResolved(s, ops[..|ops| - 1]))
  }

  /** "DONE tickets have only resolved blockers" holds throughout a serial run exactly when no step of the run
      adds an open blocker to a DONE ticket or restores one. */
  lemma {:induction false} ResolvedThroughout(outages: seq<bool>, ops: seq<Op>)
    requires Legal(Start(outages), ops)
    ensures AlwaysResolved(Start(outages), ops) <==> !RevivesSomewhere(Start(outages), ops)
  {
    if ops != [] {
      var earlier := ops[..|ops| - 1];
      ResolvedThroughout(outages, earlier);
      StartInv(outages);
      RunInv(Start(outages), earlier);
      var mid := Run(Start(outages), earlier);
      StepExact(mid, ops[|ops| - 1]);
      if AlwaysResolved(Start(outages), earlier) {
        assert Violations(mid) == {};
      }
    }
  }

  lemma RunSnoc(s: State, ops: seq<Op>, op: Op)
    ensures Run(s, ops + [op]) == Step(Run(s, ops), op)
    ensures Legal(s, ops + [op]) <==> Legal(s, ops) && Enabled(Run(s, ops), op)
  {
    assert (ops + [op])[..|ops|] == ops;
  }

  lemma CreateUnassigned(s: State, dto: CreateDto)
    requires dto.project in s.projects && dto.assignee.None? && s.users == map[]
    ensures var op := CreateTicketOp(dto, 1, None);
            && Enabled(s, op)
            && Step(s, op).tickets == s.tickets[s.nextTicket := NewRow(dto)]
            && Step(s, op).nextTicket == s.nextTicket + 1
            && Step(s, op).deps == s.deps && Step(s, op).users == s.users && Step(s, op).projects == s.projects
            && Step(s, op).nextUser == s.nextUser
            && Step(s, op).comments == s.comments && Step(s, op).nextComment == s.nextComment
  {
    assert WithAssignee(dto, None) == dto;
  }

  lemma BlockDone(s: State)
    requires s.deps == {} && IsDone(s.tickets, 1) && Active(s.tickets, 1) && Open(s.tickets, 2)
    requires s.tickets[1].project == s.tickets[2].project
    ensures (1, 2) in Violations(Step(s, AddDependencyOp(1, 2, 1)))
  {
    if Reach(s.deps, 2, 1) {
      var m := ReachSplit(s.deps, 2, 1);
    }
  }

  /** A DONE ticket with an open blocker is reachable: create one DONE and one open ticket, then let
      the open one block the DONE one. */
  lemma DoneTicketCanGainBlocker() returns (ops: seq<Op>)
    ensures Legal(Start([]), ops) && (1, 2) in Violations(Run(Start([]), ops))
  {
    var open := CreateDto("t", None, None, None, BUG, 1, None, None);
    var done := open.(status := Some(DONE));
    var s0 := Start([]);
    RunSnoc(s0, [], ProjectOp(1, CreateProject, 1));
    ops := [] + [ProjectOp(1, CreateProject, 1)];
    CreateUnassigned(Run(s0, ops), done);
    RunSnoc(s0, ops, CreateTicketOp(done, 1, None));
    ops := ops + [CreateTicketOp(done, 1, None)];
    CreateUnassigned(Run(s0, ops), open);
    RunSnoc(s0, ops, CreateTicketOp(open, 1, None));
    ops := ops + [CreateTicketOp(open, 1, None)];
    BlockDone(Run(s0, ops));
    RunSnoc(s0, ops, AddDependencyOp(1, 2, 1));
    ops := ops + [AddDependencyOp(1, 2, 1)];
  }
}
