/** What the DONE gate, the cycle check and the overdue flag still promise when requests and cycles interleave,
    whatever versions clients send: exactly which steps leave a DONE ticket with an open blocker, close a cycle
    of blockers, or leave a flag on a ticket that is not CRITICAL or not past due. */
module InterleavedGates {
  import opened Schema
  import opened Graph
  import opened TicketTable
  import opened Interleaving
  import opened VersionHistory

  /** The edges from a DONE ticket to an active blocker that is not DONE. */
  ghost function Violations(m: Machine): Edges {
    set e | e in m.deps && IsDone(m.tickets, e.0) && Open(m.tickets, e.1)
  }

  /** Some DONE ticket waits for this one. */
  ghost predicate BlocksDone(m: Machine, id: int) {
    exists d :: d in m.deps && d.1 == id && IsDone(m.tickets, d.0)
  }

  /** The UPDATE moves its ticket to DONE past an open blocker that its gate did not see, or moves a blocker of
      a DONE ticket, itself DONE, back. */
  ghost predicate SlipsThrough(m: Machine, call: int) {
    call in m.requests && m.requests[call].phase.AwaitWrite? && CommittedRow(m, m.requests[call]).Some? &&
    var id, row := m.requests[call].id, CommittedRow(m, m.requests[call]).value;
    if m.tickets[id].status != DONE then row.status == DONE && Unresolved(m.tickets, m.deps, id) != {}
    else row.status != DONE && BlocksDone(m, id)
  }

  /** A DONE ticket gains an open blocker: through a new edge, a restored blocker, or such an UPDATE. */
  ghost predicate Revives(m: Machine, e: Event) {
    match e
    case Link(t, b) => t in m.tickets && IsDone(m.tickets, t) && Open(m.tickets, b) && (t, b) !in m.deps
    case Undelete(id) => id in m.tickets && m.tickets[id].deleted && m.tickets[id].status != DONE && BlocksDone(m, id)
    case Proceed(call) => SlipsThrough(m, call)
    case _ => false
  }

  lemma FewerViolations(m: Machine, after: Machine)
    requires EdgesInv(m) && after.deps <= m.deps
    requires forall id :: id in m.tickets && IsDone(after.tickets, id) ==> IsDone(m.tickets, id)
    requires forall id :: id in m.tickets && Open(after.tickets, id) ==> Open(m.tickets, id)
    ensures Violations(after) <= Violations(m)
  {
  }

  /** A row is written, and nothing else changes that matters to blockers. */
  ghost predicate RowWritten(m: Machine, after: Machine, id: int, row: Ticket) {
    && id in m.tickets && after.deps == m.deps
    && after.tickets == m.tickets[id := row] && row.deleted == m.tickets[id].deleted
  }

  /** A move to DONE leaves a violation exactly when a blocker is unresolved at the write. */
  lemma DoneCommitExact(m: Machine, after: Machine, id: int, row: Ticket)
    requires EdgesInv(m) && RowWritten(m, after, id, row) && m.tickets[id].status != DONE && row.status == DONE
    ensures Violations(after) <= Violations(m) <==> Unresolved(m.tickets, m.deps, id) == {}
  {
    if b :| b in Unresolved(m.tickets, m.deps, id) {
      assert (id, b) in m.deps && b != id;
      assert (id, b) in Violations(after) && (id, b) !in Violations(m);
    } else {
      assert forall d :: d in m.deps && d.0 == id && Open(m.tickets, d.1) ==> d.1 in Unresolved(m.tickets, m.deps, id);
    }
  }

  /** Moving a DONE, active ticket back leaves a violation exactly when a DONE ticket waits for it. */
  lemma ReopenExact(m: Machine, after: Machine, id: int, row: Ticket)
    requires EdgesInv(m) && RowWritten(m, after, id, row) && Active(m.tickets, id)
    requires m.tickets[id].status == DONE && row.status != DONE
    ensures Violations(after) <= Violations(m) <==> !BlocksDone(m, id)
  {
    if BlocksDone(m, id) {
      var d :| d in m.deps && d.1 == id && IsDone(m.tickets, d.0);
      assert d in Violations(after) && d !in Violations(m);
    } else {
      forall d | d in Violations(after)
        ensures d in Violations(m)
      {
        if d.1 == id {
          assert d.0 != id && IsDone(m.tickets, d.0);
        }
      }
    }
  }

  /** A write that leaves the status DONE, or leaves it not DONE. */
  lemma OtherCommit(m: Machine, after: Machine, id: int, row: Ticket)
    requires EdgesInv(m) && RowWritten(m, after, id, row)
    requires row.status == DONE <==> m.tickets[id].status == DONE
    ensures Violations(after) <= Violations(m)
  {
    FewerViolations(m, after);
  }

  lemma CommitExact(m: Machine, call: int)
    requires EdgesInv(m) && call in m.requests && m.requests[call].phase.AwaitWrite?
    requires CommittedRow(m, m.requests[call]).Some?
    ensures Violations(Advance(m, call)) <= Violations(m) <==> !SlipsThrough(m, call)
  {
    var id, row, after := m.requests[call].id, CommittedRow(m, m.requests[call]).value, Advance(m, call);
    assert RowWritten(m, after, id, row);
    if (m.tickets[id].status == DONE) == (row.status == DONE) {
      OtherCommit(m, after, id, row);
    } else if row.status == DONE {
      DoneCommitExact(m, after, id, row);
    } else {
      ReopenExact(m, after, id, row);
    }
  }

  lemma AdvanceExact(m: Machine, call: int)
    requires EdgesInv(m) && call in m.requests
    ensures Violations(Advance(m, call)) <= Violations(m) <==> !SlipsThrough(m, call)
  {
    var q := m.requests[call];
    if q.phase.AwaitWrite? && CommittedRow(m, q).Some? {
      CommitExact(m, call);
    } else {
      assert Advance(m, call).tickets == m.tickets && Advance(m, call).deps == m.deps;
    }
  }

  lemma LinkExact(m: Machine, t: int, b: int)
    requires EdgesInv(m)
    ensures Violations(Next(m, Link(t, b))) <= Violations(m) <==> !Revives(m, Link(t, b))
  {
    if Revives(m, Link(t, b)) {
      assert (t, b) in Violations(Next(m, Link(t, b))) && (t, b) !in Violations(m);
    }
  }

  lemma UndeleteExact(m: Machine, id: int)
    requires EdgesInv(m)
    ensures Violations(Next(m, Undelete(id))) <= Violations(m) <==> !Revives(m, Undelete(id))
  {
    var after := Next(m, Undelete(id));
    if Revives(m, Undelete(id)) {
      var d :| d in m.deps && d.1 == id && IsDone(m.tickets, d.0);
      assert d in Violations(after) && d !in Violations(m);
    } else {
      forall d | d in Violations(after)
        ensures d in Violations(m)
      {
        if d.1 == id && after.tickets != m.tickets {
          assert IsDone(m.tickets, d.0);
        }
      }
    }
  }

  lemma EscalationShrinks(m: Machine, cycle: int)
    requires EdgesInv(m) && cycle in m.cycles
    ensures Violations(EscalateFirst(m, cycle)) <= Violations(m)
  {
    FewerViolations(m, EscalateFirst(m, cycle));
  }

  lemma OtherShrinks(m: Machine, e: Event)
    requires EdgesInv(m) && HistoryInv(m)
    requires e.Create? || e.Delete? || e.RemoveUser? || e.Unlink?
    ensures Violations(Next(m, e)) <= Violations(m)
  {
    FewerViolations(m, Next(m, e));
  }

  /** In every interleaving a step adds a violation exactly when its guard says so before the step. */
  lemma NextExact(m: Machine, e: Event)
    requires TablesInv(m)
    ensures Violations(Next(m, e)) <= Violations(m) <==> !Revives(m, e)
  {
    match e
    case Proceed(call) =>
      if call in m.requests {
        AdvanceExact(m, call);
      }
    case Link(t, b) => LinkExact(m, t, b);
    case Undelete(id) => UndeleteExact(m, id);
    case EscalateNext(cycle) =>
      if cycle in m.cycles {
        EscalationShrinks(m, cycle);
      }
    case Create(_) => OtherShrinks(m, e);
    case Delete(_) => OtherShrinks(m, e);
    case RemoveUser(_) => OtherShrinks(m, e);
    case Unlink(_, _) => OtherShrinks(m, e);
    case Respond(_) =>
    case Submit(_, _, _, _, _) =>
    case Scan(_, _) =>
    case AddUser(_) =>
  }

  /** Some step of the run revives a blocker of a DONE ticket. */
  ghost predicate RevivesSomewhere(es: seq<Event>) {
    es != [] && (RevivesSomewhere(es[..|es| - 1]) || Revives(Run(EMPTY, es[..|es| - 1]), es[|es| - 1]))
  }

  /** DONE tickets have only resolved blockers after every step of the run. */
  ghost predicate AlwaysResolved(es: seq<Event>) {
    Violations(Run(EMPTY, es)) == {} && (es == [] || AlwaysResolved(es[..|es| - 1]))
  }

  /** "DONE tickets have only resolved blockers" holds throughout an interleaving exactly when no step adds an
      open blocker to a DONE ticket, restores one, moves a ticket to DONE that has gained one, or moves one
      back from DONE. */
  lemma {:induction false} ResolvedThroughout(es: seq<Event>)
    ensures AlwaysResolved(es) <==> !RevivesSomewhere(es)
  {
    if es != [] {
      var earlier := es[..|es| - 1];
      ResolvedThroughout(earlier);
      EmptyRecorded();
      RunRecorded(EMPTY, earlier);
      NextExact(Run(EMPTY, earlier), es[|es| - 1]);
      if AlwaysResolved(earlier) {
        assert Violations(Run(EMPTY, earlier)) == {};
      }
    }
  }

  // ----- cycles of blockers -----

  /** The insert of an add whose check was made before the edges that now lead from the blocker to the ticket. */
  ghost predicate Closes(m: Machine, e: Event) {
    e.Link? && e.t in m.tickets && e.b in m.tickets && e.t != e.b && Reach(m.deps, e.b, e.t)
  }

  /** A step closes a cycle exactly when it inserts an edge to a blocker that already reaches the ticket. */
  lemma NextAcyclic(m: Machine, e: Event)
    requires Acyclic(m.deps)
    ensures Acyclic(Next(m, e).deps) <==> !Closes(m, e)
  {
    if e.Link? && e.t in m.tickets && e.b in m.tickets && e.t != e.b {
      AddEdgeAcyclic(m.deps, e.t, e.b);
    } else if e.Unlink? {
      AcyclicSubset(Next(m, e).deps, m.deps);
    } else {
      EdgesStay(m, e);
    }
  }

  lemma EdgesStay(m: Machine, e: Event)
    requires !e.Unlink? && !(e.Link? && e.t in m.tickets && e.b in m.tickets && e.t != e.b)
    ensures Next(m, e).deps == m.deps
  {
    if e.Proceed? && e.call in m.requests {
      AdvanceKeepsEdges(m, e.call);
    } else if e.EscalateNext? && e.cycle in m.cycles {
      assert EscalateFirst(m, e.cycle).deps == m.deps;
    }
  }

  lemma AdvanceKeepsEdges(m: Machine, call: int)
    requires call in m.requests
    ensures Advance(m, call).deps == m.deps
  {
  }

  ghost predicate ClosesSomewhere(es: seq<Event>) {
    es != [] && (ClosesSomewhere(es[..|es| - 1]) || Closes(Run(EMPTY, es[..|es| - 1]), es[|es| - 1]))
  }

  /** The relation is free of cycles after every step of the run. */
  ghost predicate AlwaysAcyclic(es: seq<Event>) {
    Acyclic(Run(EMPTY, es).deps) && (es == [] || AlwaysAcyclic(es[..|es| - 1]))
  }

  /** Over any interleaving, and any number of adds on their way, the relation stays free of cycles exactly when
      no insert comes after its blocker has come to reach its ticket. */
  lemma {:induction false} AcyclicThroughout(es: seq<Event>)
    ensures AlwaysAcyclic(es) <==> !ClosesSomewhere(es)
  {
    if es == [] {
      AcyclicByEdges(EMPTY.deps);
    } else {
      AcyclicThroughout(es[..|es| - 1]);
      if AlwaysAcyclic(es[..|es| - 1]) {
        NextAcyclic(Run(EMPTY, es[..|es| - 1]), es[|es| - 1]);
      }
    }
  }

  // ----- overdue flags on CRITICAL tickets -----

  /** The next write of the cycle was decided on a row that has changed since: it flags a ticket that is no
      longer CRITICAL, or moves a ticket that has been flagged since to a level below CRITICAL. */
  predicate Misplaces(m: Machine, cycle: int) {
    cycle in m.cycles &&
    var c := m.cycles[cycle];
    c.pending.None? && c.rows != [] && CycleWrite(m, c).Some? &&
    var w := CycleWrite(m, c).value;
    match w.change
    case MarkOverdue => m.tickets[w.id].priority != CRITICAL
    case Promote(p) => p != CRITICAL && m.tickets[w.id].isOverdue
  }

  lemma EscalationFlags(m: Machine, cycle: int)
    requires OverdueIsCritical(m.tickets) && cycle in m.cycles
    ensures OverdueIsCritical(EscalateFirst(m, cycle).tickets) <==> !Misplaces(m, cycle)
  {
    var c, after := m.cycles[cycle], EscalateFirst(m, cycle).tickets;
    if c.pending.None? && c.rows != [] && CycleWrite(m, c).Some? {
      var w := CycleWrite(m, c).value;
      assert after == m.tickets[w.id := EscalatedRow(m.tickets[w.id], w.change)];
      if Misplaces(m, cycle) {
        assert after[w.id].isOverdue && after[w.id].priority != CRITICAL;
      }
    }
  }

  lemma AdvanceFlags(m: Machine, call: int)
    requires OverdueIsCritical(m.tickets) && call in m.requests
    ensures OverdueIsCritical(Advance(m, call).tickets)
  {
    var q := m.requests[call];
    if q.phase.AwaitWrite? && CommittedRow(m, q).Some? {
      assert Advance(m, call).tickets == m.tickets[q.id := CommittedRow(m, q).value];
    } else {
      assert Advance(m, call).tickets == m.tickets;
    }
  }

  /** "Flagged implies CRITICAL" survives a step of any interleaving exactly when the step is not a write of
      a cycle on such a row. */
  lemma NextFlags(m: Machine, e: Event)
    requires OverdueIsCritical(m.tickets)
    ensures OverdueIsCritical(Next(m, e).tickets) <==> !(e.EscalateNext? && Misplaces(m, e.cycle))
  {
    match e
    case Proceed(call) =>
      if call in m.requests {
        AdvanceFlags(m, call);
      }
    case EscalateNext(cycle) =>
      if cycle in m.cycles {
        EscalationFlags(m, cycle);
      }
    case Create(_) =>
    case Delete(_) =>
    case Undelete(_) =>
    case RemoveUser(_) =>
    case Link(_, _) =>
    case Unlink(_, _) =>
    case Respond(_) =>
    case Submit(_, _, _, _, _) =>
    case Scan(_, _) =>
    case AddUser(_) =>
  }

  ghost predicate MisplacesSomewhere(es: seq<Event>) {
    es != [] &&
    var e := es[|es| - 1];
    MisplacesSomewhere(es[..|es| - 1]) || (e.EscalateNext? && Misplaces(Run(EMPTY, es[..|es| - 1]), e.cycle))
  }

  /** Flags sit on CRITICAL tickets only, after every step of the run. */
  ghost predicate AlwaysCritical(es: seq<Event>) {
    OverdueIsCritical(Run(EMPTY, es).tickets) && (es == [] || AlwaysCritical(es[..|es| - 1]))
  }

  /** Over any interleaving, flags only sit on CRITICAL tickets exactly when no cycle ever writes on a row that
      has changed so since its scan. */
  lemma {:induction false} FlagsStayCritical(es: seq<Event>)
    ensures AlwaysCritical(es) <==> !MisplacesSomewhere(es)
  {
    if es != [] {
      FlagsStayCritical(es[..|es| - 1]);
      if AlwaysCritical(es[..|es| - 1]) {
        NextFlags(Run(EMPTY, es[..|es| - 1]), es[|es| - 1]);
      }
    }
  }

  // ----- overdue flags and due dates -----

  /** The call's UPDATE moves the due date of a flagged ticket to now or later, and leaves its priority alone. */
  predicate Postpones(m: Machine, call: int, now: int) {
    call in m.requests && m.requests[call].phase.AwaitWrite? && CommittedRow(m, m.requests[call]).Some? &&
    var q := m.requests[call];
    m.tickets[q.id].isOverdue && q.patch.priority.None? && q.patch.dueDate.Some? && q.patch.dueDate.value >= now
  }

  /** The cycle flags a ticket that is not, or no longer, past due. */
  predicate FlagsEarly(m: Machine, cycle: int, now: int) {
    cycle in m.cycles &&
    var c := m.cycles[cycle];
    c.pending.None? && c.rows != [] && CycleWrite(m, c).Some? &&
    var w := CycleWrite(m, c).value;
    w.change.MarkOverdue? && !PastDue(m.tickets[w.id], now)
  }

  ghost predicate Unflags(m: Machine, e: Event, now: int) {
    (e.Proceed? && Postpones(m, e.call, now)) || (e.EscalateNext? && FlagsEarly(m, e.cycle, now))
  }

  lemma AdvancePastDue(m: Machine, call: int, now: int)
    requires FlagsPastDue(m.tickets, now) && call in m.requests
    ensures FlagsPastDue(Advance(m, call).tickets, now) <==> !Postpones(m, call, now)
  {
    var q, after := m.requests[call], Advance(m, call).tickets;
    if q.phase.AwaitWrite? && CommittedRow(m, q).Some? {
      var row := CommittedRow(m, q).value;
      assert after == m.tickets[q.id := row];
      assert row.isOverdue && !PastDue(row, now) <==> Postpones(m, call, now);
      if Postpones(m, call, now) {
        assert after[q.id] == row;
      }
    } else {
      assert after == m.tickets;
    }
  }

  lemma EscalationPastDue(m: Machine, cycle: int, now: int)
    requires FlagsPastDue(m.tickets, now) && cycle in m.cycles
    ensures FlagsPastDue(EscalateFirst(m, cycle).tickets, now) <==> !FlagsEarly(m, cycle, now)
  {
    var c, after := m.cycles[cycle], EscalateFirst(m, cycle).tickets;
    if c.pending.None? && c.rows != [] && CycleWrite(m, c).Some? {
      var w := CycleWrite(m, c).value;
      assert after == m.tickets[w.id := EscalatedRow(m.tickets[w.id], w.change)];
      if FlagsEarly(m, cycle, now) {
        assert after[w.id].isOverdue && !PastDue(after[w.id], now);
      }
    }
  }

  /** Creates, soft deletes, restores and user deletions. */
  lemma OtherPastDue(m: Machine, e: Event, now: int)
    requires FlagsPastDue(m.tickets, now) && (e.Create? || e.Delete? || e.Undelete? || e.RemoveUser?)
    ensures FlagsPastDue(Next(m, e).tickets, now)
  {
  }

  /** "Flagged implies past due", at any clock, survives a step of any interleaving exactly when the step is
      neither such an UPDATE nor such a write of a cycle. */
  lemma NextPastDue(m: Machine, e: Event, now: int)
    requires FlagsPastDue(m.tickets, now)
    ensures FlagsPastDue(Next(m, e).tickets, now) <==> !Unflags(m, e, now)
  {
    if e.Proceed? && e.call in m.requests {
      AdvancePastDue(m, e.call, now);
    } else if e.EscalateNext? && e.cycle in m.cycles {
      EscalationPastDue(m, e.cycle, now);
    } else if e.Create? || e.Delete? || e.Undelete? || e.RemoveUser? {
      OtherPastDue(m, e, now);
    } else {
      assert Next(m, e).tickets == m.tickets;
    }
  }

  ghost predicate UnflagsSomewhere(es: seq<Event>, now: int) {
    es != [] && (UnflagsSomewhere(es[..|es| - 1], now) || Unflags(Run(EMPTY, es[..|es| - 1]), es[|es| - 1], now))
  }

  /** Flags sit on tickets that are past due, after every step of the run. */
  ghost predicate AlwaysPastDue(es: seq<Event>, now: int) {
    FlagsPastDue(Run(EMPTY, es).tickets, now) && (es == [] || AlwaysPastDue(es[..|es| - 1], now))
  }

  /** Over any interleaving, flags sit on tickets past due exactly when no step postpones a flagged ticket, or
      flags one that is not past due. */
  lemma {:induction false} FlagsStayPastDue(es: seq<Event>, now: int)
    ensures AlwaysPastDue(es, now) <==> !UnflagsSomewhere(es, now)
  {
    if es != [] {
      FlagsStayPastDue(es[..|es| - 1], now);
      if AlwaysPastDue(es[..|es| - 1], now) {
        NextPastDue(Run(EMPTY, es[..|es| - 1]), es[|es| - 1], now);
      }
    }
  }
}
