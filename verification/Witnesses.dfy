/** Concrete runs for everything the program, taken as a whole, does not promise. */
module Witnesses {
  import opened Schema
  import opened Graph
  import opened TicketTable
  import opened Diffing
  import opened Operations
  import opened EscalationLaws
  import opened System
  import RB = ResolvedBlockers
  import I = Interleaving
  import G = InterleavedGates

  // ----- interleavings -----

  function NewTicket(priority: Priority, dueDate: Option<int>): CreateDto {
    CreateDto("a", None, None, Some(priority), BUG, 1, None, dueDate)
  }

  /** One ticket with id 1, created and shown. */
  lemma OneTicket(dto: CreateDto) returns (es: seq<I.Event>)
    ensures I.HonestRun(I.EMPTY, es)
    ensures I.Run(I.EMPTY, es) == I.Next(I.EMPTY, I.Create(dto))
  {
    I.RunSnoc(I.EMPTY, [], I.Create(dto));
    es := [] + [I.Create(dto)];
  }

  /** As m, with one more call, at the given phase. */
  ghost predicate WithCall(m: I.Machine, n: I.Machine, call: int, id: int, p: Patch, version: int, phase: I.Phase) {
    n == m.(requests := m.requests[call := I.Request(id, p, version, 1, phase)])
  }

  /** A client sends a patch. */
  lemma Send(es: seq<I.Event>, call: int, id: int, p: Patch, version: int) returns (more: seq<I.Event>)
    requires call !in I.Run(I.EMPTY, es).requests && p != EMPTY_PATCH
    ensures WithCall(I.Run(I.EMPTY, es), I.Run(I.EMPTY, more), call, id, p, version, I.Submitted)
    ensures I.HonestRun(I.EMPTY, es) && (exists f :: (id, version, f) in I.Run(I.EMPTY, es).seen)
        ==> I.HonestRun(I.EMPTY, more)
  {
    var e := I.Submit(call, id, p, version, 1);
    I.RunSnoc(I.EMPTY, es, e);
    more := es + [e];
  }

  /** The new call moves on. */
  lemma Move(m: I.Machine, es: seq<I.Event>, call: int, id: int, p: Patch, version: int, phase: I.Phase, next: I.Phase)
    returns (more: seq<I.Event>)
    requires WithCall(m, I.Run(I.EMPTY, es), call, id, p, version, phase)
    requires I.Advance(I.Run(I.EMPTY, es), call) == I.Resume(I.Run(I.EMPTY, es), call, next)
    ensures WithCall(m, I.Run(I.EMPTY, more), call, id, p, version, next)
    ensures I.HonestRun(I.EMPTY, es) ==> I.HonestRun(I.EMPTY, more)
  {
    I.RunSnoc(I.EMPTY, es, I.Proceed(call));
    more := es + [I.Proceed(call)];
  }

  /** The checks of an update without assignee. */
  ghost predicate Passes(m: I.Machine, id: int, p: Patch) {
    && Active(m.tickets, id) && ReadError(m.tickets[id], p).None? && p.assignee.None?
    && (p.status == Some(DONE) ==> Unresolved(m.tickets, m.deps, id) == {})
  }

  /** The read of a call that passes all its checks. */
  lemma Reads(m: I.Machine, n: I.Machine, call: int, id: int, p: Patch, version: int)
    requires WithCall(m, n, call, id, p, version, I.Submitted) && Passes(m, id, p)
    ensures I.Advance(n, call)
         == I.Resume(n, call, if p.status == Some(DONE) then I.AwaitBlockers(m.tickets[id])
                              else I.AwaitWrite(m.tickets[id]))
  {
  }

  lemma PassesGate(m: I.Machine, n: I.Machine, call: int, id: int, p: Patch, version: int, before: Ticket)
    requires WithCall(m, n, call, id, p, version, I.AwaitBlockers(before))
    requires p.assignee.None? && Unresolved(m.tickets, m.deps, id) == {}
    ensures I.Advance(n, call) == I.Resume(n, call, I.AwaitWrite(before))
  {
  }

  /** A client sends a patch, and the call runs up to its UPDATE. */
  lemma ToWrite(es: seq<I.Event>, call: int, id: int, p: Patch, version: int) returns (more: seq<I.Event>)
    requires call !in I.Run(I.EMPTY, es).requests && p != EMPTY_PATCH && Passes(I.Run(I.EMPTY, es), id, p)
    ensures var m := I.Run(I.EMPTY, es);
            WithCall(m, I.Run(I.EMPTY, more), call, id, p, version, I.AwaitWrite(m.tickets[id]))
    ensures I.HonestRun(I.EMPTY, es) && (exists f :: (id, version, f) in I.Run(I.EMPTY, es).seen)
        ==> I.HonestRun(I.EMPTY, more)
  {
    var m := I.Run(I.EMPTY, es);
    var gate, write := I.AwaitBlockers(m.tickets[id]), I.AwaitWrite(m.tickets[id]);
    more := Send(es, call, id, p, version);
    Reads(m, I.Run(I.EMPTY, more), call, id, p, version);
    if p.status == Some(DONE) {
      more := Move(m, more, call, id, p, version, I.Submitted, gate);
      PassesGate(m, I.Run(I.EMPTY, more), call, id, p, version, m.tickets[id]);
      more := Move(m, more, call, id, p, version, gate, write);
    } else {
      more := Move(m, more, call, id, p, version, I.Submitted, write);
    }
  }

  /** The call writes. */
  lemma Commit(es: seq<I.Event>, call: int) returns (more: seq<I.Event>)
    requires var m := I.Run(I.EMPTY, es);
             call in m.requests && m.requests[call].phase.AwaitWrite? && I.CommittedRow(m, m.requests[call]).Some?
    ensures I.Run(I.EMPTY, more) == I.Committed(I.Run(I.EMPTY, es), call)
    ensures I.HonestRun(I.EMPTY, es) ==> I.HonestRun(I.EMPTY, more)
  {
    I.RunSnoc(I.EMPTY, es, I.Proceed(call));
    more := es + [I.Proceed(call)];
  }

  /** As m, but for the written row, the record, and the call that wrote. */
  ghost predicate Wrote(m: I.Machine, n: I.Machine, call: int, id: int, p: Patch) {
    && id in m.tickets && n.tickets == m.tickets[id := Patched(m.tickets[id], p, p.priority.Some?)]
    && n.deps == m.deps && n.cycles == m.cycles && n.seen == m.seen
    && n.requests.Keys == m.requests.Keys + {call}
    && forall c :: c in m.requests && c != call ==> n.requests[c] == m.requests[c]
  }

  /** A client's PATCH with the present version, up to and with its UPDATE. */
  lemma PatchNow(es: seq<I.Event>, call: int, id: int, p: Patch) returns (more: seq<I.Event>)
    requires call !in I.Run(I.EMPTY, es).requests && p != EMPTY_PATCH && Passes(I.Run(I.EMPTY, es), id, p)
    ensures Wrote(I.Run(I.EMPTY, es), I.Run(I.EMPTY, more), call, id, p)
    ensures I.HonestRun(I.EMPTY, es)
            && (exists f :: (id, I.Run(I.EMPTY, es).tickets[id].version, f) in I.Run(I.EMPTY, es).seen)
        ==> I.HonestRun(I.EMPTY, more)
  {
    more := ToWrite(es, call, id, p, I.Run(I.EMPTY, es).tickets[id].version);
    more := Commit(more, call);
  }

  const FINISH := EMPTY_PATCH.(status := Some(DONE))

  /** A guessed future version breaks the terminal state: a call that read version 1 and sent version 2
      rewrites the title after another client has moved the ticket to DONE. */
  lemma GuessedVersionChangesDone() returns (es: seq<I.Event>, e: I.Event)
    ensures var m := I.Run(I.EMPTY, es);
            && 1 in m.tickets && m.tickets[1].status == DONE && m.tickets[1].title == "a"
            && 1 in I.Next(m, e).tickets && I.Next(m, e).tickets[1].title == "b"
  {
    var retitle := EMPTY_PATCH.(title := Some("b"));
    es := OneTicket(NewTicket(LOW, None));
    var row := I.Run(I.EMPTY, es).tickets[1];
    es := ToWrite(es, 1, 1, retitle, 2);
    assert Unresolved(I.Run(I.EMPTY, es).tickets, I.Run(I.EMPTY, es).deps, 1) == {};
    es := PatchNow(es, 2, 1, FINISH);
    e := I.Proceed(1);
    Retitles(I.Run(I.EMPTY, es), I.Request(1, retitle, 2, 1, I.AwaitWrite(row)));
  }

  /** The UPDATE of call 1, which retitles ticket 1. */
  lemma Retitles(m: I.Machine, q: I.Request)
    requires Active(m.tickets, 1) && 1 in m.requests && m.requests[1] == q && q.phase.AwaitWrite?
    requires q.id == 1 && q.version == m.tickets[1].version && q.patch == EMPTY_PATCH.(title := Some("b"))
    ensures 1 in I.Next(m, I.Proceed(1)).tickets && I.Next(m, I.Proceed(1)).tickets[1].title == "b"
  {
  }

  /** A PATCH between scan and write loses its priority: a LOW ticket is scanned, a client makes it CRITICAL,
      and the cycle sets it to MEDIUM. */
  lemma EscalationCanLower() returns (es: seq<I.Event>)
    ensures I.HonestRun(I.EMPTY, es)
    ensures var m := I.Run(I.EMPTY, es);
            && 1 in m.tickets && m.tickets[1].priority == CRITICAL
            && 1 in I.Next(m, I.EscalateNext(1)).tickets && I.Next(m, I.EscalateNext(1)).tickets[1].priority == MEDIUM
  {
    es := ScannedTicket(NewTicket(LOW, Some(0)));
    es := PatchNow(es, 1, 1, EMPTY_PATCH.(priority := Some(CRITICAL)));
    CycleWrites(I.Run(I.EMPTY, es), NewRow(NewTicket(LOW, Some(0))), Promote(MEDIUM));
  }

  /** Cycle 1 applies what it decided on its scanned row to the open ticket 1. */
  lemma CycleWrites(m: I.Machine, scanned: Ticket, change: Escalation)
    requires 1 in m.cycles && m.cycles[1] == I.Cycle(0, [(1, scanned)], None)
    requires Open(m.tickets, 1) && Decision(scanned) == Some(change)
    ensures I.Next(m, I.EscalateNext(1)).tickets == m.tickets[1 := EscalatedRow(m.tickets[1], change)]
  {
    assert I.CycleWrite(m, m.cycles[1]) == Some(I.EscalationWrite(1, m.tickets[1].version, change));
  }

  /** A flag on a ticket that is not CRITICAL: a CRITICAL ticket is scanned, a client makes it LOW, and the
      cycle flags it. */
  lemma FlagCanMissCritical() returns (es: seq<I.Event>)
    ensures I.HonestRun(I.EMPTY, es) && OverdueIsCritical(I.Run(I.EMPTY, es).tickets)
    ensures !OverdueIsCritical(I.Next(I.Run(I.EMPTY, es), I.EscalateNext(1)).tickets)
  {
    es := ScannedTicket(NewTicket(CRITICAL, Some(0)));
    es := PatchNow(es, 1, 1, EMPTY_PATCH.(priority := Some(LOW)));
    CycleWrites(I.Run(I.EMPTY, es), NewRow(NewTicket(CRITICAL, Some(0))), MarkOverdue);
    var after := I.Next(I.Run(I.EMPTY, es), I.EscalateNext(1)).tickets;
    assert after[1].isOverdue && after[1].priority == LOW;
  }

  /** A flag on a ticket that is not past due: a CRITICAL ticket is scanned, a client postpones it, and the cycle
      flags it. */
  lemma FlagCanMissDueDate() returns (es: seq<I.Event>)
    ensures I.HonestRun(I.EMPTY, es) && FlagsPastDue(I.Run(I.EMPTY, es).tickets, 1)
    ensures !FlagsPastDue(I.Next(I.Run(I.EMPTY, es), I.EscalateNext(1)).tickets, 1)
  {
    es := ScannedTicket(NewTicket(CRITICAL, Some(0)));
    es := PatchNow(es, 1, 1, EMPTY_PATCH.(dueDate := Some(5)));
    CycleWrites(I.Run(I.EMPTY, es), NewRow(NewTicket(CRITICAL, Some(0))), MarkOverdue);
    var after := I.Next(I.Run(I.EMPTY, es), I.EscalateNext(1)).tickets;
    assert after[1].isOverdue && after[1].dueDate == Some(5);
  }

  /** One ticket that is overdue at clock 1, scanned by cycle 1. */
  lemma ScannedTicket(dto: CreateDto) returns (es: seq<I.Event>)
    requires dto.dueDate == Some(0) && dto.status.None?
    ensures I.HonestRun(I.EMPTY, es)
    ensures I.Run(I.EMPTY, es) == I.Next(I.Next(I.EMPTY, I.Create(dto)), I.Scan(1, 1))
    ensures I.Run(I.EMPTY, es).cycles == map[1 := I.Cycle(0, [(1, NewRow(dto))], None)]
  {
    es := OneTicket(dto);
    var m := I.Run(I.EMPTY, es);
    I.RunSnoc(I.EMPTY, es, I.Scan(1, 1));
    es := es + [I.Scan(1, 1)];
    assert OverdueRows(m.tickets, 1, 0) == [];
    assert OverdueRows(m.tickets, 1, 1) == [];
    assert OverdueRows(m.tickets, 1, 2) == [(1, NewRow(dto))];
  }

  /** Two open tickets and nothing else. */
  lemma TwoTickets(dto: CreateDto) returns (es: seq<I.Event>)
    requires dto.status.None?
    ensures I.HonestRun(I.EMPTY, es)
    ensures var m := I.Run(I.EMPTY, es);
            && m.tickets == map[1 := NewRow(dto), 2 := NewRow(dto)] && m.deps == {} && m.requests == map[]
            && (1, 1, I.FieldsOf(NewRow(dto))) in m.seen
  {
    es := OneTicket(dto);
    I.RunSnoc(I.EMPTY, es, I.Create(dto));
    es := es + [I.Create(dto)];
  }

  /** Ticket 2 now blocks ticket 1. */
  lemma Linked(es: seq<I.Event>) returns (more: seq<I.Event>)
    requires I.HonestRun(I.EMPTY, es) && I.Run(I.EMPTY, es).deps == {}
    requires 1 in I.Run(I.EMPTY, es).tickets && 2 in I.Run(I.EMPTY, es).tickets
    ensures I.HonestRun(I.EMPTY, more)
    ensures I.Run(I.EMPTY, more) == I.Run(I.EMPTY, es).(deps := {(1, 2)})
  {
    I.RunSnoc(I.EMPTY, es, I.Link(1, 2));
    more := es + [I.Link(1, 2)];
  }

  /** A dependency that lands between the DONE gate and the UPDATE leaves a DONE ticket with an open blocker. */
  lemma LateDependencySlipsThrough() returns (es: seq<I.Event>)
    ensures I.HonestRun(I.EMPTY, es) && G.Violations(I.Run(I.EMPTY, es)) == {}
    ensures (1, 2) in G.Violations(I.Next(I.Run(I.EMPTY, es), I.Proceed(1)))
  {
    es := TwoTickets(NewTicket(LOW, None));
    assert Unresolved(I.Run(I.EMPTY, es).tickets, I.Run(I.EMPTY, es).deps, 1) == {};
    es := ToWrite(es, 1, 1, FINISH, 1);
    es := Linked(es);
    var m := I.Run(I.EMPTY, es);
    Finishes(m, 1);
  }

  /** The UPDATE of a call that moves ticket 1 to DONE. */
  lemma Finishes(m: I.Machine, call: int)
    requires Active(m.tickets, 1) && call in m.requests && m.requests[call].phase.AwaitWrite?
    requires m.requests[call] == I.Request(1, FINISH, m.tickets[1].version, 1, m.requests[call].phase)
    ensures var n := I.Next(m, I.Proceed(call));
            && n.deps == m.deps && IsDone(n.tickets, 1)
            && n.tickets == m.tickets[1 := n.tickets[1]]
  {
  }

  /** Call 1 has read ticket 2 at version 1 and sent version 2 with a step to IN_PROGRESS. */
  predicate Guessing(m: I.Machine) {
    && 1 in m.requests && m.requests[1].id == 2 && m.requests[1].version == 2 && m.requests[1].phase.AwaitWrite?
    && m.requests[1].patch == EMPTY_PATCH.(status := Some(IN_PROGRESS))
  }

  /** Ticket 2 is DONE at version 2 meanwhile. */
  lemma GuessOnDone() returns (es: seq<I.Event>)
    ensures var m := I.Run(I.EMPTY, es);
            && m.tickets.Keys == {1, 2} && m.tickets[1] == NewRow(NewTicket(LOW, None)) && m.deps == {}
            && IsDone(m.tickets, 2) && !m.tickets[2].deleted && m.tickets[2].version == 2
            && Guessing(m) && 3 !in m.requests
  {
    es := TwoTickets(NewTicket(LOW, None));
    es := ToWrite(es, 1, 2, EMPTY_PATCH.(status := Some(IN_PROGRESS)), 2);
    assert Unresolved(I.Run(I.EMPTY, es).tickets, I.Run(I.EMPTY, es).deps, 2) == {};
    es := PatchNow(es, 2, 2, FINISH);
  }

  /** Ticket 2 blocks ticket 1, and both are DONE. */
  lemma GuessOnBlocker() returns (es: seq<I.Event>)
    ensures var m := I.Run(I.EMPTY, es);
            && IsDone(m.tickets, 1) && IsDone(m.tickets, 2) && m.deps == {(1, 2)} && m.tickets.Keys == {1, 2}
            && !m.tickets[2].deleted && m.tickets[2].version == 2 && Guessing(m)
  {
    es := GuessOnDone();
    assert Unresolved(I.Run(I.EMPTY, es).tickets, I.Run(I.EMPTY, es).deps, 1) == {};
    es := PatchNow(es, 3, 1, FINISH);
    I.RunSnoc(I.EMPTY, es, I.Link(1, 2));
    es := es + [I.Link(1, 2)];
  }

  /** A guessed version moves the DONE blocker of a DONE ticket back. */
  lemma GuessedVersionReopensBlocker() returns (es: seq<I.Event>)
    ensures G.Violations(I.Run(I.EMPTY, es)) == {}
    ensures (1, 2) in G.Violations(I.Next(I.Run(I.EMPTY, es), I.Proceed(1)))
  {
    es := GuessOnBlocker();
    var m := I.Run(I.EMPTY, es);
    var after := I.Next(m, I.Proceed(1));
    assert after.deps == m.deps && after.tickets[1] == m.tickets[1] && after.tickets[2].status == IN_PROGRESS;
  }

  // ----- serial runs -----

  /** Project 1 with a first ticket, made from the empty database. */
  lemma FirstTicket(dto: CreateDto) returns (ops: seq<Op>)
    requires dto.project == 1 && dto.assignee.None?
    ensures Legal(Start([]), ops)
    ensures var s := Run(Start([]), ops);
            && s.tickets == map[1 := NewRow(dto)] && s.nextTicket == 2 && s.deps == {} && s.users == map[]
            && s.projects == {1} && s.outages == [] && s.nextUser == 1 && s.comments == map[] && s.nextComment == 1
  {
    RB.RunSnoc(Start([]), [], ProjectOp(1, CreateProject, 1));
    ops := [] + [ProjectOp(1, CreateProject, 1)];
    RB.CreateUnassigned(Run(Start([]), ops), dto);
    RB.RunSnoc(Start([]), ops, CreateTicketOp(dto, 1, None));
    ops := ops + [CreateTicketOp(dto, 1, None)];
  }

  /** Two fresh tickets: each may be made to block the other, but not both. Checked before either insert,
      both adds pass, and their inserts close a cycle. */
  lemma AddsCanCloseCycle() returns (ops: seq<Op>)
    ensures Legal(Start([]), ops)
    ensures var s := Run(Start([]), ops);
            && DependencyError(s, 1, 2).None? && DependencyError(s, 2, 1).None?
            && !Acyclic(s.deps + {(1, 2)} + {(2, 1)})
  {
    var dto := NewTicket(LOW, None);
    ops := FirstTicket(dto);
    RB.CreateUnassigned(Run(Start([]), ops), dto);
    RB.RunSnoc(Start([]), ops, CreateTicketOp(dto, 1, None));
    ops := ops + [CreateTicketOp(dto, 1, None)];
    var s := Run(Start([]), ops);
    NoPath(s.deps, 2, 1);
    NoPath(s.deps, 1, 2);
    var both := s.deps + {(1, 2)} + {(2, 1)};
    ReachEdge(both, 2, 1);
    EdgeClosesCycle(both, 1, 2);
  }

  /** Three adds that are harmless in pairs: each of them closes no cycle with any other, but all three do. */
  lemma ThreeAddsCloseCycle() returns (ops: seq<Op>)
    ensures Legal(Start([]), ops)
    ensures var s := Run(Start([]), ops);
            && DependencyError(s, 1, 2).None? && DependencyError(s, 2, 3).None? && DependencyError(s, 3, 1).None?
            && Acyclic(s.deps + {(1, 2)} + {(2, 3)}) && Acyclic(s.deps + {(2, 3)} + {(3, 1)})
            && Acyclic(s.deps + {(3, 1)} + {(1, 2)}) && !Acyclic(s.deps + {(1, 2)} + {(2, 3)} + {(3, 1)})
  {
    var dto := NewTicket(LOW, None);
    ops := FirstTicket(dto);
    RB.CreateUnassigned(Run(Start([]), ops), dto);
    RB.RunSnoc(Start([]), ops, CreateTicketOp(dto, 1, None));
    ops := ops + [CreateTicketOp(dto, 1, None)];
    RB.CreateUnassigned(Run(Start([]), ops), dto);
    RB.RunSnoc(Start([]), ops, CreateTicketOp(dto, 1, None));
    ops := ops + [CreateTicketOp(dto, 1, None)];
    var s := Run(Start([]), ops);
    NoPath(s.deps, 2, 1);
    NoPath(s.deps, 3, 2);
    NoPath(s.deps, 1, 3);
    TwoEdges(s.deps, 1, 2, 3);
    TwoEdges(s.deps, 2, 3, 1);
    TwoEdges(s.deps, 3, 1, 2);
    var all := s.deps + {(1, 2)} + {(2, 3)} + {(3, 1)};
    ReachEdge(all, 1, 2);
    ReachEdge(all, 2, 3);
    ReachTrans(all, 1, 2, 3);
    EdgeClosesCycle(all, 3, 1);
  }

  /** From no edges, a chain of two is no cycle. */
  lemma TwoEdges(edges: Edges, a: int, b: int, c: int)
    requires edges == {} && a != b && b != c && a != c
    ensures Acyclic(edges + {(a, b)} + {(b, c)})
  {
    AcyclicByEdges(edges);
    NoPath(edges, b, a);
    AddEdgeAcyclic(edges, a, b);
    if Reach(edges + {(a, b)}, c, b) {
      var m := ReachSplit(edges + {(a, b)}, c, b);
    }
    AddEdgeAcyclic(edges + {(a, b)}, b, c);
  }

  lemma NoPath(edges: Edges, a: int, b: int)
    requires edges == {} && a != b
    ensures !Reach(edges, a, b)
  {
    if Reach(edges, a, b) {
      var m := ReachSplit(edges, a, b);
    }
  }

  /** A CRITICAL ticket that a cycle at clock 1 has flagged. */
  lemma FlaggedTicket(dto: CreateDto) returns (ops: seq<Op>)
    requires dto == NewTicket(CRITICAL, Some(0))
    ensures Legal(Start([]), ops)
    ensures var s := Run(Start([]), ops);
            s.tickets == map[1 := NewRow(dto).(isOverdue := true, version := 2)]
  {
    ops := FirstTicket(dto);
    EscalateWhole(Run(Start([]), ops), 1);
    RB.RunSnoc(Start([]), ops, EscalateOp(1));
    ops := ops + [EscalateOp(1)];
  }

  /** A flag survives the postponement of its ticket. */
  lemma FlagCanOutliveDueDate() returns (ops: seq<Op>)
    ensures Legal(Start([]), ops)
    ensures !FlagsPastDue(Run(Start([]), ops).tickets, 1)
  {
    ops := FlaggedTicket(NewTicket(CRITICAL, Some(0)));
    var later := UpdateDto(EMPTY_PATCH.(dueDate := Some(5)), Some(2));
    RB.RunSnoc(Start([]), ops, PatchOp(1, later, 1));
    ops := ops + [PatchOp(1, later, 1)];
    var t := Run(Start([]), ops).tickets[1];
    assert t.isOverdue && t.dueDate == Some(5);
  }

  /** A PATCH of the title alone logs a due date that did not change. */
  lemma UnchangedDateIsLogged() returns (ops: seq<Op>)
    ensures Legal(Start([]), ops)
    ensures var log := Run(Start([]), ops).log;
            && log != [] && log[|log| - 1].meta.Diff? && FDueDate in log[|log| - 1].meta.changes
            && var c := log[|log| - 1].meta.changes[FDueDate]; c.from == c.to
  {
    var dto := NewTicket(LOW, Some(0));
    ops := FirstTicket(dto);
    var s := Run(Start([]), ops);
    var retitle := UpdateDto(EMPTY_PATCH.(title := Some("b")), Some(1));
    RB.RunSnoc(Start([]), ops, PatchOp(1, retitle, 1));
    ops := ops + [PatchOp(1, retitle, 1)];
    assert TICKET_FIELDS[5] == FDueDate;
  }

  /** A ticket and a user who can comment on it. */
  lemma TicketAndUser() returns (ops: seq<Op>)
    ensures Legal(Start([]), ops)
    ensures var s := Run(Start([]), ops);
            Active(s.tickets, 1) && 1 in s.users && s.comments == map[] && s.nextComment == 1
  {
    ops := FirstTicket(NewTicket(LOW, None));
    var user := CreateUserOp(User("ann", "Ann", ADMIN, 0), None);
    RB.RunSnoc(Start([]), ops, user);
    ops := ops + [user];
  }

  /** A create whose read-back fails answers an error, and yet the comment and its CREATE entry are there. */
  lemma FailedCreateCanCommit() returns (ops: seq<Op>, op: Op)
    ensures Legal(Start([]), ops + [op]) && op.CreateCommentOp?
    ensures var s := Run(Start([]), ops);
            && CreateComment(s, op.ticket, op.author, op.content, op.now, op.who, op.failAt).1 == Err(Internal)
            && 1 !in s.comments && 1 in Run(Start([]), ops + [op]).comments
            && |Run(Start([]), ops + [op]).log| == |s.log| + 1
  {
    ops := TicketAndUser();
    var s := Run(Start([]), ops);
    op := CreateCommentOp(1, 1, "x", 0, 1, Some(CreateCommit(s.users, "x")));
    RB.RunSnoc(Start([]), ops, op);
  }

  /** The same for an edit: an error, and yet the new text is there, at the next version. */
  lemma FailedEditCanCommit() returns (ops: seq<Op>, op: Op)
    ensures Legal(Start([]), ops + [op]) && op.EditCommentOp?
    ensures var s, after := Run(Start([]), ops), Run(Start([]), ops + [op]);
            && EditComment(s, op.ticket, op.id, op.content, op.version, op.who, op.failAt).1 == Err(Internal)
            && 1 in s.comments && s.comments[1].content == "x" && s.comments[1].version == 1
            && 1 in after.comments && after.comments[1].content == "y" && after.comments[1].version == 2
  {
    ops := TicketAndUser();
    var create := CreateCommentOp(1, 1, "x", 0, 1, None);
    RB.RunSnoc(Start([]), ops, create);
    ops := ops + [create];
    op := EditCommentOp(1, 1, "y", Some(1), 1, Some(EditCommit(Run(Start([]), ops).users, "y", false)));
    RB.RunSnoc(Start([]), ops, op);
  }
}
