/** The second grain: PATCH requests and escalation cycles split at their awaits, running against each
    other, creates, soft deletes, restores, dependency changes and user deletions in any order. */
module Interleaving {
  import opened Schema
  import opened Graph
  import opened TicketTable
  import Operations

  /** The columns a version number stands for. */
  datatype Fields = Fields(
    title: string, description: Option<string>, status: Status, priority: Priority, dueDate: Option<int>,
    isOverdue: bool)

  function FieldsOf(t: Ticket): Fields {
    Fields(t.title, t.description, t.status, t.priority, t.dueDate, t.isOverdue)
  }

  /** A patch applied to the columns a version stands for. */
  function PatchedFields(f: Fields, p: Patch): Fields {
    Fields(p.title.GetOr(f.title), if p.description.Some? then p.description else f.description,
           p.status.GetOr(f.status), p.priority.GetOr(f.priority),
           if p.dueDate.Some? then p.dueDate else f.dueDate, p.priority.None? && f.isOverdue)
  }

  function EscalatedFields(f: Fields, change: Escalation): Fields {
    match change
    case Promote(p) => f.(priority := p)
    case MarkOverdue => f.(isOverdue := true)
  }

  /** For each ticket the columns its versions 1, 2, ... stand for. */
  type History = map<int, seq<Fields>>

  function Versions(h: History, id: int): seq<Fields> {
    if id in h then h[id] else []
  }

  /** Version v of ticket id stood for these columns. */
  ghost predicate StoodFor(h: History, id: int, version: int, f: Fields) {
    1 <= version <= |Versions(h, id)| && Versions(h, id)[version - 1] == f
  }

  /** Where an update call is suspended: before is the row getOrThrow read, row the one the UPDATE returned. */
  datatype Phase =
    | Submitted
    | AwaitBlockers(before: Ticket)
    | AwaitAssignee(before: Ticket)
    | AwaitWrite(before: Ticket)
    | AwaitAudit(before: Ticket, row: Ticket)

  datatype Request = Request(id: int, patch: Patch, version: int, who: int, phase: Phase)

  /** A running escalation cycle: the number of field writes made before its scan, the scanned rows it
      still has to handle, and the audit entry of its last write when that is still to be inserted. */
  datatype Cycle = Cycle(since: nat, rows: seq<(int, Ticket)>, pending: Option<Entry>)

  datatype Write =
    | ClientWrite(id: int, from: int, patch: Patch)
    | EscalationWrite(id: int, from: int, change: Escalation)

  /** Tables, calls and cycles in flight, the audit entries of PATCH calls and cycles, what ended calls were
      answered, and the recorded past: what responses showed, what every version stood for, and all field
      writes. */
  datatype Machine = Machine(
    tickets: Tickets, nextTicket: nat, deps: Edges, users: set<int>, nextUser: nat,
    requests: map<int, Request>, cycles: map<int, Cycle>, log: seq<Entry>, answers: map<int, Result<Ticket>>,
    seen: set<(int, int, Fields)>, history: History, writes: seq<Write>)

  const EMPTY := Machine(map[], 1, {}, {}, 1, map[], map[], [], map[], {}, map[], [])

  datatype Event =
    | Create(dto: CreateDto)
    | Respond(id: int)
    | Submit(call: int, id: int, patch: Patch, version: int, who: int)
    | Proceed(call: int)
    | Scan(cycle: int, now: int)
    | EscalateNext(cycle: int)
    | Delete(id: int)
    | Undelete(id: int)
    | AddUser(user: int)
    | RemoveUser(user: int)
    | Link(t: int, b: int)
    | Unlink(t: int, b: int)

  /** A response shows a row. */
  function Showing(m: Machine, id: int, row: Ticket): Machine {
    m.(seen := m.seen + {(id, row.version, FieldsOf(row))})
  }

  /** A call ends with an answer. */
  function End(m: Machine, call: int, answer: Result<Ticket>): Machine {
    m.(requests := m.requests - {call}, answers := m.answers[call := answer])
  }

  function Resume(m: Machine, call: int, phase: Phase): Machine
    requires call in m.requests
  {
    m.(requests := m.requests[call := m.requests[call].(phase := phase)])
  }

  /** The tables and the record after a committed field write. */
  function Written(m: Machine, w: Write, row: Ticket): Machine {
    m.(tickets := m.tickets[w.id := row],
       history := m.history[w.id := Versions(m.history, w.id) + [FieldsOf(row)]],
       writes := m.writes + [w])
  }

  function AfterBlockers(q: Request, before: Ticket): Phase {
    if q.patch.assignee.Some? then AwaitAssignee(before) else AwaitWrite(before)
  }

  function WriteOf(q: Request): Write {
    ClientWrite(q.id, q.version, q.patch)
  }

  /** The row the guarded UPDATE of a call returns now, if it matches; a vanished assignee violates the
      foreign key. */
  function CommittedRow(m: Machine, q: Request): Option<Ticket> {
    if q.patch.assignee.Some? && q.patch.assignee.value !in m.users then None
    else UpdateWithVersionCheck(m.tickets, q.id, q.version, q.patch, q.patch.priority.Some?).1
  }

  /** Why the guarded UPDATE of a call wrote nothing: the row it matched violates a key, or it matched none. */
  function WriteError(m: Machine, q: Request): Error {
    if UpdateWithVersionCheck(m.tickets, q.id, q.version, q.patch, q.patch.priority.Some?).1.Some? then Internal
    else Conflict
  }

  /** Why the statement a call is about to make ends it, and with which answer. */
  function Refusal(m: Machine, q: Request): Option<Error> {
    match q.phase
    case Submitted => if !Active(m.tickets, q.id) then Some(NotFound) else ReadError(m.tickets[q.id], q.patch)
    case AwaitBlockers(_) => if Unresolved(m.tickets, m.deps, q.id) != {} then Some(Conflict) else None
    case AwaitAssignee(_) =>
      if q.patch.assignee.Some? && q.patch.assignee.value !in m.users then Some(NotFound) else None
    case AwaitWrite(_) => if CommittedRow(m, q).None? then Some(WriteError(m, q)) else None
    case AwaitAudit(_, _) => None
  }

  /** Where a call that is not refused, and neither writes nor logs, goes next. */
  function NextPhase(m: Machine, q: Request): Phase
    requires q.phase.Submitted? ==> q.id in m.tickets
    requires !q.phase.AwaitWrite? && !q.phase.AwaitAudit?
  {
    match q.phase
    case Submitted =>
      var before := m.tickets[q.id];
      if q.patch.status == Some(DONE) then AwaitBlockers(before) else AfterBlockers(q, before)
    case AwaitBlockers(before) => AfterBlockers(q, before)
    case AwaitAssignee(before) => AwaitWrite(before)
  }

  /** The call has written and now inserts its audit entry. */
  function Committed(m: Machine, call: int): Machine
    requires call in m.requests && m.requests[call].phase.AwaitWrite? && CommittedRow(m, m.requests[call]).Some?
  {
    var q := m.requests[call];
    var row := CommittedRow(m, q).value;
    Resume(Written(m, WriteOf(q), row), call, AwaitAudit(q.phase.before, row))
  }

  /** The call inserts its audit entry and answers the row its UPDATE returned. */
  function Audited(m: Machine, call: int): Machine
    requires call in m.requests && m.requests[call].phase.AwaitAudit?
  {
    var q := m.requests[call];
    var e := Operations.UpdatedEntry(q.id, q.phase.before, q.phase.row, q.who);
    Showing(End(m, call, Ok(q.phase.row)).(log := m.log + [e]), q.id, q.phase.row)
  }

  /** One call runs from its present await to the next one; a refused call ends. */
  function Advance(m: Machine, call: int): Machine
    requires call in m.requests
  {
    var q := m.requests[call];
    if Refusal(m, q).Some? then End(m, call, Err(Refusal(m, q).value))
    else if q.phase.AwaitAudit? then Audited(m, call)
    else if q.phase.AwaitWrite? then Committed(m, call)
    else Resume(m, call, NextPhase(m, q))
  }

  /** What a cycle writes for its first row: the decision uses the scanned row, the guard the present one. */
  function CycleWrite(m: Machine, c: Cycle): Option<Write>
    requires c.rows != []
  {
    var (id, scanned) := c.rows[0];
    if Decision(scanned).Some? && Open(m.tickets, id)
    then Some(EscalationWrite(id, m.tickets[id].version, Decision(scanned).value))
    else None
  }

  /** A cycle runs to its next await: it inserts the entry of its last write, or handles its next row. */
  function EscalateFirst(m: Machine, cycle: int): Machine
    requires cycle in m.cycles
  {
    var c := m.cycles[cycle];
    if c.pending.Some? then
      m.(log := m.log + [c.pending.value], cycles := m.cycles[cycle := c.(pending := None)])
    else if c.rows == [] then m
    else
      match CycleWrite(m, c)
      case None => m.(cycles := m.cycles[cycle := c.(rows := c.rows[1..])])
      case Some(w) =>
        var entry := Operations.EscalationEntry(w.id, c.rows[0].1, w.change);
        Written(m, w, EscalatedRow(m.tickets[w.id], w.change)).(
          cycles := m.cycles[cycle := Cycle(c.since, c.rows[1..], Some(entry))])
  }

  function Inserted(m: Machine, row: Ticket): Machine {
    m.(tickets := m.tickets[m.nextTicket := row], nextTicket := m.nextTicket + 1,
       history := m.history[m.nextTicket := [FieldsOf(row)]])
  }

  /** Ids of users only grow and are never handed out twice; an edge joins two different existing tickets. */
  function Next(m: Machine, e: Event): Machine {
    match e
    case Create(dto) => Showing(Inserted(m, NewRow(dto)), m.nextTicket, NewRow(dto))
    case Respond(id) => if id in m.tickets then Showing(m, id, m.tickets[id]) else m
    case Submit(call, id, patch, version, who) =>
      if call in m.requests then m
      else if patch == EMPTY_PATCH then m.(answers := m.answers[call := Err(BadRequest)])
      else m.(requests := m.requests[call := Request(id, patch, version, who, Submitted)])
    case Proceed(call) => if call in m.requests then Advance(m, call) else m
    case Scan(cycle, now) =>
      if cycle in m.cycles then m
      else m.(cycles := m.cycles[cycle := Cycle(|m.writes|, OverdueRows(m.tickets, now, m.nextTicket), None)])
    case EscalateNext(cycle) => if cycle in m.cycles then EscalateFirst(m, cycle) else m
    case Delete(id) => m.(tickets := SoftDelete(m.tickets, id))
    case Undelete(id) => m.(tickets := Restore(m.tickets, id))
    case AddUser(user) => if user < m.nextUser then m else m.(users := m.users + {user}, nextUser := user + 1)
    case RemoveUser(user) => m.(users := m.users - {user}, tickets := ClearAssignee(m.tickets, user))
    case Link(t, b) => if t in m.tickets && b in m.tickets && t != b then m.(deps := m.deps + {(t, b)}) else m
    case Unlink(t, b) => m.(deps := m.deps - {(t, b)})
  }

  function Run(m: Machine, es: seq<Event>): Machine {
    if es == [] then m else Next(Run(m, es[..|es| - 1]), es[|es| - 1])
  }

  /** The documented client rule: the version sent comes from an earlier response. */
  ghost predicate Honest(m: Machine, e: Event) {
    e.Submit? ==> exists f :: (e.id, e.version, f) in m.seen
  }

  ghost predicate HonestRun(m: Machine, es: seq<Event>) {
    es == [] || (HonestRun(m, es[..|es| - 1]) && Honest(Run(m, es[..|es| - 1]), es[|es| - 1]))
  }

  /** A weaker rule: the version sent is no later than the present one, shown or not. */
  predicate Modest(m: Machine, e: Event) {
    e.Submit? ==> e.version <= if e.id in m.tickets then m.tickets[e.id].version else 1
  }

  predicate ModestRun(m: Machine, es: seq<Event>) {
    es == [] || (ModestRun(m, es[..|es| - 1]) && Modest(Run(m, es[..|es| - 1]), es[|es| - 1]))
  }

  lemma AdvanceRequests(m: Machine, call: int, other: int)
    requires call in m.requests && other in Advance(m, call).requests && other != call
    ensures other in m.requests && Advance(m, call).requests[other] == m.requests[other]
  {
  }

  /** A step adds or changes at most the call it is about. */
  lemma NextRequests(m: Machine, e: Event, call: int)
    requires call in Next(m, e).requests
    ensures var q := Next(m, e).requests[call];
            || (call in m.requests && q == m.requests[call])
            || (e.Submit? && q == Request(e.id, e.patch, e.version, e.who, Submitted))
            || (e.Proceed? && e.call == call && call in m.requests)
  {
    if e.Proceed? && e.call in m.requests {
      if e.call != call {
        AdvanceRequests(m, e.call, call);
      }
    }
  }

  /** A step logs at most one entry: the difference of a finished call, or the pending one of a cycle. */
  lemma NextLog(m: Machine, e: Event)
    ensures var after := Next(m, e);
            || after.log == m.log
            || (e.Proceed? && e.call in m.requests && m.requests[e.call].phase.AwaitAudit?
                && after == Advance(m, e.call))
            || (e.EscalateNext? && e.cycle in m.cycles && m.cycles[e.cycle].pending.Some?
                && after.log == m.log + [m.cycles[e.cycle].pending.value])
  {
  }

  lemma RunSnoc(m: Machine, es: seq<Event>, e: Event)
    ensures Run(m, es + [e]) == Next(Run(m, es), e)
    ensures HonestRun(m, es + [e]) <==> HonestRun(m, es) && Honest(Run(m, es), e)
  {
    assert (es + [e])[..|es|] == es;
  }

  // ----- what may happen to a ticket -----

  /** A later row of a DONE ticket: only the deletion mark may differ, and the assignee may be cleared. */
  ghost predicate Final(before: Ticket, after: Ticket) {
    after == before.(deleted := after.deleted, assignee := after.assignee)
    && (after.assignee == before.assignee || after.assignee.None?)
  }

  /** Versions and status ranks never fall, and DONE rows are final. */
  ghost predicate Safe(before: Tickets, after: Tickets) {
    forall id :: id in before ==>
      && id in after && before[id].version <= after[id].version
      && StatusRank(before[id].status) <= StatusRank(after[id].status)
      && (before[id].status == DONE ==> Final(before[id], after[id]))
  }

  /** Every step of the run is safe for every ticket. */
  ghost predicate SafeRun(m: Machine, es: seq<Event>) {
    es == [] ||
    (SafeRun(m, es[..|es| - 1]) && Safe(Run(m, es[..|es| - 1]).tickets, Run(m, es).tickets))
  }

  lemma {:induction false} SafeRunIsSafe(m: Machine, es: seq<Event>)
    requires SafeRun(m, es)
    ensures Safe(m.tickets, Run(m, es).tickets)
  {
    if es != [] {
      SafeRunIsSafe(m, es[..|es| - 1]);
    }
  }
}
