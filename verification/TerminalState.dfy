/** The optimistic-lock protocol: exactly which calls in flight can break the forward-only, terminal life
    cycle, and what every client that follows the version rule can rely on. */
module TerminalState {
  import opened Schema
  import opened TicketTable
  import opened Interleaving
  import opened VersionHistory

  // ----- which calls are dangerous -----

  /** The assignee a patch names exists, or may still be registered; ids are not handed out twice. */
  predicate Possible(m: Machine, assignee: Option<int>) {
    assignee.Some? ==> assignee.value in m.users || assignee.value >= m.nextUser
  }

  /** The version of a call that has read its row can still come up while the ticket is open, or is the
      present one of a row that the call's checks would refuse. */
  predicate Outlived(t: Ticket, version: int, p: Patch) {
    (t.version < version && t.status != DONE) || (t.version == version && ReadError(t, p).Some?)
  }

  /** A call in flight that sent a version later than the row it read, or will read, and may yet commit. */
  predicate Dangerous(m: Machine, q: Request) {
    Possible(m, q.patch.assignee) &&
    match q.phase
    case Submitted =>
      if q.id in m.tickets then q.version > m.tickets[q.id].version && ReadError(m.tickets[q.id], q.patch).None?
      else q.id >= m.nextTicket && q.version > 1
    case AwaitAudit(_, _) => false
    case _ => q.id in m.tickets && q.version > q.phase.before.version && Outlived(m.tickets[q.id], q.version, q.patch)
  }

  ghost predicate NoneDangerous(m: Machine) {
    forall call :: call in m.requests ==> !Dangerous(m, m.requests[call])
  }

  // ----- no dangerous call arises from a modest one -----

  /** Versions that did not move kept their columns; new tickets have new ids; user ids do not come back. */
  ghost predicate Later(m: Machine, after: Machine) {
    && Safe(m.tickets, after.tickets)
    && m.nextTicket <= after.nextTicket && m.nextUser <= after.nextUser
    && (forall id :: id in m.tickets && after.tickets[id].version == m.tickets[id].version ==>
          FieldsOf(after.tickets[id]) == FieldsOf(m.tickets[id]))
    && (forall id :: id in after.tickets && id !in m.tickets ==> id >= m.nextTicket && after.tickets[id].version >= 1)
    && (forall u :: u in after.users && u !in m.users ==> u >= m.nextUser)
  }

  /** A harmless call stays harmless. */
  lemma HarmlessStays(m: Machine, after: Machine, q: Request)
    requires ReadOk(m, q) && !Dangerous(m, q) && Later(m, after)
    ensures !Dangerous(after, q)
  {
    if Possible(after, q.patch.assignee) && q.id in m.tickets {
      var t, u := m.tickets[q.id], after.tickets[q.id];
      assert t.version <= u.version && StatusRank(t.status) <= StatusRank(u.status);
      assert t.status == DONE ==> u.version == t.version && u.status == DONE;
    }
  }

  /** If the calls a step touches are harmless after it, all are. */
  lemma AllStayHarmless(m: Machine, e: Event)
    requires CallsInv(m) && NoneDangerous(m) && Later(m, Next(m, e))
    requires e.Submit? ==> !Dangerous(Next(m, e), Request(e.id, e.patch, e.version, e.who, Submitted))
    requires e.Proceed? && e.call in m.requests && e.call in Next(m, e).requests ==>
               !Dangerous(Next(m, e), Next(m, e).requests[e.call])
    ensures NoneDangerous(Next(m, e))
  {
    var after := Next(m, e);
    forall call | call in after.requests
      ensures !Dangerous(after, after.requests[call])
    {
      NextRequests(m, e, call);
      if call in m.requests && after.requests[call] == m.requests[call] {
        HarmlessStays(m, after, m.requests[call]);
      }
    }
  }

  /** The squeeze: the row a committing call hits has the columns it read and checked. */
  lemma Squeeze(m: Machine, q: Request)
    requires HistoryInv(m) && ReadOk(m, q) && q.phase.AwaitWrite? && CommittedRow(m, q).Some?
    requires q.version <= q.phase.before.version
    ensures FieldsOf(m.tickets[q.id]) == FieldsOf(q.phase.before) && ReadError(m.tickets[q.id], q.patch).None?
  {
    assert RowHistory(m.history, q.id, m.tickets[q.id]);
    assert q.version == q.phase.before.version == m.tickets[q.id].version;
  }

  /** A harmless call only commits on a row its own checks would accept. */
  lemma HarmlessCommit(m: Machine, q: Request)
    requires HistoryInv(m) && ReadOk(m, q) && q.phase.AwaitWrite? && CommittedRow(m, q).Some? && !Dangerous(m, q)
    ensures ReadError(m.tickets[q.id], q.patch).None?
  {
    if q.version <= q.phase.before.version {
      Squeeze(m, q);
    }
  }

  /** A write to a ticket that is not DONE and whose status does not fall. */
  lemma WriteIsLater(m: Machine, w: Write, row: Ticket)
    requires NextVersion(m, w, row) && m.tickets[w.id].status != DONE
    requires StatusRank(m.tickets[w.id].status) <= StatusRank(row.status)
    ensures Later(m, Written(m, w, row))
  {
  }

  lemma CommitIsLater(m: Machine, call: int)
    requires Recorded(m) && NoneDangerous(m) && call in m.requests && m.requests[call].phase.AwaitWrite?
    requires CommittedRow(m, m.requests[call]).Some?
    ensures Later(m, Advance(m, call))
  {
    var q := m.requests[call];
    assert ReadOk(m, q);
    HarmlessCommit(m, q);
    CommitIsNext(m, q);
    WriteIsLater(m, WriteOf(q), CommittedRow(m, q).value);
  }

  lemma EscalationIsLater(m: Machine, cycle: int)
    requires cycle in m.cycles
    ensures Later(m, EscalateFirst(m, cycle))
  {
    var c := m.cycles[cycle];
    if c.pending.None? && c.rows != [] && CycleWrite(m, c).Some? {
      var w := CycleWrite(m, c).value;
      WriteIsLater(m, w, EscalatedRow(m.tickets[w.id], w.change));
    }
  }

  lemma QuietIsLater(m: Machine, after: Machine)
    requires after.tickets == m.tickets && after.nextTicket == m.nextTicket
    requires after.users == m.users && after.nextUser == m.nextUser
    ensures Later(m, after)
  {
  }

  lemma AdvanceIsLater(m: Machine, call: int)
    requires Recorded(m) && NoneDangerous(m) && call in m.requests
    ensures Later(m, Advance(m, call))
  {
    if m.requests[call].phase.AwaitWrite? && CommittedRow(m, m.requests[call]).Some? {
      CommitIsLater(m, call);
    } else {
      QuietIsLater(m, Advance(m, call));
    }
  }

  lemma MarksAreLater(m: Machine, e: Event)
    requires HistoryInv(m) && (e.Create? || e.Delete? || e.Undelete?)
    ensures Later(m, Next(m, e))
  {
  }

  lemma UsersAreLater(m: Machine, e: Event)
    requires e.AddUser? || e.RemoveUser?
    ensures Later(m, Next(m, e))
  {
  }

  lemma NextIsLater(m: Machine, e: Event)
    requires Recorded(m) && NoneDangerous(m)
    ensures Later(m, Next(m, e))
  {
    if e.Proceed? && e.call in m.requests {
      AdvanceIsLater(m, e.call);
    } else if e.EscalateNext? && e.cycle in m.cycles {
      EscalationIsLater(m, e.cycle);
    } else if e.Create? || e.Delete? || e.Undelete? {
      MarksAreLater(m, e);
    } else if e.AddUser? || e.RemoveUser? {
      UsersAreLater(m, e);
    } else {
      QuietIsLater(m, Next(m, e));
    }
  }

  /** A call that moves on stays harmless. */
  lemma AdvanceHarmless(m: Machine, call: int)
    requires Recorded(m) && call in m.requests && !Dangerous(m, m.requests[call]) && Later(m, Advance(m, call))
    ensures call in Advance(m, call).requests ==> !Dangerous(Advance(m, call), Advance(m, call).requests[call])
  {
    assert ReadOk(m, m.requests[call]);
    HarmlessStays(m, Advance(m, call), m.requests[call]);
  }

  /** Every modest step of a machine without dangerous calls is safe and leaves it without dangerous calls. */
  lemma HarmlessStep(m: Machine, e: Event)
    requires Recorded(m) && NoneDangerous(m) && Modest(m, e)
    ensures NoneDangerous(Next(m, e)) && Safe(m.tickets, Next(m, e).tickets)
  {
    NextIsLater(m, e);
    if e.Proceed? && e.call in m.requests {
      AdvanceHarmless(m, e.call);
    }
    AllStayHarmless(m, e);
  }

  lemma {:induction false} HarmlessRun(m: Machine, es: seq<Event>)
    requires Recorded(m) && NoneDangerous(m) && ModestRun(m, es)
    ensures Recorded(Run(m, es)) && NoneDangerous(Run(m, es)) && SafeRun(m, es)
  {
    if es != [] {
      var earlier := es[..|es| - 1];
      HarmlessRun(m, earlier);
      NextStep(Run(m, earlier), es[|es| - 1]);
      HarmlessStep(Run(m, earlier), es[|es| - 1]);
    }
  }

  /** A version some response has shown is not beyond the present one. */
  lemma HonestIsModest(m: Machine, e: Event)
    requires Recorded(m) && Honest(m, e)
    ensures Modest(m, e)
  {
    if e.Submit? {
      var f :| (e.id, e.version, f) in m.seen;
      assert SeenOk(m, (e.id, e.version, f));
      assert RowHistory(m.history, e.id, m.tickets[e.id]);
    }
  }

  lemma {:induction false} HonestRunIsModest(m: Machine, es: seq<Event>)
    requires Recorded(m) && HonestRun(m, es)
    ensures ModestRun(m, es)
  {
    if es != [] {
      HonestRunIsModest(m, es[..|es| - 1]);
      RunRecorded(m, es[..|es| - 1]);
      HonestIsModest(Run(m, es[..|es| - 1]), es[|es| - 1]);
    }
  }

  /** Over any interleaving of modest clients, and so of clients that send versions they were shown: status
      ranks and versions never fall, and once DONE a ticket keeps every column but the deletion mark for
      ever, save that its assignee is cleared with the assignee's user. */
  lemma DoneIsFinal(es: seq<Event>, more: seq<Event>)
    requires ModestRun(EMPTY, es) && ModestRun(Run(EMPTY, es), more)
    ensures Safe(Run(EMPTY, es).tickets, Run(Run(EMPTY, es), more).tickets)
  {
    EmptyRecorded();
    HarmlessRun(EMPTY, es);
    HarmlessRun(Run(EMPTY, es), more);
    SafeRunIsSafe(Run(EMPTY, es), more);
  }

  // ----- every dangerous call has a run that breaks the life cycle -----

  /** Honest steps lead from one machine to the other. */
  ghost predicate Leads(m: Machine, n: Machine) {
    exists es :: HonestRun(m, es) && Run(m, es) == n
  }

  lemma LeadsRefl(m: Machine)
    ensures Leads(m, m)
  {
    assert HonestRun(m, []) && Run(m, []) == m;
  }

  lemma LeadsStep(m: Machine, n: Machine, e: Event)
    requires Leads(m, n) && Honest(n, e)
    ensures Leads(m, Next(n, e))
  {
    var es :| HonestRun(m, es) && Run(m, es) == n;
    RunSnoc(m, es, e);
  }

  /** No call has this number yet. */
  lemma {:induction false} FreshCall(calls: set<int>) returns (unused: int)
    ensures forall c :: c in calls ==> c < unused
  {
    if c :| c in calls {
      var f := FreshCall(calls - {c});
      unused := if c < f then f else c + 1;
      assert forall d :: d in calls ==> d == c || d in calls - {c};
    } else {
      unused := 0;
    }
  }

  /** As n, but for what responses showed, and with one more call on its way, which read the row of n. */
  ghost predicate WithCall(n: Machine, k: Machine, other: int, id: int, p: Patch, phase: Phase) {
    id in n.tickets &&
    k == n.(seen := k.seen, requests := n.requests[other := Request(id, p, n.tickets[id].version, 0, phase)])
  }

  /** A new client reads a ticket and sends a patch with the version it was shown. */
  lemma SubmitRun(m: Machine, n: Machine, other: int, id: int, p: Patch) returns (k: Machine)
    requires Leads(m, n) && other !in n.requests && p != EMPTY_PATCH && id in n.tickets
    ensures Leads(m, k) && WithCall(n, k, other, id, p, Submitted)
  {
    var before := n.tickets[id];
    LeadsStep(m, n, Respond(id));
    k := Next(n, Respond(id));
    var submit := Submit(other, id, p, before.version, 0);
    assert (id, before.version, FieldsOf(before)) in k.seen;
    LeadsStep(m, k, submit);
    k := Next(k, submit);
  }

  /** Nothing the call checks stops it. */
  ghost predicate Passes(n: Machine, id: int, p: Patch) {
    && Active(n.tickets, id) && ReadError(n.tickets[id], p).None? && p.assignee.None?
    && (p.status == Some(DONE) ==> Unresolved(n.tickets, n.deps, id) == {})
  }

  /** The call of WithCall moves on. */
  lemma MoveOn(m: Machine, n: Machine, k0: Machine, other: int, id: int, p: Patch, phase: Phase, next: Phase)
    returns (k: Machine)
    requires Leads(m, k0) && WithCall(n, k0, other, id, p, phase)
    ensures Leads(m, k)
    ensures Advance(k0, other) == Resume(k0, other, next) ==> WithCall(n, k, other, id, p, next)
  {
    LeadsStep(m, k0, Proceed(other));
    k := Next(k0, Proceed(other));
  }

  /** The call reads its row and passes its checks. */
  lemma CheckRun(m: Machine, n: Machine, k0: Machine, other: int, id: int, p: Patch) returns (k: Machine)
    requires Leads(m, k0) && WithCall(n, k0, other, id, p, Submitted) && Passes(n, id, p)
    ensures Leads(m, k) && WithCall(n, k, other, id, p, AwaitWrite(n.tickets[id]))
  {
    var before := n.tickets[id];
    if p.status == Some(DONE) {
      k := MoveOn(m, n, k0, other, id, p, Submitted, AwaitBlockers(before));
      k := MoveOn(m, n, k, other, id, p, AwaitBlockers(before), AwaitWrite(before));
    } else {
      k := MoveOn(m, n, k0, other, id, p, Submitted, AwaitWrite(before));
    }
  }

  /** The tables of k are those of n with the patch written. */
  ghost predicate WithPatch(n: Machine, k: Machine, id: int, p: Patch) {
    && k.deps == n.deps && k.users == n.users && id in n.tickets
    && k.tickets == n.tickets[id := Patched(n.tickets[id], p, p.priority.Some?)]
  }

  /** The call writes. */
  lemma WriteRun(m: Machine, n: Machine, k0: Machine, other: int, id: int, p: Patch) returns (k: Machine)
    requires Active(n.tickets, id) && p.assignee.None? && other !in n.requests
    requires Leads(m, k0) && WithCall(n, k0, other, id, p, AwaitWrite(n.tickets[id]))
    ensures Leads(m, k) && WithPatch(n, k, id, p)
    ensures other in k.requests && k.requests[other].phase.AwaitAudit? && k.requests - {other} == n.requests
  {
    LeadsStep(m, k0, Proceed(other));
    k := Next(k0, Proceed(other));
    Dropped(n.requests, k0.requests[other], k.requests[other], other);
  }

  lemma Dropped(calls: map<int, Request>, q: Request, r: Request, other: int)
    requires other !in calls
    ensures calls[other := q][other := r] - {other} == calls
  {
  }

  /** The call logs and ends. */
  lemma EndRun(m: Machine, n: Machine, k0: Machine, other: int, id: int, p: Patch) returns (k: Machine)
    requires Leads(m, k0) && WithPatch(n, k0, id, p)
    requires other in k0.requests && k0.requests[other].phase.AwaitAudit? && k0.requests - {other} == n.requests
    ensures Leads(m, k) && WithPatch(n, k, id, p) && k.requests == n.requests
  {
    LeadsStep(m, k0, Proceed(other));
    k := Next(k0, Proceed(other));
  }

  /** One honest PATCH of a client that nobody interrupts. */
  lemma PatchRun(m: Machine, n: Machine, other: int, id: int, p: Patch) returns (k: Machine)
    requires Leads(m, n) && other !in n.requests && p != EMPTY_PATCH && Passes(n, id, p)
    ensures Leads(m, k) && WithPatch(n, k, id, p) && k.requests == n.requests
  {
    k := SubmitRun(m, n, other, id, p);
    k := CheckRun(m, n, k, other, id, p);
    k := WriteRun(m, n, k, other, id, p);
    k := EndRun(m, n, k, other, id, p);
  }

  ghost predicate Unblocked(m: Machine, id: int) {
    forall e :: e in m.deps ==> e.0 != id
  }

  /** Dependencies can be removed until none blocks the ticket. */
  lemma {:induction false} UnlinkAll(m: Machine, n: Machine, id: int) returns (k: Machine)
    requires Leads(m, n)
    ensures Leads(m, k) && k == n.(deps := k.deps) && Unblocked(k, id)
    decreases |n.deps|
  {
    if e :| e in n.deps && e.0 == id {
      LeadsStep(m, n, Unlink(e.0, e.1));
      assert n.deps - {(e.0, e.1)} == n.deps - {e};
      k := UnlinkAll(m, Next(n, Unlink(e.0, e.1)), id);
    } else {
      k := n;
    }
  }

  /** Ordinary PATCHes take an open, unblocked ticket to DONE at any later version. */
  lemma {:induction false} Climb(m: Machine, n: Machine, other: int, id: int, version: int) returns (k: Machine)
    requires Leads(m, n) && other !in n.requests && Open(n.tickets, id) && Unblocked(n, id)
    requires n.tickets[id].version < version
    ensures Leads(m, k) && k.requests == n.requests && k.users == n.users
    ensures Active(k.tickets, id) && k.tickets[id].status == DONE && k.tickets[id].version == version
    decreases version - n.tickets[id].version
  {
    if n.tickets[id].version == version - 1 {
      k := PatchRun(m, n, other, id, EMPTY_PATCH.(status := Some(DONE)));
    } else {
      var mid := PatchRun(m, n, other, id, EMPTY_PATCH.(title := Some("t")));
      k := Climb(m, mid, other, id, version);
    }
  }

  /** Tickets can be created until the given id exists. */
  lemma {:induction false} CreateUpTo(m: Machine, n: Machine, id: int) returns (k: Machine)
    requires Leads(m, n) && 0 < n.nextTicket <= id
    ensures Leads(m, k) && k.requests == n.requests && k.users == n.users && k.nextUser == n.nextUser
    ensures Open(k.tickets, id) && k.tickets[id].version == 1 && k.tickets[id].status == TODO
    decreases id - n.nextTicket
  {
    var e := Create(CreateDto("t", None, None, None, BUG, 0, None, None));
    LeadsStep(m, n, e);
    k := Next(n, e);
    if id > n.nextTicket {
      k := CreateUpTo(m, k, id);
    }
  }

  /** The call is about to read, or has read, and nothing but its version can stop it. */
  ghost predicate Poised(m: Machine, call: int, q: Request) {
    && call in m.requests && m.requests[call] == q
    && Active(m.tickets, q.id) && Unblocked(m, q.id)
    && (q.patch.assignee.Some? ==> q.patch.assignee.value in m.users)
  }

  /** The ticket is created or its deletion undone. */
  lemma MakeActive(m: Machine, q: Request) returns (k: Machine)
    requires TablesInv(m) && (q.id in m.tickets || q.id >= m.nextTicket)
    ensures Leads(m, k) && k.requests == m.requests && k.users == m.users && k.nextUser == m.nextUser
    ensures Active(k.tickets, q.id)
    ensures if q.id in m.tickets then k.tickets[q.id] == m.tickets[q.id].(deleted := false)
            else k.tickets[q.id].version == 1 && k.tickets[q.id].status == TODO
  {
    LeadsRefl(m);
    if q.id !in m.tickets {
      k := CreateUpTo(m, m, q.id);
    } else if m.tickets[q.id].deleted {
      LeadsStep(m, m, Undelete(q.id));
      k := Next(m, Undelete(q.id));
    } else {
      k := m;
    }
  }

  /** The assignee is registered. */
  lemma Register(m: Machine, n: Machine, assignee: Option<int>) returns (k: Machine)
    requires Leads(m, n) && Possible(n, assignee)
    ensures Leads(m, k) && k == n.(users := k.users, nextUser := k.nextUser)
    ensures assignee.Some? ==> assignee.value in k.users
  {
    k := n;
    if assignee.Some? && assignee.value !in n.users {
      LeadsStep(m, n, AddUser(assignee.value));
      k := Next(n, AddUser(assignee.value));
    }
  }

  /** Ticket active, assignee registered, dependencies removed. */
  lemma Prepare(m: Machine, call: int) returns (k: Machine)
    requires TablesInv(m) && call in m.requests && Possible(m, m.requests[call].patch.assignee)
    requires m.requests[call].id in m.tickets || m.requests[call].id >= m.nextTicket
    ensures Leads(m, k) && Poised(k, call, m.requests[call])
    ensures var q := m.requests[call];
            if q.id in m.tickets then k.tickets[q.id] == m.tickets[q.id].(deleted := false)
            else k.tickets[q.id].version == 1 && k.tickets[q.id].status == TODO
  {
    k := MakeActive(m, m.requests[call]);
    k := Register(m, k, m.requests[call].patch.assignee);
    k := UnlinkAll(m, k, m.requests[call].id);
  }

  /** A poised call that has passed its read gets to its UPDATE. */
  lemma ToWrite(m: Machine, n: Machine, call: int, q: Request) returns (k: Machine)
    requires Leads(m, n) && Poised(n, call, q) && !q.phase.Submitted? && !q.phase.AwaitAudit?
    ensures Leads(m, k) && k == n.(requests := k.requests) && k.requests.Keys == n.requests.Keys
    ensures Poised(k, call, q.(phase := AwaitWrite(q.phase.before)))
  {
    k := n;
    if q.phase.AwaitBlockers? {
      k := PoisedMove(m, k, call, q);
    }
    if k.requests[call].phase.AwaitAssignee? {
      k := PoisedMove(m, k, call, k.requests[call]);
    }
  }

  /** A poised call passes its gate, or the lookup of its assignee. */
  lemma PoisedMove(m: Machine, n: Machine, call: int, q: Request) returns (k: Machine)
    requires Leads(m, n) && Poised(n, call, q) && (q.phase.AwaitBlockers? || q.phase.AwaitAssignee?)
    ensures Leads(m, k) && k == n.(requests := k.requests) && k.requests.Keys == n.requests.Keys
    ensures Poised(k, call, q.(phase := if q.phase.AwaitBlockers? then AfterBlockers(q, q.phase.before)
                                        else AwaitWrite(q.phase.before)))
  {
    LeadsStep(m, n, Proceed(call));
    k := Next(n, Proceed(call));
  }

  /** The UPDATE of a call that its own checks would refuse on the present row breaks the life cycle. */
  lemma Strike(m: Machine, call: int, q: Request)
    requires Poised(m, call, q) && q.phase.AwaitWrite?
    requires m.tickets[q.id].version == q.version && ReadError(m.tickets[q.id], q.patch).Some?
    ensures !Safe(m.tickets, Next(m, Proceed(call)).tickets)
  {
    var t, after := m.tickets[q.id], Next(m, Proceed(call)).tickets;
    assert after[q.id] == Patched(t, q.patch, q.patch.priority.Some?);
  }

  /** Some honest continuation has a step that breaks the life cycle. */
  ghost predicate CanBreak(m: Machine) {
    exists n, e :: Leads(m, n) && Honest(n, e) && !Safe(n.tickets, Next(n, e).tickets)
  }

  /** From its read on: reach the version while the ticket gets DONE, then strike. */
  lemma ReadCallBreaks(m: Machine, n: Machine, call: int, q: Request)
    requires Leads(m, n) && Poised(n, call, q) && !q.phase.Submitted? && !q.phase.AwaitAudit?
    requires Outlived(n.tickets[q.id], q.version, q.patch)
    ensures CanBreak(m)
  {
    var k := ToWrite(m, n, call, q);
    var q' := k.requests[call];
    if k.tickets[q.id].version < q.version {
      var other := FreshCall(k.requests.Keys);
      k := Climb(m, k, other, q.id, q.version);
    }
    assert Active(k.tickets, q.id) && k.requests[call] == q';
    k := UnlinkAll(m, k, q.id);
    Strike(k, call, q');
    assert Leads(m, k) && Honest(k, Proceed(call)) && !Safe(k.tickets, Next(k, Proceed(call)).tickets);
  }

  /** A poised call that has not read yet reads its row. */
  lemma ReadNow(m: Machine, n: Machine, call: int, q: Request) returns (k: Machine, q': Request)
    requires Leads(m, n) && Poised(n, call, q) && q.phase.Submitted? && ReadError(n.tickets[q.id], q.patch).None?
    ensures Leads(m, k) && Poised(k, call, q') && q' == q.(phase := q'.phase) && k.tickets == n.tickets
    ensures !q'.phase.Submitted? && !q'.phase.AwaitAudit? && q'.phase.before == n.tickets[q.id]
  {
    LeadsStep(m, n, Proceed(call));
    k := Next(n, Proceed(call));
    q' := k.requests[call];
  }

  lemma DangerousBreaks(m: Machine, call: int)
    requires Recorded(m) && call in m.requests && Dangerous(m, m.requests[call])
    ensures CanBreak(m)
  {
    var q := m.requests[call];
    var n := Prepare(m, call);
    if q.phase.Submitted? {
      var k, q' := ReadNow(m, n, call, q);
      ReadCallBreaks(m, k, call, q');
    } else {
      ReadCallBreaks(m, n, call, q);
    }
  }

  // ----- exactness -----

  ghost predicate ModestContinuationsSafe(m: Machine) {
    forall es :: ModestRun(m, es) ==> SafeRun(m, es)
  }

  ghost predicate HonestContinuationsSafe(m: Machine) {
    forall es :: HonestRun(m, es) ==> SafeRun(m, es)
  }

  lemma SafeSnoc(m: Machine, es: seq<Event>, e: Event)
    ensures SafeRun(m, es + [e]) <==> SafeRun(m, es) && Safe(Run(m, es).tickets, Next(Run(m, es), e).tickets)
  {
    RunSnoc(m, es, e);
    assert (es + [e])[..|es|] == es;
  }

  lemma BreakIsUnsafe(m: Machine)
    ensures CanBreak(m) ==> !HonestContinuationsSafe(m)
  {
    if CanBreak(m) {
      var n, e :| Leads(m, n) && Honest(n, e) && !Safe(n.tickets, Next(n, e).tickets);
      var es :| HonestRun(m, es) && Run(m, es) == n;
      RunSnoc(m, es, e);
      SafeSnoc(m, es, e);
    }
  }

  /** In any state of any run, whatever versions were sent so far: every continuation by clients that
      follow the version rule is safe exactly when no call in flight is dangerous. */
  lemma SafeExactlyWithoutDanger(es: seq<Event>)
    ensures var m := Run(EMPTY, es);
            && (HonestContinuationsSafe(m) <==> NoneDangerous(m))
            && (ModestContinuationsSafe(m) <==> NoneDangerous(m))
  {
    var m := Run(EMPTY, es);
    EmptyRecorded();
    RunRecorded(EMPTY, es);
    if NoneDangerous(m) {
      forall more | ModestRun(m, more)
        ensures SafeRun(m, more)
      {
        HarmlessRun(m, more);
      }
      HonestFromModest(m);
    } else {
      var call :| call in m.requests && Dangerous(m, m.requests[call]);
      DangerousBreaks(m, call);
      BreakIsUnsafe(m);
      if ModestContinuationsSafe(m) {
        HonestFromModest(m);
      }
    }
  }

  lemma HonestFromModest(m: Machine)
    requires Recorded(m) && ModestContinuationsSafe(m)
    ensures HonestContinuationsSafe(m)
  {
    forall more | HonestRun(m, more)
      ensures SafeRun(m, more)
    {
      HonestRunIsModest(m, more);
    }
  }

  /** For a single call that has just read its row, in an otherwise harmless machine: every continuation
      is safe exactly when the version it sent is not beyond the one it read. */
  lemma SafeExactlyAtRead(es: seq<Event>, call: int)
    requires call in Run(EMPTY, es).requests
    requires var m := Run(EMPTY, es);
             var q := m.requests[call];
             && !q.phase.Submitted? && !q.phase.AwaitAudit? && q.id in m.tickets && m.tickets[q.id] == q.phase.before
             && Possible(m, q.patch.assignee)
             && forall c :: c in m.requests && c != call ==> !Dangerous(m, m.requests[c])
    ensures var m := Run(EMPTY, es);
            HonestContinuationsSafe(m) <==> m.requests[call].version <= m.requests[call].phase.before.version
  {
    var m := Run(EMPTY, es);
    EmptyRecorded();
    RunRecorded(EMPTY, es);
    SafeExactlyWithoutDanger(es);
    var q := m.requests[call];
    assert ReadOk(m, q);
    assert Dangerous(m, q) <==> q.version > q.phase.before.version;
    if !Dangerous(m, q) {
      assert NoneDangerous(m);
    }
  }

  /** Clients that only send versions they were shown never break the life cycle. */
  lemma HonestRunsAreSafe(es: seq<Event>)
    requires HonestRun(EMPTY, es)
    ensures SafeRun(EMPTY, es)
  {
    SafeExactlyWithoutDanger([]);
    assert NoneDangerous(Run(EMPTY, []));
    assert HonestContinuationsSafe(EMPTY);
  }
}
