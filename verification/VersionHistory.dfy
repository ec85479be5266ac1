/** What every interleaving keeps, whatever versions clients send: the recorded past explains the
    present rows, and no update is lost. */
module VersionHistory {
  import opened Schema
  import opened TicketTable
  import opened Interleaving
  import Operations

  // ----- the record -----

  /** One entry per version, the last one for the present row. */
  ghost predicate RowHistory(h: History, id: int, t: Ticket) {
    t.version == |Versions(h, id)| && StoodFor(h, id, t.version, FieldsOf(t))
  }

  ghost predicate HistoryInv(m: Machine) {
    && m.nextTicket > 0
    && (forall id :: id in m.tickets ==> 0 < id < m.nextTicket && RowHistory(m.history, id, m.tickets[id]))
    && (forall id :: id in m.history ==> id in m.tickets)
  }

  function WritesTo(writes: seq<Write>, id: int): nat {
    if writes == [] then 0
    else WritesTo(writes[..|writes| - 1], id) + if writes[|writes| - 1].id == id then 1 else 0
  }

  /** The columns a write leaves when it starts from the given ones. */
  function Effect(w: Write, f: Fields): Fields {
    match w
    case ClientWrite(_, _, p) => PatchedFields(f, p)
    case EscalationWrite(_, _, change) => EscalatedFields(f, change)
  }

  /** A write turned the columns of its starting version into those of the next one. */
  ghost predicate Explained(h: History, w: Write) {
    && 1 <= w.from < |Versions(h, w.id)|
    && Versions(h, w.id)[w.from] == Effect(w, Versions(h, w.id)[w.from - 1])
  }

  /** Each write starts from the version that the earlier writes to its ticket led to. */
  ghost predicate WritesOk(h: History, writes: seq<Write>) {
    writes == [] ||
    var earlier, w := writes[..|writes| - 1], writes[|writes| - 1];
    WritesOk(h, earlier) && w.from == 1 + WritesTo(earlier, w.id) && Explained(h, w)
  }

  ghost predicate WritesInv(m: Machine) {
    && (forall id :: id in m.tickets ==> m.tickets[id].version == 1 + WritesTo(m.writes, id))
    && (forall id :: id >= m.nextTicket ==> WritesTo(m.writes, id) == 0)
    && WritesOk(m.history, m.writes)
  }

  /** Edges join two different existing tickets. */
  ghost predicate EdgesInv(m: Machine) {
    forall e :: e in m.deps ==> e.0 in m.tickets && e.1 in m.tickets && e.0 != e.1
  }

  ghost predicate TablesInv(m: Machine) {
    HistoryInv(m) && WritesInv(m) && EdgesInv(m)
  }

  // ----- what calls, cycles and clients remember of the past -----

  /** The row a call read was a version of its ticket, and passed the terminal-state and forward-only
      checks; a row it wrote is a version, too. */
  ghost predicate ReadOk(m: Machine, q: Request) {
    match q.phase
    case Submitted => true
    case AwaitAudit(_, row) => StoodFor(m.history, q.id, row.version, FieldsOf(row))
    case _ =>
      var b := q.phase.before;
      && q.id in m.tickets && b.version <= m.tickets[q.id].version
      && StoodFor(m.history, q.id, b.version, FieldsOf(b))
      && ReadError(b, q.patch).None?
  }

  /** A scanned row is the version its ticket had when the scan was made. */
  ghost predicate ScannedRow(m: Machine, since: nat, row: (int, Ticket)) {
    && since <= |m.writes| && row.0 in m.tickets
    && row.1.version == 1 + WritesTo(m.writes[..since], row.0)
    && StoodFor(m.history, row.0, row.1.version, FieldsOf(row.1))
  }

  ghost predicate CycleOk(m: Machine, c: Cycle) {
    forall i :: 0 <= i < |c.rows| ==> ScannedRow(m, c.since, c.rows[i])
  }

  ghost predicate SeenOk(m: Machine, r: (int, int, Fields)) {
    StoodFor(m.history, r.0, r.1, r.2)
  }

  ghost predicate CallsInv(m: Machine) {
    forall call :: call in m.requests ==> ReadOk(m, m.requests[call])
  }

  ghost predicate CyclesInv(m: Machine) {
    forall cycle :: cycle in m.cycles ==> CycleOk(m, m.cycles[cycle])
  }

  ghost predicate SeenInv(m: Machine) {
    forall r :: r in m.seen ==> SeenOk(m, r)
  }

  ghost predicate Recorded(m: Machine) {
    TablesInv(m) && CallsInv(m) && CyclesInv(m) && SeenInv(m)
  }

  // ----- growth of the record -----

  /** Earlier versions keep standing for what they stood for. */
  ghost predicate Extends(h: History, longer: History) {
    forall id :: Versions(h, id) <= Versions(longer, id)
  }

  /** Nothing recorded is forgotten, no ticket disappears, no version falls. */
  ghost predicate Grows(m: Machine, after: Machine) {
    && Extends(m.history, after.history) && m.writes <= after.writes
    && forall id :: id in m.tickets ==> id in after.tickets && m.tickets[id].version <= after.tickets[id].version
  }

  lemma StoodForStays(h: History, longer: History, id: int, version: int, f: Fields)
    requires Extends(h, longer) && StoodFor(h, id, version, f)
    ensures StoodFor(longer, id, version, f)
  {
    assert Versions(h, id) <= Versions(longer, id);
  }

  lemma ReadStays(m: Machine, after: Machine, q: Request)
    requires Grows(m, after) && ReadOk(m, q)
    ensures ReadOk(after, q)
  {
    match q.phase
    case Submitted =>
    case AwaitAudit(_, row) => StoodForStays(m.history, after.history, q.id, row.version, FieldsOf(row));
    case AwaitBlockers(b) => StoodForStays(m.history, after.history, q.id, b.version, FieldsOf(b));
    case AwaitAssignee(b) => StoodForStays(m.history, after.history, q.id, b.version, FieldsOf(b));
    case AwaitWrite(b) => StoodForStays(m.history, after.history, q.id, b.version, FieldsOf(b));
  }

  lemma ScannedStays(m: Machine, after: Machine, since: nat, row: (int, Ticket))
    requires Grows(m, after) && ScannedRow(m, since, row)
    ensures ScannedRow(after, since, row)
  {
    StoodForStays(m.history, after.history, row.0, row.1.version, FieldsOf(row.1));
    assert after.writes[..since] == m.writes[..since];
  }

  lemma CycleStays(m: Machine, after: Machine, c: Cycle)
    requires Grows(m, after) && CycleOk(m, c)
    ensures CycleOk(after, c)
  {
    forall i | 0 <= i < |c.rows|
      ensures ScannedRow(after, c.since, c.rows[i])
    {
      ScannedStays(m, after, c.since, c.rows[i]);
    }
  }

  lemma CallsStay(m: Machine, after: Machine)
    requires CallsInv(m) && Grows(m, after)
    requires forall call :: call in after.requests ==>
               (call in m.requests && after.requests[call] == m.requests[call]) || ReadOk(after, after.requests[call])
    ensures CallsInv(after)
  {
    forall call | call in after.requests
      ensures ReadOk(after, after.requests[call])
    {
      if call in m.requests && after.requests[call] == m.requests[call] {
        ReadStays(m, after, m.requests[call]);
      }
    }
  }

  lemma CyclesStay(m: Machine, after: Machine)
    requires CyclesInv(m) && Grows(m, after)
    requires forall cycle :: cycle in after.cycles ==>
               (cycle in m.cycles && after.cycles[cycle] == m.cycles[cycle]) || CycleOk(after, after.cycles[cycle])
    ensures CyclesInv(after)
  {
    forall cycle | cycle in after.cycles
      ensures CycleOk(after, after.cycles[cycle])
    {
      if cycle in m.cycles && after.cycles[cycle] == m.cycles[cycle] {
        CycleStays(m, after, m.cycles[cycle]);
      }
    }
  }

  lemma SeenStays(m: Machine, after: Machine)
    requires SeenInv(m) && Extends(m.history, after.history)
    requires forall r :: r in after.seen ==> r in m.seen || SeenOk(after, r)
    ensures SeenInv(after)
  {
    forall r | r in after.seen
      ensures SeenOk(after, r)
    {
      if r in m.seen {
        StoodForStays(m.history, after.history, r.0, r.1, r.2);
      }
    }
  }

  /** Calls, cycles and responses that are all as before. */
  lemma FlowStays(m: Machine, after: Machine)
    requires CallsInv(m) && CyclesInv(m) && SeenInv(m) && Grows(m, after)
    requires after.requests == m.requests && after.cycles == m.cycles && after.seen == m.seen
    ensures CallsInv(after) && CyclesInv(after) && SeenInv(after)
  {
    CallsStay(m, after);
    CyclesStay(m, after);
    SeenStays(m, after);
  }

  // ----- table changes -----

  /** Rows keep version and columns; deletion marks may change, assignees may be cleared. */
  ghost predicate SameVersions(before: Tickets, after: Tickets) {
    after.Keys == before.Keys && forall id :: id in before ==> Final(before[id], after[id])
  }

  lemma QuietTables(m: Machine, after: Machine)
    requires TablesInv(m) && SameVersions(m.tickets, after.tickets) && EdgesInv(after)
    requires after.nextTicket == m.nextTicket && after.history == m.history && after.writes == m.writes
    ensures TablesInv(after) && Grows(m, after)
  {
    forall id | id in after.tickets
      ensures RowHistory(after.history, id, after.tickets[id])
    {
      assert RowHistory(m.history, id, m.tickets[id]);
    }
  }

  /** A step that changes nothing but deletion marks, assignees, users, edges and the log. */
  lemma QuietStep(m: Machine, after: Machine)
    requires Recorded(m) && SameVersions(m.tickets, after.tickets) && EdgesInv(after)
    requires after.nextTicket == m.nextTicket && after.history == m.history && after.writes == m.writes
    requires after.requests == m.requests && after.cycles == m.cycles && after.seen == m.seen
    ensures Recorded(after) && Grows(m, after)
  {
    QuietTables(m, after);
    FlowStays(m, after);
  }

  lemma InsertHistory(m: Machine, row: Ticket)
    requires HistoryInv(m) && row.version == 1
    ensures HistoryInv(Inserted(m, row)) && Grows(m, Inserted(m, row))
    ensures StoodFor(Inserted(m, row).history, m.nextTicket, 1, FieldsOf(row))
  {
    var after, id := Inserted(m, row), m.nextTicket;
    assert forall t :: t in m.history ==> t != id && Versions(after.history, t) == Versions(m.history, t);
    forall t | t in after.tickets
      ensures 0 < t < after.nextTicket && RowHistory(after.history, t, after.tickets[t])
    {
      if t != id {
        assert RowHistory(m.history, t, m.tickets[t]);
      }
    }
  }

  lemma {:induction false} WritesOkExtends(h: History, longer: History, writes: seq<Write>)
    requires Extends(h, longer) && WritesOk(h, writes)
    ensures WritesOk(longer, writes)
  {
    if writes != [] {
      WritesOkExtends(h, longer, writes[..|writes| - 1]);
      var w := writes[|writes| - 1];
      assert Versions(h, w.id) <= Versions(longer, w.id);
    }
  }

  lemma InsertTables(m: Machine, row: Ticket)
    requires TablesInv(m) && row.version == 1
    ensures TablesInv(Inserted(m, row)) && Grows(m, Inserted(m, row))
  {
    InsertHistory(m, row);
    assert WritesTo(m.writes, m.nextTicket) == 0;
    WritesOkExtends(m.history, Inserted(m, row).history, m.writes);
  }

  /** A write of the next version, and what it does to the columns of the present one. */
  ghost predicate NextVersion(m: Machine, w: Write, row: Ticket) {
    && w.id in m.tickets && w.from == m.tickets[w.id].version && row.version == w.from + 1
    && FieldsOf(row) == Effect(w, FieldsOf(m.tickets[w.id]))
  }

  lemma WrittenHistory(m: Machine, w: Write, row: Ticket)
    requires HistoryInv(m) && NextVersion(m, w, row)
    ensures HistoryInv(Written(m, w, row)) && Grows(m, Written(m, w, row))
    ensures Explained(Written(m, w, row).history, w)
    ensures StoodFor(Written(m, w, row).history, w.id, row.version, FieldsOf(row))
  {
    var after := Written(m, w, row);
    assert RowHistory(m.history, w.id, m.tickets[w.id]);
    forall id | id in after.tickets
      ensures RowHistory(after.history, id, after.tickets[id])
    {
      assert RowHistory(m.history, id, m.tickets[id]);
    }
  }

  lemma WritesSnoc(h: History, writes: seq<Write>, w: Write)
    requires WritesOk(h, writes) && w.from == 1 + WritesTo(writes, w.id) && Explained(h, w)
    ensures WritesOk(h, writes + [w])
    ensures forall id :: WritesTo(writes + [w], id) == WritesTo(writes, id) + if w.id == id then 1 else 0
  {
    assert (writes + [w])[..|writes|] == writes;
  }

  lemma WrittenTables(m: Machine, w: Write, row: Ticket)
    requires TablesInv(m) && NextVersion(m, w, row)
    ensures TablesInv(Written(m, w, row)) && Grows(m, Written(m, w, row))
    ensures StoodFor(Written(m, w, row).history, w.id, row.version, FieldsOf(row))
  {
    var after := Written(m, w, row);
    WrittenHistory(m, w, row);
    WritesOkExtends(m.history, after.history, m.writes);
    WritesSnoc(after.history, m.writes, w);
  }

  /** A committed field write that moves the version by one. */
  lemma WrittenKeeps(m: Machine, w: Write, row: Ticket)
    requires Recorded(m) && NextVersion(m, w, row)
    ensures Recorded(Written(m, w, row)) && Grows(m, Written(m, w, row))
    ensures StoodFor(Written(m, w, row).history, w.id, row.version, FieldsOf(row))
  {
    WrittenTables(m, w, row);
    FlowStays(m, Written(m, w, row));
  }

  // ----- steps -----

  /** A changed or new call. */
  lemma CallStep(m: Machine, call: int, q: Request)
    requires Recorded(m) && ReadOk(m, q)
    ensures Recorded(m.(requests := m.requests[call := q]))
  {
    var after := m.(requests := m.requests[call := q]);
    CallsStay(m, after);
    CyclesStay(m, after);
    SeenStays(m, after);
  }

  /** A call that ends. */
  lemma EndStep(m: Machine, call: int, answer: Result<Ticket>)
    requires Recorded(m)
    ensures Recorded(End(m, call, answer)) && Grows(m, End(m, call, answer))
  {
    CallsStay(m, End(m, call, answer));
    CyclesStay(m, End(m, call, answer));
    SeenStays(m, End(m, call, answer));
  }

  lemma CycleStep(m: Machine, cycle: int, c: Cycle)
    requires Recorded(m) && CycleOk(m, c)
    ensures Recorded(m.(cycles := m.cycles[cycle := c]))
  {
    var after := m.(cycles := m.cycles[cycle := c]);
    CallsStay(m, after);
    CyclesStay(m, after);
    SeenStays(m, after);
  }

  lemma ShowStep(m: Machine, id: int, row: Ticket)
    requires Recorded(m) && StoodFor(m.history, id, row.version, FieldsOf(row))
    ensures Recorded(Showing(m, id, row))
  {
    var after := Showing(m, id, row);
    CallsStay(m, after);
    CyclesStay(m, after);
    SeenStays(m, after);
  }

  lemma LogStep(m: Machine, e: Entry)
    requires Recorded(m)
    ensures Recorded(m.(log := m.log + [e]))
  {
    FlowStays(m, m.(log := m.log + [e]));
  }

  lemma CreateStep(m: Machine, dto: CreateDto)
    requires Recorded(m)
    ensures Recorded(Next(m, Create(dto))) && Grows(m, Next(m, Create(dto)))
  {
    var row := NewRow(dto);
    InsertTables(m, row);
    FlowStays(m, Inserted(m, row));
    InsertHistory(m, row);
    ShowStep(Inserted(m, row), m.nextTicket, row);
  }

  /** The guarded UPDATE always moves the present version, and the present columns, by one patch. */
  lemma CommitIsNext(m: Machine, q: Request)
    requires CommittedRow(m, q).Some?
    ensures NextVersion(m, WriteOf(q), CommittedRow(m, q).value)
  {
  }

  lemma CommitStep(m: Machine, call: int)
    requires Recorded(m) && call in m.requests && m.requests[call].phase.AwaitWrite?
    requires CommittedRow(m, m.requests[call]).Some?
    ensures Recorded(Advance(m, call)) && Grows(m, Advance(m, call))
  {
    var q := m.requests[call];
    var row := CommittedRow(m, q).value;
    CommitIsNext(m, q);
    WrittenKeeps(m, WriteOf(q), row);
    CallStep(Written(m, WriteOf(q), row), call, q.(phase := AwaitAudit(q.phase.before, row)));
  }

  lemma AuditStep(m: Machine, call: int)
    requires Recorded(m) && call in m.requests && m.requests[call].phase.AwaitAudit?
    ensures Recorded(Advance(m, call)) && Grows(m, Advance(m, call))
  {
    var q := m.requests[call];
    var e := Operations.UpdatedEntry(q.id, q.phase.before, q.phase.row, q.who);
    assert ReadOk(m, q);
    var ended := End(m, call, Ok(q.phase.row));
    EndStep(m, call, Ok(q.phase.row));
    LogStep(ended, e);
    ShowStep(ended.(log := m.log + [e]), q.id, q.phase.row);
  }

  lemma WaitStep(m: Machine, call: int)
    requires Recorded(m) && call in m.requests && Refusal(m, m.requests[call]).None?
    requires !m.requests[call].phase.AwaitWrite? && !m.requests[call].phase.AwaitAudit?
    ensures Recorded(Advance(m, call)) && Grows(m, Advance(m, call))
  {
    var q := m.requests[call];
    assert ReadOk(m, q);
    if q.phase.Submitted? {
      assert RowHistory(m.history, q.id, m.tickets[q.id]);
    }
    CallStep(m, call, q.(phase := NextPhase(m, q)));
  }

  lemma AdvanceStep(m: Machine, call: int)
    requires Recorded(m) && call in m.requests
    ensures Recorded(Advance(m, call)) && Grows(m, Advance(m, call))
  {
    var q := m.requests[call];
    if Refusal(m, q).Some? {
      EndStep(m, call, Err(Refusal(m, q).value));
    } else if q.phase.AwaitAudit? {
      AuditStep(m, call);
    } else if q.phase.AwaitWrite? {
      CommitStep(m, call);
    } else {
      WaitStep(m, call);
    }
  }

  lemma ScanStep(m: Machine, cycle: int, now: int)
    requires Recorded(m)
    ensures Recorded(Next(m, Scan(cycle, now)))
  {
    if cycle !in m.cycles {
      var rows := OverdueRows(m.tickets, now, m.nextTicket);
      forall i | 0 <= i < |rows|
        ensures ScannedRow(m, |m.writes|, rows[i])
      {
        OverdueRowsMember(m.tickets, now, m.nextTicket, i);
        assert m.writes[..|m.writes|] == m.writes;
        assert RowHistory(m.history, rows[i].0, m.tickets[rows[i].0]);
      }
      CycleStep(m, cycle, Cycle(|m.writes|, rows, None));
    }
  }

  lemma EscalationWriteStep(m: Machine, cycle: int, c: Cycle)
    requires Recorded(m) && cycle in m.cycles && m.cycles[cycle] == c
    requires c.pending.None? && c.rows != [] && CycleWrite(m, c).Some?
    ensures Recorded(EscalateFirst(m, cycle)) && Grows(m, EscalateFirst(m, cycle))
  {
    var w := CycleWrite(m, c).value;
    var row, entry := EscalatedRow(m.tickets[w.id], w.change), Operations.EscalationEntry(w.id, c.rows[0].1, w.change);
    WrittenKeeps(m, w, row);
    assert CycleOk(Written(m, w, row), c);
    CycleStep(Written(m, w, row), cycle, Cycle(c.since, c.rows[1..], Some(entry)));
  }

  lemma EscalationStep(m: Machine, cycle: int)
    requires Recorded(m) && cycle in m.cycles
    ensures Recorded(EscalateFirst(m, cycle)) && Grows(m, EscalateFirst(m, cycle))
  {
    var c := m.cycles[cycle];
    assert CycleOk(m, c);
    if c.pending.Some? {
      LogStep(m, c.pending.value);
      CycleStep(m.(log := m.log + [c.pending.value]), cycle, c.(pending := None));
    } else if c.rows != [] {
      if CycleWrite(m, c).Some? {
        EscalationWriteStep(m, cycle, c);
      } else {
        CycleStep(m, cycle, c.(rows := c.rows[1..]));
      }
    }
  }

  /** Soft deletes and restores. */
  lemma MarkStep(m: Machine, e: Event)
    requires Recorded(m) && (e.Delete? || e.Undelete?)
    ensures Recorded(Next(m, e)) && Grows(m, Next(m, e))
  {
    QuietStep(m, Next(m, e));
  }

  lemma AddUserStep(m: Machine, user: int)
    requires Recorded(m)
    ensures Recorded(Next(m, AddUser(user))) && Grows(m, Next(m, AddUser(user)))
  {
    var after := Next(m, AddUser(user));
    assert after == m.(users := after.users, nextUser := after.nextUser);
    QuietStep(m, after);
  }

  lemma RemoveUserStep(m: Machine, user: int)
    requires Recorded(m)
    ensures Recorded(Next(m, RemoveUser(user))) && Grows(m, Next(m, RemoveUser(user)))
  {
    QuietStep(m, Next(m, RemoveUser(user)));
  }

  lemma EdgeStep(m: Machine, e: Event)
    requires Recorded(m) && (e.Link? || e.Unlink?)
    ensures Recorded(Next(m, e)) && Grows(m, Next(m, e))
  {
    var after := Next(m, e);
    assert after == m.(deps := after.deps);
    QuietStep(m, after);
  }

  lemma SubmitStep(m: Machine, e: Event)
    requires Recorded(m) && e.Submit?
    ensures Recorded(Next(m, e)) && Grows(m, Next(m, e))
  {
    if e.call !in m.requests {
      if e.patch == EMPTY_PATCH {
        FlowStays(m, Next(m, e));
      } else {
        CallStep(m, e.call, Request(e.id, e.patch, e.version, e.who, Submitted));
      }
    }
  }

  /** Every step keeps the record and forgets nothing. */
  lemma NextStep(m: Machine, e: Event)
    requires Recorded(m)
    ensures Recorded(Next(m, e)) && Grows(m, Next(m, e))
  {
    match e
    case Create(dto) => CreateStep(m, dto);
    case Submit(call, id, patch, version, who) => SubmitStep(m, e);
    case Proceed(call) =>
      if call in m.requests {
        AdvanceStep(m, call);
      }
    case Scan(cycle, now) => ScanStep(m, cycle, now);
    case EscalateNext(cycle) =>
      if cycle in m.cycles {
        EscalationStep(m, cycle);
      }
    case Respond(id) =>
      if id in m.tickets {
        assert RowHistory(m.history, id, m.tickets[id]);
        ShowStep(m, id, m.tickets[id]);
      }
    case Delete(_) => MarkStep(m, e);
    case Undelete(_) => MarkStep(m, e);
    case AddUser(user) => AddUserStep(m, user);
    case RemoveUser(user) => RemoveUserStep(m, user);
    case Link(_, _) => EdgeStep(m, e);
    case Unlink(_, _) => EdgeStep(m, e);
  }

  lemma EmptyRecorded()
    ensures Recorded(EMPTY)
  {
  }

  lemma {:induction false} RunRecorded(m: Machine, es: seq<Event>)
    requires Recorded(m)
    ensures Recorded(Run(m, es))
  {
    if es != [] {
      RunRecorded(m, es[..|es| - 1]);
      NextStep(Run(m, es[..|es| - 1]), es[|es| - 1]);
    }
  }

  // ----- no lost update -----

  lemma GrowsTrans(a: Machine, b: Machine, c: Machine)
    requires Grows(a, b) && Grows(b, c)
    ensures Grows(a, c)
  {
    forall id
      ensures Versions(a.history, id) <= Versions(c.history, id)
    {
      assert Versions(a.history, id) <= Versions(b.history, id);
      assert Versions(b.history, id) <= Versions(c.history, id);
    }
  }

  lemma {:induction false} RunGrows(m: Machine, es: seq<Event>, k: nat)
    requires Recorded(m) && k <= |es|
    ensures Grows(Run(m, es[..k]), Run(m, es))
  {
    if k == |es| {
      assert es[..k] == es;
    } else {
      var shorter := es[..|es| - 1];
      RunGrows(m, shorter, k);
      assert shorter[..k] == es[..k];
      RunRecorded(m, shorter);
      NextStep(Run(m, shorter), es[|es| - 1]);
      GrowsTrans(Run(m, es[..k]), Run(m, shorter), Run(m, es));
    }
  }

  /** No two writes start from the same version of a ticket; later writes start from later versions. */
  ghost predicate StrictlyOrdered(writes: seq<Write>) {
    forall i, j :: 0 <= i < j < |writes| && writes[i].id == writes[j].id ==> writes[i].from < writes[j].from
  }

  lemma {:induction false} WritesOrdered(h: History, writes: seq<Write>)
    requires WritesOk(h, writes)
    ensures StrictlyOrdered(writes)
    ensures forall i :: 0 <= i < |writes| ==> writes[i].from <= WritesTo(writes, writes[i].id)
  {
    if writes != [] {
      WritesOrdered(h, writes[..|writes| - 1]);
    }
  }

  /** Each client write turned the columns that responses had shown for its version into the patched ones. */
  ghost predicate AppliedToWhatWasSeen(m: Machine, writes: seq<Write>) {
    forall w, f :: w in writes && w.ClientWrite? && (w.id, w.from, f) in m.seen ==>
      StoodFor(m.history, w.id, w.from + 1, PatchedFields(f, w.patch))
  }

  lemma {:induction false} WritesApplied(m: Machine, writes: seq<Write>)
    requires SeenInv(m) && WritesOk(m.history, writes)
    ensures AppliedToWhatWasSeen(m, writes)
  {
    if writes != [] {
      WritesApplied(m, writes[..|writes| - 1]);
      var last := writes[|writes| - 1];
      assert writes == writes[..|writes| - 1] + [last];
      forall f | last.ClientWrite? && (last.id, last.from, f) in m.seen
        ensures StoodFor(m.history, last.id, last.from + 1, PatchedFields(f, last.patch))
      {
        assert SeenOk(m, (last.id, last.from, f));
      }
    }
  }

  /** The rows of an earlier state are what the later history says about their versions. */
  ghost predicate HistoryOf(h: History, tickets: Tickets) {
    forall id :: id in tickets ==> StoodFor(h, id, tickets[id].version, FieldsOf(tickets[id]))
  }

  /** The history of a run records the rows of each of its states. */
  lemma HistoryRecordsRows(es: seq<Event>, k: nat)
    requires k <= |es|
    ensures HistoryOf(Run(EMPTY, es).history, Run(EMPTY, es[..k]).tickets)
  {
    EmptyRecorded();
    RunRecorded(EMPTY, es[..k]);
    RunGrows(EMPTY, es, k);
    var earlier, m := Run(EMPTY, es[..k]), Run(EMPTY, es);
    forall id | id in earlier.tickets
      ensures StoodFor(m.history, id, earlier.tickets[id].version, FieldsOf(earlier.tickets[id]))
    {
      assert RowHistory(earlier.history, id, earlier.tickets[id]);
      StoodForStays(earlier.history, m.history, id, earlier.tickets[id].version, FieldsOf(earlier.tickets[id]));
    }
  }

  /** The columns a version stands for are all but type and project, which never change, the assignee, which a user
      deletion clears without a new version, the version itself and the deletion mark. */
  lemma FieldsAreColumns(t: Ticket, u: Ticket)
    ensures FieldsOf(t) == FieldsOf(u)
       <==> u == t.(kind := u.kind, project := u.project, assignee := u.assignee, version := u.version,
                    deleted := u.deleted)
  {
  }

  /** No lost update, over every interleaving and whatever versions clients send: a ticket's version
      counts its field writes, writes to it start from strictly increasing versions, every write turned
      the columns of its starting version into those of the next, and every client write is applied to
      exactly the columns its version was shown with. */
  lemma NoLostUpdate(es: seq<Event>)
    ensures var m := Run(EMPTY, es);
            && (forall id :: id in m.tickets ==> m.tickets[id].version == 1 + WritesTo(m.writes, id))
            && (forall id :: id in m.tickets ==> RowHistory(m.history, id, m.tickets[id]))
            && StrictlyOrdered(m.writes) && WritesOk(m.history, m.writes)
            && AppliedToWhatWasSeen(m, m.writes)
  {
    EmptyRecorded();
    RunRecorded(EMPTY, es);
    var m := Run(EMPTY, es);
    WritesOrdered(m.history, m.writes);
    WritesApplied(m, m.writes);
  }

  // ----- when an escalation lowers a priority -----

  ghost function Level(h: History, id: int, version: int): nat
    requires 1 <= version <= |Versions(h, id)|
  {
    PriorityRank(Versions(h, id)[version - 1].priority)
  }

  /** The last upward crossing of a level between two versions, the later one being above it. */
  lemma {:induction false} Crossing(h: History, id: int, a: int, b: int, level: nat) returns (v: int)
    requires 1 <= a <= b <= |Versions(h, id)|
    requires Level(h, id, a) <= level < Level(h, id, b)
    ensures a <= v < b && Level(h, id, v) <= level < Level(h, id, v + 1)
    ensures forall u :: v < u <= b ==> Level(h, id, u) > level
    decreases b - a
  {
    if Level(h, id, b - 1) <= level {
      v := b - 1;
    } else {
      v := Crossing(h, id, a, b - 1, level);
    }
  }

  lemma {:induction false} WriteFrom(h: History, writes: seq<Write>, id: int, v: int) returns (k: nat)
    requires WritesOk(h, writes) && 1 <= v <= WritesTo(writes, id)
    ensures k < |writes| && writes[k].id == id && writes[k].from == v
  {
    var last := |writes| - 1;
    if writes[last].id == id && writes[last].from == v {
      k := last;
    } else {
      k := WriteFrom(h, writes[..last], id, v);
    }
  }

  lemma {:induction false} WritesOkPrefix(h: History, writes: seq<Write>, n: nat)
    requires WritesOk(h, writes) && n <= |writes|
    ensures WritesOk(h, writes[..n])
  {
    if n < |writes| {
      WritesOkPrefix(h, writes[..|writes| - 1], n);
      assert writes[..|writes| - 1][..n] == writes[..n];
    } else {
      assert writes[..n] == writes;
    }
  }

  /** The k-th write was made after the scan, raised the ticket's priority above the level, and no later
      version is back at the level or below. */
  ghost predicate RaisedAbove(m: Machine, since: nat, k: nat, id: int, level: nat) {
    && since <= k < |m.writes| && m.writes[k].id == id
    && Explained(m.history, m.writes[k])
    && Level(m.history, id, m.writes[k].from) <= level
    && forall v :: m.writes[k].from < v <= |Versions(m.history, id)| ==> Level(m.history, id, v) > level
  }

  /** A write from a version not before the scanned one was made after the scan. */
  lemma AfterScan(m: Machine, since: nat, row: (int, Ticket), k: nat)
    requires Recorded(m) && ScannedRow(m, since, row) && k < |m.writes|
    requires m.writes[k].id == row.0 && m.writes[k].from >= row.1.version
    ensures since <= k
  {
    WritesOkPrefix(m.history, m.writes, since);
    WritesOrdered(m.history, m.writes[..since]);
    assert forall i :: 0 <= i < since ==> m.writes[..since][i] == m.writes[i];
  }

  lemma {:induction false} WritesExplained(h: History, writes: seq<Write>, k: nat)
    requires WritesOk(h, writes) && k < |writes|
    ensures Explained(h, writes[k])
  {
    if k < |writes| - 1 {
      WritesExplained(h, writes[..|writes| - 1], k);
    }
  }

  /** A ticket is now above a level it was not above when scanned exactly when some write since the scan
      raised it above the level for good. */
  lemma RaisedSinceScan(m: Machine, since: nat, row: (int, Ticket), level: nat)
    requires Recorded(m) && ScannedRow(m, since, row) && PriorityRank(row.1.priority) <= level
    ensures PriorityRank(m.tickets[row.0].priority) > level <==> exists k :: RaisedAbove(m, since, k, row.0, level)
  {
    var (id, scanned) := row;
    var t := m.tickets[id];
    assert RowHistory(m.history, id, t);
    assert Level(m.history, id, t.version) == PriorityRank(t.priority);
    if PriorityRank(t.priority) > level {
      var v := Crossing(m.history, id, scanned.version, t.version, level);
      var k := WriteFrom(m.history, m.writes, id, v);
      WritesExplained(m.history, m.writes, k);
      AfterScan(m, since, row, k);
      assert RaisedAbove(m, since, k, id, level);
    }
  }

  /** What the next write does to the priority, in terms of the row scanned and the present one. */
  lemma LowersIffAbove(m: Machine, cycle: int)
    requires cycle in m.cycles && m.cycles[cycle].pending.None? && m.cycles[cycle].rows != []
    requires m.cycles[cycle].rows[0].0 in m.tickets
    ensures var (id, scanned) := m.cycles[cycle].rows[0];
            PriorityRank(EscalateFirst(m, cycle).tickets[id].priority) < PriorityRank(m.tickets[id].priority)
            <==> Open(m.tickets, id) && scanned.priority != CRITICAL
                 && PriorityRank(m.tickets[id].priority) > PriorityRank(NextPriority(scanned.priority))
  {
  }

  /** In every interleaving, the next write of a cycle lowers a priority exactly when the ticket is still
      open, was not CRITICAL when scanned, and a write made since the scan has raised it, for good, above
      the level the scanned row is promoted to. */
  lemma EscalationLowersExactly(es: seq<Event>, cycle: int)
    requires cycle in Run(EMPTY, es).cycles
    requires Run(EMPTY, es).cycles[cycle].pending.None? && Run(EMPTY, es).cycles[cycle].rows != []
    ensures var m := Run(EMPTY, es);
            var c := m.cycles[cycle];
            var (id, scanned) := c.rows[0];
            && id in m.tickets
            && (PriorityRank(EscalateFirst(m, cycle).tickets[id].priority) < PriorityRank(m.tickets[id].priority)
                <==> Open(m.tickets, id) && scanned.priority != CRITICAL
                     && exists k :: RaisedAbove(m, c.since, k, id, PriorityRank(NextPriority(scanned.priority))))
  {
    EmptyRecorded();
    RunRecorded(EMPTY, es);
    var m := Run(EMPTY, es);
    var c := m.cycles[cycle];
    assert ScannedRow(m, c.since, c.rows[0]);
    RaisedSinceScan(m, c.since, c.rows[0], PriorityRank(NextPriority(c.rows[0].1.priority)));
    LowersIffAbove(m, cycle);
  }
}
