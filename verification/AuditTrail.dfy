/** Replaying the audit log: while no audit insert fails, the log alone determines the audited
    columns of every ticket made through create, and every recorded old value is the replayed one. */
module AuditTrail {
  import opened Schema
  import opened TicketTable
  import opened Diffing
  import opened Operations
  import opened EscalationLaws
  import opened System
  import Csv

  datatype View = View(title: string, status: Status, priority: Priority, isOverdue: bool)

  function ViewOf(t: Ticket): View {
    View(t.title, t.status, t.priority, t.isOverdue)
  }

  /** Unknown before a CREATE entry; Broken once an entry contradicts what was replayed before it. */
  datatype Replayed = Unknown | Known(view: View) | Broken

  predicate FromMatches(v: View, d: map<Field, Change>) {
    && (FTitle in d ==> d[FTitle].from == Text(Some(v.title)) && d[FTitle].to.Text? && d[FTitle].to.text.Some?)
    && (FStatus in d ==> d[FStatus].from == StatusValue(v.status) && d[FStatus].to.StatusValue?)
    && (FPriority in d ==> d[FPriority].from == PriorityValue(v.priority) && d[FPriority].to.PriorityValue?)
    && (FIsOverdue in d ==> d[FIsOverdue].from == Flag(v.isOverdue) && d[FIsOverdue].to.Flag?)
  }

  function Overwrite(v: View, d: map<Field, Change>): View
    requires FromMatches(v, d)
  {
    View(if FTitle in d then d[FTitle].to.text.value else v.title,
         if FStatus in d then d[FStatus].to.status else v.status,
         if FPriority in d then d[FPriority].to.priority else v.priority,
         if FIsOverdue in d then d[FIsOverdue].to.flag else v.isOverdue)
  }

  /** The effect of one entry on what is known about ticket id. */
  function Replay1(r: Replayed, e: Entry, id: int): Replayed {
    if e.entity != TICKET || e.entityId != id then r
    else if e.action == CREATE then
      if r.Unknown? && e.meta.TicketCreated?
      then Known(View(e.meta.title, e.meta.status, e.meta.priority, false))
      else Broken
    else if e.action == UPDATE then
      match r
      case Known(v) =>
        if e.meta.Diff? && FromMatches(v, e.meta.changes) then Known(Overwrite(v, e.meta.changes)) else Broken
      case _ => r
    else if e.action == PRIORITY_ESCALATED then
      match r
      case Known(v) =>
        if e.meta.Promotion? && e.meta.from == v.priority then Known(v.(priority := e.meta.to))
        else if e.meta.OverdueFlagged? && !v.isOverdue && v.priority == CRITICAL then Known(v.(isOverdue := true))
        else Broken
      case _ => r
    else r
  }

  function Replay(log: seq<Entry>, id: int): Replayed {
    if log == [] then Unknown
    else Replay1(Replay(log[..|log| - 1], id), log[|log| - 1], id)
  }

  lemma ReplayAppend(log: seq<Entry>, e: Entry, id: int)
    ensures Replay(log + [e], id) == Replay1(Replay(log, id), e, id)
  {
    assert (log + [e])[..|log|] == log;
  }

  ghost predicate Agrees(r: Replayed, tickets: Tickets, id: int) {
    r == Unknown || (id in tickets && r == Known(ViewOf(tickets[id])))
  }

  /** The log never contradicts the table. */
  ghost predicate Consistent(s: State) {
    s.outages == [] && forall id :: Agrees(Replay(s.log, id), s.tickets, id)
  }

  /** Rows keep their audited columns. */
  ghost predicate SameViews(a: Tickets, b: Tickets) {
    forall id :: id in a ==> id in b && ViewOf(b[id]) == ViewOf(a[id])
  }

  /** Entries about other things, with a table whose audited columns stay. */
  lemma OtherEntry(s: State, after: State, e: Entry)
    requires Consistent(s) && SameViews(s.tickets, after.tickets)
    requires after.outages == [] && (after.log == s.log || after.log == s.log + [e])
    requires e.entity != TICKET || e.action in {DELETE, RESTORE, AUTO_ASSIGN}
    ensures Consistent(after)
  {
    forall id
      ensures Agrees(Replay(after.log, id), after.tickets, id)
    {
      assert Agrees(Replay(s.log, id), s.tickets, id);
      ReplayAppend(s.log, e, id);
    }
  }

  /** An entry about ticket id that carries its audited columns from the old to the new row. */
  lemma TicketEntryKeeps(s: State, after: State, id: int, e: Entry)
    requires Consistent(s) && e.entity == TICKET && e.entityId == id
    requires after.outages == [] && after.log == s.log + [e]
    requires forall t :: t in s.tickets && t != id ==>
               t in after.tickets && ViewOf(after.tickets[t]) == ViewOf(s.tickets[t])
    requires Agrees(Replay1(Replay(s.log, id), e, id), after.tickets, id)
    ensures Consistent(after)
  {
    forall t
      ensures Agrees(Replay(after.log, t), after.tickets, t)
    {
      assert Agrees(Replay(s.log, t), s.tickets, t);
      ReplayAppend(s.log, e, t);
    }
  }

  lemma CreateKeeps(s: State, dto: CreateDto, who: int, pick: Option<int>)
    requires Consistent(s) && Numbered(s)
    ensures Consistent(CreateTicket(s, dto, who, pick).0)
  {
    if CreateTicket(s, dto, who, pick).1.Ok? {
      var id, row := s.nextTicket, NewRow(WithAssignee(dto, pick));
      var e := CreatedEntry(id, row, who);
      var s1 := Logged(InsertTicket(s, row), e);
      assert Agrees(Replay(s.log, id), s.tickets, id);
      TicketEntryKeeps(s, s1, id, e);
      var auto := AutoAssignee(dto, pick);
      if auto.Some? {
        var e2 := Entry(AUTO_ASSIGN, TICKET, id, None, SYSTEM_ACTOR, AutoAssigned(auto.value));
        OtherEntry(s1, Logged(s1, e2), e2);
      }
    }
  }

  /** The recorded difference turns the old audited columns into the new ones. */
  lemma DiffCarriesView(before: Ticket, after: Ticket)
    ensures var d := DiffOf(before, after, FieldSet(TICKET_FIELDS));
            FromMatches(ViewOf(before), d) && Overwrite(ViewOf(before), d) == ViewOf(after)
  {
    var fields := FieldSet(TICKET_FIELDS);
    assert TICKET_FIELDS[0] == FTitle && TICKET_FIELDS[2] == FStatus;
    assert TICKET_FIELDS[3] == FPriority && TICKET_FIELDS[6] == FIsOverdue;
    DiffReproduces(before, after, fields, FTitle);
    DiffReproduces(before, after, fields, FStatus);
    DiffReproduces(before, after, fields, FPriority);
    DiffReproduces(before, after, fields, FIsOverdue);
  }

  lemma PatchKeeps(s: State, id: int, dto: UpdateDto, who: int)
    requires Consistent(s)
    ensures Consistent(PatchTicket(s, id, dto, who).0)
  {
    if PatchError(s, id, dto).None? {
      var before := s.tickets[id];
      var after := Patched(before, dto.patch, dto.patch.priority.Some?);
      DiffCarriesView(before, after);
      assert Agrees(Replay(s.log, id), s.tickets, id);
      TicketEntryKeeps(s, PatchTicket(s, id, dto, who).0, id, UpdatedEntry(id, before, after, who));
    }
  }

  lemma EscalateRowKeeps(s: State, id: int)
    requires Consistent(s) && id in s.tickets
    ensures Consistent(EscalateRow(s, (id, s.tickets[id])))
  {
    var t := s.tickets[id];
    if Open(s.tickets, id) && Decision(t).Some? {
      var change := Decision(t).value;
      assert Agrees(Replay(s.log, id), s.tickets, id);
      TicketEntryKeeps(s, EscalateRow(s, (id, t)), id, EscalationEntry(id, t, change));
    }
  }

  lemma {:induction false} EscalateKeeps(s: State, now: int, n: nat)
    requires Consistent(s)
    ensures Consistent(EscalateRows(s, OverdueRows(s.tickets, now, n)).0)
  {
    if n > 0 {
      EscalateKeeps(s, now, n - 1);
      var id := n - 1;
      if id in s.tickets && Overdue(s.tickets[id], now) {
        LastRow(s, now, id);
        EscalateRowKeeps(EscalateRows(s, OverdueRows(s.tickets, now, id)).0, id);
      }
    }
  }

  /** The last row of the scan is handled on the row it was scanned from. */
  lemma LastRow(s: State, now: int, id: nat)
    requires id in s.tickets && Overdue(s.tickets[id], now)
    ensures var mid := EscalateRows(s, OverdueRows(s.tickets, now, id)).0;
            && id in mid.tickets && mid.tickets[id] == s.tickets[id]
            && EscalateRows(s, OverdueRows(s.tickets, now, id + 1)).0 == EscalateRow(mid, (id, mid.tickets[id]))
  {
    EscalatePrefix(s, now, id);
    var rows := OverdueRows(s.tickets, now, id + 1);
    assert rows[..|rows| - 1] == OverdueRows(s.tickets, now, id);
  }

  lemma ImportKeeps(s: State, op: Op)
    requires op.ImportOp? && Consistent(s) && TicketInv(s)
    ensures Consistent(Step(s, op))
  {
    if op.project in s.projects && op.records.Some? {
      ImportInv(s, op.js, op.records.value, op.project);
      var r := ImportRows(s, op.js, op.records.value, op.project);
      var meta := CsvImported(|r.created|, |r.errors|);
      OtherEntry(s, Step(s, op), Entry(CREATE, PROJECT, op.project, Some(op.who), USER_ACTOR, meta));
    }
  }

  /** All operations that write at most one entry, and none that replay looks at. */
  lemma QuietKeeps(s: State, op: Op)
    requires Consistent(s)
    requires op.DeleteOp? || op.RestoreOp? || op.AddDependencyOp? || op.RemoveDependencyOp? || op.ProjectOp?
    ensures Consistent(Step(s, op))
  {
    var after := Step(s, op);
    if |after.log| > |s.log| {
      OtherEntry(s, after, after.log[|s.log|]);
    }
  }

  lemma UserKeeps(s: State, op: Op)
    requires Consistent(s) && (op.CreateUserOp? || op.UpdateUserOp? || op.DeleteUserOp?)
    ensures Consistent(Step(s, op))
  {
    var after := Step(s, op);
    if |after.log| > |s.log| {
      OtherEntry(s, after, after.log[|s.log|]);
    }
  }

  lemma CommentKeeps(s: State, op: Op)
    requires Consistent(s) && (op.CreateCommentOp? || op.EditCommentOp? || op.DeleteCommentOp?)
    ensures Consistent(Step(s, op))
  {
    var after := Step(s, op);
    if |after.log| > |s.log| {
      OtherEntry(s, after, after.log[|s.log|]);
    }
  }

  lemma StepKeeps(s: State, op: Op)
    requires TicketInv(s) && Consistent(s)
    ensures Consistent(Step(s, op))
  {
    match op
    case CreateTicketOp(dto, who, pick) => CreateKeeps(s, dto, who, pick);
    case ImportOp(_, _, _, _) => ImportKeeps(s, op);
    case PatchOp(id, dto, who) => PatchKeeps(s, id, dto, who);
    case EscalateOp(now) => EscalateKeeps(s, now, s.nextTicket);
    case DeleteOp(_, _) => QuietKeeps(s, op);
    case RestoreOp(_, _) => QuietKeeps(s, op);
    case AddDependencyOp(_, _, _) => QuietKeeps(s, op);
    case RemoveDependencyOp(_, _, _) => QuietKeeps(s, op);
    case ProjectOp(_, _, _) => QuietKeeps(s, op);
    case CreateUserOp(_, _) => UserKeeps(s, op);
    case UpdateUserOp(_, _, _, _) => UserKeeps(s, op);
    case DeleteUserOp(_, _, _) => UserKeeps(s, op);
    case CreateCommentOp(_, _, _, _, _, _) => CommentKeeps(s, op);
    case EditCommentOp(_, _, _, _, _, _) => CommentKeeps(s, op);
    case DeleteCommentOp(_, _, _) => CommentKeeps(s, op);
  }

  lemma {:induction false} RunKeeps(ops: seq<Op>)
    requires Legal(Start([]), ops)
    ensures Consistent(Run(Start([]), ops))
  {
    if ops != [] {
      RunKeeps(ops[..|ops| - 1]);
      StartInv([]);
      RunInv(Start([]), ops[..|ops| - 1]);
      StepKeeps(Run(Start([]), ops[..|ops| - 1]), ops[|ops| - 1]);
    }
  }

  predicate HasCreateEntry(log: seq<Entry>, id: int) {
    exists i :: 0 <= i < |log| && log[i].entity == TICKET && log[i].action == CREATE && log[i].entityId == id
  }

  lemma {:induction false} CreateEntryMakesKnown(log: seq<Entry>, id: int)
    requires HasCreateEntry(log, id)
    ensures Replay(log, id) != Unknown
  {
    var shorter, last := log[..|log| - 1], log[|log| - 1];
    if !(last.entity == TICKET && last.action == CREATE && last.entityId == id) {
      var i :| 0 <= i < |log| && log[i].entity == TICKET && log[i].action == CREATE && log[i].entityId == id;
      assert shorter[i] == log[i];
      CreateEntryMakesKnown(shorter, id);
    }
  }

  /** In every serial run without audit outages, replaying the log of a ticket that has a CREATE entry
      meets no contradiction and yields its current title, status, priority and overdue flag. */
  lemma ReplayYieldsCurrent(ops: seq<Op>, id: int)
    requires Legal(Start([]), ops) && HasCreateEntry(Run(Start([]), ops).log, id)
    ensures var s := Run(Start([]), ops);
            id in s.tickets && Replay(s.log, id) == Known(ViewOf(s.tickets[id]))
  {
    RunKeeps(ops);
    var s := Run(Start([]), ops);
    CreateEntryMakesKnown(s.log, id);
    assert Agrees(Replay(s.log, id), s.tickets, id);
  }

  // ----- the log only grows, so a created ticket keeps its CREATE entry -----

  lemma {:induction false} EscalateRowsLog(s: State, rows: seq<(int, Ticket)>)
    ensures s.log <= EscalateRows(s, rows).0.log
  {
    if rows != [] {
      EscalateRowsLog(s, rows[..|rows| - 1]);
    }
  }

  lemma InsertCheckedLog(s: State, checked: Csv.RowResult)
    ensures InsertChecked(s, checked).0.log == s.log
  {
  }

  lemma {:induction false} ImportRowsLog(s: State, js: Csv.Runtime, records: seq<Csv.Record>, project: int)
    ensures ImportRows(s, js, records, project).state.log == s.log
  {
    if records != [] {
      var n := |records| - 1;
      ImportRowsLog(s, js, records[..n], project);
      var mid := ImportRows(s, js, records[..n], project).state;
      InsertCheckedLog(mid, CheckRow(mid.users, js, records[n], project));
    }
  }

  lemma BatchStepLog(s: State, op: Op)
    requires op.EscalateOp? || op.ImportOp?
    ensures s.log <= Step(s, op).log
  {
    if op.EscalateOp? {
      EscalateRowsLog(s, OverdueRows(s.tickets, op.now, s.nextTicket));
    } else if op.records.Some? {
      ImportRowsLog(s, op.js, op.records.value, op.project);
    }
  }

  lemma TicketStepLog(s: State, op: Op)
    requires op.CreateTicketOp? || op.PatchOp? || op.DeleteOp? || op.RestoreOp?
    ensures s.log <= Step(s, op).log
  {
  }

  lemma StepLog(s: State, op: Op)
    ensures s.log <= Step(s, op).log
  {
    if op.EscalateOp? || op.ImportOp? {
      BatchStepLog(s, op);
    } else if op.CreateTicketOp? || op.PatchOp? || op.DeleteOp? || op.RestoreOp? {
      TicketStepLog(s, op);
    }
  }

  lemma {:induction false} RunLog(s: State, ops: seq<Op>, k: nat)
    requires k <= |ops|
    ensures Run(s, ops[..k]).log <= Run(s, ops).log
  {
    if k < |ops| {
      RunLog(s, ops[..|ops| - 1], k);
      assert ops[..|ops| - 1][..k] == ops[..k];
      StepLog(Run(s, ops[..|ops| - 1]), ops[|ops| - 1]);
    } else {
      assert ops[..k] == ops;
    }
  }

  lemma RunNext(s: State, ops: seq<Op>, k: nat)
    requires k < |ops|
    ensures Run(s, ops[..k + 1]) == Step(Run(s, ops[..k]), ops[k])
  {
    assert ops[..k + 1][..k] == ops[..k];
  }

  /** A create in the middle of a run leaves its CREATE entry in the final log. */
  lemma CreateEntryStays(s: State, ops: seq<Op>, k: nat)
    requires k < |ops| && ops[k].CreateTicketOp?
    requires var mid := Run(s, ops[..k]);
             mid.outages == [] && CreateTicket(mid, ops[k].dto, ops[k].who, ops[k].pick).1.Ok?
    ensures HasCreateEntry(Run(s, ops).log, Run(s, ops[..k]).nextTicket)
  {
    var mid := Run(s, ops[..k]);
    RunNext(s, ops, k);
    RunLog(s, ops, k + 1);
    CreateLogsEntry(mid, ops[k]);
    var i := |mid.log|;
    assert Run(s, ops[..k + 1]).log[i] == Run(s, ops).log[i];
  }

  /** The ticket that the k-th operation of a run creates is replayed correctly at its end. */
  lemma CreatedTicketIsReplayed(ops: seq<Op>, k: nat)
    requires Legal(Start([]), ops) && k < |ops| && ops[k].CreateTicketOp?
    requires CreateTicket(Run(Start([]), ops[..k]), ops[k].dto, ops[k].who, ops[k].pick).1.Ok?
    ensures var id, s := Run(Start([]), ops[..k]).nextTicket, Run(Start([]), ops);
            id in s.tickets && Replay(s.log, id) == Known(ViewOf(s.tickets[id]))
  {
    LegalPrefix(Start([]), ops, k);
    RunKeeps(ops[..k]);
    CreateEntryStays(Start([]), ops, k);
    ReplayYieldsCurrent(ops, Run(Start([]), ops[..k]).nextTicket);
  }

  lemma CreateLogsEntry(s: State, op: Op)
    requires op.CreateTicketOp? && s.outages == [] && CreateTicket(s, op.dto, op.who, op.pick).1.Ok?
    ensures var after := Step(s, op);
            |after.log| > |s.log| && after.log[|s.log|].entity == TICKET && after.log[|s.log|].action == CREATE
            && after.log[|s.log|].entityId == s.nextTicket
  {
  }

  lemma {:induction false} LegalPrefix(s: State, ops: seq<Op>, k: nat)
    requires Legal(s, ops) && k <= |ops|
    ensures Legal(s, ops[..k])
  {
    if k < |ops| {
      LegalPrefix(s, ops[..|ops| - 1], k);
      assert ops[..|ops| - 1][..k] == ops[..k];
    } else {
      assert ops[..k] == ops;
    }
  }
}
