/** Under the version rule, the UPDATE entries of the audit log are exactly true: the row a call read is,
    in every column its version stands for, the row its UPDATE hit. */
module TruthfulAudit {
  import opened Schema
  import opened Diffing
  import opened Interleaving
  import opened VersionHistory
  import opened TerminalState
  import Operations

  /** The value a column had in a version; the assignee is not among the versioned columns. */
  function ColumnOf(c: Fields, f: Field): FieldValue
    requires f != FAssignee
  {
    match f
    case FTitle => Text(Some(c.title))
    case FDescription => Text(c.description)
    case FStatus => StatusValue(c.status)
    case FPriority => PriorityValue(c.priority)
    case FDueDate => Time(c.dueDate)
    case FIsOverdue => Flag(c.isOverdue)
  }

  /** The changes record how version v became version v + 1: from and to are the values of these
      versions, and what is not recorded did not change. */
  ghost predicate Tells(h: History, id: int, v: int, changes: map<Field, Change>) {
    1 <= v < |Versions(h, id)| &&
    forall f :: f != FAssignee ==>
      var earlier, later := ColumnOf(Versions(h, id)[v - 1], f), ColumnOf(Versions(h, id)[v], f);
      if f in changes then changes[f] == Change(earlier, later) else earlier == later
  }

  ghost predicate Truthful(h: History, e: Entry) {
    e.meta.Diff? ==> exists v :: Tells(h, e.entityId, v, e.meta.changes)
  }

  ghost predicate LogTruthful(m: Machine) {
    forall i :: 0 <= i < |m.log| ==> Truthful(m.history, m.log[i])
  }

  /** The client's version is at most the version read, which is at most the present one; after the write,
      the row read is the version before the row written. */
  ghost predicate Squeezed(m: Machine, q: Request) {
    match q.phase
    case Submitted => q.version <= if q.id in m.tickets then m.tickets[q.id].version else 1
    case AwaitAudit(before, row) => StoodFor(m.history, q.id, row.version - 1, FieldsOf(before))
    case _ => q.version <= q.phase.before.version
  }

  ghost predicate AllSqueezed(m: Machine) {
    forall call :: call in m.requests ==> Squeezed(m, m.requests[call])
  }

  lemma SqueezedStays(m: Machine, after: Machine, q: Request)
    requires Squeezed(m, q) && Grows(m, after) && HistoryInv(after)
    ensures Squeezed(after, q)
  {
    if q.phase.AwaitAudit? {
      StoodForStays(m.history, after.history, q.id, q.phase.row.version - 1, FieldsOf(q.phase.before));
    } else if q.phase.Submitted? && q.id in after.tickets {
      assert RowHistory(after.history, q.id, after.tickets[q.id]);
    }
  }

  /** If the calls a step touches are squeezed after it, all are. */
  lemma AllStaySqueezed(m: Machine, e: Event)
    requires AllSqueezed(m) && Grows(m, Next(m, e)) && HistoryInv(Next(m, e))
    requires e.Submit? ==> Squeezed(Next(m, e), Request(e.id, e.patch, e.version, e.who, Submitted))
    requires e.Proceed? && e.call in m.requests && e.call in Next(m, e).requests ==>
               Squeezed(Next(m, e), Next(m, e).requests[e.call])
    ensures AllSqueezed(Next(m, e))
  {
    var after := Next(m, e);
    forall call | call in after.requests
      ensures Squeezed(after, after.requests[call])
    {
      NextRequests(m, e, call);
      if call in m.requests && after.requests[call] == m.requests[call] {
        SqueezedStays(m, after, m.requests[call]);
      }
    }
  }

  /** The squeeze at the write. */
  lemma CommitSqueezed(m: Machine, call: int)
    requires Recorded(m) && AllSqueezed(m) && call in m.requests && m.requests[call].phase.AwaitWrite?
    requires CommittedRow(m, m.requests[call]).Some?
    ensures call in Advance(m, call).requests && Squeezed(Advance(m, call), Advance(m, call).requests[call])
  {
    var q := m.requests[call];
    assert ReadOk(m, q) && Squeezed(m, q);
    Squeeze(m, q);
    AdvanceStep(m, call);
    StoodForStays(m.history, Advance(m, call).history, q.id, q.phase.before.version, FieldsOf(q.phase.before));
  }

  /** Until the write the version sent does not change, and the row read is the present one. */
  lemma WaitSqueezed(m: Machine, call: int)
    requires call in m.requests && Squeezed(m, m.requests[call]) && !m.requests[call].phase.AwaitWrite?
    ensures call in Advance(m, call).requests ==> Squeezed(Advance(m, call), Advance(m, call).requests[call])
  {
  }

  lemma AdvanceSqueezed(m: Machine, call: int)
    requires Recorded(m) && AllSqueezed(m) && call in m.requests
    ensures call in Advance(m, call).requests ==> Squeezed(Advance(m, call), Advance(m, call).requests[call])
  {
    assert Squeezed(m, m.requests[call]);
    if !m.requests[call].phase.AwaitWrite? {
      WaitSqueezed(m, call);
    } else if CommittedRow(m, m.requests[call]).Some? {
      CommitSqueezed(m, call);
    }
  }

  lemma NextSqueezed(m: Machine, e: Event)
    requires Recorded(m) && AllSqueezed(m) && Modest(m, e)
    ensures AllSqueezed(Next(m, e))
  {
    NextStep(m, e);
    if e.Proceed? && e.call in m.requests {
      AdvanceSqueezed(m, e.call);
    }
    AllStaySqueezed(m, e);
  }

  lemma TellsStays(h: History, longer: History, id: int, v: int, changes: map<Field, Change>)
    requires Extends(h, longer) && Tells(h, id, v, changes)
    ensures Tells(longer, id, v, changes)
  {
    assert Versions(h, id) <= Versions(longer, id);
  }

  lemma TruthfulStays(h: History, longer: History, e: Entry)
    requires Extends(h, longer) && Truthful(h, e)
    ensures Truthful(longer, e)
  {
    if e.meta.Diff? {
      var v :| Tells(h, e.entityId, v, e.meta.changes);
      TellsStays(h, longer, e.entityId, v, e.meta.changes);
    }
  }

  lemma LogStaysTruthful(m: Machine, after: Machine)
    requires LogTruthful(m) && Extends(m.history, after.history)
    requires m.log <= after.log && |after.log| <= |m.log| + 1
    requires |after.log| > |m.log| ==> Truthful(after.history, after.log[|m.log|])
    ensures LogTruthful(after)
  {
    forall i | 0 <= i < |after.log|
      ensures Truthful(after.history, after.log[i])
    {
      if i < |m.log| {
        TruthfulStays(m.history, after.history, m.log[i]);
      }
    }
  }

  /** The difference of two rows tells the step between the versions they stand for. */
  lemma DiffTells(h: History, id: int, before: Ticket, row: Ticket, who: int)
    requires StoodFor(h, id, row.version - 1, FieldsOf(before)) && StoodFor(h, id, row.version, FieldsOf(row))
    ensures Truthful(h, Operations.UpdatedEntry(id, before, row, who))
  {
    var fields := FieldSet(TICKET_FIELDS);
    var d := DiffOf(before, row, fields);
    forall f | f != FAssignee
      ensures ValueOf(before, f) == ColumnOf(FieldsOf(before), f) && ValueOf(row, f) == ColumnOf(FieldsOf(row), f)
      ensures f in fields
    {
      AllFieldsListed(f);
    }
    assert Tells(h, id, row.version - 1, d);
  }

  lemma AllFieldsListed(f: Field)
    ensures f in FieldSet(TICKET_FIELDS)
  {
    var i := match f
             case FTitle => 0
             case FDescription => 1
             case FStatus => 2
             case FPriority => 3
             case FAssignee => 4
             case FDueDate => 5
             case FIsOverdue => 6;
    assert TICKET_FIELDS[i] == f;
  }

  lemma AuditTruthful(m: Machine, call: int)
    requires Recorded(m) && AllSqueezed(m) && LogTruthful(m)
    requires call in m.requests && m.requests[call].phase.AwaitAudit?
    ensures LogTruthful(Advance(m, call))
  {
    var q := m.requests[call];
    assert ReadOk(m, q) && Squeezed(m, q);
    DiffTells(m.history, q.id, q.phase.before, q.phase.row, q.who);
    LogStaysTruthful(m, Advance(m, call));
  }

  /** A cycle only logs promotions and flags. */
  ghost predicate NoDiffPending(m: Machine) {
    forall cycle :: cycle in m.cycles && m.cycles[cycle].pending.Some? ==> !m.cycles[cycle].pending.value.meta.Diff?
  }

  lemma NextPending(m: Machine, e: Event)
    requires NoDiffPending(m)
    ensures NoDiffPending(Next(m, e))
  {
  }

  lemma NextTruthful(m: Machine, e: Event)
    requires Recorded(m) && AllSqueezed(m) && LogTruthful(m) && NoDiffPending(m)
    ensures LogTruthful(Next(m, e))
  {
    NextStep(m, e);
    NextLog(m, e);
    if e.Proceed? && e.call in m.requests && m.requests[e.call].phase.AwaitAudit? {
      AuditTruthful(m, e.call);
    } else {
      LogStaysTruthful(m, Next(m, e));
    }
  }

  lemma {:induction false} RunTruthful(es: seq<Event>)
    requires ModestRun(EMPTY, es)
    ensures var m := Run(EMPTY, es); Recorded(m) && AllSqueezed(m) && LogTruthful(m) && NoDiffPending(m)
  {
    if es == [] {
      EmptyRecorded();
    } else {
      var earlier, e := es[..|es| - 1], es[|es| - 1];
      RunTruthful(earlier);
      NextStep(Run(EMPTY, earlier), e);
      NextSqueezed(Run(EMPTY, earlier), e);
      NextTruthful(Run(EMPTY, earlier), e);
      NextPending(Run(EMPTY, earlier), e);
    }
  }

  /** In every interleaving of clients that follow the version rule, each UPDATE entry tells exactly how
      some version of its ticket became the next one. */
  lemma UpdateEntriesTellTheTruth(es: seq<Event>, i: nat)
    requires ModestRun(EMPTY, es) && i < |Run(EMPTY, es).log| && Run(EMPTY, es).log[i].meta.Diff?
    ensures var m := Run(EMPTY, es);
            exists v :: Tells(m.history, m.log[i].entityId, v, m.log[i].meta.changes)
  {
    RunTruthful(es);
    assert Truthful(Run(EMPTY, es).history, Run(EMPTY, es).log[i]);
  }

  // ----- exactly which calls can log an untruth -----

  /** The UPDATE of this call, made now, and its entry: the changes tell the step it makes. */
  ghost predicate TrueCommit(m: Machine, call: int) {
    call in m.requests && m.requests[call].phase.AwaitWrite? && CommittedRow(m, m.requests[call]).Some? ==>
      var q, row := m.requests[call], CommittedRow(m, m.requests[call]).value;
      Tells(Advance(m, call).history, q.id, q.version, DiffOf(q.phase.before, row, FieldSet(TICKET_FIELDS)))
  }

  /** The recorded columns are those of the row hit exactly when the row read has them. */
  lemma DiffTellsExactly(h: History, id: int, version: int, before: Ticket, hit: Ticket, row: Ticket)
    requires StoodFor(h, id, version, FieldsOf(hit)) && StoodFor(h, id, version + 1, FieldsOf(row))
    ensures Tells(h, id, version, DiffOf(before, row, FieldSet(TICKET_FIELDS))) <==> FieldsOf(before) == FieldsOf(hit)
  {
    var fields := FieldSet(TICKET_FIELDS);
    var d := DiffOf(before, row, fields);
    forall f | f != FAssignee
      ensures f in fields && (f in d <==> Differs(before, row, f))
      ensures ValueOf(before, f) == ColumnOf(FieldsOf(before), f) && ValueOf(row, f) == ColumnOf(FieldsOf(row), f)
    {
      AllFieldsListed(f);
    }
    if Tells(h, id, version, d) {
      forall f | f != FAssignee
        ensures ColumnOf(FieldsOf(before), f) == ColumnOf(FieldsOf(hit), f)
      {
        assert ColumnOf(Versions(h, id)[version - 1], f) == ColumnOf(FieldsOf(hit), f);
      }
      SameColumns(FieldsOf(before), FieldsOf(hit));
    }
  }

  lemma SameColumns(a: Fields, b: Fields)
    requires forall f :: f != FAssignee ==> ColumnOf(a, f) == ColumnOf(b, f)
    ensures a == b
  {
    assert ColumnOf(a, FTitle) == ColumnOf(b, FTitle) && ColumnOf(a, FDescription) == ColumnOf(b, FDescription);
    assert ColumnOf(a, FStatus) == ColumnOf(b, FStatus) && ColumnOf(a, FPriority) == ColumnOf(b, FPriority);
    assert ColumnOf(a, FDueDate) == ColumnOf(b, FDueDate) && ColumnOf(a, FIsOverdue) == ColumnOf(b, FIsOverdue);
  }

  lemma TrueCommitExactly(m: Machine, call: int)
    requires Recorded(m) && call in m.requests && m.requests[call].phase.AwaitWrite?
    requires CommittedRow(m, m.requests[call]).Some?
    ensures TrueCommit(m, call) <==> FieldsOf(m.requests[call].phase.before) == FieldsOf(m.tickets[m.requests[call].id])
  {
    var q, row := m.requests[call], CommittedRow(m, m.requests[call]).value;
    CommitIsNext(m, q);
    WrittenKeeps(m, WriteOf(q), row);
    var after := Written(m, WriteOf(q), row);
    assert RowHistory(m.history, q.id, m.tickets[q.id]);
    StoodForStays(m.history, after.history, q.id, q.version, FieldsOf(m.tickets[q.id]));
    DiffTellsExactly(after.history, q.id, q.version, q.phase.before, m.tickets[q.id], row);
    assert Advance(m, call).history == after.history;
  }

  /** The version of a call that has read its row can still come up with other columns, or has. */
  predicate Drifted(t: Ticket, version: int, before: Ticket) {
    (t.version < version && t.status != DONE) || (t.version == version && FieldsOf(t) != FieldsOf(before))
  }

  /** A call in flight that sent a version later than the row it read, or will read, and may yet commit on a
      row with other columns. */
  predicate Misleading(m: Machine, q: Request) {
    Possible(m, q.patch.assignee) &&
    match q.phase
    case Submitted => Dangerous(m, q)
    case AwaitAudit(_, _) => false
    case _ =>
      var before := q.phase.before;
      q.id in m.tickets && q.version > before.version && Drifted(m.tickets[q.id], q.version, before)
  }

  ghost predicate NoneMisleading(m: Machine) {
    forall call :: call in m.requests ==> !Misleading(m, m.requests[call])
  }

  /** What breaks the life cycle also logs an untruth. */
  lemma DangerousMisleads(m: Machine, q: Request)
    requires ReadOk(m, q) && Dangerous(m, q)
    ensures Misleading(m, q)
  {
  }

  lemma NoneDangerousEither(m: Machine)
    requires CallsInv(m) && NoneMisleading(m)
    ensures NoneDangerous(m)
  {
    forall call | call in m.requests
      ensures !Dangerous(m, m.requests[call])
    {
      assert ReadOk(m, m.requests[call]);
      if Dangerous(m, m.requests[call]) {
        DangerousMisleads(m, m.requests[call]);
      }
    }
  }

  lemma TruthfulCallStays(m: Machine, after: Machine, q: Request)
    requires ReadOk(m, q) && !Misleading(m, q) && Later(m, after)
    ensures !Misleading(after, q)
  {
    if q.phase.Submitted? {
      HarmlessStays(m, after, q);
    } else if Possible(after, q.patch.assignee) && q.id in m.tickets {
      var t, u := m.tickets[q.id], after.tickets[q.id];
      assert t.version <= u.version;
      assert t.status == DONE ==> u.version == t.version && u.status == DONE;
    }
  }

  /** If the calls a step touches do not mislead after it, none does. */
  lemma NoneStaysMisleading(m: Machine, e: Event)
    requires CallsInv(m) && NoneMisleading(m) && Later(m, Next(m, e))
    requires e.Submit? ==> !Misleading(Next(m, e), Request(e.id, e.patch, e.version, e.who, Submitted))
    requires e.Proceed? && e.call in m.requests && e.call in Next(m, e).requests ==>
               !Misleading(Next(m, e), Next(m, e).requests[e.call])
    ensures NoneMisleading(Next(m, e))
  {
    var after := Next(m, e);
    forall call | call in after.requests
      ensures !Misleading(after, after.requests[call])
    {
      NextRequests(m, e, call);
      if call in m.requests && after.requests[call] == m.requests[call] {
        TruthfulCallStays(m, after, m.requests[call]);
      }
    }
  }

  lemma AdvanceTruthful(m: Machine, call: int)
    requires Recorded(m) && call in m.requests && !Misleading(m, m.requests[call]) && Later(m, Advance(m, call))
    ensures TrueCommit(m, call)
    ensures call in Advance(m, call).requests ==> !Misleading(Advance(m, call), Advance(m, call).requests[call])
  {
    var q := m.requests[call];
    assert ReadOk(m, q);
    TruthfulCallStays(m, Advance(m, call), q);
    if q.phase.AwaitWrite? && CommittedRow(m, q).Some? {
      if q.version <= q.phase.before.version {
        Squeeze(m, q);
      }
      TrueCommitExactly(m, call);
    }
  }

  /** Every commit of the run logs the truth. */
  ghost predicate TrueRun(m: Machine, es: seq<Event>) {
    es == [] ||
    (TrueRun(m, es[..|es| - 1])
     && (es[|es| - 1].Proceed? ==> TrueCommit(Run(m, es[..|es| - 1]), es[|es| - 1].call)))
  }

  lemma TruthfulStep(m: Machine, e: Event)
    requires Recorded(m) && NoneMisleading(m) && Modest(m, e)
    ensures NoneMisleading(Next(m, e)) && (e.Proceed? ==> TrueCommit(m, e.call))
  {
    NoneDangerousEither(m);
    NextIsLater(m, e);
    if e.Proceed? && e.call in m.requests {
      AdvanceTruthful(m, e.call);
    }
    NoneStaysMisleading(m, e);
  }

  lemma {:induction false} TruthfulRun(m: Machine, es: seq<Event>)
    requires Recorded(m) && NoneMisleading(m) && ModestRun(m, es)
    ensures Recorded(Run(m, es)) && NoneMisleading(Run(m, es)) && TrueRun(m, es)
  {
    if es != [] {
      var earlier := es[..|es| - 1];
      TruthfulRun(m, earlier);
      NextStep(Run(m, earlier), es[|es| - 1]);
      TruthfulStep(Run(m, earlier), es[|es| - 1]);
    }
  }

  /** Some honest continuation has a commit that logs an untruth. */
  ghost predicate CanMislead(m: Machine) {
    exists n, call :: Leads(m, n) && !TrueCommit(n, call)
  }

  lemma {:induction false} LeadsRecorded(m: Machine, n: Machine)
    requires Recorded(m) && Leads(m, n)
    ensures Recorded(n)
  {
    var es :| HonestRun(m, es) && Run(m, es) == n;
    RunRecorded(m, es);
  }

  /** A poised call at its UPDATE, on a row with other columns than it read. */
  lemma CommitsUntruth(m: Machine, call: int, q: Request)
    requires Recorded(m) && Poised(m, call, q) && q.phase.AwaitWrite?
    requires m.tickets[q.id].version == q.version && FieldsOf(m.tickets[q.id]) != FieldsOf(q.phase.before)
    ensures !TrueCommit(m, call)
  {
    TrueCommitExactly(m, call);
  }

  /** From its read on: reach the version with other columns, then commit. */
  lemma ReadCallMisleads(m: Machine, n: Machine, call: int, q: Request)
    requires Recorded(m) && Leads(m, n) && Poised(n, call, q) && !q.phase.Submitted? && !q.phase.AwaitAudit?
    requires Drifted(n.tickets[q.id], q.version, q.phase.before) && q.phase.before.status != DONE
    ensures CanMislead(m)
  {
    var k := ToWrite(m, n, call, q);
    var q' := k.requests[call];
    if k.tickets[q.id].version < q.version {
      var other := FreshCall(k.requests.Keys);
      k := Climb(m, k, other, q.id, q.version);
    }
    assert Active(k.tickets, q.id) && k.requests[call] == q';
    k := UnlinkAll(m, k, q.id);
    LeadsRecorded(m, k);
    CommitsUntruth(k, call, q');
    assert Leads(m, k) && !TrueCommit(k, call);
  }

  lemma UnreadMisleads(m: Machine, call: int)
    requires Recorded(m) && call in m.requests && m.requests[call].phase.Submitted? && Dangerous(m, m.requests[call])
    ensures CanMislead(m)
  {
    var q := m.requests[call];
    var n := Prepare(m, call);
    var k, q' := ReadNow(m, n, call, q);
    ReadCallMisleads(m, k, call, q');
  }

  lemma ReadMisleads(m: Machine, call: int)
    requires Recorded(m) && call in m.requests && Misleading(m, m.requests[call])
    requires !m.requests[call].phase.Submitted?
    ensures CanMislead(m)
  {
    var q := m.requests[call];
    assert ReadOk(m, q);
    var n := Prepare(m, call);
    assert n.tickets[q.id] == m.tickets[q.id].(deleted := false);
    ReadCallMisleads(m, n, call, q);
  }

  lemma MisleadingMisleads(m: Machine, call: int)
    requires Recorded(m) && call in m.requests && Misleading(m, m.requests[call])
    ensures CanMislead(m)
  {
    if m.requests[call].phase.Submitted? {
      UnreadMisleads(m, call);
    } else {
      ReadMisleads(m, call);
    }
  }

  ghost predicate HonestContinuationsTrue(m: Machine) {
    forall es :: HonestRun(m, es) ==> TrueRun(m, es)
  }

  lemma TrueSnoc(m: Machine, es: seq<Event>, e: Event)
    ensures TrueRun(m, es + [e]) <==> TrueRun(m, es) && (e.Proceed? ==> TrueCommit(Run(m, es), e.call))
  {
    assert (es + [e])[..|es|] == es;
  }

  lemma MisleadingIsUntrue(m: Machine)
    ensures CanMislead(m) ==> !HonestContinuationsTrue(m)
  {
    if CanMislead(m) {
      var n, call :| Leads(m, n) && !TrueCommit(n, call);
      var es :| HonestRun(m, es) && Run(m, es) == n;
      RunSnoc(m, es, Proceed(call));
      TrueSnoc(m, es, Proceed(call));
    }
  }

  /** In any state of any run, whatever versions were sent so far: in every continuation by clients that follow
      the version rule each UPDATE entry tells the step it was made for, exactly when no call in flight is
      misleading. */
  lemma TrueExactlyWithoutMisleading(es: seq<Event>)
    ensures HonestContinuationsTrue(Run(EMPTY, es)) <==> NoneMisleading(Run(EMPTY, es))
  {
    var m := Run(EMPTY, es);
    EmptyRecorded();
    RunRecorded(EMPTY, es);
    if NoneMisleading(m) {
      forall more | HonestRun(m, more)
        ensures TrueRun(m, more)
      {
        HonestRunIsModest(m, more);
        TruthfulRun(m, more);
      }
    } else {
      var call :| call in m.requests && Misleading(m, m.requests[call]);
      MisleadingMisleads(m, call);
      MisleadingIsUntrue(m);
    }
  }
}
