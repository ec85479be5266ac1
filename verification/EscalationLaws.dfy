/** Undisturbed escalation cycles: what one cycle does to the table, and where many cycles lead. */
module EscalationLaws {
  import opened Schema
  import opened TicketTable
  import opened Operations

  /** One cycle seen from a single row. */
  function EscalatedTicket(t: Ticket, now: int): Ticket {
    if Overdue(t, now) && Decision(t).Some? then EscalatedRow(t, Decision(t).value) else t
  }

  /** One cycle applied to all ids below bound. */
  function EscalatedTable(tickets: Tickets, now: int, bound: nat): Tickets {
    map id | id in tickets :: if 0 <= id < bound then EscalatedTicket(tickets[id], now) else tickets[id]
  }

  /** Remaining escalation steps of an overdue row: levels below CRITICAL, plus the flag. */
  function Weight(t: Ticket): nat {
    3 - PriorityRank(t.priority) + if t.isOverdue then 0 else 1
  }

  function Potential(tickets: Tickets, now: int, bound: nat): nat {
    if bound == 0 then 0
    else Potential(tickets, now, bound - 1)
         + if bound - 1 in tickets && Overdue(tickets[bound - 1], now) then Weight(tickets[bound - 1]) else 0
  }

  lemma {:induction false} PotentialFrame(a: Tickets, b: Tickets, now: int, bound: nat)
    requires forall id :: 0 <= id < bound ==> (id in a <==> id in b) && (id in a ==> a[id] == b[id])
    ensures Potential(a, now, bound) == Potential(b, now, bound)
  {
    if bound > 0 {
      PotentialFrame(a, b, now, bound - 1);
    }
  }

  /** What running the loop over the rows below n is to achieve. */
  ghost predicate CycleTo(s: State, now: int, n: nat, after: State, m: Summary) {
    && after == s.(tickets := EscalatedTable(s.tickets, now, n), log := after.log, outages := after.outages)
    && m.scanned == |OverdueRows(s.tickets, now, n)| == m.promoted + m.markedOverdue + m.skipped
    && Potential(after.tickets, now, n) + m.promoted + m.markedOverdue == Potential(s.tickets, now, n)
    && (m.promoted + m.markedOverdue == 0 ==> after == s)
  }

  lemma EscalateNext(s: State, now: int, id: nat, mid: State, m: Summary)
    requires CycleTo(s, now, id, mid, m) && id in s.tickets && Overdue(s.tickets[id], now)
    ensures var row := (id, s.tickets[id]);
            CycleTo(s, now, id + 1, EscalateRow(mid, row), Count(m, RowOutcome(mid, row)).(scanned := m.scanned + 1))
  {
    var t := s.tickets[id];
    var after := EscalateRow(mid, (id, t));
    assert mid.tickets[id] == t;
    EscalationStep(t, now);
    assert after.tickets == mid.tickets[id := EscalatedTicket(t, now)];
    assert after.tickets == EscalatedTable(s.tickets, now, id + 1);
    PotentialFrame(after.tickets, mid.tickets, now, id);
  }

  /** The sequential loop over the scanned rows equals the row-wise step on the whole table; the
      potential drops by one per promotion and per flag; every scanned row is counted once. */
  lemma {:induction false} EscalatePrefix(s: State, now: int, n: nat)
    ensures var (after, m) := EscalateRows(s, OverdueRows(s.tickets, now, n)); CycleTo(s, now, n, after, m)
  {
    var rows := OverdueRows(s.tickets, now, n);
    if n == 0 {
      assert EscalatedTable(s.tickets, now, 0) == s.tickets;
    } else {
      EscalatePrefix(s, now, n - 1);
      var shorter, id := OverdueRows(s.tickets, now, n - 1), n - 1;
      if id in s.tickets && Overdue(s.tickets[id], now) {
        assert rows[..|rows| - 1] == shorter;
        var (mid, m) := EscalateRows(s, shorter);
        EscalateNext(s, now, id, mid, m);
      } else {
        assert EscalatedTable(s.tickets, now, n) == EscalatedTable(s.tickets, now, n - 1);
      }
    }
  }

  /** One cycle on one overdue row: at most one step, exactly one while any remains. */
  lemma EscalationStep(t: Ticket, now: int)
    requires Overdue(t, now)
    ensures var u := EscalatedTicket(t, now);
            && Overdue(u, now)
            && Weight(u) == Weight(t) - (if Decision(t).Some? then 1 else 0)
            && (Decision(t).None? <==> Weight(t) == 0)
            && u == t.(priority := u.priority, isOverdue := u.isOverdue, version := u.version)
  {
  }

  /** All rows of the table lie below the id sequence. */
  ghost predicate Numbered(s: State) {
    forall id :: id in s.tickets ==> 0 < id < s.nextTicket
  }

  /** A full cycle: nothing but overdue, unresolved, active rows changes. */
  lemma EscalateWhole(s: State, now: int)
    requires Numbered(s)
    ensures var (after, m) := Escalate(s, now);
            && after == s.(tickets := after.tickets, log := after.log, outages := after.outages)
            && after.tickets.Keys == s.tickets.Keys
            && (forall id :: id in s.tickets ==> after.tickets[id] == EscalatedTicket(s.tickets[id], now))
            && m.scanned == m.promoted + m.markedOverdue + m.skipped
            && Potential(after.tickets, now, s.nextTicket) + m.promoted + m.markedOverdue
               == Potential(s.tickets, now, s.nextTicket)
            && (m.promoted + m.markedOverdue == 0 ==> after == s)
  {
    EscalatePrefix(s, now, s.nextTicket);
  }

  // ----- one cycle on the rows, the counters and the log, with every condition written out -----

  ghost predicate Due(tickets: Tickets, now: int, id: int) {
    && id in tickets && tickets[id].dueDate.Some? && tickets[id].dueDate.value < now
    && tickets[id].status != DONE && tickets[id].deleted == false
  }

  ghost function DueIds(tickets: Tickets, now: int, bound: nat): set<int> {
    set id | id in tickets && 0 <= id < bound && Due(tickets, now, id)
  }

  ghost function DueBelowCritical(tickets: Tickets, now: int, bound: nat): set<int> {
    set id | id in tickets && 0 <= id < bound && Due(tickets, now, id) && tickets[id].priority != CRITICAL
  }

  ghost function DueUnflagged(tickets: Tickets, now: int, bound: nat): set<int> {
    set id | id in tickets && 0 <= id < bound && Due(tickets, now, id) && tickets[id].priority == CRITICAL
             && tickets[id].isOverdue == false
  }

  /** Each counter counts the rows it is named for. */
  ghost predicate CountsDue(tickets: Tickets, now: int, bound: nat, m: Summary) {
    && m.scanned == |DueIds(tickets, now, bound)| && m.promoted == |DueBelowCritical(tickets, now, bound)|
    && m.markedOverdue == |DueUnflagged(tickets, now, bound)|
  }

  lemma OneMoreDue(tickets: Tickets, now: int, id: nat)
    requires Due(tickets, now, id)
    ensures |DueIds(tickets, now, id + 1)| == |DueIds(tickets, now, id)| + 1
  {
    assert DueIds(tickets, now, id + 1) == DueIds(tickets, now, id) + {id};
  }

  lemma OneMoreBelowCritical(tickets: Tickets, now: int, id: nat)
    requires Due(tickets, now, id)
    ensures |DueBelowCritical(tickets, now, id + 1)|
         == |DueBelowCritical(tickets, now, id)| + if tickets[id].priority != CRITICAL then 1 else 0
  {
    var fewer, more := DueBelowCritical(tickets, now, id), DueBelowCritical(tickets, now, id + 1);
    if tickets[id].priority == CRITICAL {
      assert more == fewer;
    } else {
      assert more - {id} == fewer && id in more;
    }
  }

  lemma OneMoreUnflagged(tickets: Tickets, now: int, id: nat)
    requires Due(tickets, now, id)
    ensures |DueUnflagged(tickets, now, id + 1)|
         == |DueUnflagged(tickets, now, id)|
            + if tickets[id].priority == CRITICAL && !tickets[id].isOverdue then 1 else 0
  {
    var fewer, more := DueUnflagged(tickets, now, id), DueUnflagged(tickets, now, id + 1);
    if tickets[id].priority == CRITICAL && !tickets[id].isOverdue {
      assert more - {id} == fewer && id in more;
    } else {
      assert more == fewer;
    }
  }

  lemma CountsDueNext(tickets: Tickets, now: int, id: nat, m: Summary, next: Summary)
    requires CountsDue(tickets, now, id, m) && Due(tickets, now, id)
    requires next.scanned == m.scanned + 1
    requires next.promoted == m.promoted + if tickets[id].priority != CRITICAL then 1 else 0
    requires next.markedOverdue
          == m.markedOverdue + if tickets[id].priority == CRITICAL && !tickets[id].isOverdue then 1 else 0
    ensures CountsDue(tickets, now, id + 1, next)
  {
    OneMoreDue(tickets, now, id);
    OneMoreBelowCritical(tickets, now, id);
    OneMoreUnflagged(tickets, now, id);
  }

  lemma CountsDueSkip(tickets: Tickets, now: int, id: nat, m: Summary)
    requires CountsDue(tickets, now, id, m) && !Due(tickets, now, id)
    ensures CountsDue(tickets, now, id + 1, m)
  {
    assert DueIds(tickets, now, id + 1) == DueIds(tickets, now, id);
    assert DueBelowCritical(tickets, now, id + 1) == DueBelowCritical(tickets, now, id);
    assert DueUnflagged(tickets, now, id + 1) == DueUnflagged(tickets, now, id);
  }

  /** The loop over one id more. */
  lemma NextDue(s: State, now: int, id: nat)
    requires Due(s.tickets, now, id)
    ensures var (mid, m) := EscalateRows(s, OverdueRows(s.tickets, now, id));
            var row := (id as int, s.tickets[id]);
            && id in mid.tickets && mid.tickets[id] == s.tickets[id]
            && EscalateRows(s, OverdueRows(s.tickets, now, id + 1))
               == (EscalateRow(mid, row), Count(m, RowOutcome(mid, row)).(scanned := m.scanned + 1))
  {
    EscalatePrefix(s, now, id);
    var rows := OverdueRows(s.tickets, now, id + 1);
    assert rows[..|rows| - 1] == OverdueRows(s.tickets, now, id);
  }

  lemma NextCounters(s: State, now: int, id: nat)
    requires Due(s.tickets, now, id)
    requires CountsDue(s.tickets, now, id, EscalateRows(s, OverdueRows(s.tickets, now, id)).1)
    ensures CountsDue(s.tickets, now, id + 1, EscalateRows(s, OverdueRows(s.tickets, now, id + 1)).1)
  {
    NextDue(s, now, id);
    var m := EscalateRows(s, OverdueRows(s.tickets, now, id)).1;
    var next := EscalateRows(s, OverdueRows(s.tickets, now, id + 1)).1;
    CountsDueNext(s.tickets, now, id, m, next);
  }

  lemma {:induction false} EscalateCounts(s: State, now: int, n: nat)
    ensures CountsDue(s.tickets, now, n, EscalateRows(s, OverdueRows(s.tickets, now, n)).1)
  {
    if n == 0 {
      assert DueIds(s.tickets, now, 0) == {} == DueBelowCritical(s.tickets, now, 0) == DueUnflagged(s.tickets, now, 0);
    } else {
      EscalateCounts(s, now, n - 1);
      if Due(s.tickets, now, n - 1) {
        NextCounters(s, now, n - 1);
      } else {
        CountsDueSkip(s.tickets, now, n - 1, EscalateRows(s, OverdueRows(s.tickets, now, n - 1)).1);
      }
    }
  }

  /** One level up with the next version; at the top the flag with the next version; then nothing. */
  ghost predicate StepsOn(t: Ticket, u: Ticket) {
    match t.priority
    case LOW => u == t.(priority := MEDIUM, version := t.version + 1)
    case MEDIUM => u == t.(priority := HIGH, version := t.version + 1)
    case HIGH => u == t.(priority := CRITICAL, version := t.version + 1)
    case CRITICAL => u == if t.isOverdue then t else t.(isOverdue := true, version := t.version + 1)
  }

  /** A whole undisturbed cycle: scanned are the active, unresolved tickets due before now, promoted those of them
      below CRITICAL, and marked overdue those at CRITICAL without the flag. */
  lemma CountersExactly(s: State, now: int)
    requires Numbered(s)
    ensures var m := Escalate(s, now).1;
            && m.scanned == |set id | id in s.tickets && Due(s.tickets, now, id)|
            && m.promoted == |set id | id in s.tickets && Due(s.tickets, now, id) && s.tickets[id].priority != CRITICAL|
            && m.markedOverdue == |set id | id in s.tickets && Due(s.tickets, now, id)
                                             && s.tickets[id].priority == CRITICAL && !s.tickets[id].isOverdue|
            && m.scanned == m.promoted + m.markedOverdue + m.skipped
  {
    EscalatePrefix(s, now, s.nextTicket);
    EscalateCounts(s, now, s.nextTicket);
    assert DueIds(s.tickets, now, s.nextTicket) == set id | id in s.tickets && Due(s.tickets, now, id);
    assert DueBelowCritical(s.tickets, now, s.nextTicket)
        == set id | id in s.tickets && Due(s.tickets, now, id) && s.tickets[id].priority != CRITICAL;
    assert DueUnflagged(s.tickets, now, s.nextTicket)
        == set id | id in s.tickets && Due(s.tickets, now, id) && s.tickets[id].priority == CRITICAL
                    && !s.tickets[id].isOverdue;
  }

  /** Exactly these rows step on. */
  lemma RowsExactly(s: State, now: int)
    requires Numbered(s)
    ensures var after := Escalate(s, now).0;
            && after.tickets.Keys == s.tickets.Keys
            && forall id :: id in s.tickets ==>
                 if Due(s.tickets, now, id) then StepsOn(s.tickets[id], after.tickets[id])
                 else after.tickets[id] == s.tickets[id]
  {
    EscalateWhole(s, now);
  }

  /** The entries of a cycle over the ids below bound: one by the system for each step, in id order. */
  ghost function CycleEntries(tickets: Tickets, now: int, bound: nat): seq<Entry> {
    if bound == 0 then []
    else
      CycleEntries(tickets, now, bound - 1)
      + if Due(tickets, now, bound - 1) then EntriesFor(bound - 1, tickets[bound - 1]) else []
  }

  ghost function EntriesFor(id: int, t: Ticket): seq<Entry> {
    match t.priority
    case LOW => [Entry(PRIORITY_ESCALATED, TICKET, id, None, SYSTEM_ACTOR, Promotion(LOW, MEDIUM))]
    case MEDIUM => [Entry(PRIORITY_ESCALATED, TICKET, id, None, SYSTEM_ACTOR, Promotion(MEDIUM, HIGH))]
    case HIGH => [Entry(PRIORITY_ESCALATED, TICKET, id, None, SYSTEM_ACTOR, Promotion(HIGH, CRITICAL))]
    case CRITICAL =>
      if t.isOverdue then [] else [Entry(PRIORITY_ESCALATED, TICKET, id, None, SYSTEM_ACTOR, OverdueFlagged)]
  }

  lemma EscalateRowLogs(s: State, id: int, t: Ticket)
    requires s.outages == [] && Open(s.tickets, id)
    ensures var after := EscalateRow(s, (id, t)); after.outages == [] && after.log == s.log + EntriesFor(id, t)
  {
    if Decision(t).None? {
      assert EntriesFor(id, t) == [];
    } else {
      assert EntriesFor(id, t) == [EscalationEntry(id, t, Decision(t).value)];
    }
  }

  /** The loop over the rows below n has logged the entries of these ids. */
  ghost predicate LogsEntries(s: State, now: int, n: nat) {
    var after := EscalateRows(s, OverdueRows(s.tickets, now, n)).0;
    after.outages == [] && after.log == s.log + CycleEntries(s.tickets, now, n)
  }

  lemma NextEntries(s: State, now: int, id: nat)
    requires LogsEntries(s, now, id)
    ensures LogsEntries(s, now, id + 1)
  {
    if Due(s.tickets, now, id) {
      NextDue(s, now, id);
      EscalateRowLogs(EscalateRows(s, OverdueRows(s.tickets, now, id)).0, id, s.tickets[id]);
    }
  }

  /** The log of a whole cycle. */
  lemma {:induction false} EscalateLogs(s: State, now: int, n: nat)
    requires s.outages == []
    ensures LogsEntries(s, now, n)
  {
    if n > 0 {
      EscalateLogs(s, now, n - 1);
      NextEntries(s, now, n - 1);
    }
  }

  lemma EntriesExactly(s: State, now: int)
    requires s.outages == []
    ensures Escalate(s, now).0.log == s.log + CycleEntries(s.tickets, now, s.nextTicket)
  {
    EscalateLogs(s, now, s.nextTicket);
  }

  // ----- many cycles at a fixed clock -----

  function Cycles(s: State, now: int, k: nat): State {
    if k == 0 then s else Escalate(Cycles(s, now, k - 1), now).0
  }

  function CycledTicket(t: Ticket, now: int, k: nat): Ticket {
    if k == 0 then t else EscalatedTicket(CycledTicket(t, now, k - 1), now)
  }

  function Min(a: nat, b: nat): nat { if a < b then a else b }

  /** After k cycles an overdue ticket is k levels higher, up to CRITICAL, and is flagged once more
      cycles ran than it had levels to climb; each write bumps the version once. */
  lemma {:induction false} CycledTicketClosedForm(t: Ticket, now: int, k: nat)
    ensures var u := CycledTicket(t, now, k);
            if Overdue(t, now) then
              && Overdue(u, now)
              && PriorityRank(u.priority) == Min(3, PriorityRank(t.priority) + k)
              && u.isOverdue == (t.isOverdue || k > 3 - PriorityRank(t.priority))
              && Weight(u) == Weight(t) - Min(k, Weight(t))
              && u.version == t.version + Min(k, Weight(t))
              && u == t.(priority := u.priority, isOverdue := u.isOverdue, version := u.version)
            else u == t
  {
    if k > 0 {
      CycledTicketClosedForm(t, now, k - 1);
    }
  }

  lemma {:induction false} CyclesAreRowWise(s: State, now: int, k: nat)
    requires Numbered(s)
    ensures var after := Cycles(s, now, k);
            && after == s.(tickets := after.tickets, log := after.log, outages := after.outages)
            && after.tickets.Keys == s.tickets.Keys
            && forall id :: id in s.tickets ==> after.tickets[id] == CycledTicket(s.tickets[id], now, k)
  {
    if k > 0 {
      CyclesAreRowWise(s, now, k - 1);
      EscalateWhole(Cycles(s, now, k - 1), now);
    }
  }

  /** Exact convergence: from any state, a fifth cycle at the same clock writes nothing at all. */
  lemma FifthCycleIsQuiet(s: State, now: int)
    requires Numbered(s)
    ensures var four := Cycles(s, now, 4);
            var (five, m) := Escalate(four, now);
            five == four && m.promoted == 0 && m.markedOverdue == 0
  {
    var four := Cycles(s, now, 4);
    CyclesAreRowWise(s, now, 4);
    EscalateWhole(four, now);
    forall id | id in four.tickets
      ensures EscalatedTicket(four.tickets[id], now) == four.tickets[id]
    {
      CycledTicketClosedForm(s.tickets[id], now, 4);
    }
    PotentialFrame(Escalate(four, now).0.tickets, four.tickets, now, four.nextTicket);
  }
}
