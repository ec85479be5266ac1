/** The escalation cycle as the scheduler runs it. */
module EscalationService {
  import opened Schema
  import opened TicketTable
  import opened Operations
  import opened DatabaseModel
  import TicketsRepository

  /** The level above. */
  predicate OneUp(p: Priority, next: Priority) {
    || (p == LOW && next == MEDIUM)
    || (p == MEDIUM && next == HIGH)
    || (p == HIGH && next == CRITICAL)
  }

  /** A write of a cycle fits the row as scanned: one level up below CRITICAL, otherwise the missing flag. */
  predicate Fits(scanned: Ticket, change: Escalation) {
    match change
    case Promote(next) => OneUp(scanned.priority, next)
    case MarkOverdue => scanned.priority == CRITICAL && !scanned.isOverdue
  }

  /** What a row is counted as is what was written for it. */
  predicate CountedAs(outcome: Outcome, row: (int, Ticket), writes: seq<(int, Escalation)>) {
    match outcome
    case Promoted => |writes| == 1 && writes[0].0 == row.0 && writes[0].1.Promote? && Fits(row.1, writes[0].1)
    case Marked => writes == [(row.0, MarkOverdue)] && Fits(row.1, MarkOverdue)
    case Skipped => writes == []
  }

  /** One row of the cycle: the write it calls for, and its audit entry. */
  method HandleRow(db: Database, row: (int, Ticket), calm: bool)
    returns (outcome: Outcome, ghost writes: seq<(int, Escalation)>)
    modifies db
    ensures calm ==> db.Snapshot() == EscalateRow(old(db.Snapshot()), row)
    ensures calm ==> outcome == RowOutcome(old(db.Snapshot()), row)
    ensures db.applied == old(db.applied) + writes && CountedAs(outcome, row, writes)
  {
    writes := [];
    var (id, ticket) := row;
    if !calm { db.Interference(); }
    if ticket.priority != CRITICAL {
      var next := NextPriority(ticket.priority);
      var updated := TicketsRepository.ApplyEscalation(db, id, Promote(next));
      if updated.None? {
        return Skipped, [];
      }
      if !calm { db.Interference(); }
      db.Log(Entry(PRIORITY_ESCALATED, TICKET, id, None, SYSTEM_ACTOR, Promotion(ticket.priority, next)));
      outcome, writes := Promoted, [(id, Promote(next))];
    } else if !ticket.isOverdue {
      var updated := TicketsRepository.ApplyEscalation(db, id, MarkOverdue);
      if updated.None? {
        return Skipped, [];
      }
      if !calm { db.Interference(); }
      db.Log(Entry(PRIORITY_ESCALATED, TICKET, id, None, SYSTEM_ACTOR, OverdueFlagged));
      outcome, writes := Marked, [(id, MarkOverdue)];
    } else {
      outcome := Skipped;
    }
  }

  lemma RowsSnoc(s: State, rows: seq<(int, Ticket)>, i: nat)
    requires i < |rows|
    ensures var (mid, m) := EscalateRows(s, rows[..i]);
            EscalateRows(s, rows[..i + 1])
            == (EscalateRow(mid, rows[i]), Count(m, RowOutcome(mid, rows[i])).(scanned := m.scanned + 1))
  {
    assert rows[..i + 1][..i] == rows[..i];
  }

  /** The promotions among the writes. */
  ghost function Promotions(writes: seq<(int, Escalation)>): set<nat> {
    set i | 0 <= i < |writes| && writes[i].1.Promote?
  }

  /** The flags among the writes. */
  ghost function Flags(writes: seq<(int, Escalation)>): set<nat> {
    set i | 0 <= i < |writes| && writes[i].1.MarkOverdue?
  }

  lemma OneMorePromotion(writes: seq<(int, Escalation)>, w: (int, Escalation))
    ensures |Promotions(writes + [w])| == |Promotions(writes)| + if w.1.Promote? then 1 else 0
  {
    var all, n := writes + [w], |writes|;
    assert forall i :: 0 <= i < n ==> all[i] == writes[i];
    assert Promotions(all) == Promotions(writes) + if w.1.Promote? then {n} else {};
  }

  lemma OneMoreFlag(writes: seq<(int, Escalation)>, w: (int, Escalation))
    ensures |Flags(writes + [w])| == |Flags(writes)| + if w.1.MarkOverdue? then 1 else 0
  {
    var all, n := writes + [w], |writes|;
    assert forall i :: 0 <= i < n ==> all[i] == writes[i];
    assert Flags(all) == Flags(writes) + if w.1.MarkOverdue? then {n} else {};
  }

  /** Every write goes to a row of the scan, and fits it. */
  ghost predicate AllFit(rows: seq<(int, Ticket)>, writes: seq<(int, Escalation)>) {
    forall i :: 0 <= i < |writes| ==>
      exists k :: 0 <= k < |rows| && rows[k].0 == writes[i].0 && Fits(rows[k].1, writes[i].1)
  }

  /** The counters after some rows, and the writes made for them. */
  ghost predicate Tally(rows: seq<(int, Ticket)>, m: Summary, writes: seq<(int, Escalation)>) {
    && m.scanned == m.promoted + m.markedOverdue + m.skipped
    && m.promoted == |Promotions(writes)| && m.markedOverdue == |Flags(writes)| && AllFit(rows, writes)
  }

  lemma TallyNext(rows: seq<(int, Ticket)>, m: Summary, writes: seq<(int, Escalation)>, k: nat, outcome: Outcome,
                  more: seq<(int, Escalation)>)
    requires Tally(rows, m, writes) && k < |rows| && CountedAs(outcome, rows[k], more)
    ensures Tally(rows, Count(m, outcome).(scanned := m.scanned + 1), writes + more)
  {
    if outcome == Skipped {
      assert writes + more == writes;
    } else {
      var w := more[0];
      assert more == [w];
      OneMorePromotion(writes, w);
      OneMoreFlag(writes, w);
      StillFits(rows, writes, k, w);
    }
  }

  lemma StillFits(rows: seq<(int, Ticket)>, writes: seq<(int, Escalation)>, k: nat, w: (int, Escalation))
    requires AllFit(rows, writes) && k < |rows| && rows[k].0 == w.0 && Fits(rows[k].1, w.1)
    ensures AllFit(rows, writes + [w])
  {
    var all := writes + [w];
    forall i | 0 <= i < |all|
      ensures exists k :: 0 <= k < |rows| && rows[k].0 == all[i].0 && Fits(rows[k].1, all[i].1)
    {
      if i < |writes| {
        assert all[i] == writes[i];
      } else {
        assert rows[k].0 == all[i].0 && Fits(rows[k].1, all[i].1);
      }
    }
  }

  /** The loop over the scanned rows. */
  method HandleRows(db: Database, rows: seq<(int, Ticket)>, calm: bool) returns (m: Summary)
    modifies db
    ensures m.scanned == |rows| && old(db.applied) <= db.applied
    ensures Tally(rows, m, db.applied[|old(db.applied)|..])
    ensures calm ==> (db.Snapshot(), m) == EscalateRows(old(db.Snapshot()), rows)
  {
    ghost var s, before, writes := db.Snapshot(), db.applied, [];
    ghost var r := EscalateRows(s, rows[..0]);
    var promoted, markedOverdue, skipped := 0, 0, 0;
    ghost var tally := Summary(0, 0, 0, 0);
    for i := 0 to |rows|
      invariant db.applied == before + writes && Tally(rows, tally, writes)
      invariant tally == Summary(i, promoted, markedOverdue, skipped)
      invariant r == EscalateRows(s, rows[..i])
      invariant calm ==> db.Snapshot() == r.0 && tally == r.1
    {
      RowsSnoc(s, rows, i);
      r := EscalateRows(s, rows[..i + 1]);
      var outcome, more := HandleRow(db, rows[i], calm);
      TallyNext(rows, tally, writes, i, outcome, more);
      writes, tally := writes + more, Count(tally, outcome).(scanned := i + 1);
      match outcome {
        case Promoted => promoted := promoted + 1;
        case Marked => markedOverdue := markedOverdue + 1;
        case Skipped => skipped := skipped + 1;
      }
    }
    assert rows[..|rows|] == rows;
    m := Summary(|rows|, promoted, markedOverdue, skipped);
  }

  /** One cycle at clock now. When calm, nobody else runs at the awaits and the result is exactly the
      sequential specification; otherwise anything may happen at every await. Still every scanned row is counted
      once, every write goes to a scanned row and fits it, and promoted and markedOverdue are the numbers of
      priority writes and of flag writes that went through. */
  method RunOnce(db: Database, now: int, calm: bool) returns (m: Summary)
    modifies db
    ensures m.scanned == m.promoted + m.markedOverdue + m.skipped
    ensures m.scanned == |OverdueRows(old(db.tickets), now, old(db.nextTicket))|
    ensures old(db.applied) <= db.applied
    ensures var writes := db.applied[|old(db.applied)|..];
            && AllFit(OverdueRows(old(db.tickets), now, old(db.nextTicket)), writes)
            && m.promoted == |set i | 0 <= i < |writes| && writes[i].1.Promote?|
            && m.markedOverdue == |set i | 0 <= i < |writes| && writes[i].1.MarkOverdue?|
    ensures calm ==> (db.Snapshot(), m) == Escalate(old(db.Snapshot()), now)
  {
    var overdue := TicketsRepository.FindOverdueUnresolved(db, now);
    m := HandleRows(db, overdue, calm);
  }
}
