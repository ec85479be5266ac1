/** The before/after difference that UPDATE audit entries record. */
module Diffing {
  import opened Schema

  function ValueOf(t: Ticket, f: Field): FieldValue {
    match f
    case FTitle => Text(Some(t.title))
    case FDescription => Text(t.description)
    case FStatus => StatusValue(t.status)
    case FPriority => PriorityValue(t.priority)
    case FAssignee => Id(t.assignee)
    case FDueDate => Time(t.dueDate)
    case FIsOverdue => Flag(t.isOverdue)
  }

  /** before[f] !== after[f] on two separately fetched rows. Dates are objects, so two non-null
      dates are never identical; all other columns compare by value. */
  predicate Differs(before: Ticket, after: Ticket, f: Field) {
    if f == FDueDate then before.dueDate.Some? || after.dueDate.Some?
    else ValueOf(before, f) != ValueOf(after, f)
  }

  function DiffOf(before: Ticket, after: Ticket, fields: set<Field>): map<Field, Change> {
    map f | f in fields && Differs(before, after, f) :: Change(ValueOf(before, f), ValueOf(after, f))
  }

  const TICKET_FIELDS: seq<Field> := [FTitle, FDescription, FStatus, FPriority, FAssignee, FDueDate, FIsOverdue]

  function FieldSet(fields: seq<Field>): set<Field> {
    set f | f in fields
  }

  method DiffMetadata(before: Ticket, after: Ticket, fields: seq<Field>) returns (diff: map<Field, Change>)
    ensures diff == DiffOf(before, after, FieldSet(fields))
  {
    diff := map[];
    for n := 0 to |fields|
      invariant diff == DiffOf(before, after, FieldSet(fields[..n]))
    {
      var f := fields[n];
      assert fields[..n + 1] == fields[..n] + [f];
      if Differs(before, after, f) {
        diff := diff[f := Change(ValueOf(before, f), ValueOf(after, f))];
      }
    }
    assert fields[..|fields|] == fields;
  }

  /** The promise "only the fields that actually changed" holds exactly when the listed fields do
      not include an unchanged, non-null due date. */
  lemma OnlyChangesRecorded(before: Ticket, after: Ticket, fields: set<Field>)
    ensures (forall f :: f in DiffOf(before, after, fields) ==> ValueOf(before, f) != ValueOf(after, f))
       <==> !(FDueDate in fields && before.dueDate.Some? && before.dueDate == after.dueDate)
    ensures forall f :: f in fields && ValueOf(before, f) != ValueOf(after, f) ==> f in DiffOf(before, after, fields)
  {
    if FDueDate in fields && before.dueDate.Some? && before.dueDate == after.dueDate {
      assert FDueDate in DiffOf(before, after, fields);
    }
  }

  /** Overwriting the recorded fields of the old values with their recorded targets gives the new values. */
  lemma DiffReproduces(before: Ticket, after: Ticket, fields: set<Field>, f: Field)
    requires f in fields
    ensures var d := DiffOf(before, after, fields);
            (if f in d then d[f].to else ValueOf(before, f)) == ValueOf(after, f)
            && (f in d ==> d[f].from == ValueOf(before, f))
  {
  }
}
