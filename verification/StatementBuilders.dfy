/** The places that assemble SQL text and parameter arrays step by step. */
module StatementBuilders {
  import opened Schema
  import opened TicketTable
  import opened Sql

  /** One conditional push of a clause with the next placeholder, and of its parameter. */
  method PushIfSupplied<C, V>(items: Items<C>, params: seq<V>, i: nat, c: C, v: Option<V>,
                              ghost table: Table<C, V>, ghost n: nat)
    returns (items': Items<C>, params': seq<V>, i': nat)
    requires Built(items, params, table, n) && i == |params| + 1
    requires DistinctColumns(table) && n < |table| && table[n] == (c, v)
    ensures Built(items', params', table, n + 1) && i' == |params'| + 1
    ensures Targets(items) <= Targets(items')
  {
    items', params', i' := items, params, i;
    if v.Some? {
      BindPush(items, params, c, v.value);
      items' := items' + [(c, i')];
      i' := i' + 1;
      params' := params' + [v.value];
    }
    forall k | 0 <= k < |items'|
      ensures ColumnAmong(table, n + 1, items'[k].0)
    {
      if k < |items| {
        assert ColumnAmong(table, n, items[k].0);
      } else {
        assert table[n].0 == c;
      }
    }
    assert Targets(items) <= Targets(items') by {
      assert forall k :: 0 <= k < |items| ==> items'[k] == items[k];
    }
    SuppliedNext(table, n);
    assert Bind(items', params') == Supplied(table[..n + 1]);
  }

  /** All placeholders of a finished clause list are used. */
  lemma AllUsed<C, V>(items: Items<C>, params: seq<V>)
    requires Numbered(items, params)
    ensures forall k: nat :: 1 <= k <= |params| ==> Uses(items, k)
  {
    forall k: nat | 1 <= k <= |params|
      ensures Uses(items, k)
    {
      assert items[k - 1].1 == k;
    }
  }

  // ----- the dynamic SET clause of updateWithVersionCheck -----

  function TextOf(s: Option<string>): Option<Value> { if s.Some? then Some(TextV(s.value)) else None }
  function StatusOf(s: Option<Status>): Option<Value> { if s.Some? then Some(StatusV(s.value)) else None }
  function PriorityOf(p: Option<Priority>): Option<Value> { if p.Some? then Some(PriorityV(p.value)) else None }
  function NumberOf(n: Option<int>): Option<Value> { if n.Some? then Some(NumberV(n.value)) else None }
  function TimeOf(n: Option<int>): Option<Value> { if n.Some? then Some(TimeV(n.value)) else None }

  /** The updatable columns in the order the clause lists them. */
  function PatchTable(p: Patch): Table<Column, Value> {
    [(Title, TextOf(p.title)), (Description, TextOf(p.description)), (StatusCol, StatusOf(p.status)),
     (PriorityCol, PriorityOf(p.priority)), (AssigneeId, NumberOf(p.assignee)), (DueDate, TimeOf(p.dueDate))]
  }

  lemma StoreOptional(t: Ticket, table: Table<Column, Value>, n: nat, row: Ticket, next: Ticket)
    requires n < |table| && StoreAll(t, Supplied(table[..n])) == Some(row)
    requires if table[n].1.Some? then Store(row, table[n].0, table[n].1.value) == Some(next) else next == row
    ensures StoreAll(t, Supplied(table[..n + 1])) == Some(next)
  {
    SuppliedNext(table, n);
    var pairs := Supplied(table[..n]);
    if table[n].1.Some? {
      StorePush(t, pairs, table[n].0, table[n].1.value);
    } else {
      assert pairs + [] == pairs;
    }
  }

  /** The patch cut down to its first n columns. */
  function FirstColumns(p: Patch, n: nat): Patch {
    Patch(if n > 0 then p.title else None, if n > 1 then p.description else None, if n > 2 then p.status else None,
          if n > 3 then p.priority else None, if n > 4 then p.assignee else None, if n > 5 then p.dueDate else None)
  }

  lemma StorePatchStep(t: Ticket, p: Patch, n: nat)
    requires n < 6
    ensures var column, row, next := PatchTable(p)[n], Merge(t, FirstColumns(p, n)), Merge(t, FirstColumns(p, n + 1));
            if column.1.Some? then Store(row, column.0, column.1.value) == Some(next) else next == row
  {
    match n
    case 0 =>
    case 1 =>
    case 2 =>
    case 3 =>
    case 4 =>
    case 5 =>
  }

  /** Storing the supplied pairs one after the other is the plain record update. */
  lemma {:induction false} StorePatchColumns(t: Ticket, p: Patch, n: nat)
    requires n <= 6
    ensures StoreAll(t, Supplied(PatchTable(p)[..n])) == Some(Merge(t, FirstColumns(p, n)))
  {
    if n > 0 {
      StorePatchColumns(t, p, n - 1);
      StorePatchStep(t, p, n - 1);
      StoreOptional(t, PatchTable(p), n - 1, Merge(t, FirstColumns(p, n - 1)), Merge(t, FirstColumns(p, n)));
    }
  }

  lemma StorePatch(t: Ticket, p: Patch)
    ensures StoreAll(t, Supplied(PatchTable(p))) == Some(Merge(t, p))
  {
    StorePatchColumns(t, p, 6);
    assert PatchTable(p)[..6] == PatchTable(p);
    assert FirstColumns(p, 6) == p;
  }

  /** Executing the statement built for a patch is exactly the compare-and-bump record update. */
  lemma BuiltUpdateMeaning(stmt: UpdateStmt, params: seq<Value>, tickets: Tickets,
                           id: int, expected: int, p: Patch, resetOverdue: bool)
    requires Accepted(stmt, params) && Bind(stmt.assigns, params) == Supplied(PatchTable(p))
    requires params[stmt.idAt - 1] == NumberV(id) && params[stmt.versionAt - 1] == NumberV(expected)
    requires stmt.clearOverdue == resetOverdue && stmt.bumpVersion
    ensures ExecUpdate(stmt, params, tickets) == Some(UpdateWithVersionCheck(tickets, id, expected, p, resetOverdue))
  {
    if Active(tickets, id) {
      StorePatch(tickets[id], p);
    }
  }

  method BuildAssignments(p: Patch) returns (sets: Items<Column>, params: seq<Value>, i: nat)
    ensures Numbered(sets, params) && i == |params| + 1 && DistinctTargets(sets)
    ensures Bind(sets, params) == Supplied(PatchTable(p))
  {
    sets, params, i := [], [], 1;
    ghost var table := PatchTable(p);
    sets, params, i := PushIfSupplied(sets, params, i, Title, TextOf(p.title), table, 0);
    sets, params, i := PushIfSupplied(sets, params, i, Description, TextOf(p.description), table, 1);
    sets, params, i := PushIfSupplied(sets, params, i, StatusCol, StatusOf(p.status), table, 2);
    sets, params, i := PushIfSupplied(sets, params, i, PriorityCol, PriorityOf(p.priority), table, 3);
    sets, params, i := PushIfSupplied(sets, params, i, AssigneeId, NumberOf(p.assignee), table, 4);
    sets, params, i := PushIfSupplied(sets, params, i, DueDate, TimeOf(p.dueDate), table, 5);
    assert table[..6] == table;
  }

  method BuildUpdate(id: int, expected: int, p: Patch, resetOverdue: bool)
    returns (stmt: UpdateStmt, params: seq<Value>)
    ensures Accepted(stmt, params)
    ensures forall tickets: Tickets ::
      ExecUpdate(stmt, params, tickets) == Some(UpdateWithVersionCheck(tickets, id, expected, p, resetOverdue))
  {
    var sets, bound, i := BuildAssignments(p);
    AllUsed(sets, bound);
    BindMore(sets, bound, [NumberV(id), NumberV(expected)]);
    params := bound + [NumberV(id)];
    var idAt := i;
    i := i + 1;
    params := params + [NumberV(expected)];
    var versionAt := i;
    assert params == bound + [NumberV(id), NumberV(expected)];
    stmt := UpdateStmt(sets, resetOverdue, true, idAt, versionAt);
    forall tickets: Tickets
      ensures ExecUpdate(stmt, params, tickets) == Some(UpdateWithVersionCheck(tickets, id, expected, p, resetOverdue))
    {
      BuiltUpdateMeaning(stmt, params, tickets, id, expected, p, resetOverdue);
    }
  }

  // ----- the dynamic column list of create -----

  function DescribedAs(d: Option<string>): Value {
    if d.Some? then TextV(d.value) else Null
  }

  /** The insertable columns in the order create lists them; the first four are always there. */
  function InsertTable(dto: CreateDto): Table<Column, Value> {
    [(Title, Some(TextV(dto.title))), (Description, Some(DescribedAs(dto.description))),
     (TypeCol, Some(TypeV(dto.kind))), (ProjectId, Some(NumberV(dto.project))),
     (StatusCol, StatusOf(dto.status)), (PriorityCol, PriorityOf(dto.priority)),
     (AssigneeId, NumberOf(dto.assignee)), (DueDate, TimeOf(dto.dueDate))]
  }

  /** The row after the first n columns are stored, the others at their defaults. */
  function NewRowSoFar(dto: CreateDto, n: nat): Ticket {
    var d := COLUMN_DEFAULTS;
    Ticket(if n > 0 then dto.title else d.title, if n > 1 then dto.description else d.description,
           if n > 4 then dto.status.GetOr(TODO) else TODO, if n > 5 then dto.priority.GetOr(MEDIUM) else MEDIUM,
           if n > 2 then dto.kind else d.kind, if n > 3 then dto.project else d.project,
           if n > 6 then dto.assignee else None, if n > 7 then dto.dueDate else None, false, 1, false)
  }

  lemma StoreNewRowStep(dto: CreateDto, n: nat)
    requires n < 8
    ensures var column, row, next := InsertTable(dto)[n], NewRowSoFar(dto, n), NewRowSoFar(dto, n + 1);
            if column.1.Some? then Store(row, column.0, column.1.value) == Some(next) else next == row
  {
    match n
    case 0 =>
    case 1 =>
    case 2 =>
    case 3 =>
    case 4 =>
    case 5 =>
    case 6 =>
    case 7 =>
  }

  lemma {:induction false} StoreNewRowColumns(dto: CreateDto, n: nat)
    requires n <= 8
    ensures StoreAll(COLUMN_DEFAULTS, Supplied(InsertTable(dto)[..n])) == Some(NewRowSoFar(dto, n))
  {
    if n > 0 {
      StoreNewRowColumns(dto, n - 1);
      StoreNewRowStep(dto, n - 1);
      StoreOptional(COLUMN_DEFAULTS, InsertTable(dto), n - 1, NewRowSoFar(dto, n - 1), NewRowSoFar(dto, n));
    }
  }

  /** Omitted columns take their defaults, the others the supplied values. */
  lemma StoreNewRow(dto: CreateDto)
    ensures StoreAll(COLUMN_DEFAULTS, Supplied(InsertTable(dto))) == Some(NewRow(dto))
  {
    StoreNewRowColumns(dto, 8);
    assert InsertTable(dto)[..8] == InsertTable(dto);
  }

  lemma FirstFourColumns(dto: CreateDto, cols: Items<Column>, params: seq<Value>)
    requires cols == [(Title, 1), (Description, 2), (TypeCol, 3), (ProjectId, 4)]
    requires params == [TextV(dto.title), DescribedAs(dto.description), TypeV(dto.kind), NumberV(dto.project)]
    ensures Built(cols, params, InsertTable(dto), 4)
    ensures {Title, TypeCol, ProjectId} <= Targets(cols)
  {
    assert cols[0].0 == Title && cols[2].0 == TypeCol && cols[3].0 == ProjectId;
    var table := InsertTable(dto);
    SuppliedNext(table, 0);
    SuppliedNext(table, 1);
    SuppliedNext(table, 2);
    SuppliedNext(table, 3);
    assert Supplied(table[..1]) == [(Title, params[0])];
    assert Supplied(table[..2]) == Supplied(table[..1]) + [(Description, params[1])];
    assert Supplied(table[..3]) == Supplied(table[..2]) + [(TypeCol, params[2])];
    assert Supplied(table[..4]) == Supplied(table[..3]) + [(ProjectId, params[3])];
    forall k | 0 <= k < |cols|
      ensures ColumnAmong(table, 4, cols[k].0)
    {
      assert table[k].0 == cols[k].0;
    }
  }

  method BuildInsert(dto: CreateDto) returns (cols: Items<Column>, params: seq<Value>)
    ensures ExecInsert(cols, params) == Some(NewRow(dto))
  {
    cols := [(Title, 1), (Description, 2), (TypeCol, 3), (ProjectId, 4)];
    params := [TextV(dto.title), DescribedAs(dto.description), TypeV(dto.kind), NumberV(dto.project)];
    FirstFourColumns(dto, cols, params);
    var i: nat := 5;
    cols, params := PushOptionalColumns(dto, cols, params, i);
    AllUsed(cols, params);
    StoreNewRow(dto);
  }

  method PushOptionalColumns(dto: CreateDto, cols: Items<Column>, params: seq<Value>, i: nat)
    returns (cols': Items<Column>, params': seq<Value>)
    requires Built(cols, params, InsertTable(dto), 4) && i == |params| + 1
    ensures Numbered(cols', params') && DistinctTargets(cols') && Targets(cols) <= Targets(cols')
    ensures Bind(cols', params') == Supplied(InsertTable(dto))
  {
    var k: nat;
    ghost var table := InsertTable(dto);
    cols', params', k := PushIfSupplied(cols, params, i, StatusCol, StatusOf(dto.status), table, 4);
    cols', params', k := PushIfSupplied(cols', params', k, PriorityCol, PriorityOf(dto.priority), table, 5);
    cols', params', k := PushIfSupplied(cols', params', k, AssigneeId, NumberOf(dto.assignee), table, 6);
    cols', params', k := PushIfSupplied(cols', params', k, DueDate, TimeOf(dto.dueDate), table, 7);
    assert table[..8] == table;
  }

  // ----- the dynamic WHERE clause of the audit search -----

  function EntityOf(e: Option<Entity>): Option<FilterValue> { if e.Some? then Some(EntityV(e.value)) else None }
  function EntityIdOf(n: Option<int>): Option<FilterValue> { if n.Some? then Some(EntityIdV(n.value)) else None }
  function ActionOf(a: Option<Action>): Option<FilterValue> { if a.Some? then Some(ActionV(a.value)) else None }
  function ActorOf(a: Option<Actor>): Option<FilterValue> { if a.Some? then Some(ActorV(a.value)) else None }

  function FilterTable(f: AuditFilter): Table<FilterColumn, FilterValue> {
    [(EntityTypeCol, EntityOf(f.entityType)), (EntityIdCol, EntityIdOf(f.entityId)),
     (ActionCol, ActionOf(f.action)), (ActorCol, ActorOf(f.actor))]
  }

  lemma SelectedStep(e: Entry, table: Table<FilterColumn, FilterValue>, n: nat)
    requires n < |table|
    ensures Selected(e, Supplied(table[..n + 1]))
       <==> Selected(e, Supplied(table[..n])) && (table[n].1.Some? ==> ColumnValue(e, table[n].0) == table[n].1.value)
  {
    SuppliedNext(table, n);
    var shorter, all := Supplied(table[..n]), Supplied(table[..n + 1]);
    assert forall i :: 0 <= i < |shorter| ==> all[i] == shorter[i];
    if table[n].1.Some? {
      assert all[|shorter|] == (table[n].0, table[n].1.value);
    }
  }

  /** The conjunction of the built conditions is the conjunction of the supplied filters. */
  lemma FilterMeaning(e: Entry, f: AuditFilter)
    ensures Selected(e, Supplied(FilterTable(f))) <==> Wanted(e, f)
  {
    var table := FilterTable(f);
    SelectedStep(e, table, 0);
    SelectedStep(e, table, 1);
    SelectedStep(e, table, 2);
    SelectedStep(e, table, 3);
    assert table[..4] == table;
  }

  method BuildFilter(f: AuditFilter) returns (conditions: Items<FilterColumn>, params: seq<FilterValue>)
    ensures Numbered(conditions, params)
    ensures forall e: Entry :: Selected(e, Bind(conditions, params)) <==> Wanted(e, f)
  {
    conditions, params := [], [];
    var i: nat := 1;
    ghost var table := FilterTable(f);
    conditions, params, i := PushIfSupplied(conditions, params, i, EntityTypeCol, EntityOf(f.entityType), table, 0);
    conditions, params, i := PushIfSupplied(conditions, params, i, EntityIdCol, EntityIdOf(f.entityId), table, 1);
    conditions, params, i := PushIfSupplied(conditions, params, i, ActionCol, ActionOf(f.action), table, 2);
    conditions, params, i := PushIfSupplied(conditions, params, i, ActorCol, ActorOf(f.actor), table, 3);
    assert table[..4] == table;
    forall e: Entry
      ensures Selected(e, Bind(conditions, params)) <==> Wanted(e, f)
    {
      FilterMeaning(e, f);
    }
  }

  // ----- the VALUES list of the mention insert -----

  lemma MentionRowsBound(users: seq<int>, rows: seq<(nat, nat)>, params: seq<int>)
    requires users != [] && |rows| == |users| && |params| == |users| + 1
    requires forall i :: 0 <= i < |rows| ==> rows[i].0 == 1 && rows[i].1 == i + 2
    ensures RowsBound(rows, params)
  {
    forall k: nat | 1 <= k <= |params|
      ensures UsedInRow(rows, k)
    {
      var i := if k == 1 then 0 else k - 2;
      assert rows[i].0 == 1 && rows[i].1 == i + 2;
    }
  }

  lemma MentionRowsMeaning(comment: int, users: seq<int>, rows: seq<(nat, nat)>, params: seq<int>)
    requires |rows| == |users| && RowsBound(rows, params)
    requires forall i: nat :: i < |rows| ==> RowInserted(rows, params, i) == (comment, users[i])
    ensures RowsInserted(rows, params) == MentionPairs(comment, set u | u in users)
  {
    var inserted := RowsInserted(rows, params);
    forall u | u in users
      ensures (comment, u) in inserted
    {
      var i: nat :| i < |users| && users[i] == u;
      assert RowInserted(rows, params, i) in inserted;
    }
    forall r | r in inserted
      ensures r.0 == comment && r.1 in users
    {
      var i: nat :| i < |rows| && r == RowInserted(rows, params, i);
    }
    forall r | r in inserted
      ensures r in MentionPairs(comment, set u | u in users)
    {
      assert r == (comment, r.1);
    }
    forall r | r in MentionPairs(comment, set u | u in users)
      ensures r in inserted
    {
      assert r == (comment, r.1);
    }
  }

  /** One row ($1, $(i+2)) per user id, with the comment id as the first parameter. */
  method BuildMentionRows(comment: int, users: seq<int>) returns (rows: seq<(nat, nat)>, params: seq<int>)
    requires users != []
    ensures |rows| == |users| && RowsBound(rows, params)
    ensures RowsInserted(rows, params) == MentionPairs(comment, set u | u in users)
  {
    rows := seq(|users|, i requires 0 <= i < |users| => (1, i + 2));
    params := [comment] + users;
    MentionRowsBound(users, rows, params);
    forall i: nat | i < |rows|
      ensures RowInserted(rows, params, i) == (comment, users[i])
    {
      assert rows[i] == (1, i + 2);
    }
    MentionRowsMeaning(comment, users, rows, params);
  }
}
