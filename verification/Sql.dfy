/** Parameterised statements: $k placeholders, their binding, and what executing them means. */
module Sql {
  import opened Schema
  import opened TicketTable

  // ----- placeholders -----

  /** A clause item pairs its target with the number k of its placeholder $k. */
  type Items<C> = seq<(C, nat)>

  predicate AllBound<C, V>(items: Items<C>, params: seq<V>) {
    forall i :: 0 <= i < |items| ==> 1 <= items[i].1 <= |params|
  }

  predicate Uses<C>(items: Items<C>, k: nat) {
    exists i :: 0 <= i < |items| && items[i].1 == k
  }

  /** Each target with the parameter its placeholder stands for. */
  function Bind<C, V>(items: Items<C>, params: seq<V>): (pairs: seq<(C, V)>)
    requires AllBound(items, params)
    ensures |pairs| == |items|
    ensures forall i :: 0 <= i < |pairs| ==> pairs[i] == (items[i].0, params[items[i].1 - 1])
  {
    seq(|items|, i requires 0 <= i < |items| => (items[i].0, params[items[i].1 - 1]))
  }

  /** The i-th item uses $i, and there is nothing else to bind. */
  ghost predicate Numbered<C, V>(items: Items<C>, params: seq<V>) {
    |items| == |params| && forall i :: 0 <= i < |items| ==> items[i].1 == i + 1
  }

  lemma BindPush<C, V>(items: Items<C>, params: seq<V>, c: C, v: V)
    requires Numbered(items, params)
    ensures var items', params' := items + [(c, |params| + 1)], params + [v];
            Numbered(items', params') && Bind(items', params') == Bind(items, params) + [(c, v)]
  {
  }

  /** Parameters pushed later do not disturb the items bound so far. */
  lemma BindMore<C, V>(items: Items<C>, params: seq<V>, more: seq<V>)
    requires AllBound(items, params)
    ensures AllBound(items, params + more) && Bind(items, params + more) == Bind(items, params)
  {
  }

  function Targets<C(==)>(items: Items<C>): set<C> {
    set i | 0 <= i < |items| :: items[i].0
  }

  /** A column may be named only once in a SET or INSERT column list. */
  predicate DistinctTargets<C(==)>(items: Items<C>) {
    forall i, j :: 0 <= i < j < |items| ==> items[i].0 != items[j].0
  }

  // ----- optional clauses -----

  /** The candidate clauses of a dynamic statement in order; None is a clause not supplied. */
  type Table<C, V> = seq<(C, Option<V>)>

  /** The supplied clauses, in order. */
  function Supplied<C, V>(table: Table<C, V>): seq<(C, V)> {
    if table == [] then []
    else
      var last := |table| - 1;
      Supplied(table[..last]) + if table[last].1.Some? then [(table[last].0, table[last].1.value)] else []
  }

  lemma SuppliedNext<C, V>(table: Table<C, V>, n: nat)
    requires n < |table|
    ensures Supplied(table[..n + 1])
         == Supplied(table[..n]) + if table[n].1.Some? then [(table[n].0, table[n].1.value)] else []
  {
    assert table[..n + 1][..n] == table[..n];
  }

  ghost predicate DistinctColumns<C, V>(table: Table<C, V>) {
    forall i, j :: 0 <= i < j < |table| ==> table[i].0 != table[j].0
  }

  /** The clauses and parameters pushed so far say exactly what the first n candidates supply. */
  ghost predicate Built<C, V>(items: Items<C>, params: seq<V>, table: Table<C, V>, n: nat) {
    && n <= |table| && Numbered(items, params) && Bind(items, params) == Supplied(table[..n])
    && DistinctTargets(items)
    && forall i :: 0 <= i < |items| ==> ColumnAmong(table, n, items[i].0)
  }

  ghost predicate ColumnAmong<C, V>(table: Table<C, V>, n: nat, c: C)
    requires n <= |table|
  {
    exists j :: 0 <= j < n && table[j].0 == c
  }

  // ----- tickets columns -----

  datatype Column = Title | Description | StatusCol | PriorityCol | TypeCol | ProjectId | AssigneeId | DueDate

  datatype Value = Null | TextV(text: string) | StatusV(status: Status) | PriorityV(priority: Priority)
                 | TypeV(kind: TicketType) | NumberV(number: int) | TimeV(time: int)

  /** Storing a value in a column; None when the type or a NOT NULL constraint rejects it. */
  function Store(t: Ticket, c: Column, v: Value): Option<Ticket> {
    match c
    case Title => if v.TextV? then Some(t.(title := v.text)) else None
    case Description =>
      if v.TextV? then Some(t.(description := Some(v.text)))
      else if v.Null? then Some(t.(description := None))
      else None
    case StatusCol => if v.StatusV? then Some(t.(status := v.status)) else None
    case PriorityCol => if v.PriorityV? then Some(t.(priority := v.priority)) else None
    case TypeCol => if v.TypeV? then Some(t.(kind := v.kind)) else None
    case ProjectId => if v.NumberV? then Some(t.(project := v.number)) else None
    case AssigneeId => if v.NumberV? then Some(t.(assignee := Some(v.number))) else None
    case DueDate => if v.TimeV? then Some(t.(dueDate := Some(v.time))) else None
  }

  function StoreAll(t: Ticket, pairs: seq<(Column, Value)>): Option<Ticket> {
    if pairs == [] then Some(t)
    else
      var last := |pairs| - 1;
      match StoreAll(t, pairs[..last])
      case None => None
      case Some(u) => Store(u, pairs[last].0, pairs[last].1)
  }

  lemma StorePush(t: Ticket, pairs: seq<(Column, Value)>, c: Column, v: Value)
    requires StoreAll(t, pairs).Some?
    ensures StoreAll(t, pairs + [(c, v)]) == Store(StoreAll(t, pairs).value, c, v)
  {
    assert (pairs + [(c, v)])[..|pairs|] == pairs;
  }

  // ----- UPDATE tickets -----

  /** UPDATE tickets SET assigns [, is_overdue = FALSE] [, version = version + 1]
      WHERE id = $idAt AND version = $versionAt AND deleted_at IS NULL RETURNING *. */
  datatype UpdateStmt = UpdateStmt(
    assigns: Items<Column>, clearOverdue: bool, bumpVersion: bool, idAt: nat, versionAt: nat)

  /** The server accepts the statement: every $k is bound, every parameter has a $k, targets differ. */
  predicate Accepted(stmt: UpdateStmt, params: seq<Value>) {
    && AllBound(stmt.assigns, params) && DistinctTargets(stmt.assigns)
    && 1 <= stmt.idAt <= |params| && 1 <= stmt.versionAt <= |params|
    && (forall k: nat :: 1 <= k <= |params| ==> k == stmt.idAt || k == stmt.versionAt || Uses(stmt.assigns, k))
  }

  /** Executing the statement: None is a server error, otherwise the new table and RETURNING row. */
  function ExecUpdate(stmt: UpdateStmt, params: seq<Value>, tickets: Tickets): Option<(Tickets, Option<Ticket>)> {
    if !Accepted(stmt, params) then None
    else match (params[stmt.idAt - 1], params[stmt.versionAt - 1])
      case (NumberV(id), NumberV(version)) =>
        if Active(tickets, id) && tickets[id].version == version then
          match StoreAll(tickets[id], Bind(stmt.assigns, params))
          case None => None
          case Some(t) =>
            var row := t.(isOverdue := !stmt.clearOverdue && t.isOverdue,
                          version := if stmt.bumpVersion then t.version + 1 else t.version);
            Some((tickets[id := row], Some(row)))
        else Some((tickets, None))
      case _ => None
  }

  // ----- INSERT INTO tickets -----

  const COLUMN_DEFAULTS := Ticket("", None, TODO, MEDIUM, BUG, 0, None, None, false, 1, false)

  /** The row INSERT (columns) VALUES (placeholders) builds; None when a NOT NULL column without
      default is missing or a value does not fit. */
  function ExecInsert(items: Items<Column>, params: seq<Value>): Option<Ticket> {
    if AllBound(items, params) && DistinctTargets(items)
       && (forall k: nat :: 1 <= k <= |params| ==> Uses(items, k))
       && Title in Targets(items)
       && TypeCol in Targets(items)
       && ProjectId in Targets(items)
    then StoreAll(COLUMN_DEFAULTS, Bind(items, params))
    else None
  }

  // ----- SELECT FROM audit_logs -----

  datatype FilterColumn = EntityTypeCol | EntityIdCol | ActionCol | ActorCol
  datatype FilterValue = EntityV(entity: Entity) | EntityIdV(id: int) | ActionV(action: Action) | ActorV(actor: Actor)
  datatype AuditFilter = AuditFilter(
    entityType: Option<Entity>, entityId: Option<int>, action: Option<Action>, actor: Option<Actor>)

  function ColumnValue(e: Entry, c: FilterColumn): FilterValue {
    match c
    case EntityTypeCol => EntityV(e.entity)
    case EntityIdCol => EntityIdV(e.entityId)
    case ActionCol => ActionV(e.action)
    case ActorCol => ActorV(e.actor)
  }

  /** WHERE c1 = v1 AND ... AND cn = vn; no conditions keep every row. */
  predicate Selected(e: Entry, pairs: seq<(FilterColumn, FilterValue)>) {
    forall i :: 0 <= i < |pairs| ==> ColumnValue(e, pairs[i].0) == pairs[i].1
  }

  /** What the caller asked for: every supplied filter holds. */
  predicate Wanted(e: Entry, f: AuditFilter) {
    && (f.entityType.Some? ==> e.entity == f.entityType.value)
    && (f.entityId.Some? ==> e.entityId == f.entityId.value)
    && (f.action.Some? ==> e.action == f.action.value)
    && (f.actor.Some? ==> e.actor == f.actor.value)
  }

  // ----- INSERT INTO comment_mentions -----

  predicate UsedInRow(rows: seq<(nat, nat)>, k: nat) {
    exists i :: 0 <= i < |rows| && (rows[i].0 == k || rows[i].1 == k)
  }

  /** VALUES ($a, $b), ... : the rows of a multi-row insert, as pairs of placeholders. */
  predicate RowsBound(rows: seq<(nat, nat)>, params: seq<int>) {
    && (forall i :: 0 <= i < |rows| ==> 1 <= rows[i].0 <= |params| && 1 <= rows[i].1 <= |params|)
    && (forall k: nat :: 1 <= k <= |params| ==> UsedInRow(rows, k))
  }

  function RowInserted(rows: seq<(nat, nat)>, params: seq<int>, i: nat): (int, int)
    requires RowsBound(rows, params) && i < |rows|
  {
    (params[rows[i].0 - 1], params[rows[i].1 - 1])
  }

  function RowsInserted(rows: seq<(nat, nat)>, params: seq<int>): set<(int, int)>
    requires RowsBound(rows, params)
  {
    set i: nat | i < |rows| :: RowInserted(rows, params, i)
  }
}
