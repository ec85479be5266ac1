/** The record level of CSV export and import: which cells a ticket becomes and which ticket a row becomes. */
module Csv {
  import opened Schema

  /** The JavaScript library functions whose results outside ASCII digits and letters do not matter here. */
  datatype Runtime = Runtime(number: string -> Option<int>, upper: string -> string)

  datatype Heading =
    | IdColumn | TitleColumn | DescriptionColumn | StatusColumn | PriorityColumn | TypeColumn | AssigneeColumn

  /** One parsed data row: the cells under the headings that are present. */
  type Record = map<Heading, string>

  // ----- text -----

  /** The characters String.prototype.trim removes. */
  predicate IsSpace(c: char) {
    var n := c as int;
    9 <= n <= 13 || n == 32 || n == 0xA0 || n == 0x1680 || 0x2000 <= n <= 0x200A
    || n == 0x2028 || n == 0x2029 || n == 0x202F || n == 0x205F || n == 0x3000 || n == 0xFEFF
  }

  function TrimStart(s: string): (r: string)
    ensures r == "" || !IsSpace(r[0])
  {
    if s == "" || !IsSpace(s[0]) then s else TrimStart(s[1..])
  }

  function TrimEnd(s: string): (r: string)
    ensures r == "" || !IsSpace(r[|r| - 1])
    ensures r <= s
  {
    if s == "" || !IsSpace(s[|s| - 1]) then s else TrimEnd(s[..|s| - 1])
  }

  function Trim(s: string): string {
    TrimEnd(TrimStart(s))
  }

  /** No surrounding whitespace. */
  predicate Trimmed(s: string) {
    s != "" ==> !IsSpace(s[0]) && !IsSpace(s[|s| - 1])
  }

  lemma TrimIdentity(s: string)
    requires Trimmed(s)
    ensures Trim(s) == s
  {
  }

  /** s.length counts UTF-16 units: two for a character beyond the basic plane. */
  function Utf16Length(s: string): nat {
    if s == "" then 0 else (if s[0] as int >= 0x10000 then 2 else 1) + Utf16Length(s[1..])
  }

  predicate IsAscii(s: string) {
    forall i :: 0 <= i < |s| ==> s[i] as int < 128
  }

  function UpperChar(c: char): char {
    if 'a' <= c <= 'z' then (c as int - 32) as char else c
  }

  function Upper(js: Runtime, s: string): string {
    if IsAscii(s) then seq(|s|, i requires 0 <= i < |s| => UpperChar(s[i])) else js.upper(s)
  }

  function Digit(n: nat): char
    requires n < 10
  {
    ('0' as int + n) as char
  }

  /** Decimal notation without leading zeros, as csv-stringify writes a number. */
  function Decimal(n: nat): (s: string)
    ensures s != ""
  {
    if n < 10 then [Digit(n)] else Decimal(n / 10) + [Digit(n % 10)]
  }

  predicate IsDigits(s: string) {
    s != "" && forall i :: 0 <= i < |s| ==> '0' <= s[i] <= '9'
  }

  function DigitsValue(s: string): nat
    requires forall i :: 0 <= i < |s| ==> '0' <= s[i] <= '9'
  {
    if s == "" then 0
    else DigitsValue(s[..|s| - 1]) * 10 + (s[|s| - 1] as int - '0' as int)
  }

  /** Number(text) restricted to integers; None for NaN and fractions. */
  function ToInteger(js: Runtime, s: string): Option<int> {
    if IsDigits(s) then Some(DigitsValue(s)) else js.number(s)
  }

  lemma {:induction false} DecimalRoundTrip(n: nat)
    ensures IsDigits(Decimal(n)) && DigitsValue(Decimal(n)) == n
  {
    if n >= 10 {
      DecimalRoundTrip(n / 10);
      var s := Decimal(n);
      assert s[..|s| - 1] == Decimal(n / 10);
    }
  }

  lemma {:induction false} DigitsAreTrimmed(s: string)
    requires IsDigits(s)
    ensures Trimmed(s)
  {
    assert '0' <= s[0] <= '9' && '0' <= s[|s| - 1] <= '9';
  }

  // ----- enum cells -----

  function StatusText(s: Status): string {
    match s
    case TODO => "TODO"
    case IN_PROGRESS => "IN_PROGRESS"
    case IN_REVIEW => "IN_REVIEW"
    case DONE => "DONE"
  }

  function PriorityText(p: Priority): string {
    match p
    case LOW => "LOW"
    case MEDIUM => "MEDIUM"
    case HIGH => "HIGH"
    case CRITICAL => "CRITICAL"
  }

  function TypeText(k: TicketType): string {
    match k
    case BUG => "BUG"
    case FEATURE => "FEATURE"
    case TECHNICAL => "TECHNICAL"
  }

  function ParseStatus(s: string): Option<Status> {
    if s == "TODO" then Some(TODO) else if s == "IN_PROGRESS" then Some(IN_PROGRESS)
    else if s == "IN_REVIEW" then Some(IN_REVIEW) else if s == "DONE" then Some(DONE) else None
  }

  function ParsePriority(s: string): Option<Priority> {
    if s == "LOW" then Some(LOW) else if s == "MEDIUM" then Some(MEDIUM)
    else if s == "HIGH" then Some(HIGH) else if s == "CRITICAL" then Some(CRITICAL) else None
  }

  function ParseType(s: string): Option<TicketType> {
    if s == "BUG" then Some(BUG) else if s == "FEATURE" then Some(FEATURE)
    else if s == "TECHNICAL" then Some(TECHNICAL) else None
  }

  // ----- rows -----

  /** raw[column] ?? '' */
  function Cell(raw: Record, column: Heading): string {
    if column in raw then raw[column] else ""
  }

  datatype RowError =
    | TitleRequired | TitleTooLong | TypeRequired | BadType | BadStatus | BadPriority | BadAssignee | InsertFailed
  datatype RowResult = Valid(dto: CreateDto) | Invalid(error: RowError)

  /** The cells an import looks at, trimmed and, for the enum columns, upper-cased. */
  datatype Cells = Cells(
    title: string, description: string, kind: string, status: string, priority: string, assignee: string)

  function CellsOf(js: Runtime, raw: Record): Cells {
    Cells(Trim(Cell(raw, TitleColumn)), Trim(Cell(raw, DescriptionColumn)), Upper(js, Trim(Cell(raw, TypeColumn))),
          Upper(js, Trim(Cell(raw, StatusColumn))), Upper(js, Trim(Cell(raw, PriorityColumn))),
          Trim(Cell(raw, AssigneeColumn)))
  }

  function CheckCells(js: Runtime, c: Cells, project: int): RowResult {
    if c.title == "" then Invalid(TitleRequired)
    else if Utf16Length(c.title) > 255 then Invalid(TitleTooLong)
    else if c.kind == "" then Invalid(TypeRequired)
    else if ParseType(c.kind).None? then Invalid(BadType)
    else if c.status != "" && ParseStatus(c.status).None? then Invalid(BadStatus)
    else if c.priority != "" && ParsePriority(c.priority).None? then Invalid(BadPriority)
    else
      var assignee := if c.assignee == "" then None else ToInteger(js, c.assignee);
      if c.assignee != "" && (assignee.None? || assignee.value < 1) then Invalid(BadAssignee)
      else Valid(CreateDto(c.title, if c.description == "" then None else Some(c.description),
                           ParseStatus(c.status), ParsePriority(c.priority),
                           ParseType(c.kind).value, project, assignee, None))
  }

  /** The first problem of a row, or the ticket input it stands for. */
  function ValidateRow(js: Runtime, raw: Record, project: int): RowResult {
    CheckCells(js, CellsOf(js, raw), project)
  }

  /** One exported record. */
  function ExportRecord(id: nat, t: Ticket): Record
    requires t.assignee.Some? ==> t.assignee.value >= 0
  {
    map[IdColumn := Decimal(id), TitleColumn := t.title, DescriptionColumn := t.description.GetOr(""),
        StatusColumn := StatusText(t.status), PriorityColumn := PriorityText(t.priority),
        TypeColumn := TypeText(t.kind),
        AssigneeColumn := AssigneeText(t.assignee)]
  }

  /** A ticket whose text survives the trimming of an import. */
  predicate Exportable(t: Ticket) {
    && t.title != "" && Trimmed(t.title) && Utf16Length(t.title) <= 255
    && Trimmed(t.description.GetOr(""))
    && (t.assignee.Some? ==> t.assignee.value >= 1)
  }

  /** What an import reads back: empty descriptions become absent, dates and flags start afresh. */
  function Reimported(t: Ticket, project: int): CreateDto {
    CreateDto(t.title, if t.description == Some("") then None else t.description,
              Some(t.status), Some(t.priority), t.kind, project, t.assignee, None)
  }

  lemma UpperStatus(js: Runtime, s: Status)
    ensures Upper(js, Trim(StatusText(s))) == StatusText(s)
  {
    TrimIdentity(StatusText(s));
  }

  lemma UpperPriority(js: Runtime, p: Priority)
    ensures Upper(js, Trim(PriorityText(p))) == PriorityText(p)
  {
    TrimIdentity(PriorityText(p));
  }

  lemma UpperType(js: Runtime, k: TicketType)
    ensures Upper(js, Trim(TypeText(k))) == TypeText(k)
  {
    TrimIdentity(TypeText(k));
  }

  lemma EnumTexts(s: Status, p: Priority, k: TicketType)
    ensures ParseStatus(StatusText(s)) == Some(s) && StatusText(s) != ""
    ensures ParsePriority(PriorityText(p)) == Some(p) && PriorityText(p) != ""
    ensures ParseType(TypeText(k)) == Some(k) && TypeText(k) != ""
  {
  }

  function AssigneeText(a: Option<int>): string
    requires a.Some? ==> a.value >= 0
  {
    if a.Some? then Decimal(a.value) else ""
  }

  lemma AssigneeRoundTrip(js: Runtime, a: Option<int>)
    requires a.Some? ==> a.value >= 1
    ensures Trim(AssigneeText(a)) == AssigneeText(a)
    ensures AssigneeText(a) == "" <==> a.None?
    ensures a.Some? ==> ToInteger(js, AssigneeText(a)) == a
  {
    if a.Some? {
      DecimalRoundTrip(a.value);
      DigitsAreTrimmed(Decimal(a.value));
      TrimIdentity(Decimal(a.value));
    } else {
      TrimIdentity("");
    }
  }

  lemma TextCells(id: nat, t: Ticket)
    requires Exportable(t)
    ensures Trim(Cell(ExportRecord(id, t), TitleColumn)) == t.title
    ensures Trim(Cell(ExportRecord(id, t), DescriptionColumn)) == t.description.GetOr("")
  {
    TrimIdentity(t.title);
    TrimIdentity(t.description.GetOr(""));
  }

  lemma EnumCells(js: Runtime, id: nat, t: Ticket)
    requires Exportable(t)
    ensures Upper(js, Trim(Cell(ExportRecord(id, t), TypeColumn))) == TypeText(t.kind)
    ensures Upper(js, Trim(Cell(ExportRecord(id, t), StatusColumn))) == StatusText(t.status)
    ensures Upper(js, Trim(Cell(ExportRecord(id, t), PriorityColumn))) == PriorityText(t.priority)
  {
    var raw := ExportRecord(id, t);
    assert Cell(raw, TypeColumn) == TypeText(t.kind);
    assert Cell(raw, StatusColumn) == StatusText(t.status);
    assert Cell(raw, PriorityColumn) == PriorityText(t.priority);
    UpperStatus(js, t.status);
    UpperPriority(js, t.priority);
    UpperType(js, t.kind);
  }

  lemma AssigneeCell(js: Runtime, id: nat, t: Ticket)
    requires Exportable(t)
    ensures Trim(Cell(ExportRecord(id, t), AssigneeColumn)) == AssigneeText(t.assignee)
  {
    AssigneeRoundTrip(js, t.assignee);
  }

  lemma ExportedCells(js: Runtime, id: nat, t: Ticket)
    requires Exportable(t)
    ensures CellsOf(js, ExportRecord(id, t))
         == Cells(t.title, t.description.GetOr(""), TypeText(t.kind), StatusText(t.status), PriorityText(t.priority),
                  AssigneeText(t.assignee))
  {
    TextCells(id, t);
    EnumCells(js, id, t);
    AssigneeCell(js, id, t);
  }

  /** Validating an exported record gives back the ticket's own fields. */
  lemma RecordRoundTrip(js: Runtime, id: nat, t: Ticket, project: int)
    requires Exportable(t)
    ensures ValidateRow(js, ExportRecord(id, t), project) == Valid(Reimported(t, project))
  {
    ExportedCells(js, id, t);
    EnumTexts(t.status, t.priority, t.kind);
    AssigneeRoundTrip(js, t.assignee);
  }
}
