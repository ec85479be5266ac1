/** CSV rows and records in terms of the cells alone: which rows an import accepts and what they become, with the
    names of the formats written out, and what the text functions they go through do. */
module CsvLaws {
  import opened Schema
  import opened Csv
  import opened Operations
  import P = MentionParser
  import TT = TicketTable

  // ----- text -----

  const WHITESPACE :=
    "\t\n\U{000B}\U{000C}\r \U{00A0}\U{1680}"
    + "\U{2000}\U{2001}\U{2002}\U{2003}\U{2004}\U{2005}\U{2006}\U{2007}\U{2008}\U{2009}\U{200A}"
    + "\U{2028}\U{2029}\U{202F}\U{205F}\U{3000}\U{FEFF}"

  lemma SpacesAre(c: char)
    ensures IsSpace(c) <==> c in WHITESPACE
  {
    if 0x2000 <= c as int <= 0x200A {
      assert WHITESPACE[8 + (c as int - 0x2000)] == c;
    } else if IsSpace(c) {
      assert c in ['\t', '\n', '\U{000B}', '\U{000C}', '\r', ' ', '\U{00A0}', '\U{1680}']
          || c in ['\U{2028}', '\U{2029}', '\U{202F}', '\U{205F}', '\U{3000}', '\U{FEFF}'];
      assert WHITESPACE[0] == '\t' && WHITESPACE[1] == '\n' && WHITESPACE[2] == '\U{000B}';
      assert WHITESPACE[3] == '\U{000C}' && WHITESPACE[4] == '\r' && WHITESPACE[5] == ' ';
      assert WHITESPACE[6] == '\U{00A0}' && WHITESPACE[7] == '\U{1680}' && WHITESPACE[19] == '\U{2028}';
      assert WHITESPACE[20] == '\U{2029}' && WHITESPACE[21] == '\U{202F}' && WHITESPACE[22] == '\U{205F}';
      assert WHITESPACE[23] == '\U{3000}' && WHITESPACE[24] == '\U{FEFF}';
    }
  }

  lemma {:induction false} TrimStartCuts(s: string) returns (front: string)
    ensures s == front + TrimStart(s) && forall i :: 0 <= i < |front| ==> IsSpace(front[i])
  {
    front := "";
    if s != "" && IsSpace(s[0]) {
      var rest := TrimStartCuts(s[1..]);
      front := [s[0]] + rest;
    }
  }

  lemma {:induction false} TrimEndCuts(s: string) returns (back: string)
    ensures s == TrimEnd(s) + back && forall i :: 0 <= i < |back| ==> IsSpace(back[i])
  {
    back := "";
    if s != "" && IsSpace(s[|s| - 1]) {
      var rest := TrimEndCuts(s[..|s| - 1]);
      back := rest + [s[|s| - 1]];
    }
  }

  /** Trimming takes whitespace off both ends, and leaves none there. */
  lemma TrimCuts(s: string)
    ensures exists front, back: string :: s == front + Trim(s) + back
              && (forall i :: 0 <= i < |front| ==> front[i] in WHITESPACE)
              && (forall i :: 0 <= i < |back| ==> back[i] in WHITESPACE)
    ensures Trim(s) != "" ==> Trim(s)[0] !in WHITESPACE && Trim(s)[|Trim(s)| - 1] !in WHITESPACE
  {
    var front := TrimStartCuts(s);
    var back := TrimEndCuts(TrimStart(s));
    forall i | 0 <= i < |front|
      ensures front[i] in WHITESPACE
    {
      SpacesAre(front[i]);
    }
    forall i | 0 <= i < |back|
      ensures back[i] in WHITESPACE
    {
      SpacesAre(back[i]);
    }
    assert s == front + Trim(s) + back;
    if Trim(s) != "" {
      assert Trim(s)[0] == TrimStart(s)[0];
      SpacesAre(Trim(s)[0]);
      SpacesAre(Trim(s)[|Trim(s)| - 1]);
    }
  }

  ghost function Wide(s: string): set<int> {
    set i | 0 <= i < |s| && s[i] > '\U{FFFF}'
  }

  lemma {:induction false} UnitsSnoc(s: string)
    requires s != ""
    ensures Utf16Length(s) == Utf16Length(s[..|s| - 1]) + if s[|s| - 1] > '\U{FFFF}' then 2 else 1
  {
    if |s| > 1 {
      UnitsSnoc(s[1..]);
      assert s[1..][..|s| - 2] == s[..|s| - 1][1..];
    }
  }

  /** One unit per character, and one more for each beyond the basic plane. */
  lemma {:induction false} UnitsAre(s: string)
    ensures Utf16Length(s) == |s| + |Wide(s)|
  {
    if s == "" {
      assert Wide(s) == {};
    } else {
      var n := |s| - 1;
      UnitsSnoc(s);
      UnitsAre(s[..n]);
      if s[n] > '\U{FFFF}' {
        assert Wide(s) - {n} == Wide(s[..n]) && n in Wide(s);
      } else {
        assert Wide(s) == Wide(s[..n]);
      }
    }
  }

  /** Letters become capitals; all other ASCII characters stay. */
  lemma UpperLetters(js: Runtime, s: string, i: nat, k: nat)
    requires i < |s| && forall j :: 0 <= j < |s| ==> s[j] <= '\U{007F}'
    requires k < 26
    ensures |Upper(js, s)| == |s|
    ensures s[i] == P.SMALL_LETTERS[k] ==> Upper(js, s)[i] == P.CAPITALS[k]
    ensures s[i] !in P.SMALL_LETTERS ==> Upper(js, s)[i] == s[i]
  {
    P.SmallLetters(s[i]);
    if s[i] == P.SMALL_LETTERS[k] {
      P.LettersAt(k);
    }
  }

  /** Numerals are read, and written, in decimal. */
  lemma NumeralsAreDecimal(js: Runtime)
    ensures ToInteger(js, "0") == Some(0) && ToInteger(js, "7") == Some(7) && ToInteger(js, "420") == Some(420)
    ensures Decimal(0) == "0" && Decimal(7) == "7" && Decimal(420) == "420"
  {
    assert "420"[..2] == "42" && "42"[..1] == "4" && "4"[..0] == "" && "7"[..0] == "" && "0"[..0] == "";
    assert DigitsValue("42") == 42;
  }

  // ----- a row -----

  /** The cell without surrounding whitespace; empty when the column is missing. */
  function Cut(raw: Record, column: Heading): string {
    Trim(if column in raw then raw[column] else "")
  }

  /** The same in capitals. */
  function Caps(js: Runtime, raw: Record, column: Heading): string {
    Upper(js, Cut(raw, column))
  }

  predicate TitleFits(title: string) {
    title != "" && Utf16Length(title) <= 255
  }

  predicate NamesType(c: string) {
    c == "BUG" || c == "FEATURE" || c == "TECHNICAL"
  }

  predicate NamesStatus(c: string) {
    c == "TODO" || c == "IN_PROGRESS" || c == "IN_REVIEW" || c == "DONE"
  }

  predicate NamesPriority(c: string) {
    c == "LOW" || c == "MEDIUM" || c == "HIGH" || c == "CRITICAL"
  }

  predicate PositiveInteger(js: Runtime, c: string) {
    ToInteger(js, c).Some? && ToInteger(js, c).value > 0
  }

  /** The rows that become tickets. */
  predicate Acceptable(users: map<int, User>, js: Runtime, raw: Record) {
    && TitleFits(Cut(raw, TitleColumn))
    && NamesType(Caps(js, raw, TypeColumn))
    && (Caps(js, raw, StatusColumn) == "" || NamesStatus(Caps(js, raw, StatusColumn)))
    && (Caps(js, raw, PriorityColumn) == "" || NamesPriority(Caps(js, raw, PriorityColumn)))
    && (Cut(raw, AssigneeColumn) == ""
        || (PositiveInteger(js, Cut(raw, AssigneeColumn)) && ToInteger(js, Cut(raw, AssigneeColumn)).value in users))
  }

  predicate TypeReads(c: string, k: TicketType) {
    (k == BUG && c == "BUG") || (k == FEATURE && c == "FEATURE") || (k == TECHNICAL && c == "TECHNICAL")
  }

  /** A blank status is TODO. */
  predicate StatusReads(c: string, s: Status) {
    || (s == TODO && (c == "TODO" || c == "")) || (s == IN_PROGRESS && c == "IN_PROGRESS")
    || (s == IN_REVIEW && c == "IN_REVIEW") || (s == DONE && c == "DONE")
  }

  /** A blank priority is MEDIUM. */
  predicate PriorityReads(c: string, p: Priority) {
    || (p == LOW && c == "LOW") || (p == MEDIUM && (c == "MEDIUM" || c == ""))
    || (p == HIGH && c == "HIGH") || (p == CRITICAL && c == "CRITICAL")
  }

  /** The ticket an accepted row becomes. */
  ghost predicate Becomes(js: Runtime, raw: Record, project: int, t: Ticket) {
    && t.title == Cut(raw, TitleColumn)
    && t.description == (if Cut(raw, DescriptionColumn) == "" then None else Some(Cut(raw, DescriptionColumn)))
    && TypeReads(Caps(js, raw, TypeColumn), t.kind) && StatusReads(Caps(js, raw, StatusColumn), t.status)
    && PriorityReads(Caps(js, raw, PriorityColumn), t.priority)
    && t.assignee == (if Cut(raw, AssigneeColumn) == "" then None else ToInteger(js, Cut(raw, AssigneeColumn)))
    && t.project == project && t.dueDate == None && t.isOverdue == false && t.version == 1 && t.deleted == false
  }

  /** The message a refused row gets: its first problem, looking at title, type, status, priority and assignee in
      this order, and last at whether the assignee exists. */
  ghost predicate FirstProblem(users: map<int, User>, js: Runtime, raw: Record, e: RowError) {
    var kind, status, priority := Caps(js, raw, TypeColumn), Caps(js, raw, StatusColumn), Caps(js, raw, PriorityColumn);
    var title, assignee := Cut(raw, TitleColumn), Cut(raw, AssigneeColumn);
    if title == "" then e == TitleRequired
    else if Utf16Length(title) > 255 then e == TitleTooLong
    else if kind == "" then e == TypeRequired
    else if !NamesType(kind) then e == BadType
    else if status != "" && !NamesStatus(status) then e == BadStatus
    else if priority != "" && !NamesPriority(priority) then e == BadPriority
    else if assignee != "" && !PositiveInteger(js, assignee) then e == BadAssignee
    else assignee != "" && ToInteger(js, assignee).value !in users && e == InsertFailed
  }

  /** A row is accepted exactly when its cells say so. */
  lemma AcceptedExactly(users: map<int, User>, js: Runtime, raw: Record, project: int)
    ensures CheckRow(users, js, raw, project).Valid? <==> Acceptable(users, js, raw)
  {
  }

  lemma AcceptedBecomes(users: map<int, User>, js: Runtime, raw: Record, project: int)
    requires CheckRow(users, js, raw, project).Valid?
    ensures Becomes(js, raw, project, TT.NewRow(CheckRow(users, js, raw, project).dto))
  {
  }

  lemma RefusedFor(users: map<int, User>, js: Runtime, raw: Record, project: int)
    requires CheckRow(users, js, raw, project).Invalid?
    ensures FirstProblem(users, js, raw, CheckRow(users, js, raw, project).error)
  {
  }

  /** The seven columns of an exported record. */
  lemma RecordExactly(js: Runtime, id: nat, t: Ticket)
    requires t.assignee.Some? ==> t.assignee.value >= 0
    ensures var raw := ExportRecord(id, t);
            && raw.Keys == {IdColumn, TitleColumn, DescriptionColumn, StatusColumn, PriorityColumn, TypeColumn,
                            AssigneeColumn}
            && ToInteger(js, raw[IdColumn]) == Some(id) && raw[TitleColumn] == t.title
            && raw[DescriptionColumn] == (if t.description.Some? then t.description.value else "")
            && raw[StatusColumn] != "" && StatusReads(raw[StatusColumn], t.status)
            && raw[PriorityColumn] != "" && PriorityReads(raw[PriorityColumn], t.priority)
            && TypeReads(raw[TypeColumn], t.kind)
            && (if t.assignee.Some? then ToInteger(js, raw[AssigneeColumn]) == t.assignee
                else raw[AssigneeColumn] == "")
  {
    DecimalRoundTrip(id);
    if t.assignee.Some? {
      DecimalRoundTrip(t.assignee.value);
    }
  }
}
